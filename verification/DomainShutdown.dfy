/**
 When shutdown returns Ok (crates/shbox/src/platform/linux.rs): what its result says about
 the run, and from which states it can be had.
 */
module DomainShutdown {
  import opened Options
  import opened DomainSlots
  import opened DomainMachine
  import opened DomainInvariant
  import opened DomainSystem
  import opened DomainRetry

  // ---- the result, from the events -------------------------------------------------

  /** The step is shutdown's look at a release call of its own that returned an error. */
  predicate MeetsError(s: System, e: Event)
    requires Allowed(s, e)
  {
    e.ShutdownCollect? && Lookup(s, s.shutdown.current.value).release == Returned(false)
  }

  /** Somewhere on the run shutdown meets an error of a release call. */
  ghost predicate ErrorMet(s: System, es: seq<Event>)
    decreases |es|
  {
    && es != [] && Allowed(s, es[0])
    && (MeetsError(s, es[0]) || ErrorMet(Step(s, es[0]), es[1..]))
  }

  predicate HasFailed(s: System) {
    match s.shutdown
    case Notifying(_, failed) => failed
    case Releasing(_, _, failed) => failed
    case Done(ok) => !ok
    case _ => false
  }

  lemma FailureStep(s: System, e: Event)
    requires Allowed(s, e)
    ensures HasFailed(Step(s, e)) <==> HasFailed(s) || e == ShutdownMark(true) || MeetsError(s, e)
  {
  }

  lemma {:induction false} FailureOnRun(s: System, es: seq<Event>, s': System)
    requires Runs(s, es, s')
    ensures HasFailed(s') <==> HasFailed(s) || ShutdownMark(true) in es || ErrorMet(s, es)
    decreases |es|
  {
    if es != [] {
      var e, rest := es[0], es[1..];
      FailureStep(s, e);
      FailureOnRun(Step(s, e), rest, s');
      assert ShutdownMark(true) in es <==> e == ShutdownMark(true) || ShutdownMark(true) in rest;
    }
  }

  /** A shutdown that has ended returned Ok if and only if every kill of its marking worked
      and none of its release calls returned an error. */
  lemma ShutdownOkIffNothingFailed(es: seq<Event>, s: System)
    requires Runs(Initial, es, s) && s.shutdown.Done?
    ensures s.shutdown.ok <==> ShutdownMark(true) !in es && !ErrorMet(Initial, es)
  {
    FailureOnRun(Initial, es, s);
  }

  lemma {:induction false} AcceptingOnRun(s: System, es: seq<Event>, s': System)
    requires Runs(s, es, s')
    ensures s'.accepting <==> s.accepting && ShutdownStore !in es && ForceStore !in es
    decreases |es|
  {
    if es != [] {
      var e, rest := es[0], es[1..];
      AcceptingOnRun(Step(s, e), rest, s');
      assert forall x :: x in es <==> x == e || x in rest;
    }
  }

  /** Launches are accepted exactly as long as neither shutdown nor forced shutdown has begun:
      a launch that enters after that is rejected, whatever it finds. */
  lemma AcceptingIff(es: seq<Event>, s: System, slot: Option<DomainSlot>, who: Option<Identity>, dupOk: bool)
    requires Runs(Initial, es, s)
    ensures s.accepting <==> ShutdownStore !in es && ForceStore !in es
    ensures ShutdownStore in es || ForceStore in es ==> JoinDecision(slot, who, s.accepting, dupOk) == Rejected
  {
    AcceptingOnRun(Initial, es, s);
  }

  // ---- when Ok can be had ----------------------------------------------------------

  /** Nothing is under way in the sandbox and nobody is counted in. */
  predicate Quiet(b: Box) {
    b.release.Idle? && b.slot != Some(Creating) && !CountedIn(b)
  }

  ghost predicate AllQuiet(s: System) {
    forall id :: Quiet(Lookup(s, id))
  }

  /** Some run from `s` ends in a shutdown that returned Ok. */
  ghost predicate CanEndOk(s: System) {
    exists es, s' :: Runs(s, es, s') && s'.shutdown == Done(true)
  }

  lemma EndsOkAfter(s: System, e: Event)
    requires Allowed(s, e) && CanEndOk(Step(s, e))
    ensures CanEndOk(s)
  {
    var es, s' :| Runs(Step(s, e), es, s') && s'.shutdown == Done(true);
    Prepend(s, e, es, s');
  }

  /** The steps of one sandbox's succeeding release call, taken in the whole system. */
  lemma {:induction false} ReleaseInSystem(s: System, id: SandboxId, es: seq<BoxEvent>, c: Box)
    requires AllSucceed(es) && BoxRuns(Lookup(s, id), s.nextGeneration, s.accepting, es, c)
    requires CanEndOk(s.(boxes := s.boxes[id := c])) && id in s.boxes
    ensures CanEndOk(s)
    decreases |es|
  {
    if es == [] {
      assert s.boxes[id := c] == s.boxes;
    } else {
      assert Succeeding(es[0]);
      var m := Step(s, On(id, es[0]));
      assert forall i :: 0 <= i < |es[1..]| ==> es[1..][i] == es[i + 1];
      assert m.boxes[id := c] == s.boxes[id := c];
      assert m.(boxes := m.boxes[id := c]) == s.(boxes := s.boxes[id := c]);
      ReleaseInSystem(m, id, es[1..], c);
      EndsOkAfter(s, On(id, es[0]));
    }
  }

  lemma CollectsOk(s: System, id: SandboxId)
    requires s.shutdown.Releasing? && s.shutdown.current == Some(id) && !s.shutdown.failed && id in s.boxes
    requires s.boxes[id].release == Returned(true)
    requires CanEndOk(s.(boxes := s.boxes[id := s.boxes[id].(release := Idle)],
                         shutdown := Releasing(s.shutdown.rest, None, false)))
    ensures CanEndOk(s)
  {
    EndsOkAfter(s, ShutdownCollect);
  }

  /** The ids left to visit are quiet, and have boxes. */
  ghost predicate ReadyToVisit(s: System) {
    && s.shutdown.Releasing? && s.shutdown.current.None? && !s.shutdown.failed
    && forall id :: id in s.shutdown.rest ==>
         id in s.boxes && BoxInv(s.boxes[id], s.nextGeneration) && Quiet(s.boxes[id])
  }

  lemma BeginsVisit(s: System, id: SandboxId)
    requires ReadyToVisit(s) && id in s.shutdown.rest
    requires CanEndOk(s.(boxes := s.boxes[id := s.boxes[id].(release := Examining)],
                         shutdown := Releasing(s.shutdown.rest - {id}, Some(id), false)))
    ensures CanEndOk(s)
  {
    assert Quiet(s.boxes[id]);
    EndsOkAfter(s, ShutdownNext(id));
  }

  /** One visit: begin the release call, bring it to its end, collect it. */
  lemma Visits(s: System, id: SandboxId, es: seq<BoxEvent>, c: Box)
    requires ReadyToVisit(s) && id in s.shutdown.rest && c.release == Returned(true) && AllSucceed(es)
    requires BoxRuns(s.boxes[id].(release := Examining), s.nextGeneration, s.accepting, es, c)
    requires CanEndOk(s.(boxes := s.boxes[id := c.(release := Idle)],
                         shutdown := Releasing(s.shutdown.rest - {id}, None, false)))
    ensures CanEndOk(s)
  {
    var b := s.boxes[id].(release := Examining);
    var m := s.(boxes := s.boxes[id := b], shutdown := Releasing(s.shutdown.rest - {id}, Some(id), false));
    var n := m.(boxes := m.boxes[id := c]);
    assert n.boxes[id := c.(release := Idle)] == s.boxes[id := c.(release := Idle)];
    CollectsOk(n, id);
    ReleaseInSystem(m, id, es, c);
    BeginsVisit(s, id);
  }

  lemma {:induction false} VisitsAll(s: System)
    requires ReadyToVisit(s)
    ensures CanEndOk(s)
    decreases |s.shutdown.rest|
  {
    if s.shutdown.rest == {} {
      var s' := Step(s, ShutdownDone);
      assert Runs(s', [], s');
      EndsOkAfter(s, ShutdownDone);
    } else {
      var id :| id in s.shutdown.rest;
      var b := s.boxes[id];
      ReleaseMoves(b, s.nextGeneration, Examining);
      ExaminationCompletes(b.(release := Examining), s.nextGeneration, s.accepting);
      var es, c :| AllSucceed(es) && BoxRuns(b.(release := Examining), s.nextGeneration, s.accepting, es, c)
                   && c.release == Returned(true) && c.slot.None?;
      VisitsAll(s.(boxes := s.boxes[id := c.(release := Idle)],
                   shutdown := Releasing(s.shutdown.rest - {id}, None, false)));
      Visits(s, id, es, c);
    }
  }

  lemma BroadcastIsQuiet(b: Box, mark: bool, notify: bool)
    requires Quiet(b)
    ensures Quiet(Broadcast(b, mark, notify))
  {
  }

  /** Shutdown's first three steps leave every sandbox quiet and every slot to be visited. */
  lemma MarkedAndNotified(s: System) returns (m: System)
    requires Inv(s) && s.shutdown.NotStarted? && AllQuiet(s)
    ensures ReadyToVisit(m) && (CanEndOk(m) ==> CanEndOk(s))
  {
    var s1 := Step(s, ShutdownStore);
    var s2 := Step(s1, ShutdownMark(false));
    m := Step(s2, ShutdownNotify);
    InvKept(s, ShutdownStore);
    InvKept(s1, ShutdownMark(false));
    InvKept(s2, ShutdownNotify);
    forall id | id in m.shutdown.rest ensures id in m.boxes && Quiet(m.boxes[id]) {
      assert Quiet(Lookup(s, id));
      BroadcastIsQuiet(s.boxes[id], true, false);
      BroadcastIsQuiet(s2.boxes[id], false, true);
    }
    if CanEndOk(m) {
      EndsOkAfter(s2, ShutdownNotify);
      EndsOkAfter(s1, ShutdownMark(false));
      EndsOkAfter(s, ShutdownStore);
    }
  }

  /** A counted launch nobody holds a lease for keeps its sandbox's slot for ever. */
  lemma LeakPreventsOk(es: seq<Event>, s: System, id: SandboxId)
    requires Runs(Initial, es, s) && Lookup(s, id).leases == map[] && CountedIn(Lookup(s, id))
    ensures !CanEndOk(s)
  {
    LeakIsVisible(es, s, id);
    RunKeeps(Initial, es, s);
    forall more, s' | Runs(s, more, s') ensures s'.shutdown != Done(true) {
      WedgedInEveryFuture(s, more, s', id);
      RunKeeps(s, more, s');
      assert id in SlotIds(s');
    }
  }

  /** From every reachable state with no shutdown begun, no marker, no live lease and no
      release in progress, active and pending sandboxes included: some shutdown returns Ok if
      and only if no sandbox counts a launch in. */
  lemma ShutdownSucceedsIffNoLeak(es: seq<Event>, s: System)
    requires Runs(Initial, es, s) && s.shutdown.NotStarted?
    requires forall id :: var b := Lookup(s, id); b.release.Idle? && b.slot != Some(Creating) && b.leases == map[]
    ensures CanEndOk(s) <==> forall id :: !CountedIn(Lookup(s, id))
  {
    if id :| CountedIn(Lookup(s, id)) {
      LeakPreventsOk(es, s, id);
    } else {
      RunKeeps(Initial, es, s);
      var m := MarkedAndNotified(s);
      VisitsAll(m);
    }
  }

  /** The only lease goes while the cgroup's state cannot be read: the sandbox stays active. */
  lemma LeaseGoes(b: Box, next: nat, g: nat, who: Option<Identity>, l: nat) returns (c: Box)
    requires b.slot == Some(Active(g, 1, g, g, who, who.Some?)) && b.leases == map[l := g]
    ensures BoxRuns(b, next, true, [LeaseDrop(l, None, None, true, true)] + [], c)
    ensures c.slot == Some(Active(g, 0, g, g, who, who.Some?)) && c.leases == map[]
    ensures b.release.Idle? ==> c.release.Idle?
  {
    var drop := LeaseDrop(l, None, None, true, true);
    c := Apply(b, next, true, drop);
    assert c.leases == map[];
    assert BoxRuns(c, next, true, [], c);
    BoxPrepend(b, next, drop, [], c);
  }

  /** A daemon with an active sandbox nobody uses any more: its shutdown can return Ok. */
  lemma ActiveSandboxShutsDown(id: SandboxId, who: Option<Identity>)
    ensures exists es, s :: Runs(Initial, es, s) && CanEndOk(s)
                            && Lookup(s, id).slot.Some? && Lookup(s, id).slot.value.Active?
  {
    LookupSound(Initial, id);
    var es1, b := UndisturbedLaunch(EmptyBox, 1, 0, who, 0);
    var next := NumberAfter(1, es1);
    var c := LeaseGoes(b, next, 1, who, 0);
    var es2 := [LeaseDrop(0, None, None, true, true)] + [];
    BoxRunsThen(EmptyBox, 1, es1, b, next, es2, c);
    var run, s := FromInitial(id, es1 + es2, c);
    ShutdownSucceedsIffNoLeak(run, s);
  }
}
