/**
 The host-task registry (crates/shbox/src/server.rs): bridges are tracked under a mutex,
 remove their own entry when they finish, and are drained and awaited at shutdown. Each
 lock-held section is one step; bridges, trackers and joiners interleave freely.
 */
module HostTasks {
  /** A bridge runs, has finished but not yet removed its entry, or is over, which is when
      its join handle resolves. */
  datatype Phase = Running | Finished | Over

  datatype Bridge = Bridge(future: nat, phase: Phase)

  /** What `track` did with a future. */
  datatype Answer = Accepted(id: nat) | HandedBack

  /** A caller of `join_all`: about to close, about to drain, awaiting the drained handles,
      returned, or cancelled with handles unawaited. */
  datatype Joiner = Entering | Draining | Awaiting(left: set<nat>) | Returned | Cancelled(left: set<nat>)

  datatype Registry = Registry(
    closed: bool,
    next: nat,
    entries: set<nat>,
    bridges: map<nat, Bridge>,
    answers: map<nat, Answer>,
    joiners: map<nat, Joiner>)

  function New(): Registry {
    Registry(false, 0, {}, map[], map[], map[])
  }

  datatype Event =
    | Track(future: nat)
    | BridgeEnds(id: nat)
    | Complete(id: nat)
    | Close
    | Join(j: nat)
    | JoinCloses(j: nat)
    | Drain(j: nat)
    | Awaited(j: nat, id: nat)
    | Cancel(j: nat)

  predicate Enabled(s: Registry, e: Event) {
    match e
    case Track(f) => f !in s.answers
    case BridgeEnds(id) => id in s.bridges && s.bridges[id].phase.Running?
    case Complete(id) => id in s.bridges && s.bridges[id].phase.Finished?
    case Close => true
    case Join(j) => j !in s.joiners
    case JoinCloses(j) => j in s.joiners && s.joiners[j].Entering?
    case Drain(j) => j in s.joiners && (s.joiners[j].Draining? || s.joiners[j] == Awaiting({}))
    case Awaited(j, id) =>
      j in s.joiners && s.joiners[j].Awaiting? && id in s.joiners[j].left && id in s.bridges &&
          s.bridges[id].phase.Over?
    case Cancel(j) => j in s.joiners && s.joiners[j].Awaiting?
  }

  /** `track`: refused once closed; otherwise spawned and entered under a fresh id, all
      under the lock. */
  function TrackStep(s: Registry, f: nat): Registry {
    if s.closed then s.(answers := s.answers[f := HandedBack])
    else s.(next := s.next + 1,
            entries := s.entries + {s.next},
            bridges := s.bridges[s.next := Bridge(f, Running)],
            answers := s.answers[f := Accepted(s.next)])
  }

  function DrainStep(s: Registry, j: nat): Registry {
    s.(entries := {}, joiners := s.joiners[j := if s.entries == {} then Returned else Awaiting(s.entries)])
  }

  function Step(s: Registry, e: Event): Registry
    requires Enabled(s, e)
  {
    match e
    case Track(f) => TrackStep(s, f)
    case BridgeEnds(id) => s.(bridges := s.bridges[id := s.bridges[id].(phase := Finished)])
    case Complete(id) => s.(bridges := s.bridges[id := s.bridges[id].(phase := Over)], entries := s.entries - {id})
    case Close => s.(closed := true)
    case Join(j) => s.(joiners := s.joiners[j := Entering])
    case JoinCloses(j) => s.(closed := true, joiners := s.joiners[j := Draining])
    case Drain(j) => DrainStep(s, j)
    case Awaited(j, id) => s.(joiners := s.joiners[j := Awaiting(s.joiners[j].left - {id})])
    case Cancel(j) => s.(joiners := s.joiners[j := Cancelled(s.joiners[j].left)])
  }

  ghost predicate Runs(s: Registry, es: seq<Event>, s': Registry)
    decreases es
  {
    if es == [] then s == s' else Enabled(s, es[0]) && Runs(Step(s, es[0]), es[1..], s')
  }

  ghost predicate Reachable(s: Registry) {
    exists es :: Runs(New(), es, s)
  }

  // ---- the invariant -----------------------------------------------------------------

  function Left(joiner: Joiner): set<nat> {
    match joiner
    case Awaiting(left) => left
    case Cancelled(left) => left
    case _ => {}
  }

  /** Some joiner took the bridge's handle out of the registry. */
  predicate TakenBy(s: Registry, id: nat) {
    exists j :: j in s.joiners && id in Left(s.joiners[j])
  }

  predicate BridgeHeld(s: Registry, id: nat)
    requires id in s.bridges
  {
    && id < s.next
    && s.bridges[id].future in s.answers && s.answers[s.bridges[id].future] == Accepted(id)
    && (!s.bridges[id].phase.Over? ==> id in s.entries || TakenBy(s, id))
  }

  predicate JoinerSound(s: Registry, joiner: Joiner) {
    && (!joiner.Entering? ==> s.closed)
    && (joiner.Returned? ==> s.entries == {})
    && Left(joiner) <= s.bridges.Keys
  }

  /** A handle in the registry belongs to a bridge that is not over, and to nobody else. */
  predicate EntrySound(s: Registry, id: nat) {
    id in s.bridges && !s.bridges[id].phase.Over? && !TakenBy(s, id)
  }

  predicate AnswerSound(s: Registry, f: nat, answer: Answer) {
    match answer
    case Accepted(id) => id in s.bridges && s.bridges[id].future == f
    case HandedBack => s.closed
  }

  ghost predicate Inv(s: Registry) {
    && (forall id :: id in s.entries ==> EntrySound(s, id))
    && (forall id :: id in s.bridges ==> BridgeHeld(s, id))
    && (forall j :: j in s.joiners ==> JoinerSound(s, s.joiners[j]))
    && (forall f :: f in s.answers ==> AnswerSound(s, f, s.answers[f]))
  }

  lemma HeldKept(s: Registry, e: Event, id: nat)
    requires Inv(s) && Enabled(s, e) && id in s.bridges
    ensures id in Step(s, e).bridges && BridgeHeld(Step(s, e), id)
  {
    var s' := Step(s, e);
    assert BridgeHeld(s, id);
    if !s'.bridges[id].phase.Over? && id !in s'.entries {
      if TakenBy(s, id) {
        var j :| j in s.joiners && id in Left(s.joiners[j]);
        assert j in s'.joiners && id in Left(s'.joiners[j]);
      } else {
        assert e.Drain? && id in Left(s'.joiners[e.j]);
      }
    }
  }

  lemma AnswersKept(s: Registry, e: Event, f: nat)
    requires Inv(s) && Enabled(s, e) && f in Step(s, e).answers
    ensures AnswerSound(Step(s, e), f, Step(s, e).answers[f])
  {
    if f in s.answers {
      assert AnswerSound(s, f, s.answers[f]);
    }
    assert s.next in s.bridges ==> BridgeHeld(s, s.next);
  }

  lemma JoinersKept(s: Registry, e: Event, j: nat)
    requires Inv(s) && Enabled(s, e) && j in Step(s, e).joiners
    ensures JoinerSound(Step(s, e), Step(s, e).joiners[j])
  {
    if j in s.joiners {
      assert JoinerSound(s, s.joiners[j]);
    }
  }

  lemma NewHeld(s: Registry, e: Event, id: nat)
    requires Inv(s) && Enabled(s, e) && id in Step(s, e).bridges && id !in s.bridges
    ensures BridgeHeld(Step(s, e), id)
  {
  }

  lemma EntriesKept(s: Registry, e: Event, id: nat)
    requires Inv(s) && Enabled(s, e) && id in Step(s, e).entries
    ensures EntrySound(Step(s, e), id)
  {
    var s' := Step(s, e);
    forall j | j in s'.joiners ensures id !in Left(s'.joiners[j]) {
      if j in s.joiners {
        assert JoinerSound(s, s.joiners[j]) && (id in s.entries ==> EntrySound(s, id));
      }
    }
    if id in s.entries {
      assert EntrySound(s, id);
    }
  }

  lemma StepKeeps(s: Registry, e: Event)
    requires Inv(s) && Enabled(s, e)
    ensures Inv(Step(s, e))
  {
    var s' := Step(s, e);
    forall id | id in s'.entries ensures EntrySound(s', id) {
      EntriesKept(s, e, id);
    }
    forall id | id in s'.bridges ensures BridgeHeld(s', id) {
      if id in s.bridges {
        HeldKept(s, e, id);
      } else {
        NewHeld(s, e, id);
      }
    }
    forall j | j in s'.joiners ensures JoinerSound(s', s'.joiners[j]) {
      JoinersKept(s, e, j);
    }
    forall f | f in s'.answers ensures AnswerSound(s', f, s'.answers[f]) {
      AnswersKept(s, e, f);
    }
  }

  lemma {:induction false} RunKeeps(s: Registry, es: seq<Event>, s': Registry)
    requires Inv(s) && Runs(s, es, s')
    ensures Inv(s')
    decreases es
  {
    if es != [] {
      StepKeeps(s, es[0]);
      RunKeeps(Step(s, es[0]), es[1..], s');
    }
  }

  lemma ReachableInv(s: Registry)
    requires Reachable(s)
    ensures Inv(s)
  {
    var es :| Runs(New(), es, s);
    RunKeeps(New(), es, s);
  }

  // ---- theorems ----------------------------------------------------------------------

  /** Every future is answered once, under an id of its own: distinct futures get distinct
      bridges, and every bridge is some accepted future's. */
  lemma IdsAreUnique(s: Registry, f: nat, g: nat, id: nat)
    requires Reachable(s)
    ensures f in s.answers && g in s.answers && f != g && s.answers[f].Accepted? ==> s.answers[f] != s.answers[g]
    ensures id in s.bridges <==> exists h :: h in s.answers && s.answers[h] == Accepted(id)
  {
    ReachableInv(s);
    if f in s.answers && g in s.answers {
      assert AnswerSound(s, f, s.answers[f]) && AnswerSound(s, g, s.answers[g]);
    }
    if id in s.bridges {
      assert BridgeHeld(s, id);
    }
    if h :| h in s.answers && s.answers[h] == Accepted(id) {
      assert AnswerSound(s, h, s.answers[h]);
    }
  }

  lemma {:induction false} ClosedOnRun(s: Registry, es: seq<Event>, s': Registry)
    requires Runs(s, es, s')
    ensures s'.closed <==> s.closed || exists e :: e in es && (e.Close? || e.JoinCloses?)
    decreases es
  {
    if es != [] {
      var e := es[0];
      ClosedOnRun(Step(s, e), es[1..], s');
      assert forall x :: x in es <==> x == e || x in es[1..];
      assert Step(s, e).closed <==> s.closed || e.Close? || e.JoinCloses?;
    }
  }

  /** A future is handed back only on a run on which the registry was closed, by `close` or by
      a caller of `join_all`. */
  lemma HandedBackOnlyIfClosed(es: seq<Event>, s: Registry, f: nat)
    requires Runs(New(), es, s) && f in s.answers && s.answers[f].HandedBack?
    ensures exists e :: e in es && (e.Close? || e.JoinCloses?)
  {
    RunKeeps(New(), es, s);
    assert AnswerSound(s, f, s.answers[f]);
    ClosedOnRun(New(), es, s);
  }

  /** The registry holds exactly the handles of the bridges that are not over and that no
      caller of `join_all` has taken: a finished bridge leaves nothing behind. */
  lemma EntriesAreExact(s: Registry, id: nat)
    requires Reachable(s)
    ensures id in s.entries <==> id in s.bridges && !s.bridges[id].phase.Over? && !TakenBy(s, id)
  {
    ReachableInv(s);
    if id in s.entries {
      assert EntrySound(s, id);
    } else if id in s.bridges {
      assert BridgeHeld(s, id);
    }
  }

  /** After a close, in every continuation: nothing more is accepted, each new future is
      handed back, and no bridge is added. */
  lemma {:induction false} NothingAfterClose(s: Registry, es: seq<Event>, s': Registry)
    requires s.closed && Runs(s, es, s')
    ensures s'.closed && s'.bridges.Keys == s.bridges.Keys && s'.next == s.next
    ensures forall f :: f in s'.answers ==> if f in s.answers then s'.answers[f] == s.answers[f]
        else s'.answers[f].HandedBack?
    ensures s.answers.Keys <= s'.answers.Keys
    decreases es
  {
    if es != [] {
      var m := Step(s, es[0]);
      assert m.closed && m.bridges.Keys == s.bridges.Keys && m.next == s.next;
      NothingAfterClose(m, es[1..], s');
    }
  }

  /** Once a joiner has returned, every bridge ever accepted is over, whether it was drained
      or had removed itself before, unless another joiner still holds its handle. */
  lemma JoinedMeansOver(s: Registry, j: nat, f: nat)
    requires Reachable(s) && j in s.joiners && s.joiners[j].Returned?
    requires f in s.answers && s.answers[f].Accepted?
    ensures s.closed && s.answers[f].id in s.bridges
    ensures s.bridges[s.answers[f].id].phase.Over? || TakenBy(s, s.answers[f].id)
  {
    ReachableInv(s);
    assert AnswerSound(s, f, s.answers[f]);
    assert BridgeHeld(s, s.answers[f].id) && JoinerSound(s, s.joiners[j]);
  }

  /** With a single caller of `join_all`, as in the daemon, its return means that all
      accepted bridges are over, now and in every continuation. */
  lemma SoleJoinerDrainsAll(s: Registry, j: nat, es: seq<Event>, s': Registry, f: nat)
    requires Reachable(s) && s.joiners.Keys == {j} && s.joiners[j].Returned?
    requires Runs(s, es, s') && f in s'.answers && s'.answers[f].Accepted?
    ensures f in s.answers && s.answers[f].Accepted? && s.answers[f].id in s.bridges
    ensures s.bridges[s.answers[f].id].phase.Over?
  {
    ReachableInv(s);
    assert JoinerSound(s, s.joiners[j]);
    NothingAfterClose(s, es, s');
    JoinedMeansOver(s, j, f);
  }

  lemma {:induction false} RunsOn(s: Registry, es: seq<Event>, s': Registry, e: Event)
    requires Runs(s, es, s') && Enabled(s', e)
    ensures Runs(s, es + [e], Step(s', e))
    decreases es
  {
    if es == [] {
      assert Runs(Step(s, e), [], Step(s, e)) && [e][1..] == [] && es + [e] == [e];
    } else {
      RunsOn(Step(s, es[0]), es[1..], s', e);
      assert (es + [e])[1..] == es[1..] + [e];
    }
  }

  lemma Reach(s: Registry, e: Event) returns (s': Registry)
    requires (s == New() || Reachable(s)) && Enabled(s, e)
    ensures s' == Step(s, e) && Reachable(s')
  {
    s' := Step(s, e);
    assert Runs(New(), [], New());
    var es :| Runs(New(), es, s);
    RunsOn(New(), es, s, e);
  }

  /** A second joiner may return while a bridge the first one drained still runs. */
  lemma SecondJoinerReturnsEarly(a: nat, b: nat)
    requires a != b
    ensures exists s :: Reachable(s) && s.joiners.Keys == {a, b} && s.joiners[b].Returned?
              && 7 in s.answers && s.answers[7] == Accepted(0) && 0 in s.bridges && s.bridges[0].phase.Running?
  {
    var s1 := Reach(New(), Track(7));
    var s2 := Reach(s1, Join(a));
    var s3 := Reach(s2, JoinCloses(a));
    var s4 := Reach(s3, Drain(a));
    var s5 := Reach(s4, Join(b));
    var s6 := Reach(s5, JoinCloses(b));
    var s7 := Reach(s6, Drain(b));
    assert s7.joiners.Keys == {a, b};
  }

  /** With calls of `join_all` among `js`, a return means that every accepted bridge is over. */
  ghost predicate ReturnMeansOver(js: set<nat>) {
    forall s, j, f ::
      Reachable(s) && s.joiners.Keys <= js && j in s.joiners && s.joiners[j].Returned?
      && f in s.answers && s.answers[f].Accepted? ==>
        s.answers[f].id in s.bridges && s.bridges[s.answers[f].id].phase.Over?
  }

  /** That holds in every reachable state if and only if there is at most one call. */
  lemma ReturnMeansOverIffOneCall(js: set<nat>)
    ensures ReturnMeansOver(js) <==> forall a, b :: a in js && b in js ==> a == b
  {
    if a, b :| a in js && b in js && a != b {
      SecondJoinerReturnsEarly(a, b);
      var s :| Reachable(s) && s.joiners.Keys == {a, b} && s.joiners[b].Returned?
               && 7 in s.answers && s.answers[7] == Accepted(0) && 0 in s.bridges && s.bridges[0].phase.Running?;
      assert !ReturnMeansOver(js);
    } else {
      forall s, j, f | Reachable(s) && s.joiners.Keys <= js && j in s.joiners && s.joiners[j].Returned?
                       && f in s.answers && s.answers[f].Accepted?
        ensures s.answers[f].id in s.bridges && s.bridges[s.answers[f].id].phase.Over?
      {
        assert s.joiners.Keys == {j};
        assert Runs(s, [], s);
        SoleJoinerDrainsAll(s, j, [], s, f);
      }
    }
  }

  /** All bridges have ended and removed themselves. */
  ghost predicate AllOver(s: Registry) {
    forall id :: id in s.bridges ==> s.bridges[id].phase.Over?
  }

  lemma {:induction false} AwaitsAll(s: Registry, j: nat) returns (es: seq<Event>, s': Registry)
    requires AllOver(s) && j in s.joiners && s.joiners[j].Awaiting? && s.joiners[j].left <= s.bridges.Keys
    ensures Runs(s, es, s') && s' == s.(joiners := s.joiners[j := Awaiting({})])
    decreases |s.joiners[j].left|
  {
    if s.joiners[j].left == {} {
      es, s' := [], s;
      assert s.joiners[j := Awaiting({})] == s.joiners;
    } else {
      var id :| id in s.joiners[j].left;
      var rest;
      rest, s' := AwaitsAll(Step(s, Awaited(j, id)), j);
      es := [Awaited(j, id)] + rest;
      assert es[1..] == rest;
    }
  }

  /** Once all bridges are over, a caller of `join_all` that has closed the registry gets to
      its return, whether it has drained yet or not. */
  lemma JoinerReturns(s: Registry, j: nat) returns (es: seq<Event>, s': Registry)
    requires Reachable(s) && AllOver(s) && j in s.joiners && (s.joiners[j].Draining? || s.joiners[j].Awaiting?)
    ensures Runs(s, es, s') && s' == s.(joiners := s.joiners[j := Returned])
  {
    ReachableInv(s);
    assert JoinerSound(s, s.joiners[j]);
    assert s.entries == {} by {
      forall id ensures id !in s.entries {
        EntriesAreExact(s, id);
      }
    }
    var m, awaits := s, [];
    if s.joiners[j].Awaiting? {
      awaits, m := AwaitsAll(s, j);
    }
    s' := Step(m, Drain(j));
    es := awaits + [Drain(j)];
    RunsOn(s, awaits, m, Drain(j));
    assert s'.joiners == s.joiners[j := Returned];
  }

  /** The registry object: its lock-held sections. */
  class HostTaskRegistry {
    var tasks: set<nat>
    var nextId: nat
    var closed: bool

    ghost predicate Shows(s: Registry)
      reads this
    {
      tasks == s.entries && nextId == s.next && closed == s.closed
    }

    constructor ()
      ensures Shows(New())
    {
      tasks, nextId, closed := {}, 0, false;
    }

    method Track(future: nat, ghost s: Registry) returns (answer: Answer)
      requires Shows(s) && Inv(s) && future !in s.answers
      modifies this
      ensures Shows(TrackStep(s, future)) && answer == TrackStep(s, future).answers[future]
      ensures if old(closed) then answer == HandedBack && tasks == old(tasks)
              else answer == Accepted(old(nextId)) && answer.id !in old(tasks) && tasks == old(tasks) + {answer.id}
    {
      if closed {
        return HandedBack;
      }
      var id := nextId;
      nextId := nextId + 1;
      tasks := tasks + {id};
      answer := Accepted(id);
    }

    method Complete(id: nat, ghost s: Registry)
      requires Shows(s) && Enabled(s, Event.Complete(id))
      modifies this
      ensures Shows(Step(s, Event.Complete(id)))
      ensures tasks == old(tasks) - {id} && closed == old(closed)
    {
      tasks := tasks - {id};
    }

    method Close(ghost s: Registry)
      requires Shows(s)
      modifies this
      ensures Shows(Step(s, Event.Close))
      ensures closed && tasks == old(tasks)
    {
      closed := true;
    }

    /** One turn of the `join_all` loop: take every handle out; nothing left means done. */
    method Drain(j: nat, ghost s: Registry) returns (drained: set<nat>, done: bool)
      requires Shows(s) && Enabled(s, Event.Drain(j))
      modifies this
      ensures Shows(DrainStep(s, j))
      ensures DrainStep(s, j).joiners[j] == if done then Returned else Awaiting(drained)
      ensures drained == old(tasks) && tasks == {} && (done <==> drained == {})
    {
      drained := tasks;
      tasks := {};
      done := drained == {};
    }
  }
}
