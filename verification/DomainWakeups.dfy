/**
 Who wakes whom in the registry (crates/shbox/src/platform/linux.rs). Every step that gives
 a sleeper something to do also notifies it, with one exception: shutdown clears the
 `accepting` flag first and notifies later. Between the two a sleeping launch would be
 rejected if it looked, and nobody has told it to look.
 */
module DomainWakeups {
  import opened Options
  import opened DomainSlots
  import opened DomainMachine
  import opened DomainSystem
  import opened DomainRetry

  /** A launch asleep that nobody has notified. */
  predicate Asleep(b: Box, t: nat) {
    t in b.launches && b.launches[t].Waiting? && !b.launches[t].notified
  }

  predicate Awake(b: Box) {
    forall t :: t in b.launches && b.launches[t].Waiting? ==> b.launches[t].notified
  }

  ghost predicate AllAwake(s: System) {
    forall id :: id in s.boxes ==> Awake(s.boxes[id])
  }

  lemma NotifyWakes(b: Box)
    ensures Awake(Notify(b))
  {
  }

  lemma AwakeLaunch(b: Box, next: nat, e: BoxEvent)
    requires Awake(b) && LaunchSide(e) && LaunchEnabled(b, e)
    ensures Awake(LaunchStep(b, next, false, e))
  {
  }

  lemma AwakeRelease(b: Box, e: BoxEvent)
    requires Awake(b) && !LaunchSide(e) && !TeardownSide(e) && !KernelSide(e) && ReleaseEnabled(b, e)
    ensures Awake(ReleaseStep(b, e))
  {
  }

  /** Once launches are refused nobody goes to sleep any more. */
  lemma AwakeStep(b: Box, next: nat, e: BoxEvent)
    requires Awake(b) && Enabled(b, next, false, e)
    ensures Awake(Apply(b, next, false, e))
  {
    if LaunchSide(e) {
      AwakeLaunch(b, next, e);
    } else if !TeardownSide(e) && !KernelSide(e) {
      AwakeRelease(b, e);
    }
  }

  lemma AwakeBroadcast(b: Box, mark: bool, notify: bool)
    requires Awake(b) || notify
    ensures Awake(Broadcast(b, mark, notify))
  {
    if notify {
      NotifyWakes(if mark then Apply(b, 0, false, MarkForShutdown) else b);
    }
  }

  lemma AwakeBroadcastAll(s: System, mark: bool, notify: bool)
    requires AllAwake(s) || notify
    ensures AllAwake(s.(boxes := BroadcastAll(s.boxes, mark, notify)))
  {
    forall id | id in s.boxes ensures Awake(Broadcast(s.boxes[id], mark, notify)) {
      AwakeBroadcast(s.boxes[id], mark, notify);
    }
  }

  lemma AwakeOn(s: System, id: SandboxId, step: BoxEvent)
    requires AllAwake(s) && !s.accepting && Enabled(Lookup(s, id), s.nextGeneration, false, step)
    ensures AllAwake(s.(boxes := s.boxes[id := Apply(Lookup(s, id), s.nextGeneration, false, step)]))
  {
    assert Awake(Lookup(s, id));
    AwakeStep(Lookup(s, id), s.nextGeneration, step);
  }

  lemma AwakeSystemStep(s: System, e: Event)
    requires AllAwake(s) && !s.accepting && Allowed(s, e)
    ensures AllAwake(Step(s, e)) && !Step(s, e).accepting
  {
    match e {
      case On(id, step) => AwakeOn(s, id, step);
      case ShutdownNext(id) => AwakeOn(s, id, ReleaseBegin);
      case ShutdownCollect => AwakeOn(s, s.shutdown.current.value, ReleaseReturn);
      case ShutdownMark(_) => AwakeBroadcastAll(s, true, false);
      case ShutdownNotify => AwakeBroadcastAll(s, false, true);
      case ForceMark => AwakeBroadcastAll(s, true, true);
      case _ =>
    }
  }

  lemma {:induction false} AwakeForGood(s: System, es: seq<Event>, s': System)
    requires AllAwake(s) && !s.accepting && Runs(s, es, s')
    ensures AllAwake(s')
    decreases |es|
  {
    if es != [] {
      AwakeSystemStep(s, es[0]);
      AwakeForGood(Step(s, es[0]), es[1..], s');
    }
  }

  predicate PastNotifying(shutdown: Shutdown) {
    shutdown.Releasing? || shutdown.Done?
  }

  ghost predicate AwakeInv(s: System) {
    && (!s.shutdown.NotStarted? ==> !s.accepting)
    && (PastNotifying(s.shutdown) ==> AllAwake(s))
  }

  lemma AwakeInvKept(s: System, e: Event)
    requires AwakeInv(s) && Allowed(s, e)
    ensures AwakeInv(Step(s, e))
  {
    if PastNotifying(s.shutdown) {
      AwakeSystemStep(s, e);
    } else if e.ShutdownNotify? {
      AwakeBroadcastAll(s, false, true);
    }
  }

  lemma {:induction false} AwakeInvRun(s: System, es: seq<Event>, s': System)
    requires AwakeInv(s) && Runs(s, es, s')
    ensures AwakeInv(s')
    decreases |es|
  {
    if es != [] {
      AwakeInvKept(s, es[0]);
      AwakeInvRun(Step(s, es[0]), es[1..], s');
    }
  }

  /** The window closes: once shutdown has notified, no launch sleeps unnotified, and none
      ever will again. */
  lemma ShutdownWakesAll(es: seq<Event>, s: System, id: SandboxId, t: nat)
    requires Runs(Initial, es, s) && PastNotifying(s.shutdown)
    ensures !Asleep(Lookup(s, id), t)
  {
    AwakeInvRun(Initial, es, s);
  }

  /** Forced shutdown closes it in one section, for every continuation. */
  lemma ForceMarkWakesAll(s: System, es: seq<Event>, s': System, id: SandboxId, t: nat)
    requires Allowed(s, ForceMark) && Runs(Step(s, ForceMark), es, s')
    ensures !Asleep(Lookup(s', id), t)
  {
    AwakeBroadcastAll(s, true, true);
    AwakeForGood(Step(s, ForceMark), es, s');
  }

  // ---- the window exists -----------------------------------------------------------

  lemma {:induction false} RunsOn(s: System, es: seq<Event>, s': System, e: Event)
    requires Runs(s, es, s') && Allowed(s', e)
    ensures Runs(s, es + [e], Step(s', e))
    decreases |es|
  {
    if es == [] {
      Prepend(s, e, [], Step(s, e));
      assert es + [e] == [e] + [];
    } else {
      RunsOn(Step(s, es[0]), es[1..], s', e);
      assert (es + [e])[1..] == es[1..] + [e];
    }
  }

  /** One launch creates, a second one sleeps. */
  lemma SecondLaunchSleeps(who: Option<Identity>) returns (es: seq<BoxEvent>, c: Box)
    ensures BoxRuns(EmptyBox.(launches := map[0 := Entering(who)]), 1, true, es, c)
    ensures c.slot == Some(Creating) && Asleep(c, 1) && c.launches[1].identity == who
    ensures forall i :: 0 <= i < |es| ==> !es[i].MarkForShutdown?
  {
    var b1 := EmptyBox.(launches := map[0 := Entering(who)]);
    var b2 := b1.(slot := Some(Creating), owner := Some(ByLaunch(0)), launches := map[0 := Allocating(who)]);
    var b3 := b2.(launches := b2.launches[1 := Entering(who)]);
    c := b3.(launches := b3.launches[1 := Waiting(who, false)]);
    var e1, e2, e3 := LaunchEnter(0, true, 0), LaunchBegin(1, who), LaunchEnter(1, true, 0);
    assert Apply(b1, 1, true, e1) == b2;
    assert Apply(b2, 1, true, e2) == b3;
    assert Apply(b3, 1, true, e3) == c;
    assert BoxRuns(c, 1, true, [], c);
    BoxPrepend(b3, 1, e3, [], c);
    BoxPrepend(b2, 1, e2, [e3] + [], c);
    BoxPrepend(b1, 1, e1, [e2] + ([e3] + []), c);
    es := [e1] + ([e2] + ([e3] + []));
  }

  /** The failing run: shutdown has cleared the flag, the sleeper would be rejected, and
      nobody has notified it. */
  lemma ShutdownStrandsSleeper(id: SandboxId, who: Option<Identity>)
    ensures exists es, s :: Runs(Initial, es, s) && Asleep(Lookup(s, id), 1)
              && JoinDecision(Lookup(s, id).slot, who, s.accepting, true) == Rejected
  {
    var b1 := EmptyBox.(launches := map[0 := Entering(who)]);
    var steps, c := SecondLaunchSleeps(who);
    var run, last := AloneRun(id, b1, 1, steps, c);
    var e0 := On(id, LaunchBegin(0, who));
    assert Step(Initial, e0) == Alone(id, b1, 1) by {
      assert Initial.boxes[id := b1] == map[id := b1];
    }
    Prepend(Initial, e0, run, Alone(id, c, last));
    RunsOn(Initial, [e0] + run, Alone(id, c, last), ShutdownStore);
    assert Lookup(Step(Alone(id, c, last), ShutdownStore), id) == c;
  }
}
