/**
 When deleting a sandbox can succeed: exactly when no launch leaked.

 A launch that publishes a generation is counted in before the mount namespace
 descriptor is duplicated for it; if that duplication fails the launch returns an error
 and no lease exists to count it out again.
 */
module DomainRetry {
  import opened Options
  import opened DomainSlots
  import opened DomainMachine
  import opened DomainInvariant
  import opened DomainSystem
  import opened DomainTheorems

  /** `es` leads one sandbox from `b` to `c`, no matter how its activities interleave. */
  ghost predicate BoxRuns(b: Box, next: nat, accepting: bool, es: seq<BoxEvent>, c: Box)
    decreases |es|
  {
    if es == [] then b == c
    else
      && Enabled(b, next, accepting, es[0])
      && BoxRuns(Apply(b, next, accepting, es[0]), NextAfter(next, es[0]), accepting, es[1..], c)
  }

  /** The steps of a release call whose every operation succeeds, and processes exiting. */
  predicate Succeeding(e: BoxEvent) {
    match e
    case ReleaseBegin => true
    case ReleaseExamine(killOk) => killOk
    case ReleaseRemovePending(ok) => ok
    case ReleaseAfterPending => true
    case TeardownKill(ok) => ok
    case TeardownAwait(empty) => empty
    case TeardownCheck(populated) => populated == Some(false)
    case TeardownUnlink(ok) => ok
    case TeardownTemp(ok) => ok
    case TeardownFinish => true
    case Exit(_) => true
    case _ => false
  }

  predicate AllSucceed(es: seq<BoxEvent>) {
    forall i :: 0 <= i < |es| ==> Succeeding(es[i])
  }

  /** A successful release call is possible from `b`. */
  ghost predicate Releasable(b: Box, next: nat, accepting: bool) {
    exists es, c :: AllSucceed(es) && BoxRuns(b, next, accepting, es, c) && c.release == Returned(true) && c.slot.None?
  }

  lemma OneMore(b: Box, next: nat, accepting: bool, e: BoxEvent)
    requires Enabled(b, next, accepting, e) && Succeeding(e)
    requires Releasable(Apply(b, next, accepting, e), next, accepting)
    ensures Releasable(b, next, accepting)
  {
    var es, c :| AllSucceed(es) && BoxRuns(Apply(b, next, accepting, e), next, accepting, es, c) &&
        c.release == Returned(true) && c.slot.None?;
    assert ([e] + es)[1..] == es;
    assert AllSucceed([e] + es);
    assert BoxRuns(b, next, accepting, [e] + es, c);
  }

  lemma Arrived(b: Box, next: nat, accepting: bool)
    requires b.release == Returned(true) && b.slot.None?
    ensures Releasable(b, next, accepting)
  {
    assert BoxRuns(b, next, accepting, [], b) && AllSucceed([]);
  }

  /** The next step of a teardown whose operations succeed. */
  function NextStep(b: Box): BoxEvent
    requires b.release.TearingDown? && TeardownSound(b)
  {
    var g := b.slot.value.generation;
    match b.release.stage
    case Kill => TeardownKill(true)
    case AwaitEmpty => if b.gens[g].members > 0 then Exit(g) else TeardownAwait(true)
    case CheckEmpty => TeardownCheck(Some(false))
    case Unlink => TeardownUnlink(true)
    case RemoveTemp => TeardownTemp(true)
    case Finish(_) => TeardownFinish
  }

  function StagesLeft(stage: Stage): nat {
    match stage
    case Kill => 5
    case AwaitEmpty => 4
    case CheckEmpty => 3
    case Unlink => 2
    case RemoveTemp => 1
    case Finish(_) => 0
  }

  lemma TeardownAdvances(b: Box, next: nat, accepting: bool)
    requires b.release.TearingDown? && b.release.stage != Finish(false) && TeardownSound(b)
    ensures Enabled(b, next, accepting, NextStep(b)) && Succeeding(NextStep(b))
    ensures var c := Apply(b, next, accepting, NextStep(b));
      if b.release.stage.Finish? then c.release == Returned(true) && c.slot.None?
      else
        && c.release.TearingDown? && c.release.stage != Finish(false)
        && c.slot == b.slot && b.slot.value.generation in c.gens
        && (|| StagesLeft(c.release.stage) < StagesLeft(b.release.stage)
            || (c.release.stage == b.release.stage &&
                c.gens[b.slot.value.generation].members < b.gens[b.slot.value.generation].members))
  {
  }

  /** Once every lease is gone the teardown runs to its end. */
  lemma {:induction false} TeardownCompletes(b: Box, next: nat, accepting: bool)
    requires BoxInv(b, next)
    requires b.release.TearingDown? && b.release.stage != Finish(false)
    ensures Releasable(b, next, accepting)
    decreases StagesLeft(b.release.stage), b.gens[b.slot.value.generation].members
  {
    TeardownAdvances(b, next, accepting);
    var e := NextStep(b);
    var c := Apply(b, next, accepting, e);
    if b.release.stage.Finish? {
      Arrived(c, next, accepting);
    } else {
      StepKeeps(b, next, accepting, e);
      TeardownCompletes(c, next, accepting);
    }
    OneMore(b, next, accepting, e);
  }

  /** A deleter that took a pending temp tree removes it and returns. */
  lemma PendingCompletes(b: Box, next: nat, accepting: bool)
    requires b.release.CleaningPending? && b.slot == Some(Creating)
    ensures Releasable(b, next, accepting)
  {
    var c := Apply(b, next, accepting, ReleaseRemovePending(true));
    var d := Apply(c, next, accepting, ReleaseAfterPending);
    Arrived(d, next, accepting);
    OneMore(c, next, accepting, ReleaseAfterPending);
    OneMore(b, next, accepting, ReleaseRemovePending(true));
  }

  lemma ExaminationAdvances(b: Box, next: nat, accepting: bool)
    requires b.release.Examining? && b.slot != Some(Creating)
    requires Holds(b.slot) ==> b.slot.value.inFlight == 0
    ensures Enabled(b, next, accepting, ReleaseExamine(true))
    ensures var c := Apply(b, next, accepting, ReleaseExamine(true));
      match ReleasePhase(b.slot)
      case Absent => c.release == Returned(true) && c.slot.None?
      case MarkDeleting => c.release.Examining? && c.slot.Some? && c.slot.value.Deleting? && c.slot.value.inFlight == 0
      case TakeOver => c.release.TearingDown? && c.release.stage == Kill
      case FinishPendingCleanup => c.release.CleaningPending? && c.slot == Some(Creating)
      case _ => false
  {
  }

  /** A release call that sees no marker and no counted launch gets through. */
  lemma {:induction false} ExaminationCompletes(b: Box, next: nat, accepting: bool)
    requires BoxInv(b, next) && b.release.Examining? && b.slot != Some(Creating)
    requires Holds(b.slot) ==> b.slot.value.inFlight == 0
    ensures Releasable(b, next, accepting)
    decreases if b.slot.Some? && b.slot.value.Active? then 1 else 0
  {
    ExaminationAdvances(b, next, accepting);
    var c := Apply(b, next, accepting, ReleaseExamine(true));
    StepKeeps(b, next, accepting, ReleaseExamine(true));
    match ReleasePhase(b.slot) {
      case Absent => Arrived(c, next, accepting);
      case MarkDeleting => ExaminationCompletes(c, next, accepting);
      case TakeOver => TeardownCompletes(c, next, accepting);
      case FinishPendingCleanup => PendingCompletes(c, next, accepting);
    }
    OneMore(b, next, accepting, ReleaseExamine(true));
  }

  // ---- the leak --------------------------------------------------------------------

  /** The slot holds a generation on which a launch leaked. */
  predicate Wedged(b: Box) {
    && Holds(b.slot) && b.slot.value.generation in b.gens
    && b.gens[b.slot.value.generation].leaked > 0
  }

  /** What a step may not do to a wedged box: release the slot, or end a release well. */
  ghost predicate StaysWedged(b: Box, c: Box) {
    && Wedged(b) && Wedged(c) && c.slot.value.generation == b.slot.value.generation
    && (c.release == Returned(true) ==> b.release == Returned(true))
  }

  lemma WedgedLaunch(b: Box, next: nat, accepting: bool, e: BoxEvent)
    requires BoxInv(b, next) && Wedged(b) && LaunchSide(e) && LaunchEnabled(b, e)
    ensures StaysWedged(b, LaunchStep(b, next, accepting, e))
  {
  }

  lemma WedgedKernel(b: Box, next: nat, e: BoxEvent)
    requires BoxInv(b, next) && Wedged(b) && KernelSide(e) && KernelEnabled(b, e)
    ensures StaysWedged(b, KernelStep(b, e))
  {
    if e.LeaseDrop? {
      assert e.lease in LeasesOf(b, b.leases[e.lease]);
    }
  }

  /** From a wedged box no step whatever ends the release call well or frees the slot. */
  lemma WedgedStep(b: Box, next: nat, accepting: bool, e: BoxEvent)
    requires BoxInv(b, next) && Wedged(b) && Enabled(b, next, accepting, e)
    ensures StaysWedged(b, Apply(b, next, accepting, e))
  {
    if LaunchSide(e) {
      WedgedLaunch(b, next, accepting, e);
    } else if KernelSide(e) {
      WedgedKernel(b, next, e);
    }
  }

  lemma {:induction false} WedgedForever(b: Box, next: nat, accepting: bool, es: seq<BoxEvent>, c: Box)
    requires BoxInv(b, next) && Wedged(b) && BoxRuns(b, next, accepting, es, c)
    ensures Wedged(c)
    decreases |es|
  {
    if es != [] {
      StepKeeps(b, next, accepting, es[0]);
      WedgedStep(b, next, accepting, es[0]);
      WedgedForever(Apply(b, next, accepting, es[0]), NextAfter(next, es[0]), accepting, es[1..], c);
    }
  }

  // ---- every retry -----------------------------------------------------------------

  /** Where a release call stands on its way to success, with nobody counted in. */
  ghost predicate OnTrack(b: Box) {
    && (b.release.Idle? || b.release.Examining? ==>
          b.slot != Some(Creating) && (Holds(b.slot) ==> b.slot.value.inFlight == 0))
    && !b.release.AwaitingCreator? && !b.release.AwaitingBarrier?
    && (b.release.TearingDown? ==> b.release.stage != Finish(false))
    && (b.release.CleaningPending? ==> b.slot == Some(Creating))
    && (b.release.CleanedPending? ==> b.slot == Some(Creating) && b.release.removed)
    && (b.release.Returned? ==> b.release.ok && b.slot.None?)
  }

  lemma ExaminationStaysOnTrack(b: Box, killOk: bool)
    requires OnTrack(b) && b.release.Examining? && killOk
    ensures OnTrack(ExamineStep(b, killOk))
  {
  }

  lemma StaysOnTrack(b: Box, next: nat, accepting: bool, e: BoxEvent)
    requires OnTrack(b) && TeardownSound(b) && Enabled(b, next, accepting, e) && Succeeding(e)
    ensures OnTrack(Apply(b, next, accepting, e)) && NextAfter(next, e) == next
  {
    if e.ReleaseExamine? {
      ExaminationStaysOnTrack(b, e.killOk);
    }
  }

  lemma {:induction false} RunStaysOnTrack(b: Box, next: nat, accepting: bool, es: seq<BoxEvent>, c: Box)
    requires BoxInv(b, next) && OnTrack(b) && AllSucceed(es) && BoxRuns(b, next, accepting, es, c)
    ensures BoxInv(c, next) && OnTrack(c)
    decreases |es|
  {
    if es != [] {
      assert Succeeding(es[0]);
      StaysOnTrack(b, next, accepting, es[0]);
      StepKeeps(b, next, accepting, es[0]);
      assert forall i :: 0 <= i < |es[1..]| ==> es[1..][i] == es[i + 1];
      RunStaysOnTrack(Apply(b, next, accepting, es[0]), next, accepting, es[1..], c);
    }
  }

  lemma BeginningCompletes(b: Box, next: nat, accepting: bool)
    requires BoxInv(b, next) && OnTrack(b) && b.release.Idle?
    ensures Releasable(b, next, accepting)
  {
    ReleaseMoves(b, next, Examining);
    ExaminationCompletes(b.(release := Examining), next, accepting);
    OneMore(b, next, accepting, ReleaseBegin);
  }

  lemma CleanedCompletes(b: Box, next: nat, accepting: bool)
    requires OnTrack(b) && b.release.CleanedPending?
    ensures Releasable(b, next, accepting)
  {
    Arrived(Apply(b, next, accepting, ReleaseAfterPending), next, accepting);
    OneMore(b, next, accepting, ReleaseAfterPending);
  }

  /** From anywhere on its way the call can be brought to its successful end. */
  lemma OnTrackCompletes(b: Box, next: nat, accepting: bool)
    requires BoxInv(b, next) && OnTrack(b)
    ensures Releasable(b, next, accepting)
  {
    match b.release {
      case Idle => BeginningCompletes(b, next, accepting);
      case Examining => ExaminationCompletes(b, next, accepting);
      case TearingDown(_, _, _, _, _) => TeardownCompletes(b, next, accepting);
      case CleaningPending(_) => PendingCompletes(b, next, accepting);
      case CleanedPending(_, _) => CleanedCompletes(b, next, accepting);
      case Returned(_) => Arrived(b, next, accepting);
    }
  }

  /** A release call that waited gets through once it looks again and finds neither a marker
      nor a counted launch. */
  lemma WokenCompletes(b: Box, next: nat, accepting: bool)
    requires BoxInv(b, next) && (b.release.AwaitingCreator? || b.release.AwaitingBarrier?)
    requires b.slot != Some(Creating) && !CountedIn(b)
    ensures Enabled(b, next, accepting, ReleaseWake)
    ensures Releasable(Apply(b, next, accepting, ReleaseWake), next, accepting)
  {
    ReleaseMoves(b, next, Examining);
    ExaminationCompletes(b.(release := Examining), next, accepting);
  }

  /** Every retry whose operations succeed: wherever it has got to, it has returned Ok with
      the slot absent, or it has not returned and can still be brought to exactly that. */
  ghost predicate RetrySucceeds(b: Box, next: nat, accepting: bool) {
    forall es, c :: AllSucceed(es) && BoxRuns(b, next, accepting, es, c) ==>
      if c.release.Returned? then c.release.ok && c.slot.None? else Releasable(c, next, accepting)
  }

  /** A launch is counted in on the generation the slot holds. */
  predicate CountedIn(b: Box) {
    Holds(b.slot) && b.slot.value.inFlight > 0
  }

  /** With no live lease, a count that is left is a leak, and the other way round. */
  lemma LeakIsVisible(es: seq<Event>, s: System, id: SandboxId)
    requires Runs(Initial, es, s) && Lookup(s, id).leases == map[]
    ensures Wedged(Lookup(s, id)) <==> CountedIn(Lookup(s, id))
  {
    Reachable(es, s, id);
    var b := Lookup(s, id);
    if Holds(b.slot) {
      assert LeasesOf(b, b.slot.value.generation) == {};
    }
  }

  lemma WedgedNeverReleases(b: Box, next: nat, accepting: bool)
    requires BoxInv(b, next) && Wedged(b)
    ensures !Releasable(b, next, accepting)
  {
    forall es, c | BoxRuns(b, next, accepting, es, c) ensures c.slot.Some? {
      WedgedForever(b, next, accepting, es, c);
    }
  }

  /** In every reachable state with no marker, no live lease and no release in progress:
      every retry with succeeding operations frees the sandbox if and only if the slot counts
      nobody in. When it does count somebody, no run of the sandbox ever frees it. */
  lemma RetrySucceedsIffNoLeak(es: seq<Event>, s: System, id: SandboxId)
    requires Runs(Initial, es, s)
    requires var b := Lookup(s, id); b.release.Idle? && b.slot != Some(Creating) && b.leases == map[]
    ensures RetrySucceeds(Lookup(s, id), s.nextGeneration, s.accepting) <==> !CountedIn(Lookup(s, id))
    ensures Releasable(Lookup(s, id), s.nextGeneration, s.accepting) <==> !CountedIn(Lookup(s, id))
  {
    Reachable(es, s, id);
    LeakIsVisible(es, s, id);
    var b, next, accepting := Lookup(s, id), s.nextGeneration, s.accepting;
    if CountedIn(b) {
      WedgedNeverReleases(b, next, accepting);
      assert BoxRuns(b, next, accepting, [], b) && AllSucceed([]);
    } else {
      OnTrackCompletes(b, next, accepting);
      forall run, c | AllSucceed(run) && BoxRuns(b, next, accepting, run, c)
        ensures if c.release.Returned? then c.release.ok && c.slot.None? else Releasable(c, next, accepting)
      {
        RunStaysOnTrack(b, next, accepting, run, c);
        OnTrackCompletes(c, next, accepting);
      }
    }
  }

  // ---- under interference ----------------------------------------------------------

  /** A step of the release call at which something fails or is given up. */
  predicate FailsRelease(e: BoxEvent) {
    match e
    case ReleaseExamine(killOk) => !killOk
    case ReleaseTimeout => true
    case ReleaseRemovePending(ok) => !ok
    case TeardownKill(ok) => !ok
    case TeardownAwait(empty) => !empty
    case TeardownCheck(populated) => populated != Some(false)
    case TeardownUnlink(ok) => !ok
    case TeardownTemp(ok) => !ok
    case _ => false
  }

  /** The release call has not failed, wherever it is. */
  predicate Unfailed(r: Release) {
    && r != Returned(false)
    && !(r.TearingDown? && r.stage == Finish(false))
    && !(r.CleanedPending? && !r.removed)
  }

  /** The call is still unfailed, and if it just returned, the slot is absent. */
  predicate GoesWell(b: Box, c: Box) {
    && Unfailed(c.release)
    && (c.release.Returned? && !b.release.Returned? ==> c.slot.None?)
  }

  lemma LaunchGoesWell(b: Box, next: nat, accepting: bool, e: BoxEvent)
    requires Unfailed(b.release) && LaunchSide(e) && LaunchEnabled(b, e)
    ensures GoesWell(b, LaunchStep(b, next, accepting, e))
  {
  }

  lemma ReleaseGoesWell(b: Box, e: BoxEvent)
    requires MarkerOwned(b) && Unfailed(b.release) && !FailsRelease(e)
    requires !LaunchSide(e) && !TeardownSide(e) && !KernelSide(e) && ReleaseEnabled(b, e)
    ensures GoesWell(b, ReleaseStep(b, e))
  {
  }

  lemma TeardownGoesWell(b: Box, e: BoxEvent)
    requires TeardownSound(b) && Unfailed(b.release) && !FailsRelease(e) && TeardownSide(e) && TeardownEnabled(b, e)
    ensures GoesWell(b, TeardownStep(b, e))
  {
  }

  lemma KernelGoesWell(b: Box, e: BoxEvent)
    requires Unfailed(b.release) && KernelSide(e) && KernelEnabled(b, e)
    ensures GoesWell(b, KernelStep(b, e))
  {
  }

  lemma StepGoesWell(b: Box, next: nat, accepting: bool, e: BoxEvent)
    requires BoxInv(b, next) && Unfailed(b.release) && Enabled(b, next, accepting, e) && !FailsRelease(e)
    ensures GoesWell(b, Apply(b, next, accepting, e))
  {
    if LaunchSide(e) {
      LaunchGoesWell(b, next, accepting, e);
    } else if TeardownSide(e) {
      TeardownGoesWell(b, e);
    } else if KernelSide(e) {
      KernelGoesWell(b, e);
    } else {
      ReleaseGoesWell(b, e);
    }
  }

  lemma BroadcastGoesWell(b: Box, mark: bool, notify: bool)
    requires Unfailed(b.release)
    ensures GoesWell(b, Broadcast(b, mark, notify))
  {
  }

  lemma SystemStepGoesWell(s: System, e: Event, id: SandboxId)
    requires Inv(s) && Allowed(s, e) && Unfailed(Lookup(s, id).release)
    requires e.On? && e.id == id ==> !FailsRelease(e.step)
    ensures GoesWell(Lookup(s, id), Lookup(Step(s, e), id))
  {
    StepAt(s, e, id);
    LookupSound(s, id);
    BoxGoesWell(s, e, id);
  }

  lemma BoxGoesWell(s: System, e: Event, id: SandboxId)
    requires BoxInv(Lookup(s, id), s.nextGeneration) && Allowed(s, e) && Unfailed(Lookup(s, id).release)
    requires e.On? && e.id == id ==> !FailsRelease(e.step)
    ensures GoesWell(Lookup(s, id), BoxAfter(s, e, id))
  {
    var b, next := Lookup(s, id), s.nextGeneration;
    match e {
      case On(i, step) => if i == id { StepGoesWell(b, next, s.accepting, step); }
      case ShutdownNext(i) => if i == id { StepGoesWell(b, next, s.accepting, ReleaseBegin); }
      case ShutdownCollect => if s.shutdown.current.value == id { StepGoesWell(b, next, s.accepting, ReleaseReturn); }
      case ShutdownMark(_) => BroadcastGoesWell(b, true, false);
      case ShutdownNotify => BroadcastGoesWell(b, false, true);
      case ForceMark => BroadcastGoesWell(b, true, true);
      case _ =>
    }
  }

  /** Nothing the release calls of `id` do on the run fails or times out. */
  predicate ReleasesSucceed(es: seq<Event>, id: SandboxId) {
    forall i :: 0 <= i < |es| && es[i].On? && es[i].id == id ==> !FailsRelease(es[i].step)
  }

  lemma {:induction false} GoesWellOnRun(s: System, es: seq<Event>, m: System, id: SandboxId)
    requires Inv(s) && Unfailed(Lookup(s, id).release) && Runs(s, es, m) && ReleasesSucceed(es, id)
    ensures Inv(m) && Unfailed(Lookup(m, id).release)
    decreases |es|
  {
    if es != [] {
      SystemStepGoesWell(s, es[0], id);
      InvKept(s, es[0]);
      assert forall i :: 0 <= i < |es[1..]| ==> es[1..][i] == es[i + 1];
      GoesWellOnRun(Step(s, es[0]), es[1..], m, id);
    }
  }

  /** Under every interference of launches, waiters, processes, other sandboxes, shutdown and
      forced shutdown: release calls whose own operations succeed never return an error, and
      whenever such a call returns, by the step `e`, the slot is absent at that moment. */
  lemma InterferenceCannotFailRelease(pre: seq<Event>, s: System, es: seq<Event>, m: System, e: Event, id: SandboxId)
    requires Runs(Initial, pre, s) && Unfailed(Lookup(s, id).release)
    requires Runs(s, es, m) && ReleasesSucceed(es, id)
    requires Allowed(m, e) && (e.On? && e.id == id ==> !FailsRelease(e.step))
    ensures GoesWell(Lookup(m, id), Lookup(Step(m, e), id))
  {
    RunKeeps(Initial, pre, s);
    GoesWellOnRun(s, es, m, id);
    SystemStepGoesWell(m, e, id);
  }

  /** A wedged sandbox stays wedged in every continuation of the whole system. */
  lemma {:induction false} WedgedInEveryFuture(s: System, es: seq<Event>, s': System, id: SandboxId)
    requires Inv(s) && Wedged(Lookup(s, id)) && Runs(s, es, s')
    ensures Wedged(Lookup(s', id))
    decreases |es|
  {
    if es != [] {
      LookupSound(s, id);
      if es[0].On? && es[0].id == id {
        WedgedStep(Lookup(s, id), s.nextGeneration, s.accepting, es[0].step);
      } else {
        OthersUntouched(s, es[0], id);
      }
      InvKept(s, es[0]);
      WedgedInEveryFuture(Step(s, es[0]), es[1..], s', id);
    }
  }

  lemma Prepend(s: System, e: Event, es: seq<Event>, s': System)
    requires Allowed(s, e) && Runs(Step(s, e), es, s')
    ensures Runs(s, [e] + es, s')
  {
    assert ([e] + es)[1..] == es;
  }

  /** A state in which only `id` has ever been used. */
  function Alone(id: SandboxId, b: Box, next: nat): System {
    System(map[id := b], next, true, NotStarted)
  }

  lemma AloneStep(id: SandboxId, b: Box, next: nat, e: BoxEvent)
    requires Enabled(b, next, true, e) && !e.MarkForShutdown?
    ensures Allowed(Alone(id, b, next), On(id, e))
    ensures Step(Alone(id, b, next), On(id, e)) == Alone(id, Apply(b, next, true, e), NextAfter(next, e))
  {
    assert Alone(id, b, next).boxes[id := Apply(b, next, true, e)] == map[id := Apply(b, next, true, e)];
  }

  predicate NoMarks(es: seq<BoxEvent>) {
    forall i :: 0 <= i < |es| ==> !es[i].MarkForShutdown?
  }

  lemma {:induction false} AloneRun(id: SandboxId, b: Box, next: nat, es: seq<BoxEvent>, c: Box)
    returns (run: seq<Event>, last: nat)
    requires BoxRuns(b, next, true, es, c) && NoMarks(es)
    ensures Runs(Alone(id, b, next), run, Alone(id, c, last))
    decreases |es|
  {
    if es == [] {
      run, last := [], next;
    } else {
      AloneStep(id, b, next, es[0]);
      var rest, n := AloneRun(id, Apply(b, next, true, es[0]), NextAfter(next, es[0]), es[1..], c);
      run, last := [On(id, es[0])] + rest, n;
      Prepend(Alone(id, b, next), On(id, es[0]), rest, Alone(id, c, last));
    }
  }

  lemma BoxPrepend(b: Box, next: nat, e: BoxEvent, es: seq<BoxEvent>, c: Box)
    requires Enabled(b, next, true, e) && BoxRuns(Apply(b, next, true, e), NextAfter(next, e), true, es, c)
    ensures BoxRuns(b, next, true, [e] + es, c)
  {
    assert ([e] + es)[1..] == es;
  }

  lemma {:induction false} BoxRunsThen(b: Box, next: nat, es: seq<BoxEvent>, c: Box, n: nat, fs: seq<BoxEvent>, d: Box)
    requires BoxRuns(b, next, true, es, c) && n == NumberAfter(next, es) && BoxRuns(c, n, true, fs, d)
    ensures BoxRuns(b, next, true, es + fs, d)
    decreases |es|
  {
    if es == [] {
      assert es + fs == fs;
    } else {
      BoxRunsThen(Apply(b, next, true, es[0]), NextAfter(next, es[0]), es[1..], c, n, fs, d);
      assert (es + fs)[1..] == es[1..] + fs && (es + fs)[0] == es[0];
    }
  }

  function NumberAfter(next: nat, es: seq<BoxEvent>): nat
    decreases |es|
  {
    if es == [] then next else NumberAfter(NextAfter(next, es[0]), es[1..])
  }

  /** A first launch, from its marker to a publication whose descriptor duplication fails. */
  lemma PublishLeaks(identity: Identity) returns (es: seq<BoxEvent>, c: Box)
    ensures var who := Some(identity);
      BoxRuns(EmptyBox.(slot := Some(Creating), owner := Some(ByLaunch(0)), launches := map[0 := Allocating(who)]),
              1, true, es, c)
    ensures Wedged(c) && c.leases == map[] && NoMarks(es)
  {
    var who := Some(identity);
    var b2 := EmptyBox.(slot := Some(Creating), owner := Some(ByLaunch(0)), launches := map[0 := Allocating(who)]);
    var b3 := b2.(launches := map[0 := Building(who, 1)]);
    var b4 := b2.(gens := map[1 := Generation(who, false, true, 0, true, 0)], launches := map[0 := Publishing(who, 1)]);
    var e2, e3, e4 := LaunchAllocate(0, true), LaunchBuild(0, true, true, true), LaunchPublish(0, false, 0);
    assert Apply(b2, 1, true, e2) == b3;
    assert Apply(b3, 2, true, e3) == b4;
    c := Apply(b4, 2, true, e4);
    assert BoxRuns(c, 2, true, [], c);
    BoxPrepend(b4, 2, e4, [], c);
    BoxPrepend(b3, 2, e3, [e4] + [], c);
    BoxPrepend(b2, 1, e2, [e3] + ([e4] + []), c);
    es := [e2] + ([e3] + ([e4] + []));
  }

  /** The failing case exists: an isolated first launch whose descriptor duplication fails
      leaves a counted launch and no lease. */
  lemma FirstLaunchCanWedge(id: SandboxId, identity: Identity)
    ensures exists es, s :: Runs(Initial, es, s) && Wedged(Lookup(s, id)) && Lookup(s, id).leases == map[]
  {
    var who := Some(identity);
    var b1 := EmptyBox.(launches := map[0 := Entering(who)]);
    var b2 := EmptyBox.(slot := Some(Creating), owner := Some(ByLaunch(0)), launches := map[0 := Allocating(who)]);
    var e0, e1 := LaunchBegin(0, who), LaunchEnter(0, true, 0);
    var es, c := PublishLeaks(identity);
    assert Apply(b1, 1, true, e1) == b2;
    BoxPrepend(b1, 1, e1, es, c);
    var run, last := AloneRun(id, b1, 1, [e1] + es, c);
    assert Step(Initial, On(id, e0)) == Alone(id, b1, 1) by {
      assert Initial.boxes[id := b1] == map[id := b1];
    }
    Prepend(Initial, On(id, e0), run, Alone(id, c, last));
  }

  // ---- without the failing duplication ---------------------------------------------

  /** The run never fails to duplicate the descriptor of a generation it publishes. */
  predicate DuplicationsSucceed(es: seq<Event>) {
    forall i :: 0 <= i < |es| && es[i].On? && es[i].step.LaunchPublish? ==> es[i].step.dupOk
  }

  predicate LeakFree(b: Box) {
    forall g :: g in b.gens ==> b.gens[g].leaked == 0
  }

  lemma LeakFreeLaunch(b: Box, next: nat, accepting: bool, e: BoxEvent)
    requires LeakFree(b) && LaunchSide(e) && LaunchEnabled(b, e) && (e.LaunchPublish? ==> e.dupOk)
    ensures LeakFree(LaunchStep(b, next, accepting, e))
  {
  }

  lemma LeakFreeRelease(b: Box, e: BoxEvent)
    requires LeakFree(b) && !LaunchSide(e) && !TeardownSide(e) && !KernelSide(e) && ReleaseEnabled(b, e)
    ensures LeakFree(ReleaseStep(b, e))
  {
  }

  lemma LeakFreeStep(b: Box, next: nat, accepting: bool, e: BoxEvent)
    requires LeakFree(b) && Enabled(b, next, accepting, e)
    requires e.LaunchPublish? ==> e.dupOk
    ensures LeakFree(Apply(b, next, accepting, e))
  {
    if LaunchSide(e) {
      LeakFreeLaunch(b, next, accepting, e);
    } else if !TeardownSide(e) && !KernelSide(e) {
      LeakFreeRelease(b, e);
    }
  }

  lemma {:induction false} LeakFreeRun(s: System, es: seq<Event>, s': System, id: SandboxId)
    requires Runs(s, es, s') && DuplicationsSucceed(es) && LeakFree(Lookup(s, id))
    ensures LeakFree(Lookup(s', id))
    decreases |es|
  {
    if es != [] {
      if es[0].On? && es[0].id == id {
        LeakFreeStep(Lookup(s, id), s.nextGeneration, s.accepting, es[0].step);
      } else {
        OthersUntouched(s, es[0], id);
      }
      assert forall i :: 0 <= i < |es[1..]| ==> es[1..][i] == es[i + 1];
      LeakFreeRun(Step(s, es[0]), es[1..], s', id);
    }
  }

  /** When no duplication fails, `in_flight` is exactly the number of live leases, always. */
  lemma InFlightEqualsLeases(es: seq<Event>, s: System, id: SandboxId)
    requires Runs(Initial, es, s) && DuplicationsSucceed(es)
    requires Holds(Lookup(s, id).slot)
    ensures Lookup(s, id).slot.value.inFlight == |LeasesOf(Lookup(s, id), Lookup(s, id).slot.value.generation)|
  {
    LeaseAccounting(es, s, id);
    LeakFreeRun(Initial, es, s, id);
  }

  // ---- a launch that nothing disturbs ----------------------------------------------

  /** A launch that finds nothing takes the marker. */
  lemma TakesMarker(b: Box, next: nat, t: nat, who: Option<Identity>, l: nat) returns (es: seq<BoxEvent>, c: Box)
    requires b.slot.None? && t !in b.launches && b.leases == map[]
    ensures BoxRuns(b, next, true, es, c) && NoMarks(es) && NumberAfter(next, es) == next
    ensures c == b.(slot := Some(Creating), owner := Some(ByLaunch(t)), launches := b.launches[t := Allocating(who)])
  {
    var b1 := b.(launches := b.launches[t := Entering(who)]);
    c := b.(slot := Some(Creating), owner := Some(ByLaunch(t)), launches := b.launches[t := Allocating(who)]);
    var e0, e1 := LaunchBegin(t, who), LaunchEnter(t, true, l);
    assert Apply(b, next, true, e0) == b1;
    assert Apply(b1, next, true, e1) == c;
    assert BoxRuns(c, next, true, [], c);
    BoxPrepend(b1, next, e1, [], c);
    BoxPrepend(b, next, e0, [e1] + [], c);
    es := [e0] + ([e1] + []);
    assert es[1..] == [e1] && NumberAfter(next, [e1]) == next;
  }

  /** A launch that has removed a stale temp tree goes on to create. */
  lemma CleansStale(b: Box, next: nat, t: nat, who: Option<Identity>, g: nat) returns (es: seq<BoxEvent>, c: Box)
    requires b.slot == Some(Creating) && t in b.launches && b.launches[t] == Cleaning(who, g) && g in b.gens
    ensures BoxRuns(b, next, true, es, c) && NoMarks(es) && NumberAfter(next, es) == next
    ensures c == b.(launches := b.launches[t := Allocating(who)], gens := b.gens[g := b.gens[g].(temp := false)])
  {
    var e2, e3 := LaunchRemoveStale(t, true), LaunchAfterStale(t);
    var b3 := Apply(b, next, true, e2);
    c := Apply(b3, next, true, e3);
    assert BoxRuns(c, next, true, [], c);
    BoxPrepend(b3, next, e3, [], c);
    BoxPrepend(b, next, e2, [e3] + [], c);
    es := [e2] + ([e3] + []);
    assert es[1..] == [e3] && NumberAfter(next, [e3]) == next;
  }

  /** A launch that finds a pending temp tree takes the marker and cleans up first. */
  lemma TakesPending(b: Box, next: nat, t: nat, who: Option<Identity>, g: nat, l: nat)
    returns (es: seq<BoxEvent>, c: Box)
    requires b.slot == Some(CleanupPending(g)) && t !in b.launches && b.leases == map[] && g in b.gens
    ensures BoxRuns(b, next, true, es, c) && NoMarks(es) && NumberAfter(next, es) == next
    ensures c == b.(slot := Some(Creating), owner := Some(ByLaunch(t)), launches := b.launches[t := Allocating(who)],
                    gens := b.gens[g := b.gens[g].(temp := false)])
  {
    var b1 := b.(launches := b.launches[t := Entering(who)]);
    var b2 := b1.(slot := Some(Creating), owner := Some(ByLaunch(t)), launches := b1.launches[t := Cleaning(who, g)]);
    var e0, e1 := LaunchBegin(t, who), LaunchEnter(t, true, l);
    assert Apply(b, next, true, e0) == b1;
    assert Apply(b1, next, true, e1) == b2;
    var rest;
    rest, c := CleansStale(b2, next, t, who, g);
    assert c.launches == b.launches[t := Allocating(who)];
    BoxPrepend(b1, next, e1, rest, c);
    BoxPrepend(b, next, e0, [e1] + rest, c);
    es := [e0] + ([e1] + rest);
    assert es[1..] == [e1] + rest && es[1..][1..] == rest;
  }

  /** The sandbox holds no generation: it is absent, or only a stale temp tree is left. */
  predicate Vacant(slot: Option<DomainSlot>) {
    slot.None? || slot.value.CleanupPending?
  }

  /** In a vacant sandbox a launch whose operations succeed removes the stale temp tree, if
      there is one, publishes the next generation under its own identity and holds the one
      lease on it; every other generation stays as it was. */
  lemma UndisturbedLaunch(b: Box, next: nat, t: nat, who: Option<Identity>, l: nat) returns (es: seq<BoxEvent>, c: Box)
    requires BoxInv(b, next) && Vacant(b.slot) && t !in b.launches
    ensures BoxRuns(b, next, true, es, c)
    ensures c.slot == Some(Active(next, 1, next, next, who, who.Some?)) && c.leases == map[l := next]
    ensures c.gens == (if b.slot.None? then b.gens else DropTemp(b.gens, b.slot.value.stale))
                      [next := Generation(who, true, true, 0, true, 0)]
    ensures c.launches.Keys == b.launches.Keys - {t} && (b.release.Idle? ==> c.release.Idle?) && NoMarks(es)
  {
    assert b.leases.Keys == {};
    var first, m;
    if b.slot.None? {
      first, m := TakesMarker(b, next, t, who, l);
    } else {
      first, m := TakesPending(b, next, t, who, b.slot.value.stale, l);
    }
    var rest;
    rest, c := CreationSucceeds(m, next, t, who, l);
    BoxRunsThen(b, next, first, m, next, rest, c);
    es := first + rest;
  }

  lemma CreationSucceeds(b: Box, next: nat, t: nat, who: Option<Identity>, l: nat) returns (es: seq<BoxEvent>, c: Box)
    requires b.slot == Some(Creating) && t in b.launches && b.launches[t] == Allocating(who) && b.leases == map[]
    ensures BoxRuns(b, next, true, es, c)
    ensures c.slot == Some(Active(next, 1, next, next, who, who.Some?)) && c.leases == map[l := next]
    ensures c.gens == b.gens[next := Generation(who, true, true, 0, true, 0)]
    ensures c.launches.Keys == b.launches.Keys - {t} && (b.release.Idle? ==> c.release.Idle?) && NoMarks(es)
  {
    var b3 := b.(launches := b.launches[t := Building(who, next)]);
    var b4 := b3.(gens := b.gens[next := Generation(who, false, true, 0, true, 0)],
        launches := b3.launches[t := Publishing(who, next)]);
    var e2, e3, e4 := LaunchAllocate(t, true), LaunchBuild(t, true, true, true), LaunchPublish(t, true, l);
    assert Apply(b, next, true, e2) == b3;
    assert Apply(b3, next + 1, true, e3) == b4;
    c := Apply(b4, next + 1, true, e4);
    assert BoxRuns(c, next + 1, true, [], c);
    BoxPrepend(b4, next + 1, e4, [], c);
    BoxPrepend(b3, next + 1, e3, [e4] + [], c);
    BoxPrepend(b, next, e2, [e3] + ([e4] + []), c);
    es := [e2] + ([e3] + ([e4] + []));
  }

  // ---- a failed release whose slot names nothing ------------------------------------

  /** A run of one sandbox from nothing is a run of the system. */
  lemma FromInitial(id: SandboxId, es: seq<BoxEvent>, c: Box) returns (run: seq<Event>, s: System)
    requires es != [] && BoxRuns(EmptyBox, 1, true, es, c) && NoMarks(es)
    ensures Runs(Initial, run, s) && s == Alone(id, c, s.nextGeneration)
  {
    var b := Apply(EmptyBox, 1, true, es[0]);
    var next := NextAfter(1, es[0]);
    var rest, last := AloneRun(id, b, next, es[1..], c);
    assert Step(Initial, On(id, es[0])) == Alone(id, b, next) by {
      assert Initial.boxes[id := b] == map[id := b];
    }
    run, s := [On(id, es[0])] + rest, Alone(id, c, last);
    Prepend(Initial, On(id, es[0]), rest, s);
  }

  /** A launch has taken a pending temp tree; a release call waits for it and gives up. */
  lemma ReleaseGivesUp(b: Box, next: nat) returns (es: seq<BoxEvent>, c: Box)
    requires b.slot == Some(Creating) && b.release.Idle?
    ensures BoxRuns(b, next, true, es, c) && NoMarks(es)
    ensures c == b.(release := Returned(false))
  {
    var b1, b2 := b.(release := Examining), b.(release := AwaitingCreator(false));
    c := b.(release := Returned(false));
    assert BoxRuns(c, next, true, [], c);
    BoxPrepend(b2, next, ReleaseTimeout, [], c);
    BoxPrepend(b1, next, ReleaseExamine(true), [ReleaseTimeout] + [], c);
    BoxPrepend(b, next, ReleaseBegin, [ReleaseExamine(true)] + ([ReleaseTimeout] + []), c);
    es := [ReleaseBegin] + ([ReleaseExamine(true)] + ([ReleaseTimeout] + []));
  }

  /** The last lease goes, the temp tree cannot be removed, and a second launch takes it. */
  lemma TreeIsTaken(b: Box, next: nat, g: nat, who: Option<Identity>, l: nat) returns (es: seq<BoxEvent>, c: Box)
    requires b.slot == Some(Active(g, 1, g, g, who, who.Some?)) && b.leases == map[l := g] && b.launches == map[]
    requires b.release.Idle? && g in b.gens && b.gens[g] == Generation(who, true, true, 0, true, 0)
    ensures BoxRuns(b, next, true, es, c) && NoMarks(es)
    ensures c.slot == Some(Creating) && c.release.Idle? && g in c.gens && c.gens[g].published && c.gens[g].temp
  {
    var drop := LeaseDrop(l, Some(false), Some(false), true, false);
    var b1 := Apply(b, next, true, drop);
    var b2 := b1.(launches := map[1 := Entering(who)]);
    var e1, e2 := LaunchBegin(1, who), LaunchEnter(1, true, 0);
    assert b1.slot == Some(CleanupPending(g)) && b1.launches == map[] && b1.leases == map[];
    assert Apply(b1, next, true, e1) == b2;
    c := Apply(b2, next, true, e2);
    assert BoxRuns(c, next, true, [], c);
    BoxPrepend(b2, next, e2, [], c);
    BoxPrepend(b1, next, e1, [e2] + [], c);
    BoxPrepend(b, next, drop, [e1] + ([e2] + []), c);
    es := [drop] + ([e1] + ([e2] + []));
  }

  /** The marker's case of `DeletionKeepsOwnership` is reachable after a failed release: the
      call returned an error, the published temp tree exists and the slot names nothing. */
  lemma FailedReleaseMayNameNothing(id: SandboxId, who: Option<Identity>)
    ensures exists es, s, g ::
              && Runs(Initial, es, s) && Lookup(s, id).release == Returned(false)
              && g in Lookup(s, id).gens && Lookup(s, id).gens[g].published && Lookup(s, id).gens[g].temp
              && !NamesTemp(Lookup(s, id).slot, g)
  {
    var b := EmptyBox;
    LookupSound(Initial, id);
    var es1, b1 := UndisturbedLaunch(b, 1, 0, who, 0);
    assert b1.launches == map[];
    var next := NumberAfter(1, es1);
    var es2, b2 := TreeIsTaken(b1, next, 1, who, 0);
    var n := NumberAfter(next, es2);
    var es3, c := ReleaseGivesUp(b2, n);
    BoxRunsThen(b1, next, es2, b2, n, es3, c);
    BoxRunsThen(b, 1, es1, b1, next, es2 + es3, c);
    var run, s := FromInitial(id, es1 + (es2 + es3), c);
    assert Runs(Initial, run, s) && 1 in Lookup(s, id).gens;
  }
}
