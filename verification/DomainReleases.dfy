/**
 When a release call fails (crates/shbox/src/platform/linux.rs), under every interference: if
 and only if one of its own operations failed or it gave up waiting.
 */
module DomainReleases {
  import opened Options
  import opened DomainSlots
  import opened DomainMachine
  import opened DomainInvariant
  import opened DomainSystem
  import opened DomainRetry

  /** The step is an operation of the release call that is really made, and fails; or the call
      gives up. The outcome of `kill_all` counts only where there is a cgroup to kill. */
  predicate FailsNow(b: Box, e: BoxEvent) {
    && FailsRelease(e)
    && (e.ReleaseExamine? ==> ReleasePhase(b.slot) == MarkDeleting)
    && (e.TeardownKill? ==> b.release.TearingDown? && b.release.domain.Some?)
  }

  /** Up to its return, the call is failed after a step if it was before or fails by it. */
  predicate FailsWith(b: Box, e: BoxEvent, c: Box) {
    Unfailed(c.release) <==> Unfailed(b.release) && !FailsNow(b, e)
  }

  lemma LaunchFailsNone(b: Box, next: nat, accepting: bool, e: BoxEvent)
    requires LaunchSide(e) && LaunchEnabled(b, e)
    ensures Unfailed(LaunchStep(b, next, accepting, e).release) <==> Unfailed(b.release)
  {
  }

  lemma ExaminationFailsWith(b: Box, killOk: bool)
    requires MarkerOwned(b) && b.release.Examining?
    ensures FailsWith(b, ReleaseExamine(killOk), ExamineStep(b, killOk))
  {
  }

  lemma ReleaseFailsWith(b: Box, e: BoxEvent)
    requires MarkerOwned(b) && !e.ReleaseReturn?
    requires !LaunchSide(e) && !TeardownSide(e) && !KernelSide(e) && ReleaseEnabled(b, e)
    ensures FailsWith(b, e, ReleaseStep(b, e))
  {
    if e.ReleaseExamine? {
      ExaminationFailsWith(b, e.killOk);
    }
  }

  lemma TeardownFailsWith(b: Box, e: BoxEvent)
    requires TeardownSound(b) && TeardownSide(e) && TeardownEnabled(b, e)
    ensures FailsWith(b, e, TeardownStep(b, e))
  {
  }

  lemma StepFailsWith(b: Box, next: nat, accepting: bool, e: BoxEvent)
    requires BoxInv(b, next) && Enabled(b, next, accepting, e) && !e.ReleaseReturn?
    ensures FailsWith(b, e, Apply(b, next, accepting, e))
  {
    if LaunchSide(e) {
      LaunchFailsNone(b, next, accepting, e);
    } else if TeardownSide(e) {
      TeardownFailsWith(b, e);
    } else if !KernelSide(e) {
      ReleaseFailsWith(b, e);
    }
  }

  // ---- whole runs ------------------------------------------------------------------

  /** The step hands the result of `id`'s release call to its caller. */
  predicate Returns(s: System, e: Event, id: SandboxId) {
    (e == On(id, ReleaseReturn)) || (e.ShutdownCollect? && CurrentRelease(s) == Some(id))
  }

  predicate FailsHere(s: System, e: Event, id: SandboxId) {
    e.On? && e.id == id && FailsNow(Lookup(s, id), e.step)
  }

  ghost predicate NoReturnOn(s: System, es: seq<Event>, id: SandboxId)
    decreases |es|
  {
    es != [] && Allowed(s, es[0]) ==> !Returns(s, es[0], id) && NoReturnOn(Step(s, es[0]), es[1..], id)
  }

  ghost predicate FailsOn(s: System, es: seq<Event>, id: SandboxId)
    decreases |es|
  {
    es != [] && Allowed(s, es[0]) && (FailsHere(s, es[0], id) || FailsOn(Step(s, es[0]), es[1..], id))
  }

  lemma BroadcastFailsNone(b: Box, mark: bool, notify: bool)
    ensures Unfailed(Broadcast(b, mark, notify).release) <==> Unfailed(b.release)
  {
  }

  lemma BoxFailsWith(s: System, e: Event, id: SandboxId)
    requires BoxInv(Lookup(s, id), s.nextGeneration) && Allowed(s, e) && !Returns(s, e, id)
    ensures Unfailed(BoxAfter(s, e, id).release) <==> Unfailed(Lookup(s, id).release) && !FailsHere(s, e, id)
  {
    var b, next := Lookup(s, id), s.nextGeneration;
    match e {
      case On(i, step) => if i == id { StepFailsWith(b, next, s.accepting, step); }
      case ShutdownNext(i) => if i == id { StepFailsWith(b, next, s.accepting, ReleaseBegin); }
      case ShutdownMark(_) => BroadcastFailsNone(b, true, false);
      case ShutdownNotify => BroadcastFailsNone(b, false, true);
      case ForceMark => BroadcastFailsNone(b, true, true);
      case _ =>
    }
  }

  lemma {:induction false} FailsOnRun(s: System, es: seq<Event>, s': System, id: SandboxId)
    requires Inv(s) && Runs(s, es, s') && NoReturnOn(s, es, id)
    ensures Unfailed(Lookup(s', id).release) <==> Unfailed(Lookup(s, id).release) && !FailsOn(s, es, id)
    decreases |es|
  {
    if es != [] {
      LookupSound(s, id);
      StepAt(s, es[0], id);
      BoxFailsWith(s, es[0], id);
      InvKept(s, es[0]);
      FailsOnRun(Step(s, es[0]), es[1..], s', id);
    }
  }

  /** A release call that has returned, on any run from where it began and whatever ran beside
      it, returned Ok if and only if none of its own operations failed and it never gave up. */
  lemma ReleaseOkIffNothingFailed(pre: seq<Event>, s: System, es: seq<Event>, s': System, id: SandboxId)
    requires Runs(Initial, pre, s) && Lookup(s, id).release.Examining?
    requires Runs(s, es, s') && NoReturnOn(s, es, id) && Lookup(s', id).release.Returned?
    ensures Lookup(s', id).release.ok <==> !FailsOn(s, es, id)
  {
    RunKeeps(Initial, pre, s);
    FailsOnRun(s, es, s', id);
  }
}
