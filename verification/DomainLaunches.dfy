/**
 What becomes of a launch (crates/shbox/src/platform/linux.rs), under every interference: its
 call ends with a lease if and only if it was not refused, did not give up waiting and none
 of its own operations failed. And what becomes of an active sandbox: exactly which steps
 take it out of service.
 */
module DomainLaunches {
  import opened Options
  import opened DomainSlots
  import opened DomainMachine
  import opened DomainInvariant
  import opened DomainSystem
  import opened DomainTheorems
  import opened DomainRetry

  /** An operation launch `t` makes outside the lock, or the duplication of its descriptor
      after publication, fails. */
  predicate OperationFails(b: Box, e: BoxEvent, t: nat) {
    match e
    case LaunchRemoveStale(u, ok) => u == t && !ok
    case LaunchAllocate(u, ok) => u == t && !ok
    case LaunchBuild(u, ok, _, _) => u == t && !ok
    case LaunchPublish(u, dupOk, _) =>
      u == t && !dupOk && t in b.launches && b.launches[t].Publishing? && b.launches[t].identity.Some?
    case _ => false
  }

  /** Launch `t` is rejected on entry, or gives up waiting for a creator. */
  predicate TurnedAway(b: Box, accepting: bool, e: BoxEvent, t: nat) {
    match e
    case LaunchEnter(u, dupOk, _) =>
      && u == t && t in b.launches && b.launches[t].Entering?
      && JoinDecision(b.slot, b.launches[t].identity, accepting, dupOk).Rejected?
    case LaunchTimeout(u) => u == t
    case _ => false
  }

  /** The launch has failed and only has to put things back. */
  predicate Doomed(pc: Launch) {
    pc.Aborting? || (pc.Cleaned? && !pc.removed)
  }

  /** The step gives launch `t` its lease. */
  predicate TakesLease(c: Box, e: BoxEvent, t: nat) {
    (e.LaunchEnter? || e.LaunchPublish?) && e.t == t && e.lease in c.leases
  }

  /** From `b` to `c` by `e`, for launch `t`: it fails and is gone or doomed; or it leaves with
      a lease; or it goes on, as a creator if it was one. */
  predicate Proceeds(b: Box, accepting: bool, e: BoxEvent, c: Box, t: nat)
    requires t in b.launches
  {
    if OperationFails(b, e, t) || TurnedAway(b, accepting, e, t) then
      !TakesLease(c, e, t) && (t in c.launches ==> Doomed(c.launches[t]))
    else if t !in c.launches then TakesLease(c, e, t)
    else
      && !TakesLease(c, e, t) && !Doomed(c.launches[t])
      && (MarksByLaunch(b.launches[t]) ==> MarksByLaunch(c.launches[t]))
  }

  lemma EntryProceeds(b: Box, next: nat, accepting: bool, e: BoxEvent)
    requires BoxInv(b, next) && e.LaunchEnter? && LaunchEnabled(b, e)
    ensures Proceeds(b, accepting, e, LaunchStep(b, next, accepting, e), e.t)
  {
  }

  lemma PublicationProceeds(b: Box, next: nat, accepting: bool, e: BoxEvent)
    requires BoxInv(b, next) && e.LaunchPublish? && LaunchEnabled(b, e)
    ensures Proceeds(b, accepting, e, LaunchStep(b, next, accepting, e), e.t)
  {
    PublisherOwns(b, next, e.t);
  }

  lemma OwnStepProceeds(b: Box, next: nat, accepting: bool, e: BoxEvent)
    requires BoxInv(b, next) && LaunchSide(e) && LaunchEnabled(b, e) && e.t in b.launches && !Doomed(b.launches[e.t])
    ensures Proceeds(b, accepting, e, LaunchStep(b, next, accepting, e), e.t)
  {
    if e.LaunchEnter? {
      EntryProceeds(b, next, accepting, e);
    } else if e.LaunchPublish? {
      PublicationProceeds(b, next, accepting, e);
    } else if e.LaunchAfterStale? {
      assert b.owner == Some(ByLaunch(e.t)) && b.slot == Some(Creating);
    }
  }

  /** Nobody else moves a launch, except to wake it. */
  predicate LeftAlone(b: Box, c: Box, t: nat)
    requires t in b.launches
  {
    && t in c.launches
    && (c.launches[t] == b.launches[t] || (b.launches[t].Waiting? && c.launches[t].Waiting?))
  }

  lemma OtherLaunchLeavesAlone(b: Box, next: nat, accepting: bool, e: BoxEvent, t: nat)
    requires LaunchSide(e) && LaunchEnabled(b, e) && e.t != t && t in b.launches
    ensures LeftAlone(b, LaunchStep(b, next, accepting, e), t)
  {
  }

  lemma ReleaseLeavesAlone(b: Box, e: BoxEvent, t: nat)
    requires !LaunchSide(e) && !TeardownSide(e) && !KernelSide(e) && ReleaseEnabled(b, e) && t in b.launches
    ensures LeftAlone(b, ReleaseStep(b, e), t)
  {
  }

  lemma OthersLeaveAlone(b: Box, next: nat, accepting: bool, e: BoxEvent, t: nat)
    requires Enabled(b, next, accepting, e) && !(LaunchSide(e) && e.t == t) && t in b.launches
    ensures LeftAlone(b, Apply(b, next, accepting, e), t)
  {
    if LaunchSide(e) {
      OtherLaunchLeavesAlone(b, next, accepting, e, t);
    } else if !TeardownSide(e) && !KernelSide(e) {
      ReleaseLeavesAlone(b, e, t);
    }
  }

  lemma DoomedStep(b: Box, next: nat, accepting: bool, e: BoxEvent)
    requires LaunchSide(e) && LaunchEnabled(b, e) && e.t in b.launches && Doomed(b.launches[e.t])
    ensures e.t !in LaunchStep(b, next, accepting, e).launches && !e.LaunchEnter? && !e.LaunchPublish?
  {
  }

  // ---- whole runs ------------------------------------------------------------------

  /** The step is one of launch `t` of sandbox `id`. */
  predicate IsStepOf(e: Event, id: SandboxId, t: nat) {
    e.On? && e.id == id && LaunchSide(e.step) && e.step.t == t
  }

  predicate Leased(s: System, e: Event, id: SandboxId, t: nat)
    requires Allowed(s, e)
  {
    IsStepOf(e, id, t) && TakesLease(Lookup(Step(s, e), id), e.step, t)
  }

  predicate Failed(s: System, e: Event, id: SandboxId, t: nat) {
    IsStepOf(e, id, t) && OperationFails(Lookup(s, id), e.step, t)
  }

  predicate Refused(s: System, e: Event, id: SandboxId, t: nat) {
    IsStepOf(e, id, t) && TurnedAway(Lookup(s, id), s.accepting, e.step, t)
  }

  /** The run is what is left of launch `t`'s call: the launch is in progress until the last
      step and over after it. */
  ghost predicate CallOn(s: System, es: seq<Event>, id: SandboxId, t: nat)
    decreases |es|
  {
    && es != [] && Allowed(s, es[0]) && t in Lookup(s, id).launches
    && if |es| == 1 then t !in Lookup(Step(s, es[0]), id).launches else CallOn(Step(s, es[0]), es[1..], id, t)
  }

  ghost predicate LeasedOn(s: System, es: seq<Event>, id: SandboxId, t: nat)
    decreases |es|
  {
    es != [] && Allowed(s, es[0]) && (Leased(s, es[0], id, t) || LeasedOn(Step(s, es[0]), es[1..], id, t))
  }

  ghost predicate FailedOn(s: System, es: seq<Event>, id: SandboxId, t: nat)
    decreases |es|
  {
    es != [] && Allowed(s, es[0]) && (Failed(s, es[0], id, t) || FailedOn(Step(s, es[0]), es[1..], id, t))
  }

  ghost predicate RefusedOn(s: System, es: seq<Event>, id: SandboxId, t: nat)
    decreases |es|
  {
    es != [] && Allowed(s, es[0]) && (Refused(s, es[0], id, t) || RefusedOn(Step(s, es[0]), es[1..], id, t))
  }

  lemma BroadcastLeavesAlone(b: Box, mark: bool, notify: bool, t: nat)
    requires t in b.launches
    ensures LeftAlone(b, Broadcast(b, mark, notify), t)
  {
  }

  lemma BoxLeftAlone(s: System, e: Event, id: SandboxId, t: nat)
    requires Allowed(s, e) && !(e.On? && e.id == id) && t in Lookup(s, id).launches
    ensures LeftAlone(Lookup(s, id), BoxAfter(s, e, id), t)
  {
    match e {
      case ShutdownMark(_) => BroadcastLeavesAlone(Lookup(s, id), true, false, t);
      case ShutdownNotify => BroadcastLeavesAlone(Lookup(s, id), false, true, t);
      case ForceMark => BroadcastLeavesAlone(Lookup(s, id), true, true, t);
      case _ =>
    }
  }

  lemma BystandersLeaveAlone(s: System, e: Event, id: SandboxId, t: nat)
    requires Allowed(s, e) && !IsStepOf(e, id, t) && t in Lookup(s, id).launches
    ensures LeftAlone(Lookup(s, id), Lookup(Step(s, e), id), t)
  {
    StepAt(s, e, id);
    if e.On? && e.id == id {
      OthersLeaveAlone(Lookup(s, id), s.nextGeneration, s.accepting, e.step, t);
    } else {
      BoxLeftAlone(s, e, id, t);
    }
  }

  lemma {:induction false} DoomedGetsNone(s: System, es: seq<Event>, id: SandboxId, t: nat)
    requires CallOn(s, es, id, t) && Doomed(Lookup(s, id).launches[t])
    ensures !LeasedOn(s, es, id, t) && !RefusedOn(s, es, id, t)
    decreases |es|
  {
    var e := es[0];
    StepAt(s, e, id);
    if IsStepOf(e, id, t) {
      DoomedStep(Lookup(s, id), s.nextGeneration, s.accepting, e.step);
      assert |es| == 1;
    } else {
      BystandersLeaveAlone(s, e, id, t);
      if |es| > 1 {
        DoomedGetsNone(Step(s, e), es[1..], id, t);
      }
    }
  }

  /** What one step does to a launch that has not failed. */
  lemma LaunchProceeds(s: System, e: Event, id: SandboxId, t: nat)
    requires Inv(s) && Allowed(s, e) && t in Lookup(s, id).launches && !Doomed(Lookup(s, id).launches[t])
    ensures var b, c := Lookup(s, id), Lookup(Step(s, e), id);
      if Failed(s, e, id, t) || Refused(s, e, id, t) then
        !Leased(s, e, id, t) && (t in c.launches ==> Doomed(c.launches[t]))
      else if t !in c.launches then Leased(s, e, id, t)
      else
        && !Leased(s, e, id, t) && !Doomed(c.launches[t])
        && (MarksByLaunch(b.launches[t]) ==> MarksByLaunch(c.launches[t]))
  {
    if IsStepOf(e, id, t) {
      StepAt(s, e, id);
      LookupSound(s, id);
      OwnStepProceeds(Lookup(s, id), s.nextGeneration, s.accepting, e.step);
    } else {
      BystandersLeaveAlone(s, e, id, t);
    }
  }

  lemma {:induction false} LaunchOutcome(s: System, es: seq<Event>, id: SandboxId, t: nat)
    requires Inv(s) && CallOn(s, es, id, t) && !Doomed(Lookup(s, id).launches[t])
    ensures LeasedOn(s, es, id, t) <==> !FailedOn(s, es, id, t) && !RefusedOn(s, es, id, t)
    decreases |es|
  {
    var e, m, rest := es[0], Step(s, es[0]), es[1..];
    LaunchProceeds(s, e, id, t);
    if |es| > 1 {
      assert CallOn(m, rest, id, t);
      if Failed(s, e, id, t) || Refused(s, e, id, t) {
        DoomedGetsNone(m, rest, id, t);
      } else {
        InvKept(s, e);
        LaunchOutcome(m, rest, id, t);
      }
    }
  }

  /** A launch that holds the marker is never turned away. */
  lemma {:induction false} CreatorIsNotRefused(s: System, es: seq<Event>, id: SandboxId, t: nat)
    requires Inv(s) && CallOn(s, es, id, t) && MarksByLaunch(Lookup(s, id).launches[t])
    ensures !RefusedOn(s, es, id, t)
    decreases |es|
  {
    var e, m, rest := es[0], Step(s, es[0]), es[1..];
    assert !Refused(s, e, id, t);
    if |es| > 1 {
      if Doomed(Lookup(s, id).launches[t]) {
        DoomedGetsNone(s, es, id, t);
      } else {
        LaunchProceeds(s, e, id, t);
        InvKept(s, e);
        CreatorIsNotRefused(m, rest, id, t);
      }
    }
  }

  /** Every launch of every run, whatever runs beside it: `es` is its call, from the entry to
      its return. It returns with a lease if and only if it was never turned away and none of
      its operations failed. */
  lemma LaunchLeasedIff(pre: seq<Event>, s: System, es: seq<Event>, id: SandboxId, t: nat)
    requires Runs(Initial, pre, s) && CallOn(s, es, id, t) && Lookup(s, id).launches[t].Entering?
    ensures LeasedOn(s, es, id, t) <==> !FailedOn(s, es, id, t) && !RefusedOn(s, es, id, t)
  {
    RunKeeps(Initial, pre, s);
    LaunchOutcome(s, es, id, t);
  }

  /** A launch that holds the marker, such as one that has removed a stale temp tree, is not
      turned away any more: it returns with a lease if and only if no operation of its own
      fails from there on. */
  lemma CreatorLeasedIff(pre: seq<Event>, s: System, es: seq<Event>, id: SandboxId, t: nat)
    requires Runs(Initial, pre, s) && CallOn(s, es, id, t)
    requires MarksByLaunch(Lookup(s, id).launches[t]) && !Doomed(Lookup(s, id).launches[t])
    ensures LeasedOn(s, es, id, t) <==> !FailedOn(s, es, id, t)
  {
    RunKeeps(Initial, pre, s);
    LaunchOutcome(s, es, id, t);
    CreatorIsNotRefused(s, es, id, t);
  }

  // ---- joining -----------------------------------------------------------------------

  /** A launch that waited for a creator gets a lease once it looks again and finds a
      generation with its own identity, and is then counted in. */
  lemma WaiterJoins(b: Box, next: nat, t: nat, l: nat) returns (c: Box)
    requires BoxInv(b, next) && t in b.launches && b.launches[t].Waiting? && l !in b.leases
    requires IsActive(b.slot) && b.slot.value.identity == b.launches[t].identity
    ensures BoxRuns(b, next, true, [LaunchWake(t)] + ([LaunchEnter(t, true, l)] + []), c)
    ensures c.leases == b.leases[l := b.slot.value.generation] && t !in c.launches && c.gens == b.gens
    ensures IsActive(c.slot) && c.slot.value.generation == b.slot.value.generation
    ensures c.slot.value.inFlight == b.slot.value.inFlight + 1
  {
    var m := Apply(b, next, true, LaunchWake(t));
    c := Apply(m, next, true, LaunchEnter(t, true, l));
    assert BoxRuns(c, next, true, [], c);
    BoxPrepend(m, next, LaunchEnter(t, true, l), [], c);
    BoxPrepend(b, next, LaunchWake(t), [LaunchEnter(t, true, l)] + [], c);
  }

  // ---- taking a sandbox out of service -----------------------------------------------

  predicate IsActive(slot: Option<DomainSlot>) {
    slot.Some? && slot.value.Active?
  }

  predicate IsDeleting(slot: Option<DomainSlot>) {
    slot.Some? && slot.value.Deleting?
  }

  lemma LaunchCondemnsNone(b: Box, next: nat, accepting: bool, e: BoxEvent)
    requires BoxInv(b, next) && IsActive(b.slot) && LaunchSide(e) && LaunchEnabled(b, e)
    ensures IsActive(LaunchStep(b, next, accepting, e).slot)
  {
  }

  lemma ReleaseCondemnsIff(b: Box, next: nat, e: BoxEvent)
    requires BoxInv(b, next) && IsActive(b.slot)
    requires !LaunchSide(e) && !TeardownSide(e) && !KernelSide(e) && ReleaseEnabled(b, e) && !e.MarkForShutdown?
    ensures if e == ReleaseExamine(true) then ReleaseStep(b, e).slot == Some(Condemn(b.slot.value))
            else ReleaseStep(b, e).slot == b.slot
    ensures e == ReleaseExamine(false) ==> ReleaseStep(b, e).release == Returned(false)
  {
  }

  lemma BoxCondemnedIff(b: Box, next: nat, accepting: bool, e: BoxEvent)
    requires BoxInv(b, next) && IsActive(b.slot) && Enabled(b, next, accepting, e) && !e.MarkForShutdown?
    ensures IsDeleting(Apply(b, next, accepting, e).slot) <==> e == ReleaseExamine(true)
    ensures e == ReleaseExamine(false) ==>
              Apply(b, next, accepting, e).slot == b.slot && Apply(b, next, accepting, e).release == Returned(false)
  {
    if LaunchSide(e) {
      LaunchCondemnsNone(b, next, accepting, e);
    } else if !TeardownSide(e) && !KernelSide(e) {
      ReleaseCondemnsIff(b, next, e);
    }
  }

  lemma BroadcastCondemnsIff(b: Box, mark: bool, notify: bool)
    requires IsActive(b.slot)
    ensures IsDeleting(Broadcast(b, mark, notify).slot) <==> mark
  {
  }

  lemma ElsewhereCondemnsIff(s: System, e: Event, id: SandboxId)
    requires Allowed(s, e) && IsActive(Lookup(s, id).slot) && !(e.On? && e.id == id)
    ensures IsDeleting(BoxAfter(s, e, id).slot) <==> e.ShutdownMark? || e.ForceMark?
  {
    var b := Lookup(s, id);
    match e {
      case ShutdownMark(_) => BroadcastCondemnsIff(b, true, false);
      case ShutdownNotify => BroadcastCondemnsIff(b, false, true);
      case ForceMark => BroadcastCondemnsIff(b, true, true);
      case _ =>
    }
  }

  /** An active sandbox goes out of service exactly by a release call whose `kill_all` worked
      and by the marking of a shutdown or a forced shutdown. A release call whose `kill_all`
      fails returns an error and leaves the slot as it found it. */
  lemma CondemnedIff(es: seq<Event>, s: System, e: Event, id: SandboxId)
    requires Runs(Initial, es, s) && Allowed(s, e) && IsActive(Lookup(s, id).slot)
    ensures IsDeleting(Lookup(Step(s, e), id).slot) <==>
              e == On(id, ReleaseExamine(true)) || e.ShutdownMark? || e.ForceMark?
    ensures e == On(id, ReleaseExamine(false)) ==>
              && Lookup(Step(s, e), id).slot == Lookup(s, id).slot
              && Lookup(Step(s, e), id).release == Returned(false)
  {
    StepAt(s, e, id);
    if e.On? && e.id == id {
      Reachable(es, s, id);
      BoxCondemnedIff(Lookup(s, id), s.nextGeneration, s.accepting, e.step);
    } else {
      ElsewhereCondemnsIff(s, e, id);
    }
  }
}
