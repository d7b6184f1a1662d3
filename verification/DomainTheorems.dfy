/**
 What holds in every reachable state of the registry, for every interleaving of
 launches, waiters, deletion, shutdown and forced shutdown.
 */
module DomainTheorems {
  import opened Options
  import opened DomainSlots
  import opened DomainMachine
  import opened DomainInvariant
  import opened DomainSystem

  // ---- leases ----------------------------------------------------------------------

  /** A slot counts its live leases and the launches that leaked, and nothing else; a live
      lease keeps its own generation in the slot with its cgroup and temp tree in place. */
  lemma LeaseAccounting(es: seq<Event>, s: System, id: SandboxId)
    requires Runs(Initial, es, s)
    ensures var b := Lookup(s, id);
      && (Holds(b.slot) ==>
            && b.slot.value.generation in b.gens
            && b.slot.value.inFlight == |LeasesOf(b, b.slot.value.generation)| + b.gens[b.slot.value.generation].leaked)
      && (forall l :: l in b.leases ==>
            && Holds(b.slot) && b.slot.value.generation == b.leases[l] && b.slot.value.inFlight >= 1
            && b.leases[l] in b.gens && b.gens[b.leases[l]].cgroup && b.gens[b.leases[l]].temp)
  {
    Reachable(es, s, id);
    var b := Lookup(s, id);
    forall l | l in b.leases
      ensures b.slot.value.inFlight >= 1
      ensures b.leases[l] in b.gens && b.gens[b.leases[l]].cgroup && b.gens[b.leases[l]].temp
    {
      assert l in LeasesOf(b, b.leases[l]);
    }
  }

  /** Dropping a lease decrements the slot of its own generation by exactly one: the
      saturating subtraction never clamps and never reaches a younger generation. */
  lemma LeaseDropIsExact(es: seq<Event>, s: System, e: Event)
    requires Runs(Initial, es, s)
    requires e.On? && e.step.LeaseDrop? && Allowed(s, e)
    ensures var b := Lookup(s, e.id);
      && Holds(b.slot) && b.slot.value.generation == b.leases[e.step.lease]
      && b.slot.value.inFlight >= 1
      && SaturatingPred(b.slot.value.inFlight) + 1 == b.slot.value.inFlight
      && (Holds(Lookup(Step(s, e), e.id).slot) ==>
            && Lookup(Step(s, e), e.id).slot.value.generation == b.slot.value.generation
            && Lookup(Step(s, e), e.id).slot.value.inFlight + 1 == b.slot.value.inFlight)
  {
    LeaseAccounting(es, s, e.id);
  }

  /** `g` is a published generation of `b` whose cgroup exists. */
  predicate LiveCgroup(b: Box, g: nat) {
    g in b.gens && b.gens[g].published && b.gens[g].cgroup
  }

  /** Launch and release steps leave existing published cgroups alone. */
  lemma LaunchRemovesNone(b: Box, next: nat, accepting: bool, e: BoxEvent, g: nat)
    requires BoxInv(b, next) && LaunchSide(e) && LaunchEnabled(b, e) && LiveCgroup(b, g)
    ensures LiveCgroup(LaunchStep(b, next, accepting, e), g)
  {
  }

  lemma ReleaseRemovesNone(b: Box, e: BoxEvent, g: nat)
    requires !LaunchSide(e) && !TeardownSide(e) && !KernelSide(e) && ReleaseEnabled(b, e) && LiveCgroup(b, g)
    ensures LiveCgroup(ReleaseStep(b, e), g)
  {
  }

  lemma DropRemovesSafely(b: Box, next: nat, e: BoxEvent, g: nat)
    requires BoxInv(b, next) && KernelSide(e) && KernelEnabled(b, e)
    requires LiveCgroup(b, g) && !LiveCgroup(KernelStep(b, e), g)
    ensures b.gens[g].members == 0
    ensures LeasesOf(KernelStep(b, e), g) == {}
  {
    assert e.LeaseDrop?;
    assert e.lease in LeasesOf(b, b.leases[e.lease]);
    assert |LeasesOf(b, g) - {e.lease}| == 0;
    assert LeasesOf(KernelStep(b, e), g) <= LeasesOf(b, g) - {e.lease};
  }

  lemma TeardownRemovesSafely(b: Box, next: nat, e: BoxEvent, g: nat)
    requires BoxInv(b, next) && TeardownSide(e) && TeardownEnabled(b, e)
    requires LiveCgroup(b, g) && !LiveCgroup(TeardownStep(b, e), g)
    ensures b.gens[g].members == 0
    ensures LeasesOf(TeardownStep(b, e), g) == {}
  {
    assert e.TeardownUnlink?;
    DrainedBarrier(b);
  }

  lemma BoxRemovalSafe(b: Box, next: nat, accepting: bool, e: BoxEvent, g: nat)
    requires BoxInv(b, next) && Enabled(b, next, accepting, e)
    requires LiveCgroup(b, g) && !LiveCgroup(Apply(b, next, accepting, e), g)
    ensures b.gens[g].members == 0
    ensures LeasesOf(Apply(b, next, accepting, e), g) == {}
  {
    if LaunchSide(e) {
      LaunchRemovesNone(b, next, accepting, e, g);
    } else if TeardownSide(e) {
      TeardownRemovesSafely(b, next, e, g);
    } else if KernelSide(e) {
      DropRemovesSafely(b, next, e, g);
    } else {
      ReleaseRemovesNone(b, e, g);
    }
  }

  /** A published cgroup disappears only when it has no member process and no live lease
      is left on it (the last lease may be the one whose drop removes it). */
  lemma CgroupRemovalSafe(es: seq<Event>, s: System, e: Event, id: SandboxId, g: nat)
    requires Runs(Initial, es, s) && Allowed(s, e)
    ensures LiveCgroup(Lookup(s, id), g) && !LiveCgroup(Lookup(Step(s, e), id), g) ==>
              Lookup(s, id).gens[g].members == 0 && LeasesOf(Lookup(Step(s, e), id), g) == {}
  {
    if LiveCgroup(Lookup(s, id), g) && !LiveCgroup(Lookup(Step(s, e), id), g) {
      if e.On? && e.id == id {
        Reachable(es, s, id);
        BoxRemovalSafe(Lookup(s, id), s.nextGeneration, s.accepting, e.step, g);
      } else {
        OthersUntouched(s, e, id);
      }
    }
  }

  /** The drop of lease `l` is the one that retires the generation: it is the last lease,
      nobody leaked, the cgroup reads as empty both times and can be unlinked. */
  predicate LastDrop(b: Box, e: BoxEvent)
    requires e.LeaseDrop?
  {
    && b.slot.Some? && b.slot.value.Active? && b.slot.value.generation in b.gens
    && b.leases.Keys == {e.lease} && b.gens[b.slot.value.generation].leaked == 0
    && e.populated == Some(false) && e.again == Some(false) && e.unlinkOk
  }

  lemma OnlyLease(b: Box, next: nat, l: nat)
    requires BoxInv(b, next) && l in b.leases
    ensures Holds(b.slot) && Counted(b, b.slot.value.generation, b.slot.value.inFlight)
    ensures b.slot.value.inFlight == 1 <==>
              b.leases.Keys == {l} && b.gens[b.slot.value.generation].leaked == 0
  {
    var g := b.slot.value.generation;
    assert LeasesOf(b, g) == b.leases.Keys && l in LeasesOf(b, g);
    assert |LeasesOf(b, g)| == |LeasesOf(b, g) - {l}| + 1;
    if b.slot.value.inFlight == 1 {
      assert LeasesOf(b, g) - {l} == {};
    }
  }

  lemma BoxRetiresIff(b: Box, next: nat, e: BoxEvent)
    requires BoxInv(b, next) && e.LeaseDrop? && KernelEnabled(b, e)
    requires b.slot.value.inFlight == 1 <==>
               b.leases.Keys == {e.lease} && b.gens[b.slot.value.generation].leaked == 0
    ensures var g, c := b.slot.value.generation, KernelStep(b, e);
      if LastDrop(b, e) then
        && c.slot == (if e.tempOk then None else Some(CleanupPending(g))) && g in c.gens
        && !c.gens[g].cgroup && c.gens[g].temp == !e.tempOk
      else Holds(c.slot) && c.slot.value.generation == g && c.gens == b.gens
  {
  }

  /** Exactly which drop of a lease retires its generation: the last one, with nobody leaked
      and the cgroup read as empty and unlinked. Then the slot is gone, or holds the temp tree
      that could not be removed; otherwise the generation stays in the slot, untouched. */
  lemma DropRetiresIff(es: seq<Event>, s: System, id: SandboxId, e: BoxEvent)
    requires Runs(Initial, es, s) && e.LeaseDrop? && Allowed(s, On(id, e))
    ensures var b, c := Lookup(s, id), Lookup(Step(s, On(id, e)), id);
      && Holds(b.slot)
      && var g := b.slot.value.generation;
         if LastDrop(b, e) then
           && c.slot == (if e.tempOk then None else Some(CleanupPending(g))) && g in c.gens
           && !c.gens[g].cgroup && c.gens[g].temp == !e.tempOk
         else Holds(c.slot) && c.slot.value.generation == g && c.gens == b.gens
  {
    Reachable(es, s, id);
    OnlyLease(Lookup(s, id), s.nextGeneration, e.lease);
    BoxRetiresIff(Lookup(s, id), s.nextGeneration, e);
    StepAt(s, On(id, e), id);
  }

  // ---- generations -----------------------------------------------------------------

  /** At most one published cgroup of a sandbox exists, and it is the one its slot names. */
  lemma OneGeneration(es: seq<Event>, s: System, id: SandboxId, g: nat, h: nat)
    requires Runs(Initial, es, s)
    requires LiveCgroup(Lookup(s, id), g) && LiveCgroup(Lookup(s, id), h)
    ensures g == h
    ensures Holds(Lookup(s, id).slot) && Lookup(s, id).slot.value.generation == g
  {
    Reachable(es, s, id);
  }

  /** Only the owner of the marker publishes, over its own marker. */
  lemma PublisherOwns(b: Box, next: nat, t: nat)
    requires BoxInv(b, next) && t in b.launches && b.launches[t].Publishing?
    ensures b.slot == Some(Creating) && LaunchSound(b, next, b.launches[t])
  {
    assert OwningLaunch(b) == Some(b.launches[t]);
  }

  /** Only a publishing launch publishes a generation, and only an entering or publishing
      launch takes a lease. */
  lemma ReleasePublishesNone(b: Box, e: BoxEvent)
    requires !LaunchSide(e) && !TeardownSide(e) && !KernelSide(e) && ReleaseEnabled(b, e)
    ensures ReleaseStep(b, e).leases == b.leases
    ensures forall g :: g in ReleaseStep(b, e).gens ==>
              g in b.gens && ReleaseStep(b, e).gens[g].published == b.gens[g].published
  {
  }

  lemma OthersAddNone(b: Box, next: nat, accepting: bool, e: BoxEvent)
    requires Enabled(b, next, accepting, e) && !LaunchSide(e)
    ensures Apply(b, next, accepting, e).leases.Keys <= b.leases.Keys
    ensures forall g :: g in Apply(b, next, accepting, e).gens ==>
              g in b.gens && Apply(b, next, accepting, e).gens[g].published == b.gens[g].published
  {
    if !TeardownSide(e) && !KernelSide(e) {
      ReleasePublishesNone(b, e);
    }
  }

  lemma BoxGenerationsIncrease(b: Box, next: nat, accepting: bool, e: BoxEvent, g: nat, h: nat)
    requires BoxInv(b, next) && Enabled(b, next, accepting, e)
    requires var c := Apply(b, next, accepting, e);
             g in c.gens && c.gens[g].published && !(g in b.gens && b.gens[g].published)
    requires h in b.gens && b.gens[h].published
    ensures h < g < next
  {
    if LaunchSide(e) {
      LaunchPublishes(b, next, accepting, e, g);
      PublisherOwns(b, next, e.t);
    } else {
      OthersAddNone(b, next, accepting, e);
    }
  }

  lemma LaunchPublishes(b: Box, next: nat, accepting: bool, e: BoxEvent, g: nat)
    requires LaunchSide(e) && LaunchEnabled(b, e)
    requires var c := LaunchStep(b, next, accepting, e);
             g in c.gens && c.gens[g].published && !(g in b.gens && b.gens[g].published)
    ensures e.LaunchPublish? && b.launches[e.t].generation == g
  {
  }

  lemma LaunchTakesLease(b: Box, next: nat, accepting: bool, e: BoxEvent, l: nat)
    requires BoxInv(b, next) && LaunchSide(e) && LaunchEnabled(b, e)
    requires l !in b.leases && l in LaunchStep(b, next, accepting, e).leases
    ensures e.LaunchEnter? || e.LaunchPublish?
    ensures e.t in b.launches && !b.launches[e.t].Aborting?
    ensures var c := LaunchStep(b, next, accepting, e);
      c.leases[l] in c.gens && c.gens[c.leases[l]].identity == b.launches[e.t].identity
  {
    if e.LaunchPublish? {
      PublisherOwns(b, next, e.t);
    }
  }

  lemma BoxLeaseIdentity(b: Box, next: nat, accepting: bool, e: BoxEvent, l: nat)
    requires BoxInv(b, next) && Enabled(b, next, accepting, e)
    requires l !in b.leases && l in Apply(b, next, accepting, e).leases
    ensures e.LaunchEnter? || e.LaunchPublish?
    ensures e.t in b.launches && !b.launches[e.t].Aborting?
    ensures var c := Apply(b, next, accepting, e);
      c.leases[l] in c.gens && c.gens[c.leases[l]].identity == b.launches[e.t].identity
  {
    if LaunchSide(e) {
      LaunchTakesLease(b, next, accepting, e, l);
    } else {
      OthersAddNone(b, next, accepting, e);
    }
  }

  /** Published generations of a sandbox come in strictly increasing order. */
  lemma GenerationsIncrease(es: seq<Event>, s: System, e: Event, g: nat, h: nat)
    requires Runs(Initial, es, s) && e.On? && Allowed(s, e)
    requires var b, c := Lookup(s, e.id), Lookup(Step(s, e), e.id);
      && g in c.gens && c.gens[g].published && !(g in b.gens && b.gens[g].published)
      && h in b.gens && b.gens[h].published
    ensures h < g < s.nextGeneration
  {
    Reachable(es, s, e.id);
    BoxGenerationsIncrease(Lookup(s, e.id), s.nextGeneration, s.accepting, e.step, g, h);
  }

  /** A lease is granted only on a generation with the launch's own identity. */
  lemma LeaseIdentity(es: seq<Event>, s: System, e: Event, l: nat)
    requires Runs(Initial, es, s) && e.On? && Allowed(s, e)
    requires l !in Lookup(s, e.id).leases && l in Lookup(Step(s, e), e.id).leases
    ensures e.step.LaunchEnter? || e.step.LaunchPublish?
    ensures var b, c := Lookup(s, e.id), Lookup(Step(s, e), e.id);
      && e.step.t in b.launches && !b.launches[e.step.t].Aborting?
      && c.leases[l] in c.gens && c.gens[c.leases[l]].identity == b.launches[e.step.t].identity
  {
    Reachable(es, s, e.id);
    BoxLeaseIdentity(Lookup(s, e.id), s.nextGeneration, s.accepting, e.step, l);
  }

  /** What decides a launch in every reachable state: it joins exactly an active generation
      with its own identity (whose namespace descriptor, if any, could be duplicated), waits
      exactly for a creator, creates exactly when nothing is there, and is rejected only
      when launches are refused, the sandbox is being deleted, another identity is active
      or the duplication failed. */
  lemma LaunchDecisionExact(es: seq<Event>, s: System, id: SandboxId, t: nat, dupOk: bool)
    requires Runs(Initial, es, s)
    requires t in Lookup(s, id).launches && Lookup(s, id).launches[t].Entering?
    ensures var slot, who := Lookup(s, id).slot, Lookup(s, id).launches[t].identity;
      var join := JoinDecision(slot, who, s.accepting, dupOk);
      && (join.Joined? <==>
            s.accepting && slot.Some? && slot.value.Active? && slot.value.identity == who && (who.Some? ==> dupOk))
      && (join.Joined? ==> join.domain == join.runtimeTemp == slot.value.generation)
      && (join.StartCreating? <==> s.accepting && slot.None?)
      && (join.WaitCreating? <==> s.accepting && slot == Some(Creating))
      && (join.CleanPending? <==> s.accepting && slot.Some? && slot.value.CleanupPending?)
      && (join.Rejected? <==>
            || !s.accepting
            || (slot.Some? && slot.value.Deleting?)
            || (slot.Some? && slot.value.Active? && (slot.value.identity != who || (who.Some? && !dupOk))))
  {
    Reachable(es, s, id);
  }

  // ---- the Creating marker ---------------------------------------------------------

  /** Who takes the step: the launch or the release call an event belongs to. */
  function Actor(e: BoxEvent): Option<Owner> {
    if LaunchSide(e) then Some(ByLaunch(e.t))
    else if e.ReleaseRemovePending? || e.ReleaseAfterPending? then Some(ByRelease)
    else None
  }

  lemma BoxMarkerMoved(b: Box, next: nat, accepting: bool, e: BoxEvent)
    requires BoxInv(b, next) && Enabled(b, next, accepting, e)
    requires b.slot == Some(Creating) && Apply(b, next, accepting, e).slot != Some(Creating)
    ensures b.owner == Actor(e) && b.owner.Some?
  {
  }

  /** A marker has exactly one owner: a launch that is cleaning or creating, or a deleter
      that is cleaning. */
  lemma MarkerHasOneOwner(es: seq<Event>, s: System, id: SandboxId)
    requires Runs(Initial, es, s)
    ensures var b := Lookup(s, id);
      && (b.slot == Some(Creating) <==> (b.owner.Some?))
      && (forall t :: t in b.launches && MarksByLaunch(b.launches[t]) <==> b.owner == Some(ByLaunch(t)))
      && (MarksByRelease(b.release) <==> b.owner == Some(ByRelease))
  {
    Reachable(es, s, id);
  }

  /** Nobody but its owner ever moves a marker. */
  lemma OnlyOwnerMovesMarker(es: seq<Event>, s: System, e: Event, id: SandboxId)
    requires Runs(Initial, es, s) && Allowed(s, e)
    ensures Lookup(s, id).slot == Some(Creating) && Lookup(Step(s, e), id).slot != Some(Creating) ==>
              e.On? && e.id == id && Lookup(s, id).owner.Some? && Lookup(s, id).owner == Actor(e.step)
  {
    if Lookup(s, id).slot == Some(Creating) && Lookup(Step(s, e), id).slot != Some(Creating) {
      if e.On? && e.id == id {
        Reachable(es, s, id);
        BoxMarkerMoved(Lookup(s, id), s.nextGeneration, s.accepting, e.step);
      } else {
        OthersUntouched(s, e, id);
      }
    }
  }

  /** The defensive branches are dead: a publisher never meets a competing transition, a
      cleaner always finds its marker, the namespace state is never inconsistent, and a
      failed teardown restores the generation it took, not the fallback. */
  lemma DefensiveBranchesAreDead(es: seq<Event>, s: System, id: SandboxId)
    requires Runs(Initial, es, s)
    ensures var b := Lookup(s, id);
      && (forall t :: t in b.launches && b.launches[t].Publishing? ==> MayPublish(b.slot) && b.slot.Some?)
      && (forall t :: t in b.launches && (b.launches[t].Cleaned? || b.launches[t].Aborting?) ==>
          b.slot == Some(Creating))
      && (b.release.CleanedPending? ==> b.slot == Some(Creating))
      && (b.slot.Some? && b.slot.value.Active? ==> b.slot.value.userns == b.slot.value.identity.Some?)
      && (b.release.TearingDown? ==>
            && b.slot.Some? && b.slot.value.Deleting? && b.release.temp == Some(RestoredGeneration(b.slot))
            && (b.release.domain.Some? ==> b.release.domain == b.release.temp))
  {
    Reachable(es, s, id);
  }

  /** A sleeper that nobody has notified. A release call still has nothing to do. A launch
      still has to wait if and only if launches are accepted: clearing the flag turns its
      decision into a rejection without waking it. */
  lemma SleeperWaitsIffAccepting(es: seq<Event>, s: System, id: SandboxId, dupOk: bool)
    requires Runs(Initial, es, s)
    ensures var b := Lookup(s, id);
      && (forall t :: t in b.launches && b.launches[t].Waiting? && !b.launches[t].notified ==>
            var join := JoinDecision(b.slot, b.launches[t].identity, s.accepting, dupOk);
            b.slot == Some(Creating) && (join == WaitCreating <==> s.accepting) && (join == Rejected <==> !s.accepting))
      && (b.release.AwaitingCreator? && !b.release.notified ==> ReleasePhase(b.slot) == AwaitCreating)
      && (b.release.AwaitingBarrier? && !b.release.notified ==> ReleasePhase(b.slot) == AwaitBarrier)
  {
    Reachable(es, s, id);
  }

  // ---- deletion --------------------------------------------------------------------

  predicate NamesCgroup(slot: Option<DomainSlot>, g: nat) {
    match slot
    case Some(Active(h, _, d, _, _, _)) => h == g && d == g
    case Some(Deleting(h, _, d, _, _, _)) => h == g && d == Some(g)
    case _ => false
  }

  predicate NamesTemp(slot: Option<DomainSlot>, g: nat) {
    match slot
    case Some(Active(_, _, _, t, _, _)) => t == g
    case Some(Deleting(_, _, _, t, _, _)) => t == Some(g)
    case Some(CleanupPending(t)) => t == g
    case _ => false
  }

  /** The owner of the marker is cleaning up the stale temp tree of `g`. */
  predicate OwnerCleans(b: Box, g: nat) {
    || (b.owner == Some(ByRelease) && MarksByRelease(b.release) && b.release.stale == g)
    || (OwningLaunch(b).Some? && Cleans(OwningLaunch(b).value) && OwningLaunch(b).value.stale == g)
  }

  /** Outside a teardown in progress, after any release call, failed or not: an existing
      cgroup of a published generation is named by the slot. An existing temp tree is named
      by the slot if and only if the slot is not the marker; under the marker it is in the
      hands of the marker's owner. A slot that holds a generation still has its namespace
      descriptor, if the generation has an identity. */
  lemma DeletionKeepsOwnership(es: seq<Event>, s: System, id: SandboxId, g: nat)
    requires Runs(Initial, es, s)
    requires var b := Lookup(s, id); !b.release.TearingDown? && g in b.gens && b.gens[g].published
    ensures var b := Lookup(s, id);
      && (b.gens[g].cgroup ==> NamesCgroup(b.slot, g))
      && (b.gens[g].temp ==> (NamesTemp(b.slot, g) <==> b.slot != Some(Creating)))
      && (b.gens[g].temp && b.slot == Some(Creating) ==> OwnerCleans(b, g))
      && (Holds(b.slot) ==> b.slot.value.userns == b.slot.value.identity.Some?)
  {
    Reachable(es, s, id);
  }

  /** The temp tree of a published generation never goes before its cgroup. */
  lemma TempOutlivesCgroup(es: seq<Event>, s: System, id: SandboxId, g: nat)
    requires Runs(Initial, es, s)
    requires LiveCgroup(Lookup(s, id), g)
    ensures Lookup(s, id).gens[g].temp
  {
    Reachable(es, s, id);
  }

  /** The generation on whose cgroup an event issues `kill_all`, if it does. */
  function KillTarget(b: Box, e: BoxEvent): Option<nat> {
    if e.ReleaseExamine? && ReleasePhase(b.slot) == MarkDeleting then Some(b.slot.value.domain)
    else if e.TeardownKill? && b.release.TearingDown? then b.release.domain
    else if e.MarkForShutdown? && b.slot.Some? && b.slot.value.Active? then Some(b.slot.value.domain)
    else None
  }

  /** `kill_all` is only ever issued on a cgroup that still exists, by deletion, shutdown
      and forced shutdown alike. */
  lemma KillHitsExistingCgroup(es: seq<Event>, s: System, id: SandboxId, e: BoxEvent)
    requires Runs(Initial, es, s)
    requires Enabled(Lookup(s, id), s.nextGeneration, s.accepting, e)
    requires KillTarget(Lookup(s, id), e).Some?
    ensures LiveCgroup(Lookup(s, id), KillTarget(Lookup(s, id), e).value)
  {
    Reachable(es, s, id);
  }

  // ---- shutdown --------------------------------------------------------------------

  /** A box whose slot is gone has neither leases nor a published cgroup. */
  lemma AbsentBoxIsClean(b: Box, next: nat, g: nat)
    requires BoxInv(b, next) && b.slot.None?
    ensures b.leases == map[] && !LiveCgroup(b, g)
    ensures b.release.Returned? || b.release.Idle? ==> !(g in b.gens && b.gens[g].published && b.gens[g].temp)
  {
    assert b.leases.Keys == {};
  }

  /** Shutdown that returned Ok: the slot map is empty, every published cgroup is gone, no
      launch holds a lease, and all of this stays so whatever runs afterwards. */
  lemma ShutdownIsFinal(es: seq<Event>, s: System, more: seq<Event>, s': System, id: SandboxId, g: nat)
    requires Runs(Initial, es, s) && s.shutdown == Done(true)
    requires Runs(s, more, s')
    ensures SlotIds(s') == {}
    ensures Lookup(s', id).leases == map[] && !LiveCgroup(Lookup(s', id), g)
  {
    RunKeeps(Initial, es, s);
    DoneIsFinal(s, more, s');
    RunKeeps(s, more, s');
    LookupSound(s', id);
    assert Lookup(s', id).slot.Some? ==> id in SlotIds(s');
    AbsentBoxIsClean(Lookup(s', id), s'.nextGeneration, g);
  }

  lemma {:induction false} DoneIsFinal(s: System, es: seq<Event>, s': System)
    requires s.shutdown.Done? && Runs(s, es, s')
    ensures s'.shutdown == s.shutdown
    decreases |es|
  {
    if es != [] {
      DoneIsFinal(Step(s, es[0]), es[1..], s');
    }
  }
}
