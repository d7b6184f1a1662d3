/**
 What every step of the registry keeps, for one sandbox.
 */
module DomainInvariant {
  import opened Options
  import opened DomainSlots
  import opened DomainMachine

  ghost function LeasesOf(b: Box, g: nat): set<nat> {
    set l | l in b.leases && b.leases[l] == g
  }

  predicate Cleans(pc: Launch) { pc.Cleaning? || pc.Cleaned? }

  /** The launch holds the `Creating` marker. */
  predicate MarksByLaunch(pc: Launch) {
    Cleans(pc) || pc.Allocating? || pc.Building? || pc.Publishing? || pc.Aborting?
  }

  /** The launch that put the marker, if a launch did. */
  function OwningLaunch(b: Box): Option<Launch> {
    if b.owner.Some? && b.owner.value.ByLaunch? && b.owner.value.launch in b.launches
    then Some(b.launches[b.owner.value.launch]) else None
  }

  predicate MarksByRelease(r: Release) { r.CleaningPending? || r.CleanedPending? }

  /** Every marker has exactly one owner, and exactly the marker's owner is past it. */
  ghost predicate MarkerOwned(b: Box) {
    && (b.slot == Some(Creating) <==> b.owner.Some?)
    && (forall t :: t in b.launches ==> (MarksByLaunch(b.launches[t]) <==> b.owner == Some(ByLaunch(t))))
    && (b.owner.Some? && b.owner.value.ByLaunch? ==> b.owner.value.launch in b.launches)
    && (MarksByRelease(b.release) <==> b.owner == Some(ByRelease))
  }

  /** A slot that holds a generation counts exactly its leases plus its leaks. */
  ghost predicate Counted(b: Box, g: nat, inFlight: nat) {
    && g in b.gens && b.gens[g].published
    && inFlight == |LeasesOf(b, g)| + b.gens[g].leaked
  }

  ghost predicate SlotSound(b: Box) {
    match b.slot
    case None => true
    case Some(Creating) => true
    case Some(Active(g, n, d, t, i, u)) =>
      && Counted(b, g, n) && d == g && t == g
      && b.gens[g].cgroup && b.gens[g].temp && b.gens[g].identity == i && u == i.Some?
    case Some(Deleting(g, n, d, t, i, u)) =>
      && Counted(b, g, n) && b.gens[g].identity == i && (d.None? ==> n == 0)
      && (!b.release.TearingDown? ==>
            && (d.Some? ==> d.value == g)
            && (d.Some? <==> b.gens[g].cgroup)
            && t == Some(g) && b.gens[g].temp && u == i.Some?)
    case Some(CleanupPending(g)) => g in b.gens && b.gens[g].published && !b.gens[g].cgroup && b.gens[g].temp
  }

  /** A live lease pins its generation in the slot. */
  ghost predicate LeasesPinned(b: Box) {
    forall l :: l in b.leases ==> Holds(b.slot) && b.slot.value.generation == b.leases[l]
  }

  /** What still exists of a published generation is held by the slot, or by the one
      activity that took it out of the slot. */
  predicate CgroupHeld(b: Box, g: nat) {
    || (b.slot.Some? && b.slot.value.Active? && b.slot.value.domain == g)
    || (b.slot.Some? && b.slot.value.Deleting? && b.slot.value.domainLeft == Some(g))
    || (b.release.TearingDown? && b.release.domain == Some(g))
  }

  predicate TempHeld(b: Box, g: nat) {
    || (b.slot.Some? && b.slot.value.Active? && b.slot.value.runtimeTemp == g)
    || (b.slot.Some? && b.slot.value.Deleting? && b.slot.value.tempLeft == Some(g))
    || b.slot == Some(CleanupPending(g))
    || (b.release.TearingDown? && b.release.temp == Some(g))
    || (MarksByRelease(b.release) && b.release.stale == g)
    || (OwningLaunch(b).Some? && Cleans(OwningLaunch(b).value) && OwningLaunch(b).value.stale == g)
  }

  ghost predicate GensSound(b: Box, next: nat) {
    forall g :: g in b.gens ==>
      && g < next
      && (b.gens[g].published && b.gens[g].cgroup ==> CgroupHeld(b, g) && b.gens[g].temp)
      && (b.gens[g].published && b.gens[g].temp ==> TempHeld(b, g))
  }

  /** No published generation is as young as `g`. */
  predicate Youngest(b: Box, g: nat) {
    forall h :: h in b.gens && b.gens[h].published ==> h < g
  }

  ghost predicate LaunchSound(b: Box, next: nat, pc: Launch) {
    match pc
    case Cleaning(_, g) => g in b.gens && b.gens[g].published && !b.gens[g].cgroup && b.gens[g].temp
    case Cleaned(_, g, removed) => g in b.gens && b.gens[g].published && !b.gens[g].cgroup && b.gens[g].temp == !removed
    case Building(_, g) => g < next && g !in b.gens && Youngest(b, g)
    case Publishing(i, g) =>
      && g in b.gens && Youngest(b, g)
      && b.gens[g] == Generation(i, false, true, 0, true, 0)
    case _ => true
  }

  ghost predicate OwnerSound(b: Box, next: nat) {
    OwningLaunch(b).Some? ==> LaunchSound(b, next, OwningLaunch(b).value)
  }

  /** The deleter works on the generation its Deleting slot names, alone. */
  ghost predicate TeardownSound(b: Box) {
    b.release.TearingDown? ==>
      && b.slot.Some? && b.slot.value.Deleting? && b.slot.value.inFlight == 0
      && b.slot.value.domainLeft == None && b.slot.value.tempLeft == None
      && b.slot.value.identity == b.release.identity && b.release.userns == b.release.identity.Some?
      && var g := b.slot.value.generation;
      && g in b.gens
      && (b.release.domain.Some? ==> b.release.domain.value == g)
      && (b.release.domain.Some? <==> b.gens[g].cgroup)
      && b.release.temp == Some(g)
      && (b.gens[g].temp <==> b.release.stage != Finish(true))
      && (b.release.stage.AwaitEmpty? ==> b.release.domain.Some?)
      && (b.release.stage.CheckEmpty? || b.release.stage.Unlink? ==> b.release.domain.Some? && b.gens[g].members == 0)
      && (b.release.stage.RemoveTemp? || b.release.stage == Finish(true) ==> b.release.domain.None?)
  }

  ghost predicate PendingSound(b: Box) {
    match b.release
    case CleaningPending(g) => g in b.gens && b.gens[g].published && !b.gens[g].cgroup && b.gens[g].temp
    case CleanedPending(g, removed) => g in b.gens && b.gens[g].published && !b.gens[g].cgroup &&
        b.gens[g].temp == !removed
    case _ => true
  }

  /** A sleeper nobody has notified still has to sleep. */
  ghost predicate NoLostWakeup(b: Box) {
    && (forall t :: t in b.launches && b.launches[t].Waiting? && !b.launches[t].notified ==> b.slot == Some(Creating))
    && (b.release.AwaitingCreator? && !b.release.notified ==> b.slot == Some(Creating))
    && (b.release.AwaitingBarrier? && !b.release.notified ==>
          b.slot.Some? && b.slot.value.Deleting? && b.slot.value.inFlight > 0)
  }

  ghost predicate BoxInv(b: Box, next: nat) {
    && MarkerOwned(b)
    && SlotSound(b)
    && LeasesPinned(b)
    && GensSound(b, next)
    && OwnerSound(b, next)
    && TeardownSound(b)
    && PendingSound(b)
    && NoLostWakeup(b)
  }

  // ---- preservation, step by step --------------------------------------------------

  lemma NotifyKeeps(b: Box, next: nat)
    requires MarkerOwned(b) && SlotSound(b) && LeasesPinned(b) && GensSound(b, next) && OwnerSound(b, next)
    requires TeardownSound(b) && PendingSound(b)
    ensures BoxInv(Notify(b), next)
  {
    var c := Notify(b);
    assert forall g :: LeasesOf(c, g) == LeasesOf(b, g);
  }

  /** A launch that holds no marker may stop, or move to another markerless point. */
  lemma BystanderMoves(b: Box, next: nat, t: nat, pc: Launch)
    requires BoxInv(b, next)
    requires t in b.launches ==> !MarksByLaunch(b.launches[t])
    requires !MarksByLaunch(pc)
    requires pc.Waiting? && !pc.notified ==> b.slot == Some(Creating)
    ensures BoxInv(b.(launches := b.launches[t := pc]), next)
  {
    var c := b.(launches := b.launches[t := pc]);
    assert forall g :: LeasesOf(c, g) == LeasesOf(b, g);
  }

  lemma BystanderStops(b: Box, next: nat, t: nat)
    requires BoxInv(b, next)
    requires t in b.launches && !MarksByLaunch(b.launches[t])
    ensures BoxInv(b.(launches := b.launches - {t}), next)
  {
    var c := b.(launches := b.launches - {t});
    assert forall g :: LeasesOf(c, g) == LeasesOf(b, g);
  }

  /** A launch puts the marker over an absent or a pending slot. */
  lemma MarkerPut(b: Box, next: nat, t: nat, pc: Launch)
    requires BoxInv(b, next)
    requires t in b.launches && !MarksByLaunch(b.launches[t])
    requires || (b.slot.None? && pc.Allocating?)
             || (b.slot.Some? && b.slot.value.CleanupPending? && pc.Cleaning? && pc.stale == b.slot.value.stale)
    ensures BoxInv(b.(slot := Some(Creating), owner := Some(ByLaunch(t)), launches := b.launches[t := pc]), next)
  {
    var c := b.(slot := Some(Creating), owner := Some(ByLaunch(t)), launches := b.launches[t := pc]);
    assert forall g :: LeasesOf(c, g) == LeasesOf(b, g);
  }

  /** A launch joins the active generation. */
  lemma LeaseTaken(b: Box, next: nat, l: nat)
    requires BoxInv(b, next)
    requires b.slot.Some? && b.slot.value.Active? && l !in b.leases
    ensures var s := b.slot.value;
      BoxInv(b.(slot := Some(Active(s.generation, s.inFlight + 1, s.domain, s.runtimeTemp, s.identity, s.userns)),
                leases := b.leases[l := s.domain]), next)
  {
    var s := b.slot.value;
    var c := b.(slot := Some(Active(s.generation, s.inFlight + 1, s.domain, s.runtimeTemp, s.identity, s.userns)),
                leases := b.leases[l := s.domain]);
    assert LeasesOf(c, s.generation) == LeasesOf(b, s.generation) + {l};
  }

  lemma JoinKeeps(b: Box, next: nat, accepting: bool, t: nat, dupOk: bool, l: nat)
    requires BoxInv(b, next) && t in b.launches && b.launches[t].Entering? && l !in b.leases
    requires JoinDecision(b.slot, b.launches[t].identity, accepting, dupOk).Joined?
    ensures BoxInv(EnterStep(b, accepting, t, dupOk, l), next)
  {
    BystanderStops(b, next, t);
    LeaseTaken(b.(launches := b.launches - {t}), next, l);
  }

  lemma EnterKeeps(b: Box, next: nat, accepting: bool, t: nat, dupOk: bool, l: nat)
    requires BoxInv(b, next) && t in b.launches && b.launches[t].Entering? && l !in b.leases
    ensures BoxInv(EnterStep(b, accepting, t, dupOk, l), next)
  {
    var identity := b.launches[t].identity;
    match JoinDecision(b.slot, identity, accepting, dupOk) {
      case Rejected => BystanderStops(b, next, t);
      case StartCreating => MarkerPut(b, next, t, Allocating(identity));
      case WaitCreating => BystanderMoves(b, next, t, Waiting(identity, false));
      case Joined(_, _) => JoinKeeps(b, next, accepting, t, dupOk, l);
      case CleanPending(stale) => MarkerPut(b, next, t, Cleaning(identity, stale));
    }
  }

  lemma RemoveStaleKeeps(b: Box, next: nat, accepting: bool, t: nat, ok: bool)
    requires BoxInv(b, next)
    requires Enabled(b, next, accepting, LaunchRemoveStale(t, ok))
    ensures BoxInv(Apply(b, next, accepting, LaunchRemoveStale(t, ok)), next)
  {
    var c := Apply(b, next, accepting, LaunchRemoveStale(t, ok));
    assert forall g :: LeasesOf(c, g) == LeasesOf(b, g);
  }

  lemma AfterStaleKeeps(b: Box, next: nat, accepting: bool, t: nat)
    requires BoxInv(b, next)
    requires Enabled(b, next, accepting, LaunchAfterStale(t))
    ensures BoxInv(Apply(b, next, accepting, LaunchAfterStale(t)), next)
  {
    var pc := b.launches[t];
    if pc.removed {
      var c := b.(launches := b.launches[t := Allocating(pc.identity)]);
      assert forall g :: LeasesOf(c, g) == LeasesOf(b, g);
    } else {
      var c := b.(slot := Some(CleanupPending(pc.stale)), owner := None, launches := b.launches - {t});
      assert forall g :: LeasesOf(c, g) == LeasesOf(b, g);
      NotifyKeeps(c, next);
    }
  }

  lemma AllocateKeeps(b: Box, next: nat, accepting: bool, t: nat, scopeOk: bool)
    requires BoxInv(b, next)
    requires Enabled(b, next, accepting, LaunchAllocate(t, scopeOk))
    ensures BoxInv(Apply(b, next, accepting, LaunchAllocate(t, scopeOk)), if scopeOk then next + 1 else next)
  {
    var c := Apply(b, next, accepting, LaunchAllocate(t, scopeOk));
    assert forall g :: LeasesOf(c, g) == LeasesOf(b, g);
  }

  lemma BuildKeeps(b: Box, next: nat, accepting: bool, t: nat, ok: bool, cgroupLeft: bool, tempLeft: bool)
    requires BoxInv(b, next)
    requires Enabled(b, next, accepting, LaunchBuild(t, ok, cgroupLeft, tempLeft))
    ensures BoxInv(Apply(b, next, accepting, LaunchBuild(t, ok, cgroupLeft, tempLeft)), next)
  {
    var c := Apply(b, next, accepting, LaunchBuild(t, ok, cgroupLeft, tempLeft));
    assert forall g :: LeasesOf(c, g) == LeasesOf(b, g);
  }

  lemma PublishKeeps(b: Box, next: nat, accepting: bool, t: nat, dupOk: bool, l: nat)
    requires BoxInv(b, next)
    requires Enabled(b, next, accepting, LaunchPublish(t, dupOk, l))
    ensures BoxInv(Apply(b, next, accepting, LaunchPublish(t, dupOk, l)), next)
  {
    var Publishing(identity, g) := b.launches[t];
    var counted := identity.None? || dupOk;
    var c := b.(launches := b.launches - {t},
                slot := Publish(b.slot, g, g, g, identity, identity.Some?), owner := None,
                gens := b.gens[g := b.gens[g].(published := true,
                                               leaked := b.gens[g].leaked + if counted then 0 else 1)],
                leases := if counted then b.leases[l := g] else b.leases);
    assert b.leases == map[];
    assert LeasesOf(c, g) == if counted then {l} else {};
    NotifyKeeps(c, next);
  }

  lemma AbortKeeps(b: Box, next: nat, accepting: bool, t: nat)
    requires BoxInv(b, next)
    requires Enabled(b, next, accepting, LaunchAbort(t))
    ensures BoxInv(Apply(b, next, accepting, LaunchAbort(t)), next)
  {
    var c := b.(slot := None, owner := None, launches := b.launches - {t});
    assert forall g :: LeasesOf(c, g) == LeasesOf(b, g);
    NotifyKeeps(c, next);
  }

  /** A teardown that counts on an empty cgroup is left alone by the processes of others. */
  lemma MembersKeepTeardown(b: Box, g: nat, members: nat)
    requires SlotSound(b) && LeasesPinned(b) && TeardownSound(b) && g in b.gens
    requires b.gens[g].members > 0 || LeasesOf(b, g) != {}
    ensures TeardownSound(b.(gens := b.gens[g := b.gens[g].(members := members)]))
  {
    if LeasesOf(b, g) != {} {
      var l :| l in LeasesOf(b, g);
      assert Holds(b.slot) && b.slot.value.generation == g;
      assert |LeasesOf(b, g)| > 0;
    }
  }

  /** Processes come and go in a cgroup that a lease or a member keeps in use. */
  lemma MembersKeep(b: Box, next: nat, g: nat, members: nat)
    requires BoxInv(b, next)
    requires g in b.gens
    requires b.gens[g].members > 0 || LeasesOf(b, g) != {}
    ensures BoxInv(b.(gens := b.gens[g := b.gens[g].(members := members)]), next)
  {
    var c := b.(gens := b.gens[g := b.gens[g].(members := members)]);
    MembersKeepTeardown(b, g, members);
    assert forall h :: LeasesOf(c, h) == LeasesOf(b, h);
    assert SlotSound(c);
    assert GensSound(c, next);
    assert OwnerSound(c, next);
  }

  /** The drop of the last lease that also removes the empty cgroup. */
  lemma RetireKeeps(b: Box, next: nat, l: nat, populated: Option<bool>, again: Option<bool>, unlinkOk: bool,
                    tempOk: bool)
    requires BoxInv(b, next) && l in b.leases && Retires(b.slot, populated, again, unlinkOk)
    ensures BoxInv(LeaseDropStep(b, l, populated, again, unlinkOk, tempOk), next)
  {
    var g := b.leases[l];
    var d := b.(leases := b.leases - {l},
                slot := LaunchFinished(b.slot, populated, again, unlinkOk, tempOk),
                gens := if tempOk then DropTemp(DropCgroup(b.gens, g), g) else DropCgroup(b.gens, g));
    assert l in LeasesOf(b, g);
    assert LeasesOf(d, g) == LeasesOf(b, g) - {l};
    assert |LeasesOf(d, g)| == 0;
    assert d.leases == map[];
    NotifyKeeps(d, next);
  }

  lemma LeaseDropKeeps(b: Box, next: nat, accepting: bool, e: BoxEvent)
    requires BoxInv(b, next)
    requires e.LeaseDrop? && Enabled(b, next, accepting, e)
    ensures BoxInv(Apply(b, next, accepting, e), next)
  {
    if Retires(b.slot, e.populated, e.again, e.unlinkOk) {
      RetireKeeps(b, next, e.lease, e.populated, e.again, e.unlinkOk, e.tempOk);
    } else {
      var g := b.leases[e.lease];
      var d := b.(leases := b.leases - {e.lease},
                  slot := LaunchFinished(b.slot, e.populated, e.again, e.unlinkOk, e.tempOk));
      assert e.lease in LeasesOf(b, g);
      assert LeasesOf(d, g) == LeasesOf(b, g) - {e.lease};
      NotifyKeeps(d, next);
    }
  }

  /** The release call moves between points at which it holds nothing. */
  lemma ReleaseMoves(b: Box, next: nat, r: Release)
    requires BoxInv(b, next)
    requires !MarksByRelease(b.release) && !b.release.TearingDown?
    requires r.Idle? || r.Examining? || r.Returned?
             || (r.AwaitingCreator? && b.slot == Some(Creating))
             || (r.AwaitingBarrier? && b.slot.Some? && b.slot.value.Deleting? && b.slot.value.inFlight > 0)
    ensures BoxInv(b.(release := r), next)
  {
    var c := b.(release := r);
    assert forall g :: LeasesOf(c, g) == LeasesOf(b, g);
  }

  lemma CondemnKeeps(b: Box, next: nat)
    requires BoxInv(b, next)
    ensures BoxInv(b.(slot := if b.slot.Some? then Some(Condemn(b.slot.value)) else None), next)
  {
    var c := b.(slot := if b.slot.Some? then Some(Condemn(b.slot.value)) else None);
    assert forall g :: LeasesOf(c, g) == LeasesOf(b, g);
  }

  lemma TakeOverKeeps(b: Box, next: nat)
    requires BoxInv(b, next) && b.release.Examining? && ReleasePhase(b.slot) == TakeOver
    ensures BoxInv(ExamineStep(b, true), next)
  {
    var c := ExamineStep(b, true);
    assert forall g :: LeasesOf(c, g) == LeasesOf(b, g);
  }

  lemma PendingTakenKeeps(b: Box, next: nat)
    requires BoxInv(b, next) && b.release.Examining? && ReleasePhase(b.slot) == FinishPendingCleanup
    ensures BoxInv(ExamineStep(b, true), next)
  {
    var c := ExamineStep(b, true);
    assert forall g :: LeasesOf(c, g) == LeasesOf(b, g);
  }

  lemma MarkDeletingKeeps(b: Box, next: nat, killOk: bool)
    requires BoxInv(b, next) && b.release.Examining? && ReleasePhase(b.slot) == MarkDeleting
    ensures BoxInv(ExamineStep(b, killOk), next)
  {
    var c := b.(release := if killOk then Examining else Returned(false));
    ReleaseMoves(b, next, c.release);
    CondemnKeeps(c, next);
    NotifyKeeps(c.(slot := AfterPhase(b.slot, killOk)), next);
  }

  lemma ExamineKeeps(b: Box, next: nat, killOk: bool)
    requires BoxInv(b, next) && b.release.Examining?
    ensures BoxInv(ExamineStep(b, killOk), next)
  {
    match ReleasePhase(b.slot) {
      case Absent => ReleaseMoves(b, next, Returned(true));
      case AwaitCreating => ReleaseMoves(b, next, AwaitingCreator(false));
      case AwaitBarrier => ReleaseMoves(b, next, AwaitingBarrier(false));
      case MarkDeleting => MarkDeletingKeeps(b, next, killOk);
      case TakeOver => TakeOverKeeps(b, next);
      case FinishPendingCleanup => PendingTakenKeeps(b, next);
    }
  }

  lemma RemovePendingKeeps(b: Box, next: nat, accepting: bool, ok: bool)
    requires BoxInv(b, next)
    requires Enabled(b, next, accepting, ReleaseRemovePending(ok))
    ensures BoxInv(Apply(b, next, accepting, ReleaseRemovePending(ok)), next)
  {
    var c := Apply(b, next, accepting, ReleaseRemovePending(ok));
    assert forall g :: LeasesOf(c, g) == LeasesOf(b, g);
  }

  lemma AfterPendingKeeps(b: Box, next: nat, accepting: bool)
    requires BoxInv(b, next)
    requires Enabled(b, next, accepting, ReleaseAfterPending)
    ensures BoxInv(Apply(b, next, accepting, ReleaseAfterPending), next)
  {
    var CleanedPending(stale, ok) := b.release;
    var c := b.(slot := AfterPendingCleanup(b.slot, stale, ok), owner := None, release := Returned(ok));
    assert forall g :: LeasesOf(c, g) == LeasesOf(b, g);
    NotifyKeeps(c, next);
  }

  /** A generation nobody counts has no live lease. */
  lemma DrainedBarrier(b: Box)
    requires SlotSound(b) && LeasesPinned(b) && Holds(b.slot) && b.slot.value.inFlight == 0
    ensures b.leases == map[]
  {
    assert b.leases.Keys == LeasesOf(b, b.slot.value.generation);
  }

  /** The deleter advances without touching anything. */
  lemma StageMoves(b: Box, next: nat, stage: Stage)
    requires BoxInv(b, next)
    requires b.release.TearingDown? && !b.release.stage.Finish?
    requires match stage
             case Kill => false
             case AwaitEmpty => b.release.domain.Some?
             case CheckEmpty => b.release.domain.Some? && b.gens[b.slot.value.generation].members == 0
             case Unlink => b.release.domain.Some? && b.gens[b.slot.value.generation].members == 0
             case RemoveTemp => b.release.domain.None?
             case Finish(ok) => !ok
    ensures BoxInv(b.(release := b.release.(stage := stage)), next)
  {
    var c := b.(release := b.release.(stage := stage));
    assert forall g :: LeasesOf(c, g) == LeasesOf(b, g);
  }

  lemma UnlinkKeeps(b: Box, next: nat)
    requires BoxInv(b, next)
    requires b.release.TearingDown? && b.release.stage.Unlink?
    ensures BoxInv(b.(gens := DropCgroup(b.gens, b.release.domain.value),
                      release := b.release.(stage := RemoveTemp, domain := None)), next)
  {
    var c := b.(gens := DropCgroup(b.gens, b.release.domain.value),
                release := b.release.(stage := RemoveTemp, domain := None));
    assert forall g :: LeasesOf(c, g) == LeasesOf(b, g);
  }

  lemma TempRemovalKeeps(b: Box, next: nat)
    requires BoxInv(b, next)
    requires b.release.TearingDown? && b.release.stage.RemoveTemp?
    ensures BoxInv(b.(gens := DropTemp(b.gens, b.release.temp.value),
                      release := b.release.(stage := Finish(true))), next)
  {
    var c := b.(gens := DropTemp(b.gens, b.release.temp.value), release := b.release.(stage := Finish(true)));
    assert forall g :: LeasesOf(c, g) == LeasesOf(b, g);
  }

  lemma TeardownFinishKeeps(b: Box, next: nat)
    requires BoxInv(b, next) && b.release.TearingDown? && b.release.stage.Finish?
    ensures BoxInv(TeardownStep(b, TeardownFinish), next)
  {
    var r := b.release;
    var ok := r.stage.ok;
    var c := b.(slot := AfterTeardown(b.slot, ok, r.domain, r.temp, r.identity, r.userns), owner := None,
        release := Returned(ok));
    assert forall g :: LeasesOf(c, g) == LeasesOf(b, g);
    DrainedBarrier(b);
    NotifyKeeps(c, next);
  }

  /** Another sandbox may allocate a generation number. */
  lemma LaterKeeps(b: Box, next: nat, later: nat)
    requires BoxInv(b, next) && next <= later
    ensures BoxInv(b, later)
  {
  }

  /** Allocation is the one step that consumes a generation number. */
  function NextAfter(next: nat, e: BoxEvent): nat {
    if e.LaunchAllocate? && e.scopeOk then next + 1 else next
  }

  lemma LaunchStepKeeps(b: Box, next: nat, accepting: bool, e: BoxEvent)
    requires BoxInv(b, next) && LaunchSide(e) && Enabled(b, next, accepting, e)
    requires e.LaunchBegin? || e.LaunchEnter? || e.LaunchWake? || e.LaunchTimeout? || e.LaunchRemoveStale?
    ensures BoxInv(Apply(b, next, accepting, e), next)
  {
    match e {
      case LaunchBegin(t, identity) => BystanderMoves(b, next, t, Entering(identity));
      case LaunchEnter(t, dupOk, l) => EnterKeeps(b, next, accepting, t, dupOk, l);
      case LaunchWake(t) => BystanderMoves(b, next, t, Entering(b.launches[t].identity));
      case LaunchTimeout(t) => BystanderStops(b, next, t);
      case LaunchRemoveStale(t, ok) => RemoveStaleKeeps(b, next, accepting, t, ok);
    }
  }

  lemma CreatorStepKeeps(b: Box, next: nat, accepting: bool, e: BoxEvent)
    requires BoxInv(b, next) && LaunchSide(e) && Enabled(b, next, accepting, e)
    requires e.LaunchAfterStale? || e.LaunchAllocate? || e.LaunchBuild? || e.LaunchPublish? || e.LaunchAbort?
    ensures BoxInv(Apply(b, next, accepting, e), NextAfter(next, e))
  {
    match e {
      case LaunchAfterStale(t) => AfterStaleKeeps(b, next, accepting, t);
      case LaunchAllocate(t, scopeOk) => AllocateKeeps(b, next, accepting, t, scopeOk);
      case LaunchBuild(t, ok, cgroupLeft, tempLeft) => BuildKeeps(b, next, accepting, t, ok, cgroupLeft, tempLeft);
      case LaunchPublish(t, dupOk, l) => PublishKeeps(b, next, accepting, t, dupOk, l);
      case LaunchAbort(t) => AbortKeeps(b, next, accepting, t);
    }
  }

  lemma UnlinkStepKeeps(b: Box, next: nat, ok: bool)
    requires BoxInv(b, next) && b.release.TearingDown? && b.release.stage.Unlink?
    ensures BoxInv(TeardownStep(b, TeardownUnlink(ok)), next)
  {
    if ok {
      UnlinkKeeps(b, next);
    } else {
      StageMoves(b, next, Finish(false));
    }
  }

  lemma TempStepKeeps(b: Box, next: nat, ok: bool)
    requires BoxInv(b, next) && b.release.TearingDown? && b.release.stage.RemoveTemp?
    ensures BoxInv(TeardownStep(b, TeardownTemp(ok)), next)
  {
    if ok {
      TempRemovalKeeps(b, next);
    } else {
      StageMoves(b, next, Finish(false));
    }
  }

  lemma TeardownStepKeeps(b: Box, next: nat, e: BoxEvent)
    requires BoxInv(b, next) && TeardownSide(e) && TeardownEnabled(b, e)
    ensures BoxInv(TeardownStep(b, e), next)
  {
    if e.TeardownUnlink? {
      UnlinkStepKeeps(b, next, e.ok);
    } else if e.TeardownTemp? {
      TempStepKeeps(b, next, e.ok);
    } else if e.TeardownFinish? {
      TeardownFinishKeeps(b, next);
    } else if e.TeardownKill? {
      KillStageKeeps(b, next, e.ok);
    } else if e.TeardownAwait? {
      AwaitStageKeeps(b, next, e.empty);
    } else {
      CheckStageKeeps(b, next, e.populated);
    }
  }

  lemma KillStageKeeps(b: Box, next: nat, ok: bool)
    requires BoxInv(b, next) && b.release.TearingDown? && b.release.stage.Kill?
    ensures BoxInv(TeardownStep(b, TeardownKill(ok)), next)
  {
    var stage := if b.release.domain.None? then RemoveTemp else if ok then AwaitEmpty else Finish(false);
    assert TeardownStep(b, TeardownKill(ok)) == b.(release := b.release.(stage := stage));
    StageMoves(b, next, stage);
  }

  lemma AwaitStageKeeps(b: Box, next: nat, empty: bool)
    requires BoxInv(b, next) && b.release.TearingDown? && b.release.stage.AwaitEmpty?
    requires TeardownEnabled(b, TeardownAwait(empty))
    ensures BoxInv(TeardownStep(b, TeardownAwait(empty)), next)
  {
    var stage := if empty then CheckEmpty else Finish(false);
    assert TeardownStep(b, TeardownAwait(empty)) == b.(release := b.release.(stage := stage));
    StageMoves(b, next, stage);
  }

  lemma CheckStageKeeps(b: Box, next: nat, populated: Option<bool>)
    requires BoxInv(b, next) && b.release.TearingDown? && b.release.stage.CheckEmpty?
    ensures BoxInv(TeardownStep(b, TeardownCheck(populated)), next)
  {
    var stage := if populated == Some(false) then Unlink else Finish(false);
    assert TeardownStep(b, TeardownCheck(populated)) == b.(release := b.release.(stage := stage));
    StageMoves(b, next, stage);
  }

  lemma KernelStepKeeps(b: Box, next: nat, accepting: bool, e: BoxEvent)
    requires BoxInv(b, next) && (e.Spawn? || e.Fork? || e.Exit?) && Enabled(b, next, accepting, e)
    ensures BoxInv(Apply(b, next, accepting, e), next)
  {
    var g := if e.Spawn? then b.leases[e.lease] else e.g;
    var members := if e.Exit? then b.gens[g].members - 1 else b.gens[g].members + 1;
    assert Apply(b, next, accepting, e) == b.(gens := b.gens[g := b.gens[g].(members := members)]);
    if e.Spawn? {
      assert e.lease in LeasesOf(b, g);
    }
    MembersKeep(b, next, g, members);
  }

  lemma ReleaseStepKeeps(b: Box, next: nat, accepting: bool, e: BoxEvent)
    requires BoxInv(b, next) && !LaunchSide(e) && !TeardownSide(e) && !KernelSide(e) && Enabled(b, next, accepting, e)
    ensures BoxInv(Apply(b, next, accepting, e), next)
  {
    match e {
      case ReleaseBegin => ReleaseMoves(b, next, Examining);
      case ReleaseExamine(killOk) => ExamineKeeps(b, next, killOk);
      case ReleaseWake => ReleaseMoves(b, next, Examining);
      case ReleaseTimeout => ReleaseMoves(b, next, Returned(false));
      case ReleaseRemovePending(ok) => RemovePendingKeeps(b, next, accepting, ok);
      case ReleaseAfterPending => AfterPendingKeeps(b, next, accepting);
      case ReleaseReturn => ReleaseMoves(b, next, Idle);
      case MarkForShutdown => CondemnKeeps(b, next);
    }
  }

  /** Every step of every activity keeps the invariant. */
  lemma StepKeeps(b: Box, next: nat, accepting: bool, e: BoxEvent)
    requires BoxInv(b, next) && Enabled(b, next, accepting, e)
    ensures BoxInv(Apply(b, next, accepting, e), NextAfter(next, e))
  {
    if e.LaunchBegin? || e.LaunchEnter? || e.LaunchWake? || e.LaunchTimeout? || e.LaunchRemoveStale? {
      LaunchStepKeeps(b, next, accepting, e);
    } else if LaunchSide(e) {
      CreatorStepKeeps(b, next, accepting, e);
    } else if TeardownSide(e) {
      TeardownStepKeeps(b, next, e);
    } else if e.LeaseDrop? {
      LeaseDropKeeps(b, next, accepting, e);
    } else if KernelSide(e) {
      KernelStepKeeps(b, next, accepting, e);
    } else {
      ReleaseStepKeeps(b, next, accepting, e);
    }
  }
}
