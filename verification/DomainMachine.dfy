/**
 The process-domain registry as a state machine (crates/shbox/src/platform/linux.rs).

 A `Box` is everything that concerns one sandbox: its slot, the launches in progress, the
 live leases, the generations ever built for it and the release call in progress (the
 callers of `release_sandbox_resources` are assumed to run one call per sandbox at a
 time). Each lock-held section is one step; work done outside the lock is cut into its
 own steps; the kernel forks, exits and fails at will between them.

 Two fields are auxiliary: `owner` remembers who put the `Creating` marker, `leaked`
 counts launches that were counted in but returned an error before a lease existed. No
 step reads either of them.
 */
module DomainMachine {
  import opened Options
  import opened DomainSlots

  datatype Generation = Generation(identity: Option<Identity>, published: bool, cgroup: bool, members: nat,
                                   temp: bool, leaked: nat)

  datatype Launch =
    | Entering(identity: Option<Identity>)
    | Waiting(identity: Option<Identity>, notified: bool)
    | Cleaning(identity: Option<Identity>, stale: nat)
    | Cleaned(identity: Option<Identity>, stale: nat, removed: bool)
    | Allocating(identity: Option<Identity>)
    | Building(identity: Option<Identity>, generation: nat)
    | Publishing(identity: Option<Identity>, generation: nat)
    | Aborting

  datatype Stage = Kill | AwaitEmpty | CheckEmpty | Unlink | RemoveTemp | Finish(ok: bool)

  datatype Release =
    | Idle
    | Examining
    | AwaitingCreator(notified: bool)
    | AwaitingBarrier(notified: bool)
    | CleaningPending(stale: nat)
    | CleanedPending(stale: nat, removed: bool)
    | TearingDown(stage: Stage, domain: Option<nat>, temp: Option<nat>, identity: Option<Identity>, userns: bool)
    | Returned(ok: bool)

  datatype Owner = ByLaunch(launch: nat) | ByRelease

  datatype Box = Box(slot: Option<DomainSlot>, owner: Option<Owner>, launches: map<nat, Launch>,
                     leases: map<nat, nat>, gens: map<nat, Generation>, release: Release)

  const EmptyBox := Box(None, None, map[], map[], map[], Idle)

  datatype BoxEvent =
    | LaunchBegin(t: nat, identity: Option<Identity>)
    | LaunchEnter(t: nat, dupOk: bool, lease: nat)
    | LaunchWake(t: nat)
    | LaunchTimeout(t: nat)
    | LaunchRemoveStale(t: nat, ok: bool)
    | LaunchAfterStale(t: nat)
    | LaunchAllocate(t: nat, scopeOk: bool)
    | LaunchBuild(t: nat, ok: bool, cgroupLeft: bool, tempLeft: bool)
    | LaunchPublish(t: nat, dupOk: bool, lease: nat)
    | LaunchAbort(t: nat)
    | Spawn(lease: nat)
    | Fork(g: nat)
    | Exit(g: nat)
    | LeaseDrop(lease: nat, populated: Option<bool>, again: Option<bool>, unlinkOk: bool, tempOk: bool)
    | ReleaseBegin
    | ReleaseExamine(killOk: bool)
    | ReleaseWake
    | ReleaseTimeout
    | ReleaseRemovePending(ok: bool)
    | ReleaseAfterPending
    | TeardownKill(ok: bool)
    | TeardownAwait(empty: bool)
    | TeardownCheck(populated: Option<bool>)
    | TeardownUnlink(ok: bool)
    | TeardownTemp(ok: bool)
    | TeardownFinish
    | ReleaseReturn
    | MarkForShutdown

  // ---- steps -----------------------------------------------------------------------

  /** `Condvar::notify_all`: every sleeper of this sandbox becomes runnable. */
  function Notify(b: Box): Box {
    b.(launches := map t | t in b.launches ::
         (if b.launches[t].Waiting? then b.launches[t].(notified := true) else b.launches[t]),
       release := if b.release.AwaitingCreator? || b.release.AwaitingBarrier?
                  then b.release.(notified := true) else b.release)
  }

  /** A readable membership state tells the truth about the cgroup. */
  predicate TrueReading(reading: Option<bool>, members: nat) {
    reading.Some? ==> reading.value == (members > 0)
  }

  /** The generation a slot holds. */
  predicate Holds(slot: Option<DomainSlot>) {
    slot.Some? && (slot.value.Active? || slot.value.Deleting?)
  }

  predicate LaunchSide(e: BoxEvent) {
    || e.LaunchBegin? || e.LaunchEnter? || e.LaunchWake? || e.LaunchTimeout? || e.LaunchRemoveStale?
    || e.LaunchAfterStale? || e.LaunchAllocate? || e.LaunchBuild? || e.LaunchPublish? || e.LaunchAbort?
  }

  predicate TeardownSide(e: BoxEvent) {
    e.TeardownKill? || e.TeardownAwait? || e.TeardownCheck? || e.TeardownUnlink? || e.TeardownTemp? || e.TeardownFinish?
  }

  predicate KernelSide(e: BoxEvent) {
    e.Spawn? || e.Fork? || e.Exit? || e.LeaseDrop?
  }

  predicate Enabled(b: Box, nextGeneration: nat, accepting: bool, e: BoxEvent) {
    if LaunchSide(e) then LaunchEnabled(b, e)
    else if TeardownSide(e) then TeardownEnabled(b, e)
    else if KernelSide(e) then KernelEnabled(b, e)
    else ReleaseEnabled(b, e)
  }

  predicate LaunchEnabled(b: Box, e: BoxEvent)
    requires LaunchSide(e)
  {
    if e.LaunchBegin? then e.t !in b.launches else
    && e.t in b.launches
    && match e
       case LaunchEnter(t, _, l) => b.launches[t].Entering? && l !in b.leases
       case LaunchWake(t) => b.launches[t].Waiting?
       case LaunchTimeout(t) => b.launches[t].Waiting? && b.slot == Some(Creating)
       case LaunchRemoveStale(t, _) => b.launches[t].Cleaning?
       case LaunchAfterStale(t) => b.launches[t].Cleaned?
       case LaunchAllocate(t, _) => b.launches[t].Allocating?
       case LaunchBuild(t, _, _, _) => b.launches[t].Building?
       case LaunchPublish(t, _, l) => b.launches[t].Publishing? && l !in b.leases
       case LaunchAbort(t) => b.launches[t].Aborting?
  }

  predicate KernelEnabled(b: Box, e: BoxEvent)
    requires KernelSide(e)
  {
    match e
    case Spawn(l) => l in b.leases && b.leases[l] in b.gens && b.gens[b.leases[l]].cgroup
    case Fork(g) => g in b.gens && b.gens[g].members > 0
    case Exit(g) => g in b.gens && b.gens[g].members > 0
    case LeaseDrop(l, populated, again, _, _) =>
      l in b.leases &&
      (b.slot.Some? && b.slot.value.Active? && b.slot.value.domain in b.gens ==>
         && TrueReading(populated, b.gens[b.slot.value.domain].members)
         && TrueReading(again, b.gens[b.slot.value.domain].members))
  }

  predicate TeardownEnabled(b: Box, e: BoxEvent)
    requires TeardownSide(e)
  {
    && b.release.TearingDown?
    && match e
       case TeardownKill(_) => b.release.stage.Kill?
       case TeardownAwait(empty) =>
         && b.release.stage.AwaitEmpty?
         && (empty && b.release.domain.Some? && b.release.domain.value in b.gens
             ==> b.gens[b.release.domain.value].members == 0)
       case TeardownCheck(populated) =>
         && b.release.stage.CheckEmpty?
         && (b.release.domain.Some? && b.release.domain.value in b.gens
             ==> TrueReading(populated, b.gens[b.release.domain.value].members))
       case TeardownUnlink(_) => b.release.stage.Unlink?
       case TeardownTemp(_) => b.release.stage.RemoveTemp?
       case TeardownFinish => b.release.stage.Finish?
  }

  predicate ReleaseEnabled(b: Box, e: BoxEvent)
    requires !LaunchSide(e) && !TeardownSide(e) && !KernelSide(e)
  {
    match e
    case ReleaseBegin => b.release.Idle?
    case ReleaseExamine(_) => b.release.Examining?
    case ReleaseWake => b.release.AwaitingCreator? || b.release.AwaitingBarrier?
    case ReleaseTimeout =>
      || (b.release.AwaitingCreator? && b.slot == Some(Creating))
      || (b.release.AwaitingBarrier? && b.slot.Some? && b.slot.value.Deleting? && b.slot.value.inFlight > 0)
    case ReleaseRemovePending(_) => b.release.CleaningPending?
    case ReleaseAfterPending => b.release.CleanedPending?
    case ReleaseReturn => b.release.Returned?
    case MarkForShutdown => true
  }

  function DropCgroup(gens: map<nat, Generation>, g: nat): map<nat, Generation> {
    if g in gens then gens[g := gens[g].(cgroup := false)] else gens
  }

  function DropTemp(gens: map<nat, Generation>, g: nat): map<nat, Generation> {
    if g in gens then gens[g := gens[g].(temp := false)] else gens
  }

  /** The auxiliary owner follows the marker. */
  function OwnerAfter(slot: Option<DomainSlot>, owner: Option<Owner>): Option<Owner> {
    if slot == Some(Creating) then owner else None
  }

  function EnterStep(b: Box, accepting: bool, t: nat, dupOk: bool, l: nat): Box
    requires t in b.launches && b.launches[t].Entering?
  {
    var identity := b.launches[t].identity;
    var join := JoinDecision(b.slot, identity, accepting, dupOk);
    var b' := b.(slot := AfterJoin(b.slot, join));
    match join
    case Rejected => b'.(launches := b.launches - {t})
    case StartCreating => b'.(owner := Some(ByLaunch(t)), launches := b.launches[t := Allocating(identity)])
    case WaitCreating => b'.(launches := b.launches[t := Waiting(identity, false)])
    case Joined(domain, _) => b'.(launches := b.launches - {t}, leases := b.leases[l := domain])
    case CleanPending(stale) => b'.(owner := Some(ByLaunch(t)), launches := b.launches[t := Cleaning(identity, stale)])
  }

  function AfterStaleStep(b: Box, t: nat): Box
    requires t in b.launches && b.launches[t].Cleaned?
  {
    var pc := b.launches[t];
    if !pc.removed then
      Notify(b.(slot := Some(CleanupPending(pc.stale)), owner := None, launches := b.launches - {t}))
    else if b.slot == Some(Creating) then
      b.(launches := b.launches[t := Allocating(pc.identity)])
    else
      b.(launches := b.launches[t := Entering(pc.identity)])
  }

  /** Publishing counts this launch in; the lease exists only once the namespace
      descriptor (if any) has been duplicated. */
  function PublishStep(b: Box, t: nat, dupOk: bool, l: nat): Box
    requires t in b.launches && b.launches[t].Publishing?
  {
    var Publishing(identity, g) := b.launches[t];
    var b' := b.(launches := b.launches - {t});
    if !MayPublish(b.slot) then b'
    else
      var counted := identity.None? || dupOk;
      var gens := if g in b.gens
        then b.gens[g := b.gens[g].(published := true, leaked := b.gens[g].leaked + if counted then 0 else 1)]
        else b.gens;
      Notify(b'.(slot := Publish(b.slot, g, g, g, identity, identity.Some?), owner := None, gens := gens,
                 leases := if counted then b.leases[l := g] else b.leases))
  }

  function LeaseDropStep(b: Box, l: nat, populated: Option<bool>, again: Option<bool>, unlinkOk: bool,
                         tempOk: bool): Box {
    var retires := Retires(b.slot, populated, again, unlinkOk);
    var gone := if retires then DropCgroup(b.gens, b.slot.value.domain) else b.gens;
    var gens := if retires && tempOk then DropTemp(gone, b.slot.value.runtimeTemp) else gone;
    Notify(b.(slot := LaunchFinished(b.slot, populated, again, unlinkOk, tempOk), gens := gens,
        leases := b.leases - {l}))
  }

  function ExamineStep(b: Box, killOk: bool): Box {
    var b' := b.(slot := AfterPhase(b.slot, killOk));
    match ReleasePhase(b.slot)
    case Absent => b'.(release := Returned(true))
    case AwaitCreating => b'.(release := AwaitingCreator(false))
    case AwaitBarrier => b'.(release := AwaitingBarrier(false))
    case MarkDeleting => Notify(b'.(release := if killOk then Examining else Returned(false)))
    case TakeOver =>
      var s := b.slot.value;
      b'.(release := TearingDown(Kill, s.domainLeft, s.tempLeft, s.identity, s.userns))
    case FinishPendingCleanup =>
      b'.(owner := Some(ByRelease), release := CleaningPending(b.slot.value.stale))
  }

  function TeardownStep(b: Box, e: BoxEvent): Box
    requires b.release.TearingDown?
  {
    var r := b.release;
    match e
    case TeardownKill(ok) =>
      b.(release := r.(stage := if r.domain.None? then RemoveTemp else if ok then AwaitEmpty else Finish(false)))
    case TeardownAwait(empty) => b.(release := r.(stage := if empty then CheckEmpty else Finish(false)))
    case TeardownCheck(populated) =>
      b.(release := r.(stage := if populated == Some(false) then Unlink else Finish(false)))
    case TeardownUnlink(ok) =>
      if ok && r.domain.Some?
      then b.(gens := DropCgroup(b.gens, r.domain.value), release := r.(stage := RemoveTemp, domain := None))
      else b.(release := r.(stage := Finish(false)))
    case TeardownTemp(ok) =>
      if r.temp.None? then b.(release := r.(stage := Finish(true)))
      else if ok then b.(gens := DropTemp(b.gens, r.temp.value), release := r.(stage := Finish(true)))
      else b.(release := r.(stage := Finish(false)))
    case TeardownFinish =>
      var ok := r.stage.Finish? && r.stage.ok;
      var slot := AfterTeardown(b.slot, ok, r.domain, r.temp, r.identity, r.userns);
      Notify(b.(slot := slot, owner := OwnerAfter(slot, b.owner), release := Returned(ok)))
    case _ => b
  }

  function LaunchStep(b: Box, nextGeneration: nat, accepting: bool, e: BoxEvent): Box
    requires LaunchSide(e) && LaunchEnabled(b, e)
  {
    match e
    case LaunchBegin(t, identity) => b.(launches := b.launches[t := Entering(identity)])
    case LaunchEnter(t, dupOk, l) => EnterStep(b, accepting, t, dupOk, l)
    case LaunchWake(t) => b.(launches := b.launches[t := Entering(b.launches[t].identity)])
    case LaunchTimeout(t) => b.(launches := b.launches - {t})
    case LaunchRemoveStale(t, ok) =>
      var Cleaning(identity, stale) := b.launches[t];
      b.(gens := if ok then DropTemp(b.gens, stale) else b.gens,
         launches := b.launches[t := Cleaned(identity, stale, ok)])
    case LaunchAfterStale(t) => AfterStaleStep(b, t)
    case LaunchAllocate(t, scopeOk) =>
      b.(launches := b.launches[t := if scopeOk then Building(b.launches[t].identity, nextGeneration) else Aborting])
    case LaunchBuild(t, ok, cgroupLeft, tempLeft) =>
      var Building(identity, g) := b.launches[t];
      if ok
      then b.(gens := b.gens[g := Generation(identity, false, true, 0, true, 0)],
              launches := b.launches[t := Publishing(identity, g)])
      else b.(gens := b.gens[g := Generation(identity, false, cgroupLeft, 0, tempLeft, 0)],
              launches := b.launches[t := Aborting])
    case LaunchPublish(t, dupOk, l) => PublishStep(b, t, dupOk, l)
    case LaunchAbort(t) =>
      var slot := Retract(b.slot);
      Notify(b.(slot := slot, owner := OwnerAfter(slot, b.owner), launches := b.launches - {t}))
  }

  function KernelStep(b: Box, e: BoxEvent): Box
    requires KernelSide(e) && KernelEnabled(b, e)
  {
    match e
    case Spawn(l) => b.(gens := b.gens[b.leases[l] := b.gens[b.leases[l]].(members := b.gens[b.leases[l]].members + 1)])
    case Fork(g) => b.(gens := b.gens[g := b.gens[g].(members := b.gens[g].members + 1)])
    case Exit(g) => b.(gens := b.gens[g := b.gens[g].(members := b.gens[g].members - 1)])
    case LeaseDrop(l, populated, again, unlinkOk, tempOk) => LeaseDropStep(b, l, populated, again, unlinkOk, tempOk)
  }

  function ReleaseStep(b: Box, e: BoxEvent): Box
    requires !LaunchSide(e) && !TeardownSide(e) && !KernelSide(e) && ReleaseEnabled(b, e)
  {
    match e
    case ReleaseBegin => b.(release := Examining)
    case ReleaseExamine(killOk) => ExamineStep(b, killOk)
    case ReleaseWake => b.(release := Examining)
    case ReleaseTimeout => b.(release := Returned(false))
    case ReleaseRemovePending(ok) =>
      var stale := b.release.stale;
      b.(gens := if ok then DropTemp(b.gens, stale) else b.gens, release := CleanedPending(stale, ok))
    case ReleaseAfterPending =>
      var CleanedPending(stale, ok) := b.release;
      var slot := AfterPendingCleanup(b.slot, stale, ok);
      Notify(b.(slot := slot, owner := OwnerAfter(slot, b.owner), release := Returned(ok)))
    case ReleaseReturn => b.(release := Idle)
    case MarkForShutdown => b.(slot := if b.slot.Some? then Some(Condemn(b.slot.value)) else None)
  }

  function Apply(b: Box, nextGeneration: nat, accepting: bool, e: BoxEvent): Box
    requires Enabled(b, nextGeneration, accepting, e)
  {
    if LaunchSide(e) then LaunchStep(b, nextGeneration, accepting, e)
    else if TeardownSide(e) then TeardownStep(b, e)
    else if KernelSide(e) then KernelStep(b, e)
    else ReleaseStep(b, e)
  }
}
