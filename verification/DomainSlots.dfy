/**
 The runtime-domain slot of one sandbox and the decisions taken about it while the
 registry lock is held (crates/shbox/src/platform/linux.rs).

 Every function below is one lock-held section seen from one sandbox: it maps the slot
 found under the lock to the slot left behind. `DomainRegistry` performs the same
 sections on the shared map, and `DomainMachine` interleaves them.

 Handles are generation numbers: `domain` names the cgroup and `runtimeTemp` the
 temporary tree that were built for that generation.
 */
module DomainSlots {
  import opened Options

  datatype Identity = Identity(runtimeUid: nat, runtimeGid: nat, hostUid: nat, hostGid: nat)

  datatype DomainSlot =
    | Creating
    | Active(generation: nat, inFlight: nat, domain: nat, runtimeTemp: nat,
             identity: Option<Identity>, userns: bool)
    | Deleting(generation: nat, inFlight: nat, domainLeft: Option<nat>, tempLeft: Option<nat>,
               identity: Option<Identity>, userns: bool)
    | CleanupPending(stale: nat)

  function SaturatingPred(n: nat): nat {
    if n == 0 then 0 else n - 1
  }

  /** `Cgroup::remove_empty` on a handle not yet removed: it refuses unless membership
      reads as empty (an unreadable state counts as populated), then unlinks. */
  predicate RemoveEmpty(populated: Option<bool>, unlinkOk: bool) {
    populated == Some(false) && unlinkOk
  }

  // ---- launch_finished -------------------------------------------------------------

  /** The cgroup is removed by this drop of a lease. */
  predicate Retires(slot: Option<DomainSlot>, populated: Option<bool>, again: Option<bool>, unlinkOk: bool) {
    && slot.Some? && slot.value.Active?
    && SaturatingPred(slot.value.inFlight) == 0
    && populated == Some(false)
    && RemoveEmpty(again, unlinkOk)
  }

  function LaunchFinished(slot: Option<DomainSlot>, populated: Option<bool>, again: Option<bool>,
                          unlinkOk: bool, tempOk: bool): Option<DomainSlot>
  {
    match slot
    case Some(Active(g, n, d, t, i, u)) =>
      if Retires(slot, populated, again, unlinkOk) then
        if tempOk then None else Some(CleanupPending(t))
      else
        Some(Active(g, SaturatingPred(n), d, t, i, u))
    case Some(Deleting(g, n, d, t, i, u)) => Some(Deleting(g, SaturatingPred(n), d, t, i, u))
    case _ => slot
  }

  // ---- process_domain --------------------------------------------------------------

  datatype Join =
    | Rejected
    | StartCreating
    | WaitCreating
    | Joined(domain: nat, runtimeTemp: nat)
    | CleanPending(stale: nat)

  /** One iteration of the launch loop. `dupOk` is the outcome of duplicating the mount
      ID-map namespace descriptor, attempted only when the generation has one. */
  function JoinDecision(slot: Option<DomainSlot>, identity: Option<Identity>, accepting: bool, dupOk: bool): Join {
    if !accepting then Rejected else
    match slot
    case None => StartCreating
    case Some(Creating) => WaitCreating
    case Some(Active(_, _, d, t, current, userns)) =>
      if current != identity then Rejected
      else if current.None? && !userns then Joined(d, t)
      else if current.Some? && userns && dupOk then Joined(d, t)
      else Rejected
    case Some(Deleting(_, _, _, _, _, _)) => Rejected
    case Some(CleanupPending(t)) => CleanPending(t)
  }

  function AfterJoin(slot: Option<DomainSlot>, join: Join): Option<DomainSlot> {
    match join
    case StartCreating => Some(Creating)
    case CleanPending(_) => Some(Creating)
    case Joined(_, _) => (
      match slot
      case Some(Active(g, n, d, t, i, u)) => Some(Active(g, n + 1, d, t, i, u))
      case _ => slot)
    case _ => slot
  }

  /** A creator publishes only over its own marker or over nothing. */
  predicate MayPublish(slot: Option<DomainSlot>) {
    slot.None? || slot.value.Creating?
  }

  function Publish(slot: Option<DomainSlot>, generation: nat, domain: nat, runtimeTemp: nat,
                   identity: Option<Identity>, userns: bool): Option<DomainSlot>
  {
    if MayPublish(slot) then Some(Active(generation, 1, domain, runtimeTemp, identity, userns)) else slot
  }

  /** A failed creator retracts the marker. */
  function Retract(slot: Option<DomainSlot>): Option<DomainSlot> {
    if slot == Some(Creating) then None else slot
  }

  // ---- release_sandbox_resources ---------------------------------------------------

  datatype Phase = Absent | AwaitCreating | AwaitBarrier | TakeOver | MarkDeleting | FinishPendingCleanup

  function ReleasePhase(slot: Option<DomainSlot>): Phase {
    match slot
    case None => Absent
    case Some(Creating) => AwaitCreating
    case Some(Deleting(_, n, _, _, _, _)) => if n == 0 then TakeOver else AwaitBarrier
    case Some(Active(_, _, _, _, _, _)) => MarkDeleting
    case Some(CleanupPending(_)) => FinishPendingCleanup
  }

  /** Active becomes Deleting, keeping every handle; other slots are left alone. Shutdown
      and forced shutdown apply it to every slot whatever `kill_all` said. */
  function Condemn(slot: DomainSlot): DomainSlot {
    match slot
    case Active(g, n, d, t, i, u) => Deleting(g, n, Some(d), Some(t), i, u)
    case _ => slot
  }

  /** What one pass of the release loop leaves in the slot. */
  function AfterPhase(slot: Option<DomainSlot>, killOk: bool): Option<DomainSlot> {
    match ReleasePhase(slot)
    case MarkDeleting => if killOk then Some(Condemn(slot.value)) else slot
    case TakeOver => Some(slot.value.(domainLeft := None, tempLeft := None, userns := false))
    case FinishPendingCleanup => Some(Creating)
    case _ => slot
  }

  /** The deleter that took a pending temp tree reports back, if its marker still stands. */
  function AfterPendingCleanup(slot: Option<DomainSlot>, runtimeTemp: nat, removed: bool): Option<DomainSlot> {
    if slot != Some(Creating) then slot
    else if removed then None else Some(CleanupPending(runtimeTemp))
  }

  /** The generation a failed teardown restores; 0 is the source's fallback for a slot
      that is not Deleting any more. */
  function RestoredGeneration(slot: Option<DomainSlot>): nat {
    if slot.Some? && slot.value.Deleting? then slot.value.generation else 0
  }

  function AfterTeardown(slot: Option<DomainSlot>, ok: bool, domain: Option<nat>, runtimeTemp: Option<nat>,
                         identity: Option<Identity>, userns: bool): Option<DomainSlot>
  {
    if ok then None
    else Some(Deleting(RestoredGeneration(slot), 0, domain, runtimeTemp, identity, userns))
  }
}
