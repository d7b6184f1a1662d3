/**
 The whole registry: every sandbox, the generation counter, the `accepting` flag,
 shutdown and forced shutdown (crates/shbox/src/platform/linux.rs).
 */
module DomainSystem {
  import opened Options
  import opened DomainSlots
  import opened DomainMachine
  import opened DomainInvariant

  type SandboxId = string

  datatype Shutdown =
    | NotStarted
    | Marking
    | Notifying(ids: set<SandboxId>, failed: bool)
    | Releasing(rest: set<SandboxId>, current: Option<SandboxId>, failed: bool)
    | Done(ok: bool)

  datatype System = System(boxes: map<SandboxId, Box>, nextGeneration: nat, accepting: bool, shutdown: Shutdown)

  const Initial := System(map[], 1, true, NotStarted)

  datatype Event =
    | On(id: SandboxId, step: BoxEvent)
    | ShutdownStore
    | ShutdownMark(killFailed: bool)
    | ShutdownNotify
    | ShutdownNext(id: SandboxId)
    | ShutdownCollect
    | ShutdownDone
    | ForceStore
    | ForceMark

  function Lookup(s: System, id: SandboxId): Box {
    if id in s.boxes then s.boxes[id] else EmptyBox
  }

  /** The ids that have a slot: the keys of the source's map. */
  function SlotIds(s: System): set<SandboxId> {
    set id | id in s.boxes && s.boxes[id].slot.Some?
  }

  function CurrentRelease(s: System): Option<SandboxId> {
    if s.shutdown.Releasing? then s.shutdown.current else None
  }

  predicate Allowed(s: System, e: Event) {
    match e
    case On(id, step) =>
      && Enabled(Lookup(s, id), s.nextGeneration, s.accepting, step)
      && !step.MarkForShutdown?
      && (step.ReleaseReturn? ==> CurrentRelease(s) != Some(id))
    case ShutdownStore => s.shutdown.NotStarted?
    case ShutdownMark(_) => s.shutdown.Marking?
    case ShutdownNotify => s.shutdown.Notifying?
    case ShutdownNext(id) =>
      && s.shutdown.Releasing? && s.shutdown.current.None? && id in s.shutdown.rest
      && Lookup(s, id).release.Idle?
    case ShutdownCollect =>
      s.shutdown.Releasing? && s.shutdown.current.Some? && Lookup(s, s.shutdown.current.value).release.Returned?
    case ShutdownDone => s.shutdown.Releasing? && s.shutdown.current.None? && s.shutdown.rest == {}
    case ForceStore => true
    case ForceMark => !s.accepting
  }

  /** Shutdown marks every slot under the lock and notifies after dropping it; forced
      shutdown does both under the lock. */
  function Broadcast(b: Box, mark: bool, notify: bool): Box {
    var c := if mark then Apply(b, 0, false, MarkForShutdown) else b;
    if notify then Notify(c) else c
  }

  function BroadcastAll(boxes: map<SandboxId, Box>, mark: bool, notify: bool): map<SandboxId, Box> {
    map id | id in boxes :: Broadcast(boxes[id], mark, notify)
  }

  function Step(s: System, e: Event): System
    requires Allowed(s, e)
  {
    match e
    case On(id, step) =>
      s.(boxes := s.boxes[id := Apply(Lookup(s, id), s.nextGeneration, s.accepting, step)],
         nextGeneration := NextAfter(s.nextGeneration, step))
    case ShutdownStore => s.(accepting := false, shutdown := Marking)
    case ShutdownMark(killFailed) =>
      s.(boxes := BroadcastAll(s.boxes, true, false), shutdown := Notifying(SlotIds(s), killFailed))
    case ShutdownNotify =>
      s.(boxes := BroadcastAll(s.boxes, false, true),
         shutdown := Releasing(s.shutdown.ids, None, s.shutdown.failed))
    case ShutdownNext(id) =>
      s.(boxes := s.boxes[id := Apply(Lookup(s, id), s.nextGeneration, s.accepting, ReleaseBegin)],
         shutdown := Releasing(s.shutdown.rest - {id}, Some(id), s.shutdown.failed))
    case ShutdownCollect =>
      var id := s.shutdown.current.value;
      s.(boxes := s.boxes[id := Apply(Lookup(s, id), s.nextGeneration, s.accepting, ReleaseReturn)],
         shutdown := Releasing(s.shutdown.rest, None, s.shutdown.failed || !Lookup(s, id).release.ok))
    case ShutdownDone => s.(shutdown := Done(!s.shutdown.failed))
    case ForceStore => s.(accepting := false)
    case ForceMark => s.(boxes := BroadcastAll(s.boxes, true, true))
  }

  /** `es` is a run from `s` to `s'`. */
  ghost predicate Runs(s: System, es: seq<Event>, s': System)
    decreases |es|
  {
    if es == [] then s == s'
    else Allowed(s, es[0]) && Runs(Step(s, es[0]), es[1..], s')
  }

  // ---- invariant -------------------------------------------------------------------

  ghost predicate BoxesSound(s: System) {
    forall id :: id in s.boxes ==> BoxInv(s.boxes[id], s.nextGeneration)
  }

  /** What shutdown still has to visit covers every slot that is left. */
  ghost predicate ShutdownSound(s: System) {
    && (!s.shutdown.NotStarted? ==> !s.accepting)
    && match s.shutdown
       case NotStarted => true
       case Marking => true
       case Notifying(ids, _) => SlotIds(s) <= ids
       case Releasing(rest, current, failed) =>
         && (!failed ==> SlotIds(s) <= rest + (if current.Some? then {current.value} else {}))
         && (current.Some? && !failed && Lookup(s, current.value).release == Returned(true)
             ==> Lookup(s, current.value).slot.None?)
       case Done(ok) => ok ==> SlotIds(s) == {}
  }

  ghost predicate Inv(s: System) {
    BoxesSound(s) && ShutdownSound(s)
  }

  lemma LookupSound(s: System, id: SandboxId)
    requires BoxesSound(s)
    ensures BoxInv(Lookup(s, id), s.nextGeneration)
  {
    assert forall g :: LeasesOf(EmptyBox, g) == {};
  }

  /** Once launches are refused, no slot appears, and a release that returns Ok leaves none. */
  predicate NothingAppears(b: Box, c: Box) {
    && (b.slot.None? ==> c.slot.None?)
    && (c.release == Returned(true) && b.release != Returned(true) ==> c.slot.None?)
  }

  lemma LaunchAddsNone(b: Box, next: nat, e: BoxEvent)
    requires MarkerOwned(b) && LaunchSide(e) && LaunchEnabled(b, e)
    ensures NothingAppears(b, LaunchStep(b, next, false, e))
  {
  }

  lemma ReleaseAddsNone(b: Box, e: BoxEvent)
    requires MarkerOwned(b) && !LaunchSide(e) && !TeardownSide(e) && !KernelSide(e) && ReleaseEnabled(b, e)
    ensures NothingAppears(b, ReleaseStep(b, e))
  {
  }

  lemma NoNewSlot(b: Box, next: nat, e: BoxEvent)
    requires BoxInv(b, next) && Enabled(b, next, false, e)
    ensures NothingAppears(b, Apply(b, next, false, e))
  {
    if LaunchSide(e) {
      LaunchAddsNone(b, next, e);
    } else if !TeardownSide(e) && !KernelSide(e) {
      ReleaseAddsNone(b, e);
    }
  }

  lemma OnKeepsShutdown(s: System, e: Event)
    requires Inv(s) && e.On? && Allowed(s, e)
    ensures ShutdownSound(Step(s, e))
  {
    LookupSound(s, e.id);
    if !s.accepting {
      NoNewSlot(Lookup(s, e.id), s.nextGeneration, e.step);
      assert SlotIds(Step(s, e)) <= SlotIds(s) by {
        assert Lookup(s, e.id).slot.Some? ==> e.id in SlotIds(s);
      }
    }
  }

  lemma OnKeepsBoxes(s: System, e: Event)
    requires BoxesSound(s) && e.On? && Allowed(s, e)
    ensures BoxesSound(Step(s, e))
  {
    LookupSound(s, e.id);
    StepKeeps(Lookup(s, e.id), s.nextGeneration, s.accepting, e.step);
    forall id | id in s.boxes ensures BoxInv(s.boxes[id], NextAfter(s.nextGeneration, e.step)) {
      LaterKeeps(s.boxes[id], s.nextGeneration, NextAfter(s.nextGeneration, e.step));
    }
  }

  lemma BroadcastKeepsBox(b: Box, next: nat, mark: bool, notify: bool)
    requires BoxInv(b, next)
    ensures BoxInv(Broadcast(b, mark, notify), next)
    ensures Broadcast(b, mark, notify).slot.Some? <==> b.slot.Some?
  {
    CondemnKeeps(b, next);
    if notify {
      NotifyKeeps(if mark then Apply(b, 0, false, MarkForShutdown) else b, next);
    }
  }

  lemma BroadcastKeeps(s: System, mark: bool, notify: bool)
    requires BoxesSound(s)
    ensures var s' := s.(boxes := BroadcastAll(s.boxes, mark, notify)); BoxesSound(s') && SlotIds(s') == SlotIds(s)
  {
    forall id | id in s.boxes
      ensures BoxInv(Broadcast(s.boxes[id], mark, notify), s.nextGeneration)
      ensures Broadcast(s.boxes[id], mark, notify).slot.Some? <==> s.boxes[id].slot.Some?
    {
      BroadcastKeepsBox(s.boxes[id], s.nextGeneration, mark, notify);
    }
  }

  lemma BoxReplaced(s: System, id: SandboxId, c: Box)
    requires BoxesSound(s) && BoxInv(c, s.nextGeneration) && c.slot == Lookup(s, id).slot
    ensures var s' := s.(boxes := s.boxes[id := c]); BoxesSound(s') && SlotIds(s') == SlotIds(s)
  {
  }

  lemma ShutdownNextKeeps(s: System, id: SandboxId)
    requires Inv(s) && Allowed(s, ShutdownNext(id))
    ensures Inv(Step(s, ShutdownNext(id)))
  {
    LookupSound(s, id);
    ReleaseMoves(Lookup(s, id), s.nextGeneration, Examining);
    BoxReplaced(s, id, Lookup(s, id).(release := Examining));
    assert Apply(Lookup(s, id), s.nextGeneration, s.accepting, ReleaseBegin) == Lookup(s, id).(release := Examining);
  }

  lemma ShutdownCollectKeeps(s: System)
    requires Inv(s) && Allowed(s, ShutdownCollect)
    ensures Inv(Step(s, ShutdownCollect))
  {
    var id := s.shutdown.current.value;
    LookupSound(s, id);
    ReleaseMoves(Lookup(s, id), s.nextGeneration, Idle);
    BoxReplaced(s, id, Lookup(s, id).(release := Idle));
    assert Apply(Lookup(s, id), s.nextGeneration, s.accepting, ReleaseReturn) == Lookup(s, id).(release := Idle);
    assert Lookup(s, id).slot.None? ==> id !in SlotIds(s);
  }

  /** Condemning and waking leave everything but the slot's phase and the sleepers alone. */
  lemma BroadcastFrame(b: Box, mark: bool, notify: bool)
    ensures var c := Broadcast(b, mark, notify);
      && c.leases == b.leases && c.gens == b.gens && c.owner == b.owner && c.launches.Keys == b.launches.Keys
      && (c.slot == b.slot || (b.slot.Some? && c.slot == Some(Condemn(b.slot.value))))
      && (c.release == Returned(true) <==> b.release == Returned(true))
  {
  }

  lemma ForceMarkKeepsShutdown(s: System)
    requires ShutdownSound(s) && SlotIds(s.(boxes := BroadcastAll(s.boxes, true, true))) == SlotIds(s)
    ensures ShutdownSound(s.(boxes := BroadcastAll(s.boxes, true, true)))
  {
    var s' := s.(boxes := BroadcastAll(s.boxes, true, true));
    if s.shutdown.Releasing? && s.shutdown.current.Some? && s.shutdown.current.value in s.boxes {
      var id := s.shutdown.current.value;
      BroadcastFrame(s.boxes[id], true, true);
      assert Lookup(s', id) == Broadcast(s.boxes[id], true, true);
    }
  }

  lemma InvKept(s: System, e: Event)
    requires Inv(s) && Allowed(s, e)
    ensures Inv(Step(s, e))
  {
    match e {
      case On(_, _) => OnKeepsBoxes(s, e); OnKeepsShutdown(s, e);
      case ShutdownMark(_) => BroadcastKeeps(s, true, false);
      case ShutdownNotify => BroadcastKeeps(s, false, true);
      case ForceMark => BroadcastKeeps(s, true, true); ForceMarkKeepsShutdown(s);
      case ShutdownNext(id) => ShutdownNextKeeps(s, id);
      case ShutdownCollect => ShutdownCollectKeeps(s);
      case _ => assert SlotIds(Step(s, e)) == SlotIds(s);
    }
  }

  lemma {:induction false} RunKeeps(s: System, es: seq<Event>, s': System)
    requires Inv(s) && Runs(s, es, s')
    ensures Inv(s')
    decreases |es|
  {
    if es != [] {
      InvKept(s, es[0]);
      RunKeeps(Step(s, es[0]), es[1..], s');
    }
  }

  /** Every reachable state satisfies the invariant. */
  lemma Reachable(es: seq<Event>, s: System, id: SandboxId)
    requires Runs(Initial, es, s)
    ensures ShutdownSound(s)
    ensures BoxInv(Lookup(s, id), s.nextGeneration)
  {
    RunKeeps(Initial, es, s);
    LookupSound(s, id);
  }

  /** One step, seen from one sandbox. */
  function BoxAfter(s: System, e: Event, id: SandboxId): Box
    requires Allowed(s, e)
  {
    var b := Lookup(s, id);
    match e
    case On(i, step) => if i == id then Apply(b, s.nextGeneration, s.accepting, step) else b
    case ShutdownNext(i) => if i == id then Apply(b, s.nextGeneration, s.accepting, ReleaseBegin) else b
    case ShutdownCollect =>
      if s.shutdown.current.value == id then Apply(b, s.nextGeneration, s.accepting, ReleaseReturn) else b
    case ShutdownMark(_) => Broadcast(b, true, false)
    case ShutdownNotify => Broadcast(b, false, true)
    case ForceMark => Broadcast(b, true, true)
    case _ => b
  }

  lemma StepAt(s: System, e: Event, id: SandboxId)
    requires Allowed(s, e)
    ensures Lookup(Step(s, e), id) == BoxAfter(s, e, id)
  {
  }

  /** A step leaves every other sandbox alone, except that shutdown condemns and wakes all
      of them and begins or ends its own release call. */
  lemma OthersUntouched(s: System, e: Event, id: SandboxId)
    requires Allowed(s, e) && !(e.On? && e.id == id)
    ensures var b, c := Lookup(s, id), Lookup(Step(s, e), id);
      && c.leases == b.leases && c.gens == b.gens && c.owner == b.owner && c.launches.Keys == b.launches.Keys
      && (c.slot == b.slot || (b.slot.Some? && c.slot == Some(Condemn(b.slot.value))))
  {
    StepAt(s, e, id);
    var b := Lookup(s, id);
    match e {
      case ShutdownMark(_) => BroadcastFrame(b, true, false);
      case ShutdownNotify => BroadcastFrame(b, false, true);
      case ForceMark => BroadcastFrame(b, true, true);
      case _ =>
    }
  }
}
