/**
 The shared registry object (crates/shbox/src/platform/linux.rs). Each method is one
 lock-held section, working on the map in place as the source does, and is proved to
 change exactly the slot it names, by the section's function in `DomainSlots`. Each method
 also takes, as a ghost, a state of the state machine: if the object shows that state and the
 section's step may be taken in it, the object shows the state after the step. So what holds
 in every reachable state holds of the object's slots.

 The outcomes of kernel and filesystem calls made inside a section are parameters.
 */
module DomainRegistries {
  import opened Options
  import opened DomainSlots
  import opened DomainMachine
  import opened DomainInvariant
  import opened DomainSystem
  import opened DomainTheorems

  type Slots = map<SandboxId, DomainSlot>

  function SlotOf(slots: Slots, id: SandboxId): Option<DomainSlot> {
    if id in slots then Some(slots[id]) else None
  }

  function WithSlot(slots: Slots, id: SandboxId, slot: Option<DomainSlot>): Slots {
    if slot.Some? then slots[id := slot.value] else slots - {id}
  }

  function AllCondemned(slots: Slots): Slots {
    map id | id in slots :: Condemn(slots[id])
  }

  ghost predicate Shown(slots: Slots, next: nat, accepting: bool, s: System) {
    && (forall id :: SlotOf(slots, id) == Lookup(s, id).slot)
    && next == s.nextGeneration && accepting == s.accepting
  }

  ghost predicate IsEntering(s: System, id: SandboxId, t: nat, identity: Option<Identity>) {
    t in Lookup(s, id).launches && Lookup(s, id).launches[t] == Entering(identity)
  }

  /** Launch `t` publishes what it has built, with the handles of its own generation. */
  ghost predicate IsPublishing(s: System, id: SandboxId, t: nat, generation: nat, domain: nat, runtimeTemp: nat,
                               identity: Option<Identity>, userns: bool) {
    && t in Lookup(s, id).launches && Lookup(s, id).launches[t] == Publishing(identity, generation)
    && domain == runtimeTemp == generation && userns == identity.Some?
  }

  ghost predicate IsFinishing(s: System, id: SandboxId, ok: bool, domain: Option<nat>, runtimeTemp: Option<nat>,
                              identity: Option<Identity>, userns: bool) {
    Lookup(s, id).release == TearingDown(Finish(ok), domain, runtimeTemp, identity, userns)
  }

  /** Launch `t` could not remove the stale temp tree it had taken. */
  ghost predicate IsStuckWith(s: System, id: SandboxId, t: nat, stale: nat) {
    && t in Lookup(s, id).launches && Lookup(s, id).launches[t].Cleaned?
    && Lookup(s, id).launches[t].stale == stale && !Lookup(s, id).launches[t].removed
  }

  class DomainRegistry {
    var slots: Slots
    var nextGeneration: nat
    var accepting: bool

    /** The object holds what the state machine says of the registry. */
    ghost predicate Shows(s: System)
      reads this
    {
      Shown(slots, nextGeneration, accepting, s)
    }

    /** From a state the object shows, the section `e` of the machine leads to one it shows. */
    twostate predicate Follows(s: System, e: Event)
      reads this
    {
      old(Shows(s)) && Allowed(s, e) ==> Shows(Step(s, e))
    }

    constructor ()
      ensures slots == map[] && nextGeneration == 1 && accepting
      ensures Shows(Initial)
    {
      slots := map[];
      nextGeneration := 1;
      accepting := true;
    }

    /** A launch's lease is dropped: count it out and retire the domain if it drained. */
    method LaunchFinished(id: SandboxId, populated: Option<bool>, again: Option<bool>, unlinkOk: bool, tempOk: bool,
                          ghost s: System, ghost l: nat)
      modifies this`slots
      ensures slots == WithSlot(old(slots), id,
                                DomainSlots.LaunchFinished(SlotOf(old(slots), id), populated, again, unlinkOk, tempOk))
      ensures Follows(s, On(id, LeaseDrop(l, populated, again, unlinkOk, tempOk)))
    {
      if Shows(s) && Allowed(s, On(id, LeaseDrop(l, populated, again, unlinkOk, tempOk))) {
        LaunchFinishedIsStep(slots, s, id, LeaseDrop(l, populated, again, unlinkOk, tempOk));
      }
      if id !in slots {
        return;
      }
      var drained := false;
      match slots[id] {
        case Active(g, n, d, t, i, u) =>
          slots := slots[id := Active(g, SaturatingPred(n), d, t, i, u)];
          drained := SaturatingPred(n) == 0 && populated == Some(false);
        case Deleting(g, n, d, t, i, u) =>
          slots := slots[id := Deleting(g, SaturatingPred(n), d, t, i, u)];
        case _ =>
      }
      if drained && RemoveEmpty(again, unlinkOk) {
        var prior := slots[id];
        slots := slots[id := Creating];
        if tempOk {
          slots := slots - {id};
        } else {
          slots := slots[id := CleanupPending(prior.runtimeTemp)];
        }
      }
    }

    /** One iteration of the launch loop. */
    method Join(id: SandboxId, identity: Option<Identity>, dupOk: bool, ghost s: System, ghost t: nat, ghost l: nat)
      returns (join: Join)
      modifies this`slots
      ensures join == JoinDecision(SlotOf(old(slots), id), identity, accepting, dupOk)
      ensures slots == WithSlot(old(slots), id, AfterJoin(SlotOf(old(slots), id), join))
      ensures IsEntering(s, id, t, identity) ==> Follows(s, On(id, LaunchEnter(t, dupOk, l)))
    {
      if Shows(s) && Allowed(s, On(id, LaunchEnter(t, dupOk, l))) && IsEntering(s, id, t, identity) {
        JoinIsStep(slots, s, id, t, dupOk, l);
      }
      if !accepting {
        return Rejected;
      }
      if id !in slots {
        slots := slots[id := Creating];
        return StartCreating;
      }
      match slots[id] {
        case Creating => return WaitCreating;
        case Active(g, n, d, t, current, userns) =>
          if current != identity {
            return Rejected;
          }
          if (current.None? && !userns) || (current.Some? && userns && dupOk) {
            slots := slots[id := Active(g, n + 1, d, t, current, userns)];
            return Joined(d, t);
          }
          return Rejected;
        case Deleting(_, _, _, _, _, _) => return Rejected;
        case CleanupPending(stale) =>
          slots := slots[id := Creating];
          return CleanPending(stale);
      }
    }

    /** Generation numbers are handed out once each, in order. */
    method AllocateGeneration(ghost s: System, ghost id: SandboxId, ghost t: nat) returns (generation: nat)
      modifies this`nextGeneration
      ensures generation == old(nextGeneration) && nextGeneration == old(nextGeneration) + 1
      ensures Follows(s, On(id, LaunchAllocate(t, true)))
    {
      if Shows(s) && Allowed(s, On(id, LaunchAllocate(t, true))) {
        AllocationIsStep(slots, s, id, t);
      }
      generation := nextGeneration;
      nextGeneration := nextGeneration + 1;
    }

    method PublishGeneration(id: SandboxId, generation: nat, domain: nat, runtimeTemp: nat,
                             identity: Option<Identity>, userns: bool,
                             ghost s: System, ghost t: nat, ghost dupOk: bool, ghost l: nat) returns (published: bool)
      modifies this`slots
      ensures published == MayPublish(SlotOf(old(slots), id))
      ensures slots == WithSlot(old(slots), id,
                                Publish(SlotOf(old(slots), id), generation, domain, runtimeTemp, identity, userns))
      ensures IsPublishing(s, id, t, generation, domain, runtimeTemp, identity, userns) ==>
                Follows(s, On(id, LaunchPublish(t, dupOk, l)))
    {
      if Shows(s) && Allowed(s, On(id, LaunchPublish(t, dupOk, l)))
         && IsPublishing(s, id, t, generation, domain, runtimeTemp, identity, userns) {
        PublicationIsStep(slots, s, id, t, dupOk, l);
      }
      published := id !in slots || slots[id].Creating?;
      if published {
        slots := slots[id := Active(generation, 1, domain, runtimeTemp, identity, userns)];
      }
    }

    /** Creation failed: release the marker so that nobody waits on a dead creator. */
    method RetractMarker(id: SandboxId, ghost s: System, ghost t: nat)
      modifies this`slots
      ensures slots == WithSlot(old(slots), id, Retract(SlotOf(old(slots), id)))
      ensures Follows(s, On(id, LaunchAbort(t)))
    {
      if Shows(s) && Allowed(s, On(id, LaunchAbort(t))) {
        RetractionIsStep(slots, s, id, t);
      }
      if id in slots && slots[id].Creating? {
        slots := slots - {id};
      }
    }

    /** A launch could not remove the stale temp tree it had taken. */
    method RestorePending(id: SandboxId, stale: nat, ghost s: System, ghost t: nat)
      modifies this`slots
      ensures slots == WithSlot(old(slots), id, Some(CleanupPending(stale)))
      ensures IsStuckWith(s, id, t, stale) ==> Follows(s, On(id, LaunchAfterStale(t)))
    {
      if Shows(s) && Allowed(s, On(id, LaunchAfterStale(t))) && IsStuckWith(s, id, t, stale) {
        RestorationIsStep(slots, s, id, t);
      }
      slots := slots[id := CleanupPending(stale)];
    }

    /** One pass of the release loop; `taken` is the slot as it was when handles are taken. */
    method ExamineForRelease(id: SandboxId, killOk: bool, ghost s: System)
      returns (phase: Phase, taken: Option<DomainSlot>)
      modifies this`slots
      ensures phase == ReleasePhase(SlotOf(old(slots), id))
      ensures taken == if phase.TakeOver? || phase.FinishPendingCleanup? then SlotOf(old(slots), id) else None
      ensures slots == WithSlot(old(slots), id, AfterPhase(SlotOf(old(slots), id), killOk))
      ensures Follows(s, On(id, ReleaseExamine(killOk)))
    {
      if Shows(s) && Allowed(s, On(id, ReleaseExamine(killOk))) {
        ExaminationIsStep(slots, s, id, killOk);
      }
      taken := None;
      if id !in slots {
        return Absent, None;
      }
      var prior := slots[id];
      match prior {
        case Creating => return AwaitCreating, None;
        case Deleting(g, n, d, t, i, u) =>
          if n > 0 {
            return AwaitBarrier, None;
          }
          slots := slots[id := Deleting(g, n, None, None, i, false)];
          return TakeOver, Some(prior);
        case Active(g, n, d, t, i, u) =>
          slots := slots[id := Creating];
          if killOk {
            slots := slots[id := Deleting(g, n, Some(d), Some(t), i, u)];
          } else {
            slots := slots[id := Active(g, n, d, t, i, u)];
          }
          return MarkDeleting, None;
        case CleanupPending(_) =>
          slots := slots[id := Creating];
          return FinishPendingCleanup, Some(prior);
      }
    }

    method FinishPending(id: SandboxId, stale: nat, removed: bool, ghost s: System)
      modifies this`slots
      ensures slots == WithSlot(old(slots), id, AfterPendingCleanup(SlotOf(old(slots), id), stale, removed))
      ensures Lookup(s, id).release == CleanedPending(stale, removed) ==> Follows(s, On(id, ReleaseAfterPending))
    {
      if Shows(s) && Allowed(s, On(id, ReleaseAfterPending))
         && Lookup(s, id).release == CleanedPending(stale, removed) {
        PendingCleanupIsStep(slots, s, id);
      }
      if id in slots && slots[id].Creating? {
        if removed {
          slots := slots - {id};
        } else {
          slots := slots[id := CleanupPending(stale)];
        }
      }
    }

    method FinishTeardown(id: SandboxId, ok: bool, domain: Option<nat>, runtimeTemp: Option<nat>,
                          identity: Option<Identity>, userns: bool, ghost s: System)
      modifies this`slots
      ensures slots == WithSlot(old(slots), id,
                                AfterTeardown(SlotOf(old(slots), id), ok, domain, runtimeTemp, identity, userns))
      ensures IsFinishing(s, id, ok, domain, runtimeTemp, identity, userns) ==> Follows(s, On(id, TeardownFinish))
    {
      if Shows(s) && Allowed(s, On(id, TeardownFinish))
         && IsFinishing(s, id, ok, domain, runtimeTemp, identity, userns) {
        TeardownIsStep(slots, s, id);
      }
      if ok {
        slots := slots - {id};
      } else {
        var generation := 0;
        if id in slots && slots[id].Deleting? {
          generation := slots[id].generation;
        }
        slots := slots[id := Deleting(generation, 0, domain, runtimeTemp, identity, userns)];
      }
    }

    method StopAccepting(ghost s: System)
      modifies this`accepting
      ensures !accepting
      ensures Follows(s, ShutdownStore) && Follows(s, ForceStore)
    {
      accepting := false;
    }

    /** Shutdown and forced shutdown: every active domain becomes Deleting, one id at a time;
        the ids visited are all the ids there were. */
    method CondemnAll(ghost s: System, ghost killFailed: bool) returns (ids: set<SandboxId>)
      modifies this`slots
      ensures ids == old(slots).Keys
      ensures slots == AllCondemned(old(slots))
      ensures old(Shows(s)) ==> ids == SlotIds(s)
      ensures Follows(s, ShutdownMark(killFailed)) && Follows(s, ForceMark)
    {
      if Shows(s) {
        MarkingIsStep(slots, s, killFailed);
      }
      ids := slots.Keys;
      var left := ids;
      while left != {}
        invariant left <= ids == old(slots).Keys == slots.Keys
        invariant forall id :: id in slots ==> slots[id] == if id in left then old(slots)[id]
            else Condemn(old(slots)[id])
        decreases left
      {
        var id :| id in left;
        left := left - {id};
        var prior := slots[id];
        slots := slots[id := Creating];
        match prior {
          case Active(g, n, d, t, i, u) => slots := slots[id := Deleting(g, n, Some(d), Some(t), i, u)];
          case _ => slots := slots[id := prior];
        }
      }
    }
  }

  // ---- each section is a step of the machine -----------------------------------------

  /** The section left `slot` where the machine's step did, and nothing else. */
  ghost predicate Leaves(slots: Slots, id: SandboxId, slot: Option<DomainSlot>, s: System, s': System) {
    Shown(WithSlot(slots, id, slot), s.nextGeneration, s.accepting, s')
  }

  lemma OneSlot(slots: Slots, s: System, id: SandboxId, e: BoxEvent, slot: Option<DomainSlot>)
    requires Shown(slots, s.nextGeneration, s.accepting, s) && Allowed(s, On(id, e)) &&
        NextAfter(s.nextGeneration, e) == s.nextGeneration
    requires slot == Apply(Lookup(s, id), s.nextGeneration, s.accepting, e).slot
    ensures Leaves(slots, id, slot, s, Step(s, On(id, e)))
  {
    var s' := Step(s, On(id, e));
    forall i ensures SlotOf(WithSlot(slots, id, slot), i) == Lookup(s', i).slot {
      StepAt(s, On(id, e), i);
      assert SlotOf(slots, i) == Lookup(s, i).slot;
    }
  }

  lemma LaunchFinishedIsStep(slots: Slots, s: System, id: SandboxId, e: BoxEvent)
    requires Shown(slots, s.nextGeneration, s.accepting, s) && e.LeaseDrop? && Allowed(s, On(id, e))
    ensures Leaves(slots, id, LaunchFinished(SlotOf(slots, id), e.populated, e.again, e.unlinkOk, e.tempOk),
                   s, Step(s, On(id, e)))
  {
    var slot := LaunchFinished(SlotOf(slots, id), e.populated, e.again, e.unlinkOk, e.tempOk);
    assert SlotOf(slots, id) == Lookup(s, id).slot;
    assert Apply(Lookup(s, id), s.nextGeneration, s.accepting, e).slot == slot;
    OneSlot(slots, s, id, e, slot);
  }

  lemma JoinIsStep(slots: Slots, s: System, id: SandboxId, t: nat, dupOk: bool, l: nat)
    requires Shown(slots, s.nextGeneration, s.accepting, s) && Allowed(s, On(id, LaunchEnter(t, dupOk, l)))
    ensures var join := JoinDecision(SlotOf(slots, id), Lookup(s, id).launches[t].identity, s.accepting, dupOk);
      Leaves(slots, id, AfterJoin(SlotOf(slots, id), join), s, Step(s, On(id, LaunchEnter(t, dupOk, l))))
  {
    var e := LaunchEnter(t, dupOk, l);
    assert SlotOf(slots, id) == Lookup(s, id).slot;
    OneSlot(slots, s, id, e, Apply(Lookup(s, id), s.nextGeneration, s.accepting, e).slot);
  }

  lemma AllocationIsStep(slots: Slots, s: System, id: SandboxId, t: nat)
    requires Shown(slots, s.nextGeneration, s.accepting, s) && Allowed(s, On(id, LaunchAllocate(t, true)))
    ensures Shown(slots, s.nextGeneration + 1, s.accepting, Step(s, On(id, LaunchAllocate(t, true))))
  {
    var s' := Step(s, On(id, LaunchAllocate(t, true)));
    forall i ensures SlotOf(slots, i) == Lookup(s', i).slot {
      StepAt(s, On(id, LaunchAllocate(t, true)), i);
      assert SlotOf(slots, i) == Lookup(s, i).slot;
    }
  }

  lemma PublicationIsStep(slots: Slots, s: System, id: SandboxId, t: nat, dupOk: bool, l: nat)
    requires Shown(slots, s.nextGeneration, s.accepting, s) && Allowed(s, On(id, LaunchPublish(t, dupOk, l)))
    ensures var who, g := Lookup(s, id).launches[t].identity, Lookup(s, id).launches[t].generation;
      Leaves(slots, id, Publish(SlotOf(slots, id), g, g, g, who, who.Some?), s,
          Step(s, On(id, LaunchPublish(t, dupOk, l))))
  {
    var e := LaunchPublish(t, dupOk, l);
    assert SlotOf(slots, id) == Lookup(s, id).slot;
    OneSlot(slots, s, id, e, Apply(Lookup(s, id), s.nextGeneration, s.accepting, e).slot);
  }

  lemma RetractionIsStep(slots: Slots, s: System, id: SandboxId, t: nat)
    requires Shown(slots, s.nextGeneration, s.accepting, s) && Allowed(s, On(id, LaunchAbort(t)))
    ensures Leaves(slots, id, Retract(SlotOf(slots, id)), s, Step(s, On(id, LaunchAbort(t))))
  {
    assert SlotOf(slots, id) == Lookup(s, id).slot;
    OneSlot(slots, s, id, LaunchAbort(t), Retract(SlotOf(slots, id)));
  }

  lemma RestorationIsStep(slots: Slots, s: System, id: SandboxId, t: nat)
    requires Shown(slots, s.nextGeneration, s.accepting, s) && Allowed(s, On(id, LaunchAfterStale(t)))
    requires !Lookup(s, id).launches[t].removed
    ensures Leaves(slots, id, Some(CleanupPending(Lookup(s, id).launches[t].stale)), s,
        Step(s, On(id, LaunchAfterStale(t))))
  {
    OneSlot(slots, s, id, LaunchAfterStale(t), Some(CleanupPending(Lookup(s, id).launches[t].stale)));
  }

  lemma ExaminationIsStep(slots: Slots, s: System, id: SandboxId, killOk: bool)
    requires Shown(slots, s.nextGeneration, s.accepting, s) && Allowed(s, On(id, ReleaseExamine(killOk)))
    ensures Leaves(slots, id, AfterPhase(SlotOf(slots, id), killOk), s, Step(s, On(id, ReleaseExamine(killOk))))
  {
    assert SlotOf(slots, id) == Lookup(s, id).slot;
    assert Apply(Lookup(s, id), s.nextGeneration, s.accepting, ReleaseExamine(killOk)).slot ==
           AfterPhase(SlotOf(slots, id), killOk);
    OneSlot(slots, s, id, ReleaseExamine(killOk), AfterPhase(SlotOf(slots, id), killOk));
  }

  lemma PendingCleanupIsStep(slots: Slots, s: System, id: SandboxId)
    requires Shown(slots, s.nextGeneration, s.accepting, s) && Allowed(s, On(id, ReleaseAfterPending))
    ensures var r := Lookup(s, id).release;
      Leaves(slots, id, AfterPendingCleanup(SlotOf(slots, id), r.stale, r.removed), s,
          Step(s, On(id, ReleaseAfterPending)))
  {
    var r := Lookup(s, id).release;
    assert SlotOf(slots, id) == Lookup(s, id).slot;
    OneSlot(slots, s, id, ReleaseAfterPending, AfterPendingCleanup(SlotOf(slots, id), r.stale, r.removed));
  }

  lemma TeardownIsStep(slots: Slots, s: System, id: SandboxId)
    requires Shown(slots, s.nextGeneration, s.accepting, s) && Allowed(s, On(id, TeardownFinish))
    ensures var r := Lookup(s, id).release;
      Leaves(slots, id, AfterTeardown(SlotOf(slots, id), r.stage.ok, r.domain, r.temp, r.identity, r.userns),
             s, Step(s, On(id, TeardownFinish)))
  {
    var r := Lookup(s, id).release;
    assert SlotOf(slots, id) == Lookup(s, id).slot;
    OneSlot(slots, s, id, TeardownFinish,
            AfterTeardown(SlotOf(slots, id), r.stage.ok, r.domain, r.temp, r.identity, r.userns));
  }

  lemma CondemnationIsStep(slots: Slots, s: System, notify: bool)
    requires Shown(slots, s.nextGeneration, s.accepting, s)
    ensures slots.Keys == SlotIds(s)
    ensures Shown(AllCondemned(slots), s.nextGeneration, s.accepting,
                  s.(boxes := BroadcastAll(s.boxes, true, notify)))
  {
    var s' := s.(boxes := BroadcastAll(s.boxes, true, notify));
    forall i ensures SlotOf(AllCondemned(slots), i) == Lookup(s', i).slot && (i in slots <==> i in SlotIds(s)) {
      assert SlotOf(slots, i) == Lookup(s, i).slot;
    }
  }

  /** How far a shutdown has got does not matter to what an object shows. */
  lemma ShownIgnoresShutdown(slots: Slots, s: System, s': System)
    requires Shown(slots, s.nextGeneration, s.accepting, s) && s' == s.(shutdown := s'.shutdown)
    ensures Shown(slots, s.nextGeneration, s.accepting, s')
  {
    forall i ensures SlotOf(slots, i) == Lookup(s', i).slot {
      assert SlotOf(slots, i) == Lookup(s, i).slot;
    }
  }

  /** Marking all slots is the shutdown's marking step, and the forced shutdown's. */
  lemma MarkingIsStep(slots: Slots, s: System, killFailed: bool)
    requires Shown(slots, s.nextGeneration, s.accepting, s)
    ensures slots.Keys == SlotIds(s)
    ensures Allowed(s, ShutdownMark(killFailed)) ==>
              Shown(AllCondemned(slots), s.nextGeneration, s.accepting, Step(s, ShutdownMark(killFailed)))
    ensures Allowed(s, ForceMark) ==>
              Shown(AllCondemned(slots), s.nextGeneration, s.accepting, Step(s, ForceMark))
  {
    CondemnationIsStep(slots, s, false);
    CondemnationIsStep(slots, s, true);
    if Allowed(s, ShutdownMark(killFailed)) {
      ShownIgnoresShutdown(AllCondemned(slots), s.(boxes := BroadcastAll(s.boxes, true, false)),
                           Step(s, ShutdownMark(killFailed)));
    }
  }

  /** Of an object that shows a reachable state: a slot's count is at least its live leases,
      and a sandbox without a slot has neither a lease nor a published cgroup. */
  lemma ShownSlotsAreSound(es: seq<Event>, s: System, slots: Slots, id: SandboxId, g: nat)
    requires Runs(Initial, es, s) && Shown(slots, s.nextGeneration, s.accepting, s)
    ensures id in slots && (slots[id].Active? || slots[id].Deleting?) ==>
      |LeasesOf(Lookup(s, id), slots[id].generation)| <= slots[id].inFlight
    ensures id !in slots ==> Lookup(s, id).leases == map[] && !LiveCgroup(Lookup(s, id), g)
  {
    assert SlotOf(slots, id) == Lookup(s, id).slot;
    LeaseAccounting(es, s, id);
    Reachable(es, s, id);
    if id !in slots {
      AbsentBoxIsClean(Lookup(s, id), s.nextGeneration, g);
    }
  }
}
