/**
 Connection admission (crates/shbox/src/server.rs): two atomic counters raised by weak
 compare-and-swap loops and lowered by slots, for any number of threads. Every atomic
 operation is one step; a compare-and-swap may fail spuriously.
 */
module Admission {
  import opened Options

  datatype Caps = Caps(maxConnections: nat, maxUnauthenticated: nat)

  /** Where a slot stands with the unauthenticated bucket: counted; its flag swapped by a
      thread that has not lowered the counter yet; or out. */
  datatype Bucket = Counted | Leaving(thread: nat) | Left

  /** `users` are the threads inside `authenticated`; the last reference is gone, and the
      destructor runs in `dropper`, only when there are none. `releases` counts the
      decrements of the unauthenticated counter made for the slot. */
  datatype Slot = Slot(bucket: Bucket, users: set<nat>, dropper: Option<nat>, releases: nat)

  datatype Pc =
    | LoadTotal
    | CasTotal(current: int)
    | LoadUnauth
    | CasUnauth(current: int)
    | Rollback
    | SwapFlag(slot: nat)
    | LowerUnauth(slot: nat)
    | DropSwap(slot: nat)
    | DropUnauth(slot: nat)
    | DropTotal(slot: nat)

  datatype Limiter = Limiter(
    caps: Caps,
    total: int,
    unauth: int,
    threads: map<nat, Pc>,
    slots: map<nat, Slot>,
    ended: map<nat, nat>,
    next: nat)

  function New(caps: Caps): Limiter {
    Limiter(caps, 0, 0, map[], map[], map[], 0)
  }

  datatype Event =
    | Admit(t: nat)
    | Load(t: nat)
    | Refuse(t: nat)
    | CasFails(t: nat)
    | WinTotal(t: nat)
    | WinUnauth(t: nat)
    | RollBack(t: nat)
    | Authenticated(t: nat, slot: nat)
    | Drop(t: nat, slot: nat)
    | Swap(t: nat)
    | Lower(t: nat)
    | Finish(t: nat)

  predicate MayCas(s: Limiter, pc: Pc) {
    (pc.CasTotal? && pc.current < s.caps.maxConnections) || (pc.CasUnauth? && pc.current < s.caps.maxUnauthenticated)
  }

  predicate Begins(e: Event) {
    e.Admit? || e.Authenticated? || e.Drop?
  }

  predicate Enabled(s: Limiter, e: Event) {
    if Begins(e) then
      && e.t !in s.threads
      && (e.Authenticated? || e.Drop? ==> e.slot in s.slots && s.slots[e.slot].dropper.None?)
      && (e.Drop? ==> s.slots[e.slot].users == {})
    else
      && e.t in s.threads
      && PcAllows(s, s.threads[e.t], e)
  }

  predicate PcAllows(s: Limiter, pc: Pc, e: Event) {
    match e
    case Load(_) => pc.LoadTotal? || pc.LoadUnauth?
    case Refuse(_) => (pc.CasTotal? || pc.CasUnauth?) && !MayCas(s, pc)
    case CasFails(_) => MayCas(s, pc)
    case WinTotal(_) => pc.CasTotal? && MayCas(s, pc) && pc.current == s.total
    case WinUnauth(_) => pc.CasUnauth? && MayCas(s, pc) && pc.current == s.unauth
    case RollBack(_) => pc.Rollback?
    case Swap(_) => (pc.SwapFlag? || pc.DropSwap?) && pc.slot in s.slots
    case Lower(_) => (pc.LowerUnauth? || pc.DropUnauth?) && pc.slot in s.slots
    case Finish(_) => pc.DropTotal? && pc.slot in s.slots
    case _ => false
  }

  function Move(s: Limiter, t: nat, pc: Pc): Limiter {
    s.(threads := s.threads[t := pc])
  }

  function End(s: Limiter, t: nat): Limiter {
    s.(threads := s.threads - {t})
  }

  function SetSlot(s: Limiter, i: nat, slot: Slot): Limiter {
    s.(slots := s.slots[i := slot])
  }

  function Step(s: Limiter, e: Event): Limiter
    requires Enabled(s, e)
  {
    match e
    case Admit(t) => Move(s, t, LoadTotal)
    case Authenticated(t, i) => SetSlot(Move(s, t, SwapFlag(i)), i, s.slots[i].(users := s.slots[i].users + {t}))
    case Drop(t, i) => SetSlot(Move(s, t, DropSwap(i)), i, s.slots[i].(dropper := Some(t)))
    case Load(t) => Move(s, t, if s.threads[t].LoadTotal? then CasTotal(s.total) else CasUnauth(s.unauth))
    case CasFails(t) => Move(s, t, if s.threads[t].CasTotal? then CasTotal(s.total) else CasUnauth(s.unauth))
    case Refuse(t) => if s.threads[t].CasTotal? then End(s, t) else Move(s, t, Rollback)
    case WinTotal(t) => Move(s.(total := s.total + 1), t, LoadUnauth)
    case WinUnauth(t) =>
      SetSlot(End(s.(unauth := s.unauth + 1, next := s.next + 1), t), s.next, Slot(Counted, {}, None, 0))
    case RollBack(t) => End(s.(total := s.total - 1), t)
    case Swap(t) => SwapStep(s, t)
    case Lower(t) => LowerStep(s, t)
    case Finish(t) =>
      var i := s.threads[t].slot;
      End(s.(total := s.total - 1, slots := s.slots - {i}, ended := s.ended[i := s.slots[i].releases]), t)
  }

  /** The atomic swap of a slot's flag: only the swap that finds it set goes on to lower the
      unauthenticated counter. */
  function SwapStep(s: Limiter, t: nat): Limiter
    requires Enabled(s, Swap(t))
  {
    var i := s.threads[t].slot;
    var slot := s.slots[i];
    if s.threads[t].DropSwap? then
      if slot.bucket.Counted? then SetSlot(Move(s, t, DropUnauth(i)), i, slot.(bucket := Leaving(t)))
      else Move(s, t, DropTotal(i))
    else
      if slot.bucket.Counted? then SetSlot(Move(s, t, LowerUnauth(i)), i, slot.(bucket := Leaving(t)))
      else SetSlot(End(s, t), i, slot.(users := slot.users - {t}))
  }

  function LowerStep(s: Limiter, t: nat): Limiter
    requires Enabled(s, Lower(t))
  {
    var i := s.threads[t].slot;
    var slot := s.slots[i].(bucket := Left, releases := s.slots[i].releases + 1);
    var s := s.(unauth := s.unauth - 1);
    if s.threads[t].DropUnauth? then SetSlot(Move(s, t, DropTotal(i)), i, slot)
    else SetSlot(End(s, t), i, slot.(users := slot.users - {t}))
  }

  ghost predicate Runs(s: Limiter, es: seq<Event>, s': Limiter)
    decreases es
  {
    if es == [] then s == s' else Enabled(s, es[0]) && Runs(Step(s, es[0]), es[1..], s')
  }

  ghost predicate Reachable(caps: Caps, s: Limiter) {
    exists es :: Runs(New(caps), es, s)
  }

  // ---- the invariant -----------------------------------------------------------------

  predicate HoldsTotal(pc: Pc) {
    pc.LoadUnauth? || pc.CasUnauth? || pc.Rollback?
  }

  /** Threads holding one unit of the total counter before a slot exists for it. */
  function Holding(threads: map<nat, Pc>): set<nat> {
    set t | t in threads && HoldsTotal(threads[t])
  }

  /** Slots still counted by the unauthenticated counter. */
  function InBucket(slots: map<nat, Slot>): set<nat> {
    set i | i in slots && !slots[i].bucket.Left?
  }

  ghost predicate Counts(s: Limiter) {
    && s.total == |s.slots.Keys| + |Holding(s.threads)| <= s.caps.maxConnections
    && s.unauth == |InBucket(s.slots)| <= s.caps.maxUnauthenticated
  }

  predicate PcSound(s: Limiter, t: nat, pc: Pc) {
    match pc
    case SwapFlag(i) => i in s.slots && t in s.slots[i].users && s.slots[i].bucket != Leaving(t)
    case LowerUnauth(i) => i in s.slots && t in s.slots[i].users && s.slots[i].bucket == Leaving(t)
    case DropSwap(i) => i in s.slots && s.slots[i].dropper == Some(t) && !s.slots[i].bucket.Leaving?
    case DropUnauth(i) => i in s.slots && s.slots[i].dropper == Some(t) && s.slots[i].bucket == Leaving(t)
    case DropTotal(i) => i in s.slots && s.slots[i].dropper == Some(t) && s.slots[i].bucket.Left?
    case _ => true
  }

  predicate SlotSound(s: Limiter, i: nat, slot: Slot) {
    && i < s.next && i !in s.ended
    && slot.releases == (if slot.bucket.Left? then 1 else 0)
    && (slot.dropper.Some? ==> slot.users == {})
    && (forall u :: u in slot.users ==>
          u in s.threads && (s.threads[u] == SwapFlag(i) || s.threads[u] == LowerUnauth(i)))
    && (slot.dropper.Some? ==>
          var d := slot.dropper.value;
          d in s.threads && s.threads[d] in {DropSwap(i), DropUnauth(i), DropTotal(i)})
    && (slot.bucket.Leaving? ==>
          var b := slot.bucket.thread;
          b in s.threads && s.threads[b] in {LowerUnauth(i), DropUnauth(i)} &&
              (b in slot.users || slot.dropper == Some(b)))
  }

  ghost predicate Inv(s: Limiter) {
    && Counts(s)
    && (forall t :: t in s.threads ==> PcSound(s, t, s.threads[t]))
    && (forall i :: i in s.slots ==> SlotSound(s, i, s.slots[i]))
    && (forall i :: i in s.ended ==> i < s.next && s.ended[i] == 1)
  }

  // ---- preservation ------------------------------------------------------------------

  /** How many units of the total a step moves in or out of the hands of threads. */
  function Handed(e: Event): int {
    if e.WinTotal? then 1 else if e.WinUnauth? || e.RollBack? then -1 else 0
  }

  function Held(threads: map<nat, Pc>, t: nat): nat {
    if t in threads && HoldsTotal(threads[t]) then 1 else 0
  }

  lemma ThreadsChange(s: Limiter, e: Event)
    requires Enabled(s, e)
    ensures Step(s, e).threads - {e.t} == s.threads - {e.t}
    ensures Held(Step(s, e).threads, e.t) == Held(s.threads, e.t) + Handed(e)
  {
  }

  lemma HoldingCount(threads: map<nat, Pc>, t: nat)
    ensures |Holding(threads)| == |Holding(threads - {t})| + Held(threads, t)
  {
    assert Holding(threads - {t}) == Holding(threads) - {t};
  }

  lemma HoldingChanges(s: Limiter, e: Event)
    requires Enabled(s, e)
    ensures |Holding(Step(s, e).threads)| == |Holding(s.threads)| + Handed(e)
  {
    ThreadsChange(s, e);
    HoldingCount(s.threads, e.t);
    HoldingCount(Step(s, e).threads, e.t);
  }

  lemma SameSlots(a: map<nat, Slot>, b: map<nat, Slot>, i: nat)
    requires i in a && i in b && b == a[i := b[i]]
    ensures b.Keys == a.Keys
    ensures |InBucket(b)| == |InBucket(a)| + (if b[i].bucket.Left? then 0 else 1) - (if a[i].bucket.Left? then 0 else 1)
  {
    var rest := InBucket(a) - {i};
    assert InBucket(a) == if a[i].bucket.Left? then rest else rest + {i};
    assert InBucket(b) == if b[i].bucket.Left? then rest else rest + {i};
  }

  lemma NewSlot(a: map<nat, Slot>, i: nat, slot: Slot)
    requires i !in a && !slot.bucket.Left?
    ensures |a[i := slot].Keys| == |a.Keys| + 1 && |InBucket(a[i := slot])| == |InBucket(a)| + 1
  {
    assert a[i := slot].Keys == a.Keys + {i};
    assert InBucket(a[i := slot]) == InBucket(a) + {i};
  }

  lemma SlotGone(a: map<nat, Slot>, i: nat)
    requires i in a && a[i].bucket.Left?
    ensures |(a - {i}).Keys| == |a.Keys| - 1 && InBucket(a - {i}) == InBucket(a)
  {
    assert (a - {i}).Keys == a.Keys - {i};
  }

  predicate TouchesSlot(e: Event) {
    e.Authenticated? || e.Drop? || e.Swap? || e.Lower?
  }

  function SlotOf(s: Limiter, e: Event): nat
    requires Enabled(s, e) && TouchesSlot(e)
  {
    if e.Authenticated? || e.Drop? then e.slot else s.threads[e.t].slot
  }

  /** A step on a slot changes that slot alone, and takes it out of the bucket exactly when
      it lowers the counter. */
  lemma SlotStep(s: Limiter, e: Event)
    requires Enabled(s, e) && TouchesSlot(e) && (e.t in s.threads ==> PcSound(s, e.t, s.threads[e.t]))
    ensures var i, s' := SlotOf(s, e), Step(s, e);
            && i in s'.slots && s'.slots == s.slots[i := s'.slots[i]] && s'.total == s.total
            && s'.unauth == s.unauth + (if s'.slots[i].bucket.Left? then 0 else 1)
                                     - (if s.slots[i].bucket.Left? then 0 else 1)
  {
  }

  lemma SubsetCount(a: set<nat>, b: set<nat>)
    requires a <= b
    ensures |a| <= |b|
  {
    assert b == a + (b - a) && a !! (b - a);
  }

  lemma SlotCountsKept(s: Limiter, e: Event)
    requires Counts(s) && Enabled(s, e) && TouchesSlot(e) && (e.t in s.threads ==> PcSound(s, e.t, s.threads[e.t]))
    ensures Counts(Step(s, e))
  {
    HoldingChanges(s, e);
    SlotStep(s, e);
    SameSlots(s.slots, Step(s, e).slots, SlotOf(s, e));
  }

  lemma TotalCountsKept(s: Limiter, e: Event)
    requires Counts(s) && Enabled(s, e) && !TouchesSlot(e) && !e.WinUnauth? && !e.Finish?
    ensures Counts(Step(s, e))
  {
    HoldingChanges(s, e);
  }

  lemma EndCountsKept(s: Limiter, e: Event)
    requires Counts(s) && Enabled(s, e) && (e.WinUnauth? || e.Finish?)
    requires PcSound(s, e.t, s.threads[e.t]) && s.next !in s.slots
    ensures Counts(Step(s, e))
  {
    HoldingChanges(s, e);
    if e.WinUnauth? {
      NewSlot(s.slots, s.next, Slot(Counted, {}, None, 0));
    } else {
      SlotGone(s.slots, s.threads[e.t].slot);
    }
  }

  lemma CountsKept(s: Limiter, e: Event)
    requires Inv(s) && Enabled(s, e)
    ensures Counts(Step(s, e))
  {
    if TouchesSlot(e) {
      SlotCountsKept(s, e);
    } else if e.WinUnauth? || e.Finish? {
      assert s.next !in s.slots;
      EndCountsKept(s, e);
    } else {
      TotalCountsKept(s, e);
    }
  }

  lemma MoverKeeps(s: Limiter, e: Event)
    requires Enabled(s, e) && (e.t in s.threads ==> PcSound(s, e.t, s.threads[e.t]))
    requires forall i :: i in s.slots ==> SlotSound(s, i, s.slots[i])
    ensures e.t in Step(s, e).threads ==> PcSound(Step(s, e), e.t, Step(s, e).threads[e.t])
  {
  }

  /** A step leaves every other thread where it is, and the slots it does not touch. */
  lemma Elsewhere(s: Limiter, e: Event)
    requires Enabled(s, e)
    ensures forall u :: u != e.t ==>
              && (u in Step(s, e).threads <==> u in s.threads)
              && (u in s.threads ==> Step(s, e).threads[u] == s.threads[u])
    ensures !TouchesSlot(e) && !e.WinUnauth? && !e.Finish? ==> Step(s, e).slots == s.slots
    ensures e.WinUnauth? ==> Step(s, e).slots == s.slots[s.next := Slot(Counted, {}, None, 0)]
    ensures e.Finish? ==> Step(s, e).slots == s.slots - {s.threads[e.t].slot}
  {
  }

  lemma ElsewhereIds(s: Limiter, e: Event)
    requires Enabled(s, e)
    ensures Step(s, e).next == if e.WinUnauth? then s.next + 1 else s.next
    ensures Step(s, e).ended ==
            if e.Finish? then s.ended[s.threads[e.t].slot := s.slots[s.threads[e.t].slot].releases] else s.ended
  {
  }

  lemma BystanderOnSlot(s: Limiter, e: Event, u: nat)
    requires Enabled(s, e) && TouchesSlot(e) && (e.t in s.threads ==> PcSound(s, e.t, s.threads[e.t]))
    requires SlotSound(s, SlotOf(s, e), s.slots[SlotOf(s, e)])
    requires u != e.t && u in s.threads && PcSound(s, u, s.threads[u])
    ensures PcSound(Step(s, e), u, s.threads[u])
  {
  }

  lemma BystanderKeeps(s: Limiter, e: Event, u: nat)
    requires Inv(s) && Enabled(s, e) && u != e.t && u in s.threads
    ensures PcSound(Step(s, e), u, s.threads[u])
  {
    assert PcSound(s, u, s.threads[u]);
    if e.t in s.threads {
      assert PcSound(s, e.t, s.threads[e.t]);
    }
    if TouchesSlot(e) {
      BystanderOnSlot(s, e, u);
    } else {
      Elsewhere(s, e);
      PcStays(s, Step(s, e), u);
    }
  }

  lemma PcStays(s: Limiter, s': Limiter, u: nat)
    requires u in s.threads && PcSound(s, u, s.threads[u])
    requires forall i :: i in s.slots && (u in s.slots[i].users || s.slots[i].dropper == Some(u)) ==>
               i in s'.slots && s'.slots[i] == s.slots[i]
    ensures PcSound(s', u, s.threads[u])
  {
  }

  lemma OwnSlotKeeps(s: Limiter, e: Event)
    requires Enabled(s, e) && TouchesSlot(e) && (e.t in s.threads ==> PcSound(s, e.t, s.threads[e.t]))
    requires SlotSound(s, SlotOf(s, e), s.slots[SlotOf(s, e)])
    ensures var i := SlotOf(s, e); i in Step(s, e).slots && SlotSound(Step(s, e), i, Step(s, e).slots[i])
  {
  }

  lemma SlotStays(s: Limiter, s': Limiter, i: nat, t: nat)
    requires i in s.slots && SlotSound(s, i, s.slots[i]) && i !in s'.ended && s.next <= s'.next
    requires forall u :: u != t && u in s.threads ==> u in s'.threads && s'.threads[u] == s.threads[u]
    requires t !in s.slots[i].users && s.slots[i].dropper != Some(t)
    ensures SlotSound(s', i, s.slots[i])
  {
  }

  lemma ThreadsKept(s: Limiter, e: Event)
    requires Inv(s) && Enabled(s, e)
    ensures forall t :: t in Step(s, e).threads ==> PcSound(Step(s, e), t, Step(s, e).threads[t])
  {
    var s' := Step(s, e);
    Elsewhere(s, e);
    forall t | t in s'.threads ensures PcSound(s', t, s'.threads[t]) {
      if t == e.t {
        MoverKeeps(s, e);
      } else {
        BystanderKeeps(s, e, t);
      }
    }
  }

  /** Slots other than `own` are untouched, and `t`, the thread that moved, has no part in
      them. */
  lemma RestKept(s: Limiter, s': Limiter, t: nat, own: Option<nat>)
    requires forall i :: i in s.slots ==> SlotSound(s, i, s.slots[i])
    requires forall u :: u != t && u in s.threads ==> u in s'.threads && s'.threads[u] == s.threads[u]
    requires s.next <= s'.next && forall i :: i in s'.ended ==> i in s.ended || i !in s'.slots
    requires forall i :: i in s'.slots && Some(i) != own ==>
               i in s.slots && s'.slots[i] == s.slots[i] && t !in s.slots[i].users && s.slots[i].dropper != Some(t)
    ensures forall i :: i in s'.slots && Some(i) != own ==> SlotSound(s', i, s'.slots[i])
  {
    forall i | i in s'.slots && Some(i) != own ensures SlotSound(s', i, s'.slots[i]) {
      SlotStays(s, s', i, t);
    }
  }

  predicate WorksOn(pc: Pc, i: nat) {
    pc in {SwapFlag(i), LowerUnauth(i), DropSwap(i), DropUnauth(i), DropTotal(i)}
  }

  lemma NotElsewhere(s: Limiter, t: nat, own: Option<nat>)
    requires forall i :: i in s.slots ==> SlotSound(s, i, s.slots[i])
    requires t in s.threads ==> forall i :: i in s.slots && WorksOn(s.threads[t], i) ==> own == Some(i)
    ensures forall i :: i in s.slots && Some(i) != own ==> t !in s.slots[i].users && s.slots[i].dropper != Some(t)
  {
    forall i | i in s.slots && Some(i) != own ensures t !in s.slots[i].users && s.slots[i].dropper != Some(t) {
      assert SlotSound(s, i, s.slots[i]);
    }
  }

  lemma SlotReplaced(s: Limiter, s': Limiter, t: nat, i: nat)
    requires forall j :: j in s.slots ==> SlotSound(s, j, s.slots[j])
    requires t in s.threads ==> forall j :: j in s.slots && WorksOn(s.threads[t], j) ==> j == i
    requires forall u :: u != t && u in s.threads ==> u in s'.threads && s'.threads[u] == s.threads[u]
    requires s'.next == s.next && s'.ended == s.ended
    requires i in s'.slots && s'.slots == s.slots[i := s'.slots[i]] && SlotSound(s', i, s'.slots[i])
    ensures forall j :: j in s'.slots ==> SlotSound(s', j, s'.slots[j])
  {
    NotElsewhere(s, t, Some(i));
    RestKept(s, s', t, Some(i));
  }

  lemma TouchedKept(s: Limiter, e: Event)
    requires Inv(s) && Enabled(s, e) && TouchesSlot(e)
    ensures forall i :: i in Step(s, e).slots ==> SlotSound(Step(s, e), i, Step(s, e).slots[i])
  {
    SlotStep(s, e);
    OwnSlotKeeps(s, e);
    Elsewhere(s, e);
    ElsewhereIds(s, e);
    SlotReplaced(s, Step(s, e), e.t, SlotOf(s, e));
  }

  lemma UntouchedKept(s: Limiter, e: Event)
    requires Inv(s) && Enabled(s, e) && !TouchesSlot(e) && !e.WinUnauth? && !e.Finish?
    ensures forall i :: i in Step(s, e).slots ==> SlotSound(Step(s, e), i, Step(s, e).slots[i])
  {
    Elsewhere(s, e);
    ElsewhereIds(s, e);
    NotElsewhere(s, e.t, None);
    RestKept(s, Step(s, e), e.t, None);
  }

  lemma SlotAdded(s: Limiter, s': Limiter, t: nat)
    requires forall i :: i in s.slots ==> SlotSound(s, i, s.slots[i])
    requires t in s.threads && s.threads[t].CasUnauth? && s.next !in s.ended
    requires s' == s.(unauth := s'.unauth, threads := s.threads - {t}, next := s.next + 1,
                      slots := s.slots[s.next := Slot(Counted, {}, None, 0)])
    ensures forall i :: i in s'.slots ==> SlotSound(s', i, s'.slots[i])
  {
    NotElsewhere(s, t, None);
    RestKept(s, s', t, Some(s.next));
  }

  lemma CreatedKept(s: Limiter, t: nat)
    requires Inv(s) && Enabled(s, WinUnauth(t))
    ensures forall i :: i in Step(s, WinUnauth(t)).slots ==>
        SlotSound(Step(s, WinUnauth(t)), i, Step(s, WinUnauth(t)).slots[i])
  {
    SlotAdded(s, Step(s, WinUnauth(t)), t);
  }

  lemma GoneKept(s: Limiter, t: nat)
    requires Inv(s) && Enabled(s, Finish(t))
    ensures forall i :: i in Step(s, Finish(t)).slots ==> SlotSound(Step(s, Finish(t)), i, Step(s, Finish(t)).slots[i])
  {
    NotElsewhere(s, t, Some(s.threads[t].slot));
    RestKept(s, Step(s, Finish(t)), t, Some(s.threads[t].slot));
  }

  lemma AllSlotsKept(s: Limiter, e: Event)
    requires Inv(s) && Enabled(s, e)
    ensures forall i :: i in Step(s, e).slots ==> SlotSound(Step(s, e), i, Step(s, e).slots[i])
  {
    if TouchesSlot(e) {
      TouchedKept(s, e);
    } else if e.WinUnauth? {
      CreatedKept(s, e.t);
    } else if e.Finish? {
      GoneKept(s, e.t);
    } else {
      UntouchedKept(s, e);
    }
  }

  lemma EndedKept(s: Limiter, e: Event)
    requires Inv(s) && Enabled(s, e)
    ensures Step(s, e).caps == s.caps
    ensures forall i :: i in Step(s, e).ended ==> i < Step(s, e).next && Step(s, e).ended[i] == 1
  {
    ElsewhereIds(s, e);
    if e.Finish? {
      assert PcSound(s, e.t, s.threads[e.t]) && SlotSound(s, s.threads[e.t].slot, s.slots[s.threads[e.t].slot]);
    }
  }

  lemma StepKeeps(s: Limiter, e: Event)
    requires Inv(s) && Enabled(s, e)
    ensures Inv(Step(s, e)) && Step(s, e).caps == s.caps
  {
    CountsKept(s, e);
    ThreadsKept(s, e);
    AllSlotsKept(s, e);
    EndedKept(s, e);
  }

  lemma {:induction false} RunKeeps(s: Limiter, es: seq<Event>, s': Limiter)
    requires Inv(s) && Runs(s, es, s')
    ensures Inv(s') && s'.caps == s.caps
    decreases es
  {
    if es != [] {
      StepKeeps(s, es[0]);
      RunKeeps(Step(s, es[0]), es[1..], s');
    }
  }

  lemma ReachableInv(caps: Caps, s: Limiter)
    requires Reachable(caps, s)
    ensures Inv(s) && s.caps == caps
  {
    var es :| Runs(New(caps), es, s);
    RunKeeps(New(caps), es, s);
  }

  // ---- theorems ----------------------------------------------------------------------

  /** Both counters stay within their caps, never go below zero, and the unauthenticated
      count never exceeds the total. */
  lemma CountersBounded(caps: Caps, s: Limiter)
    requires Reachable(caps, s)
    ensures 0 <= s.unauth <= s.total <= caps.maxConnections && s.unauth <= caps.maxUnauthenticated
  {
    ReachableInv(caps, s);
    SubsetCount(InBucket(s.slots), s.slots.Keys);
  }

  /** Every decrement finds a positive counter. */
  lemma NoUnderflow(caps: Caps, s: Limiter, e: Event)
    requires Reachable(caps, s) && Enabled(s, e)
    ensures e.Lower? ==> s.unauth >= 1
    ensures e.RollBack? || e.Finish? ==> s.total >= 1
  {
    ReachableInv(caps, s);
    UnitHeld(s, e);
  }

  /** The unit a decrement takes away is accounted for. */
  lemma UnitHeld(s: Limiter, e: Event)
    requires Inv(s) && Enabled(s, e)
    ensures e.Lower? ==> s.unauth >= 1
    ensures e.RollBack? || e.Finish? ==> s.total >= 1
  {
    if e.Lower? || e.RollBack? || e.Finish? {
      assert PcSound(s, e.t, s.threads[e.t]);
      if e.Lower? {
        assert s.threads[e.t].slot in InBucket(s.slots);
      } else if e.RollBack? {
        assert e.t in Holding(s.threads);
      } else {
        assert s.threads[e.t].slot in s.slots.Keys;
      }
    }
  }

  /** A slot lowers the unauthenticated counter at most once while it lives, and exactly
      once by the time it is gone. */
  lemma LeavesBucketOnce(caps: Caps, s: Limiter, i: nat)
    requires Reachable(caps, s)
    ensures i in s.slots ==> s.slots[i].releases <= 1 && (s.slots[i].releases == 1 <==> s.slots[i].bucket.Left?)
    ensures i in s.ended ==> s.ended[i] == 1
  {
    ReachableInv(caps, s);
    if i in s.slots {
      assert SlotSound(s, i, s.slots[i]);
    }
  }

  /** When no call is in progress the counters are exactly the live slots, and those of them
      that have not authenticated. */
  lemma Quiescence(caps: Caps, s: Limiter)
    requires Reachable(caps, s) && s.threads == map[]
    ensures s.total == |s.slots.Keys|
    ensures s.unauth == |set i | i in s.slots && s.slots[i].bucket.Counted?|
  {
    ReachableInv(caps, s);
    forall i | i in s.slots ensures !s.slots[i].bucket.Leaving? {
      assert SlotSound(s, i, s.slots[i]);
    }
    assert InBucket(s.slots) == set i | i in s.slots && s.slots[i].bucket.Counted?;
  }

  lemma Prepend(s: Limiter, e: Event, es: seq<Event>, s': Limiter)
    requires Enabled(s, e) && Runs(Step(s, e), es, s')
    ensures Runs(s, [e] + es, s')
  {
    assert ([e] + es)[1..] == es;
  }

  lemma {:induction false} RunsOn(s: Limiter, es: seq<Event>, s': Limiter, e: Event)
    requires Runs(s, es, s') && Enabled(s', e)
    ensures Runs(s, es + [e], Step(s', e))
    decreases es
  {
    if es == [] {
      assert Runs(Step(s, e), [], Step(s, e)) && [e][1..] == [] && es + [e] == [e];
    } else {
      RunsOn(Step(s, es[0]), es[1..], s', e);
      assert (es + [e])[1..] == es[1..] + [e];
    }
  }

  lemma EntersBucket(s: Limiter, t: nat) returns (es: seq<Event>, s': Limiter)
    requires t in s.threads && s.threads[t] == LoadUnauth && s.unauth < s.caps.maxUnauthenticated
    ensures Runs(s, es, s')
    ensures s' == s.(threads := s.threads - {t}, unauth := s.unauth + 1, next := s.next + 1,
                     slots := s.slots[s.next := Slot(Counted, {}, None, 0)])
  {
    var s1 := Step(s, Load(t));
    s' := Step(s1, WinUnauth(t));
    assert s'.threads == s.threads - {t};
    assert Runs(s', [], s');
    Prepend(s1, WinUnauth(t), [], s');
    Prepend(s, Load(t), [WinUnauth(t)] + [], s');
    es := [Load(t)] + ([WinUnauth(t)] + []);
  }

  /** Below both caps an undisturbed call is admitted: it adds one to each counter and one
      live, unauthenticated slot. */
  lemma UncontendedAdmit(s: Limiter, t: nat) returns (es: seq<Event>, s': Limiter)
    requires t !in s.threads && s.total < s.caps.maxConnections && s.unauth < s.caps.maxUnauthenticated
    ensures Runs(s, es, s')
    ensures s' == s.(total := s.total + 1, unauth := s.unauth + 1, next := s.next + 1,
                     slots := s.slots[s.next := Slot(Counted, {}, None, 0)])
  {
    var s1 := Step(s, Admit(t));
    var s2 := Step(s1, Load(t));
    var s3 := Step(s2, WinTotal(t));
    assert s3 == s.(total := s.total + 1, threads := s.threads[t := LoadUnauth]);
    var rest, end := EntersBucket(s3, t);
    assert end.threads == s.threads;
    Prepend(s2, WinTotal(t), rest, end);
    Prepend(s1, Load(t), [WinTotal(t)] + rest, end);
    Prepend(s, Admit(t), [Load(t)] + ([WinTotal(t)] + rest), end);
    es, s' := [Admit(t)] + ([Load(t)] + ([WinTotal(t)] + rest)), end;
  }

  // ---- leaving the bucket ------------------------------------------------------------

  /** Thread `t` is inside `authenticated` for slot `i`. */
  predicate Inside(s: Limiter, t: nat, i: nat) {
    t in s.threads && (s.threads[t] == SwapFlag(i) || s.threads[t] == LowerUnauth(i))
  }

  /** Slot `i` exists no more, or its flag has been swapped. */
  predicate OutOfBucket(s: Limiter, i: nat) {
    i < s.next && (i in s.slots ==> !s.slots[i].bucket.Counted?)
  }

  lemma OutStays(s: Limiter, e: Event, i: nat)
    requires Enabled(s, e) && OutOfBucket(s, i)
    ensures OutOfBucket(Step(s, e), i)
  {
  }

  lemma {:induction false} OutForGood(s: Limiter, es: seq<Event>, s': Limiter, i: nat)
    requires OutOfBucket(s, i) && Runs(s, es, s')
    ensures OutOfBucket(s', i)
    decreases es
  {
    if es != [] {
      OutStays(s, es[0], i);
      OutForGood(Step(s, es[0]), es[1..], s', i);
    }
  }

  /** A call of `authenticated` that has not swapped the flag is still in progress. */
  lemma InsideOrOut(s: Limiter, e: Event, t: nat, i: nat)
    requires Enabled(s, e) && Inside(s, t, i) && i < s.next
    ensures Inside(Step(s, e), t, i) || OutOfBucket(Step(s, e), i)
  {
  }

  lemma {:induction false} CallSwapsFlag(s: Limiter, es: seq<Event>, s': Limiter, t: nat, i: nat)
    requires Inside(s, t, i) && i < s.next && Runs(s, es, s')
    ensures Inside(s', t, i) || OutOfBucket(s', i)
    decreases es
  {
    if es != [] {
      InsideOrOut(s, es[0], t, i);
      if OutOfBucket(Step(s, es[0]), i) {
        OutForGood(Step(s, es[0]), es[1..], s', i);
      } else {
        CallSwapsFlag(Step(s, es[0]), es[1..], s', t, i);
      }
    }
  }

  /** Over every run: once a thread that began `authenticated` has left it, its slot, if it
      still lives, is out of the unauthenticated bucket, then and in every continuation. */
  lemma AuthenticatedLeavesBucket(caps: Caps, s: Limiter, t: nat, i: nat, es: seq<Event>, m: Limiter,
                                  more: seq<Event>, s': Limiter)
    requires Reachable(caps, s) && Enabled(s, Authenticated(t, i))
    requires Runs(Step(s, Authenticated(t, i)), es, m) && !Inside(m, t, i) && Runs(m, more, s')
    ensures i in s'.slots ==> !s'.slots[i].bucket.Counted?
  {
    ReachableInv(caps, s);
    assert SlotSound(s, i, s.slots[i]);
    CallSwapsFlag(Step(s, Authenticated(t, i)), es, m, t, i);
    OutForGood(m, more, s', i);
  }

  lemma SwapsAndLowers(s: Limiter, t: nat, i: nat) returns (es: seq<Event>, s': Limiter)
    requires t in s.threads && s.threads[t] == SwapFlag(i) && i in s.slots && s.slots[i].bucket.Counted?
    ensures Runs(s, es, s')
    ensures s' == s.(threads := s.threads - {t}, unauth := s.unauth - 1,
                     slots := s.slots[i := Slot(Left, s.slots[i].users - {t}, s.slots[i].dropper,
                                                s.slots[i].releases + 1)])
  {
    var s1 := Step(s, Swap(t));
    s' := Step(s1, Lower(t));
    assert s'.threads == s.threads - {t};
    assert Runs(s', [], s');
    Prepend(s1, Lower(t), [], s');
    Prepend(s, Swap(t), [Lower(t)] + [], s');
    es := [Swap(t)] + ([Lower(t)] + []);
  }

  /** What a reachable state says of a slot no destructor runs on. */
  lemma LiveSlot(caps: Caps, s: Limiter, t: nat, i: nat)
    requires Reachable(caps, s) && t !in s.threads && i in s.slots && s.slots[i].dropper.None?
    ensures t !in s.slots[i].users && s.slots[i].releases == if s.slots[i].bucket.Left? then 1 else 0
    ensures s.slots[i].users == {} ==> !s.slots[i].bucket.Leaving?
  {
    ReachableInv(caps, s);
    assert SlotSound(s, i, s.slots[i]);
  }

  lemma FirstLogin(s: Limiter, t: nat, i: nat) returns (es: seq<Event>, s': Limiter)
    requires Enabled(s, Authenticated(t, i)) && s.slots[i].bucket.Counted? && t !in s.slots[i].users
    ensures Runs(s, [Authenticated(t, i)] + es, s')
    ensures s' == s.(unauth := s.unauth - 1,
                     slots := s.slots[i := Slot(Left, s.slots[i].users, None, s.slots[i].releases + 1)])
  {
    var s1 := Step(s, Authenticated(t, i));
    es, s' := SwapsAndLowers(s1, t, i);
    assert s.slots[i].users + {t} - {t} == s.slots[i].users;
    assert s1.threads - {t} == s.threads;
    Prepend(s, Authenticated(t, i), es, s');
  }

  lemma LaterLogin(s: Limiter, t: nat, i: nat)
    requires Enabled(s, Authenticated(t, i)) && !s.slots[i].bucket.Counted? && t !in s.slots[i].users
    ensures Runs(s, [Authenticated(t, i)] + ([Swap(t)] + []), s)
  {
    var s1 := Step(s, Authenticated(t, i));
    var s2 := Step(s1, Swap(t));
    assert s.slots[i].users + {t} - {t} == s.slots[i].users;
    assert s2.threads == s.threads && s2.slots == s.slots;
    Prepend(s1, Swap(t), [], s);
    Prepend(s, Authenticated(t, i), [Swap(t)] + [], s);
  }

  /** An undisturbed call on a counted slot takes one off the unauthenticated counter, moves
      the slot out of the bucket and touches nothing else; on any other slot it changes
      nothing at all. */
  lemma UncontendedLogin(caps: Caps, s: Limiter, t: nat, i: nat) returns (es: seq<Event>, s': Limiter)
    requires Reachable(caps, s) && Enabled(s, Authenticated(t, i))
    ensures Runs(s, [Authenticated(t, i)] + es, s')
    ensures s' == if s.slots[i].bucket.Counted?
                  then s.(unauth := s.unauth - 1,
                          slots := s.slots[i := Slot(Left, s.slots[i].users, None, 1)])
                  else s
  {
    LiveSlot(caps, s, t, i);
    if s.slots[i].bucket.Counted? {
      es, s' := FirstLogin(s, t, i);
    } else {
      LaterLogin(s, t, i);
      es, s' := [Swap(t)] + [], s;
    }
  }

  lemma LowersInDrop(s: Limiter, t: nat, i: nat) returns (es: seq<Event>, s': Limiter)
    requires t in s.threads && s.threads[t] == DropSwap(i) && i in s.slots
    ensures Runs(s, es, s') && t in s'.threads && s'.threads == s.threads[t := DropTotal(i)] && i in s'.slots
    ensures s' == s.(threads := s'.threads, unauth := s.unauth - if s.slots[i].bucket.Counted? then 1 else 0,
                     slots := s.slots[i := s'.slots[i]])
    ensures s'.slots[i].releases == s.slots[i].releases + if s.slots[i].bucket.Counted? then 1 else 0
  {
    var s1 := Step(s, Swap(t));
    if s.slots[i].bucket.Counted? {
      s' := Step(s1, Lower(t));
      assert Runs(s', [], s');
      Prepend(s1, Lower(t), [], s');
      es := [Swap(t)] + ([Lower(t)] + []);
      Prepend(s, Swap(t), [Lower(t)] + [], s');
    } else {
      s' := s1;
      assert Runs(s', [], s') && s'.slots == s.slots[i := s'.slots[i]];
      es := [Swap(t)] + [];
      Prepend(s, Swap(t), [], s');
    }
  }

  lemma Drops(s: Limiter, t: nat, i: nat) returns (es: seq<Event>, s': Limiter)
    requires Enabled(s, Drop(t, i))
    ensures Runs(s, [Drop(t, i)] + es, s')
    ensures i in s'.ended && s'.ended[i] == s.slots[i].releases + if s.slots[i].bucket.Counted? then 1 else 0
    ensures s' == s.(total := s.total - 1, unauth := s.unauth - if s.slots[i].bucket.Counted? then 1 else 0,
                     slots := s.slots - {i}, ended := s.ended[i := s'.ended[i]])
  {
    var s1 := Step(s, Drop(t, i));
    var rest, s2 := LowersInDrop(s1, t, i);
    s' := Step(s2, Finish(t));
    es := rest + [Finish(t)];
    RunsOn(s1, rest, s2, Finish(t));
    assert s'.threads == s.threads && s'.slots == s.slots - {i};
    Prepend(s, Drop(t, i), es, s');
  }

  /** An undisturbed drop of a slot takes one off the total, and one off the unauthenticated
      counter exactly if the slot had not authenticated; the slot is gone. */
  lemma UncontendedDrop(caps: Caps, s: Limiter, t: nat, i: nat) returns (es: seq<Event>, s': Limiter)
    requires Reachable(caps, s) && Enabled(s, Drop(t, i))
    ensures Runs(s, [Drop(t, i)] + es, s')
    ensures s' == s.(total := s.total - 1, unauth := s.unauth - if s.slots[i].bucket.Counted? then 1 else 0,
                     slots := s.slots - {i}, ended := s.ended[i := 1])
  {
    LiveSlot(caps, s, t, i);
    es, s' := Drops(s, t, i);
  }

  // ---- refusals ----------------------------------------------------------------------

  function CounterOf(s: Limiter, unauthenticated: bool): int {
    if unauthenticated then s.unauth else s.total
  }

  /** The value thread `t` holds for its next compare-and-swap on a counter. */
  predicate Observed(s: Limiter, t: nat, unauthenticated: bool, v: int) {
    t in s.threads && s.threads[t] == if unauthenticated then CasUnauth(v) else CasTotal(v)
  }

  /** In some state of the run, with `t` inside its call, the counter stood at `v`. */
  ghost predicate StoodAt(s: Limiter, es: seq<Event>, t: nat, unauthenticated: bool, v: int)
    decreases es
  {
    || (t in s.threads && CounterOf(s, unauthenticated) == v)
    || (es != [] && Enabled(s, es[0]) && StoodAt(Step(s, es[0]), es[1..], t, unauthenticated, v))
  }

  /** A value is observed only while the counter stands at it. */
  lemma ObservedNow(s: Limiter, e: Event, t: nat, unauthenticated: bool, v: int)
    requires Enabled(s, e) && Observed(Step(s, e), t, unauthenticated, v)
    ensures Observed(s, t, unauthenticated, v) || CounterOf(Step(s, e), unauthenticated) == v
  {
  }

  lemma {:induction false} ObservedStood(s: Limiter, es: seq<Event>, s': Limiter, t: nat, unauthenticated: bool, v: int)
    requires Runs(s, es, s') && Observed(s', t, unauthenticated, v)
    ensures Observed(s, t, unauthenticated, v) || StoodAt(s, es, t, unauthenticated, v)
    decreases es
  {
    if es != [] {
      ObservedStood(Step(s, es[0]), es[1..], s', t, unauthenticated, v);
      if Observed(Step(s, es[0]), t, unauthenticated, v) {
        ObservedNow(s, es[0], t, unauthenticated, v);
      }
    }
  }

  lemma {:induction false} StoodWithin(s: Limiter, es: seq<Event>, s': Limiter, t: nat, unauthenticated: bool, v: int)
    requires Inv(s) && Runs(s, es, s') && StoodAt(s, es, t, unauthenticated, v)
    ensures v <= CapOf(s.caps, unauthenticated)
    decreases es
  {
    if !(t in s.threads && CounterOf(s, unauthenticated) == v) {
      StepKeeps(s, es[0]);
      StoodWithin(Step(s, es[0]), es[1..], s', t, unauthenticated, v);
    }
  }

  function CapOf(caps: Caps, unauthenticated: bool): nat {
    if unauthenticated then caps.maxUnauthenticated else caps.maxConnections
  }

  lemma RefusalObserved(s: Limiter, t: nat) returns (unauthenticated: bool, v: int)
    requires Enabled(s, Refuse(t))
    ensures Observed(s, t, unauthenticated, v) && v >= CapOf(s.caps, unauthenticated)
    ensures unauthenticated == s.threads[t].CasUnauth?
  {
    unauthenticated, v := s.threads[t].CasUnauth?, s.threads[t].current;
  }

  lemma AtCapDuringCall(s: Limiter, es: seq<Event>, s': Limiter, t: nat, unauthenticated: bool, v: int)
    requires Inv(s) && t !in s.threads && Runs(s, es, s')
    requires Observed(s', t, unauthenticated, v) && v >= CapOf(s.caps, unauthenticated)
    ensures StoodAt(s, es, t, unauthenticated, CapOf(s.caps, unauthenticated))
  {
    ObservedStood(s, es, s', t, unauthenticated, v);
    StoodWithin(s, es, s', t, unauthenticated, v);
  }

  /** A call is refused only if one of the counters stood exactly at its cap during that very
      call: `s` is any reachable state before the call, `s'` the state of the refusal. */
  lemma RefusedOnlyAtCap(caps: Caps, s: Limiter, es: seq<Event>, s': Limiter, t: nat)
    requires Reachable(caps, s) && t !in s.threads && Runs(s, es, s') && Enabled(s', Refuse(t))
    ensures StoodAt(s, es, t, s'.threads[t].CasUnauth?, CapOf(caps, s'.threads[t].CasUnauth?))
  {
    ReachableInv(caps, s);
    RunKeeps(s, es, s');
    var unauthenticated, v := RefusalObserved(s', t);
    AtCapDuringCall(s, es, s', t, unauthenticated, v);
  }

  // ---- how a call of `admit` ends ------------------------------------------------------

  /** After a load and after a failed exchange the value held for the next one is the one the
      counter has: an undisturbed retry wins, or is refused at the cap. */
  lemma RetrySeesCounter(s: Limiter, e: Event)
    requires Enabled(s, e) && (e.Load? || e.CasFails?)
    ensures var s' := Step(s, e);
            var u := s.threads[e.t].LoadUnauth? || s.threads[e.t].CasUnauth?;
            && Observed(s', e.t, u, CounterOf(s', u))
            && (if CounterOf(s', u) < CapOf(s.caps, u)
                then Enabled(s', if u then WinUnauth(e.t) else WinTotal(e.t)) else Enabled(s', Refuse(e.t)))
  {
  }

  predicate Asking(pc: Pc) {
    pc.LoadTotal? || pc.CasTotal? || pc.LoadUnauth? || pc.CasUnauth?
  }

  /** The run is what is left of thread `t`'s call: in progress until the last step. */
  ghost predicate CallOn(s: Limiter, es: seq<Event>, t: nat)
    decreases es
  {
    && es != [] && Enabled(s, es[0]) && t in s.threads
    && if |es| == 1 then t !in Step(s, es[0]).threads else CallOn(Step(s, es[0]), es[1..], t)
  }

  /** The step gives thread `t` a slot: one more live slot, counted in both counters. */
  predicate Admits(s: Limiter, e: Event, t: nat)
    requires Enabled(s, e)
  {
    e == WinUnauth(t) && Step(s, e).slots.Keys == s.slots.Keys + {s.next}
  }

  ghost predicate AdmittedOn(s: Limiter, es: seq<Event>, t: nat)
    decreases es
  {
    es != [] && Enabled(s, es[0]) && (Admits(s, es[0], t) || AdmittedOn(Step(s, es[0]), es[1..], t))
  }

  lemma AskingStep(s: Limiter, e: Event, t: nat)
    requires Enabled(s, e) && t in s.threads && Asking(s.threads[t])
    ensures var s' := Step(s, e);
            if e == Refuse(t) then t in s'.threads ==> s'.threads[t].Rollback?
            else if t in s'.threads then Asking(s'.threads[t]) && !Admits(s, e, t)
            else Admits(s, e, t)
  {
  }

  lemma RollbackStep(s: Limiter, e: Event, t: nat)
    requires Enabled(s, e) && t in s.threads && s.threads[t].Rollback?
    ensures e != WinUnauth(t)
    ensures t in Step(s, e).threads ==> Step(s, e).threads[t].Rollback?
  {
  }

  lemma {:induction false} RefusedIsNotAdmitted(s: Limiter, es: seq<Event>, t: nat)
    requires CallOn(s, es, t) && s.threads[t].Rollback?
    ensures !AdmittedOn(s, es, t)
    decreases es
  {
    RollbackStep(s, es[0], t);
    if |es| > 1 {
      RefusedIsNotAdmitted(Step(s, es[0]), es[1..], t);
    }
  }

  /** A call of `admit` that has ended gave its caller a slot if and only if it never was
      refused: spurious failures and lost races only make it try again. */
  lemma {:induction false} AdmittedIffNotRefused(s: Limiter, es: seq<Event>, t: nat)
    requires CallOn(s, es, t) && Asking(s.threads[t])
    ensures AdmittedOn(s, es, t) <==> Refuse(t) !in es
    decreases es
  {
    var e, rest := es[0], es[1..];
    AskingStep(s, e, t);
    assert Refuse(t) in es <==> e == Refuse(t) || Refuse(t) in rest;
    if |es| > 1 {
      if e == Refuse(t) {
        RefusedIsNotAdmitted(Step(s, e), rest, t);
      } else {
        AdmittedIffNotRefused(Step(s, e), rest, t);
      }
    }
  }

  /** One attempt as the acquisition loop sees it: the value other threads have left in the
      counter by then, and whether the weak exchange fails spuriously. */
  datatype Attempt = Attempt(value: nat, spurious: bool)

  /** The counter, with the bounded acquisition loop over it. */
  class Counter {
    var value: nat

    /** The weak compare-and-swap. */
    method CompareExchange(current: nat, next: nat, spurious: bool) returns (swapped: bool, seen: nat)
      modifies this
      ensures swapped <==> old(value) == current && !spurious
      ensures seen == old(value) && value == if swapped then next else old(value)
    {
      seen := value;
      swapped := value == current && !spurious;
      if swapped {
        value := next;
      }
    }

    /** Raise the counter by one unless it is at its limit. Before each attempt the other
        threads leave the counter as `others` says; when they have had their say it is left
        alone. A grant is one successful swap from a value below the limit; a refusal leaves
        the counter alone and has seen it at the limit or above. */
    method TryAcquire(limit: nat, others: seq<Attempt>) returns (granted: bool, turns: nat, seen: nat)
      modifies this
      ensures turns <= |others|
      ensures var left := if turns == 0 then old(value) else others[turns - 1].value;
        if granted then left < limit && value == left + 1 else value == left
      ensures !granted ==> limit <= seen
      ensures seen == old(value) || exists i :: 0 <= i < turns && others[i].value == seen
    {
      var current := value;
      seen, turns := value, 0;
      while true
        invariant turns <= |others|
        invariant value == if turns == 0 then old(value) else others[turns - 1].value
        invariant seen == current
        invariant seen == old(value) || exists i :: 0 <= i < turns && others[i].value == seen
        decreases |others| - turns, if current == value then 0 else 1
      {
        if current >= limit {
          granted := false;
          return;
        }
        var spurious := false;
        if turns < |others| {
          value := others[turns].value;
          spurious := others[turns].spurious;
          turns := turns + 1;
        }
        var swapped, now := CompareExchange(current, current + 1, spurious);
        if swapped {
          granted := true;
          return;
        }
        current := now;
        seen := now;
      }
    }
  }
}
