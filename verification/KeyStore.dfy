/**
 The live key store (crates/shbox/src/auth.rs): a cached snapshot, the identities of the
 two files it was built from, and a forced-revalidation flag.

 A file is the sequence of its versions; `hostId` and `allowedId` give the on-disk
 identity of each version. Any number of requests run `refresh_if_changed` and then read
 the snapshot, while the files change and SIGHUP invalidates at any moment. Every
 observation, lock-held comparison and file read is a step of its own.

 `idVersions`, `last`, the counters and the `start` of a request are auxiliary.
 */
module KeyStores {
  import opened Options

  datatype Versions = Versions(host: nat, allowed: nat)

  predicate AtLeast(v: Versions, w: Versions) {
    v.host >= w.host && v.allowed >= w.allowed
  }

  datatype Identities = Identities(host: nat, allowed: nat)

  /** What an identity looks like, version by version. */
  datatype Disk = Disk(hostId: nat -> nat, allowedId: nat -> nat) {
    function Ids(v: Versions): Identities {
      Identities(hostId(v.host), allowedId(v.allowed))
    }
  }

  datatype Start = Start(files: Versions, invalidations: nat)

  datatype Request =
    | ObserveHost(start: Start)
    | ObserveAllowed(start: Start, host: nat)
    | CheckFlag(start: Start, seen: Versions)
    | Compare(start: Start, seen: Versions)
    | AwaitWrite(start: Start)
    | ReobserveHost(start: Start)
    | ReobserveAllowed(start: Start, host: nat)
    | Decide(start: Start, seen: Versions)
    | LoadHost(start: Start, seen: Versions, forced: bool)
    | LoadAllowed(start: Start, seen: Versions, forced: bool, hostRead: nat)
    | ReadSnapshot(start: Start)
    | Answered(start: Start, got: Versions, latest: Load)

  /** A finished load: the versions of the files it stands for, whether it was accepted, and
      the invalidations it came after. An accepted load stands for the versions it read. A
      load refused at the host file never opens the other one and stands for the files as
      they were when it was refused. */
  datatype Load = Load(read: Versions, accepted: bool, invalidations: nat)

  datatype Store = Store(files: Versions, snapshot: Versions, identities: Identities, revalidate: bool,
                         writer: Option<nat>, requests: map<nat, Request>,
                         idVersions: Versions, last: Load, begun: nat,
                         loads: nat, changes: nat, invalidations: nat, base: nat)

  datatype Event =
    | Change(hostFile: bool)
    | Invalidate
    | Begin(t: nat)
    | Observe(t: nat)
    | Check(t: nat)
    | FastCompare(t: nat)
    | Acquire(t: nat)
    | Choose(t: nat)
    | ReadFile(t: nat, ok: bool)
    | Answer(t: nat)

  /** The store as boot leaves it: a load of `loaded`, identities observed at `observed`. */
  function Boot(disk: Disk, loaded: Versions, observed: Versions): Store {
    Store(observed, loaded, disk.Ids(observed), false, None, map[], observed, Load(loaded, true, 0), 0, 1, 0, 0,
          observed.host + observed.allowed)
  }

  predicate InWrite(r: Request) {
    r.ReobserveHost? || r.ReobserveAllowed? || r.Decide? || r.LoadHost? || r.LoadAllowed?
  }

  predicate Enabled(s: Store, e: Event) {
    match e
    case Change(_) => true
    case Invalidate => true
    case Begin(t) => t !in s.requests
    case Observe(t) =>
      t in s.requests && (s.requests[t].ObserveHost? || s.requests[t].ObserveAllowed?
                          || s.requests[t].ReobserveHost? || s.requests[t].ReobserveAllowed?)
    case Check(t) => t in s.requests && s.requests[t].CheckFlag?
    case FastCompare(t) => t in s.requests && s.requests[t].Compare? && s.writer.None?
    case Acquire(t) => t in s.requests && s.requests[t].AwaitWrite? && s.writer.None?
    case Choose(t) => t in s.requests && s.requests[t].Decide?
    case ReadFile(t, _) => t in s.requests && (s.requests[t].LoadHost? || s.requests[t].LoadAllowed?)
    case Answer(t) => t in s.requests && s.requests[t].ReadSnapshot? && s.writer.None?
  }

  function At(s: Store, t: nat, r: Request): Store {
    s.(requests := s.requests[t := r])
  }

  function ObserveStep(s: Store, t: nat): Store
    requires Enabled(s, Observe(t))
  {
    match s.requests[t]
    case ObserveHost(start) => At(s, t, ObserveAllowed(start, s.files.host))
    case ObserveAllowed(start, host) => At(s, t, CheckFlag(start, Versions(host, s.files.allowed)))
    case ReobserveHost(start) => At(s, t, ReobserveAllowed(start, s.files.host))
    case ReobserveAllowed(start, host) => At(s, t, Decide(start, Versions(host, s.files.allowed)))
  }

  /** Under the write guard: consume the flag, and load unless the identities still match. */
  function ChooseStep(disk: Disk, s: Store, t: nat): Store
    requires Enabled(s, Choose(t))
  {
    var Decide(start, seen) := s.requests[t];
    var forced := s.revalidate;
    if !forced && s.identities == disk.Ids(seen) then
      At(s.(writer := None), t, ReadSnapshot(start))
    else
      At(s.(revalidate := false, loads := s.loads + 1, begun := s.invalidations), t, LoadHost(start, seen, forced))
  }

  /** The load ends: adopt the observed identities, publish only an accepted snapshot. */
  function FinishLoad(disk: Disk, s: Store, t: nat, start: Start, seen: Versions, read: Versions,
                      accepted: bool): Store {
    At(s.(snapshot := if accepted then read else s.snapshot, identities := disk.Ids(seen), idVersions := seen,
          last := Load(read, accepted, s.begun), writer := None), t, ReadSnapshot(start))
  }

  function Step(disk: Disk, s: Store, e: Event): Store
    requires Enabled(s, e)
  {
    match e
    case Change(hostFile) =>
      s.(files := if hostFile then s.files.(host := s.files.host + 1) else s.files.(allowed := s.files.allowed + 1),
         changes := s.changes + 1)
    case Invalidate => s.(revalidate := true, invalidations := s.invalidations + 1)
    case Begin(t) => At(s, t, ObserveHost(Start(s.files, s.invalidations)))
    case Observe(t) => ObserveStep(s, t)
    case Check(t) =>
      var CheckFlag(start, seen) := s.requests[t];
      At(s, t, if s.revalidate then AwaitWrite(start) else Compare(start, seen))
    case FastCompare(t) =>
      var Compare(start, seen) := s.requests[t];
      At(s, t, if s.identities == disk.Ids(seen) then ReadSnapshot(start) else AwaitWrite(start))
    case Acquire(t) => At(s.(writer := Some(t)), t, ReobserveHost(s.requests[t].start))
    case Choose(t) => ChooseStep(disk, s, t)
    case ReadFile(t, ok) => (
      match s.requests[t]
      case LoadHost(start, seen, forced) =>
        if ok then At(s, t, LoadAllowed(start, seen, forced, s.files.host))
        else FinishLoad(disk, s, t, start, seen, s.files, false)
      case LoadAllowed(start, seen, _, hostRead) =>
        FinishLoad(disk, s, t, start, seen, Versions(hostRead, s.files.allowed), ok))
    case Answer(t) => At(s, t, Answered(s.requests[t].start, s.snapshot, s.last))
  }

  ghost predicate Runs(disk: Disk, s: Store, es: seq<Event>, s': Store)
    decreases |es|
  {
    if es == [] then s == s'
    else Enabled(s, es[0]) && Runs(disk, Step(disk, s, es[0]), es[1..], s')
  }

  // ---- invariant -------------------------------------------------------------------

  /** A load in progress: an unforced one answers for a version the store has not adopted. */
  predicate LoadSound(s: Store, start: Start, seen: Versions, forced: bool) {
    && AtLeast(s.files, seen) && AtLeast(seen, start.files) && AtLeast(seen, s.idVersions)
    && s.begun >= start.invalidations
    && (forced || seen.host + seen.allowed > s.idVersions.host + s.idVersions.allowed)
  }

  predicate RequestSound(s: Store, t: nat, r: Request) {
    && AtLeast(s.files, r.start.files) && r.start.invalidations <= s.invalidations
    && (InWrite(r) <==> s.writer == Some(t))
    && match r
       case ObserveAllowed(start, host) => start.files.host <= host <= s.files.host
       case CheckFlag(start, seen) => AtLeast(s.files, seen) && AtLeast(seen, start.files)
       case Compare(start, seen) => AtLeast(s.files, seen) && AtLeast(seen, start.files) &&
           s.begun >= start.invalidations
       case ReobserveAllowed(start, host) => start.files.host <= host <= s.files.host && s.idVersions.host <= host
       case Decide(start, seen) => AtLeast(s.files, seen) && AtLeast(seen, start.files) && AtLeast(seen, s.idVersions)
       case LoadHost(start, seen, forced) => LoadSound(s, start, seen, forced)
       case LoadAllowed(start, seen, forced, hostRead) =>
         LoadSound(s, start, seen, forced) && seen.host <= hostRead <= s.files.host && s.last.read.host <= hostRead
       case ReadSnapshot(start) => s.last.invalidations >= start.invalidations
       case Answered(start, got, latest) =>
         latest.invalidations >= start.invalidations && (latest.accepted ==> got == latest.read)
       case _ => true
  }

  predicate Loading(s: Store) {
    && s.writer.Some? && s.writer.value in s.requests
    && (s.requests[s.writer.value].LoadHost? || s.requests[s.writer.value].LoadAllowed?)
  }

  /** The host version a load in progress has already read. */
  function HostRead(s: Store): Option<nat> {
    if s.writer.Some? && s.writer.value in s.requests && s.requests[s.writer.value].LoadAllowed?
    then Some(s.requests[s.writer.value].hostRead) else None
  }

  /** A load in progress that no invalidation asked for. */
  function Unforced(s: Store): nat {
    if Loading(s) && !s.requests[s.writer.value].forced then 1 else 0
  }

  /** Every load is paid for by boot, by an adopted file change or by an invalidation. */
  predicate CostSound(s: Store) {
    && s.files.host + s.files.allowed == s.base + s.changes
    && s.idVersions.host + s.idVersions.allowed >= s.base
    && s.loads + (if s.revalidate then 1 else 0)
       <= 1 + (s.idVersions.host + s.idVersions.allowed - s.base) + Unforced(s) + s.invalidations
  }

  predicate StoreSound(disk: Disk, s: Store) {
    && s.identities == disk.Ids(s.idVersions)
    && AtLeast(s.files, s.idVersions)
    && AtLeast(s.files, s.last.read) && AtLeast(s.last.read, s.snapshot)
    && (s.last.accepted ==> s.snapshot == s.last.read)
    && (s.writer.Some? ==> s.writer.value in s.requests)
    && s.last.invalidations <= s.begun <= s.invalidations
    && (!s.revalidate ==> s.begun == s.invalidations)
    && (!Loading(s) ==> s.last.invalidations == s.begun)
    && CostSound(s)
  }

  ghost predicate Inv(disk: Disk, s: Store) {
    && StoreSound(disk, s)
    && forall t :: t in s.requests ==> RequestSound(s, t, s.requests[t])
  }

  lemma BootSound(disk: Disk, loaded: Versions, observed: Versions)
    requires AtLeast(observed, loaded)
    ensures Inv(disk, Boot(disk, loaded, observed))
  {
  }

  /** The request an event moves, if any. */
  function Mover(e: Event): Option<nat> {
    if e.Change? || e.Invalidate? then None else Some(e.t)
  }

  lemma QuietStoreKeeps(disk: Disk, s: Store, e: Event)
    requires StoreSound(disk, s) && Enabled(s, e) && !e.Choose? && !e.ReadFile?
    requires Mover(e).Some? && Mover(e).value in s.requests ==> RequestSound(s, e.t, s.requests[e.t])
    ensures StoreSound(disk, Step(disk, s, e))
  {
    QuietLoading(disk, s, e);
    QuietFields(disk, s, e);
  }

  lemma QuietFields(disk: Disk, s: Store, e: Event)
    requires Enabled(s, e) && !e.Choose? && !e.ReadFile?
    ensures var s' := Step(disk, s, e);
      && s'.idVersions == s.idVersions && s'.identities == s.identities && s'.last == s.last
      && s'.snapshot == s.snapshot && s'.begun == s.begun && s'.loads == s.loads && s'.base == s.base
  {
  }

  /** Steps other than choosing and reading neither begin nor end a load. */
  lemma QuietLoading(disk: Disk, s: Store, e: Event)
    requires (s.writer.Some? ==> s.writer.value in s.requests) && Enabled(s, e) && !e.Choose? && !e.ReadFile?
    requires Mover(e).Some? && Mover(e).value in s.requests ==> RequestSound(s, e.t, s.requests[e.t])
    ensures Loading(Step(disk, s, e)) == Loading(s) && Unforced(Step(disk, s, e)) == Unforced(s)
  {
  }

  lemma ChoosingStoreKeeps(disk: Disk, s: Store, t: nat)
    requires StoreSound(disk, s) && Enabled(s, Choose(t)) && RequestSound(s, t, s.requests[t])
    ensures StoreSound(disk, ChooseStep(disk, s, t))
    ensures var s' := ChooseStep(disk, s, t); t in s'.requests && RequestSound(s', t, s'.requests[t])
  {
  }

  lemma ReadingStoreKeeps(disk: Disk, s: Store, t: nat, ok: bool)
    requires StoreSound(disk, s) && Enabled(s, ReadFile(t, ok)) && RequestSound(s, t, s.requests[t])
    ensures StoreSound(disk, Step(disk, s, ReadFile(t, ok)))
  {
  }

  lemma ReaderKeeps(disk: Disk, s: Store, t: nat, ok: bool)
    requires StoreSound(disk, s) && Enabled(s, ReadFile(t, ok)) && RequestSound(s, t, s.requests[t])
    ensures var s' := Step(disk, s, ReadFile(t, ok)); t in s'.requests && RequestSound(s', t, s'.requests[t])
  {
  }

  lemma ObserverKeeps(disk: Disk, s: Store, t: nat)
    requires StoreSound(disk, s) && Enabled(s, Observe(t)) && RequestSound(s, t, s.requests[t])
    ensures var s' := ObserveStep(s, t); t in s'.requests && RequestSound(s', t, s'.requests[t])
  {
  }

  lemma MoverKeeps(disk: Disk, s: Store, e: Event)
    requires StoreSound(disk, s) && Enabled(s, e) && Mover(e).Some?
    requires e.t in s.requests ==> RequestSound(s, e.t, s.requests[e.t])
    ensures RequestSound(Step(disk, s, e), e.t, Step(disk, s, e).requests[e.t])
  {
    match e {
      case Observe(t) => ObserverKeeps(disk, s, t);
      case Choose(t) => ChoosingStoreKeeps(disk, s, t);
      case ReadFile(t, ok) => ReaderKeeps(disk, s, t, ok);
      case _ =>
    }
  }

  /** Files, invalidations and loads only move forward. */
  predicate Forward(s: Store, s': Store) {
    && AtLeast(s'.files, s.files) && s'.invalidations >= s.invalidations
    && s'.begun >= s.begun && s'.last.invalidations >= s.last.invalidations
  }

  /** What a request sees of another's step: the writer's place is its own. */
  predicate Elsewhere(s: Store, s': Store, t: nat) {
    if s.writer == Some(t)
    then s'.writer == s.writer && s'.idVersions == s.idVersions && s'.last == s.last
    else s'.writer != Some(t)
  }

  lemma MovesForward(disk: Disk, s: Store, e: Event)
    requires StoreSound(disk, s) && Enabled(s, e)
    ensures Forward(s, Step(disk, s, e))
  {
  }

  lemma StaysElsewhere(disk: Disk, s: Store, e: Event, t: nat)
    requires Enabled(s, e) && Mover(e) != Some(t)
    requires Mover(e).Some? && Mover(e).value in s.requests ==> RequestSound(s, e.t, s.requests[e.t])
    ensures Elsewhere(s, Step(disk, s, e), t)
  {
  }

  lemma RequestStays(s: Store, s': Store, t: nat, r: Request)
    requires RequestSound(s, t, r) && Forward(s, s') && Elsewhere(s, s', t)
    ensures RequestSound(s', t, r)
  {
  }

  lemma BystanderKeeps(disk: Disk, s: Store, e: Event, t: nat)
    requires StoreSound(disk, s) && Enabled(s, e) && Mover(e) != Some(t)
    requires t in s.requests && RequestSound(s, t, s.requests[t])
    requires Mover(e).Some? && Mover(e).value in s.requests ==> RequestSound(s, e.t, s.requests[e.t])
    ensures RequestSound(Step(disk, s, e), t, s.requests[t])
  {
    MovesForward(disk, s, e);
    StaysElsewhere(disk, s, e, t);
    RequestStays(s, Step(disk, s, e), t, s.requests[t]);
  }

  lemma StoreKeeps(disk: Disk, s: Store, e: Event)
    requires StoreSound(disk, s) && Enabled(s, e)
    requires Mover(e).Some? && Mover(e).value in s.requests ==> RequestSound(s, e.t, s.requests[e.t])
    ensures StoreSound(disk, Step(disk, s, e))
  {
    match e {
      case Choose(t) => ChoosingStoreKeeps(disk, s, t);
      case ReadFile(t, ok) => ReadingStoreKeeps(disk, s, t, ok);
      case _ => QuietStoreKeeps(disk, s, e);
    }
  }

  lemma OthersStay(disk: Disk, s: Store, e: Event, t: nat)
    requires Enabled(s, e) && t in Step(disk, s, e).requests && Mover(e) != Some(t)
    ensures t in s.requests && Step(disk, s, e).requests[t] == s.requests[t]
  {
  }

  lemma StepKeeps(disk: Disk, s: Store, e: Event)
    requires Inv(disk, s) && Enabled(s, e)
    ensures Inv(disk, Step(disk, s, e))
  {
    StoreKeeps(disk, s, e);
    var s' := Step(disk, s, e);
    forall t | t in s'.requests ensures RequestSound(s', t, s'.requests[t]) {
      if Mover(e) == Some(t) {
        MoverKeeps(disk, s, e);
      } else {
        OthersStay(disk, s, e, t);
        BystanderKeeps(disk, s, e, t);
      }
    }
  }

  lemma {:induction false} RunKeeps(disk: Disk, s: Store, es: seq<Event>, s': Store)
    requires Inv(disk, s) && Runs(disk, s, es, s')
    ensures Inv(disk, s')
    decreases |es|
  {
    if es != [] {
      StepKeeps(disk, s, es[0]);
      RunKeeps(disk, Step(disk, s, es[0]), es[1..], s');
    }
  }

  // ---- cost, forcing, order --------------------------------------------------------

  /** Over every concurrent run the sources are loaded at most once for boot, once per file
      change and once per invalidation. */
  lemma LoadsAreBounded(disk: Disk, loaded: Versions, observed: Versions, es: seq<Event>, s: Store)
    requires AtLeast(observed, loaded) && Runs(disk, Boot(disk, loaded, observed), es, s)
    ensures s.loads <= 1 + s.changes + s.invalidations
  {
    BootSound(disk, loaded, observed);
    RunKeeps(disk, Boot(disk, loaded, observed), es, s);
    if Unforced(s) == 1 {
      assert RequestSound(s, s.writer.value, s.requests[s.writer.value]);
    }
  }

  /** A request that starts after an invalidation is answered only after a load that began
      after that invalidation has finished. */
  lemma InvalidationForcesLoad(disk: Disk, loaded: Versions, observed: Versions, es: seq<Event>, s: Store, t: nat)
    requires AtLeast(observed, loaded) && Runs(disk, Boot(disk, loaded, observed), es, s)
    requires t in s.requests && s.requests[t].Answered?
    ensures s.requests[t].latest.invalidations >= s.requests[t].start.invalidations
  {
    BootSound(disk, loaded, observed);
    RunKeeps(disk, Boot(disk, loaded, observed), es, s);
    assert RequestSound(s, t, s.requests[t]);
  }

  /** Published snapshots only move forward, and each is exactly what one accepted load read. */
  lemma SnapshotsMoveForward(disk: Disk, loaded: Versions, observed: Versions, es: seq<Event>, s: Store, e: Event)
    requires AtLeast(observed, loaded) && Runs(disk, Boot(disk, loaded, observed), es, s) && Enabled(s, e)
    ensures var s' := Step(disk, s, e);
      && AtLeast(s'.snapshot, s.snapshot)
      && (s'.snapshot != s.snapshot ==> s'.last.accepted && s'.snapshot == s'.last.read && s'.last != s.last)
  {
    BootSound(disk, loaded, observed);
    RunKeeps(disk, Boot(disk, loaded, observed), es, s);
    if e.ReadFile? {
      assert RequestSound(s, e.t, s.requests[e.t]);
    }
  }

  // ---- freshness -------------------------------------------------------------------

  /** Identities never recur: distinct versions of a file look different. */
  ghost predicate NeverRecurs(f: nat -> nat) {
    forall v: nat, w: nat :: v < w ==> f(v) != f(w)
  }

  ghost predicate Distinguishing(disk: Disk) {
    NeverRecurs(disk.hostId) && NeverRecurs(disk.allowedId)
  }

  /** The request got nothing older than its start, or the newer state was loaded and rejected. */
  predicate FreshRequest(r: Request) {
    r.Answered? ==>
      AtLeast(r.got, r.start.files) || (!r.latest.accepted && AtLeast(r.latest.read, r.start.files))
  }

  ghost predicate Fresh(s: Store) {
    forall t :: t in s.requests ==> FreshRequest(s.requests[t])
  }

  /** Every run from this boot answers every request freshly. */
  ghost predicate AlwaysFresh(disk: Disk, loaded: Versions, observed: Versions) {
    forall es, s :: Runs(disk, Boot(disk, loaded, observed), es, s) ==> Fresh(s)
  }

  predicate CoversStart(s: Store, r: Request) {
    match r
    case ReadSnapshot(start) => AtLeast(s.last.read, start.files)
    case Answered(start, got, latest) => AtLeast(latest.read, start.files)
    case _ => true
  }

  ghost predicate FreshInv(disk: Disk, s: Store) {
    && Inv(disk, s)
    && AtLeast(s.last.read, s.idVersions)
    && forall t :: t in s.requests ==> CoversStart(s, s.requests[t])
  }

  /** Matching identities mean the same versions. */
  lemma SameIdentitySameVersion(disk: Disk, v: Versions, w: Versions)
    requires Distinguishing(disk) && disk.Ids(v) == disk.Ids(w)
    ensures v == w
  {
    assert v.host < w.host ==> disk.hostId(v.host) != disk.hostId(w.host);
    assert w.host < v.host ==> disk.hostId(w.host) != disk.hostId(v.host);
    assert v.allowed < w.allowed ==> disk.allowedId(v.allowed) != disk.allowedId(w.allowed);
    assert w.allowed < v.allowed ==> disk.allowedId(w.allowed) != disk.allowedId(v.allowed);
  }

  lemma LoadCoversIdentities(disk: Disk, s: Store, e: Event)
    requires StoreSound(disk, s) && Enabled(s, e) && AtLeast(s.last.read, s.idVersions)
    requires Mover(e).Some? && Mover(e).value in s.requests ==> RequestSound(s, e.t, s.requests[e.t])
    ensures AtLeast(Step(disk, s, e).last.read, Step(disk, s, e).idVersions)
    ensures AtLeast(Step(disk, s, e).last.read, s.last.read)
  {
  }

  lemma MoverCovers(disk: Disk, s: Store, e: Event)
    requires StoreSound(disk, s) && Distinguishing(disk) && Enabled(s, e) && AtLeast(s.last.read, s.idVersions)
    requires Mover(e).Some?
    requires e.t in s.requests ==> RequestSound(s, e.t, s.requests[e.t]) && CoversStart(s, s.requests[e.t])
    ensures CoversStart(Step(disk, s, e), Step(disk, s, e).requests[e.t])
  {
    if (e.FastCompare? || e.Choose?) && s.identities == disk.Ids(s.requests[e.t].seen) {
      SameIdentitySameVersion(disk, s.idVersions, s.requests[e.t].seen);
    }
  }

  lemma BystanderCovers(disk: Disk, s: Store, e: Event, t: nat)
    requires Enabled(s, e) && Mover(e) != Some(t) && t in Step(disk, s, e).requests
    requires AtLeast(Step(disk, s, e).last.read, s.last.read)
    requires t in s.requests ==> CoversStart(s, s.requests[t])
    ensures CoversStart(Step(disk, s, e), Step(disk, s, e).requests[t])
  {
  }

  lemma FreshStepKeeps(disk: Disk, s: Store, e: Event)
    requires FreshInv(disk, s) && Distinguishing(disk) && Enabled(s, e)
    ensures FreshInv(disk, Step(disk, s, e))
  {
    StepKeeps(disk, s, e);
    LoadCoversIdentities(disk, s, e);
    var s' := Step(disk, s, e);
    forall t | t in s'.requests ensures CoversStart(s', s'.requests[t]) {
      if Mover(e) == Some(t) {
        MoverCovers(disk, s, e);
      } else {
        BystanderCovers(disk, s, e, t);
      }
    }
  }

  lemma {:induction false} FreshRunKeeps(disk: Disk, s: Store, es: seq<Event>, s': Store)
    requires FreshInv(disk, s) && Distinguishing(disk) && Runs(disk, s, es, s')
    ensures FreshInv(disk, s')
    decreases |es|
  {
    if es != [] {
      FreshStepKeeps(disk, s, es[0]);
      FreshRunKeeps(disk, Step(disk, s, es[0]), es[1..], s');
    }
  }

  /** A quiet boot over identities that never recur answers every request freshly. */
  lemma QuietBootIsFresh(disk: Disk, boot: Versions)
    requires Distinguishing(disk)
    ensures AlwaysFresh(disk, boot, boot)
  {
    forall es, s | Runs(disk, Boot(disk, boot, boot), es, s) ensures Fresh(s) {
      BootSound(disk, boot, boot);
      FreshRunKeeps(disk, Boot(disk, boot, boot), es, s);
      forall t | t in s.requests ensures FreshRequest(s.requests[t]) {
        assert RequestSound(s, t, s.requests[t]) && CoversStart(s, s.requests[t]);
      }
    }
  }

  // ---- when freshness fails --------------------------------------------------------

  ghost predicate CanGoStale(disk: Disk, s: Store) {
    exists es, s' :: Runs(disk, s, es, s') && !Fresh(s')
  }

  lemma StaleLater(disk: Disk, s: Store, e: Event)
    requires Enabled(s, e) && CanGoStale(disk, Step(disk, s, e))
    ensures CanGoStale(disk, s)
  {
    var es, s' :| Runs(disk, Step(disk, s, e), es, s') && !Fresh(s');
    assert ([e] + es)[1..] == es;
    assert Runs(disk, s, [e] + es, s');
  }

  /** A store whose identities match files newer than its accepted snapshot. */
  predicate Deceived(disk: Disk, s: Store) {
    && s.requests == map[] && s.writer.None? && !s.revalidate && s.last.accepted
    && s.identities == disk.Ids(s.files) && !AtLeast(s.snapshot, s.files)
  }

  lemma DeceivedAnswersStale(disk: Disk, s: Store)
    requires Deceived(disk, s)
    ensures CanGoStale(disk, s)
  {
    var s1 := Step(disk, s, Begin(0));
    var s2 := Step(disk, s1, Observe(0));
    var s3 := Step(disk, s2, Observe(0));
    var s4 := Step(disk, s3, Check(0));
    var s5 := Step(disk, s4, FastCompare(0));
    var s6 := Step(disk, s5, Answer(0));
    assert !FreshRequest(s6.requests[0]);
    assert Runs(disk, s6, [], s6) && !Fresh(s6);
    StaleLater(disk, s5, Answer(0));
    StaleLater(disk, s4, FastCompare(0));
    StaleLater(disk, s3, Check(0));
    StaleLater(disk, s2, Observe(0));
    StaleLater(disk, s1, Observe(0));
    StaleLater(disk, s, Begin(0));
  }

  function Part(v: Versions, hostFile: bool): nat {
    if hostFile then v.host else v.allowed
  }

  function WithPart(v: Versions, hostFile: bool, part: nat): Versions {
    if hostFile then Versions(part, v.allowed) else Versions(v.host, part)
  }

  /** The file moves on by `n` versions while nobody asks. */
  lemma {:induction false} DriftsToRecurrence(disk: Disk, s: Store, hostFile: bool, n: nat)
    requires s.requests == map[] && s.writer.None? && !s.revalidate && s.last.accepted
    requires Part(s.snapshot, hostFile) < Part(s.files, hostFile) + n
    requires s.identities == disk.Ids(WithPart(s.files, hostFile, Part(s.files, hostFile) + n))
    ensures CanGoStale(disk, s)
    decreases n
  {
    if n == 0 {
      assert WithPart(s.files, hostFile, Part(s.files, hostFile)) == s.files;
      DeceivedAnswersStale(disk, s);
    } else {
      var s' := Step(disk, s, Change(hostFile));
      assert WithPart(s'.files, hostFile, Part(s'.files, hostFile) + (n - 1))
          == WithPart(s.files, hostFile, Part(s.files, hostFile) + n);
      DriftsToRecurrence(disk, s', hostFile, n - 1);
      StaleLater(disk, s, Change(hostFile));
    }
  }

  lemma RecurrenceGoesStale(disk: Disk, hostFile: bool, v: nat, w: nat)
    requires v < w && (if hostFile then disk.hostId(v) == disk.hostId(w) else disk.allowedId(v) == disk.allowedId(w))
    ensures exists boot :: !AlwaysFresh(disk, boot, boot)
  {
    var boot := if hostFile then Versions(v, 0) else Versions(0, v);
    DriftsToRecurrence(disk, Boot(disk, boot, boot), hostFile, w - v);
    assert !AlwaysFresh(disk, boot, boot);
  }

  lemma RecurringVersions(f: nat -> nat) returns (v: nat, w: nat)
    requires !NeverRecurs(f)
    ensures v < w && f(v) == f(w)
  {
    v, w :| v < w && f(v) == f(w);
  }

  /** Quiet boots are fresh in every run exactly when identities never recur. */
  lemma FreshIffIdentitiesNeverRecur(disk: Disk)
    ensures (forall boot :: AlwaysFresh(disk, boot, boot)) <==> Distinguishing(disk)
  {
    if Distinguishing(disk) {
      forall boot ensures AlwaysFresh(disk, boot, boot) {
        QuietBootIsFresh(disk, boot);
      }
    } else if !NeverRecurs(disk.hostId) {
      var v, w := RecurringVersions(disk.hostId);
      RecurrenceGoesStale(disk, true, v, w);
    } else {
      var v, w := RecurringVersions(disk.allowedId);
      RecurrenceGoesStale(disk, false, v, w);
    }
  }

  /** With identities that never recur, a boot is fresh in every run exactly when no file
      changed between its load and its observation. */
  lemma FreshIffBootIsQuiet(disk: Disk, loaded: Versions, observed: Versions)
    requires Distinguishing(disk) && AtLeast(observed, loaded)
    ensures AlwaysFresh(disk, loaded, observed) <==> loaded == observed
  {
    if loaded == observed {
      QuietBootIsFresh(disk, observed);
    } else {
      DeceivedAnswersStale(disk, Boot(disk, loaded, observed));
    }
  }
}
