/**
 Publication of the daemon's host key (crates/shbox/src/hostkey.rs): any number of processes
 load the key or create it by writing a temporary file, syncing it and hard-linking it into
 place. Every file-system call is one step, every call may fail, a process may die before any
 step, and the machine may lose power, which loses unsynced file contents and a link whose
 directory was not synced yet.
 */
module HostKeys {
  import opened Options

  const ATTEMPTS: nat := 8

  /** An inode: the key it is meant to hold, the bytes still to be written, whether its
      contents are on disk, and the process that created it. */
  datatype File = File(key: nat, missing: nat, synced: bool, owner: nat)

  /** What follows the removal of the temporary file. */
  datatype Next = ThenFail | ThenLoad | ThenSyncDir

  datatype Pc =
    | Opening
    | Creating(key: nat, attempt: nat)
    | Writing(name: nat, inode: nat)
    | Linking(name: nat, inode: nat)
    | Cleaning(name: nat, inode: nat, next: Next)
    | SyncingDir
    | Reopening
    | Reading(inode: nat)
    | Returned(key: nat)
    | Failed

  /** `durable`: the link is on disk, because the directory was synced after the key was
      linked or because the link has come through a power loss. */
  datatype Disk = Disk(files: map<nat, File>, temps: map<nat, nat>, published: Option<nat>, durable: bool)

  /** A system call, or the death, of one process. */
  datatype Call =
    | OpenKey(key: nat)
    | CreateTemp(name: nat, inode: nat, size: nat)
    | Write(count: nat)
    | SyncFile
    | Link
    | RemoveTemp(removed: bool)
    | SyncDir
    | Read
    | CallFails

  predicate Ready(d: Disk, pc: Pc, call: Call) {
    match call
    case OpenKey(_) => pc.Opening? || pc.Reopening?
    case CreateTemp(_, inode, _) => pc.Creating? && inode !in d.files
    case Write(count) => pc.Writing? && pc.inode in d.files && 1 <= count <= d.files[pc.inode].missing
    case SyncFile => pc.Writing? && pc.inode in d.files && d.files[pc.inode].missing == 0
    case Link => pc.Linking?
    case RemoveTemp(_) => pc.Cleaning?
    case SyncDir => pc.SyncingDir?
    case Read => pc.Reading? && pc.inode in d.files
    case CallFails => !pc.Returned? && !pc.Failed? && !pc.Cleaning?
  }

  predicate Creates(d: Disk, pc: Pc, call: Call) {
    call.CreateTemp? && pc.Creating? && pc.attempt < ATTEMPTS && call.name !in d.temps
  }

  /** Linking never replaces: it takes place only while the path is free. */
  predicate Links(d: Disk, pc: Pc, call: Call) {
    call.Link? && pc.Linking? && d.published.None? && pc.name in d.temps
  }

  function DiskAfter(d: Disk, c: nat, pc: Pc, call: Call): Disk
    requires Ready(d, pc, call)
  {
    match call
    case CreateTemp(name, inode, size) =>
      if Creates(d, pc, call) then d.(files := d.files[inode := File(pc.key, size, false, c)],
          temps := d.temps[name := inode]) else d
    case Write(count) =>
      var file := d.files[pc.inode];
      d.(files := d.files[pc.inode := file.(missing := file.missing - count)])
    case SyncFile => d.(files := d.files[pc.inode := d.files[pc.inode].(synced := true)])
    case Link => if Links(d, pc, call) then d.(published := Some(d.temps[pc.name]), durable := false) else d
    case RemoveTemp(removed) => if removed then d.(temps := d.temps - {pc.name}) else d
    case SyncDir => d.(durable := d.published.Some?)
    case _ => d
  }

  /** A missing key is created on the first load only; a taken temporary name costs one of
      the attempts; a failed write, sync or link removes the temporary file first; a link
      that finds the path taken goes on to load what is there; a removal that fails after a
      successful link is only logged. */
  function PcAfter(d: Disk, pc: Pc, call: Call): Pc
    requires Ready(d, pc, call)
  {
    match call
    case OpenKey(key) =>
      if d.published.Some? then Reading(d.published.value) else if pc.Opening? then Creating(key, 0) else Failed
    case CreateTemp(name, inode, _) =>
      if Creates(d, pc, call) then Writing(name, inode)
      else if pc.attempt < ATTEMPTS then Creating(pc.key, pc.attempt + 1) else Failed
    case Write(_) => pc
    case SyncFile => Linking(pc.name, pc.inode)
    case Link =>
      Cleaning(pc.name, pc.inode,
               if Links(d, pc, call) then ThenSyncDir else if d.published.Some? then ThenLoad else ThenFail)
    case RemoveTemp(_) => if pc.next.ThenFail? then Failed else if pc.next.ThenLoad? then Reopening else SyncingDir
    case SyncDir => Reopening
    case Read => if d.files[pc.inode].missing == 0 then Returned(d.files[pc.inode].key) else Failed
    case CallFails => if pc.Writing? || pc.Linking? then Cleaning(pc.name, pc.inode, ThenFail) else Failed
  }

  function AfterLoss(d: Disk, keepsLink: bool): Disk {
    d.(files := map i | i in d.files :: if d.files[i].synced then d.files[i]
        else d.files[i].(missing := d.files[i].missing + 1),
       published := if keepsLink then d.published else None,
       durable := keepsLink && d.published.Some?)
  }

  /** `answers` records every successful call and the key it returned; `lost` that a power
      loss dropped a published link. */
  datatype System = System(disk: Disk, processes: map<nat, Pc>, answers: map<nat, nat>, lost: bool)

  function Fresh(): System {
    System(Disk(map[], map[], None, false), map[], map[], false)
  }

  /** Process numbers are used once; a dead process stays in the map, failed. */
  datatype Event = Start(c: nat) | Do(c: nat, call: Call) | Dies(c: nat) | PowerLoss(keepsLink: bool)

  predicate Enabled(s: System, e: Event) {
    match e
    case Start(c) => c !in s.processes
    case Do(c, call) => c in s.processes && Ready(s.disk, s.processes[c], call)
    case Dies(c) => c in s.processes
    case PowerLoss(keepsLink) => s.disk.durable ==> keepsLink
  }

  function Step(s: System, e: Event): System
    requires Enabled(s, e)
  {
    match e
    case Start(c) => s.(processes := s.processes[c := Opening])
    case Do(c, call) =>
      var pc := PcAfter(s.disk, s.processes[c], call);
      s.(disk := DiskAfter(s.disk, c, s.processes[c], call),
         processes := s.processes[c := pc],
         answers := if pc.Returned? then s.answers[c := pc.key] else s.answers)
    case Dies(c) => s.(processes := s.processes[c := Failed])
    case PowerLoss(keepsLink) =>
      s.(disk := AfterLoss(s.disk, keepsLink),
         processes := map c | c in s.processes :: Failed,
         lost := s.lost || (s.disk.published.Some? && !keepsLink))
  }

  ghost predicate Runs(s: System, es: seq<Event>, s': System)
    decreases es
  {
    if es == [] then s == s' else Enabled(s, es[0]) && Runs(Step(s, es[0]), es[1..], s')
  }

  ghost predicate Reachable(s: System) {
    exists es :: Runs(Fresh(), es, s)
  }

  /** No power loss in the run drops an unsynced link. */
  predicate LinkSurvives(es: seq<Event>) {
    forall i :: 0 <= i < |es| ==> es[i] != PowerLoss(false)
  }

  // ---- the invariant -----------------------------------------------------------------

  predicate Whole(d: Disk, i: nat) {
    i in d.files && d.files[i].missing == 0 && d.files[i].synced
  }

  /** A process between creating its temporary file and removing it holds the name: it stands
      for the inode the process created. */
  predicate HoldsName(d: Disk, c: nat, name: nat, inode: nat) {
    name in d.temps && d.temps[name] == inode && inode in d.files && d.files[inode].owner == c
  }

  predicate PcSound(d: Disk, c: nat, pc: Pc) {
    match pc
    case Writing(name, i) => HoldsName(d, c, name, i)
    case Linking(name, i) => HoldsName(d, c, name, i) && Whole(d, i)
    case Cleaning(name, i, next) => HoldsName(d, c, name, i) && (!next.ThenFail? ==> d.published.Some?)
    case Reading(i) => d.published == Some(i)
    case SyncingDir => d.published.Some?
    case Reopening => d.published.Some?
    case Creating(_, attempt) => attempt <= ATTEMPTS
    case _ => true
  }

  predicate DiskSound(d: Disk) {
    && (d.published.Some? ==> Whole(d, d.published.value))
    && (d.durable ==> d.published.Some?)
    && (forall name :: name in d.temps ==> d.temps[name] in d.files)
  }

  predicate Agrees(d: Disk, key: nat) {
    d.published.Some? && d.published.value in d.files && d.files[d.published.value].key == key
  }

  ghost predicate Inv(s: System) {
    && DiskSound(s.disk)
    && (forall c :: c in s.processes ==> PcSound(s.disk, c, s.processes[c]))
    && (!s.lost ==> forall c :: c in s.answers ==> Agrees(s.disk, s.answers[c]))
  }

  // ---- one call ----------------------------------------------------------------------

  /** A whole file is never written again, and a published path never renamed. */
  lemma WholeStays(d: Disk, c: nat, pc: Pc, call: Call, i: nat)
    requires Ready(d, pc, call) && Whole(d, i)
    ensures Whole(DiskAfter(d, c, pc, call), i) && DiskAfter(d, c, pc, call).files[i] == d.files[i]
    ensures d.published.Some? ==> DiskAfter(d, c, pc, call).published == d.published
    ensures d.published.Some? && d.durable ==> DiskAfter(d, c, pc, call).durable
  {
  }

  lemma DiskKept(d: Disk, c: nat, pc: Pc, call: Call)
    requires DiskSound(d) && Ready(d, pc, call) && PcSound(d, c, pc)
    ensures DiskSound(DiskAfter(d, c, pc, call))
  {
    if d.published.Some? {
      WholeStays(d, c, pc, call, d.published.value);
    }
  }

  lemma MoverKept(d: Disk, c: nat, pc: Pc, call: Call)
    requires DiskSound(d) && Ready(d, pc, call) && PcSound(d, c, pc)
    ensures PcSound(DiskAfter(d, c, pc, call), c, PcAfter(d, pc, call))
    ensures PcAfter(d, pc, call).Returned? ==> Agrees(d, PcAfter(d, pc, call).key)
  {
  }

  /** A call leaves the names and files of other processes alone. */
  lemma BystanderKept(d: Disk, c: nat, pc: Pc, call: Call, b: nat, other: Pc)
    requires DiskSound(d) && Ready(d, pc, call) && PcSound(d, c, pc) && b != c && PcSound(d, b, other)
    ensures PcSound(DiskAfter(d, c, pc, call), b, other)
  {
    if other.Linking? {
      WholeStays(d, c, pc, call, other.inode);
    }
  }

  lemma AgreementKept(d: Disk, c: nat, pc: Pc, call: Call, key: nat)
    requires DiskSound(d) && Ready(d, pc, call) && Agrees(d, key)
    ensures Agrees(DiskAfter(d, c, pc, call), key)
  {
    WholeStays(d, c, pc, call, d.published.value);
  }

  // ---- whole runs --------------------------------------------------------------------

  lemma CallKeeps(s: System, c: nat, call: Call)
    requires Inv(s) && Enabled(s, Do(c, call))
    ensures Inv(Step(s, Do(c, call)))
  {
    var d, pc, s' := s.disk, s.processes[c], Step(s, Do(c, call));
    DiskKept(d, c, pc, call);
    MoverKept(d, c, pc, call);
    forall b | b in s'.processes ensures PcSound(s'.disk, b, s'.processes[b]) {
      if b != c {
        BystanderKept(d, c, pc, call, b, s.processes[b]);
      }
    }
    forall b | !s'.lost && b in s'.answers ensures Agrees(s'.disk, s'.answers[b]) {
      AgreementKept(d, c, pc, call, s'.answers[b]);
    }
  }

  lemma StepKeeps(s: System, e: Event)
    requires Inv(s) && Enabled(s, e)
    ensures Inv(Step(s, e))
  {
    if e.Do? {
      CallKeeps(s, e.c, e.call);
    }
  }

  lemma StepKeepsPublished(s: System, e: Event)
    requires Inv(s) && Enabled(s, e) && s.disk.published.Some? && e != PowerLoss(false)
    ensures Step(s, e).disk.published == s.disk.published && Step(s, e).lost == s.lost
    ensures s.disk.durable ==> Step(s, e).disk.durable
  {
    if e.Do? {
      WholeStays(s.disk, e.c, s.processes[e.c], e.call, s.disk.published.value);
    }
  }

  lemma StepKeepsContents(s: System, e: Event, i: nat)
    requires Enabled(s, e) && Whole(s.disk, i)
    ensures Whole(Step(s, e).disk, i) && Step(s, e).disk.files[i] == s.disk.files[i]
  {
    if e.Do? {
      WholeStays(s.disk, e.c, s.processes[e.c], e.call, i);
    }
  }

  lemma {:induction false} RunKeeps(s: System, es: seq<Event>, s': System)
    requires Inv(s) && Runs(s, es, s')
    ensures Inv(s')
    ensures LinkSurvives(es) ==> s'.lost == s.lost
    decreases es
  {
    if es != [] {
      StepKeeps(s, es[0]);
      assert LinkSurvives(es) ==> es[0] != PowerLoss(false);
      RunKeeps(Step(s, es[0]), es[1..], s');
    }
  }

  lemma ReachableInv(s: System)
    requires Reachable(s)
    ensures Inv(s)
  {
    var es :| Runs(Fresh(), es, s);
    RunKeeps(Fresh(), es, s);
  }

  // ---- theorems ----------------------------------------------------------------------

  /** The published path names nothing, or one complete key whose contents are on disk. */
  lemma PublishedIsWhole(s: System)
    requires Reachable(s) && s.disk.published.Some?
    ensures var i := s.disk.published.value;
            i in s.disk.files && s.disk.files[i].missing == 0 && s.disk.files[i].synced
  {
    ReachableInv(s);
  }

  lemma {:induction false} ContentsNeverChange(s: System, es: seq<Event>, s': System, i: nat)
    requires Whole(s.disk, i) && Runs(s, es, s')
    ensures i in s'.disk.files && s'.disk.files[i] == s.disk.files[i]
    decreases es
  {
    if es != [] {
      StepKeepsContents(s, es[0], i);
      ContentsNeverChange(Step(s, es[0]), es[1..], s', i);
    }
  }

  lemma {:induction false} PathNeverChanges(s: System, es: seq<Event>, s': System)
    requires Inv(s) && s.disk.published.Some? && Runs(s, es, s') && (LinkSurvives(es) || s.disk.durable)
    ensures s'.disk.published == s.disk.published
    decreases es
  {
    if es != [] {
      assert es[0] != PowerLoss(false);
      StepKeeps(s, es[0]);
      StepKeepsPublished(s, es[0]);
      PathNeverChanges(Step(s, es[0]), es[1..], s');
    }
  }

  /** A published key never changes: its contents never, and what the path names not on any
      run without a power loss that drops an unsynced link; once the link is on disk on no run
      at all. */
  lemma PublishedNeverChanges(s: System, es: seq<Event>, s': System)
    requires Reachable(s) && s.disk.published.Some? && Runs(s, es, s')
    ensures var i := s.disk.published.value;
            i in s.disk.files && i in s'.disk.files && s'.disk.files[i] == s.disk.files[i]
    ensures LinkSurvives(es) || s.disk.durable ==> s'.disk.published == s.disk.published
  {
    ReachableInv(s);
    ContentsNeverChange(s, es, s', s.disk.published.value);
    if LinkSurvives(es) || s.disk.durable {
      PathNeverChanges(s, es, s');
    }
  }

  /** On every run in which no power loss drops an unsynced link, all successful calls
      return the one key the path names, whatever died in between. */
  lemma SuccessesAgree(es: seq<Event>, s: System, c: nat, d: nat)
    requires Runs(Fresh(), es, s) && LinkSurvives(es) && c in s.answers && d in s.answers
    ensures s.answers[c] == s.answers[d]
    ensures Agrees(s.disk, s.answers[c])
  {
    RunKeeps(Fresh(), es, s);
  }

  // ---- when the published key can still change ---------------------------------------

  /** Some run leads from `s0` to `s`. */
  ghost predicate Leads(s0: System, s: System) {
    exists es :: Runs(s0, es, s)
  }

  lemma {:induction false} RunsOn(s: System, es: seq<Event>, s': System, e: Event)
    requires Runs(s, es, s') && Enabled(s', e)
    ensures Runs(s, es + [e], Step(s', e))
    decreases es
  {
    if es == [] {
      assert Runs(Step(s, e), [], Step(s, e)) && [e][1..] == [] && es + [e] == [e];
    } else {
      RunsOn(Step(s, es[0]), es[1..], s', e);
      assert (es + [e])[1..] == es[1..] + [e];
    }
  }

  lemma Reach(s0: System, s: System, e: Event) returns (s': System)
    requires (s == s0 || Leads(s0, s)) && Enabled(s, e)
    ensures s' == Step(s, e) && Leads(s0, s')
  {
    s' := Step(s, e);
    assert Runs(s0, [], s0);
    var es :| Runs(s0, es, s);
    RunsOn(s0, es, s, e);
  }

  lemma CreatesTemp(s0: System, s: System, c: nat, key: nat) returns (s': System)
    requires (s == s0 || Leads(s0, s)) && s.disk.published.None?
    requires c !in s.processes && c !in s.disk.temps && c !in s.disk.files
    ensures Leads(s0, s') && s' == s.(disk := s'.disk, processes := s.processes[c := Writing(c, c)])
    ensures s'.disk == s.disk.(files := s.disk.files[c := File(key, 0, false, c)], temps := s.disk.temps[c := c])
  {
    var s1 := Reach(s0, s, Start(c));
    var s2 := Reach(s0, s1, Do(c, OpenKey(key)));
    s' := Reach(s0, s2, Do(c, CreateTemp(c, c, 0)));
    assert s'.processes == s.processes[c := Writing(c, c)];
  }

  /** One process publishing `key` in a directory without one, up to its link. */
  lemma Publishes(s0: System, s: System, c: nat, key: nat) returns (s': System)
    requires (s == s0 || Leads(s0, s)) && s.disk.published.None?
    requires c !in s.processes && c !in s.disk.temps && c !in s.disk.files
    ensures Leads(s0, s') && s'.processes == s.processes[c := Cleaning(c, c, ThenSyncDir)] && s'.answers == s.answers
    ensures s'.disk == Disk(s.disk.files[c := File(key, 0, true, c)], s.disk.temps[c := c], Some(c), false)
  {
    var s1 := CreatesTemp(s0, s, c, key);
    var s2 := Reach(s0, s1, Do(c, SyncFile));
    assert s2.processes[c] == Linking(c, c) && s2.disk.temps == s1.disk.temps;
    assert s2.disk.files == s.disk.files[c := File(key, 0, true, c)];
    s' := Reach(s0, s2, Do(c, Link));
  }

  lemma Loads(s0: System, s: System, c: nat) returns (s': System)
    requires (s == s0 || Leads(s0, s)) && c !in s.processes
    requires s.disk.published.Some? && Whole(s.disk, s.disk.published.value)
    ensures Leads(s0, s') && s'.disk == s.disk && s'.processes.Keys == s.processes.Keys + {c}
    ensures s'.answers == s.answers[c := s.disk.files[s.disk.published.value].key]
  {
    var s1 := Reach(s0, s, Start(c));
    var s2 := Reach(s0, s1, Do(c, OpenKey(0)));
    s' := Reach(s0, s2, Do(c, Read));
  }

  lemma LosesPower(s0: System, s: System) returns (s': System)
    requires (s == s0 || Leads(s0, s)) && !s.disk.durable
    ensures Leads(s0, s') && s'.disk.published.None? && s'.answers == s.answers && s'.processes.Keys == s.processes.Keys
    ensures s'.disk.files.Keys == s.disk.files.Keys && s'.disk.temps == s.disk.temps
  {
    s' := Reach(s0, s, PowerLoss(false));
  }

  lemma {:induction false} FreshNumber(used: set<nat>) returns (n: nat)
    ensures forall m :: m in used ==> m < n
    decreases |used|
  {
    if used == {} {
      n := 0;
    } else {
      var m :| m in used;
      var k := FreshNumber(used - {m});
      n := if m < k then k else m + 1;
      assert used == (used - {m}) + {m};
    }
  }

  ghost predicate PathSettled(s: System) {
    forall es, s' :: Runs(s, es, s') ==> s'.disk.published == s.disk.published
  }

  /** What the path names is settled for every continuation if and only if the link is on
      disk. */
  lemma PathSettledIffDurable(s: System)
    requires Reachable(s) && s.disk.published.Some?
    ensures PathSettled(s) <==> s.disk.durable
  {
    ReachableInv(s);
    if s.disk.durable {
      forall es, s' | Runs(s, es, s') ensures s'.disk.published == s.disk.published {
        PathNeverChanges(s, es, s');
      }
    } else {
      var s' := LosesPower(s, s);
      var es :| Runs(s, es, s');
      assert !PathSettled(s);
    }
  }

  /** Answers given once the link is on disk are the published key. */
  lemma {:induction false} DurableAnswers(s: System, es: seq<Event>, s': System, c: nat)
    requires Inv(s) && s.disk.durable && Runs(s, es, s') && c in s'.answers
    ensures (c in s.answers && s'.answers[c] == s.answers[c]) || Agrees(s.disk, s'.answers[c])
    decreases es
  {
    if es != [] {
      var m := Step(s, es[0]);
      StepKeeps(s, es[0]);
      StepKeepsPublished(s, es[0]);
      StepKeepsContents(s, es[0], s.disk.published.value);
      DurableAnswers(m, es[1..], s', c);
      if es[0].Do? {
        MoverKept(s.disk, es[0].c, s.processes[es[0].c], es[0].call);
      }
    }
  }

  /** All later calls are bound to return the key published now. */
  ghost predicate KeySettled(s: System) {
    forall es, s', c :: Runs(s, es, s') && c in s'.answers && c !in s.answers ==> Agrees(s.disk, s'.answers[c])
  }

  /** Every later success returns the published key if and only if the link is on disk:
      before that a power loss lets the next creator publish another key. */
  lemma KeySettledIffDurable(s: System)
    requires Reachable(s) && s.disk.published.Some?
    ensures KeySettled(s) <==> s.disk.durable
  {
    ReachableInv(s);
    if s.disk.durable {
      forall es, s', c | Runs(s, es, s') && c in s'.answers && c !in s.answers ensures Agrees(s.disk, s'.answers[c]) {
        DurableAnswers(s, es, s', c);
      }
    } else {
      var s', c := AnotherKey(s);
      var es :| Runs(s, es, s');
      assert !Agrees(s.disk, s'.answers[c]);
    }
  }

  lemma AnotherKey(s: System) returns (s': System, c: nat)
    requires Inv(s) && s.disk.published.Some? && !s.disk.durable
    ensures Leads(s, s') && c in s'.answers && c !in s.answers && !Agrees(s.disk, s'.answers[c])
  {
    var key := s.disk.files[s.disk.published.value].key;
    var n := FreshNumber(s.processes.Keys + s.disk.temps.Keys + s.disk.files.Keys + s.answers.Keys);
    assert n !in s.processes.Keys && n !in s.disk.temps.Keys && n !in s.disk.files.Keys;
    assert n + 1 !in s.processes.Keys && n + 1 !in s.answers.Keys;
    var s1 := LosesPower(s, s);
    var s2 := Publishes(s, s1, n, key + 1);
    s' := Loads(s, s2, n + 1);
    c := n + 1;
  }

  /** The failing case from an empty directory: a loader returns `key`, a later one `other`. */
  lemma UnsyncedLinkMayBeReplaced(key: nat, other: nat)
    ensures exists s :: Reachable(s) && 1 in s.answers && 3 in s.answers && s.answers[1] == key && s.answers[3] == other
  {
    var s1 := Publishes(Fresh(), Fresh(), 0, key);
    var s2 := Loads(Fresh(), s1, 1);
    var s3 := LosesPower(Fresh(), s2);
    var s4 := Publishes(Fresh(), s3, 2, other);
    var s5 := Loads(Fresh(), s4, 3);
    assert Reachable(s5);
  }

  // ---- creators ----------------------------------------------------------------------

  /** Answers are given once, by a process that has ended its call. */
  ghost predicate AnswersEnded(s: System) {
    forall c :: c in s.answers ==> c in s.processes && (s.processes[c].Returned? || s.processes[c].Failed?)
  }

  lemma AnswersEndedKept(s: System, e: Event)
    requires AnswersEnded(s) && Enabled(s, e)
    ensures AnswersEnded(Step(s, e))
  {
  }

  /** The step is the link by which process `c` publishes its own key. */
  predicate Publication(s: System, e: Event, c: nat)
    requires Enabled(s, e)
  {
    e == Do(c, Link) && Links(s.disk, s.processes[c], Link)
  }

  ghost predicate PublishedOn(s: System, es: seq<Event>, c: nat)
    decreases es
  {
    && es != [] && Enabled(s, es[0])
    && (Publication(s, es[0], c) || PublishedOn(Step(s, es[0]), es[1..], c))
  }

  /** The link is on disk, or process `c` has yet to sync the directory before it answers. */
  predicate SyncsFirst(s: System, c: nat) {
    || s.disk.durable
    || (c in s.processes && c !in s.answers
        && match s.processes[c]
           case Cleaning(_, _, next) => next.ThenSyncDir?
           case SyncingDir => true
           case Failed => true
           case _ => false)
  }

  lemma DurableStays(s: System, e: Event)
    requires Inv(s) && Enabled(s, e) && s.disk.durable
    ensures Step(s, e).disk.durable
  {
    StepKeepsPublished(s, e);
  }

  lemma SyncsFirstKept(s: System, e: Event, c: nat)
    requires Inv(s) && Enabled(s, e) && SyncsFirst(s, c)
    ensures SyncsFirst(Step(s, e), c)
  {
    if s.disk.durable {
      DurableStays(s, e);
    } else if e.Do? && e.c == c {
      assert PcSound(s.disk, c, s.processes[c]);
    }
  }

  lemma {:induction false} SyncsFirstOnRun(s: System, es: seq<Event>, s': System, c: nat)
    requires Inv(s) && SyncsFirst(s, c) && Runs(s, es, s')
    ensures SyncsFirst(s', c)
    decreases es
  {
    if es != [] {
      StepKeeps(s, es[0]);
      SyncsFirstKept(s, es[0], c);
      SyncsFirstOnRun(Step(s, es[0]), es[1..], s', c);
    }
  }

  lemma {:induction false} PublisherSyncs(s: System, es: seq<Event>, s': System, c: nat)
    requires Inv(s) && AnswersEnded(s) && Runs(s, es, s') && PublishedOn(s, es, c)
    ensures SyncsFirst(s', c)
    decreases es
  {
    var m := Step(s, es[0]);
    StepKeeps(s, es[0]);
    if Publication(s, es[0], c) {
      SyncsFirstOnRun(m, es[1..], s', c);
    } else {
      AnswersEndedKept(s, es[0]);
      PublisherSyncs(m, es[1..], s', c);
    }
  }

  /** A creator's own success means that the link is on disk: on every run, a process that
      published its key and has answered left a link no power loss can drop. */
  lemma CreatorSuccessIsDurable(es: seq<Event>, s: System, c: nat)
    requires Runs(Fresh(), es, s) && PublishedOn(Fresh(), es, c) && c in s.answers
    ensures s.disk.durable && s.disk.published.Some?
  {
    PublisherSyncs(Fresh(), es, s, c);
    RunKeeps(Fresh(), es, s);
  }

  /** A process past its link, or past one that found the path taken, ends its call: an
      undisturbed one returns the key the path names and removes its temporary file, and the
      one that published syncs the directory first. */
  lemma FinishesAfterLink(s0: System, s: System, c: nat) returns (s': System)
    requires (s == s0 || Leads(s0, s)) && Inv(s) && s.disk.published.Some?
    requires c in s.processes && s.processes[c].Cleaning? && !s.processes[c].next.ThenFail?
    ensures Leads(s0, s') && c in s'.answers && Agrees(s.disk, s'.answers[c])
    ensures s'.disk == s.disk.(temps := s.disk.temps - {s.processes[c].name},
                               durable := s.disk.durable || s.processes[c].next.ThenSyncDir?)
  {
    var syncs := s.processes[c].next.ThenSyncDir?;
    s' := Reach(s0, s, Do(c, RemoveTemp(true)));
    if syncs {
      s' := Reach(s0, s', Do(c, SyncDir));
    }
    s' := Reach(s0, s', Do(c, OpenKey(0)));
    s' := Reach(s0, s', Do(c, Read));
  }

  /** In a directory without a key an undisturbed creator returns its own key, published on
      disk, with its temporary file removed. */
  lemma UndisturbedCreation(s: System, c: nat, key: nat) returns (s': System)
    requires Reachable(s) && s.disk.published.None?
    requires c !in s.processes && c !in s.disk.temps && c !in s.disk.files
    ensures Leads(s, s') && c in s'.answers && s'.answers[c] == key
    ensures s'.disk == Disk(s.disk.files[c := File(key, 0, true, c)], s.disk.temps, Some(c), true)
  {
    var m := Publishes(s, s, c, key);
    var es :| Runs(s, es, m);
    ReachableInv(s);
    RunKeeps(s, es, m);
    s' := FinishesAfterLink(s, m, c);
    assert s.disk.temps[c := c] - {c} == s.disk.temps;
  }

  /** A creator that finds the path taken when it links returns the key it found there. */
  lemma LoserReturnsPublished(s: System, c: nat) returns (s': System)
    requires Reachable(s) && s.disk.published.Some? && c in s.processes && s.processes[c].Linking?
    ensures Leads(s, s') && c in s'.answers && Agrees(s.disk, s'.answers[c])
    ensures s'.disk == s.disk.(temps := s.disk.temps - {s.processes[c].name})
  {
    ReachableInv(s);
    StepKeeps(s, Do(c, Link));
    var m := Reach(s, s, Do(c, Link));
    s' := FinishesAfterLink(s, m, c);
  }

  // ---- why a call fails ----------------------------------------------------------------

  /** Process `c` tried to create a temporary file under a name that was taken. */
  predicate NameTaken(s: System, e: Event, c: nat) {
    && e.Do? && e.c == c && e.call.CreateTemp? && e.call.name in s.disk.temps
    && c in s.processes && s.processes[c].Creating? && s.processes[c].attempt < ATTEMPTS
  }

  /** How often that happened to `c` on a run. */
  ghost function TakenOn(s: System, es: seq<Event>, c: nat): nat
    decreases es
  {
    if es == [] || !Enabled(s, es[0]) then 0
    else (if NameTaken(s, es[0], c) then 1 else 0) + TakenOn(Step(s, es[0]), es[1..], c)
  }

  /** The event fails a call of `c`, or ends the process or the machine. */
  predicate Hits(e: Event, c: nat) {
    e == Do(c, CallFails) || e == Dies(c) || e.PowerLoss?
  }

  predicate Unharmed(es: seq<Event>, c: nat) {
    forall i :: 0 <= i < |es| ==> !Hits(es[i], c)
  }

  /** `c` has not failed; while it looks for a free name its attempts are those it made. */
  predicate OnCourse(s: System, c: nat, taken: nat) {
    c in s.processes ==>
      match s.processes[c]
      case Creating(_, attempt) => attempt == taken
      case Cleaning(_, _, next) => !next.ThenFail?
      case Failed => taken >= ATTEMPTS
      case Opening => taken == 0
      case _ => true
  }

  lemma OwnCallStaysOnCourse(s: System, c: nat, call: Call, taken: nat)
    requires Inv(s) && Enabled(s, Do(c, call)) && !call.CallFails? && OnCourse(s, c, taken)
    ensures OnCourse(Step(s, Do(c, call)), c, taken + if NameTaken(s, Do(c, call), c) then 1 else 0)
  {
    assert PcSound(s.disk, c, s.processes[c]);
  }

  lemma StaysOnCourse(s: System, e: Event, c: nat, taken: nat)
    requires Inv(s) && Enabled(s, e) && !Hits(e, c) && OnCourse(s, c, taken)
    requires c !in s.processes ==> taken == 0
    ensures OnCourse(Step(s, e), c, taken + if NameTaken(s, e, c) then 1 else 0)
    ensures c !in Step(s, e).processes ==> taken == 0 && !NameTaken(s, e, c)
  {
    if e.Do? && e.c == c {
      OwnCallStaysOnCourse(s, c, e.call, taken);
    }
  }

  lemma {:induction false} OnCourseOnRun(s: System, es: seq<Event>, s': System, c: nat, taken: nat)
    requires Inv(s) && Runs(s, es, s') && Unharmed(es, c) && OnCourse(s, c, taken)
    requires c !in s.processes ==> taken == 0
    ensures OnCourse(s', c, taken + TakenOn(s, es, c))
    decreases es
  {
    if es != [] {
      assert !Hits(es[0], c);
      StaysOnCourse(s, es[0], c, taken);
      StepKeeps(s, es[0]);
      assert forall i :: 0 <= i < |es[1..]| ==> es[1..][i] == es[i + 1];
      OnCourseOnRun(Step(s, es[0]), es[1..], s', c, taken + if NameTaken(s, es[0], c) then 1 else 0);
    }
  }

  /** On every run a call fails only if one of its own system calls failed, its process died,
      the machine lost power, or all the names it tried were taken. */
  lemma FailsOnlyForCause(es: seq<Event>, s: System, c: nat)
    requires Runs(Fresh(), es, s) && c in s.processes && s.processes[c].Failed?
    ensures (exists e :: e in es && Hits(e, c)) || TakenOn(Fresh(), es, c) >= ATTEMPTS
  {
    if !exists e :: e in es && Hits(e, c) {
      assert forall i :: 0 <= i < |es| ==> es[i] in es;
      OnCourseOnRun(Fresh(), es, s, c, 0);
    }
  }

  /** `c` has failed: it is over without an answer, or has a temporary file to remove first. */
  predicate Lost(s: System, c: nat) {
    && c in s.processes && c !in s.answers
    && (s.processes[c].Failed? || (s.processes[c].Cleaning? && s.processes[c].next.ThenFail?))
  }

  lemma {:induction false} LostForGood(s: System, es: seq<Event>, s': System, c: nat)
    requires Lost(s, c) && Runs(s, es, s')
    ensures Lost(s', c)
    decreases es
  {
    if es != [] {
      LostForGood(Step(s, es[0]), es[1..], s', c);
    }
  }

  lemma {:induction false} FailedOnRun(s: System, es: seq<Event>, s': System, c: nat)
    requires AnswersEnded(s) && Runs(s, es, s') && Do(c, CallFails) in es
    ensures Lost(s', c)
    decreases es
  {
    if es[0] == Do(c, CallFails) {
      LostForGood(Step(s, es[0]), es[1..], s', c);
    } else {
      assert Do(c, CallFails) in es[1..];
      AnswersEndedKept(s, es[0]);
      FailedOnRun(Step(s, es[0]), es[1..], s', c);
    }
  }

  /** A call one of whose system calls failed never returns a key. */
  lemma FailedCallNeverAnswers(es: seq<Event>, s: System, c: nat)
    requires Runs(Fresh(), es, s) && Do(c, CallFails) in es
    ensures c !in s.answers
  {
    FailedOnRun(Fresh(), es, s, c);
  }

  /** `c` has no attempt left, or has failed. */
  predicate OutOfNames(s: System, c: nat) {
    && c in s.processes && c !in s.answers
    && match s.processes[c]
       case Creating(_, attempt) => attempt >= ATTEMPTS
       case Failed => true
       case _ => false
  }

  lemma {:induction false} OutOfNamesForGood(s: System, es: seq<Event>, s': System, c: nat)
    requires OutOfNames(s, c) && Runs(s, es, s')
    ensures OutOfNames(s', c)
    decreases es
  {
    if es != [] {
      OutOfNamesForGood(Step(s, es[0]), es[1..], s', c);
    }
  }

  /** The attempts `c` has used up, if it may still look for a name. */
  function Used(s: System, c: nat): Option<nat> {
    if c !in s.processes || s.processes[c].Opening? then Some(0)
    else if s.processes[c].Creating? then Some(s.processes[c].attempt)
    else None
  }

  lemma UsedStep(s: System, e: Event, c: nat)
    requires Enabled(s, e)
    ensures NameTaken(s, e, c) ==> Used(s, c).Some? && Used(Step(s, e), c) == Some(Used(s, c).value + 1)
    ensures !NameTaken(s, e, c) ==> Used(Step(s, e), c).None? || Used(Step(s, e), c) == Used(s, c)
  {
  }

  lemma {:induction false} NoMoreNames(s: System, es: seq<Event>, s': System, c: nat)
    requires Used(s, c).None? && Runs(s, es, s')
    ensures TakenOn(s, es, c) == 0
    decreases es
  {
    if es != [] {
      UsedStep(s, es[0], c);
      NoMoreNames(Step(s, es[0]), es[1..], s', c);
    }
  }

  lemma {:induction false} NamesRunOut(s: System, es: seq<Event>, s': System, c: nat)
    requires AnswersEnded(s) && Runs(s, es, s')
    requires Used(s, c).Some? && Used(s, c).value <= ATTEMPTS <= Used(s, c).value + TakenOn(s, es, c)
    ensures OutOfNames(s', c)
    decreases es
  {
    if Used(s, c) == Some(ATTEMPTS) {
      OutOfNamesForGood(s, es, s', c);
    } else {
      var m := Step(s, es[0]);
      UsedStep(s, es[0], c);
      AnswersEndedKept(s, es[0]);
      if Used(m, c).None? {
        NoMoreNames(m, es[1..], s', c);
        assert false;
      } else {
        NamesRunOut(m, es[1..], s', c);
      }
    }
  }

  /** A process that met a taken name as often as it may try never returns a key. */
  lemma TakenNamesNeverAnswer(es: seq<Event>, s: System, c: nat)
    requires Runs(Fresh(), es, s) && TakenOn(Fresh(), es, c) >= ATTEMPTS
    ensures c !in s.answers
  {
    NamesRunOut(Fresh(), es, s, c);
  }

  // ---- temporary files -----------------------------------------------------------------

  predicate HoldsTemp(pc: Pc, name: nat) {
    (pc.Writing? || pc.Linking? || pc.Cleaning?) && pc.name == name
  }

  predicate OwnsTemp(d: Disk, c: nat, name: nat) {
    name in d.temps && d.temps[name] in d.files && d.files[d.temps[name]].owner == c
  }

  /** Every temporary file of `c` is one it still has to remove. */
  ghost predicate KeepsTidy(s: System, c: nat) {
    forall name :: OwnsTemp(s.disk, c, name) ==> c in s.processes && HoldsTemp(s.processes[c], name)
  }

  /** The event keeps `c` from removing its temporary file. */
  predicate LeavesTemp(e: Event, c: nat) {
    e == Dies(c) || e.PowerLoss? || e == Do(c, RemoveTemp(false))
  }

  lemma OwnTempsKept(d: Disk, c: nat, pc: Pc, call: Call, name: nat)
    requires DiskSound(d) && Ready(d, pc, call) && PcSound(d, c, pc) && call != RemoveTemp(false)
    requires forall n :: OwnsTemp(d, c, n) ==> HoldsTemp(pc, n)
    requires OwnsTemp(DiskAfter(d, c, pc, call), c, name)
    ensures HoldsTemp(PcAfter(d, pc, call), name)
  {
    assert OwnsTemp(d, c, name) || (Creates(d, pc, call) && name == call.name);
  }

  lemma OtherTempsKept(d: Disk, b: nat, pc: Pc, call: Call, c: nat, name: nat)
    requires DiskSound(d) && Ready(d, pc, call) && PcSound(d, b, pc)
    requires b != c && OwnsTemp(DiskAfter(d, b, pc, call), c, name)
    ensures OwnsTemp(d, c, name)
  {
  }

  lemma StaysTidy(s: System, e: Event, c: nat)
    requires Inv(s) && Enabled(s, e) && KeepsTidy(s, c) && !LeavesTemp(e, c)
    ensures KeepsTidy(Step(s, e), c)
  {
    if e.Do? {
      var pc := s.processes[e.c];
      forall name | OwnsTemp(Step(s, e).disk, c, name)
        ensures c in s.processes && HoldsTemp(Step(s, e).processes[c], name)
      {
        if e.c == c {
          assert forall n :: OwnsTemp(s.disk, c, n) ==> HoldsTemp(pc, n);
          OwnTempsKept(s.disk, c, pc, e.call, name);
        } else {
          OtherTempsKept(s.disk, e.c, pc, e.call, c, name);
        }
      }
    }
  }

  lemma {:induction false} TidyOnRun(s: System, es: seq<Event>, s': System, c: nat)
    requires Inv(s) && Runs(s, es, s') && KeepsTidy(s, c) && forall i :: 0 <= i < |es| ==> !LeavesTemp(es[i], c)
    ensures KeepsTidy(s', c)
    decreases es
  {
    if es != [] {
      StaysTidy(s, es[0], c);
      StepKeeps(s, es[0]);
      assert forall i :: 0 <= i < |es[1..]| ==> es[1..][i] == es[i + 1];
      TidyOnRun(Step(s, es[0]), es[1..], s', c);
    }
  }

  /** On every run a process whose call is over has left no temporary file behind, whether it
      succeeded or failed, unless it died, the machine lost power, or the removal failed. */
  lemma TempLeftOnlyForCause(es: seq<Event>, s: System, c: nat, name: nat)
    requires Runs(Fresh(), es, s) && OwnsTemp(s.disk, c, name)
    ensures (c in s.processes && HoldsTemp(s.processes[c], name)) || exists e :: e in es && LeavesTemp(e, c)
  {
    if !exists e :: e in es && LeavesTemp(e, c) {
      assert forall i :: 0 <= i < |es| ==> es[i] in es;
      TidyOnRun(Fresh(), es, s, c);
    }
  }
}
