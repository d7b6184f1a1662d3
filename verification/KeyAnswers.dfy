/**
 What a request is answered with (crates/shbox/src/auth.rs). An observer that sees only the
 file reads of a run, and the files they hit, keeps the versions of the last load in which
 every read was accepted. Every answer is exactly that: a refused load changes nothing.
 */
module KeyAnswers {
  import opened Options
  import opened KeyStores

  /** `host` is the version the load in progress has read of the host file, `accepted` what
      the last accepted load read, `ok` whether the last load was accepted. */
  datatype Observer = Observer(host: Option<nat>, accepted: Versions, ok: bool)

  /** A load reads the host file first and the other file only if the host file passed; it is
      over with the first refusal or the second read. */
  function Seen(o: Observer, files: Versions, e: Event): Observer {
    if !e.ReadFile? then o
    else if o.host.None? then
      if e.ok then o.(host := Some(files.host)) else o.(ok := false)
    else
      Observer(None, if e.ok then Versions(o.host.value, files.allowed) else o.accepted, e.ok)
  }

  /** What the observer knows after the run `es` from `s`. */
  function Watch(disk: Disk, s: Store, es: seq<Event>, o: Observer): Observer
    decreases |es|
  {
    if es == [] || !Enabled(s, es[0]) then o
    else Watch(disk, Step(disk, s, es[0]), es[1..], Seen(o, s.files, es[0]))
  }

  /** At boot the observer knows the boot load. */
  function AtBoot(loaded: Versions): Observer {
    Observer(None, loaded, true)
  }

  predicate Agrees(s: Store, o: Observer) {
    o.host == HostRead(s) && o.accepted == s.snapshot && o.ok == s.last.accepted
  }

  lemma ReadingAgrees(disk: Disk, s: Store, o: Observer, t: nat, ok: bool)
    requires Agrees(s, o) && Enabled(s, ReadFile(t, ok)) && s.writer == Some(t)
    ensures Agrees(Step(disk, s, ReadFile(t, ok)), Seen(o, s.files, ReadFile(t, ok)))
  {
  }

  lemma QuietAgrees(disk: Disk, s: Store, e: Event)
    requires Enabled(s, e) && !e.ReadFile? && (s.writer.Some? ==> s.writer.value in s.requests)
    requires Mover(e).Some? && Mover(e).value in s.requests ==> RequestSound(s, e.t, s.requests[e.t])
    ensures HostRead(Step(disk, s, e)) == HostRead(s)
    ensures Step(disk, s, e).snapshot == s.snapshot && Step(disk, s, e).last == s.last
  {
  }

  lemma StepAgrees(disk: Disk, s: Store, o: Observer, e: Event)
    requires Inv(disk, s) && Agrees(s, o) && Enabled(s, e)
    ensures Agrees(Step(disk, s, e), Seen(o, s.files, e))
  {
    if e.ReadFile? {
      assert RequestSound(s, e.t, s.requests[e.t]);
      ReadingAgrees(disk, s, o, e.t, e.ok);
    } else {
      QuietAgrees(disk, s, e);
    }
  }

  /** The snapshot is always what the last accepted load read. */
  lemma {:induction false} RunAgrees(disk: Disk, s: Store, o: Observer, es: seq<Event>, s': Store)
    requires Inv(disk, s) && Agrees(s, o) && Runs(disk, s, es, s')
    ensures Inv(disk, s') && Agrees(s', Watch(disk, s, es, o))
    decreases |es|
  {
    if es != [] {
      StepKeeps(disk, s, es[0]);
      StepAgrees(disk, s, o, es[0]);
      RunAgrees(disk, Step(disk, s, es[0]), Seen(o, s.files, es[0]), es[1..], s');
    }
  }

  lemma SnapshotIsLastAccepted(disk: Disk, loaded: Versions, observed: Versions, es: seq<Event>, s: Store)
    requires AtLeast(observed, loaded) && Runs(disk, Boot(disk, loaded, observed), es, s)
    ensures s.snapshot == Watch(disk, Boot(disk, loaded, observed), es, AtBoot(loaded)).accepted
  {
    BootSound(disk, loaded, observed);
    RunAgrees(disk, Boot(disk, loaded, observed), AtBoot(loaded), es, s);
  }

  // ---- answers ---------------------------------------------------------------------

  /** Request `t` was answered at position `k`, with what the observer knew then. */
  ghost predicate AnsweredAt(disk: Disk, s: Store, o: Observer, es: seq<Event>, k: nat, t: nat, got: Versions,
                             latest: Load) {
    && k < |es| && es[k] == Answer(t)
    && var known := Watch(disk, s, es[..k], o);
    && got == known.accepted && latest.accepted == known.ok
  }

  lemma AnswersAppear(disk: Disk, s: Store, e: Event, t: nat)
    requires Enabled(s, e) && t in Step(disk, s, e).requests && Step(disk, s, e).requests[t].Answered?
    ensures if e == Answer(t) then Step(disk, s, e).requests[t].got == s.snapshot
                                   && Step(disk, s, e).requests[t].latest == s.last
            else t in s.requests && s.requests[t] == Step(disk, s, e).requests[t]
  {
  }

  lemma {:induction false} AnswersStay(disk: Disk, s: Store, es: seq<Event>, s': Store, t: nat)
    requires Runs(disk, s, es, s') && t in s.requests && s.requests[t].Answered?
    ensures t in s'.requests && s'.requests[t] == s.requests[t]
    decreases |es|
  {
    if es != [] {
      AnswersStay(disk, Step(disk, s, es[0]), es[1..], s', t);
    }
  }

  lemma LaterPosition(disk: Disk, s: Store, o: Observer, es: seq<Event>, k: nat, t: nat, got: Versions, latest: Load)
    requires es != [] && Enabled(s, es[0])
    requires AnsweredAt(disk, Step(disk, s, es[0]), Seen(o, s.files, es[0]), es[1..], k, t, got, latest)
    ensures AnsweredAt(disk, s, o, es, k + 1, t, got, latest)
  {
    assert es[..k + 1][1..] == es[1..][..k] && es[..k + 1][0] == es[0];
  }

  lemma {:induction false} AnswersOnRun(disk: Disk, s: Store, o: Observer, es: seq<Event>, s': Store, t: nat)
    returns (k: nat)
    requires Inv(disk, s) && Agrees(s, o) && Runs(disk, s, es, s')
    requires t in s'.requests && s'.requests[t].Answered? && !(t in s.requests && s.requests[t].Answered?)
    ensures AnsweredAt(disk, s, o, es, k, t, s'.requests[t].got, s'.requests[t].latest)
    decreases |es|
  {
    var m := Step(disk, s, es[0]);
    if t in m.requests && m.requests[t].Answered? {
      AnswersAppear(disk, s, es[0], t);
      AnswersStay(disk, m, es[1..], s', t);
      k := 0;
      assert es[..0] == [];
    } else {
      StepKeeps(disk, s, es[0]);
      StepAgrees(disk, s, o, es[0]);
      k := AnswersOnRun(disk, m, Seen(o, s.files, es[0]), es[1..], s', t);
      LaterPosition(disk, s, o, es, k, t, s'.requests[t].got, s'.requests[t].latest);
      k := k + 1;
    }
  }

  /** In every run every answered request got exactly what the last load accepted before its
      answer had read, or the boot load if there was none: nothing a load refused is ever
      served, and `latest` was refused if and only if the last load before the answer was. */
  lemma AnswersAreLastAccepted(disk: Disk, loaded: Versions, observed: Versions, es: seq<Event>, s: Store, t: nat)
    returns (k: nat)
    requires AtLeast(observed, loaded) && Runs(disk, Boot(disk, loaded, observed), es, s)
    requires t in s.requests && s.requests[t].Answered?
    ensures AnsweredAt(disk, Boot(disk, loaded, observed), AtBoot(loaded), es, k, t, s.requests[t].got,
                       s.requests[t].latest)
  {
    BootSound(disk, loaded, observed);
    k := AnswersOnRun(disk, Boot(disk, loaded, observed), AtBoot(loaded), es, s, t);
  }

  // ---- a request that nothing disturbs ---------------------------------------------

  lemma Prepend(disk: Disk, s: Store, e: Event, es: seq<Event>, s': Store)
    requires Enabled(s, e) && Runs(disk, Step(disk, s, e), es, s')
    ensures Runs(disk, s, [e] + es, s')
  {
    assert ([e] + es)[1..] == es;
  }

  predicate NeedsLoad(disk: Disk, s: Store) {
    s.revalidate || s.identities != disk.Ids(s.files)
  }

  /** What a request at rest is due: the files if a load is called for and both pass. */
  function Due(disk: Disk, s: Store, hostOk: bool, allowedOk: bool): Versions {
    if NeedsLoad(disk, s) && hostOk && allowedOk then s.files else s.snapshot
  }

  lemma Answers(disk: Disk, s: Store, t: nat, start: Start) returns (es: seq<Event>, s': Store)
    requires t in s.requests && s.requests[t] == ReadSnapshot(start) && s.writer.None?
    ensures Runs(disk, s, es, s') && t in s'.requests && s'.requests[t] == Answered(start, s.snapshot, s.last)
    ensures s'.snapshot == s.snapshot && s'.loads == s.loads && Acquire(t) !in es
  {
    s' := Step(disk, s, Answer(t));
    assert Runs(disk, s', [], s');
    Prepend(disk, s, Answer(t), [], s');
    es := [Answer(t)] + [];
  }

  lemma LoadsAndAnswers(disk: Disk, s: Store, t: nat, start: Start, forced: bool, hostOk: bool, allowedOk: bool)
    returns (es: seq<Event>, s': Store)
    requires t in s.requests && s.requests[t] == LoadHost(start, s.files, forced)
    ensures Runs(disk, s, es, s') && t in s'.requests && s'.requests[t].Answered?
    ensures s'.requests[t].got == s'.snapshot == if hostOk && allowedOk then s.files else s.snapshot
    ensures s'.loads == s.loads
  {
    var s1 := Step(disk, s, ReadFile(t, hostOk));
    if hostOk {
      var s2 := Step(disk, s1, ReadFile(t, allowedOk));
      var rest;
      rest, s' := Answers(disk, s2, t, start);
      Prepend(disk, s1, ReadFile(t, allowedOk), rest, s');
      es := [ReadFile(t, allowedOk)] + rest;
    } else {
      es, s' := Answers(disk, s1, t, start);
    }
    Prepend(disk, s, ReadFile(t, hostOk), es, s');
    es := [ReadFile(t, hostOk)] + es;
  }

  /** The write-guarded half: it loads if the flag is up or the identities do not match. */
  lemma RefreshesAndAnswers(disk: Disk, s: Store, t: nat, start: Start, hostOk: bool, allowedOk: bool)
    returns (es: seq<Event>, s': Store)
    requires t in s.requests && s.requests[t] == Decide(start, s.files)
    ensures Runs(disk, s, es, s') && t in s'.requests && s'.requests[t].Answered?
    ensures s'.requests[t].got == s'.snapshot == Due(disk, s, hostOk, allowedOk)
    ensures s'.loads == s.loads + if NeedsLoad(disk, s) then 1 else 0
  {
    var s1 := Step(disk, s, Choose(t));
    if NeedsLoad(disk, s) {
      es, s' := LoadsAndAnswers(disk, s1, t, start, s.revalidate, hostOk, allowedOk);
    } else {
      es, s' := Answers(disk, s1, t, start);
    }
    Prepend(disk, s, Choose(t), es, s');
    es := [Choose(t)] + es;
  }

  lemma WaitsAndAnswers(disk: Disk, s: Store, t: nat, start: Start, hostOk: bool, allowedOk: bool)
    returns (es: seq<Event>, s': Store)
    requires t in s.requests && s.requests[t] == AwaitWrite(start) && s.writer.None?
    ensures Runs(disk, s, es, s') && t in s'.requests && s'.requests[t].Answered?
    ensures s'.requests[t].got == s'.snapshot == Due(disk, s, hostOk, allowedOk)
    ensures s'.loads == s.loads + if NeedsLoad(disk, s) then 1 else 0
  {
    var s1 := Step(disk, s, Acquire(t));
    var s2 := Step(disk, s1, Observe(t));
    var s3 := Step(disk, s2, Observe(t));
    es, s' := RefreshesAndAnswers(disk, s3, t, start, hostOk, allowedOk);
    Prepend(disk, s2, Observe(t), es, s');
    Prepend(disk, s1, Observe(t), [Observe(t)] + es, s');
    Prepend(disk, s, Acquire(t), [Observe(t)] + ([Observe(t)] + es), s');
    es := [Acquire(t)] + ([Observe(t)] + ([Observe(t)] + es));
  }

  lemma ChecksAndAnswers(disk: Disk, s: Store, t: nat, start: Start, hostOk: bool, allowedOk: bool)
    returns (es: seq<Event>, s': Store)
    requires t in s.requests && s.requests[t] == CheckFlag(start, s.files) && s.writer.None?
    ensures Runs(disk, s, es, s') && t in s'.requests && s'.requests[t].Answered?
    ensures s'.requests[t].got == s'.snapshot == Due(disk, s, hostOk, allowedOk)
    ensures s'.loads == s.loads + if NeedsLoad(disk, s) then 1 else 0
    ensures !NeedsLoad(disk, s) ==> Acquire(t) !in es
  {
    var s1 := Step(disk, s, Check(t));
    if s.revalidate {
      es, s' := WaitsAndAnswers(disk, s1, t, start, hostOk, allowedOk);
    } else {
      var s2 := Step(disk, s1, FastCompare(t));
      if NeedsLoad(disk, s) {
        es, s' := WaitsAndAnswers(disk, s2, t, start, hostOk, allowedOk);
      } else {
        es, s' := Answers(disk, s2, t, start);
      }
      Prepend(disk, s1, FastCompare(t), es, s');
      es := [FastCompare(t)] + es;
    }
    Prepend(disk, s, Check(t), es, s');
    es := [Check(t)] + es;
  }

  /** A request that runs undisturbed gets the files as they are if a load is called for and
      both files pass, and otherwise the snapshot that was there, which then stays. It loads
      at most once, and takes the write guard only if a load is called for. */
  lemma UndisturbedRequest(disk: Disk, s: Store, t: nat, hostOk: bool, allowedOk: bool)
    returns (es: seq<Event>, s': Store)
    requires t !in s.requests && s.writer.None?
    ensures Runs(disk, s, es, s') && t in s'.requests && s'.requests[t].Answered?
    ensures s'.requests[t].got == s'.snapshot == Due(disk, s, hostOk, allowedOk)
    ensures s'.loads == s.loads + if NeedsLoad(disk, s) then 1 else 0
    ensures !NeedsLoad(disk, s) ==> Acquire(t) !in es
  {
    var s1 := Step(disk, s, Begin(t));
    var s2 := Step(disk, s1, Observe(t));
    var s3 := Step(disk, s2, Observe(t));
    es, s' := ChecksAndAnswers(disk, s3, t, Start(s.files, s.invalidations), hostOk, allowedOk);
    Prepend(disk, s2, Observe(t), es, s');
    Prepend(disk, s1, Observe(t), [Observe(t)] + es, s');
    Prepend(disk, s, Begin(t), [Observe(t)] + ([Observe(t)] + es), s');
    es := [Begin(t)] + ([Observe(t)] + ([Observe(t)] + es));
  }
}
