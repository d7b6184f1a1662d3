/**
 Freshness of what the key files contain (crates/shbox/src/auth.rs). `KeyStores` speaks of
 versions; here every version has contents, and an on-disk identity may come back, as that of
 an absent file does. What a request gets is current if and only if equal identities of two
 versions mean that the contents did not change in between.
 */
module KeyContents {
  import opened Options
  import opened KeyStores

  /** What each version of the two files contains. */
  datatype Contents = Contents(host: nat -> nat, allowed: nat -> nat)

  /** Version `v` is at least as new as `start`, or holds the same. */
  predicate AsGood(content: nat -> nat, v: nat, start: nat) {
    v >= start || content(v) == content(start)
  }

  predicate Current(c: Contents, v: Versions, start: Versions) {
    AsGood(c.host, v.host, start.host) && AsGood(c.allowed, v.allowed, start.allowed)
  }

  /** The request got contents no older than its start, or such contents were loaded and
      rejected. */
  predicate CurrentRequest(c: Contents, r: Request) {
    r.Answered? ==>
      Current(c, r.got, r.start.files) || (!r.latest.accepted && Current(c, r.latest.read, r.start.files))
  }

  ghost predicate AllCurrent(c: Contents, s: Store) {
    forall t :: t in s.requests ==> CurrentRequest(c, s.requests[t])
  }

  /** Every run from a quiet boot answers every request with current contents. */
  ghost predicate AlwaysCurrent(disk: Disk, c: Contents, boot: Versions) {
    forall es, s :: Runs(disk, Boot(disk, boot, boot), es, s) ==> AllCurrent(c, s)
  }

  /** An identity that comes back stands for contents that never changed. */
  ghost predicate Telling(id: nat -> nat, content: nat -> nat) {
    forall v: nat, u: nat, w: nat :: v <= u <= w && id(v) == id(w) ==> content(u) == content(v)
  }

  // ---- what every step keeps -------------------------------------------------------

  predicate Covered(c: Contents, s: Store, r: Request) {
    match r
    case ReadSnapshot(start) =>
      && Current(c, s.last.read, start.files)
      && (HostRead(s).Some? ==> HostRead(s).value >= start.files.host)
    case Answered(start, _, latest) => Current(c, latest.read, start.files)
    case _ => true
  }

  ghost predicate CurrentInv(disk: Disk, c: Contents, s: Store) {
    && Inv(disk, s)
    && AtLeast(s.last.read, s.idVersions)
    && forall t :: t in s.requests ==> Covered(c, s, s.requests[t])
  }

  /** Identities that match across the versions of a load and of a request. */
  lemma MatchIsCurrent(id: nat -> nat, content: nat -> nat, adopted: nat, read: nat, start: nat, seen: nat)
    requires Telling(id, content) && adopted <= read && start <= seen && id(adopted) == id(seen)
    ensures AsGood(content, read, start)
  {
    if read < start {
      assert content(read) == content(adopted);
      assert content(start) == content(adopted);
    }
  }

  lemma MatchingIdentities(disk: Disk, c: Contents, adopted: Versions, read: Versions, start: Versions, seen: Versions)
    requires Telling(disk.hostId, c.host) && Telling(disk.allowedId, c.allowed)
    requires AtLeast(read, adopted) && AtLeast(seen, start) && disk.Ids(adopted) == disk.Ids(seen)
    ensures Current(c, read, start)
  {
    MatchIsCurrent(disk.hostId, c.host, adopted.host, read.host, start.host, seen.host);
    MatchIsCurrent(disk.allowedId, c.allowed, adopted.allowed, read.allowed, start.allowed, seen.allowed);
  }

  lemma ComparerCovered(disk: Disk, c: Contents, s: Store, t: nat)
    requires StoreSound(disk, s) && AtLeast(s.last.read, s.idVersions) && Enabled(s, FastCompare(t))
    requires Telling(disk.hostId, c.host) && Telling(disk.allowedId, c.allowed) && RequestSound(s, t, s.requests[t])
    ensures var s' := Step(disk, s, FastCompare(t)); t in s'.requests && Covered(c, s', s'.requests[t])
  {
    var Compare(start, seen) := s.requests[t];
    if s.identities == disk.Ids(seen) {
      MatchingIdentities(disk, c, s.idVersions, s.last.read, start.files, seen);
    }
  }

  lemma ChooserCovered(disk: Disk, c: Contents, s: Store, t: nat)
    requires StoreSound(disk, s) && AtLeast(s.last.read, s.idVersions) && Enabled(s, Choose(t))
    requires Telling(disk.hostId, c.host) && Telling(disk.allowedId, c.allowed) && RequestSound(s, t, s.requests[t])
    ensures var s' := ChooseStep(disk, s, t); t in s'.requests && Covered(c, s', s'.requests[t])
  {
    var Decide(start, seen) := s.requests[t];
    if !s.revalidate && s.identities == disk.Ids(seen) {
      MatchingIdentities(disk, c, s.idVersions, s.last.read, start.files, seen);
    }
  }

  lemma LoaderCovered(disk: Disk, c: Contents, s: Store, t: nat, ok: bool)
    requires StoreSound(disk, s) && Enabled(s, ReadFile(t, ok)) && RequestSound(s, t, s.requests[t])
    ensures var s' := Step(disk, s, ReadFile(t, ok)); t in s'.requests && Covered(c, s', s'.requests[t])
  {
  }

  lemma MoverCovered(disk: Disk, c: Contents, s: Store, e: Event)
    requires CurrentInv(disk, c, s) && Enabled(s, e) && Mover(e).Some?
    requires Telling(disk.hostId, c.host) && Telling(disk.allowedId, c.allowed)
    ensures e.t in Step(disk, s, e).requests && Covered(c, Step(disk, s, e), Step(disk, s, e).requests[e.t])
  {
    if e.t in s.requests {
      assert RequestSound(s, e.t, s.requests[e.t]) && Covered(c, s, s.requests[e.t]);
    }
    match e {
      case FastCompare(t) => ComparerCovered(disk, c, s, t);
      case Choose(t) => ChooserCovered(disk, c, s, t);
      case ReadFile(t, ok) => LoaderCovered(disk, c, s, t, ok);
      case _ =>
    }
  }

  /** A finished load has read the host file no earlier than `start`, for every request that
      is about to read the snapshot. */
  lemma ReaderStays(disk: Disk, c: Contents, s: Store, e: Event, start: Start)
    requires StoreSound(disk, s) && Enabled(s, e) && Covered(c, s, ReadSnapshot(start)) && AtLeast(s.files, start.files)
    requires Mover(e).Some? && Mover(e).value in s.requests ==> RequestSound(s, e.t, s.requests[e.t])
    ensures Covered(c, Step(disk, s, e), ReadSnapshot(start))
  {
  }

  lemma BystanderCovered(disk: Disk, c: Contents, s: Store, e: Event, t: nat)
    requires CurrentInv(disk, c, s) && Enabled(s, e) && Mover(e) != Some(t) && t in Step(disk, s, e).requests
    ensures Covered(c, Step(disk, s, e), Step(disk, s, e).requests[t])
  {
    OthersStay(disk, s, e, t);
    assert RequestSound(s, t, s.requests[t]) && Covered(c, s, s.requests[t]);
    if s.requests[t].ReadSnapshot? {
      ReaderStays(disk, c, s, e, s.requests[t].start);
    }
  }

  lemma CurrentStepKeeps(disk: Disk, c: Contents, s: Store, e: Event)
    requires CurrentInv(disk, c, s) && Enabled(s, e)
    requires Telling(disk.hostId, c.host) && Telling(disk.allowedId, c.allowed)
    ensures CurrentInv(disk, c, Step(disk, s, e))
  {
    StepKeeps(disk, s, e);
    LoadCoversIdentities(disk, s, e);
    var s' := Step(disk, s, e);
    forall t | t in s'.requests ensures Covered(c, s', s'.requests[t]) {
      if Mover(e) == Some(t) {
        MoverCovered(disk, c, s, e);
      } else {
        BystanderCovered(disk, c, s, e, t);
      }
    }
  }

  lemma {:induction false} CurrentRunKeeps(disk: Disk, c: Contents, s: Store, es: seq<Event>, s': Store)
    requires CurrentInv(disk, c, s) && Runs(disk, s, es, s')
    requires Telling(disk.hostId, c.host) && Telling(disk.allowedId, c.allowed)
    ensures CurrentInv(disk, c, s')
    decreases |es|
  {
    if es != [] {
      CurrentStepKeeps(disk, c, s, es[0]);
      CurrentRunKeeps(disk, c, Step(disk, s, es[0]), es[1..], s');
    }
  }

  lemma TellingIsCurrent(disk: Disk, c: Contents, boot: Versions)
    requires Telling(disk.hostId, c.host) && Telling(disk.allowedId, c.allowed)
    ensures AlwaysCurrent(disk, c, boot)
  {
    forall es, s | Runs(disk, Boot(disk, boot, boot), es, s) ensures AllCurrent(c, s) {
      BootSound(disk, boot, boot);
      CurrentRunKeeps(disk, c, Boot(disk, boot, boot), es, s);
      forall t | t in s.requests ensures CurrentRequest(c, s.requests[t]) {
        assert RequestSound(s, t, s.requests[t]) && Covered(c, s, s.requests[t]);
      }
    }
  }

  // ---- the failing runs ------------------------------------------------------------

  ghost predicate CanServeOld(disk: Disk, c: Contents, s: Store) {
    exists es, s' :: Runs(disk, s, es, s') && !AllCurrent(c, s')
  }

  lemma OldLater(disk: Disk, c: Contents, s: Store, e: Event)
    requires Enabled(s, e) && CanServeOld(disk, c, Step(disk, s, e))
    ensures CanServeOld(disk, c, s)
  {
    var es, s' :| Runs(disk, Step(disk, s, e), es, s') && !AllCurrent(c, s');
    assert ([e] + es)[1..] == es;
    assert Runs(disk, s, [e] + es, s');
  }

  /** Nobody holds the lock, and the last load was accepted. */
  predicate Resting(s: Store, t: nat) {
    t !in s.requests && s.writer.None? && !s.revalidate && s.last.accepted
  }

  /** A store whose identities match files with other contents than its snapshot. */
  lemma DeceivedServesOld(disk: Disk, c: Contents, s: Store, t: nat)
    requires Resting(s, t) && s.identities == disk.Ids(s.files) && !Current(c, s.snapshot, s.files)
    ensures CanServeOld(disk, c, s)
  {
    var s1 := Step(disk, s, Begin(t));
    var s2 := Step(disk, s1, Observe(t));
    var s3 := Step(disk, s2, Observe(t));
    var s4 := Step(disk, s3, Check(t));
    var s5 := Step(disk, s4, FastCompare(t));
    var s6 := Step(disk, s5, Answer(t));
    assert !CurrentRequest(c, s6.requests[t]);
    assert Runs(disk, s6, [], s6) && !AllCurrent(c, s6);
    OldLater(disk, c, s5, Answer(t));
    OldLater(disk, c, s4, FastCompare(t));
    OldLater(disk, c, s3, Check(t));
    OldLater(disk, c, s2, Observe(t));
    OldLater(disk, c, s1, Observe(t));
    OldLater(disk, c, s, Begin(t));
  }

  function ContentOf(c: Contents, hostFile: bool, v: nat): nat {
    if hostFile then c.host(v) else c.allowed(v)
  }

  function IdOf(disk: Disk, hostFile: bool, v: nat): nat {
    if hostFile then disk.hostId(v) else disk.allowedId(v)
  }

  /** One file moves on by `n` versions while nobody asks, to where its identity matches and
      its contents do not. */
  lemma {:induction false} DriftServesOld(disk: Disk, c: Contents, s: Store, t: nat, hostFile: bool, n: nat)
    requires Resting(s, t) && Part(s.snapshot, hostFile) < Part(s.files, hostFile) + n
    requires s.identities == disk.Ids(WithPart(s.files, hostFile, Part(s.files, hostFile) + n))
    requires ContentOf(c, hostFile, Part(s.snapshot, hostFile)) != ContentOf(c, hostFile, Part(s.files, hostFile) + n)
    ensures CanServeOld(disk, c, s)
    decreases n
  {
    if n == 0 {
      assert WithPart(s.files, hostFile, Part(s.files, hostFile)) == s.files;
      DeceivedServesOld(disk, c, s, t);
    } else {
      var s' := Step(disk, s, Change(hostFile));
      assert WithPart(s'.files, hostFile, Part(s'.files, hostFile) + (n - 1))
          == WithPart(s.files, hostFile, Part(s.files, hostFile) + n);
      DriftServesOld(disk, c, s', t, hostFile, n - 1);
      OldLater(disk, c, s, Change(hostFile));
    }
  }

  /** A forced load has observed `seen` and read nothing yet. */
  predicate AboutToRead(disk: Disk, s: Store, seen: Versions) {
    && s.requests.Keys == {0} && s.requests[0].LoadHost? && s.requests[0].seen == seen
    && s.writer == Some(0) && !s.revalidate
  }

  /** It reads the files as they are now and adopts the identities of `seen`; then the file
      moves on by `m` versions. */
  lemma ReadsThenDrifts(disk: Disk, c: Contents, s: Store, seen: Versions, hostFile: bool, m: nat)
    requires AboutToRead(disk, s, seen) && m > 0
    requires disk.Ids(seen) == disk.Ids(WithPart(s.files, hostFile, Part(s.files, hostFile) + m))
    requires ContentOf(c, hostFile, Part(s.files, hostFile)) != ContentOf(c, hostFile, Part(s.files, hostFile) + m)
    ensures CanServeOld(disk, c, s)
  {
    var s1 := Step(disk, s, ReadFile(0, true));
    var s2 := Step(disk, s1, ReadFile(0, true));
    assert s2.snapshot == s.files && s2.identities == disk.Ids(seen) && s2.files == s.files;
    DriftServesOld(disk, c, s2, 1, hostFile, m);
    OldLater(disk, c, s1, ReadFile(0, true));
    OldLater(disk, c, s, ReadFile(0, true));
  }

  /** Before it reads, the file moves on by `n` versions. */
  lemma {:induction false} ChangesUnderLoad(disk: Disk, c: Contents, s: Store, seen: Versions, hostFile: bool,
                                            n: nat, m: nat)
    requires AboutToRead(disk, s, seen) && m > 0
    requires disk.Ids(seen) == disk.Ids(WithPart(s.files, hostFile, Part(s.files, hostFile) + n + m))
    requires ContentOf(c, hostFile, Part(s.files, hostFile) + n) !=
             ContentOf(c, hostFile, Part(s.files, hostFile) + n + m)
    ensures CanServeOld(disk, c, s)
    decreases n
  {
    if n == 0 {
      ReadsThenDrifts(disk, c, s, seen, hostFile, m);
    } else {
      var s' := Step(disk, s, Change(hostFile));
      assert WithPart(s'.files, hostFile, Part(s'.files, hostFile) + (n - 1) + m)
          == WithPart(s.files, hostFile, Part(s.files, hostFile) + n + m);
      ChangesUnderLoad(disk, c, s', seen, hostFile, n - 1, m);
      OldLater(disk, c, s, Change(hostFile));
    }
  }

  /** A booted store that is told to revalidate and observes its files. */
  lemma ForcedFromBoot(disk: Disk, c: Contents, boot: Versions) returns (s: Store)
    ensures AboutToRead(disk, s, boot) && s.files == boot
    ensures CanServeOld(disk, c, s) ==> CanServeOld(disk, c, Boot(disk, boot, boot))
  {
    var s0 := Boot(disk, boot, boot);
    var s1 := Step(disk, s0, Invalidate);
    var s2 := Step(disk, s1, Begin(0));
    var s3 := Step(disk, s2, Observe(0));
    var s4 := Step(disk, s3, Observe(0));
    var s5 := Step(disk, s4, Check(0));
    s := ForcedFromWaiting(disk, c, s5, boot);
    if CanServeOld(disk, c, s) {
      OldLater(disk, c, s4, Check(0));
      OldLater(disk, c, s3, Observe(0));
      OldLater(disk, c, s2, Observe(0));
      OldLater(disk, c, s1, Begin(0));
      OldLater(disk, c, s0, Invalidate);
    }
  }

  lemma ForcedFromWaiting(disk: Disk, c: Contents, s5: Store, boot: Versions) returns (s: Store)
    requires s5.requests.Keys == {0} && s5.requests[0].AwaitWrite?
    requires s5.writer.None? && s5.revalidate && s5.files == boot
    ensures AboutToRead(disk, s, boot) && s.files == boot
    ensures CanServeOld(disk, c, s) ==> CanServeOld(disk, c, s5)
  {
    var s6 := Step(disk, s5, Acquire(0));
    var s7 := Step(disk, s6, Observe(0));
    var s8 := Step(disk, s7, Observe(0));
    s := Step(disk, s8, Choose(0));
    if CanServeOld(disk, c, s) {
      OldLater(disk, c, s8, Choose(0));
      OldLater(disk, c, s7, Observe(0));
      OldLater(disk, c, s6, Observe(0));
      OldLater(disk, c, s5, Acquire(0));
    }
  }

  /** The file is loaded in its state `u`, under the identity of `v`; the identity comes back
      at `w` with other contents. With an absent file for `v` and `w` and a short-lived one for
      `u`, keys that were deleted are still served. */
  lemma ShortLivedFileIsServed(disk: Disk, c: Contents, hostFile: bool, v: nat, u: nat, w: nat)
    requires v <= u < w && IdOf(disk, hostFile, v) == IdOf(disk, hostFile, w)
    requires ContentOf(c, hostFile, u) != ContentOf(c, hostFile, w)
    ensures exists boot :: !AlwaysCurrent(disk, c, boot)
  {
    var boot := WithPart(Versions(0, 0), hostFile, v);
    var s := ForcedFromBoot(disk, c, boot);
    ChangesUnderLoad(disk, c, s, boot, hostFile, u - v, w - u);
    assert !AlwaysCurrent(disk, c, boot);
  }

  lemma UntellingVersions(id: nat -> nat, content: nat -> nat) returns (v: nat, u: nat, w: nat)
    requires !Telling(id, content)
    ensures v <= u <= w && id(v) == id(w) && content(u) != content(v)
  {
    v, u, w :| v <= u <= w && id(v) == id(w) && content(u) != content(v);
  }

  lemma UntellingServesOld(disk: Disk, c: Contents, hostFile: bool, v: nat, u: nat, w: nat)
    requires v <= u <= w && IdOf(disk, hostFile, v) == IdOf(disk, hostFile, w)
    requires ContentOf(c, hostFile, u) != ContentOf(c, hostFile, v)
    ensures exists boot :: !AlwaysCurrent(disk, c, boot)
  {
    if ContentOf(c, hostFile, u) != ContentOf(c, hostFile, w) {
      ShortLivedFileIsServed(disk, c, hostFile, v, u, w);
    } else {
      ShortLivedFileIsServed(disk, c, hostFile, v, v, w);
    }
  }

  /** Quiet boots serve current contents in every run if and only if equal identities of two
      versions of a file mean that its contents were the same all along. */
  lemma CurrentIffIdentitiesTell(disk: Disk, c: Contents)
    ensures (forall boot :: AlwaysCurrent(disk, c, boot)) <==>
              Telling(disk.hostId, c.host) && Telling(disk.allowedId, c.allowed)
  {
    if Telling(disk.hostId, c.host) && Telling(disk.allowedId, c.allowed) {
      forall boot ensures AlwaysCurrent(disk, c, boot) {
        TellingIsCurrent(disk, c, boot);
      }
    } else if !Telling(disk.hostId, c.host) {
      var v, u, w := UntellingVersions(disk.hostId, c.host);
      UntellingServesOld(disk, c, true, v, u, w);
    } else {
      var v, u, w := UntellingVersions(disk.allowedId, c.allowed);
      UntellingServesOld(disk, c, false, v, u, w);
    }
  }
}
