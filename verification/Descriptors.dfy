/**
 The descriptor table of a sandboxed child between fork and execve: the stdio remap and
 the close-everything pass of crates/shbox-sandbox/src/linux/child.rs and
 crates/shbox-sandbox/src/macos/mod.rs, and the guard slot chosen by
 crates/shbox-sandbox/src/linux/mod.rs.
 */
module Descriptors {
  import opened Options

  /** One descriptor: the open file it names, and its close-on-exec bit. */
  datatype Desc = Desc(file: nat, cloexec: bool)

  type Table = map<int, Desc>

  /** What the new program finds: `execve` drops the close-on-exec descriptors. */
  function AfterExec(t: Table): map<int, nat> {
    map fd | fd in t && !t[fd].cloexec :: t[fd].file
  }

  datatype Stdio = Stdio(in_: int, out: int, err: int) {
    function At(k: int): int
      requires 0 <= k < 3
    {
      if k == 0 then in_ else if k == 1 then out else err
    }
  }

  predicate SourcesOpen(t: Table, stdio: Stdio) {
    stdio.in_ in t && stdio.out in t && stdio.err in t
  }

  /** The kernel's dup2 on an open source: equal numbers leave even the flags alone. */
  function Dup2(t: Table, source: int, target: int): Table
    requires source in t
  {
    if source == target then t else t[target := Desc(t[source].file, false)]
  }

  /** The reference remap: every slot takes the file its source named at the start. */
  function Simultaneous(t: Table, stdio: Stdio): Table
    requires SourcesOpen(t, stdio)
  {
    t[0 := Desc(t[stdio.in_].file, false)][1 := Desc(t[stdio.out].file, false)][2 := Desc(t[stdio.err].file, false)]
  }

  /** Every source is open when its turn comes: at the start, or as an earlier target. */
  predicate OpenInTurn(t: Table, stdio: Stdio) {
    && stdio.in_ in t
    && (stdio.out in t || stdio.out == 0)
    && (stdio.err in t || stdio.err == 0 || stdio.err == 1)
  }

  /** The Linux remap: one dup2 after the other, on the live table. */
  function Sequential(t: Table, stdio: Stdio): Table
    requires OpenInTurn(t, stdio)
  {
    Dup2(Dup2(Dup2(t, stdio.in_, 0), stdio.out, 1), stdio.err, 2)
  }

  /** No close-on-exec descriptor is mapped onto itself. */
  predicate NoKeptFlag(t: Table, stdio: Stdio)
    requires OpenInTurn(t, stdio)
  {
    && (stdio.in_ == 0 ==> !t[0].cloexec)
    && (stdio.out == 1 ==> !t[1].cloexec)
    && (stdio.err == 2 ==> !t[2].cloexec)
  }

  /** No later source is an earlier target, unless that target already named the same file. */
  predicate NoOverwrittenSource(t: Table, stdio: Stdio)
    requires SourcesOpen(t, stdio)
  {
    && (stdio.out == 0 || stdio.err == 0 ==> t[stdio.in_].file == t[0].file)
    && (stdio.err == 1 ==> t[stdio.out].file == t[1].file)
  }

  /** The sequential remap is the simultaneous one exactly on these tables. */
  lemma SequentialIffSimultaneous(t: Table, stdio: Stdio)
    requires SourcesOpen(t, stdio)
    ensures Sequential(t, stdio) == Simultaneous(t, stdio) <==> NoKeptFlag(t, stdio) && NoOverwrittenSource(t, stdio)
  {
    var q, p := Sequential(t, stdio), Simultaneous(t, stdio);
    assert q.Keys == p.Keys == t.Keys + {0, 1, 2};
    assert forall fd :: fd in t && fd !in {0, 1, 2} ==> q[fd] == p[fd] == t[fd];
    assert q == p <==> q[0] == p[0] && q[1] == p[1] && q[2] == p[2];
  }

  /** A cycle through the standard slots comes out wrong on Linux. */
  lemma LinuxCycleDiffers(t: Table)
    requires 0 in t && 1 in t && 2 in t && t[0].file != t[1].file
    ensures Sequential(t, Stdio(1, 2, 0)) != Simultaneous(t, Stdio(1, 2, 0))
    ensures Sequential(t, Stdio(1, 2, 0))[2].file == t[1].file
  {
    SequentialIffSimultaneous(t, Stdio(1, 2, 0));
  }

  /** Which of the standard slots the new program finds after the sequential remap. */
  predicate SlotSurvives(t: Table, stdio: Stdio, k: int)
    requires OpenInTurn(t, stdio) && 0 <= k < 3
  {
    stdio.At(k) == k ==> !t[k].cloexec
  }

  lemma SequentialSlots(t: Table, stdio: Stdio, k: int)
    requires OpenInTurn(t, stdio) && 0 <= k < 3
    ensures k in Sequential(t, stdio)
    ensures Sequential(t, stdio)[k].cloexec <==> !SlotSurvives(t, stdio, k)
  {
  }

  class DescriptorTable {
    var fds: Table
    const limit: int

    ghost predicate Valid()
      reads this
    {
      3 <= limit && forall fd :: fd in fds ==> 0 <= fd < limit
    }

    constructor (initial: Table, bound: int)
      requires 3 <= bound && forall fd :: fd in initial ==> 0 <= fd < bound
      ensures Valid() && fds == initial && limit == bound
    {
      fds, limit := initial, bound;
    }

    method Duplicate(source: int, target: int) returns (ok: bool)
      requires Valid()
      modifies this
      ensures Valid()
      ensures ok <==> source in old(fds) && 0 <= target < limit
      ensures fds == if ok then Dup2(old(fds), source, target) else old(fds)
    {
      ok := source in fds && 0 <= target < limit;
      if ok && source != target {
        fds := fds[target := Desc(fds[source].file, false)];
      }
    }

    /** F_DUPFD_CLOEXEC with minimum three: the lowest free number from three on. */
    method DuplicateAbove(source: int) returns (fd: Option<int>)
      requires Valid()
      modifies this
      ensures Valid()
      ensures fd.Some? ==> source in old(fds) && 3 <= fd.value < limit && fd.value !in old(fds)
      ensures fd.Some? ==> forall k :: 3 <= k < fd.value ==> k in old(fds)
      ensures fd.None? ==> source !in old(fds) || forall k :: 3 <= k < limit ==> k in old(fds)
      ensures fds == if fd.Some? then old(fds)[fd.value := Desc(old(fds)[source].file, true)] else old(fds)
    {
      if source !in fds {
        return None;
      }
      var k := 3;
      while k < limit && k in fds
        invariant 3 <= k <= limit
        invariant forall j :: 3 <= j < k ==> j in fds
      {
        k := k + 1;
      }
      if k == limit {
        return None;
      }
      fds := fds[k := Desc(fds[source].file, true)];
      fd := Some(k);
    }

    method Close(fd: int)
      requires Valid()
      modifies this
      ensures Valid() && fds == old(fds) - {fd}
    {
      fds := fds - {fd};
    }

    method SetCloexec(fd: int, on: bool) returns (ok: bool)
      requires Valid()
      modifies this
      ensures Valid() && (ok <==> fd in old(fds))
      ensures fds == if ok then old(fds)[fd := Desc(old(fds)[fd].file, on)] else old(fds)
    {
      ok := fd in fds;
      if ok {
        fds := fds[fd := Desc(fds[fd].file, on)];
      }
    }

    method CloseRange(first: int)
      requires Valid()
      modifies this
      ensures Valid()
      ensures fds == map fd | fd in old(fds) && fd < first :: old(fds)[fd]
    {
      fds := map fd | fd in fds && fd < first :: fds[fd];
    }

    method CloseAll(numbers: seq<int>)
      requires Valid()
      modifies this
      ensures Valid() && fds == old(fds) - Members(numbers)
    {
      for i := 0 to |numbers|
        invariant Valid() && fds == old(fds) - Members(numbers[..i])
      {
        Close(numbers[i]);
        assert numbers[..i + 1] == numbers[..i] + [numbers[i]];
      }
      assert numbers[..|numbers|] == numbers;
    }

    // ---- macOS stdio -----------------------------------------------------------------

    /** Snapshot the sources above the standard slots. A failure leaves the table exactly
        as it was; success means every source was open, or was a number an earlier snapshot
        had just taken. */
    method DuplicateSources(stdio: Stdio) returns (copies: seq<int>, ghost files: seq<nat>, failed: Option<int>)
      requires Valid()
      modifies this
      ensures Valid()
      ensures failed.Some? ==> 0 <= failed.value < 3 && |copies| == failed.value && fds == old(fds)
      ensures failed.Some? && stdio.At(failed.value) in old(fds) ==>
                forall k :: 3 <= k < limit ==> k in old(fds) || k in copies
      ensures failed.None? ==> |copies| == 3 && Snapshot(old(fds), fds, stdio, copies, files)
    {
      copies, files := [], [];
      while |copies| < 3
        invariant Valid() && |copies| <= 3 && Snapshot(old(fds), fds, stdio, copies, files)
      {
        ghost var before := fds;
        var source := stdio.At(|copies|);
        var copy := DuplicateAbove(source);
        if copy.None? {
          failed := Some(|copies|);
          CloseAll(copies);
          DroppingCopies(old(fds), before, stdio, copies, files);
          return;
        }
        SnapshotGrows(old(fds), before, stdio, copies, files, copy.value);
        copies, files := copies + [copy.value], files + [before[source].file];
      }
      failed := None;
    }

    /** The macOS remap: snapshot, install, close the snapshots. */
    method RemapStdio(stdio: Stdio) returns (failed: Option<int>)
      requires Valid()
      modifies this
      ensures Valid()
      ensures failed.Some? ==> fds == old(fds)
      ensures failed.None? && SourcesOpen(old(fds), stdio) ==> fds == Simultaneous(old(fds), stdio)
      ensures SourcesOpen(old(fds), stdio) && RoomForThree(old(fds), limit) ==> failed.None?
    {
      var copies, files, bad := DuplicateSources(stdio);
      if bad.Some? {
        return bad;
      }
      ghost var snap := fds;
      for k := 0 to 3
        invariant Valid()
        invariant fds == Installed(snap, files, k)
      {
        InstalledCopies(old(fds), snap, stdio, copies, files, k);
        var ok := Duplicate(copies[k], k);
      }
      CloseAll(copies);
      InstalledAll(old(fds), snap, stdio, copies, files);
      failed := None;
    }

    // ---- Linux stdio -----------------------------------------------------------------

    method SequentialStdio(stdio: Stdio) returns (ok: bool)
      requires Valid()
      modifies this
      ensures Valid()
      ensures ok <==> OpenInTurn(old(fds), stdio)
      ensures ok ==> fds == Sequential(old(fds), stdio)
    {
      ok := Duplicate(stdio.in_, 0);
      if !ok {
        return;
      }
      ok := Duplicate(stdio.out, 1);
      if !ok {
        return;
      }
      ok := Duplicate(stdio.err, 2);
    }

    // ---- descriptor hygiene ----------------------------------------------------------

    /** Close what is not inherited and clear close-on-exec on what is, from three up to
        but excluding `end`, leaving `guard` alone. */
    method Sweep(end: int, guard: int, inherited: set<int>)
      requires Valid() && 3 <= end
      modifies this
      ensures Valid() && fds == Swept(old(fds), end, guard, inherited)
    {
      for fd := 3 to end
        invariant Valid() && fds == Swept(old(fds), fd, guard, inherited)
      {
        if fd == guard {
          continue;
        }
        if fd in inherited {
          var open := SetCloexec(fd, false);
          continue;
        }
        Close(fd);
      }
    }

    /** `rangeOk` is the kernel's answer to close_range. */
    method LinuxHygiene(report: int, guard: int, inherited: set<int>, rangeOk: bool) returns (ok: bool)
      requires Valid() && 3 <= guard && forall fd :: fd in inherited ==> 3 <= fd < guard
      modifies this
      ensures Valid()
      ensures ok <==> report in old(fds) && guard < limit && rangeOk
      ensures ok ==> fds == Cleaned(old(fds), report, guard, inherited)
      ensures !ok ==> fds == if report in old(fds) && guard < limit then Dup2(old(fds), report, guard) else old(fds)
    {
      ok := Duplicate(report, guard);
      if !ok {
        return;
      }
      if !rangeOk {
        return false;
      }
      CloseRange(guard + 1);
      ok := SetCloexec(guard, true);
      Sweep(guard, guard, inherited);
    }

    /** `highest` is the kernel's answer to F_MAXFD, when it gives one. */
    method MacHygiene(report: int, guard: int, inherited: set<int>, highest: Option<int>) returns (ok: bool)
      requires Valid() && 3 <= guard && forall fd :: fd in inherited ==> 3 <= fd < guard
      requires highest.Some? ==> guard <= highest.value && forall fd :: fd in fds ==> fd <= highest.value
      modifies this
      ensures Valid()
      ensures ok <==> report in old(fds) && guard < limit
      ensures ok ==> fds == CleanedUpTo(old(fds), report, guard, inherited,
                                        if highest.Some? then highest.value else 1024)
      ensures !ok ==> fds == old(fds)
    {
      ok := Duplicate(report, guard);
      if !ok {
        return;
      }
      ok := SetCloexec(guard, true);
      var bound := if highest.Some? then highest.value else 1024;
      Sweep(bound + 1, guard, inherited);
    }

    /** The whole Linux descriptor chain, up to the call of execve: it goes through exactly
        when every source and the report pipe can be duplicated and close_range works, and then
        leaves exactly the expected descriptors to the new program. */
    method LinuxChild(stdio: Stdio, report: int, guard: int, inherited: set<int>, rangeOk: bool) returns (ok: bool)
      requires Valid() && 3 <= guard && forall fd :: fd in inherited ==> 3 <= fd < guard
      modifies this
      ensures Valid()
      ensures ok <==>
                OpenInTurn(old(fds), stdio) && report in Sequential(old(fds), stdio) && guard < limit && rangeOk
      ensures ok ==> AfterExec(fds) == Expected(old(fds), stdio, inherited)
      ensures ok ==> guard in fds && fds[guard] == Desc(Sequential(old(fds), stdio)[report].file, true)
      ensures ok && report >= 3 ==> report in old(fds) && fds[guard].file == old(fds)[report].file
    {
      ok := SequentialStdio(stdio);
      if !ok {
        return;
      }
      ok := LinuxHygiene(report, guard, inherited, rangeOk);
      if ok {
        ExecKeepsInherited(Sequential(old(fds), stdio), report, guard, inherited);
        ExpectedTable(old(fds), stdio, inherited);
      }
    }
  }

  ghost predicate RoomForThree(t: Table, limit: int) {
    exists a, b, c :: 3 <= a < b < c < limit && a !in t && b !in t && c !in t
  }

  function Swept(t: Table, end: int, guard: int, inherited: set<int>): Table {
    map fd | fd in t && (fd < 3 || fd >= end || fd == guard || fd in inherited) ::
      if 3 <= fd < end && fd != guard then Desc(t[fd].file, false) else t[fd]
  }

  /** The table just before execve: the standard slots, the inherited numbers with
      close-on-exec cleared, and the report pipe in its guard slot. */
  function Cleaned(t: Table, report: int, guard: int, inherited: set<int>): Table
    requires report in t
  {
    (map fd | fd in t && (fd < 3 || fd in inherited) :: if fd < 3 then t[fd] else Desc(t[fd].file, false))
      [guard := Desc(t[report].file, true)]
  }

  /** The same when the sweep stops at `bound`: what lies above is left as it was. */
  function CleanedUpTo(t: Table, report: int, guard: int, inherited: set<int>, bound: int): Table
    requires report in t
  {
    (map fd | fd in t && (fd < 3 || fd > bound || fd in inherited) ::
       if fd < 3 || fd > bound then t[fd] else Desc(t[fd].file, false))
      [guard := Desc(t[report].file, true)]
  }

  /** What the new program should find: the surviving standard slots, and the inherited
      numbers still naming their original files. */
  function Expected(t: Table, stdio: Stdio, inherited: set<int>): map<int, nat>
    requires OpenInTurn(t, stdio)
  {
    var q := Sequential(t, stdio);
    (map k | k in {0, 1, 2} && SlotSurvives(t, stdio, k) :: q[k].file) +
    (map fd | fd in inherited && fd in t :: t[fd].file)
  }

  /** The descriptors a cleaned table leaves across execve. */
  function Survivors(t: Table, inherited: set<int>): map<int, nat> {
    map fd | fd in t && ((fd < 3 && !t[fd].cloexec) || fd in inherited) :: t[fd].file
  }

  lemma ExecKeepsInherited(t: Table, report: int, guard: int, inherited: set<int>)
    requires report in t && 3 <= guard && forall fd :: fd in inherited ==> 3 <= fd < guard
    requires forall fd :: fd in t ==> 0 <= fd
    ensures AfterExec(Cleaned(t, report, guard, inherited)) == Survivors(t, inherited)
  {
  }

  lemma SequentialElsewhere(t: Table, stdio: Stdio, fd: int)
    requires OpenInTurn(t, stdio) && fd !in {0, 1, 2}
    ensures fd in Sequential(t, stdio) <==> fd in t
    ensures fd in t ==> Sequential(t, stdio)[fd] == t[fd]
  {
  }

  lemma ExpectedAt(t: Table, stdio: Stdio, inherited: set<int>, fd: int)
    requires OpenInTurn(t, stdio) && (forall n :: n in t ==> 0 <= n) && forall n :: n in inherited ==> 3 <= n
    ensures fd in Survivors(Sequential(t, stdio), inherited) <==> fd in Expected(t, stdio, inherited)
    ensures fd in Expected(t, stdio, inherited) ==>
              Survivors(Sequential(t, stdio), inherited)[fd] == Expected(t, stdio, inherited)[fd]
  {
    if 0 <= fd < 3 {
      SequentialSlots(t, stdio, fd);
    } else {
      SequentialElsewhere(t, stdio, fd);
    }
  }

  lemma ExpectedTable(t: Table, stdio: Stdio, inherited: set<int>)
    requires OpenInTurn(t, stdio) && (forall fd :: fd in t ==> 0 <= fd) && forall fd :: fd in inherited ==> 3 <= fd
    ensures Survivors(Sequential(t, stdio), inherited) == Expected(t, stdio, inherited)
  {
    var found, expected := Survivors(Sequential(t, stdio), inherited), Expected(t, stdio, inherited);
    forall fd
      ensures fd in found <==> fd in expected
      ensures fd in expected ==> found[fd] == expected[fd]
    {
      ExpectedAt(t, stdio, inherited, fd);
    }
  }

  /** The new program finds exactly 0, 1, 2 and the inherited numbers if and only if no
      close-on-exec descriptor was mapped onto itself. */
  lemma ExactIffNoKeptFlag(t: Table, stdio: Stdio, inherited: set<int>)
    requires OpenInTurn(t, stdio) && forall fd :: fd in inherited ==> 3 <= fd && fd in t
    ensures Expected(t, stdio, inherited).Keys == {0, 1, 2} + inherited <==> NoKeptFlag(t, stdio)
  {
    var e := Expected(t, stdio, inherited);
    assert forall fd :: fd in e <==> (fd in {0, 1, 2} && SlotSurvives(t, stdio, fd)) || fd in inherited;
    if NoKeptFlag(t, stdio) {
      assert e.Keys == {0, 1, 2} + inherited;
    } else {
      assert 0 !in e || 1 !in e || 2 !in e;
    }
  }

  /** Each standard slot then names what its source named at the start, if and only if no
      needed source was overwritten on the way. */
  lemma SlotsExactIff(t: Table, stdio: Stdio, inherited: set<int>)
    requires SourcesOpen(t, stdio) && NoKeptFlag(t, stdio) && forall fd :: fd in inherited ==> 3 <= fd
    ensures var e := Expected(t, stdio, inherited);
            0 in e && 1 in e && 2 in e &&
            (e[0] == t[stdio.in_].file && e[1] == t[stdio.out].file && e[2] == t[stdio.err].file
             <==> NoOverwrittenSource(t, stdio))
  {
    SequentialIffSimultaneous(t, stdio);
  }

  /** The parent sees end-of-file at execve exactly when no descriptor the program keeps
      also names the report pipe. */
  lemma ReportClosesAtExec(t: Table, report: int, guard: int, inherited: set<int>)
    requires report in t && 3 <= guard && forall fd :: fd in inherited ==> 3 <= fd < guard
    requires forall fd :: fd in t ==> 0 <= fd
    ensures var kept := AfterExec(Cleaned(t, report, guard, inherited));
            (forall fd :: fd in kept ==> kept[fd] != t[report].file) <==>
              forall fd :: fd in t && t[fd].file == t[report].file ==> fd !in inherited && (fd < 3 ==> t[fd].cloexec)
  {
    ExecKeepsInherited(t, report, guard, inherited);
    var kept := AfterExec(Cleaned(t, report, guard, inherited));
    assert forall fd :: fd in kept ==> fd in t && kept[fd] == t[fd].file;
    assert forall fd :: fd in t ==> (fd in kept <==> (fd < 3 && !t[fd].cloexec) || fd in inherited);
  }

  /** The macOS sweep leaves what the Linux one leaves exactly when nothing above its bound
      needed closing, or clearing. */
  lemma MacAgreesIff(t: Table, report: int, guard: int, inherited: set<int>, bound: int)
    requires report in t && 3 <= guard && 3 <= bound && forall fd :: fd in inherited ==> 3 <= fd < guard
    ensures AfterExec(CleanedUpTo(t, report, guard, inherited, bound)) ==
            AfterExec(Cleaned(t, report, guard, inherited)) <==>
              forall fd :: fd in t && fd > bound && fd != guard ==> (t[fd].cloexec <==> fd !in inherited)
  {
    var mac, linux := AfterExec(CleanedUpTo(t, report, guard, inherited, bound)),
        AfterExec(Cleaned(t, report, guard, inherited));
    assert forall fd :: fd in t && fd > bound && fd != guard ==>
             (fd in mac <==> !t[fd].cloexec) && (fd in linux <==> fd in inherited);
    assert forall fd :: fd <= bound || fd == guard ==> (fd in mac <==> fd in linux);
    assert forall fd :: fd in mac && fd in linux ==> mac[fd] == linux[fd] == t[fd].file;
    if forall fd :: fd in t && fd > bound && fd != guard ==> (t[fd].cloexec <==> fd !in inherited) {
      assert forall fd :: fd in mac <==> fd in linux;
    }
  }

  // ---- the guard slot ----------------------------------------------------------------

  const MAX_FD: int := 0x7FFF_FFFF

  function SaturatingSucc(fd: int): int {
    if fd >= MAX_FD then MAX_FD else fd + 1
  }

  /** The lowest slot from three on above every inherited and every reserved descriptor, as
      far as a 32-bit number can be above the largest one. `inherited` is sorted, and its
      plain increment must not overflow. */
  method ChooseGuard(inherited: seq<int>, reserved: seq<int>) returns (guard: int)
    requires forall i, j :: 0 <= i < j < |inherited| ==> inherited[i] < inherited[j]
    requires forall fd :: fd in inherited ==> fd < MAX_FD
    requires forall fd :: fd in reserved ==> fd <= MAX_FD
    ensures 3 <= guard <= MAX_FD
    ensures forall fd :: fd in inherited || fd in reserved ==> SaturatingSucc(fd) <= guard
    ensures MAX_FD !in reserved ==> forall fd :: fd in inherited || fd in reserved ==> fd < guard
    ensures guard == 3 || exists fd :: (fd in inherited || fd in reserved) && guard == SaturatingSucc(fd)
  {
    guard := 3;
    if inherited != [] {
      var last := inherited[|inherited| - 1];
      assert last in inherited;
      guard := if last + 1 > 3 then last + 1 else 3;
    }
    for i := 0 to |reserved|
      invariant 3 <= guard <= MAX_FD
      invariant forall fd :: fd in inherited || fd in reserved[..i] ==> SaturatingSucc(fd) <= guard
      invariant guard == 3 || exists fd :: (fd in inherited || fd in reserved) && guard == SaturatingSucc(fd)
    {
      var next := SaturatingSucc(reserved[i]);
      if next > guard {
        guard := next;
      }
      assert reserved[..i + 1] == reserved[..i] + [reserved[i]];
    }
    assert reserved[..|reserved|] == reserved;
  }

  function Members(numbers: seq<int>): set<int> {
    set fd | fd in numbers
  }

  /** `u` is `t` plus one fresh close-on-exec descriptor per file. */
  ghost predicate Extends(t: Table, u: Table, copies: seq<int>, files: seq<nat>) {
    && |copies| == |files|
    && u.Keys == t.Keys + Members(copies)
    && (forall fd :: fd in t ==> u[fd] == t[fd])
    && (forall i :: 0 <= i < |copies| ==>
          copies[i] >= 3 && copies[i] !in t && copies[i] in u && u[copies[i]] == Desc(files[i], true))
    && forall i, j :: 0 <= i < j < |copies| ==> copies[i] != copies[j]
  }

  /** Each file is what the source named at the start, unless the source was stale and an
      earlier copy took its number. */
  ghost predicate Captured(t: Table, stdio: Stdio, copies: seq<int>, files: seq<nat>) {
    && |copies| == |files| <= 3
    && forall i :: 0 <= i < |files| ==>
         if stdio.At(i) in t then files[i] == t[stdio.At(i)].file else stdio.At(i) in copies[..i]
  }

  ghost predicate Snapshot(t: Table, u: Table, stdio: Stdio, copies: seq<int>, files: seq<nat>) {
    Extends(t, u, copies, files) && Captured(t, stdio, copies, files)
  }

  lemma ExtendsGrows(t: Table, u: Table, copies: seq<int>, files: seq<nat>, copy: int, file: nat)
    requires Extends(t, u, copies, files) && copy >= 3 && copy !in u
    ensures Extends(t, u[copy := Desc(file, true)], copies + [copy], files + [file])
  {
    var more := copies + [copy];
    assert forall fd :: fd in more <==> fd in copies || fd == copy;
    assert forall i :: 0 <= i < |copies| ==> copies[i] in u;
  }

  lemma SnapshotGrows(t: Table, u: Table, stdio: Stdio, copies: seq<int>, files: seq<nat>, copy: int)
    requires |copies| < 3 && Snapshot(t, u, stdio, copies, files)
    requires stdio.At(|copies|) in u && copy >= 3 && copy !in u
    ensures var file := u[stdio.At(|copies|)].file;
            Snapshot(t, u[copy := Desc(file, true)], stdio, copies + [copy], files + [file])
  {
    var file := u[stdio.At(|copies|)].file;
    ExtendsGrows(t, u, copies, files, copy, file);
    CapturedGrows(t, stdio, copies, files, copy, file);
  }

  lemma CapturedGrows(t: Table, stdio: Stdio, copies: seq<int>, files: seq<nat>, copy: int, file: nat)
    requires |copies| < 3 && Captured(t, stdio, copies, files)
    requires var source := stdio.At(|copies|); if source in t then file == t[source].file else source in copies
    ensures Captured(t, stdio, copies + [copy], files + [file])
  {
    assert (copies + [copy])[..|copies|] == copies;
    assert forall i :: 0 <= i < |copies| ==> (copies + [copy])[..i] == copies[..i];
  }

  lemma DroppingCopies(t: Table, u: Table, stdio: Stdio, copies: seq<int>, files: seq<nat>)
    requires Snapshot(t, u, stdio, copies, files)
    ensures u - Members(copies) == t
  {
    var dropped := u - Members(copies);
    assert forall fd :: fd in dropped <==> fd in t;
    assert forall fd :: fd in t ==> dropped[fd] == t[fd];
  }

  function Installed(u: Table, files: seq<nat>, n: nat): Table
    requires n <= |files|
  {
    if n == 0 then u else Installed(u, files, n - 1)[n - 1 := Desc(files[n - 1], false)]
  }

  lemma {:induction false} InstalledCopies(t: Table, u: Table, stdio: Stdio, copies: seq<int>, files: seq<nat>, n: nat)
    requires |copies| == 3 && Snapshot(t, u, stdio, copies, files) && n <= 3
    ensures forall i :: 0 <= i < 3 ==>
              copies[i] in Installed(u, files, n) && Installed(u, files, n)[copies[i]] == Desc(files[i], true)
  {
    if n > 0 {
      InstalledCopies(t, u, stdio, copies, files, n - 1);
    }
  }

  lemma InstalledAll(t: Table, u: Table, stdio: Stdio, copies: seq<int>, files: seq<nat>)
    requires |copies| == 3 && Snapshot(t, u, stdio, copies, files)
    ensures Installed(u, files, 3) - Members(copies) ==
            t[0 := Desc(files[0], false)][1 := Desc(files[1], false)][2 := Desc(files[2], false)]
  {
    DroppingCopies(t, u, stdio, copies, files);
    assert Installed(u, files, 3) == Installed(u, files, 2)[2 := Desc(files[2], false)];
    assert Installed(u, files, 2) == Installed(u, files, 1)[1 := Desc(files[1], false)];
    assert Installed(u, files, 1) == u[0 := Desc(files[0], false)];
  }
}
