/**
 The spawn handshake without a PID namespace: the parent side of
 crates/shbox-sandbox/src/linux/mod.rs and the child side of
 crates/shbox-sandbox/src/linux/child.rs as two processes joined by three pipes, either of
 which may die at any point.

 The ID-map files are written by whoever may (the mapper, or anybody else), under the
 kernel's own rule that each is written at most once, and that setgroups can be denied only
 before the group map exists.
 */
module Handshake {
  import LittleEndian
  import opened Options
  import opened ProcMaps
  import opened StatusRecords

  /** The identity an isolated child must be given: one row per map. */
  datatype Identity = Unbarriered | Isolated(uid: Row, gid: Row)

  datatype Child =
    | Starting
    | Announcing
    | Blocked
    | Confined
    | Reporting
    | Running
    | Gone

  datatype Reason = Refused | Reported(failure: Failure) | Unreadable

  datatype Parent =
    | AwaitReady
    | Mapping
    | CheckUid
    | CheckGid
    | CheckGroups
    | Releasing
    | ReadStatus(got: nat)
    | Killing(reason: Reason)
    | Succeeded
    | Returned(error: Reason)
    | Crashed

  datatype Spawn = Spawn(
    identity: Identity,
    child: Child,
    parent: Parent,
    ready: bool,
    installed: bool,
    failure: Option<Failure>,
    sent: nat,
    uidMap: Option<seq<Row>>,
    gidMap: Option<seq<Row>>,
    groupsAllowed: bool,
    executed: bool,
    uidSeen: bool,
    gidSeen: bool,
    groupsSeen: bool,
    brokenRead: bool)

  function Begin(identity: Identity): Spawn {
    Spawn(identity, Starting, if identity.Isolated? then AwaitReady else ReadStatus(0), false, false, None, 0,
          None, None, true, false, false, false, false, false)
  }

  datatype Event =
    // child
    | ChildReady
    | ChildFails(failure: Failure)
    | Announce
    | ReadInstalled
    | InstalledEof(failure: Failure)
    | Exec
    | Report(count: nat)
    | ChildExits
    // parent
    | ReadReady
    | HandshakeFails
    | MapperReturns
    | UidReadBack
    | GidReadBack
    | GroupsReadBack
    | Release
    | ReadSome(count: nat)
    | StatusEof
    | StatusReadFails
    | Reap  // kill and wait: a failure of either is ignored
    | ParentCrashes
    // kernel
    | WriteUidMap(rows: seq<Row>)
    | WriteGidMap(rows: seq<Row>)
    | DenyGroups

  predicate Fit(rows: seq<Row>) {
    forall row :: row in rows ==> row.Fits()
  }

  predicate InHandshake(p: Parent) {
    p.AwaitReady? || p.Mapping? || p.CheckUid? || p.CheckGid? || p.CheckGroups? || p.Releasing?
  }

  /** The parent's comparison, on the text of the map file. */
  predicate ReadsBack(written: Option<seq<Row>>, row: Row) {
    var text := Render(if written.Some? then written.value else []);
    Expected(Truncated(text), row.inside, row.outside)
  }

  predicate Enabled(s: Spawn, e: Event) {
    match e
    case ChildReady => s.child.Starting?
    case ChildFails(f) => Reportable(f) && (s.child.Starting? || s.child.Announcing? || s.child.Blocked? ||
        s.child.Confined?)
    case Announce => s.child.Announcing?
    case ReadInstalled => s.child.Blocked? && s.installed
    case InstalledEof(f) => Reportable(f) && s.child.Blocked? && !s.installed && !InHandshake(s.parent)
    case Exec => s.child.Confined?
    case Report(count) => s.child.Reporting? && 1 <= count <= RECORD_LEN - s.sent
    case ChildExits => !s.child.Gone?
    case ReadReady => s.parent.AwaitReady? && s.ready
    case HandshakeFails => InHandshake(s.parent)
    case MapperReturns => s.parent.Mapping?
    case UidReadBack => s.parent.CheckUid? && s.identity.Isolated? && ReadsBack(s.uidMap, s.identity.uid)
    case GidReadBack => s.parent.CheckGid? && s.identity.Isolated? && ReadsBack(s.gidMap, s.identity.gid)
    case GroupsReadBack => s.parent.CheckGroups? && s.groupsAllowed
    case Release => s.parent.Releasing?
    case ReadSome(count) => s.parent.ReadStatus? && 1 <= count <= s.sent - s.parent.got
    case StatusEof => s.parent.ReadStatus? && s.parent.got == s.sent && (s.child.Running? || s.child.Gone?)
    case StatusReadFails => s.parent.ReadStatus?
    case Reap => s.parent.Killing?
    case ParentCrashes => !s.parent.Crashed? && !s.parent.Succeeded? && !s.parent.Returned?
    case WriteUidMap(rows) => s.uidMap.None? && Fit(rows)
    case WriteGidMap(rows) => s.gidMap.None? && Fit(rows)
    case DenyGroups => s.gidMap.None?
  }

  /** The bytes in the status pipe so far. */
  function Status(s: Spawn): seq<LittleEndian.Byte>
    requires s.failure.Some? && s.sent <= RECORD_LEN
  {
    Record(s.failure.value)[..s.sent]
  }

  /** The parent's decision once it stops reading. */
  function Decide(s: Spawn, got: nat): Parent {
    if got == 0 then Succeeded
    else if s.failure.None? || got > s.sent || s.sent > RECORD_LEN then Killing(Unreadable)
    else match Judge(Status(s)[..got])
      case Clean => Succeeded
      case Failed(f) => Killing(Reported(f))
      case Corrupt => Killing(Unreadable)
  }

  function Step(s: Spawn, e: Event): (s': Spawn)
    requires Enabled(s, e)
    ensures s'.identity == s.identity
    ensures s.child.Gone? ==> s'.child.Gone? && s'.executed == s.executed
    ensures s.executed ==> s'.executed
    ensures s'.child.Gone? ==> s.child.Gone? || e.ChildExits?
    ensures s'.sent == s.sent + if e.Report? then e.count else 0
    ensures s'.failure == if e.ChildFails? || e.InstalledEof? then Some(e.failure) else s.failure
    ensures s'.brokenRead == (s.brokenRead || e.StatusReadFails?)
  {
    match e
    case ChildReady => s.(child := if s.identity.Isolated? then Announcing else Confined)
    case ChildFails(f) => s.(child := Reporting, failure := Some(f))
    case Announce => s.(child := Blocked, ready := true)
    case ReadInstalled => s.(child := Confined)
    case InstalledEof(f) => s.(child := Reporting, failure := Some(f))
    case Exec => s.(child := Running, executed := true)
    case Report(count) => s.(sent := s.sent + count)
    case ChildExits => s.(child := Gone)
    case ReadReady => s.(parent := Mapping)
    case HandshakeFails => s.(parent := Killing(Refused))
    case MapperReturns => s.(parent := CheckUid)
    case UidReadBack => s.(parent := CheckGid, uidSeen := true)
    case GidReadBack => s.(parent := CheckGroups, gidSeen := true)
    case GroupsReadBack => s.(parent := Releasing, groupsSeen := true)
    case Release => s.(parent := ReadStatus(0), installed := true)
    case ReadSome(count) =>
      var got := s.parent.got + count;
      s.(parent := if got == RECORD_LEN then Decide(s, got) else ReadStatus(got))
    case StatusEof => s.(parent := Decide(s, s.parent.got))
    case StatusReadFails => s.(parent := Killing(Unreadable), brokenRead := true)
    case Reap => s.(parent := Returned(s.parent.reason))
    case ParentCrashes => s.(parent := Crashed)
    case WriteUidMap(rows) => s.(uidMap := Some(rows))
    case WriteGidMap(rows) => s.(gidMap := Some(rows))
    case DenyGroups => s.(groupsAllowed := false)
  }

  ghost predicate Runs(s: Spawn, es: seq<Event>, s': Spawn)
    decreases es
  {
    if es == [] then s == s' else Enabled(s, es[0]) && Runs(Step(s, es[0]), es[1..], s')
  }

  ghost predicate Reachable(identity: Identity, s: Spawn) {
    exists es :: Runs(Begin(identity), es, s)
  }

  // ---- the invariant -----------------------------------------------------------------

  /** The maps are exactly the leased rows, and stay so. */
  predicate Mapped(s: Spawn) {
    && s.identity.Isolated?
    && s.uidSeen && s.uidMap == Some([Row(s.identity.uid.inside, s.identity.uid.outside, 1)])
    && s.gidSeen && s.gidMap == Some([Row(s.identity.gid.inside, s.identity.gid.outside, 1)])
    && s.groupsSeen && s.groupsAllowed
  }

  predicate SeenIsTrue(s: Spawn) {
    && (s.uidMap.Some? ==> Fit(s.uidMap.value))
    && (s.gidMap.Some? ==> Fit(s.gidMap.value))
    && (s.uidSeen ==> s.identity.Isolated? && s.uidMap == Some([Row(s.identity.uid.inside, s.identity.uid.outside, 1)]))
    && (s.gidSeen ==> s.identity.Isolated? && s.gidMap == Some([Row(s.identity.gid.inside, s.identity.gid.outside, 1)]))
    && (s.groupsSeen ==> s.groupsAllowed && s.gidSeen)
  }

  predicate ParentOrder(s: Spawn) {
    && (InHandshake(s.parent) ==> s.identity.Isolated? && !s.installed)
    && (s.parent.CheckGid? || s.parent.CheckGroups? || s.parent.Releasing? ==> s.uidSeen)
    && (s.parent.CheckGroups? || s.parent.Releasing? ==> s.gidSeen)
    && (s.parent.Releasing? ==> s.groupsSeen)
    && (s.parent.ReadStatus? || s.parent.Succeeded? ==> s.identity.Isolated? ==> s.installed)
  }

  predicate Barrier(s: Spawn) {
    && (s.installed ==> Mapped(s))
    && (s.identity.Isolated? && (s.child.Confined? || s.child.Running? || s.executed) ==> s.installed)
    && (s.child.Announcing? || s.child.Blocked? ==> s.identity.Isolated?)
  }

  predicate Reports(s: Spawn) {
    && s.sent <= RECORD_LEN
    && (s.failure.Some? ==> Reportable(s.failure.value))
    && (s.failure.None? ==> s.sent == 0)
    && (s.child.Reporting? ==> s.failure.Some?)
    && (s.failure.Some? ==> (s.child.Reporting? || s.child.Gone?) && !s.executed)
    && (s.executed ==> s.child.Running? || s.child.Gone?)
    && (s.child.Running? ==> s.executed)
    && (s.parent.ReadStatus? ==> s.parent.got <= s.sent && s.parent.got < RECORD_LEN)
  }

  function GivenUpFor(p: Parent): Option<Reason> {
    match p
    case Killing(reason) => Some(reason)
    case Returned(reason) => Some(reason)
    case _ => None
  }

  /** The child died in the middle of its report. */
  predicate CutShort(s: Spawn) {
    s.failure.Some? && 0 < s.sent < RECORD_LEN && s.child.Gone?
  }

  /** Once the parent has given up, the child can no longer reach execve. */
  predicate GaveUp(s: Spawn) {
    && (s.parent.Succeeded? ==> s.sent == 0 && (s.child.Running? || s.child.Gone?))
    && (GivenUpFor(s.parent).Some? ==> match GivenUpFor(s.parent).value
          case Refused => s.identity.Isolated? && !s.installed
          case Reported(f) => s.failure == Some(f) && s.sent == RECORD_LEN
          case Unreadable => s.brokenRead || CutShort(s))
  }

  predicate Inv(s: Spawn) {
    SeenIsTrue(s) && ParentOrder(s) && Barrier(s) && Reports(s) && GaveUp(s)
  }

  lemma ReadBackMeansMapped(written: Option<seq<Row>>, row: Row)
    requires (written.Some? ==> Fit(written.value)) && ReadsBack(written, row)
    ensures written == Some([Row(row.inside, row.outside, 1)])
  {
    var rows := if written.Some? then written.value else [];
    ReadBackIsExact(rows, row.inside, row.outside);
  }

  lemma Decides(s: Spawn, got: nat)
    requires Reports(s) && got <= s.sent
    ensures Decide(s, got) ==
            if got == 0 then Succeeded
            else if got < RECORD_LEN then Killing(Unreadable)
            else Killing(Reported(s.failure.value))
  {
    if got > 0 {
      var part := Status(s)[..got];
      assert part <= Record(s.failure.value);
      PrefixJudged(s.failure.value, part);
    }
  }

  predicate ChildMoves(e: Event) {
    e.ChildReady? || e.ChildFails? || e.Announce? || e.ReadInstalled? || e.InstalledEof? || e.Exec? || e.Report? ||
        e.ChildExits?
  }

  predicate StatusMoves(e: Event) {
    e.ReadSome? || e.StatusEof? || e.StatusReadFails? || e.Reap? || e.ParentCrashes?
  }

  predicate KernelMoves(e: Event) {
    e.WriteUidMap? || e.WriteGidMap? || e.DenyGroups?
  }

  lemma ChildKeeps(s: Spawn, e: Event)
    requires Inv(s) && Enabled(s, e) && ChildMoves(e)
    ensures Inv(Step(s, e))
  {
  }

  lemma Concludes(s: Spawn, got: nat, p: Parent)
    requires Inv(s) && s.parent.ReadStatus? && got <= s.sent
    requires got == 0 ==> s.sent == 0 && (s.child.Running? || s.child.Gone?)
    requires 0 < got < RECORD_LEN ==> got == s.sent && s.child.Gone?
    requires p == if got == 0 then Succeeded
                  else if got < RECORD_LEN then Killing(Unreadable)
                  else Killing(Reported(s.failure.value))
    ensures Inv(s.(parent := p))
  {
  }

  lemma ReadingKeeps(s: Spawn, e: Event)
    requires Inv(s) && Enabled(s, e) && (e.ReadSome? || e.StatusEof?)
    ensures Inv(Step(s, e))
  {
    var got := if e.ReadSome? then s.parent.got + e.count else s.parent.got;
    var p := Step(s, e).parent;
    assert Step(s, e) == s.(parent := p);
    if e.StatusEof? || got == RECORD_LEN {
      Decides(s, got);
      Concludes(s, got, p);
    }
  }

  lemma StatusKeeps(s: Spawn, e: Event)
    requires Inv(s) && Enabled(s, e) && (e.StatusReadFails? || e.Reap? || e.ParentCrashes?)
    ensures Inv(Step(s, e))
  {
  }

  lemma KernelKeeps(s: Spawn, e: Event)
    requires Inv(s) && Enabled(s, e) && KernelMoves(e)
    ensures Inv(Step(s, e))
  {
  }

  lemma HandshakeKeeps(s: Spawn, e: Event)
    requires Inv(s) && Enabled(s, e) && !ChildMoves(e) && !StatusMoves(e) && !KernelMoves(e)
    ensures Inv(Step(s, e))
  {
    if e.UidReadBack? {
      ReadBackMeansMapped(s.uidMap, s.identity.uid);
    } else if e.GidReadBack? {
      ReadBackMeansMapped(s.gidMap, s.identity.gid);
    }
  }

  lemma StepKeeps(s: Spawn, e: Event)
    requires Inv(s) && Enabled(s, e)
    ensures Inv(Step(s, e))
  {
    if ChildMoves(e) {
      ChildKeeps(s, e);
    } else if e.ReadSome? || e.StatusEof? {
      ReadingKeeps(s, e);
    } else if StatusMoves(e) {
      StatusKeeps(s, e);
    } else if KernelMoves(e) {
      KernelKeeps(s, e);
    } else {
      HandshakeKeeps(s, e);
    }
  }

  lemma {:induction false} RunKeeps(s: Spawn, es: seq<Event>, s': Spawn)
    requires Inv(s) && Runs(s, es, s')
    ensures Inv(s') && s'.identity == s.identity
    decreases es
  {
    if es != [] {
      StepKeeps(s, es[0]);
      RunKeeps(Step(s, es[0]), es[1..], s');
    }
  }

  lemma ReachableInv(identity: Identity, s: Spawn)
    requires Reachable(identity, s)
    ensures Inv(s) && s.identity == identity
  {
    var es :| Runs(Begin(identity), es, s);
    RunKeeps(Begin(identity), es, s);
  }

  lemma {:induction false} RunsOn(s: Spawn, es: seq<Event>, s': Spawn, e: Event)
    requires Runs(s, es, s') && Enabled(s', e)
    ensures Runs(s, es + [e], Step(s', e))
    decreases es
  {
    if es == [] {
      assert Runs(Step(s, e), [], Step(s, e)) && [e][1..] == [] && es + [e] == [e];
    } else {
      RunsOn(Step(s, es[0]), es[1..], s', e);
      assert (es + [e])[1..] == es[1..] + [e];
    }
  }

  lemma Reach(identity: Identity, s: Spawn, e: Event) returns (s': Spawn)
    requires (s == Begin(identity) || Reachable(identity, s)) && Enabled(s, e)
    ensures s' == Step(s, e) && Reachable(identity, s')
  {
    s' := Step(s, e);
    assert Runs(Begin(identity), [], Begin(identity));
    var es :| Runs(Begin(identity), es, s);
    RunsOn(Begin(identity), es, s, e);
  }

  // ---- theorems ----------------------------------------------------------------------

  /** An isolated child reaches execve only after both maps were read back as exactly the
      one leased row and setgroups as allowed; and that is still what they say. */
  lemma MappingBarrier(identity: Identity, s: Spawn)
    requires Reachable(identity, s) && identity.Isolated?
    requires s.executed || s.child.Confined?
    ensures s.uidSeen && s.gidSeen && s.groupsSeen
    ensures s.uidMap == Some([Row(identity.uid.inside, identity.uid.outside, 1)])
    ensures s.gidMap == Some([Row(identity.gid.inside, identity.gid.outside, 1)])
    ensures s.groupsAllowed
  {
    ReachableInv(identity, s);
  }

  /** The child is past hope: it reports or is gone, or it waits at the barrier for a parent
      that will not release it any more. */
  predicate Hopeless(s: Spawn) {
    && !s.executed && !InHandshake(s.parent)
    && (|| s.child.Reporting? || s.child.Gone?
        || (s.identity.Isolated? && !s.installed && (s.child.Starting? || s.child.Announcing? || s.child.Blocked?)))
  }

  lemma HopelessChild(s: Spawn, e: Event)
    requires Hopeless(s) && Enabled(s, e) && ChildMoves(e)
    ensures Hopeless(Step(s, e))
  {
  }

  lemma HopelessParent(s: Spawn, e: Event)
    requires Hopeless(s) && Enabled(s, e) && StatusMoves(e)
    ensures Hopeless(Step(s, e))
  {
  }

  lemma HopelessStep(s: Spawn, e: Event)
    requires Hopeless(s) && Enabled(s, e)
    ensures Hopeless(Step(s, e))
  {
    if ChildMoves(e) {
      HopelessChild(s, e);
    } else if StatusMoves(e) {
      HopelessParent(s, e);
    }
  }

  lemma {:induction false} HopelessForGood(s: Spawn, es: seq<Event>, s': Spawn)
    requires Hopeless(s) && Runs(s, es, s')
    ensures !s'.executed
    decreases es
  {
    if es != [] {
      HopelessStep(s, es[0]);
      HopelessForGood(Step(s, es[0]), es[1..], s');
    }
  }

  /** The parent has given up, whether or not it has killed and reaped the child yet, and what
      made it give up was not a failing read of the status pipe. */
  predicate GaveUpForCause(s: Spawn) {
    GivenUpFor(s.parent).Some? && (GivenUpFor(s.parent).value.Unreadable? ==> !s.brokenRead)
  }

  /** From the moment the parent gives up the program is never run, in any continuation: even
      if killing or reaping the child fails, or the parent dies before it does either. No
      assumption on reads is needed for an error that is a refusal or a reported failure. */
  lemma GivingUpPreventsExec(identity: Identity, s: Spawn, es: seq<Event>, s': Spawn)
    requires Reachable(identity, s) && GaveUpForCause(s) && Runs(s, es, s')
    ensures !s'.executed
  {
    ReachableInv(identity, s);
    HopelessForGood(s, es, s');
  }

  /** A spawn that returned an error never ran the program, in this state or later, unless
      reading the status pipe itself failed. */
  lemma ErrorMeansNotExecuted(identity: Identity, s: Spawn, es: seq<Event>, s': Spawn)
    requires Reachable(identity, s) && s.parent.Returned? && Runs(s, es, s')
    ensures !s.brokenRead || !s.parent.error.Unreadable? ==> !s'.executed
  {
    if !s.brokenRead || !s.parent.error.Unreadable? {
      GivingUpPreventsExec(identity, s, es, s');
    }
  }

  lemma {:induction false} GoneForGood(s: Spawn, es: seq<Event>, s': Spawn)
    requires s.child.Gone? && Runs(s, es, s')
    ensures s'.child.Gone? && s'.executed == s.executed
    decreases es
  {
    if es != [] {
      GoneForGood(Step(s, es[0]), es[1..], s');
    }
  }

  /** The error a spawn returns is the failure the child reported, byte for byte; an
      unreadable status means the child died with its report cut short, or the read failed. */
  lemma ErrorsAreGenuine(identity: Identity, s: Spawn)
    requires Reachable(identity, s) && s.parent.Returned?
    ensures match s.parent.error
            case Refused => identity.Isolated? && !s.installed
            case Reported(f) => s.failure == Some(f) && s.sent == RECORD_LEN
            case Unreadable => s.brokenRead || CutShort(s)
  {
    ReachableInv(identity, s);
  }

  /** The failure the child ran into on a run, as its events tell. */
  function FailureOn(es: seq<Event>): Option<Failure> {
    if es == [] then None
    else if es[0].ChildFails? || es[0].InstalledEof? then Some(es[0].failure)
    else FailureOn(es[1..])
  }

  /** The bytes the child wrote to the status pipe on a run. */
  function SentOn(es: seq<Event>): nat {
    if es == [] then 0 else SentOn(es[1..]) + if es[0].Report? then es[0].count else 0
  }

  lemma FailsOnce(s: Spawn, e: Event)
    requires Reports(s) && s.failure.Some? && Enabled(s, e)
    ensures !e.ChildFails? && !e.InstalledEof?
  {
  }

  lemma {:induction false} RecordsOnRun(s: Spawn, es: seq<Event>, s': Spawn)
    requires Inv(s) && Runs(s, es, s')
    ensures s'.sent == s.sent + SentOn(es)
    ensures s'.failure == if s.failure.Some? then s.failure else FailureOn(es)
    ensures s'.brokenRead <==> s.brokenRead || StatusReadFails in es
    decreases es
  {
    if es != [] {
      var e, m, rest := es[0], Step(s, es[0]), es[1..];
      StepKeeps(s, e);
      if s.failure.Some? {
        FailsOnce(s, e);
      }
      RecordsOnRun(m, rest, s');
      assert StatusReadFails in es <==> e == StatusReadFails || StatusReadFails in rest;
    }
  }

  predicate IsRefused(p: Parent) {
    GivenUpFor(p) == Some(Refused)
  }

  lemma RefusalStep(s: Spawn, e: Event)
    requires Enabled(s, e)
    ensures IsRefused(Step(s, e).parent) ==> IsRefused(s.parent) || e == HandshakeFails
    ensures IsRefused(s.parent) ==> IsRefused(Step(s, e).parent) || Step(s, e).parent.Crashed?
    ensures s.parent.Crashed? ==> Step(s, e).parent.Crashed?
  {
  }

  lemma {:induction false} RefusedForGood(s: Spawn, es: seq<Event>, s': Spawn)
    requires (s.parent.Crashed? || IsRefused(s.parent)) && Runs(s, es, s')
    ensures s'.parent.Crashed? || IsRefused(s'.parent)
    decreases es
  {
    if es != [] {
      RefusalStep(s, es[0]);
      RefusedForGood(Step(s, es[0]), es[1..], s');
    }
  }

  lemma {:induction false} RefusedOnRun(s: Spawn, es: seq<Event>, s': Spawn)
    requires Runs(s, es, s') && !IsRefused(s.parent)
    ensures if HandshakeFails in es then s'.parent.Crashed? || IsRefused(s'.parent) else !IsRefused(s'.parent)
    decreases es
  {
    if es != [] {
      var e, m, rest := es[0], Step(s, es[0]), es[1..];
      assert HandshakeFails in es <==> e == HandshakeFails || HandshakeFails in rest;
      RefusalStep(s, e);
      if e == HandshakeFails {
        RefusedForGood(m, rest, s');
      } else {
        RefusedOnRun(m, rest, s');
      }
    }
  }

  /** What a spawn that gave up returns, from the events of its run alone: a handshake that
      failed is a refusal. After it, if no read failed, a report the child wrote whole is
      returned as the child's own failure, and only a cut one is unreadable. */
  lemma ErrorIsDecidedByEvents(identity: Identity, es: seq<Event>, s: Spawn)
    requires Runs(Begin(identity), es, s) && s.parent.Returned?
    ensures s.parent.error == Refused <==> HandshakeFails in es
    ensures HandshakeFails !in es && StatusReadFails !in es ==>
              && 0 < SentOn(es) <= RECORD_LEN && FailureOn(es).Some?
              && s.parent.error == if SentOn(es) == RECORD_LEN then Reported(FailureOn(es).value) else Unreadable
  {
    RunKeeps(Begin(identity), es, s);
    RecordsOnRun(Begin(identity), es, s);
    RefusedOnRun(Begin(identity), es, s);
  }

  /** A report that the child wrote whole is lost if the handshake fails: the refusal is
      returned instead. */
  lemma RefusalHidesReport(uid: Row, gid: Row, f: Failure)
    requires Reportable(f)
    ensures exists es, s :: Runs(Begin(Isolated(uid, gid)), es, s) && SentOn(es) == RECORD_LEN
                            && FailureOn(es) == Some(f) && s.parent == Returned(Refused)
  {
    var id := Isolated(uid, gid);
    var s := Reach(id, Begin(id), ChildFails(f));
    s := Reach(id, s, Report(RECORD_LEN));
    s := Reach(id, s, HandshakeFails);
    s := Reach(id, s, Reap);
    var es :| Runs(Begin(id), es, s);
    RecordsOnRun(Begin(id), es, s);
  }

  lemma HalfReported(f: Failure, first: nat) returns (s: Spawn)
    requires Reportable(f) && 0 < first < RECORD_LEN
    ensures Reachable(Unbarriered, s) && s.parent == ReadStatus(first) && s.sent == first
    ensures s.failure == Some(f) && s.child == Reporting
  {
    s := Reach(Unbarriered, Begin(Unbarriered), ChildReady);
    s := Reach(Unbarriered, s, ChildFails(f));
    s := Reach(Unbarriered, s, Report(first));
    s := Reach(Unbarriered, s, ReadSome(first));
  }

  /** A setup failure is returned: the child reports, the parent reads, in any two pieces. */
  lemma FailureIsReturned(f: Failure, first: nat)
    requires Reportable(f) && 0 < first < RECORD_LEN
    ensures exists s :: Reachable(Unbarriered, s) && s.parent == Returned(Reported(f))
  {
    var s := HalfReported(f, first);
    s := Reach(Unbarriered, s, Report(RECORD_LEN - first));
    ReachableInv(Unbarriered, s);
    Decides(s, RECORD_LEN);
    s := Reach(Unbarriered, s, ReadSome(RECORD_LEN - first));
    s := Reach(Unbarriered, s, Reap);
  }

  /** Success means the program ran, or the child died without a word and never runs it in
      any continuation; an isolated one had its maps verified either way. */
  lemma SuccessMeansRanOrDied(identity: Identity, s: Spawn, es: seq<Event>, s': Spawn)
    requires Reachable(identity, s) && s.parent.Succeeded? && Runs(s, es, s')
    ensures s.sent == 0
    ensures !s.executed ==> s.child.Gone? && !s'.executed
    ensures identity.Isolated? ==> Mapped(s)
  {
    ReachableInv(identity, s);
    if !s.executed {
      GoneForGood(s, es, s');
    }
  }

  /** Somewhere along the run the child exits before it has executed the program. */
  ghost predicate DiesEarly(s: Spawn, es: seq<Event>)
    decreases es
  {
    && es != [] && Enabled(s, es[0])
    && ((es[0].ChildExits? && !s.executed) || DiesEarly(Step(s, es[0]), es[1..]))
  }

  lemma {:induction false} EarlyDeathOnRun(s: Spawn, es: seq<Event>, s': Spawn)
    requires Runs(s, es, s') && (s.child.Gone? ==> s.executed)
    ensures DiesEarly(s, es) ==> s'.child.Gone? && !s'.executed
    ensures !DiesEarly(s, es) ==> (s'.child.Gone? ==> s'.executed)
    decreases es
  {
    if es != [] {
      var m := Step(s, es[0]);
      if es[0].ChildExits? && !s.executed {
        GoneForGood(m, es[1..], s');
      } else {
        EarlyDeathOnRun(m, es[1..], s');
      }
    }
  }

  /** Exactly when success means that the program ran: if and only if the child did not exit
      on the run before executing it. */
  lemma SuccessMeansRanIff(identity: Identity, es: seq<Event>, s: Spawn)
    requires Runs(Begin(identity), es, s) && s.parent.Succeeded?
    ensures s.executed <==> !DiesEarly(Begin(identity), es)
  {
    RunKeeps(Begin(identity), es, s);
    EarlyDeathOnRun(Begin(identity), es, s);
  }

  /** The assumption on pipe reads is needed: a read that fails after execve turns a
      running program into an error. */
  lemma BrokenReadAfterExec()
    ensures exists s :: Reachable(Unbarriered, s) && s.parent.Returned? && s.brokenRead && s.executed
  {
    var s0 := Begin(Unbarriered);
    var s1 := Reach(Unbarriered, s0, ChildReady);
    var s2 := Reach(Unbarriered, s1, Exec);
    var s3 := Reach(Unbarriered, s2, StatusReadFails);
    var s4 := Reach(Unbarriered, s3, ChildExits);
    var s5 := Reach(Unbarriered, s4, Reap);
  }

  /** A silent death before execve is reported as success. */
  lemma SilentDeathLooksClean()
    ensures exists s :: Reachable(Unbarriered, s) && s.parent.Succeeded? && !s.executed
  {
    var s0 := Begin(Unbarriered);
    var s1 := Reach(Unbarriered, s0, ChildExits);
    var s2 := Reach(Unbarriered, s1, StatusEof);
  }

  /** The handshake can succeed: a mapper that writes the leased rows gets the program run,
      and only then does the parent return success. */
  lemma IsolatedLaunchSucceeds(uid: Row, gid: Row)
    requires uid.Fits() && gid.Fits() && uid.length == 1 && gid.length == 1
    ensures exists s :: Reachable(Isolated(uid, gid), s) && s.parent.Succeeded? && s.executed && s.child.Running?
  {
    var id := Isolated(uid, gid);
    var s := ReleasedChild(uid, gid);
    s := Reach(id, s, ReadInstalled);
    s := Reach(id, s, Exec);
    s := Reach(id, s, StatusEof);
  }

  lemma WaitingParent(uid: Row, gid: Row) returns (s: Spawn)
    requires uid.Fits() && gid.Fits()
    ensures Reachable(Isolated(uid, gid), s)
    ensures s == Begin(Isolated(uid, gid)).(child := Blocked, ready := true, parent := CheckUid, uidMap := Some([uid]),
        gidMap := Some([gid]))
  {
    var id := Isolated(uid, gid);
    s := Reach(id, Begin(id), ChildReady);
    s := Reach(id, s, Announce);
    s := Reach(id, s, ReadReady);
    s := Reach(id, s, WriteUidMap([uid]));
    s := Reach(id, s, WriteGidMap([gid]));
    s := Reach(id, s, MapperReturns);
  }

  lemma ReleasedChild(uid: Row, gid: Row) returns (s: Spawn)
    requires uid.Fits() && gid.Fits() && uid.length == 1 && gid.length == 1
    ensures Reachable(Isolated(uid, gid), s)
    ensures s.child.Blocked? && s.installed && s.parent == ReadStatus(0) && s.sent == 0 && s.failure.None?
  {
    var id := Isolated(uid, gid);
    ReadBackIsExact([uid], uid.inside, uid.outside);
    ReadBackIsExact([gid], gid.inside, gid.outside);
    s := WaitingParent(uid, gid);
    s := Reach(id, s, UidReadBack);
    s := Reach(id, s, GidReadBack);
    s := Reach(id, s, GroupsReadBack);
    s := Reach(id, s, Release);
  }
}
