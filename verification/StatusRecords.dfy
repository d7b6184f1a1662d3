/**
 The 12-byte record a failing child leaves in the status pipe, and the loops that write
 and read it (crates/shbox-sandbox/src/linux/child.rs, crates/shbox-sandbox/src/linux/mod.rs).
 */
module StatusRecords {
  import opened KernelTurns
  import opened LittleEndian
  import opened Options

  const RECORD_LEN: nat := 12
  const MAGIC: seq<Byte> := [83, 66, 88, 49]
  const STAGES: nat := 21

  /** Stage codes run from one; the errno is kept as its 32-bit pattern. */
  datatype Failure = Failure(stage: Byte, detail: Byte, errno: nat)

  predicate Reportable(f: Failure) {
    1 <= f.stage <= STAGES && f.errno < 0x1_0000_0000
  }

  function Record(f: Failure): (r: seq<Byte>)
    ensures |r| == RECORD_LEN
  {
    MAGIC + [f.stage, f.detail, 0, 0] + ToLe(f.errno, 4)
  }

  function Parse(record: seq<Byte>): Option<Failure>
    requires |record| == RECORD_LEN
  {
    if record[..4] != MAGIC || record[4] == 0 || record[4] > STAGES then None
    else Some(Failure(record[4], record[5], FromLe(record[8..])))
  }

  lemma RecordParses(f: Failure)
    requires Reportable(f)
    ensures Parse(Record(f)) == Some(f)
  {
    FieldSizes();
    LeRoundTrip(f.errno, 4);
    assert Record(f)[..4] == MAGIC && Record(f)[8..] == ToLe(f.errno, 4);
  }

  datatype Outcome = Clean | Failed(failure: Failure) | Corrupt

  /** What the bytes that came before end-of-file mean. */
  function Judge(received: seq<Byte>): Outcome {
    if received == [] then Clean
    else if |received| < RECORD_LEN then Corrupt
    else match Parse(received[..RECORD_LEN])
      case Some(f) => Outcome.Failed(f)
      case None => Corrupt
  }

  /** The child's write loop: what reaches the pipe is a prefix of the record, all of it
      unless a write fails. */
  method ReportFailure(f: Failure, turns: seq<Turn>) returns (sent: seq<Byte>)
    ensures sent <= Record(f)
    ensures Unbroken(turns) ==> sent == Record(f)
  {
    var record := Record(f);
    var offset, turn := 0, 0;
    while offset < |record|
      invariant offset <= |record| && turn <= |turns|
      decreases |record| - offset, |turns| - turn
    {
      var answer := if turn < |turns| then turns[turn] else Move(|record|);
      turn := if turn < |turns| then turn + 1 else turn;
      match answer
      case Interrupted =>
      case Broken => break;
      case Move(count) =>
        var left := |record| - offset;
        offset := offset + Moved(count, left);
    }
    sent := record[..offset];
    assert record[..|record|] == record;
  }

  /** The parent's read loop, over everything that was written before the last write end
      closed. */
  method ReadChildFailure(content: seq<Byte>, turns: seq<Turn>) returns (outcome: Outcome)
    ensures Unbroken(turns) ==> outcome == Judge(content)
    ensures outcome == Judge(content) || outcome == Corrupt
  {
    var record: seq<Byte> := [];
    var turn := 0;
    while |record| < RECORD_LEN
      invariant |record| <= RECORD_LEN && |record| <= |content| && record == content[..|record|] && turn <= |turns|
      decreases RECORD_LEN - |record|, |turns| - turn
    {
      var answer := if turn < |turns| then turns[turn] else Move(RECORD_LEN);
      turn := if turn < |turns| then turn + 1 else turn;
      match answer
      case Interrupted =>
      case Broken => return Corrupt;
      case Move(count) =>
        var left, room := |content| - |record|, RECORD_LEN - |record|;
        var most := if left < room then left else room;
        if most == 0 {
          break;
        }
        record := record + content[|record|..|record| + Moved(count, most)];
    }
    if |record| < RECORD_LEN {
      assert content[..|record|] == content;
    }
    if record == [] {
      return Clean;
    }
    if |record| != RECORD_LEN {
      return Corrupt;
    }
    match Parse(record)
    case Some(failure) => outcome := Outcome.Failed(failure);
    case None => outcome := Corrupt;
  }

  /** A report that got through whole is read as exactly the failure reported; a cut one is
      refused; silence is clean. */
  lemma PrefixJudged(f: Failure, received: seq<Byte>)
    requires Reportable(f) && received <= Record(f)
    ensures Judge(received) ==
            if received == [] then Clean else if |received| < RECORD_LEN then Corrupt else Outcome.Failed(f)
  {
    RecordParses(f);
    if |received| == RECORD_LEN {
      assert received == Record(f);
      assert received[..RECORD_LEN] == received;
    }
  }
}
