/**
 The SCM_RIGHTS control buffer of the ID-map broker: the layout written by the sender and
 the walker that reads it back (crates/shbox/src/platform/idmap_broker.rs).

 Sizes are those of the 64-bit Linux ABI: an 8-byte word, a 16-byte `cmsghdr` (length,
 level, type) and 4-byte descriptors.
 */
module ControlMessages {
  import opened LittleEndian

  const HEADER: nat := 16
  const FD_SIZE: nat := 4
  const SOL_SOCKET: nat := 1
  const SCM_RIGHTS: nat := 1

  // ---- alignment -------------------------------------------------------------------

  function Align(value: nat): nat {
    (value + 7) / 8 * 8
  }

  /** `align` gives the least multiple of the word at or above its input. */
  lemma AlignIsLeast(value: nat, m: nat)
    ensures Align(value) % 8 == 0 && value <= Align(value) < value + 8
    ensures m % 8 == 0 && value <= m ==> Align(value) <= m
  {
  }

  /** Bitwise and of two machine words, bit by bit. */
  function And(a: nat, b: nat): nat {
    if a == 0 || b == 0 then 0
    else (if a % 2 == 1 && b % 2 == 1 then 1 else 0) + 2 * And(a / 2, b / 2)
  }

  function Ones(width: nat): nat {
    if width == 0 then 0 else 1 + 2 * Ones(width - 1)
  }

  lemma {:induction false} AndOnes(n: nat, width: nat)
    requires n <= Ones(width)
    ensures And(n, Ones(width)) == n
    decreases width
  {
    if n > 0 {
      AndOnes(n / 2, width - 1);
      assert Ones(width) / 2 == Ones(width - 1) && Ones(width) % 2 == 1;
    }
  }

  /** A mask without its lowest bit clears that bit and masks the rest. */
  lemma AndEven(n: nat, half: nat, mask: nat, twice: nat)
    requires half == n / 2 && twice == 2 * mask
    ensures And(n, twice) == 2 * And(half, mask)
  {
    assert twice / 2 == mask && twice % 2 == 0;
  }

  lemma AndThreeZeros(n: nat, eighth: nat, mask: nat, m8: nat)
    requires eighth == n / 8 && m8 == 8 * mask
    ensures And(n, m8) == 8 * And(eighth, mask)
  {
    var n2, n4, m2, m4 := n / 2, n / 4, 2 * mask, 4 * mask;
    AndEven(n, n2, m4, m8);
    AndEven(n2, n4, m2, m4);
    AndEven(n4, eighth, mask, m2);
  }

  /** The source's mask, all bits of a machine word but the lowest three, computes `Align`
      as long as the addition does not overflow the word. */
  lemma AlignByMask(value: nat, width: nat)
    requires 3 <= width && value + 7 <= Ones(width)
    ensures And(value + 7, Ones(width) - 7) == Align(value)
  {
    var m := Ones(width - 3);
    assert Ones(width) == 1 + 2 * Ones(width - 1) && Ones(width - 1) == 1 + 2 * Ones(width - 2);
    assert Ones(width) - 7 == 8 * m;
    AndThreeZeros(value + 7, (value + 7) / 8, m, Ones(width) - 7);
    AndOnes((value + 7) / 8, width - 3);
  }

  function CmsgLen(payload: nat): nat { Align(HEADER) + payload }
  function CmsgSpace(payload: nat): nat { Align(HEADER) + Align(payload) }

  lemma SpaceIsAlignedLength(payload: nat)
    ensures CmsgSpace(payload) == Align(CmsgLen(payload))
  {
  }

  // ---- layout ----------------------------------------------------------------------

  datatype Message = Rights(fds: seq<nat>) | Other(level: nat, kind: nat, data: seq<Byte>)

  function FdBytes(fds: seq<nat>): (s: seq<Byte>)
    ensures |s| == FD_SIZE * |fds|
  {
    if fds == [] then [] else ToLe(fds[0], FD_SIZE) + FdBytes(fds[1..])
  }

  function Payload(m: Message): seq<Byte> {
    if m.Rights? then FdBytes(m.fds) else m.data
  }

  function Zeros(n: nat): seq<Byte> {
    seq(n, _ => 0)
  }

  function Header(length: nat, level: nat, kind: nat): (s: seq<Byte>)
    ensures |s| == HEADER
  {
    ToLe(length, 8) + ToLe(level, 4) + ToLe(kind, 4)
  }

  /** One record: header, payload, zero padding up to a word boundary. */
  function Record(level: nat, kind: nat, data: seq<Byte>): seq<Byte> {
    Header(CmsgLen(|data|), level, kind) + data + Zeros(Align(|data|) - |data|)
  }

  function Layout(m: Message): seq<Byte> {
    match m
    case Rights(fds) => Record(SOL_SOCKET, SCM_RIGHTS, FdBytes(fds))
    case Other(level, kind, data) => Record(level, kind, data)
  }

  /** What a field can hold: non-negative 32-bit descriptors and 32-bit level and type. */
  predicate WellFormed(m: Message) {
    && CmsgLen(|Payload(m)|) < 0x1_0000_0000_0000_0000
    && match m
       case Rights(fds) => forall i :: 0 <= i < |fds| ==> fds[i] < 0x8000_0000
       case Other(level, kind, _) =>
         level < 0x1_0000_0000 && kind < 0x1_0000_0000 && !(level == SOL_SOCKET && kind == SCM_RIGHTS)
  }

  lemma Assembled(control: seq<Byte>, header: seq<Byte>, data: seq<Byte>, pad: nat)
    requires |control| == |header| + |data| + pad
    requires forall j :: 0 <= j < |header| ==> control[j] == header[j]
    requires forall j :: 0 <= j < |data| ==> control[|header| + j] == data[j]
    requires forall j :: |header| + |data| <= j < |control| ==> control[j] == 0
    ensures control == header + data + Zeros(pad)
  {
  }

  /** The sender's control buffer: the record for the descriptors, or only a zeroed header
      when there are none. */
  method BuildControl(fds: seq<nat>) returns (control: seq<Byte>)
    ensures fds != [] ==> control == Layout(Rights(fds))
    ensures fds == [] ==> control == Zeros(HEADER)
  {
    var data := FdBytes(fds);
    var buffer := new Byte[CmsgSpace(|data|)](_ => 0);
    if fds != [] {
      var header := Header(CmsgLen(|data|), SOL_SOCKET, SCM_RIGHTS);
      Put(buffer, 0, header);
      Put(buffer, HEADER, data);
      Assembled(buffer[..], header, data, Align(|data|) - |data|);
    }
    control := buffer[..];
  }

  // ---- walking ---------------------------------------------------------------------

  datatype Reason = InvalidLength | BeyondBuffer | UnalignedPayload | NegativeDescriptor

  datatype Walked = Fds(fds: seq<nat>) | Malformed(reason: Reason)

  function Prepend(fds: seq<nat>, w: Walked): Walked {
    if w.Fds? then Fds(fds + w.fds) else w
  }

  /** The descriptors of a payload whose size is a multiple of theirs. */
  function PayloadFds(data: seq<Byte>): Walked {
    if |data| < FD_SIZE then Fds([])
    else
      var raw := FromLe(data[..FD_SIZE]);
      if raw >= 0x8000_0000 then Malformed(NegativeDescriptor)
      else Prepend([raw], PayloadFds(data[FD_SIZE..]))
  }

  /** The contribution of the record at the start of `buffer`. */
  function RecordFds(buffer: seq<Byte>, length: nat): Walked
    requires HEADER <= length <= |buffer|
  {
    if FromLe(buffer[8..12]) == SOL_SOCKET && FromLe(buffer[12..16]) == SCM_RIGHTS then
      if (length - HEADER) % FD_SIZE != 0 then Malformed(UnalignedPayload) else PayloadFds(buffer[HEADER..length])
    else Fds([])
  }

  function Walk(buffer: seq<Byte>): Walked
    decreases |buffer|
  {
    if |buffer| < HEADER then Fds([])
    else
      var length := FromLe(buffer[..8]);
      if length < CmsgLen(0) || length > |buffer| then Malformed(InvalidLength)
      else if Align(length) > |buffer| then Malformed(BeyondBuffer)
      else
        var here := RecordFds(buffer, length);
        if here.Malformed? then here else Prepend(here.fds, Walk(buffer[Align(length)..]))
  }

  /** One turn of the payload loop, on what is left of the payload. */
  lemma PayloadStep(data: seq<Byte>, fds: seq<nat>, rest: seq<Byte>)
    requires |rest| >= FD_SIZE && PayloadFds(data) == Prepend(fds, PayloadFds(rest))
    ensures var raw := FromLe(rest[..FD_SIZE]);
      if raw >= 0x8000_0000 then PayloadFds(data) == Malformed(NegativeDescriptor)
      else PayloadFds(data) == Prepend(fds + [raw], PayloadFds(rest[FD_SIZE..]))
  {
    var raw := FromLe(rest[..FD_SIZE]);
    if raw < 0x8000_0000 {
      PrependTwice(fds, [raw], PayloadFds(rest[FD_SIZE..]));
    }
  }

  /** The source's loop over one payload. */
  method CollectPayload(buffer: seq<Byte>, start: nat, count: nat) returns (r: Walked)
    requires start + count * FD_SIZE <= |buffer|
    ensures r == PayloadFds(buffer[start..start + count * FD_SIZE])
  {
    var fds: seq<nat> := [];
    ghost var data := buffer[start..start + count * FD_SIZE];
    ghost var rest := data;
    for index := 0 to count
      invariant |rest| == (count - index) * FD_SIZE
      invariant rest == buffer[start + index * FD_SIZE..start + count * FD_SIZE]
      invariant PayloadFds(data) == Prepend(fds, PayloadFds(rest))
    {
      var at := start + index * FD_SIZE;
      assert rest[..FD_SIZE] == buffer[at..at + FD_SIZE];
      PayloadStep(data, fds, rest);
      var raw := FromLe(buffer[at..at + FD_SIZE]);
      if raw >= 0x8000_0000 {
        return Malformed(NegativeDescriptor);
      }
      fds := fds + [raw];
      rest := rest[FD_SIZE..];
    }
    r := Fds(fds);
  }

  method CollectRecord(buffer: seq<Byte>, length: nat) returns (r: Walked)
    requires HEADER <= length <= |buffer|
    ensures r == RecordFds(buffer, length)
  {
    if FromLe(buffer[8..12]) == SOL_SOCKET && FromLe(buffer[12..16]) == SCM_RIGHTS {
      if (length - HEADER) % FD_SIZE != 0 {
        return Malformed(UnalignedPayload);
      }
      var count := (length - HEADER) / FD_SIZE;
      assert HEADER + count * FD_SIZE == length;
      r := CollectPayload(buffer, HEADER, count);
    } else {
      r := Fds([]);
    }
  }

  lemma WalkOneRecord(buffer: seq<Byte>, length: nat, here: Walked)
    requires |buffer| >= HEADER && length == FromLe(buffer[..8]) && CmsgLen(0) <= length && Align(length) <= |buffer|
    requires length <= |buffer| && here == RecordFds(buffer, length)
    ensures here.Fds? ==> Walk(buffer) == Prepend(here.fds, Walk(buffer[Align(length)..]))
    ensures here.Malformed? ==> Walk(buffer) == here
  {
  }

  lemma PrependTwice(a: seq<nat>, b: seq<nat>, w: Walked)
    ensures Prepend(a, Prepend(b, w)) == Prepend(a + b, w)
  {
    if w.Fds? {
      assert a + (b + w.fds) == (a + b) + w.fds;
    }
  }

  /** The walker terminates and stays inside the buffer on arbitrary bytes. */
  method CollectControlFds(buffer: seq<Byte>) returns (r: Walked)
    ensures r == Walk(buffer)
  {
    var descriptors: seq<nat> := [];
    var offset := 0;
    while |buffer| - offset >= HEADER
      invariant offset <= |buffer|
      invariant Walk(buffer) == Prepend(descriptors, Walk(buffer[offset..]))
    {
      var rest := buffer[offset..];
      var length := FromLe(rest[..8]);
      if length < CmsgLen(0) || length > |rest| {
        return Malformed(InvalidLength);
      }
      var aligned := Align(length);
      if aligned > |rest| {
        return Malformed(BeyondBuffer);
      }
      var here := CollectRecord(rest, length);
      WalkOneRecord(rest, length, here);
      if here.Malformed? {
        return here;
      }
      PrependTwice(descriptors, here.fds, Walk(rest[aligned..]));
      descriptors := descriptors + here.fds;
      assert rest[aligned..] == buffer[offset + aligned..];
      offset := offset + aligned;
    }
    r := Fds(descriptors);
  }

  // ---- the round trip --------------------------------------------------------------

  function Concat(ms: seq<Message>): seq<Byte> {
    if ms == [] then [] else Layout(ms[0]) + Concat(ms[1..])
  }

  /** The descriptors carried by the rights records, in order. */
  function Carried(ms: seq<Message>): seq<nat> {
    if ms == [] then [] else (if ms[0].Rights? then ms[0].fds else []) + Carried(ms[1..])
  }

  lemma {:induction false} PayloadRoundTrip(fds: seq<nat>)
    requires forall i :: 0 <= i < |fds| ==> fds[i] < 0x8000_0000
    ensures PayloadFds(FdBytes(fds)) == Fds(fds)
  {
    if fds != [] {
      PayloadRoundTrip(fds[1..]);
      PayloadCons(fds[0], ToLe(fds[0], FD_SIZE), FdBytes(fds[1..]), fds[1..]);
      assert fds == [fds[0]] + fds[1..];
    }
  }

  lemma PayloadCons(fd: nat, head: seq<Byte>, rest: seq<Byte>, fds: seq<nat>)
    requires fd < 0x8000_0000 && head == ToLe(fd, FD_SIZE) && PayloadFds(rest) == Fds(fds)
    ensures PayloadFds(head + rest) == Fds([fd] + fds)
  {
    OneFd(fd, head, rest);
  }

  lemma OneFd(fd: nat, head: seq<Byte>, rest: seq<Byte>)
    requires fd < 0x8000_0000 && head == ToLe(fd, FD_SIZE)
    ensures (head + rest)[..FD_SIZE] == head && (head + rest)[FD_SIZE..] == rest && FromLe(head) == fd
  {
    FieldSizes();
    LeRoundTrip(fd, FD_SIZE);
  }

  lemma Slices(len8: seq<Byte>, level4: seq<Byte>, kind4: seq<Byte>, data: seq<Byte>, pad: seq<Byte>, tail: seq<Byte>)
    requires |len8| == 8 && |level4| == 4 && |kind4| == 4
    ensures var b := (len8 + level4 + kind4) + data + pad + tail;
      && b[..8] == len8 && b[8..12] == level4 && b[12..16] == kind4
      && b[16..16 + |data|] == data && b[16 + |data| + |pad|..] == tail
  {
  }

  predicate IsRights(level: nat, kind: nat) { level == SOL_SOCKET && kind == SCM_RIGHTS }

  lemma WalkFields(b: seq<Byte>, level: nat, kind: nat, data: seq<Byte>, tail: seq<Byte>, here: Walked)
    requires |b| == CmsgSpace(|data|) + |tail|
    requires FromLe(b[..8]) == CmsgLen(|data|) && FromLe(b[8..12]) == level && FromLe(b[12..16]) == kind
    requires b[HEADER..HEADER + |data|] == data && b[CmsgSpace(|data|)..] == tail
    requires IsRights(level, kind) ==> |data| % FD_SIZE == 0
    requires here.Fds? && here == if IsRights(level, kind) then PayloadFds(data) else Fds([])
    ensures Walk(b) == Prepend(here.fds, Walk(tail))
  {
    SpaceIsAlignedLength(|data|);
    WalkOneRecord(b, CmsgLen(|data|), here);
  }

  lemma FieldReads(v: nat, n: nat, s: seq<Byte>)
    requires s == ToLe(v, n) && (n == 4 || n == 8) && v < if n == 4 then 0x1_0000_0000 else 0x1_0000_0000_0000_0000
    ensures FromLe(s) == v
  {
    FieldSizes();
    LeRoundTrip(v, n);
  }

  /** What the walker finds in a laid-out record. */
  predicate Carries(b: seq<Byte>, level: nat, kind: nat, data: seq<Byte>, tail: seq<Byte>) {
    && |b| == CmsgSpace(|data|) + |tail|
    && FromLe(b[..8]) == CmsgLen(|data|) && FromLe(b[8..12]) == level && FromLe(b[12..16]) == kind
    && b[HEADER..HEADER + |data|] == data && b[CmsgSpace(|data|)..] == tail
  }

  lemma LaidOut(b: seq<Byte>, level: nat, kind: nat, data: seq<Byte>, tail: seq<Byte>)
    requires CmsgLen(|data|) < 0x1_0000_0000_0000_0000 && level < 0x1_0000_0000 && kind < 0x1_0000_0000
    requires b == Record(level, kind, data) + tail
    ensures Carries(b, level, kind, data, tail)
  {
    var len8, level4, kind4 := ToLe(CmsgLen(|data|), 8), ToLe(level, 4), ToLe(kind, 4);
    Slices(len8, level4, kind4, data, Zeros(Align(|data|) - |data|), tail);
    FieldReads(CmsgLen(|data|), 8, b[..8]);
    FieldReads(level, 4, b[8..12]);
    FieldReads(kind, 4, b[12..16]);
  }

  /** A record whose fields fit is read back as written, and the walk goes on behind it. */
  lemma RawRecord(b: seq<Byte>, level: nat, kind: nat, data: seq<Byte>, tail: seq<Byte>, here: Walked)
    requires CmsgLen(|data|) < 0x1_0000_0000_0000_0000 && level < 0x1_0000_0000 && kind < 0x1_0000_0000
    requires b == Record(level, kind, data) + tail
    requires IsRights(level, kind) ==> |data| % FD_SIZE == 0
    requires here.Fds? && here == if IsRights(level, kind) then PayloadFds(data) else Fds([])
    ensures Walk(b) == Prepend(here.fds, Walk(tail))
  {
    LaidOut(b, level, kind, data, tail);
    WalkFields(b, level, kind, data, tail, here);
  }

  lemma WholeDescriptors(size: nat, count: nat)
    requires size == FD_SIZE * count
    ensures size % FD_SIZE == 0
  {
  }

  lemma RightsRoundTrip(fds: seq<nat>, data: seq<Byte>, tail: seq<Byte>, b: seq<Byte>)
    requires data == FdBytes(fds) && CmsgLen(|data|) < 0x1_0000_0000_0000_0000 && PayloadFds(data) == Fds(fds)
    requires b == Record(SOL_SOCKET, SCM_RIGHTS, data) + tail
    ensures Walk(b) == Prepend(fds, Walk(tail))
  {
    WholeDescriptors(|data|, |fds|);
    RawRecord(b, SOL_SOCKET, SCM_RIGHTS, data, tail, Fds(fds));
  }

  lemma RecordRoundTrip(m: Message, tail: seq<Byte>)
    requires WellFormed(m)
    ensures Walk(Layout(m) + tail) == Prepend(if m.Rights? then m.fds else [], Walk(tail))
  {
    match m {
      case Rights(fds) =>
        PayloadRoundTrip(fds);
        RightsRoundTrip(fds, FdBytes(fds), tail, Layout(m) + tail);
      case Other(level, kind, data) =>
        RawRecord(Layout(m) + tail, level, kind, data, tail, Fds([]));
    }
  }

  /** Walking any sequence of well-formed records returns exactly the descriptors of its
      rights records, in order, and skips the others. */
  lemma {:induction false} WalkRoundTrip(ms: seq<Message>)
    requires forall i :: 0 <= i < |ms| ==> WellFormed(ms[i])
    ensures Walk(Concat(ms)) == Fds(Carried(ms))
  {
    if ms != [] {
      RecordRoundTrip(ms[0], Concat(ms[1..]));
      WalkRoundTrip(ms[1..]);
    }
  }

  /** What is sent is what is received; an empty list leaves a header the walker refuses. */
  lemma SendReceive(fds: seq<nat>)
    requires WellFormed(Rights(fds))
    ensures Walk(Layout(Rights(fds))) == Fds(fds)
    ensures Walk(Zeros(HEADER)) == Malformed(InvalidLength)
  {
    RecordRoundTrip(Rights(fds), []);
    assert Layout(Rights(fds)) + [] == Layout(Rights(fds));
    assert Zeros(HEADER)[..8] == Zeros(8);
    ZerosReadZero(8);
  }

  lemma {:induction false} ZerosReadZero(n: nat)
    ensures FromLe(Zeros(n)) == 0
  {
    if n > 0 {
      assert Zeros(n)[1..] == Zeros(n - 1);
      ZerosReadZero(n - 1);
    }
  }

  /** On arbitrary bytes every descriptor returned is non-negative and has its own four
      bytes of the buffer beyond a header. */
  lemma {:induction false} WalkStaysInside(buffer: seq<Byte>)
    ensures Walk(buffer).Fds? ==>
              FD_SIZE * |Walk(buffer).fds| + (if Walk(buffer).fds == [] then 0 else HEADER) <= |buffer|
    ensures Walk(buffer).Fds? ==> forall i :: 0 <= i < |Walk(buffer).fds| ==> Walk(buffer).fds[i] < 0x8000_0000
    decreases |buffer|
  {
    if |buffer| >= HEADER && Walk(buffer).Fds? {
      var length := FromLe(buffer[..8]);
      WalkStaysInside(buffer[Align(length)..]);
      PayloadStaysInside(buffer[HEADER..length]);
    }
  }

  lemma {:induction false} PayloadStaysInside(data: seq<Byte>)
    ensures PayloadFds(data).Fds? ==> FD_SIZE * |PayloadFds(data).fds| <= |data|
    ensures PayloadFds(data).Fds? ==>
              forall i :: 0 <= i < |PayloadFds(data).fds| ==> PayloadFds(data).fds[i] < 0x8000_0000
  {
    if |data| >= FD_SIZE {
      PayloadStaysInside(data[FD_SIZE..]);
    }
  }
}
