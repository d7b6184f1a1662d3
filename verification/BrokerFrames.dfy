/**
 The fixed-size request frame of the ID-map broker
 (crates/shbox/src/platform/idmap_broker.rs).
 */
module BrokerFrames {
  import opened LittleEndian

  const REQUEST_LEN: nat := 40
  const PROTOCOL_VERSION: nat := 1
  const OP_CREATE_IDMAPPED_MOUNTS: nat := 1

  datatype Request = Request(requestId: nat, daemonUid: nat, daemonGid: nat, leasedUid: nat, leasedGid: nat,
      sourceCount: nat)

  datatype DecodeError = WrongSize | UnsupportedOperation | NonZeroReserved

  datatype Decoded = Ok(request: Request) | Err(error: DecodeError)

  predicate Fits(r: Request) {
    && r.requestId < Pow256(8) && r.daemonUid < Pow256(4) && r.daemonGid < Pow256(4)
    && r.leasedUid < Pow256(4) && r.leasedGid < Pow256(4) && r.sourceCount < Pow256(4)
  }

  /** The wire layout. */
  function Frame(r: Request): (s: seq<Byte>)
    ensures |s| == REQUEST_LEN
  {
    ToLe(PROTOCOL_VERSION, 4) + ToLe(OP_CREATE_IDMAPPED_MOUNTS, 4) + ToLe(r.requestId, 8)
    + ToLe(r.daemonUid, 4) + ToLe(r.daemonGid, 4) + ToLe(r.leasedUid, 4) + ToLe(r.leasedGid, 4)
    + ToLe(r.sourceCount, 4) + [0, 0, 0, 0]
  }

  function Decode(b: seq<Byte>): Decoded {
    if |b| != REQUEST_LEN then Err(WrongSize)
    else if FromLe(b[0..4]) != PROTOCOL_VERSION || FromLe(b[4..8]) != OP_CREATE_IDMAPPED_MOUNTS
        then Err(UnsupportedOperation)
    else if exists i :: 36 <= i < |b| && b[i] != 0 then Err(NonZeroReserved)
    else Ok(Request(FromLe(b[8..16]), FromLe(b[16..20]), FromLe(b[20..24]), FromLe(b[24..28]), FromLe(b[28..32]),
        FromLe(b[32..36])))
  }

  /** The encoder fills a zeroed frame field by field. */
  method Fill(version: seq<Byte>, operation: seq<Byte>, id: seq<Byte>, uid: seq<Byte>, gid: seq<Byte>,
              leasedUid: seq<Byte>, leasedGid: seq<Byte>, count: seq<Byte>) returns (frame: seq<Byte>)
    requires |version| == |operation| == |uid| == |gid| == |leasedUid| == |leasedGid| == |count| == 4 && |id| == 8
    ensures frame == version + operation + id + uid + gid + leasedUid + leasedGid + count + [0, 0, 0, 0]
  {
    var buffer := new Byte[REQUEST_LEN](_ => 0);
    Put(buffer, 0, version);
    Put(buffer, 4, operation);
    Put(buffer, 8, id);
    Put(buffer, 16, uid);
    Put(buffer, 20, gid);
    Put(buffer, 24, leasedUid);
    Put(buffer, 28, leasedGid);
    Put(buffer, 32, count);
    frame := buffer[..];
    Cut(frame);
    assert frame[0..4] == version && frame[4..8] == operation && frame[8..16] == id;
    assert frame[16..20] == uid && frame[20..24] == gid && frame[24..28] == leasedUid;
    assert frame[28..32] == leasedGid && frame[32..36] == count;
  }

  method Encode(r: Request) returns (frame: seq<Byte>)
    ensures frame == Frame(r)
  {
    frame := Fill(ToLe(PROTOCOL_VERSION, 4), ToLe(OP_CREATE_IDMAPPED_MOUNTS, 4), ToLe(r.requestId, 8),
        ToLe(r.daemonUid, 4),
                  ToLe(r.daemonGid, 4), ToLe(r.leasedUid, 4), ToLe(r.leasedGid, 4), ToLe(r.sourceCount, 4));
  }

  lemma Parts(version: seq<Byte>, operation: seq<Byte>, id: seq<Byte>, uid: seq<Byte>, gid: seq<Byte>,
              leasedUid: seq<Byte>, leasedGid: seq<Byte>, count: seq<Byte>)
    requires |version| == |operation| == |uid| == |gid| == |leasedUid| == |leasedGid| == |count| == 4 && |id| == 8
    ensures var b := version + operation + id + uid + gid + leasedUid + leasedGid + count + [0, 0, 0, 0];
      && b[0..4] == version && b[4..8] == operation && b[8..16] == id && b[16..20] == uid && b[20..24] == gid
      && b[24..28] == leasedUid && b[28..32] == leasedGid && b[32..36] == count
      && forall i :: 36 <= i < |b| ==> b[i] == 0
  {
  }

  lemma FrameFields(r: Request)
    ensures var b := Frame(r);
      && b[0..4] == ToLe(PROTOCOL_VERSION, 4) && b[4..8] == ToLe(OP_CREATE_IDMAPPED_MOUNTS, 4) &&
          b[8..16] == ToLe(r.requestId, 8)
      && b[16..20] == ToLe(r.daemonUid, 4) && b[20..24] == ToLe(r.daemonGid, 4) && b[24..28] == ToLe(r.leasedUid, 4)
      && b[28..32] == ToLe(r.leasedGid, 4) && b[32..36] == ToLe(r.sourceCount, 4)
      && forall i :: 36 <= i < |b| ==> b[i] == 0
  {
    Parts(ToLe(PROTOCOL_VERSION, 4), ToLe(OP_CREATE_IDMAPPED_MOUNTS, 4), ToLe(r.requestId, 8), ToLe(r.daemonUid, 4),
          ToLe(r.daemonGid, 4), ToLe(r.leasedUid, 4), ToLe(r.leasedGid, 4), ToLe(r.sourceCount, 4));
  }

  lemma EncodeThenDecode(r: Request)
    requires Fits(r)
    ensures Decode(Frame(r)) == Ok(r)
  {
    FrameFields(r);
    FieldSizes();
    LeRoundTrip(PROTOCOL_VERSION, 4);
    LeRoundTrip(OP_CREATE_IDMAPPED_MOUNTS, 4);
    LeRoundTrip(r.requestId, 8);
    LeRoundTrip(r.daemonUid, 4);
    LeRoundTrip(r.daemonGid, 4);
    LeRoundTrip(r.leasedUid, 4);
    LeRoundTrip(r.leasedGid, 4);
    LeRoundTrip(r.sourceCount, 4);
  }

  lemma Cut(b: seq<Byte>)
    requires |b| == REQUEST_LEN && forall i :: 36 <= i < |b| ==> b[i] == 0
    ensures b == b[0..4] + b[4..8] + b[8..16] + b[16..20] + b[20..24] + b[24..28] + b[28..32] + b[32..36] + [0, 0, 0, 0]
  {
  }

  lemma DecodeThenEncode(b: seq<Byte>)
    requires Decode(b).Ok?
    ensures Fits(Decode(b).request) && Frame(Decode(b).request) == b
  {
    Cut(b);
    LeReadsAnything(b[0..4]);
    LeReadsAnything(b[4..8]);
    LeReadsAnything(b[8..16]);
    LeReadsAnything(b[16..20]);
    LeReadsAnything(b[20..24]);
    LeReadsAnything(b[24..28]);
    LeReadsAnything(b[28..32]);
    LeReadsAnything(b[32..36]);
  }

  /** The decoder accepts exactly the frames of requests whose fields fit, each as itself. */
  lemma AcceptsExactlyFrames(b: seq<Byte>, r: Request)
    ensures Decode(b) == Ok(r) <==> Fits(r) && b == Frame(r)
  {
    if Decode(b) == Ok(r) {
      DecodeThenEncode(b);
    }
    if Fits(r) {
      EncodeThenDecode(r);
    }
  }
}
