/**
 The canonical unpadded base64 body of a SHA-256 key fingerprint
 (crates/shbox/src/auth.rs), against an encoder written independently of the decoder from
 sections 3.5 and 4 of RFC 4648: concatenate three octets, cut into four sextets.
 */
module Fingerprints {
  type Byte = bv8

  datatype FingerprintError =
    | BadLength(length: nat)
    | InvalidCharacter(index: nat, byte: Byte)
    | NonCanonical

  datatype Decoded = Digest(bytes: seq<Byte>) | Rejected(error: FingerprintError)

  // ---- the alphabet ----------------------------------------------------------------

  /** Table 1 of RFC 4648: A-Z, a-z, 0-9, '+', '/'. */
  function Symbol(v: Byte): Byte {
    if v < 26 then v + 65 else if v < 52 then v + 71 else if v < 62 then v - 4 else if v == 62 then 43 else 47
  }

  predicate IsSymbol(b: Byte) {
    65 <= b <= 90 || 97 <= b <= 122 || 48 <= b <= 57 || b == 43 || b == 47
  }

  function Value(b: Byte): Byte
    requires IsSymbol(b)
  {
    if b >= 97 then b - 71 else if b >= 65 then b - 65 else if b >= 48 then b + 4 else if b == 43 then 62 else 63
  }

  lemma SymbolsAreDistinct(v: Byte, b: Byte)
    requires v < 64
    ensures IsSymbol(Symbol(v)) && Value(Symbol(v)) == v
    ensures IsSymbol(b) ==> Value(b) < 64 && Symbol(Value(b)) == b
  {
  }

  /** The source searches the alphabet for the byte. */
  method Base64Value(byte: Byte) returns (found: bool, v: Byte)
    ensures found <==> IsSymbol(byte)
    ensures found ==> v == Value(byte)
  {
    v := 0;
    while v < 64
      invariant v <= 64
      invariant forall w: Byte :: w < v ==> Symbol(w) != byte
    {
      if Symbol(v) == byte {
        SymbolsAreDistinct(v, byte);
        return true, v;
      }
      v := v + 1;
    }
    found := false;
    SymbolsAreDistinct(0, byte);
  }

  // ---- decoding --------------------------------------------------------------------

  /** Byte `i` of the digest from the sextets: three bytes to every four. */
  function DigestByte(v: seq<Byte>, i: nat): Byte
    requires i / 3 * 4 + i % 3 + 1 < |v|
  {
    var k := i / 3 * 4;
    if i % 3 == 0 then (v[k] << 2) | (v[k + 1] >> 4)
    else if i % 3 == 1 then (v[k + 1] << 4) | (v[k + 2] >> 2)
    else (v[k + 2] << 6) | v[k + 3]
  }

  function Values(body: seq<Byte>): seq<Byte>
    requires forall i :: 0 <= i < |body| ==> IsSymbol(body[i])
  {
    seq(|body|, i requires 0 <= i < |body| => Value(body[i]))
  }

  /** The two bits of the last sextet that encode nothing. */
  predicate Canonical(body: seq<Byte>)
    requires |body| == 43 && forall i :: 0 <= i < |body| ==> IsSymbol(body[i])
  {
    Value(body[42]) & 3 == 0
  }

  ghost predicate FirstInvalid(body: seq<Byte>, index: nat) {
    && index < |body| && !IsSymbol(body[index])
    && forall i :: 0 <= i < index ==> IsSymbol(body[i])
  }

  function DigestOf(v: seq<Byte>): seq<Byte>
    requires |v| == 43
  {
    seq(32, i requires 0 <= i < 32 => DigestByte(v, i))
  }

  lemma DigestByteInGroup(v: seq<Byte>, k: nat)
    requires 4 * k + 2 < |v|
    ensures DigestByte(v, 3 * k) == (v[4 * k] << 2) | (v[4 * k + 1] >> 4)
    ensures DigestByte(v, 3 * k + 1) == (v[4 * k + 1] << 4) | (v[4 * k + 2] >> 2)
    ensures 4 * k + 3 < |v| ==> DigestByte(v, 3 * k + 2) == (v[4 * k + 2] << 6) | v[4 * k + 3]
  {
    assert (3 * k) / 3 == k && (3 * k) % 3 == 0;
    assert (3 * k + 1) / 3 == k && (3 * k + 1) % 3 == 1;
    assert (3 * k + 2) / 3 == k && (3 * k + 2) % 3 == 2;
  }

  /** The first loop: the sextet of every character, or the first bad character. */
  method ReadValues(body: seq<Byte>) returns (read: nat, values: seq<Byte>)
    ensures read <= |body| && (read < |body| ==> FirstInvalid(body, read))
    ensures read == |body| ==> (forall i :: 0 <= i < |body| ==> IsSymbol(body[i])) && values == Values(body)
  {
    var a := new Byte[|body|];
    for i := 0 to |body|
      invariant forall j :: 0 <= j < i ==> IsSymbol(body[j]) && a[j] == Value(body[j])
    {
      var found, v := Base64Value(body[i]);
      if !found {
        return i, [];
      }
      a[i] := v;
    }
    read, values := |body|, a[..];
  }

  /** The second loop and the two trailing bytes. */
  method Assemble(values: seq<Byte>) returns (digest: seq<Byte>)
    requires |values| == 43
    ensures |digest| == 32 && forall i :: 0 <= i < 32 ==> digest[i] == DigestByte(values, i)
  {
    var out := new Byte[32];
    for k := 0 to 10
      invariant forall i :: 0 <= i < 3 * k ==> out[i] == DigestByte(values, i)
    {
      DigestByteInGroup(values, k);
      out[3 * k] := (values[4 * k] << 2) | (values[4 * k + 1] >> 4);
      out[3 * k + 1] := (values[4 * k + 1] << 4) | (values[4 * k + 2] >> 2);
      out[3 * k + 2] := (values[4 * k + 2] << 6) | values[4 * k + 3];
    }
    DigestByteInGroup(values, 10);
    out[30] := (values[40] << 2) | (values[41] >> 4);
    out[31] := (values[41] << 4) | (values[42] >> 2);
    digest := out[..];
  }

  predicate AllSymbols(body: seq<Byte>) {
    forall i :: 0 <= i < |body| ==> IsSymbol(body[i])
  }

  /** The errors come in this order: length, first bad character, trailing bits. */
  method Decode(body: seq<Byte>) returns (r: Decoded)
    ensures |body| != 43 ==> r == Rejected(BadLength(|body|))
    ensures |body| == 43 && !AllSymbols(body) ==>
              && r.Rejected? && r.error.InvalidCharacter?
              && FirstInvalid(body, r.error.index) && r.error.byte == body[r.error.index]
    ensures |body| == 43 && AllSymbols(body) ==>
              r == if Canonical(body) then Digest(DigestOf(Values(body))) else Rejected(NonCanonical)
  {
    if |body| != 43 {
      return Rejected(BadLength(|body|));
    }
    var read, values := ReadValues(body);
    if read < |body| {
      return Rejected(InvalidCharacter(read, body[read]));
    }
    if values[42] & 3 != 0 {
      return Rejected(NonCanonical);
    }
    var digest := Assemble(values);
    r := Digest(digest);
  }

  // ---- encoding --------------------------------------------------------------------

  /** Three octets concatenated into 24 bits. */
  function Concatenated(b0: Byte, b1: Byte, b2: Byte): bv32 {
    ((b0 as bv32) << 16) | ((b1 as bv32) << 8) | (b2 as bv32)
  }

  function Sextet(n: bv32, j: nat): Byte
    requires j < 4
  {
    (if j == 0 then (n >> 18) & 63 else if j == 1 then (n >> 12) & 63 else if j == 2 then (n >> 6) & 63
        else n & 63) as Byte
  }

  /** The four characters of one group. */
  function Group(n: bv32): (g: seq<Byte>)
    ensures |g| == 4
  {
    [Symbol(Sextet(n, 0)), Symbol(Sextet(n, 1)), Symbol(Sextet(n, 2)), Symbol(Sextet(n, 3))]
  }

  /** The first group of a byte string, missing octets reading as zero. */
  function First(bytes: seq<Byte>): bv32 {
    Concatenated(At(bytes, 0), At(bytes, 1), At(bytes, 2))
  }

  function Encode(bytes: seq<Byte>): seq<Byte> {
    if bytes == [] then []
    else if |bytes| <= 3 then Group(First(bytes))[..|bytes| + 1]
    else Group(First(bytes)) + Encode(bytes[3..])
  }

  // ---- sextets and digests ---------------------------------------------------------

  function At(bytes: seq<Byte>, i: nat): Byte {
    if i < |bytes| then bytes[i] else 0
  }

  /** Sextet `i` of a byte string, missing octets reading as zero. */
  function SextetAt(bytes: seq<Byte>, i: nat): Byte {
    var k := i / 4 * 3;
    Sextet(Concatenated(At(bytes, k), At(bytes, k + 1), At(bytes, k + 2)), i % 4)
  }

  lemma GroupDecodes(b0: Byte, b1: Byte, b2: Byte)
    ensures var n := Concatenated(b0, b1, b2);
      && Sextet(n, 0) < 64 && Sextet(n, 1) < 64 && Sextet(n, 2) < 64 && Sextet(n, 3) < 64
      && (Sextet(n, 0) << 2) | (Sextet(n, 1) >> 4) == b0
      && (Sextet(n, 1) << 4) | (Sextet(n, 2) >> 2) == b1
      && (Sextet(n, 2) << 6) | Sextet(n, 3) == b2
      && (b2 == 0 ==> Sextet(n, 2) & 3 == 0)
  {
  }

  lemma GroupEncodes(v0: Byte, v1: Byte, v2: Byte, v3: Byte)
    requires v0 < 64 && v1 < 64 && v2 < 64 && v3 < 64
    ensures var n := Concatenated((v0 << 2) | (v1 >> 4), (v1 << 4) | (v2 >> 2), (v2 << 6) | v3);
      Sextet(n, 0) == v0 && Sextet(n, 1) == v1 && Sextet(n, 2) == v2 && Sextet(n, 3) == v3
  {
  }

  lemma TailEncodes(v0: Byte, v1: Byte, v2: Byte)
    requires v0 < 64 && v1 < 64 && v2 < 64 && v2 & 3 == 0
    ensures var n := Concatenated((v0 << 2) | (v1 >> 4), (v1 << 4) | (v2 >> 2), 0);
      Sextet(n, 0) == v0 && Sextet(n, 1) == v1 && Sextet(n, 2) == v2
  {
  }

  lemma SextetsOfGroup(bytes: seq<Byte>, k: nat)
    ensures var n := Concatenated(At(bytes, 3 * k), At(bytes, 3 * k + 1), At(bytes, 3 * k + 2));
      && SextetAt(bytes, 4 * k) == Sextet(n, 0) && SextetAt(bytes, 4 * k + 1) == Sextet(n, 1)
      && SextetAt(bytes, 4 * k + 2) == Sextet(n, 2) && SextetAt(bytes, 4 * k + 3) == Sextet(n, 3)
  {
    assert (4 * k) / 4 == k && (4 * k) % 4 == 0;
    assert (4 * k + 1) / 4 == k && (4 * k + 1) % 4 == 1;
    assert (4 * k + 2) / 4 == k && (4 * k + 2) % 4 == 2;
    assert (4 * k + 3) / 4 == k && (4 * k + 3) % 4 == 3;
  }

  /** The 43 sextets of a digest. */
  function SextetsOf(d: seq<Byte>): (v: seq<Byte>)
    ensures |v| == 43
  {
    seq(43, i requires 0 <= i < 43 => SextetAt(d, i))
  }

  lemma SextetsDecodeGroup(v: seq<Byte>, d: seq<Byte>, k: nat)
    requires |v| == 43 && |d| == 32 && k <= 10
    requires v[4 * k] == SextetAt(d, 4 * k) && v[4 * k + 1] == SextetAt(d, 4 * k + 1) &&
        v[4 * k + 2] == SextetAt(d, 4 * k + 2)
    requires k < 10 ==> v[4 * k + 3] == SextetAt(d, 4 * k + 3)
    ensures DigestByte(v, 3 * k) == d[3 * k] && DigestByte(v, 3 * k + 1) == d[3 * k + 1]
    ensures k < 10 ==> DigestByte(v, 3 * k + 2) == d[3 * k + 2]
    ensures k == 10 ==> v[42] & 3 == 0
  {
    SextetsOfGroup(d, k);
    GroupDecodes(At(d, 3 * k), At(d, 3 * k + 1), At(d, 3 * k + 2));
    DigestByteInGroup(v, k);
  }

  /** Three bytes of two digests agree; the last group has two. */
  predicate SameBytes(a: seq<Byte>, d: seq<Byte>, k: nat)
    requires |a| == |d| == 32 && k <= 10
  {
    a[3 * k] == d[3 * k] && a[3 * k + 1] == d[3 * k + 1] && (k < 10 ==> a[3 * k + 2] == d[3 * k + 2])
  }

  lemma RegroupedBytes(a: seq<Byte>, d: seq<Byte>)
    requires |a| == |d| == 32 && forall k :: 0 <= k <= 10 ==> SameBytes(a, d, k)
    ensures a == d
  {
    forall i | 0 <= i < 32 ensures a[i] == d[i] {
      assert SameBytes(a, d, i / 3);
      assert i == 3 * (i / 3) + i % 3;
    }
  }

  lemma DecodesAt(v: seq<Byte>, d: seq<Byte>, a: seq<Byte>, k: nat)
    requires |d| == 32 && v == SextetsOf(d) && a == DigestOf(v) && k <= 10
    ensures SameBytes(a, d, k)
    ensures k == 10 ==> v[42] & 3 == 0
  {
    SextetsDecodeGroup(v, d, k);
  }

  lemma SextetsDecode(v: seq<Byte>, d: seq<Byte>, a: seq<Byte>)
    requires |d| == 32 && v == SextetsOf(d) && a == DigestOf(v)
    ensures a == d && v[42] & 3 == 0
  {
    forall k | 0 <= k <= 10 ensures SameBytes(a, d, k) {
      DecodesAt(v, d, a, k);
    }
    DecodesAt(v, d, a, 10);
    RegroupedBytes(a, d);
  }

  lemma GroupMatches(v0: Byte, v1: Byte, v2: Byte, v3: Byte, b0: Byte, b1: Byte, b2: Byte, n: bv32)
    requires v0 < 64 && v1 < 64 && v2 < 64 && v3 < 64 && n == Concatenated(b0, b1, b2)
    requires b0 == (v0 << 2) | (v1 >> 4) && b1 == (v1 << 4) | (v2 >> 2) && b2 == (v2 << 6) | v3
    ensures v0 == Sextet(n, 0) && v1 == Sextet(n, 1) && v2 == Sextet(n, 2) && v3 == Sextet(n, 3)
  {
    GroupEncodes(v0, v1, v2, v3);
  }

  lemma SextetsOfFull(d: seq<Byte>, k: nat, n: bv32)
    requires 3 * k + 2 < |d| && n == Concatenated(d[3 * k], d[3 * k + 1], d[3 * k + 2])
    ensures SextetAt(d, 4 * k) == Sextet(n, 0) && SextetAt(d, 4 * k + 1) == Sextet(n, 1)
    ensures SextetAt(d, 4 * k + 2) == Sextet(n, 2) && SextetAt(d, 4 * k + 3) == Sextet(n, 3)
  {
    SextetsOfGroup(d, k);
  }

  lemma DigestEncodesGroup(v: seq<Byte>, d: seq<Byte>, k: nat)
    requires 4 * k + 3 < |v| && 3 * k + 2 < |d|
    requires v[4 * k] < 64 && v[4 * k + 1] < 64 && v[4 * k + 2] < 64 && v[4 * k + 3] < 64
    requires d[3 * k] == (v[4 * k] << 2) | (v[4 * k + 1] >> 4)
    requires d[3 * k + 1] == (v[4 * k + 1] << 4) | (v[4 * k + 2] >> 2)
    requires d[3 * k + 2] == (v[4 * k + 2] << 6) | v[4 * k + 3]
    ensures v[4 * k] == SextetAt(d, 4 * k) && v[4 * k + 1] == SextetAt(d, 4 * k + 1)
    ensures v[4 * k + 2] == SextetAt(d, 4 * k + 2) && v[4 * k + 3] == SextetAt(d, 4 * k + 3)
  {
    var n := Concatenated(d[3 * k], d[3 * k + 1], d[3 * k + 2]);
    SextetsOfFull(d, k, n);
    GroupMatches(v[4 * k], v[4 * k + 1], v[4 * k + 2], v[4 * k + 3], d[3 * k], d[3 * k + 1], d[3 * k + 2], n);
  }

  /** The last group has two octets. */
  lemma SextetsOfTail(d: seq<Byte>, b0: Byte, b1: Byte)
    requires |d| == 32 && d[30] == b0 && d[31] == b1
    ensures SextetAt(d, 40) == Sextet(Concatenated(b0, b1, 0), 0)
    ensures SextetAt(d, 41) == Sextet(Concatenated(b0, b1, 0), 1)
    ensures SextetAt(d, 42) == Sextet(Concatenated(b0, b1, 0), 2)
  {
    SextetsOfGroup(d, 10);
  }

  lemma TailMatches(v0: Byte, v1: Byte, v2: Byte, b0: Byte, b1: Byte, n: bv32)
    requires v0 < 64 && v1 < 64 && v2 < 64 && v2 & 3 == 0
    requires b0 == (v0 << 2) | (v1 >> 4) && b1 == (v1 << 4) | (v2 >> 2) && n == Concatenated(b0, b1, 0)
    ensures v0 == Sextet(n, 0) && v1 == Sextet(n, 1) && v2 == Sextet(n, 2)
  {
    TailEncodes(v0, v1, v2);
  }

  lemma DigestEncodesTail(v: seq<Byte>, d: seq<Byte>)
    requires |v| == 43 && |d| == 32
    requires v[40] < 64 && v[41] < 64 && v[42] < 64 && v[42] & 3 == 0
    requires d[30] == (v[40] << 2) | (v[41] >> 4) && d[31] == (v[41] << 4) | (v[42] >> 2)
    ensures v[40] == SextetAt(d, 40) && v[41] == SextetAt(d, 41) && v[42] == SextetAt(d, 42)
  {
    SextetsOfTail(d, d[30], d[31]);
    TailMatches(v[40], v[41], v[42], d[30], d[31], Concatenated(d[30], d[31], 0));
  }

  lemma GroupOfDigest(v: seq<Byte>, d: seq<Byte>, k: nat)
    requires |v| == 43 && |d| == 32 && k < 10 && forall i :: 0 <= i < 32 ==> d[i] == DigestByte(v, i)
    ensures d[3 * k] == (v[4 * k] << 2) | (v[4 * k + 1] >> 4)
    ensures d[3 * k + 1] == (v[4 * k + 1] << 4) | (v[4 * k + 2] >> 2)
    ensures d[3 * k + 2] == (v[4 * k + 2] << 6) | v[4 * k + 3]
  {
    DigestByteInGroup(v, k);
  }

  lemma EncodesAt(v: seq<Byte>, d: seq<Byte>, k: nat)
    requires |v| == 43 && (forall i :: 0 <= i < 43 ==> v[i] < 64)
    requires |d| == 32 && k < 10 && forall i :: 0 <= i < 32 ==> d[i] == DigestByte(v, i)
    ensures v[4 * k] == SextetAt(d, 4 * k) && v[4 * k + 1] == SextetAt(d, 4 * k + 1)
    ensures v[4 * k + 2] == SextetAt(d, 4 * k + 2) && v[4 * k + 3] == SextetAt(d, 4 * k + 3)
  {
    GroupOfDigest(v, d, k);
    DigestEncodesGroup(v, d, k);
  }

  lemma EncodesTail(v: seq<Byte>, d: seq<Byte>)
    requires |v| == 43 && (forall i :: 0 <= i < 43 ==> v[i] < 64) && v[42] & 3 == 0
    requires |d| == 32 && forall i :: 0 <= i < 32 ==> d[i] == DigestByte(v, i)
    ensures v[40] == SextetAt(d, 40) && v[41] == SextetAt(d, 41) && v[42] == SextetAt(d, 42)
  {
    DigestByteInGroup(v, 10);
    DigestEncodesTail(v, d);
  }

  /** Ten groups of four and a tail of three are all 43 positions. */
  lemma Regrouped(v: seq<Byte>, w: seq<Byte>)
    requires |v| == |w| == 43 && v[40] == w[40] && v[41] == w[41] && v[42] == w[42]
    requires forall k :: 0 <= k < 10 ==> SameGroup(v, w, k)
    ensures v == w
  {
    forall i | 0 <= i < 40 ensures v[i] == w[i] {
      assert SameGroup(v, w, i / 4);
      assert i == 4 * (i / 4) + i % 4;
    }
  }

  predicate SameGroup(v: seq<Byte>, w: seq<Byte>, k: nat)
    requires |v| == |w| == 43 && k < 10
  {
    && v[4 * k] == w[4 * k] && v[4 * k + 1] == w[4 * k + 1]
    && v[4 * k + 2] == w[4 * k + 2] && v[4 * k + 3] == w[4 * k + 3]
  }

  lemma EncodesGroupOf(v: seq<Byte>, d: seq<Byte>, w: seq<Byte>, k: nat)
    requires |v| == 43 && (forall i :: 0 <= i < 43 ==> v[i] < 64)
    requires |d| == 32 && k < 10 && forall i :: 0 <= i < 32 ==> d[i] == DigestByte(v, i)
    requires w == SextetsOf(d)
    ensures SameGroup(v, w, k)
  {
    EncodesAt(v, d, k);
  }

  lemma EncodesTailOf(v: seq<Byte>, d: seq<Byte>, w: seq<Byte>)
    requires |v| == 43 && (forall i :: 0 <= i < 43 ==> v[i] < 64) && v[42] & 3 == 0
    requires |d| == 32 && forall i :: 0 <= i < 32 ==> d[i] == DigestByte(v, i)
    requires w == SextetsOf(d)
    ensures v[40] == w[40] && v[41] == w[41] && v[42] == w[42]
  {
    EncodesTail(v, d);
  }

  lemma DigestEncodes(v: seq<Byte>, d: seq<Byte>, w: seq<Byte>)
    requires |v| == 43 && (forall i :: 0 <= i < 43 ==> v[i] < 64) && v[42] & 3 == 0
    requires |d| == 32 && forall i :: 0 <= i < 32 ==> d[i] == DigestByte(v, i)
    requires w == SextetsOf(d)
    ensures v == w
  {
    EncodesTailOf(v, d, w);
    forall k | 0 <= k < 10 ensures SameGroup(v, w, k) {
      EncodesGroupOf(v, d, w, k);
    }
    Regrouped(v, w);
  }

  // ---- mutual inverses -------------------------------------------------------------

  /** The bodies the decoder accepts. */
  predicate Accepted(body: seq<Byte>) {
    |body| == 43 && AllSymbols(body) && Canonical(body)
  }

  lemma ShiftedSextet(bytes: seq<Byte>, i: nat)
    requires |bytes| > 3 && i >= 4
    ensures SextetAt(bytes[3..], i - 4) == SextetAt(bytes, i)
  {
    var k := (i - 4) / 4 * 3;
    assert i / 4 * 3 == k + 3 && (i - 4) % 4 == i % 4;
    assert At(bytes[3..], k) == At(bytes, k + 3) && At(bytes[3..], k + 1) == At(bytes, k + 4);
    assert At(bytes[3..], k + 2) == At(bytes, k + 5);
  }

  lemma GroupAt(n: bv32, i: nat, group: seq<Byte>, sextet: Byte)
    requires i < 4 && group == Group(n) && sextet == Sextet(n, i)
    ensures group[i] == Symbol(sextet)
  {
  }

  lemma HeadOfEncoding(bytes: seq<Byte>, i: nat, group: seq<Byte>)
    requires bytes != [] && i < 4 && i <= |bytes| && group == Group(First(bytes))
    ensures i < |Encode(bytes)| && Encode(bytes)[i] == group[i]
  {
  }

  lemma HeadSextet(bytes: seq<Byte>, i: nat)
    requires i < 4
    ensures SextetAt(bytes, i) == Sextet(First(bytes), i)
  {
  }

  lemma EncodeHead(bytes: seq<Byte>, i: nat)
    requires bytes != [] && i < 4 && i <= |bytes|
    ensures i < |Encode(bytes)| && Encode(bytes)[i] == Symbol(SextetAt(bytes, i))
  {
    var group := Group(First(bytes));
    HeadOfEncoding(bytes, i, group);
    HeadSextet(bytes, i);
    GroupAt(First(bytes), i, group, SextetAt(bytes, i));
  }

  lemma {:induction false} EncodeLength(bytes: seq<Byte>)
    ensures |Encode(bytes)| == (|bytes| * 4 + 2) / 3
  {
    if |bytes| > 3 {
      EncodeLength(bytes[3..]);
    }
  }

  /** The encoding, character by character. */
  lemma {:induction false} EncodeAt(bytes: seq<Byte>, i: nat)
    requires i < (|bytes| * 4 + 2) / 3
    ensures |Encode(bytes)| == (|bytes| * 4 + 2) / 3 && Encode(bytes)[i] == Symbol(SextetAt(bytes, i))
    decreases |bytes|
  {
    EncodeLength(bytes);
    if i < 4 {
      EncodeHead(bytes, i);
    } else {
      EncodeAt(bytes[3..], i - 4);
      ShiftedSextet(bytes, i);
    }
  }

  lemma EncodedValue(digest: seq<Byte>, i: nat)
    requires |digest| == 32 && i < 43
    ensures |Encode(digest)| == 43 && IsSymbol(Encode(digest)[i])
    ensures Value(Encode(digest)[i]) == SextetAt(digest, i)
  {
    EncodeAt(digest, i);
    var k := i / 4 * 3;
    GroupDecodes(At(digest, k), At(digest, k + 1), At(digest, k + 2));
    SymbolsAreDistinct(SextetAt(digest, i), 0);
  }

  /** Every digest survives encoding and decoding. */
  lemma EncodeThenDecode(digest: seq<Byte>)
    requires |digest| == 32
    ensures Accepted(Encode(digest)) && DigestOf(Values(Encode(digest))) == digest
  {
    var body := Encode(digest);
    EncodedValue(digest, 0);
    forall i | 0 <= i < 43 ensures IsSymbol(body[i]) && Value(body[i]) == SextetAt(digest, i) {
      EncodedValue(digest, i);
    }
    assert Values(body) == SextetsOf(digest);
    SextetsDecode(Values(body), digest, DigestOf(Values(body)));
  }

  /** Every accepted body is the encoding of the digest it decodes to. */
  lemma DecodeThenEncode(body: seq<Byte>)
    requires Accepted(body)
    ensures |DigestOf(Values(body))| == 32 && Encode(DigestOf(Values(body))) == body
  {
    var v := Values(body);
    forall i | 0 <= i < 43 ensures v[i] < 64 && Symbol(v[i]) == body[i] {
      SymbolsAreDistinct(0, body[i]);
    }
    var d := DigestOf(v);
    DigestEncodes(v, d, SextetsOf(d));
    EncodeLength(d);
    forall i | 0 <= i < 43 ensures Encode(d)[i] == body[i] {
      EncodeAt(d, i);
    }
  }

  /** The decoder accepts exactly the canonical encodings of 32-byte digests, and distinct
      accepted bodies mean distinct digests. */
  lemma AcceptsExactlyEncodings(body: seq<Byte>, other: seq<Byte>)
    ensures Accepted(body) <==> exists digest: seq<Byte> :: |digest| == 32 && Encode(digest) == body
    ensures Accepted(body) && Accepted(other) && body != other ==> DigestOf(Values(body)) != DigestOf(Values(other))
  {
    if Accepted(body) {
      DecodeThenEncode(body);
      if Accepted(other) {
        DecodeThenEncode(other);
      }
    }
    forall digest: seq<Byte> | |digest| == 32 ensures Accepted(Encode(digest)) {
      EncodeThenDecode(digest);
    }
  }
}
