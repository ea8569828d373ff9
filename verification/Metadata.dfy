/** Reading the ICCID out of an encoded StoreMetadataRequest
    (crates/smdp/src/service.rs): `BF 25`, a definite length of section 8.1.3
    of X.690, and as first member `5A 0A` and ten octets. */
module Metadata {
  import opened Basics

  // ---- the grammar the reader accepts

  /** A length field the reader steps over: short form, or long form with one
      to four octets of length behind it. */
  predicate IsLengthField(f: Bytes) {
    |f| > 0 && (f[0] < 0x80 || (1 <= f[0] - 0x80 <= 4)) && |f| == FieldSize(f[0])
  }

  function FieldSize(first: byte): nat {
    if first < 0x80 then 1 else 1 + (first - 0x80)
  }

  /** `m` is an encoding whose first member is `iccid`, whatever follows it. */
  ghost predicate Carries(m: Bytes, iccid: Bytes10) {
    exists f, rest :: IsLengthField(f) && m == Encoding(f, iccid, rest)
  }

  function Encoding(f: Bytes, iccid: Bytes10, rest: Bytes): Bytes {
    [0xbf, 0x25] + f + [0x5a, 0x0a] + iccid + rest
  }

  /** What the reader finds, as a value. */
  function IccidOf(m: Bytes): Option<Bytes10> {
    if |m| < 4 || m[0] != 0xbf || m[1] != 0x25 || (m[2] >= 0x80 && !(1 <= m[2] - 0x80 <= 4)) then None
    else
      var p := 2 + FieldSize(m[2]);
      if p + 12 <= |m| && m[p] == 0x5a && m[p + 1] == 0x0a then Some(m[p + 2..p + 12]) else None
  }

  /** The mask is written as the remainder it is. */
  lemma MaskIsRemainder(b: byte, bits: bv8)
    requires bits as int == b
    ensures (bits & 0x7f) as int == b % 0x80
  {
  }

  /** The source's reader, with its cursor. Every index it uses is in range by
      construction: a read past the end would not verify. */
  method IccidFromMetadata(metadata: Bytes) returns (r: Option<Bytes10>)
    ensures r == IccidOf(metadata)
    ensures forall iccid :: r == Some(iccid) <==> Carries(metadata, iccid)
  {
    IccidOfIsTheCarriedOne(metadata);
    if |metadata| < 4 || metadata[0] != 0xbf || metadata[1] != 0x25 {
      return None;
    }
    var p := 2;
    var first := metadata[p];
    p := p + 1;
    if first >= 0x80 {
      var n := first % 0x80;
      if n == 0 || n > 4 {
        return None;
      }
      p := p + n;
    }
    if p >= |metadata| || metadata[p] != 0x5a || p + 1 >= |metadata| || metadata[p + 1] != 0x0a {
      return None;
    }
    var start := p + 2;
    if start + 10 > |metadata| {
      return None;
    }
    r := Some(metadata[start..start + 10]);
  }

  /** The reader answers exactly on the grammar, and with the ICCID the grammar
      assigns; in particular an encoding carries at most one. */
  lemma IccidOfIsTheCarriedOne(m: Bytes)
    ensures forall iccid :: IccidOf(m) == Some(iccid) <==> Carries(m, iccid)
  {
    forall iccid: Bytes10 | IccidOf(m) == Some(iccid)
      ensures Carries(m, iccid)
    {
      var p := 2 + FieldSize(m[2]);
      assert IsLengthField(m[2..p]);
      assert m == Encoding(m[2..p], iccid, m[p + 12..]);
    }
    forall iccid: Bytes10 | Carries(m, iccid)
      ensures IccidOf(m) == Some(iccid)
    {
      var f, rest :| IsLengthField(f) && m == Encoding(f, iccid, rest);
      EncodingLayout(f, iccid, rest);
    }
  }

  lemma EncodingLayout(f: Bytes, iccid: Bytes10, rest: Bytes)
    requires IsLengthField(f)
    ensures IccidOf(Encoding(f, iccid, rest)) == Some(iccid)
  {
    var m := Encoding(f, iccid, rest);
    var p := 2 + |f|;
    assert m[2] == f[0];
    assert m[p] == 0x5a && m[p + 1] == 0x0a;
    assert m[p + 2..p + 12] == iccid;
  }

  // ---- definite-length encodings of X.690

  /** The forms section 8.1.3 of X.690 offers for a definite length, as far as
      the reader follows them. Long form need not be the shortest. */
  datatype LengthForm = Short | Long(octets: nat)

  function Pow256(n: nat): nat {
    if n == 0 then 1 else 256 * Pow256(n - 1)
  }

  function BigEndian(v: nat, n: nat): (b: Bytes)
    requires v < Pow256(n)
    ensures |b| == n
  {
    if n == 0 then [] else BigEndian(v / 256, n - 1) + [v % 256]
  }

  function BigEndianValue(b: Bytes): nat {
    if b == [] then 0 else 256 * BigEndianValue(b[..|b| - 1]) + b[|b| - 1]
  }

  predicate CanWrite(form: LengthForm, length: nat) {
    match form
    case Short => length < 0x80
    case Long(n) => 1 <= n <= 4 && length < Pow256(n)
  }

  function LengthField(form: LengthForm, length: nat): Bytes
    requires CanWrite(form, length)
  {
    match form
    case Short => [length]
    case Long(n) => [0x80 + n] + BigEndian(length, n)
  }

  /** What a length field says, read back. */
  function LengthValue(f: Bytes): nat
    requires IsLengthField(f)
  {
    if f[0] < 0x80 then f[0] else BigEndianValue(f[1..])
  }

  lemma {:induction false} BigEndianRoundTrip(v: nat, n: nat)
    requires v < Pow256(n)
    ensures BigEndianValue(BigEndian(v, n)) == v
  {
    if n == 0 {
    } else {
      var b := BigEndian(v, n);
      assert b[..n - 1] == BigEndian(v / 256, n - 1);
      BigEndianRoundTrip(v / 256, n - 1);
    }
  }

  /** Every form is a length field of the grammar and means the length it was
      written for. */
  lemma LengthFieldRoundTrip(form: LengthForm, length: nat)
    requires CanWrite(form, length)
    ensures IsLengthField(LengthField(form, length))
    ensures LengthValue(LengthField(form, length)) == length
  {
    match form
    case Short =>
    case Long(n) =>
      BigEndianRoundTrip(length, n);
      assert LengthField(form, length)[1..] == BigEndian(length, n);
  }

  /** A StoreMetadataRequest: the length covers the ICCID member and what
      follows it. */
  function StoreMetadata(form: LengthForm, iccid: Bytes10, members: Bytes): Bytes
    requires CanWrite(form, 12 + |members|)
  {
    Encoding(LengthField(form, 12 + |members|), iccid, members)
  }

  /** Round trip: whatever the ICCID, the other members, the form of the length
      and the octets appended after the request, the ICCID comes back. */
  lemma IccidRoundTrip(form: LengthForm, iccid: Bytes10, members: Bytes, appended: Bytes)
    requires CanWrite(form, 12 + |members|)
    ensures IccidOf(StoreMetadata(form, iccid, members) + appended) == Some(iccid)
  {
    var f := LengthField(form, 12 + |members|);
    LengthFieldRoundTrip(form, 12 + |members|);
    assert StoreMetadata(form, iccid, members) + appended == Encoding(f, iccid, members + appended);
    EncodingLayout(f, iccid, members + appended);
  }

  /** Appending octets never changes an answer that was given. */
  lemma AppendingChangesNothing(m: Bytes, appended: Bytes)
    requires IccidOf(m).Some?
    ensures IccidOf(m + appended) == IccidOf(m)
  {
    var p := 2 + FieldSize(m[2]);
    assert (m + appended)[p + 2..p + 12] == m[p + 2..p + 12];
  }
}
