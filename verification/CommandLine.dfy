/** `parse_iccid` of crates/smdp/src/bin/smdp.rs, on every string.

    It slices the string by octets and hands each slice of two to
    `u8::from_str_radix`, which also takes a leading plus sign. */
module CommandLine {
  import opened Basics
  import opened Wire

  /** Panicked: a slice boundary fell inside a character. */
  datatype Parsed = Iccid(bytes: Bytes) | NotAnIccid | SplitCharacter

  /** `u8::from_str_radix(_, 16)` on two ASCII characters. */
  function PairValue(a: char, b: char): (v: Option<nat>)
    ensures v.Some? ==> v.value < 256
  {
    if Digit(b).None? then None
    else if a == '+' then Digit(b)
    else if Digit(a).None? then None
    else Some(16 * Digit(a).value + Digit(b).value)
  }

  function Prepend(head: Bytes, rest: Parsed): Parsed {
    match rest
    case Iccid(tail) => Iccid(head + tail)
    case other => other
  }

  /** The slice of the next two octets, as the character boundaries allow it,
      and the verdict on it. */
  function SliceValue(cs: string): (r: Parsed)
    requires ByteLen(cs) >= 2
    ensures r.Iccid? ==> |cs| >= 2 && Utf8Width(cs[0]) == 1 == Utf8Width(cs[1]) && |r.bytes| == 1
  {
    assert ByteLen(cs) == Utf8Width(cs[0]) + ByteLen(cs[1..]);
    if Utf8Width(cs[0]) == 2 then NotAnIccid
    else if Utf8Width(cs[0]) > 2 || Utf8Width(cs[1]) > 1 then SplitCharacter
    else match PairValue(cs[0], cs[1])
      case None => NotAnIccid
      case Some(v) => Iccid([v])
  }

  function ParseSlices(cs: string, n: nat): Parsed
    requires ByteLen(cs) == 2 * n
    decreases n
  {
    if n == 0 then Iccid([])
    else match SliceValue(cs)
      case Iccid(head) =>
        assert ByteLen(cs) == 1 + ByteLen(cs[1..]) && cs[1..][1..] == cs[2..];
        Prepend(head, ParseSlices(cs[2..], n - 1))
      case other => other
  }

  function ParseIccidOf(s: string): Parsed {
    if ByteLen(s) != 20 then NotAnIccid else ParseSlices(s, 10)
  }

  /** The source's loop over the ten octets of `out`. */
  method ParseIccid(s: string) returns (r: Parsed)
    ensures r == ParseIccidOf(s)
  {
    if ByteLen(s) != 20 {
      return NotAnIccid;
    }
    var out := new byte[10];
    var rest := s;  // from octet 2 * i on
    ghost var whole, done: Bytes := ParseIccidOf(s), [];
    assert whole == Prepend(done, ParseSlices(rest, 10)) by {
      PrependNothing(ParseSlices(s, 10));
    }
    for i := 0 to 10
      invariant ByteLen(rest) == 2 * (10 - i)
      invariant out[..i] == done
      invariant whole == Prepend(done, ParseSlices(rest, 10 - i))
    {
      var pair := SliceValue(rest);
      if !pair.Iccid? {
        StopOn(done, rest, 10 - i);
        return pair;
      }
      ParseOn(done, rest, 10 - i);
      assert pair.bytes == [pair.bytes[0]];
      out[i] := pair.bytes[0];
      assert out[..i] == done && out[..i + 1] == out[..i] + [out[i]];
      done := done + pair.bytes;
      rest := rest[2..];
    }
    assert out[..] == done == done + [];
    r := Iccid(out[..]);
  }

  lemma ParseStep(cs: string, n: nat)
    requires n > 0 && ByteLen(cs) == 2 * n && SliceValue(cs).Iccid?
    ensures ByteLen(cs[2..]) == 2 * (n - 1)
    ensures ParseSlices(cs, n) == Prepend(SliceValue(cs).bytes, ParseSlices(cs[2..], n - 1))
  {
    assert ByteLen(cs) == 1 + ByteLen(cs[1..]) && cs[1..][1..] == cs[2..];
  }

  lemma PrependTwice(a: Bytes, b: Bytes, rest: Parsed)
    ensures Prepend(a, Prepend(b, rest)) == Prepend(a + b, rest)
  {
    if rest.Iccid? {
      assert a + (b + rest.bytes) == a + b + rest.bytes;
    }
  }

  lemma PrependNothing(p: Parsed)
    ensures Prepend([], p) == p
  {
  }

  lemma StopOn(done: Bytes, cs: string, n: nat)
    requires n > 0 && ByteLen(cs) == 2 * n && !SliceValue(cs).Iccid?
    ensures Prepend(done, ParseSlices(cs, n)) == SliceValue(cs)
  {
  }

  lemma ParseOn(done: Bytes, cs: string, n: nat)
    requires n > 0 && ByteLen(cs) == 2 * n && SliceValue(cs).Iccid?
    ensures ByteLen(cs[2..]) == 2 * (n - 1)
    ensures Prepend(done, ParseSlices(cs, n))
         == Prepend(done + SliceValue(cs).bytes, ParseSlices(cs[2..], n - 1))
  {
    ParseStep(cs, n);
    PrependTwice(done, SliceValue(cs).bytes, ParseSlices(cs[2..], n - 1));
  }

  // ---- what is accepted

  /** `2 * |b|` characters, each pair of which has the value of its octet. */
  ghost predicate Pairs(s: string, b: Bytes) {
    && |s| == 2 * |b|
    && forall i :: 0 <= i < |b| ==> PairValue(s[2 * i], s[2 * i + 1]) == Some(b[i])
  }

  ghost predicate TenPairs(s: string, b: Bytes) {
    |b| == 10 && Pairs(s, b)
  }

  lemma PairIsAscii(a: char, b: char)
    requires PairValue(a, b).Some?
    ensures Utf8Width(a) == 1 == Utf8Width(b)
  {
  }

  lemma {:induction false} PairsAreParsed(s: string, b: Bytes)
    requires Pairs(s, b)
    ensures ByteLen(s) == |s| && ParseSlices(s, |b|) == Iccid(b)
  {
    if b == [] {
    } else {
      assert PairValue(s[2 * 0], s[2 * 0 + 1]) == Some(b[0]);
      PairIsAscii(s[0], s[1]);
      forall i | 0 <= i < |b[1..]|
        ensures PairValue(s[2..][2 * i], s[2..][2 * i + 1]) == Some(b[1..][i])
      {
        assert PairValue(s[2 * (i + 1)], s[2 * (i + 1) + 1]) == Some(b[i + 1]);
      }
      PairsAreParsed(s[2..], b[1..]);
      assert s[1..][1..] == s[2..];
      assert b == [b[0]] + b[1..];
    }
  }

  lemma {:induction false} ParsedArePairs(s: string, n: nat)
    requires ByteLen(s) == 2 * n && ParseSlices(s, n).Iccid?
    ensures |ParseSlices(s, n).bytes| == n && Pairs(s, ParseSlices(s, n).bytes)
    decreases n
  {
    if n == 0 {
    } else {
      assert ByteLen(s) == 1 + ByteLen(s[1..]) && s[1..][1..] == s[2..];
      ParsedArePairs(s[2..], n - 1);
      var b, tail := ParseSlices(s, n).bytes, ParseSlices(s[2..], n - 1).bytes;
      assert b == SliceValue(s).bytes + tail;
      forall i | 0 <= i < |b|
        ensures PairValue(s[2 * i], s[2 * i + 1]) == Some(b[i])
      {
        if i > 0 {
          assert PairValue(s[2..][2 * (i - 1)], s[2..][2 * (i - 1) + 1]) == Some(tail[i - 1]);
        }
      }
    }
  }

  /** Exactly what is accepted, and as what. */
  lemma IccidIffTenPairs(s: string)
    ensures forall b :: ParseIccidOf(s) == Iccid(b) <==> TenPairs(s, b)
  {
    forall b | TenPairs(s, b)
      ensures ParseIccidOf(s) == Iccid(b)
    {
      PairsAreParsed(s, b);
    }
    if ParseIccidOf(s).Iccid? {
      ParsedArePairs(s, 10);
    }
  }

  /** On twenty hexadecimal digits the two hex readers of the program agree,
      and those are all the strings on which both succeed. */
  lemma AgreesWithFromHex(s: string, b: Bytes)
    ensures ParseIccidOf(s) == Iccid(b) && FromHex(s) == Octets(b) <==> |s| == 20 && Spells(s, b)
    ensures |s| == 20 && AllHex(s) ==> FromHex(s).Octets? && ParseIccidOf(s) == Iccid(FromHex(s).bytes)
  {
    FromHexIsTotal(s);
    IccidIffTenPairs(s);
    if |s| == 20 && Spells(s, b) {
      SpelledArePairs(s, b);
    }
    if |s| == 20 && AllHex(s) {
      HexIsOneByteEach(s);
      DecodesAllHex(s);
      SpelledArePairs(s, FromHex(s).bytes);
    }
  }

  lemma SpelledArePairs(s: string, b: Bytes)
    requires Spells(s, b)
    ensures Pairs(s, b)
  {
    forall i | 0 <= i < |b|
      ensures PairValue(s[2 * i], s[2 * i + 1]) == Some(b[i])
    {
      assert IsHex(s[2 * i]) && IsHex(s[2 * i + 1]);
    }
  }

  /** A pair means what `from_hex` makes of it, or, after a plus sign, of it with a
      zero for the sign. */
  lemma PairMeans(a: char, b: char, v: byte)
    ensures PairValue(a, b) == Some(v)
       <==> FromHex([a, b]) == Octets([v]) || (a == '+' && FromHex(['0', b]) == Octets([v]))
  {
    DecodeOfPair(a, b);
    DecodeOfPair('0', b);
  }

  lemma DecodeOfPair(a: char, b: char)
    ensures FromHex([a, b]).Octets? <==> IsHex(a) && IsHex(b)
    ensures IsHex(a) && IsHex(b) ==> FromHex([a, b]) == Octets([16 * Digit(a).value + Digit(b).value])
  {
    var s := [a, b];
    assert s[1..] == [b] && s[2..] == [] && [b][1..] == [];
    assert ByteLen(s) == Utf8Width(a) + ByteLen([b]) && ByteLen([b]) == Utf8Width(b);
    if IsHex(a) && IsHex(b) {
      assert Octets([Digit(a).value * 16 + Digit(b).value] + []) == DecodeChunks(s);
    }
  }

  // ---- where the slicing panics

  /** Some character ends at octet `n`. */
  ghost predicate IsBoundary(s: string, n: nat) {
    exists i :: 0 <= i <= |s| && ByteLen(s[..i]) == n
  }

  /** Slice `k` ends inside a character, and all before it were read. */
  ghost predicate SplitsAt(s: string, k: nat) {
    2 * k <= |s| && (exists b: Bytes :: |b| == k && Pairs(s[..2 * k], b)) && !IsBoundary(s[2 * k..], 2)
  }

  lemma SliceSplits(cs: string)
    requires ByteLen(cs) >= 2
    ensures SliceValue(cs) == SplitCharacter <==> !IsBoundary(cs, 2)
  {
    assert ByteLen(cs) == Utf8Width(cs[0]) + ByteLen(cs[1..]);
    assert cs[..0] == [] && ByteLen(cs[..0]) == 0;
    assert cs[..1] == [cs[0]] && cs[..1][1..] == [] && ByteLen(cs[..1]) == Utf8Width(cs[0]);
    if Utf8Width(cs[0]) == 1 {
      assert cs[..2] == [cs[0], cs[1]] && cs[..2][1..] == [cs[1]] && [cs[1]][1..] == [];
      assert ByteLen(cs[..2]) == 1 + Utf8Width(cs[1]);
    }
    if i :| 2 <= i <= |cs| && ByteLen(cs[..i]) == 2 {
      assert cs[..i][1..] == cs[1..i] && cs[1..i][1..] == cs[2..i];
      assert ByteLen(cs[..i]) == Utf8Width(cs[0]) + (Utf8Width(cs[1]) + ByteLen(cs[2..i]));
    }
  }

  /** `first` is one more pair in front of `rest`. */
  lemma OnePairMore(first: string, rest: string, k: nat)
    requires |first| == 2 * (k + 1) && |rest| == 2 * k && first[2..] == rest
    requires PairValue(first[0], first[1]).Some?
    ensures (exists b: Bytes :: |b| == k + 1 && Pairs(first, b)) <==> exists b: Bytes :: |b| == k && Pairs(rest, b)
  {
    assert forall j :: 0 <= j < 2 * k ==> first[j + 2] == rest[j];
    if b: Bytes :| |b| == k + 1 && Pairs(first, b) {
      forall i | 0 <= i < k
        ensures PairValue(rest[2 * i], rest[2 * i + 1]) == Some(b[1..][i])
      {
        assert first[2 * (i + 1)] == rest[2 * i] && first[2 * (i + 1) + 1] == rest[2 * i + 1];
      }
      assert |b[1..]| == k && Pairs(rest, b[1..]);
    }
    if b: Bytes :| |b| == k && Pairs(rest, b) {
      var all: Bytes := [PairValue(first[0], first[1]).value] + b;
      forall i | 0 <= i < k + 1
        ensures PairValue(first[2 * i], first[2 * i + 1]) == Some(all[i])
      {
        if i > 0 {
          assert first[2 * i] == rest[2 * (i - 1)] && first[2 * i + 1] == rest[2 * (i - 1) + 1];
        }
      }
      assert |all| == k + 1 && Pairs(first, all);
    }
  }

  lemma SplitsShift(cs: string, k: nat)
    requires |cs| >= 2 && PairValue(cs[0], cs[1]).Some?
    ensures SplitsAt(cs, k + 1) <==> SplitsAt(cs[2..], k)
  {
    if 2 * (k + 1) <= |cs| {
      assert cs[2 * (k + 1)..] == cs[2..][2 * k..];
      assert cs[..2 * (k + 1)][2..] == cs[2..][..2 * k];
      OnePairMore(cs[..2 * (k + 1)], cs[2..][..2 * k], k);
    }
  }

  lemma SplitsFirst(cs: string)
    requires ByteLen(cs) >= 2
    ensures SplitsAt(cs, 0) <==> SliceValue(cs) == SplitCharacter
  {
    SliceSplits(cs);
    assert cs[0..] == cs && cs[..0] == [];
    var none: Bytes := [];
    assert |none| == 0 && Pairs(cs[..0], none);
  }

  lemma SplitsLater(cs: string, k: nat)
    requires ByteLen(cs) >= 2 && k > 0 && SplitsAt(cs, k)
    ensures |cs| >= 2 && PairValue(cs[0], cs[1]).Some?
  {
    var b: Bytes :| |b| == k && Pairs(cs[..2 * k], b);
    assert PairValue(cs[..2 * k][2 * 0], cs[..2 * k][2 * 0 + 1]) == Some(b[0]);
  }

  /** The first slice was read: it splits where the rest does. */
  lemma SplitsInTheRest(cs: string, n: nat)
    requires n > 0 && |cs| >= 2 && PairValue(cs[0], cs[1]).Some? && !SplitsAt(cs, 0)
    ensures (exists k: nat :: k < n && SplitsAt(cs, k)) <==> exists k: nat :: k < n - 1 && SplitsAt(cs[2..], k)
  {
    forall k: nat
      ensures SplitsAt(cs, k + 1) <==> SplitsAt(cs[2..], k)
    {
      SplitsShift(cs, k);
    }
    if k: nat :| k < n && SplitsAt(cs, k) {
      assert SplitsAt(cs[2..], k - 1);
    }
    if k: nat :| k < n - 1 && SplitsAt(cs[2..], k) {
      assert SplitsAt(cs, k + 1);
    }
  }

  /** The first slice was not read: nothing after it is looked at. */
  lemma SplitsNowOrNever(cs: string, n: nat)
    requires n > 0 && ByteLen(cs) == 2 * n && !SliceValue(cs).Iccid?
    ensures (exists k: nat :: k < n && SplitsAt(cs, k)) <==> SplitsAt(cs, 0)
  {
    if k: nat :| k < n && SplitsAt(cs, k) {
      if k > 0 {
        SplitsLater(cs, k);
        PairIsAscii(cs[0], cs[1]);
      }
    }
  }

  lemma {:induction false} SlicesSplit(cs: string, n: nat)
    requires ByteLen(cs) == 2 * n
    ensures ParseSlices(cs, n) == SplitCharacter <==> exists k: nat :: k < n && SplitsAt(cs, k)
  {
    if n == 0 {
    } else {
      SplitsFirst(cs);
      if SliceValue(cs).Iccid? {
        ParseStep(cs, n);
        SlicesSplit(cs[2..], n - 1);
        SplitsInTheRest(cs, n);
      } else {
        SplitsNowOrNever(cs, n);
      }
    }
  }

  /** On twenty octets, the slicing panics exactly if a slice ends inside a
      character and every slice before it was read; otherwise what is no ICCID is
      an error. */
  lemma PanicsIffSplit(s: string)
    ensures ParseIccidOf(s) == SplitCharacter
       <==> ByteLen(s) == 20 && exists k: nat :: k < 10 && SplitsAt(s, k)
  {
    if ByteLen(s) == 20 {
      SlicesSplit(s, 10);
    }
  }

  // ---- where it differs

  /** They do not agree elsewhere: a plus sign passes for a leading zero. */
  lemma PlusPassesForZero(b: Bytes10)
    requires b[0] < 16
    ensures ParseIccidOf(['+'] + ToHexLower(b)[1..]) == Iccid(b)
    ensures FromHex(['+'] + ToHexLower(b)[1..]) == Rejected(NotHex('+'))
  {
    HexSpells(b);
    SpelledArePairs(ToHexLower(b), b);
    var s := ['+'] + ToHexLower(b)[1..];
    forall i | 0 <= i < |b|
      ensures PairValue(s[2 * i], s[2 * i + 1]) == Some(b[i])
    {
      assert PairValue(ToHexLower(b)[2 * i], ToHexLower(b)[2 * i + 1]) == Some(b[i]);
      DigitsAt(b, i);
    }
    assert TenPairs(s, b);
    IccidIffTenPairs(s);
    PairsAreParsed(s, b);
    StopsAtFirstNonHex(s, 0);
  }

  /** What `order add` prints for an ICCID is read back as that ICCID. */
  lemma ParseOfPrinted(iccid: Bytes10)
    ensures ParseIccidOf(ToHexLower(iccid)) == Iccid(iccid)
  {
    HexSpells(iccid);
    AgreesWithFromHex(ToHexLower(iccid), iccid);
  }
}
