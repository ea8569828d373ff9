/** Drawing a MatchingID (crates/smdp/src/service.rs): 22 random octets, each
    masked to five bits and looked up in an alphabet of 32 symbols. The claim
    in the source is that there is no bias; here it is an exact count. */
module MatchingId {
  import opened Basics

  const ALPHABET: string := "ABCDEFGHJKLMNPQRSTUVWXYZ23456789"

  const RAW_LENGTH: nat := 22

  /** What one draw from the operating system yields. */
  type Raw = b: Bytes | |b| == RAW_LENGTH witness seq(RAW_LENGTH, _ => 0)

  /** The mask is written as the remainder it is (`DrawnByMask`). */
  function SymbolOf(b: byte): char {
    ALPHABET[b % 32]
  }

  lemma MaskIsRemainder(b: byte, bits: bv8)
    requires bits as int == b
    ensures (bits & 0x1f) as int == b % 32
  {
  }

  function MatchingIdOf(raw: Bytes): (id: string)
    ensures |id| == |raw|
  {
    seq(|raw|, i requires 0 <= i < |raw| => SymbolOf(raw[i]))
  }

  predicate IsSymbol(c: char) {
    c in ALPHABET
  }

  ghost predicate OverAlphabet(s: string) {
    forall i :: 0 <= i < |s| ==> IsSymbol(s[i])
  }

  // ---- counting preimages

  ghost function OctetsBelow(n: nat): (r: set<byte>)
    requires n <= 256
    ensures forall b: byte :: b in r <==> b < n
  {
    if n == 0 then {} else OctetsBelow(n - 1) + {n - 1}
  }

  /** `[b] + t` for every `b` and `t`. */
  ghost function Prefixed(heads: set<byte>, tails: set<Bytes>): (r: set<Bytes>)
    ensures forall raw: Bytes :: raw in r <==> raw != [] && raw[0] in heads && raw[1..] in tails
  {
    assert forall raw: Bytes :: raw != [] ==> raw == [raw[0]] + raw[1..];
    set b, t | b in heads && t in tails :: [b] + t
  }

  /** Every octet string of length `n`. */
  ghost function AllRaw(n: nat): (r: set<Bytes>)
    ensures forall raw :: raw in r <==> |raw| == n
  {
    if n == 0 then {[]}
    else
      Prefixed(OctetsBelow(256), AllRaw(n - 1))
  }

  /** Everything that is turned into `s`. */
  ghost function Preimages(s: string): (r: set<Bytes>)
    ensures forall raw: Bytes :: raw in r <==> MatchingIdOf(raw) == s
  {
    set raw | raw in AllRaw(|s|) && MatchingIdOf(raw) == s
  }

  ghost function OctetsFor(c: char): (r: set<byte>)
    ensures forall b: byte :: b in r <==> SymbolOf(b) == c
  {
    set b | b in OctetsBelow(256) && SymbolOf(b) == c
  }

  function Pow8(n: nat): nat {
    if n == 0 then 1 else 8 * Pow8(n - 1)
  }

  /** Where a symbol stands: the letters without I and O, then 2 to 9. */
  function Rank(c: char): int {
    if c <= '9' then c as int - '2' as int + 24
    else if c <= 'H' then c as int - 'A' as int
    else if c <= 'N' then c as int - 'A' as int - 1
    else c as int - 'A' as int - 2
  }

  /** No symbol stands twice. */
  lemma AlphabetIsDistinct(i: nat)
    requires i < 32
    ensures |ALPHABET| == 32
    ensures Rank(ALPHABET[i]) == i
  {
  }

  /** One symbol for each octet: the one that stands where the octet's five low
      bits say. */
  ghost predicate IsDrawnFrom(m: string, raw: Bytes) {
    |m| == |raw| && forall i :: 0 <= i < |raw| ==> IsSymbol(m[i]) && Rank(m[i]) == raw[i] % 32
  }

  lemma DrawnFromRaw(raw: Bytes)
    ensures IsDrawnFrom(MatchingIdOf(raw), raw)
  {
    forall i | 0 <= i < |raw|
      ensures IsSymbol(MatchingIdOf(raw)[i]) && Rank(MatchingIdOf(raw)[i]) == raw[i] % 32
    {
      AlphabetIsDistinct(raw[i] % 32);
    }
  }

  /** The symbol drawn for an octet is the one at the place its bits, masked as the
      source masks them, say. */
  lemma DrawnByMask(raw: Bytes, i: nat, bits: bv8)
    requires i < |raw| && bits as int == raw[i]
    ensures IsSymbol(MatchingIdOf(raw)[i]) && Rank(MatchingIdOf(raw)[i]) == (bits & 0x1f) as int
  {
    DrawnFromRaw(raw);
    MaskIsRemainder(raw[i], bits);
  }

  lemma RankIsPosition(c: char)
    requires IsSymbol(c)
    ensures 0 <= Rank(c) < 32 && ALPHABET[Rank(c)] == c
  {
    AlphabetIsDistinct(0);
    var i :| 0 <= i < |ALPHABET| && ALPHABET[i] == c;
    AlphabetIsDistinct(i);
  }

  /** And that says which symbols they are. */
  lemma DrawnIsUnique(m: string, other: string, raw: Bytes)
    requires IsDrawnFrom(m, raw) && IsDrawnFrom(other, raw)
    ensures m == other
  {
    forall i | 0 <= i < |raw|
      ensures m[i] == other[i]
    {
      RankIsPosition(m[i]);
      RankIsPosition(other[i]);
    }
  }

  ghost function Residues(n: nat, i: nat): set<byte>
    requires n <= 256
  {
    set b | b in OctetsBelow(n) && b % 32 == i
  }

  lemma ResidueStep(n: nat, i: nat)
    requires 0 < n && i < 32
    ensures (n + 31 - i) / 32 == (n + 30 - i) / 32 + (if (n - 1) % 32 == i then 1 else 0)
  {
    var q, r := (n - 1) / 32, (n - 1) % 32;
    assert n == 32 * q + r + 1;
    assert (n + 30 - i) / 32 == q + (if r > i then 1 else 0);
  }

  lemma ResiduesGrow(n: nat, i: nat)
    requires 0 < n <= 256
    ensures Residues(n, i) == Residues(n - 1, i) + if (n - 1) % 32 == i then {n - 1} else {}
  {
  }

  lemma {:induction false} ResidueCount(n: nat, i: nat)
    requires n <= 256 && i < 32
    ensures |Residues(n, i)| == (n + 31 - i) / 32
  {
    if n == 0 {
      assert Residues(n, i) == {};
    } else {
      ResidueCount(n - 1, i);
      ResidueStep(n, i);
      ResiduesGrow(n, i);
    }
  }

  /** Each symbol is drawn by exactly eight octets. */
  lemma EightOctetsPerSymbol(c: char)
    ensures |OctetsFor(c)| == if IsSymbol(c) then 8 else 0
  {
    if IsSymbol(c) {
      AlphabetIsDistinct(0);
      var i: nat :| i < |ALPHABET| && ALPHABET[i] == c;
      ResidueCount(256, i);
      forall b: byte
        ensures b in OctetsFor(c) <==> b % 32 == i
      {
        AlphabetIsDistinct(b % 32);
        AlphabetIsDistinct(i);
      }
      assert OctetsFor(c) == Residues(256, i);
    } else {
      assert OctetsFor(c) == {};
    }
  }

  lemma PrefixedGrows(b: byte, t: Bytes, tails: set<Bytes>)
    requires t in tails
    ensures Prefixed({b}, tails) == Prefixed({b}, tails - {t}) + {[b] + t}
    ensures [b] + t !in Prefixed({b}, tails - {t})
  {
    forall raw: Bytes
      ensures raw in Prefixed({b}, tails) <==> raw in Prefixed({b}, tails - {t}) + {[b] + t}
    {
      if raw != [] {
        assert raw == [raw[0]] + raw[1..];
      }
    }
  }

  lemma {:induction false} PrefixedWithOne(b: byte, tails: set<Bytes>)
    ensures |Prefixed({b}, tails)| == |tails|
  {
    if tails == {} {
      assert Prefixed({b}, tails) == {};
    } else {
      var t :| t in tails;
      PrefixedWithOne(b, tails - {t});
      PrefixedGrows(b, t, tails);
    }
  }

  function Times(n: nat, x: nat): nat {
    if n == 0 then 0 else Times(n - 1, x) + x
  }

  lemma {:induction false} TimesIsProduct(n: nat, x: nat)
    ensures Times(n, x) == n * x
  {
    if n == 0 {
    } else {
      TimesIsProduct(n - 1, x);
      assert (n - 1) * x + x == n * x;
    }
  }

  lemma PrefixedSplits(b: byte, heads: set<byte>, tails: set<Bytes>)
    requires b in heads
    ensures Prefixed(heads, tails) == Prefixed(heads - {b}, tails) + Prefixed({b}, tails)
    ensures Prefixed(heads - {b}, tails) !! Prefixed({b}, tails)
  {
  }

  lemma DisjointCount<T>(a: set<T>, b: set<T>)
    requires a !! b
    ensures |a + b| == |a| + |b|
  {
  }

  lemma PrefixedCountStep(b: byte, heads: set<byte>, tails: set<Bytes>)
    requires b in heads
    ensures |Prefixed(heads, tails)| == |Prefixed(heads - {b}, tails)| + |tails|
  {
    PrefixedSplits(b, heads, tails);
    DisjointCount(Prefixed(heads - {b}, tails), Prefixed({b}, tails));
    PrefixedWithOne(b, tails);
  }

  lemma {:induction false} PrefixedCount(heads: set<byte>, tails: set<Bytes>)
    ensures |Prefixed(heads, tails)| == Times(|heads|, |tails|)
  {
    if heads == {} {
      assert Prefixed(heads, tails) == {};
    } else {
      var b :| b in heads;
      PrefixedCount(heads - {b}, tails);
      PrefixedCountStep(b, heads, tails);
      assert |heads| == |heads - {b}| + 1;
    }
  }

  /** No bias: every string over the alphabet, of whatever length, is produced
      by exactly `8^n` octet strings of its length, and nothing else is
      produced at all. */
  lemma {:induction false} Unbiased(s: string)
    ensures |Preimages(s)| == if OverAlphabet(s) then Pow8(|s|) else 0
  {
    if s == [] {
      assert Preimages(s) == {[]};
    } else {
      Unbiased(s[1..]);
      EightOctetsPerSymbol(s[0]);
      PreimageCountStep(s);
      TimesIsProduct(8, |Preimages(s[1..])|);
      TimesIsProduct(0, |Preimages(s[1..])|);
      OverAlphabetStep(s);
    }
  }

  lemma OverAlphabetStep(s: string)
    requires s != []
    ensures OverAlphabet(s) <==> IsSymbol(s[0]) && OverAlphabet(s[1..])
  {
    assert s == [s[0]] + s[1..];
  }

  lemma PreimageCountStep(s: string)
    requires s != []
    ensures |Preimages(s)| == Times(|OctetsFor(s[0])|, |Preimages(s[1..])|)
  {
    PreimagesSplit(s);
    PrefixedCount(OctetsFor(s[0]), Preimages(s[1..]));
  }

  lemma PreimagesSplit(s: string)
    requires s != []
    ensures Preimages(s) == Prefixed(OctetsFor(s[0]), Preimages(s[1..]))
  {
    forall raw: Bytes
      ensures raw in Preimages(s) <==> raw in Prefixed(OctetsFor(s[0]), Preimages(s[1..]))
    {
      SplitPreimage(s, raw);
    }
  }

  lemma SplitPreimage(s: string, raw: Bytes)
    requires s != []
    ensures raw in Preimages(s) <==> raw in Prefixed(OctetsFor(s[0]), Preimages(s[1..]))
  {
    if raw != [] {
      assert MatchingIdOf(raw)[1..] == MatchingIdOf(raw[1..]);
      assert MatchingIdOf(raw) == [SymbolOf(raw[0])] + MatchingIdOf(raw[1..]);
    }
  }
}
