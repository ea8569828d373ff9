/** The hexadecimal transactionId codec of the ES9+ JSON binding
    (crates/smdp/src/es9/wire.rs).

    A Dafny `char` is a Unicode scalar value, exactly like Rust's. What a Rust
    string adds is its UTF-8 length, which `ByteLen` computes. */
module Wire {
  import opened Basics

  datatype WireError = OddLength(n: nat) | NotHex(c: char)

  /** What evaluating the decoder can end in. `Panicked` is an index past the
      end of a chunk; `FromHexIsTotal` shows that it never happens. */
  datatype Decoded = Octets(bytes: Bytes) | Rejected(error: WireError) | Panicked

  // ---- characters and digits

  /** Octets that UTF-8 spends on one scalar value. */
  function Utf8Width(c: char): (n: nat)
    ensures 1 <= n <= 4
    ensures n == 1 <==> c as int < 0x80
  {
    if c as int < 0x80 then 1
    else if c as int < 0x800 then 2
    else if c as int < 0x1_0000 then 3
    else 4
  }

  /** `str::len`. */
  function ByteLen(s: string): nat {
    if s == [] then 0 else Utf8Width(s[0]) + ByteLen(s[1..])
  }

  /** `char::to_digit(16)`. */
  function Digit(c: char): Option<nat> {
    if '0' <= c <= '9' then Some(c as int - '0' as int)
    else if 'a' <= c <= 'f' then Some(c as int - 'a' as int + 10)
    else if 'A' <= c <= 'F' then Some(c as int - 'A' as int + 10)
    else None
  }

  predicate IsHex(c: char) {
    Digit(c).Some?
  }

  predicate AllHex(s: string) {
    forall i :: 0 <= i < |s| ==> IsHex(s[i])
  }

  function UpperDigit(d: nat): (c: char)
    requires d < 16
    ensures Digit(c) == Some(d) && UpperChar(c) == c
  {
    if d < 10 then ('0' as int + d) as char else ('A' as int + d - 10) as char
  }

  function LowerDigit(d: nat): (c: char)
    requires d < 16
    ensures Digit(c) == Some(d) && UpperChar(c) == UpperDigit(d)
  {
    if d < 10 then ('0' as int + d) as char else ('a' as int + d - 10) as char
  }

  /** ASCII upper-casing. */
  function UpperChar(c: char): char {
    if 'a' <= c <= 'z' then (c as int - 32) as char else c
  }

  function Upper(s: string): string {
    seq(|s|, i requires 0 <= i < |s| => UpperChar(s[i]))
  }

  /** The sixteen digits, in order, in either case; and there are no others. */
  lemma DigitsInOrder(d: nat)
    requires d < 16
    ensures UpperDigit(d) == "0123456789ABCDEF"[d] && LowerDigit(d) == "0123456789abcdef"[d]
    ensures Digit("0123456789ABCDEF"[d]) == Some(d) && Digit("0123456789abcdef"[d]) == Some(d)
  {
  }

  lemma NoOtherDigits(c: char)
    requires IsHex(c)
    ensures Digit(c).value < 16
    ensures c == "0123456789ABCDEF"[Digit(c).value] || c == "0123456789abcdef"[Digit(c).value]
  {
  }

  /** Bits of a scalar value that a UTF-8 sequence of `n` octets has room for. */
  function PayloadBits(n: nat): nat {
    if n == 1 then 7 else 5 * n + 1
  }

  function Pow2(n: nat): nat {
    if n == 0 then 1 else 2 * Pow2(n - 1)
  }

  /** UTF-8 takes the shortest sequence with room for the scalar value (section 3
      of RFC 3629). */
  lemma WidthIsShortest(c: char)
    ensures (c as int) < Pow2(PayloadBits(Utf8Width(c)))
    ensures Utf8Width(c) > 1 ==> c as int >= Pow2(PayloadBits(Utf8Width(c) - 1))
  {
    assert Pow2(7) == 0x80;
    assert Pow2(11) == 16 * Pow2(7);
    assert Pow2(16) == 32 * Pow2(11);
    assert Pow2(21) == 32 * Pow2(16);
  }

  // ---- the codec

  /** `{x:02X}` of every octet, run together. */
  function ToHexUpper(b: Bytes): string {
    if b == [] then "" else [UpperDigit(b[0] / 16), UpperDigit(b[0] % 16)] + ToHexUpper(b[1..])
  }

  /** `{b:02x}` of every octet: `hex` of crates/smdp/src/bin/smdp.rs. */
  function ToHexLower(b: Bytes): string {
    if b == [] then "" else [LowerDigit(b[0] / 16), LowerDigit(b[0] % 16)] + ToHexLower(b[1..])
  }

  /** The parity test reads the UTF-8 length, the chunks are cut from chars. */
  function FromHex(s: string): Decoded {
    if ByteLen(s) % 2 != 0 then Rejected(OddLength(ByteLen(s))) else DecodeChunks(s)
  }

  /** Chunks of two, left to right, stopping at the first error: the first
      digit of a chunk is judged before the second is indexed. */
  function DecodeChunks(cs: string): Decoded {
    if cs == [] then Octets([])
    else match Digit(cs[0])
      case None => Rejected(NotHex(cs[0]))
      case Some(high) =>
        if |cs| == 1 then Panicked
        else match Digit(cs[1])
          case None => Rejected(NotHex(cs[1]))
          case Some(low) =>
            match DecodeChunks(cs[2..])
            case Octets(rest) => Octets([high * 16 + low] + rest)
            case failed => failed
  }

  /** `b` is what the digits of `s`, taken in pairs, spell. */
  ghost predicate Spells(s: string, b: Bytes) {
    && |s| == 2 * |b|
    && AllHex(s)
    && forall i :: 0 <= i < |b| ==> b[i] == 16 * Digit(s[2 * i]).value + Digit(s[2 * i + 1]).value
  }

  /** `c` is the leftmost character of `s` that is no hexadecimal digit. */
  ghost predicate FirstNonHex(s: string, c: char) {
    exists k :: 0 <= k < |s| && s[k] == c && !IsHex(c) && AllHex(s[..k])
  }

  // ---- what decoding does, on every string

  lemma {:induction false} HexIsOneByteEach(s: string)
    requires AllHex(s)
    ensures ByteLen(s) == |s|
  {
    if s == [] {
    } else {
      HexIsOneByteEach(s[1..]);
    }
  }

  lemma {:induction false} DecodesAllHex(s: string)
    requires AllHex(s) && |s| % 2 == 0
    ensures DecodeChunks(s).Octets? && Spells(s, DecodeChunks(s).bytes)
  {
    if s == [] {
    } else {
      var rest := s[2..];
      DecodesAllHex(rest);
      var b := DecodeChunks(s).bytes;
      forall i | 0 <= i < |b|
        ensures b[i] == 16 * Digit(s[2 * i]).value + Digit(s[2 * i + 1]).value
      {
        if i > 0 {
          assert b[i] == DecodeChunks(rest).bytes[i - 1];
          assert rest[2 * (i - 1)] == s[2 * i] && rest[2 * (i - 1) + 1] == s[2 * i + 1];
        }
      }
    }
  }

  lemma {:induction false} StopsAtFirstNonHex(s: string, k: nat)
    requires k < |s| && !IsHex(s[k]) && AllHex(s[..k])
    ensures DecodeChunks(s) == Rejected(NotHex(s[k]))
  {
    if k == 0 {
    } else if k == 1 {
      assert s[0] == s[..k][0];
    } else {
      assert s[0] == s[..k][0] && s[1] == s[..k][1];
      assert s[2..][..k - 2] == s[..k][2..];
      StopsAtFirstNonHex(s[2..], k - 2);
    }
  }

  lemma {:induction false} FirstNonHexExists(s: string) returns (k: nat)
    requires !AllHex(s)
    ensures k < |s| && !IsHex(s[k]) && AllHex(s[..k])
  {
    if !IsHex(s[0]) {
      k := 0;
    } else {
      var j := FirstNonHexExists(s[1..]);
      k := j + 1;
      assert s[..k] == [s[0]] + s[1..][..j];
    }
  }

  lemma FirstNonHexIsUnique(s: string, j: nat, k: nat)
    requires j < |s| && !IsHex(s[j]) && AllHex(s[..j])
    requires k < |s| && !IsHex(s[k]) && AllHex(s[..k])
    ensures j == k
  {
    assert forall i :: 0 <= i < j ==> s[..j][i] == s[i];
    assert forall i :: 0 <= i < k ==> s[..k][i] == s[i];
  }

  lemma SpeltIsUnique(s: string, a: Bytes, b: Bytes)
    requires Spells(s, a) && Spells(s, b)
    ensures a == b
  {
  }

  lemma FromHexOnDigits(s: string)
    requires AllHex(s)
    ensures if |s| % 2 == 1 then FromHex(s) == Rejected(OddLength(|s|))
            else FromHex(s).Octets? && Spells(s, FromHex(s).bytes)
  {
    HexIsOneByteEach(s);
    if |s| % 2 == 0 {
      DecodesAllHex(s);
    }
  }

  lemma FromHexOtherwise(s: string)
    requires !AllHex(s)
    ensures if ByteLen(s) % 2 == 1 then FromHex(s) == Rejected(OddLength(ByteLen(s)))
            else FromHex(s).Rejected? && FromHex(s).error.NotHex? && FirstNonHex(s, FromHex(s).error.c)
  {
    var k := FirstNonHexExists(s);
    StopsAtFirstNonHex(s, k);
  }

  /** The decoder answers on every Unicode string, and which of its three
      answers it gives is decided by the octet length and the first character
      that is no digit. A lone last character never has its missing partner
      read: an odd number of chars in an even number of octets includes one
      outside ASCII, which is no digit and stops the decoder first. */
  lemma FromHexIsTotal(s: string)
    ensures FromHex(s) != Panicked
    ensures forall n :: FromHex(s) == Rejected(OddLength(n)) <==> ByteLen(s) % 2 == 1 && n == ByteLen(s)
    ensures forall c :: FromHex(s) == Rejected(NotHex(c)) <==> ByteLen(s) % 2 == 0 && FirstNonHex(s, c)
    ensures forall b :: FromHex(s) == Octets(b) <==> Spells(s, b)
  {
    if AllHex(s) {
      HexIsOneByteEach(s);
      FromHexOnDigits(s);
      forall b | Spells(s, b)
        ensures FromHex(s) == Octets(b)
      {
        SpeltIsUnique(s, FromHex(s).bytes, b);
      }
    } else {
      FromHexOtherwise(s);
      forall c, d | FirstNonHex(s, c) && FirstNonHex(s, d)
        ensures c == d
      {
        var j: nat :| j < |s| && s[j] == c && !IsHex(c) && AllHex(s[..j]);
        var k: nat :| k < |s| && s[k] == d && !IsHex(d) && AllHex(s[..k]);
        FirstNonHexIsUnique(s, j, k);
      }
    }
  }

  // ---- round trips

  lemma {:induction false} DigitsAt(b: Bytes, i: nat)
    requires i < |b|
    ensures |ToHexUpper(b)| == |ToHexLower(b)| == 2 * |b|
    ensures ToHexUpper(b)[2 * i] == UpperDigit(b[i] / 16)
    ensures ToHexUpper(b)[2 * i + 1] == UpperDigit(b[i] % 16)
    ensures ToHexLower(b)[2 * i] == LowerDigit(b[i] / 16)
    ensures ToHexLower(b)[2 * i + 1] == LowerDigit(b[i] % 16)
  {
    if |b| == 1 {
    } else {
      DigitsAt(b[1..], if i == 0 then 0 else i - 1);
    }
  }

  /** Digit `i` of either encoding is a hexadecimal digit, and the two differ
      in case only. */
  lemma HexDigitAt(b: Bytes, i: nat)
    requires i < 2 * |b|
    ensures |ToHexUpper(b)| == |ToHexLower(b)| == 2 * |b|
    ensures IsHex(ToHexUpper(b)[i]) && IsHex(ToHexLower(b)[i])
    ensures Upper(ToHexUpper(b))[i] == ToHexUpper(b)[i] == Upper(ToHexLower(b))[i]
  {
    DigitsAt(b, i / 2);
    if i % 2 == 0 {
      assert i == 2 * (i / 2);
    } else {
      assert i == 2 * (i / 2) + 1;
    }
  }

  lemma OctetAt(b: Bytes, k: nat)
    requires k < |b|
    ensures |ToHexUpper(b)| == |ToHexLower(b)| == 2 * |b|
    ensures IsHex(ToHexUpper(b)[2 * k]) && IsHex(ToHexUpper(b)[2 * k + 1])
    ensures IsHex(ToHexLower(b)[2 * k]) && IsHex(ToHexLower(b)[2 * k + 1])
    ensures b[k] == 16 * Digit(ToHexUpper(b)[2 * k]).value + Digit(ToHexUpper(b)[2 * k + 1]).value
    ensures b[k] == 16 * Digit(ToHexLower(b)[2 * k]).value + Digit(ToHexLower(b)[2 * k + 1]).value
  {
    DigitsAt(b, k);
  }

  lemma HexSpells(b: Bytes)
    ensures Spells(ToHexUpper(b), b) && Spells(ToHexLower(b), b)
    ensures Upper(ToHexUpper(b)) == ToHexUpper(b) == Upper(ToHexLower(b))
  {
    var s, t := ToHexUpper(b), ToHexLower(b);
    if b != [] {
      DigitsAt(b, 0);
      forall i | 0 <= i < |s|
        ensures IsHex(s[i]) && IsHex(t[i]) && Upper(s)[i] == s[i] == Upper(t)[i]
      {
        HexDigitAt(b, i);
      }
      forall k | 0 <= k < |b|
        ensures b[k] == 16 * Digit(s[2 * k]).value + Digit(s[2 * k + 1]).value
        ensures b[k] == 16 * Digit(t[2 * k]).value + Digit(t[2 * k + 1]).value
      {
        OctetAt(b, k);
      }
    }
    assert Upper(s) == s == Upper(t);
  }

  /** Decoding inverts encoding. */
  lemma DecodeOfEncode(b: Bytes)
    ensures FromHex(ToHexUpper(b)) == Octets(b)
  {
    HexSpells(b);
    FromHexIsTotal(ToHexUpper(b));
  }

  /** What digits spell determines them up to letter case. */
  lemma SpellsDetermines(s: string, t: string, b: Bytes)
    requires Spells(s, b) && Spells(t, b)
    ensures Upper(s) == Upper(t)
  {
    forall i | 0 <= i < |s|
      ensures Upper(s)[i] == Upper(t)[i]
    {
      var k := i / 2;
      assert b[k] == 16 * Digit(s[2 * k]).value + Digit(s[2 * k + 1]).value;
      assert b[k] == 16 * Digit(t[2 * k]).value + Digit(t[2 * k + 1]).value;
      SameDigits(Digit(s[2 * k]).value, Digit(s[2 * k + 1]).value, Digit(t[2 * k]).value, Digit(t[2 * k + 1]).value);
      assert i == 2 * k || i == 2 * k + 1;
      assert Digit(s[i]) == Digit(t[i]);
    }
  }

  lemma SameDigits(a: nat, b: nat, c: nat, d: nat)
    requires a < 16 && b < 16 && c < 16 && d < 16 && 16 * a + b == 16 * c + d
    ensures a == c && b == d
  {
  }

  /** Encoding what an accepted string decodes to gives that string back in
      upper case. */
  lemma EncodeOfDecode(s: string)
    requires FromHex(s).Octets?
    ensures ToHexUpper(FromHex(s).bytes) == Upper(s)
  {
    var b := FromHex(s).bytes;
    FromHexIsTotal(s);
    HexSpells(b);
    SpellsDetermines(s, ToHexUpper(b), b);
  }

  /** Two accepted transactionIds name the same session exactly when they
      differ in letter case only. */
  lemma SameTransactionIffSameUpperCase(s: string, t: string)
    requires FromHex(s).Octets? && FromHex(t).Octets?
    ensures FromHex(s) == FromHex(t) <==> Upper(s) == Upper(t)
  {
    EncodeOfDecode(s);
    EncodeOfDecode(t);
    if Upper(s) == Upper(t) {
      DecodeOfEncode(FromHex(s).bytes);
      DecodeOfEncode(FromHex(t).bytes);
    }
  }
}
