/** What the text forms mean: well-formed UTF-8 is exactly what encodes a string of Unicode scalar
    values, and a decimal numeral, padded or not, is read back as the number it was written from. */
module TextRoundTrip {
  import opened Bytes
  import opened Common
  import opened Text

  // ---- UTF-8 (RFC 3629, section 3) ----

  predicate Scalar(c: int) { 0 <= c < 0xD800 || 0xE000 <= c < 0x11_0000 }

  function Utf8(c: int): (s: bytes)
    requires Scalar(c)
    ensures 1 <= |s| <= 4
  {
    if c < 0x80 then [c]
    else if c < 0x800 then [0xC0 + c / 0x40, 0x80 + c % 0x40]
    else if c < 0x1_0000 then [0xE0 + c / 0x1000, 0x80 + c / 0x40 % 0x40, 0x80 + c % 0x40]
    else [0xF0 + c / 0x4_0000, 0x80 + c / 0x1000 % 0x40, 0x80 + c / 0x40 % 0x40, 0x80 + c % 0x40]
  }

  ghost predicate AllScalar(cs: seq<int>) {
    forall i :: 0 <= i < |cs| ==> Scalar(cs[i])
  }

  function Utf8Of(cs: seq<int>): bytes
    requires AllScalar(cs)
  {
    if cs == [] then [] else Utf8(cs[0]) + Utf8Of(cs[1..])
  }

  lemma {:induction false} HeadOfEncoded(c: int, rest: bytes)
    requires Scalar(c)
    ensures Utf8Head(Utf8(c) + rest) == |Utf8(c)|
  {
    var s := Utf8(c) + rest;
    assert forall i :: 0 <= i < |Utf8(c)| ==> s[i] == Utf8(c)[i];
    if 0x800 <= c < 0x1_0000 {
      ThreeByteBounds(c);
    } else if c >= 0x1_0000 {
      FourByteBounds(c);
    }
  }

  lemma {:induction false} ThreeByteBounds(c: int)
    requires 0x800 <= c < 0x1_0000 && Scalar(c)
    ensures var hi, mid := c / 0x1000, c / 0x40 % 0x40;
            0 <= hi < 0x10 && (hi == 0 ==> mid >= 0x20) && (hi == 0xD ==> mid < 0x20)
  {
    var hi, mid, lo := c / 0x1000, c / 0x40 % 0x40, c % 0x40;
    assert c == 0x1000 * hi + 0x40 * mid + lo;
  }

  lemma {:induction false} FourByteBounds(c: int)
    requires 0x1_0000 <= c < 0x11_0000
    ensures var hi, mid := c / 0x4_0000, c / 0x1000 % 0x40;
            0 <= hi <= 4 && (hi == 0 ==> mid >= 0x10) && (hi == 4 ==> mid < 0x10)
  {
    var hi, mid, low := c / 0x4_0000, c / 0x1000 % 0x40, c % 0x1000;
    assert c == 0x4_0000 * hi + 0x1000 * mid + low;
  }

  lemma {:induction false} HeadDecodes(s: bytes)
    requires Utf8Head(s) > 0
    ensures Scalar(CodeOf(s)) && Utf8(CodeOf(s)) == s[..Utf8Head(s)]
  {
    var c, n := CodeOf(s), Utf8Head(s);
    if n == 2 {
      Digits2(s[0] as int - 0xC0, s[1] as int - 0x80);
    } else if n == 3 {
      Digits3(s[0] as int - 0xE0, s[1] as int - 0x80, s[2] as int - 0x80);
    } else if n == 4 {
      Digits4(s[0] as int - 0xF0, s[1] as int - 0x80, s[2] as int - 0x80, s[3] as int - 0x80);
    }
  }

  lemma {:induction false} Digits2(a: int, b: int)
    requires 0 <= a && 0 <= b < 0x40
    ensures var c := a * 0x40 + b; c / 0x40 == a && c % 0x40 == b
  {
  }

  lemma {:induction false} Digits3(a: int, b: int, d: int)
    requires 0 <= a && 0 <= b < 0x40 && 0 <= d < 0x40
    ensures var c := a * 0x1000 + b * 0x40 + d; c / 0x1000 == a && c / 0x40 % 0x40 == b && c % 0x40 == d
  {
    var c := a * 0x1000 + b * 0x40 + d;
    Digits2(a * 0x40 + b, d);
    Digits2(a, b);
    assert c / 0x1000 == c / 0x40 / 0x40;
  }

  lemma {:induction false} Digits4(a: int, b: int, d: int, e: int)
    requires 0 <= a && 0 <= b < 0x40 && 0 <= d < 0x40 && 0 <= e < 0x40
    ensures var c := a * 0x4_0000 + b * 0x1000 + d * 0x40 + e;
            c / 0x4_0000 == a && c / 0x1000 % 0x40 == b && c / 0x40 % 0x40 == d && c % 0x40 == e
  {
    var c := a * 0x4_0000 + b * 0x1000 + d * 0x40 + e;
    Digits2(a * 0x1000 + b * 0x40 + d, e);
    Digits3(a, b, d);
    assert c / 0x4_0000 == c / 0x40 / 0x1000 && c / 0x1000 == c / 0x40 / 0x40;
  }

  /** Well-formed byte strings are exactly the encodings of strings of scalar values. */
  lemma {:induction false} ValidIffEncodes(s: bytes)
    ensures ValidUtf8(s) <==> exists cs: seq<int> | AllScalar(cs) :: Utf8Of(cs) == s
  {
    if ValidUtf8(s) {
      var _ := Decoded(s);
    } else if cs: seq<int> :| AllScalar(cs) && Utf8Of(cs) == s {
      EncodedIsValid(cs);
    }
  }

  lemma {:induction false} Decoded(s: bytes) returns (cs: seq<int>)
    requires ValidUtf8(s)
    ensures AllScalar(cs) && Utf8Of(cs) == s
  {
    if s == [] {
      cs := [];
    } else {
      var n := Utf8Head(s);
      HeadDecodes(s);
      var more := Decoded(s[n..]);
      cs := [CodeOf(s)] + more;
      assert cs[1..] == more && s == s[..n] + s[n..];
    }
  }

  lemma {:induction false} EncodedIsValid(cs: seq<int>)
    requires AllScalar(cs)
    ensures ValidUtf8(Utf8Of(cs))
  {
    if cs == [] {
    } else {
      EncodedIsValid(cs[1..]);
      var head, more := Utf8(cs[0]), Utf8Of(cs[1..]);
      HeadOfEncoded(cs[0], more);
      assert (head + more)[|head|..] == more;
    }
  }

  lemma {:induction false} Utf8Concat(a: bytes, b: bytes)
    requires ValidUtf8(a) && ValidUtf8(b)
    ensures ValidUtf8(a + b)
  {
    if a == [] {
      assert a + b == b;
    } else {
      var n := Utf8Head(a);
      assert Utf8Head(a + b) == n;
      assert (a + b)[n..] == a[n..] + b;
      Utf8Concat(a[n..], b);
    }
  }

  lemma {:induction false} AsciiIsUtf8(s: bytes)
    requires forall i :: 0 <= i < |s| ==> s[i] < 0x80
    ensures ValidUtf8(s)
  {
    if s == [] {
    } else {
      AsciiIsUtf8(s[1..]);
    }
  }

  // ---- Decimal numerals ----

  function Decimal(n: nat): (s: bytes)
    ensures s != [] && forall i :: 0 <= i < |s| ==> IsDigit(s[i])
  {
    if n < 10 then [0x30 + n] else Decimal(n / 10) + [0x30 + n % 10]
  }

  function SignedDecimal(i: int): bytes {
    if i < 0 then ['-' as int] + Decimal(-i) else Decimal(i)
  }

  lemma {:induction false} DigitsOfDecimal(n: nat)
    ensures Digits(Decimal(n)) == n
    ensures n >= 10 ==> |Decimal(n)| >= 2
    ensures n > 0 ==> Decimal(n)[0] != 0x30
  {
    if n < 10 {
      assert Digits([]) == 0;
    } else {
      DigitsOfDecimal(n / 10);
      assert Decimal(n)[..|Decimal(n)| - 1] == Decimal(n / 10);
    }
  }

  /** Numerals are read back as their numbers. */
  lemma {:induction false} NumeralRoundTrip(i: int64)
    ensures ParseI64(SignedDecimal(i)) == Some(i)
    ensures 0 <= i < TWO_32 ==> ParseU32(SignedDecimal(i)) == Some(i)
    ensures SignedDecimal(i) != [0x30, 0x30] && SignedDecimal(i) != [0x30, 0x31]
  {
    var n: int := if i < 0 then 0 - i as int else i;
    DigitsOfDecimal(n);
    hide Decimal, Digits;
    var s := SignedDecimal(i);
    if i < 0 {
      assert s[1..] == Decimal(n);
    } else {
      assert IsDigit(s[0]);
    }
  }

  lemma {:induction false} NumeralIsAscii(i: int)
    ensures var s := SignedDecimal(i);
            && s != [] && (forall k :: 0 <= k < |s| ==> Solid(s[k])) && 10 !in s
  {
    var n := if i < 0 then -i else i;
    assert forall k :: 0 <= k < |Decimal(n)| ==> IsDigit(Decimal(n)[k]);
  }

  /** ASCII white space. */
  predicate Blank(s: bytes) {
    forall i :: 0 <= i < |s| ==> 9 <= s[i] <= 13 || s[i] == 0x20
  }

  predicate Solid(b: byte) { 0x20 < b < 0x7F }

  /** Trimming takes off the padding and nothing else. */
  lemma {:induction false} TrimPadded(a: bytes, s: bytes, b: bytes)
    requires Blank(a) && Blank(b) && s != [] && Solid(s[0]) && Solid(s[|s| - 1])
    ensures Trim(a + s + b) == s
  {
    TrimStartPadded(a, s + b);
    assert a + s + b == a + (s + b);
    TrimEndPadded(s, b);
  }

  /** Stripping a byte takes off all of it at both ends and nothing else. */
  lemma {:induction false} TrimByteTakesAll(s: bytes, b: byte) returns (i: nat)
    ensures var t := TrimByte(s, b);
            && (t != [] ==> t[0] != b && t[|t| - 1] != b)
            && i + |t| <= |s| && s[i..i + |t|] == t
            && (forall k :: 0 <= k < i || i + |t| <= k < |s| ==> s[k] == b)
  {
    if s != [] && s[0] == b {
      var j := TrimByteTakesAll(s[1..], b);
      i := j + 1;
      assert forall k :: 0 < k < |s| ==> s[k] == s[1..][k - 1];
    } else if s != [] && s[|s| - 1] == b {
      i := TrimByteTakesAll(s[..|s| - 1], b);
    } else {
      i := 0;
    }
  }

  lemma {:induction false} TrimStartPadded(a: bytes, s: bytes)
    requires Blank(a) && s != [] && Solid(s[0])
    ensures TrimStart(a + s) == s
  {
    if a == [] {
      assert a + s == s;
    } else {
      assert (a + s)[1..] == a[1..] + s;
      assert (a + s)[..1] == [a[0]];
      TrimStartPadded(a[1..], s);
    }
  }

  /** No white-space character of more than one byte ends in an ASCII byte. */
  lemma {:induction false} AsciiTails(x: byte, y: byte, z: byte)
    requires z < 0x80
    ensures IsSpace([z]) <==> 9 <= z <= 13 || z == 0x20
    ensures !IsSpace([y, z]) && !IsSpace([x, y, z])
  {
    assert Utf8Head([z]) == 1 && Utf8Head([y, z]) != 2 && Utf8Head([x, y, z]) != 3;
  }

  lemma {:induction false} AsciiEnd(t: bytes)
    requires t != [] && t[|t| - 1] < 0x80
    ensures TrimEnd(t) == if 9 <= t[|t| - 1] <= 13 || t[|t| - 1] == 0x20 then TrimEnd(t[..|t| - 1]) else t
  {
    hide IsSpace;
    var n := |t|;
    AsciiTails(if n >= 3 then t[n - 3] else 0, if n >= 2 then t[n - 2] else 0, t[n - 1]);
    assert t[n - 1..] == [t[n - 1]];
    assert n >= 2 ==> t[n - 2..] == [t[n - 2], t[n - 1]];
    assert n >= 3 ==> t[n - 3..] == [t[n - 3], t[n - 2], t[n - 1]];
  }

  lemma {:induction false} TrimEndPadded(s: bytes, b: bytes)
    requires Blank(b) && s != [] && Solid(s[|s| - 1])
    ensures TrimEnd(s + b) == s
  {
    hide TrimEnd;
    var t := s + b;
    AsciiEnd(t);
    if b == [] {
      assert t == s;
    } else {
      assert t[..|t| - 1] == s + b[..|b| - 1];
      TrimEndPadded(s, b[..|b| - 1]);
    }
  }
}
