/** Pickle's variable-length signed integers (PEP 307, "Pickling Python longs"). */
module PickleLong {
  import opened Bytes
  import opened Common

  /** The shortest signed little-endian string for a value; zero is the empty string. */
  function LongBytes(v: int): bytes {
    if v == 0 then [] else SignedBytes(v)
  }

  function SignedBytes(v: int): (s: bytes)
    ensures s != []
    decreases if v < 0 then -v else v
  {
    if -0x80 <= v < 0x80 then [v % 256] else [v % 256] + SignedBytes(v / 256)
  }

  lemma {:induction false} SignedBytesValue(v: int)
    ensures SignedLe(SignedBytes(v)) == v
    decreases if v < 0 then -v else v
  {
    if -0x80 <= v < 0x80 {
    } else {
      assert SignedBytes(v)[1..] == SignedBytes(v / 256);
      SignedBytesValue(v / 256);
    }
  }

  /** `LongBytes` denotes its argument, and no shorter string does. */
  lemma {:induction false} LongBytesMinimal(v: int, s: bytes)
    ensures SignedLe(LongBytes(v)) == v
    ensures SignedLe(s) == v ==> |LongBytes(v)| <= |s|
  {
    SignedBytesValue(v);
    if SignedLe(s) == v && v != 0 {
      SignedBytesShortest(s);
    }
  }

  lemma {:induction false} SignedBytesShortest(s: bytes)
    requires s != []
    ensures |SignedBytes(SignedLe(s))| <= |s|
  {
    if |s| <= 1 {
    } else {
      SignedBytesShortest(s[1..]);
    }
  }

  /** An i64 needs at most eight bytes. */
  lemma {:induction false} LongBytesWidth(v: int64)
    ensures |LongBytes(v)| <= 8
  {
    Pow256Values();
    SignedRoundTrip(v, 8);
    LongBytesMinimal(v, ToLe(v, 8));
  }

  /** A string whose last byte is not a redundant sign byte is the canonical one. */
  ghost predicate Canonical(s: bytes) {
    && s != []
    && (|s| == 1 || !(s[|s| - 1] == 0 && s[|s| - 2] < 0x80))
    && (|s| == 1 || !(s[|s| - 1] == 0xFF && s[|s| - 2] >= 0x80))
  }

  lemma {:induction false} CanonicalUnique(s: bytes)
    requires Canonical(s)
    ensures SignedBytes(SignedLe(s)) == s
  {
    if |s| <= 1 {
    } else {
      var v, high := SignedLe(s), SignedLe(s[1..]);
      assert v == s[0] + 256 * high;
      CanonicalIsWide(s);
      ByteDivision(s[0], high);
      hide SignedLe;
      assert Canonical(s[1..]);
      CanonicalUnique(s[1..]);
      assert SignedBytes(v) == [s[0]] + SignedBytes(high);
    }
  }

  lemma {:induction false} ByteDivision(b: byte, x: int)
    ensures (b + 256 * x) / 256 == x && (b + 256 * x) % 256 == b
  {
  }

  /** A canonical string of two or more bytes denotes a value outside one byte's range. */
  lemma {:induction false} CanonicalIsWide(s: bytes)
    requires Canonical(s) && |s| >= 2
    ensures !(-0x80 <= SignedLe(s) < 0x80)
  {
    if |s| == 2 {
      assert s[1..] == [s[1]];
    } else {
      CanonicalIsWide(s[1..]);
    }
  }

  /** The encoder: trims redundant sign bytes off the eight-byte form, then puts one back when the
      sign bit would come out wrong. */
  method LongToBytes(v: int64) returns (r: bytes)
    ensures r == LongBytes(v)
  {
    hide ToLe, FromLe, SignedBytes;
    if v == 0 {
      return [];
    }
    var raw := ToLe(v, 8);
    RawValue(v);
    assert raw[..8] == raw;
    var len := 8;
    if v >= 0 {
      while len > 1 && raw[len - 1] == 0
        invariant 1 <= len <= 8
        invariant FromLe(raw[..len]) == v
      {
        DropLastZero(raw[..len]);
        assert raw[..len][..len - 1] == raw[..len - 1];
        len := len - 1;
      }
      TrimmedPositive(raw[..len], v);
      if raw[len - 1] >= 0x80 {
        return raw[..len] + [0];
      }
    } else {
      while len > 1 && raw[len - 1] == 0xFF
        invariant 1 <= len <= 8
        invariant FromLe(raw[..len]) - Pow256(len) == v
      {
        DropLastOnes(raw[..len]);
        assert raw[..len][..len - 1] == raw[..len - 1];
        len := len - 1;
      }
      TrimmedNegative(raw[..len], v);
      if raw[len - 1] < 0x80 {
        return raw[..len] + [0xFF];
      }
    }
    r := raw[..len];
  }

  lemma {:induction false} RawValue(v: int64)
    ensures FromLe(ToLe(v, 8)) == if v >= 0 then v else v + Pow256(8)
  {
    Pow256Values();
    SignedRoundTrip(v, 8);
    SignedVersusUnsigned(ToLe(v, 8));
    FromLeRange(ToLe(v, 8));
  }

  lemma {:induction false} TrimmedPositive(s: bytes, v: int)
    requires s != [] && (|s| == 1 || s[|s| - 1] != 0)
    requires v == FromLe(s) && v > 0
    ensures SignedBytes(v) == if s[|s| - 1] >= 0x80 then s + [0] else s
  {
    var r := if s[|s| - 1] >= 0x80 then s + [0] else s;
    assert SignedLe(r) == v by {
      SignedLeAppend(s, [0]);
      SignedVersusUnsigned(s);
    }
    assert Canonical(r);
    CanonicalUnique(r);
  }

  lemma {:induction false} AppendOnes(s: bytes)
    ensures SignedLe(s + [0xFF]) == FromLe(s) - Pow256(|s|)
  {
    SignedLeAppend(s, [0xFF]);
    MulMinusOne(Pow256(|s|), SignedLe([0xFF]));
  }

  lemma {:induction false} MulMinusOne(p: int, x: int)
    requires x == -1
    ensures p * x == -p
  {
  }

  lemma {:induction false} TrimmedNegative(s: bytes, v: int)
    requires s != [] && (|s| == 1 || s[|s| - 1] != 0xFF)
    requires v == FromLe(s) - Pow256(|s|)
    ensures SignedBytes(v) == if s[|s| - 1] < 0x80 then s + [0xFF] else s
  {
    var r := if s[|s| - 1] < 0x80 then s + [0xFF] else s;
    assert SignedLe(r) == v by {
      AppendOnes(s);
      SignedVersusUnsigned(s);
    }
    assert Canonical(r);
    CanonicalUnique(r);
  }

  lemma {:induction false} DropLastZero(s: bytes)
    requires |s| > 1 && s[|s| - 1] == 0
    ensures FromLe(s) == FromLe(s[..|s| - 1])
  {
    FromLeAppend(s[..|s| - 1], [0]);
    assert s == s[..|s| - 1] + [0];
    assert FromLe([0]) == 0;
  }

  lemma {:induction false} DropLastOnes(s: bytes)
    requires |s| > 1 && s[|s| - 1] == 0xFF
    ensures FromLe(s) - Pow256(|s|) == FromLe(s[..|s| - 1]) - Pow256(|s| - 1)
  {
    FromLeAppend(s[..|s| - 1], [0xFF]);
    assert s == s[..|s| - 1] + [0xFF];
    assert FromLe([0xFF]) == 0xFF + 256 * FromLe([0xFF][1..]) == 0xFF;
  }

  /** The decoder: sign-extends to eight bytes, or keeps the first eight. For every string the
      result is its signed value modulo 2^64. */
  method BytesToLong(s: bytes) returns (r: int64)
    ensures r == WrapI64(SignedLe(s))
  {
    if s == [] {
      return 0;
    }
    var negative := s[|s| - 1] >= 0x80;
    var fill: byte := if negative then 0xFF else 0x00;
    var buf := new byte[8](_ => fill);
    var len := Min(|s|, 8);
    for i := 0 to len
      invariant buf[..] == s[..i] + Fill(fill, 8 - i)
    {
      buf[i] := s[i];
    }
    Pow256Values();
    SignedLeRange(buf[..]);
    r := SignedLe(buf[..]);
    if |s| <= 8 {
      assert s[..len] == s;
      SignExtend(s, 8 - |s|);
    } else {
      assert Fill(fill, 0) == [];
      assert buf[..] == s[..8];
      FirstEight(s);
    }
    WrapUnique(r, SignedLe(s));
  }

  function Fill(b: byte, n: nat): (s: bytes) {
    seq(n, _ => b)
  }

  lemma {:induction false} SignExtend(s: bytes, n: nat)
    requires s != []
    ensures SignedLe(s + Fill(if s[|s| - 1] >= 0x80 then 0xFF else 0, n)) == SignedLe(s)
    decreases n
  {
    var b: byte := if s[|s| - 1] >= 0x80 then 0xFF else 0;
    if n == 0 {
      assert s + Fill(b, 0) == s;
    } else {
      var t := s + [b];
      SignedLeAppend(s, [b]);
      SignedVersusUnsigned(s);
      SignExtend(t, n - 1);
      assert t + Fill(b, n - 1) == s + Fill(b, n);
    }
  }

  /** Beyond eight bytes, the dropped bytes only contribute multiples of 2^64. */
  lemma {:induction false} FirstEight(s: bytes)
    requires |s| > 8
    ensures (SignedLe(s) - SignedLe(s[..8])) % TWO_64 == 0
  {
    hide SignedLe, FromLe, Pow256;
    var low, high := s[..8], s[8..];
    Pow256Values();
    assert s == low + high;
    SignedLeAppend(low, high);
    SignedVersusUnsigned(low);
    Multiple(SignedLe(high) + if low[7] >= 0x80 then 1 else 0);
  }

  lemma {:induction false} Multiple(k: int)
    ensures (TWO_64 * k) % TWO_64 == 0
  {
  }

  lemma {:induction false} WrapUnique(r: int64, v: int)
    requires (v - r) % TWO_64 == 0
    ensures r == WrapI64(v)
  {
  }

  /** Encoding an i64 and decoding it gives it back. */
  lemma {:induction false} LongRoundTrip(v: int64)
    ensures WrapI64(SignedLe(LongBytes(v))) == v
  {
    SignedBytesValue(v);
  }
}
