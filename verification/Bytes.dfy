/** Byte strings and fixed-width integers in little- and big-endian two's complement. */
module Bytes {
  import opened Common

  type byte = b: int | 0 <= b < 0x100
  type bytes = seq<byte>
  type uint32 = i: int | 0 <= i < 0x1_0000_0000
  type uint64 = i: int | 0 <= i < 0x1_0000_0000_0000_0000
  type int64 = i: int | -0x8000_0000_0000_0000 <= i < 0x8000_0000_0000_0000

  const TWO_32 := 0x1_0000_0000
  const TWO_63 := 0x8000_0000_0000_0000
  const TWO_64 := 0x1_0000_0000_0000_0000

  function Pow256(n: nat): (p: nat)
    ensures p >= 1
  {
    Power(256, n)
  }

  /** The `n` low bytes of `v`, least significant first; Euclidean division makes negative values
      come out in two's complement. */
  function ToLe(v: int, n: nat): (s: bytes)
    ensures |s| == n
    decreases n
  {
    if n == 0 then [] else [v % 256] + ToLe(v / 256, n - 1)
  }

  /** The unsigned value of a little-endian byte string. */
  function FromLe(s: bytes): nat {
    if s == [] then 0 else s[0] + 256 * FromLe(s[1..])
  }

  /** The signed (two's complement) value of a little-endian byte string. */
  function SignedLe(s: bytes): int {
    if s == [] then 0
    else if |s| == 1 then (if s[0] >= 0x80 then s[0] - 256 else s[0])
    else s[0] + 256 * SignedLe(s[1..])
  }

  function Reverse<T>(s: seq<T>): (r: seq<T>)
    ensures |r| == |s|
    ensures forall i :: 0 <= i < |s| ==> r[i] == s[|s| - 1 - i]
  {
    seq(|s|, i requires 0 <= i < |s| => s[|s| - 1 - i])
  }

  function ToBe(v: int, n: nat): bytes { Reverse(ToLe(v, n)) }

  function FromBe(s: bytes): nat { FromLe(Reverse(s)) }

  /** `v` brought into the range of i64 modulo 2^64. */
  function WrapI64(v: int): int64 {
    var m := v % TWO_64;
    if m >= TWO_63 then m - TWO_64 else m
  }

  lemma {:induction false} UnsignedRoundTrip(v: int, n: nat)
    requires 0 <= v < Pow256(n)
    ensures FromLe(ToLe(v, n)) == v
    decreases n
  {
    if n == 0 {
    } else {
      assert ToLe(v, n)[1..] == ToLe(v / 256, n - 1);
      UnsignedRoundTrip(v / 256, n - 1);
    }
  }

  lemma {:induction false} SignedRoundTrip(v: int, n: nat)
    requires n > 0 && -128 * Pow256(n - 1) <= v < 128 * Pow256(n - 1)
    ensures SignedLe(ToLe(v, n)) == v
    decreases n
  {
    if n > 1 {
      assert ToLe(v, n)[1..] == ToLe(v / 256, n - 1);
      SignedRoundTrip(v / 256, n - 1);
    } else {
      assert ToLe(v, 1) == [v % 256];
    }
  }

  lemma {:induction false} FromLeRange(s: bytes)
    ensures FromLe(s) < Pow256(|s|)
  {
    if s == [] {
    } else {
      FromLeRange(s[1..]);
    }
  }

  lemma {:induction false} SignedLeRange(s: bytes)
    requires s != []
    ensures -128 * Pow256(|s| - 1) <= SignedLe(s) < 128 * Pow256(|s| - 1)
  {
    if |s| <= 1 {
    } else {
      SignedLeRange(s[1..]);
    }
  }

  lemma {:induction false} FromLeAppend(a: bytes, b: bytes)
    ensures FromLe(a + b) == FromLe(a) + Pow256(|a|) * FromLe(b)
  {
    if a == [] {
      assert a + b == b;
    } else {
      assert (a + b)[1..] == a[1..] + b;
      FromLeAppend(a[1..], b);
      MulAssoc(256, Pow256(|a| - 1), FromLe(b));
    }
  }

  lemma {:induction false} SignedLeAppend(a: bytes, b: bytes)
    requires b != []
    ensures SignedLe(a + b) == FromLe(a) + Pow256(|a|) * SignedLe(b)
  {
    if a == [] {
      assert a + b == b;
    } else {
      assert (a + b)[1..] == a[1..] + b;
      SignedLeAppend(a[1..], b);
      MulAssoc(256, Pow256(|a| - 1), SignedLe(b));
    }
  }

  /** Signed and unsigned readings differ by the sign bit's weight. */
  lemma {:induction false} SignedVersusUnsigned(s: bytes)
    requires s != []
    ensures SignedLe(s) == FromLe(s) - (if s[|s| - 1] >= 0x80 then Pow256(|s|) else 0)
  {
    if |s| == 1 {
      assert FromLe(s[1..]) == 0;
    } else {
      SignedVersusUnsigned(s[1..]);
    }
  }

  /** The widths in use, as numbers. */
  lemma {:induction false} Pow256Values()
    ensures Pow256(1) == 0x100 && Pow256(2) == 0x1_0000 && Pow256(3) == 0x100_0000
    ensures Pow256(4) == TWO_32 && Pow256(7) == 0x100_0000_0000_0000 && Pow256(8) == TWO_64
  {
    assert Pow256(2) == 256 * Pow256(1);
    assert Pow256(4) == 256 * Pow256(3) == 65536 * Pow256(2);
    assert Pow256(6) == 256 * Pow256(5) == 65536 * Pow256(4);
    assert Pow256(8) == 256 * Pow256(7) == 65536 * Pow256(6);
  }

  lemma {:induction false} BigEndianRoundTrip(v: int, n: nat)
    requires 0 <= v < Pow256(n)
    ensures |ToBe(v, n)| == n && FromBe(ToBe(v, n)) == v
  {
    assert Reverse(ToBe(v, n)) == ToLe(v, n);
    UnsignedRoundTrip(v, n);
  }
}
