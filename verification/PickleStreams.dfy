/** How a run depends on its input: only on the bytes it consumes. */
module PickleStreams {
  import opened Bytes
  import opened Common
  import opened PickleEncoder
  import opened PickleMachine
  import opened PickleRoundTrip
  import opened PickleValue

  /** `r` ends with `x`. */
  ghost predicate EndsWith(r: bytes, x: bytes) {
    |r| >= |x| && r[|r| - |x|..] == x
  }

  /** `r` with its suffix `x` replaced by `y`. */
  ghost function Swap(r: bytes, x: bytes, y: bytes): bytes
    requires |r| >= |x|
  {
    r[..|r| - |x|] + y
  }

  lemma {:induction false} TakeSwap(c: bytes, x: bytes, y: bytes, n: nat)
    requires n <= |c|
    ensures Take(c + x, n) == Some(Split(c[..n], c[n..] + x))
    ensures Take(c + y, n) == Some(Split(c[..n], c[n..] + y))
  {
    assert (c + x)[..n] == c[..n] && (c + x)[n..] == c[n..] + x;
    assert (c + y)[..n] == c[..n] && (c + y)[n..] == c[n..] + y;
  }

  lemma {:induction false} LineSwap(c: bytes, x: bytes, y: bytes)
    requires LineLength(c + x) < |c|
    ensures TakeLine(c + x) == Some(Split(c[..LineLength(c + x)], c[LineLength(c + x) + 1..] + x))
    ensures TakeLine(c + y) == Some(Split(c[..LineLength(c + x)], c[LineLength(c + x) + 1..] + y))
  {
    hide LineLength;
    var n, m := LineLength(c + x), LineLength(c + y);
    assert forall k :: 0 <= k < |c| ==> (c + x)[k] == (c + y)[k] == c[k];
    assert n == m;
    assert (c + x)[..n] == c[..n] && (c + x)[n + 1..] == c[n + 1..] + x;
    assert (c + y)[..n] == c[..n] && (c + y)[n + 1..] == c[n + 1..] + y;
  }

  /** An operand read without touching the suffix `x` is read the same before any other suffix. */
  lemma {:induction false} OperandSwap(f: Format, c: bytes, x: bytes, y: bytes)
    requires var r := TakeOperand(f, c + x); r.Some? && |r.value.rest| >= |x|
    ensures var Split(p, rest) := TakeOperand(f, c + x).value;
            EndsWith(rest, x) && TakeOperand(f, c + y) == Some(Split(p, Swap(rest, x, y)))
  {
    hide Take, TakeLine, FromLe, SignedLe;
    var rest := TakeOperand(f, c + x).value.rest;
    match f
    case Fixed(n) =>
      TakeSwap(c, x, y, n);
    case Counted(w) =>
      CountedSwap(c, x, y, w, FromLe(Take(c + x, w).value.payload));
    case CountedI32 =>
      CountedSwap(c, x, y, 4, SignedLe(Take(c + x, 4).value.payload));
    case Line =>
      TakeLineFits(c + x);
      LineSwap(c, x, y);
    case TwoLines =>
      var first := TakeLine(c + x).value;
      TakeLineFits(c + x);
      TakeLineFits(first.rest);
      LineSwap(c, x, y);
      LineSwap(c[LineLength(c + x) + 1..], x, y);
  }

  lemma {:induction false} TakeLineFits(b: bytes)
    requires TakeLine(b).Some?
    ensures LineLength(b) + 1 + |TakeLine(b).value.rest| == |b|
  {
  }

  lemma {:induction false} CountedSwap(c: bytes, x: bytes, y: bytes, w: nat, n: nat)
    requires Take(c + x, w).Some?
    requires var r := Take(Take(c + x, w).value.rest, n); r.Some? && |r.value.rest| >= |x|
    ensures var Split(len, more) := Take(c + x, w).value;
            var Split(p, rest) := Take(more, n).value;
            EndsWith(rest, x) && Take(c + y, w).Some? && Take(c + y, w).value.payload == len &&
            Take(Take(c + y, w).value.rest, n) == Some(Split(p, Swap(rest, x, y)))
  {
    TakeSwap(c, x, y, w);
    TakeSwap(c[w..], x, y, n);
    assert Swap(c[w..][n..] + x, x, y) == c[w..][n..] + y;
  }

  lemma {:induction false} FetchSwap(pf: FloatParser, c: bytes, x: bytes, y: bytes)
    requires var r := Fetch(pf, c + x); r.Some? && |r.value.rest| >= |x|
    ensures var Fetched(i, rest) := Fetch(pf, c + x).value;
            EndsWith(rest, x) && Fetch(pf, c + y) == Some(Fetched(i, Swap(rest, x, y)))
  {
    hide TakeOperand, Interpret, OperandFormat;
    assert c != [];
    assert (c + x)[1..] == c[1..] + x && (c + y)[1..] == c[1..] + y;
    OperandSwap(OperandFormat(c[0]), c[1..], x, y);
  }

  /** The general law: a run that stops without touching the suffix `x` behaves the same before any
      other suffix `y`. */
  lemma {:induction false} RunSwap(pf: FloatParser, c: bytes, x: bytes, y: bytes, s: State)
    requires var o := Run(pf, c + x, s); o.Done? && |o.rest| >= |x|
    ensures var Done(v, rest, s') := Run(pf, c + x, s);
            EndsWith(rest, x) && Run(pf, c + y, s) == Done(v, Swap(rest, x, y), s')
    decreases |c|
  {
    hide Fetch, Exec, Halt;
    var f := Fetch(pf, c + x).value;
    RunShrinks(pf, c + x, s);
    FetchSwap(pf, c, x, y);
    if f.instr.Stop? {
      HaltRest(s, f.rest);
      HaltRest(s, Swap(f.rest, x, y));
    } else {
      var s' := Exec(f.instr, s).value;
      var c' := f.rest[..|f.rest| - |x|];
      assert f.rest == c' + x;
      RunSwap(pf, c', x, y, s');
    }
  }

  lemma {:induction false} HaltRest(s: State, rest: bytes)
    ensures var h := Halt(s, []); Halt(s, rest) == if h.Done? then Done(h.v, rest, h.s) else Fail
  {
  }

  /** A successful run leaves strictly fewer bytes than every instruction boundary it passed. */
  lemma {:induction false} RunShrinks(pf: FloatParser, b: bytes, s: State)
    requires Run(pf, b, s).Done?
    ensures Fetch(pf, b).Some? && |Run(pf, b, s).rest| <= |Fetch(pf, b).value.rest| < |b|
    decreases |b|
  {
    hide Fetch, Exec, Halt;
    var f := Fetch(pf, b).value;
    if f.instr.Stop? {
      HaltRest(s, f.rest);
    } else {
      RunShrinks(pf, f.rest, Exec(f.instr, s).value);
    }
  }

  /** Appended bytes never change a successful result; they are only left over. */
  lemma {:induction false} AppendedBytesIgnored(pf: FloatParser, b: bytes, y: bytes, s: State)
    requires Run(pf, b, s).Done?
    ensures var Done(v, rest, s') := Run(pf, b, s); Run(pf, b + y, s) == Done(v, rest + y, s')
  {
    hide Run;
    assert b + [] == b;
    RunSwap(pf, b, [], y, s);
    var rest := Run(pf, b, s).rest;
    assert rest[..|rest| - 0] == rest;
  }

  /** A successful run consumes a non-empty prefix of its input and leaves the rest. */
  lemma {:induction false} ConsumesPrefix(pf: FloatParser, b: bytes, s: State)
    requires Run(pf, b, s).Done?
    ensures var rest := Run(pf, b, s).rest; |rest| < |b| && rest == b[|b| - |rest|..]
  {
    hide Run;
    RunShrinks(pf, b, s);
    var rest := Run(pf, b, s).rest;
    var n := |b| - |rest|;
    assert b[..n] + b[n..] == b;
    RunSwap(pf, b[..n], b[n..], [], s);
  }

  /** What a successful run did is determined by the bytes it consumed: any input that starts with
      those bytes gives the same value and the same machine, and leaves its own remaining bytes. */
  lemma {:induction false} DependsOnConsumedBytes(pf: FloatParser, b: bytes, c: bytes, s: State)
    requires Run(pf, b, s).Done?
    requires var n := |b| - |Run(pf, b, s).rest|; 0 <= n <= |b| && n <= |c| && c[..n] == b[..n]
    ensures var Done(v, rest, s') := Run(pf, b, s);
            Run(pf, c, s) == Done(v, c[|b| - |rest|..], s')
  {
    hide Run;
    ConsumesPrefix(pf, b, s);
    var rest := Run(pf, b, s).rest;
    var n := |b| - |rest|;
    assert b[..n] + rest == b && b[..n] + c[n..] == c;
    RunSwap(pf, b[..n], rest, c[n..], s);
    assert Swap(rest, rest, c[n..]) == c[n..];
  }

  /** Truncated pickles never decode: no proper prefix of the consumed bytes succeeds. */
  lemma {:induction false} NoProperPrefix(pf: FloatParser, b: bytes, k: nat, s: State)
    requires Run(pf, b, s).Done? && k < |b| - |Run(pf, b, s).rest|
    ensures Run(pf, b[..k], s) == Fail
  {
    hide Run;
    assert b[..k] + b[k..] == b;
    if Run(pf, b[..k], s).Done? {
      AppendedBytesIgnored(pf, b[..k], b[k..], s);
    }
  }

  // ---- Several pickles in one input ----

  datatype Decoded = Decoded(values: seq<Value>, rest: bytes, s: State)

  /** Calling `decode` `k` times on one decoder. */
  function DecodeMany(pf: FloatParser, k: nat, b: bytes, s: State): Option<Decoded> {
    if k == 0 then Some(Decoded([], b, s))
    else
      match Run(pf, b, s)
      case Fail => None
      case Done(v, rest, s') =>
        match DecodeMany(pf, k - 1, rest, s')
        case None => None
        case Some(d) => Some(d.(values := [v] + d.values))
  }

  /** Each pickle alone, in turn, decodes to its value and uses all its bytes. */
  ghost predicate Chain(pf: FloatParser, ps: seq<bytes>, vs: seq<Value>, s: State, s': State)
    decreases |ps|
  {
    |ps| == |vs| &&
    if ps == [] then s == s'
    else
      var o := Run(pf, ps[0], s);
      o.Done? && o.v == vs[0] && o.rest == [] && Chain(pf, ps[1..], vs[1..], o.s, s')
  }

  function Concat(ps: seq<bytes>): bytes {
    if ps == [] then [] else ps[0] + Concat(ps[1..])
  }

  /** Concatenated pickles decode one by one, in order. */
  lemma {:induction false} ConcatenationDecodes(
      pf: FloatParser, ps: seq<bytes>, vs: seq<Value>, rest: bytes, s: State, s': State)
    requires Chain(pf, ps, vs, s, s')
    ensures DecodeMany(pf, |ps|, Concat(ps) + rest, s) == Some(Decoded(vs, rest, s'))
    decreases |ps|
  {
    hide Run;
    if ps == [] {
      assert Concat(ps) + rest == rest;
    } else {
      var tail := Concat(ps[1..]) + rest;
      assert Concat(ps) + rest == ps[0] + tail;
      AppendedBytesIgnored(pf, ps[0], tail, s);
      var o := Run(pf, ps[0], s);
      assert [] + tail == tail;
      ConcatenationDecodes(pf, ps[1..], vs[1..], rest, o.s, s');
      assert [vs[0]] + vs[1..] == vs;
    }
  }

  function SerializeAll(vs: seq<Value>): (ps: seq<bytes>)
    ensures |ps| == |vs|
    ensures forall i :: 0 <= i < |vs| ==> ps[i] == Serialize(vs[i])
  {
    seq(|vs|, i requires 0 <= i < |vs| => Serialize(vs[i]))
  }

  /** Serialized values sent back to back come out in order, and the decoder's state is unchanged. */
  lemma {:induction false} SerializedConcatenation(pf: FloatParser, vs: seq<Value>, rest: bytes, s: State)
    requires AllEncodable(vs)
    ensures DecodeMany(pf, |vs|, Concat(SerializeAll(vs)) + rest, s) == Some(Decoded(vs, rest, s))
  {
    SerializedChain(pf, vs, s);
    ConcatenationDecodes(pf, SerializeAll(vs), vs, rest, s, s);
  }

  lemma {:induction false} SerializedChain(pf: FloatParser, vs: seq<Value>, s: State)
    requires AllEncodable(vs)
    ensures Chain(pf, SerializeAll(vs), vs, s, s)
    decreases |vs|
  {
    hide Run, Serialize, Encodable;
    if vs == [] {
    } else {
      SerializedRun(pf, vs[0], [], s);
      assert Serialize(vs[0]) + [] == Serialize(vs[0]);
      SerializedChain(pf, vs[1..], s);
      assert SerializeAll(vs)[1..] == SerializeAll(vs[1..]);
    }
  }
}
