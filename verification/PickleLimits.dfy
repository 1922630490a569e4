/** The decoder cannot make strings longer than its input; so the four-byte length field is exactly
    where the round trip of a string or byte string stops holding. */
module PickleLimits {
  import opened Bytes
  import opened Common
  import opened PickleEncoder
  import opened PickleMachine
  import opened PickleRoundTrip
  import opened PickleValue
  import opened Text

  ghost predicate StackBelow(stack: seq<Item>, limit: int) {
    forall i :: 0 <= i < |stack| && stack[i].Val? ==> BlobsBelow(stack[i].v, limit)
  }

  ghost predicate StateBelow(s: State, limit: int) {
    StackBelow(s.stack, limit) && forall k <- s.memo :: BlobsBelow(s.memo[k], limit)
  }

  ghost predicate AllBelow(vs: seq<Value>, limit: int) {
    forall i :: 0 <= i < |vs| ==> BlobsBelow(vs[i], limit)
  }

  lemma {:induction false} FetchBelow(pf: FloatParser, b: bytes, limit: nat)
    requires Fetch(pf, b).Some? && |b| <= limit + 1
    ensures var i := Fetch(pf, b).value.instr; i.Push? ==> BlobsBelow(i.v, limit)
  {
    hide ValidUtf8, FromLe, SignedLe, LineLength, Trim, ParseI64, ParseU32, OperandFormat, TakeOperand;
    var f := OperandFormat(b[0]);
    var payload := TakeOperand(f, b[1..]).value.payload;
    if !f.Fixed? {
      CountWidth(b[0]);
      PayloadShort(f, b[1..]);
    }
    if f == Fixed(0) {
      PlainBelow(b[0], limit);
    } else if f.Line? {
      LineBelow(pf, b[0], payload, limit);
    } else if f.Fixed? {
      FixedHasNoBlob(pf, b[0], payload);
    }
  }

  lemma {:induction false} FixedHasNoBlob(pf: FloatParser, op: byte, payload: bytes)
    requires OperandFormat(op).Fixed? && |payload| == OperandFormat(op).width > 0
    ensures var i := Interpret(pf, op, payload); i.Some? && i.value.Push? ==> i.value.v.Int? || i.value.v.Float?
  {
  }

  lemma {:induction false} CountWidth(op: byte)
    ensures OperandFormat(op).Counted? ==> OperandFormat(op).width > 0
  {
  }

  lemma {:induction false} PayloadShort(f: Format, b: bytes)
    requires TakeOperand(f, b).Some? && !f.Fixed?
    requires f.Counted? ==> f.width > 0
    ensures |TakeOperand(f, b).value.payload| < |b|
  {
    hide FromLe, SignedLe, LineLength;
  }

  lemma {:induction false} PlainBelow(op: byte, limit: int)
    ensures var i := InterpretPlain(op); i.Push? ==> BlobsBelow(i.v, limit)
  {
  }

  lemma {:induction false} LineBelow(pf: FloatParser, op: byte, line: bytes, limit: int)
    requires |line| < limit
    ensures var i := InterpretLine(pf, op, line); i.Some? && i.value.Push? ==> BlobsBelow(i.value.v, limit)
  {
    hide ValidUtf8, Trim, ParseI64, ParseU32;
  }

  lemma {:induction false} PopToMarkBelow(stack: seq<Item>, limit: int)
    requires StackBelow(stack, limit) && PopToMark(stack).Some?
    ensures AllBelow(PopToMark(stack).value.values, limit) && StackBelow(PopToMark(stack).value.below, limit)
  {
    var p := PopToMark(stack).value;
    hide PopToMark;
    ValsBelow(p.below + [Mark], p.values, limit);
    PrefixBelow(p.below, [Mark], limit);
  }

  lemma {:induction false} PopValuesBelow(stack: seq<Item>, n: nat, limit: int)
    requires StackBelow(stack, limit) && PopValues(stack, n).Some?
    ensures AllBelow(PopValues(stack, n).value.values, limit)
    ensures StackBelow(PopValues(stack, n).value.below, limit)
  {
    var p := PopValues(stack, n).value;
    hide PopValues;
    ValsBelow(p.below, p.values, limit);
  }

  lemma {:induction false} ValsBelow(below: seq<Item>, vs: seq<Value>, limit: int)
    requires StackBelow(below + Vals(vs), limit)
    ensures AllBelow(vs, limit) && StackBelow(below, limit)
  {
    hide BlobsBelow;
    PrefixBelow(below, Vals(vs), limit);
    forall i | 0 <= i < |vs| ensures BlobsBelow(vs[i], limit) {
      assert (below + Vals(vs))[|below| + i] == Val(vs[i]);
    }
  }

  lemma {:induction false} PrefixBelow(a: seq<Item>, b: seq<Item>, limit: int)
    requires StackBelow(a + b, limit)
    ensures StackBelow(a, limit)
  {
    hide BlobsBelow;
    assert forall i :: 0 <= i < |a| ==> (a + b)[i] == a[i];
  }

  lemma {:induction false} PushBelow(stack: seq<Item>, v: Value, limit: int)
    requires StackBelow(stack, limit) && BlobsBelow(v, limit)
    ensures StackBelow(stack + [Val(v)], limit)
  {
    hide BlobsBelow;
  }

  /** Every stack that an instruction can leave after popping `vs` off `stack`. */
  lemma {:induction false} GrowBelow(stack: seq<Item>, vs: seq<Value>, limit: int)
    requires StackBelow(stack, limit) && AllBelow(vs, limit)
    ensures var r := Extend(stack, vs); r.Some? ==> StackBelow(r.value, limit)
    ensures var r := AddPairs(stack, PairUp(vs)); r.Some? ==> StackBelow(r.value, limit)
    ensures StackBelow(stack + [Val(PyNone)], limit) && StackBelow(stack + [Val(List(vs))], limit)
    ensures StackBelow(stack + [Val(Tuple(vs))], limit) && StackBelow(stack + [Val(Dict(PairUp(vs)))], limit)
  {
    if Top(stack).Some? {
      var below, top := stack[..|stack| - 1], Top(stack).value;
      assert stack == below + [Val(top)];
      PrefixBelow(below, [Val(top)], limit);
      assert BlobsBelow(top, limit);
      if top.List? {
        PushBelow(below, List(top.items + vs), limit);
      } else if top.Dict? {
        PushBelow(below, Dict(top.pairs + PairUp(vs)), limit);
      }
    }
    PushBelow(stack, PyNone, limit);
    PushBelow(stack, List(vs), limit);
    PushBelow(stack, Tuple(vs), limit);
    PushBelow(stack, Dict(PairUp(vs)), limit);
  }

  /** The instructions that pop to a mark. */
  lemma {:induction false} MarkedExecBelow(i: Instr, s: State, limit: int)
    requires i.MakeList? || i.MakeDict? || i.MakeTuple? || i.AppendMany? || i.SetMany? || i.DropToMark?
    requires StateBelow(s, limit) && Exec(i, s).Some?
    ensures StateBelow(Exec(i, s).value, limit)
  {
    hide PopToMark, PopValues, Extend, AddPairs, PairUp, BlobsBelow, StackBelow;
    PopToMarkBelow(s.stack, limit);
    var p := PopToMark(s.stack).value;
    GrowBelow(p.below, p.values, limit);
  }

  /** The instructions that pop a fixed number of values. */
  lemma {:induction false} PoppingExecBelow(i: Instr, s: State, limit: int)
    requires i.TupleOf? || i.AppendOne? || i.DropValue? || i.SetOne? || i.ReplaceTwoByNone?
    requires StateBelow(s, limit) && Exec(i, s).Some?
    ensures StateBelow(Exec(i, s).value, limit)
  {
    hide PopToMark, PopValues, Extend, AddPairs, PairUp, BlobsBelow, StackBelow;
    var n := if i.TupleOf? then i.n else if i.AppendOne? || i.DropValue? then 1 else 2;
    PopValuesBelow(s.stack, n, limit);
    var p := PopValues(s.stack, n).value;
    GrowBelow(p.below, p.values, limit);
  }

  lemma {:induction false} ExecBelow(i: Instr, s: State, limit: int)
    requires !i.Stop? && StateBelow(s, limit) && Exec(i, s).Some?
    requires i.Push? ==> BlobsBelow(i.v, limit)
    ensures StateBelow(Exec(i, s).value, limit)
  {
    hide PopToMark, PopValues, Extend, AddPairs, PairUp, BlobsBelow;
    if i.MakeList? || i.MakeDict? || i.MakeTuple? || i.AppendMany? || i.SetMany? || i.DropToMark? {
      MarkedExecBelow(i, s, limit);
    } else if i.TupleOf? || i.AppendOne? || i.DropValue? || i.SetOne? || i.ReplaceTwoByNone? {
      PoppingExecBelow(i, s, limit);
    }
  }

  lemma {:induction false} RunBelow(pf: FloatParser, b: bytes, s: State, limit: nat)
    requires StateBelow(s, limit) && |b| <= limit + 1 && Run(pf, b, s).Done?
    ensures BlobsBelow(Run(pf, b, s).v, limit)
    decreases |b|
  {
    hide Fetch, Exec, PopValues, BlobsBelow;
    var f := Fetch(pf, b).value;
    if f.instr.Stop? {
      PopValuesBelow(s.stack, 1, limit);
    } else {
      FetchBelow(pf, b, limit);
      ExecBelow(f.instr, s, limit);
      RunBelow(pf, f.rest, Exec(f.instr, s).value, limit);
    }
  }

  /** No amplification: every string and byte string in a decoded value is at least two bytes
      shorter than the input. */
  lemma {:induction false} DecodedBlobsFitInput(pf: FloatParser, b: bytes)
    requires Deserialize(pf, b).Ok?
    ensures BlobsBelow(Deserialize(pf, b).value, |b| - 1)
  {
    hide BlobsBelow, Run, FetchOperand;
    if b == [] {
      FetchFails(pf, b, EMPTY_STATE);
    }
    RunBelow(pf, b, EMPTY_STATE, |b| - 1);
  }

  lemma {:induction false} BelowMonotone(v: Value, low: int, high: int)
    requires BlobsBelow(v, low) && low <= high
    ensures BlobsBelow(v, high)
    decreases v
  {
    match v
    case List(items) => forall i | 0 <= i < |items| ensures BlobsBelow(items[i], high) {
      BelowMonotone(items[i], low, high);
    }
    case Tuple(items) => forall i | 0 <= i < |items| ensures BlobsBelow(items[i], high) {
      BelowMonotone(items[i], low, high);
    }
    case Dict(pairs) => forall i | 0 <= i < |pairs|
      ensures BlobsBelow(pairs[i].key, high) && BlobsBelow(pairs[i].val, high)
    {
      BelowMonotone(pairs[i].key, low, high);
      BelowMonotone(pairs[i].val, low, high);
    }
    case _ =>
  }

  /** So whatever decodes from an input of at most 2^32 + 1 bytes can be encoded again without loss. */
  lemma {:induction false} ReencodingIsLossless(pf: FloatParser, b: bytes)
    requires Deserialize(pf, b).Ok? && |b| <= TWO_32 + 1
    ensures var v := Deserialize(pf, b).value; Deserialize(pf, Serialize(v)) == Ok(v)
  {
    hide BlobsBelow, Run, Serialize;
    var v := Deserialize(pf, b).value;
    DecodedBlobsFitInput(pf, b);
    BelowMonotone(v, |b| - 1, TWO_32);
    RoundTrip(pf, v);
  }

  /** A length over 2^32 wraps, and the decoder then reads too short a string. */
  lemma {:induction false} OversizedBlobFails(pf: FloatParser, v: Value, op: byte, s: bytes)
    requires (v == ByteStr(s) && op == BINBYTES) || (ValidUtf8(s) && v == Str(s) && op == BINUNICODE)
    requires |s| >= TWO_32
    ensures Deserialize(pf, Serialize(v)) != Ok(v)
  {
    hide BlobsBelow, ToLe, FromLe, ValidUtf8, Run, Fetch;
    var body := [op] + (ToLe(|s|, 4) + (s + [STOP]));
    assert Serialize(v) == [PROTO, 2] + body;
    RunHeader(pf, body, EMPTY_STATE);
    WrappedLength(pf, op, s);
    if Fetch(pf, body).Some? {
      var f := Fetch(pf, body).value;
      RunStep(pf, body, f.instr, f.rest, EMPTY_STATE);
      assert EMPTY_STATE.stack + [Val(f.instr.v)] == [Val(f.instr.v)];
      ShortAfterAll(pf, f.instr.v, f.rest, |s|, v);
    } else {
      FetchFails(pf, body, EMPTY_STATE);
    }
  }

  lemma {:induction false} WrappedLength(pf: FloatParser, op: byte, s: bytes)
    requires op in {BINBYTES, BINUNICODE} && |s| >= TWO_32
    ensures var r := Fetch(pf, [op] + (ToLe(|s|, 4) + (s + [STOP])));
            r.Some? ==>
              var Fetched(i, rest) := r.value;
              && i.Push? && |rest| <= |s| + 1
              && ((i.v.Str? && |i.v.s| < |s|) || (i.v.ByteStr? && |i.v.data| < |s|))
  {
    var len := ToLe(|s|, 4);
    assert FromLe(len) < |s| by { FromLeRange(len); Pow256Values(); }
    hide ToLe, FromLe, ValidUtf8, Interpret, OperandFormat;
    var body := [op] + (len + (s + [STOP]));
    assert body[1..] == len + (s + [STOP]);
    assert OperandFormat(op) == Counted(4) by { CountedOps(op); }
    TakeExact(len, s + [STOP]);
    BlobInterpret(pf, op, (s + [STOP])[..FromLe(len)]);
  }

  lemma {:induction false} CountedOps(op: byte)
    requires op in {BINBYTES, BINUNICODE}
    ensures OperandFormat(op) == Counted(4)
  {
  }

  lemma {:induction false} BlobInterpret(pf: FloatParser, op: byte, payload: bytes)
    requires op in {BINBYTES, BINUNICODE}
    ensures OperandFormat(op) == Counted(4)
    ensures var i := Interpret(pf, op, payload);
            i.Some? ==> i == Some(Push(ByteStr(payload))) || (ValidUtf8(payload) && i == Some(Push(Str(payload))))
  {
  }

  lemma {:induction false} FetchFails(pf: FloatParser, b: bytes, s: State)
    requires Fetch(pf, b).None?
    ensures Run(pf, b, s) == Fail
  {
    hide Fetch;
  }

  lemma {:induction false} ShortAfterAll(pf: FloatParser, short: Value, rest: bytes, n: nat, v: Value)
    requires (short.Str? && |short.s| < n) || (short.ByteStr? && |short.data| < n)
    requires |rest| <= n + 1
    requires (v.Str? && |v.s| == n) || (v.ByteStr? && |v.data| == n)
    ensures var o := Run(pf, rest, EMPTY_STATE.(stack := [Val(short)])); o.Done? ==> o.v != v
  {
    var s := EMPTY_STATE.(stack := [Val(short)]);
    assert StateBelow(s, n);
    hide Run;
    if Run(pf, rest, s).Done? {
      RunBelow(pf, rest, s, n);
    }
  }

  /** A single string or byte string survives the round trip exactly when its length fits. */
  lemma {:induction false} BlobRoundTripsIffItFits(pf: FloatParser, v: Value)
    requires v.Str? || v.ByteStr?
    ensures Deserialize(pf, Serialize(v)) == Ok(v) <==> Encodable(v)
  {
    hide Run, Serialize, ValidUtf8;
    if Encodable(v) {
      RoundTrip(pf, v);
    } else if v.Str? {
      OversizedBlobFails(pf, v, BINUNICODE, v.s);
    } else {
      OversizedBlobFails(pf, v, BINBYTES, v.data);
    }
  }
}
