/** Programs that push values, how they compose, and the round trip of every value. */
module PickleRoundTrip {
  import opened Bytes
  import opened Common
  import opened PickleEncoder
  import opened PickleLong
  import opened PickleMachine
  import opened PickleValue
  import opened Text

  /** Running `p` before `rest` from `s` pushes exactly the values `vs`: the memo and the stack below
      are untouched, and the machine stands at the first byte of `rest`. */
  ghost predicate PushesAt(pf: FloatParser, p: bytes, vs: seq<Value>, rest: bytes, s: State) {
    Run(pf, p + rest, s) == Run(pf, rest, s.(stack := s.stack + Vals(vs)))
  }

  /** The same from every state and before any bytes. */
  ghost predicate Pushes(pf: FloatParser, p: bytes, vs: seq<Value>) {
    forall rest: bytes, s: State :: PushesAt(pf, p, vs, rest, s)
  }

  // ---- Single instructions ----

  lemma {:induction false} RunStep(pf: FloatParser, b: bytes, i: Instr, rest: bytes, s: State)
    requires Fetch(pf, b) == Some(Fetched(i, rest)) && !i.Stop?
    ensures Run(pf, b, s) == match Exec(i, s) case None => Fail case Some(s') => Run(pf, rest, s')
  {
    hide Fetch, Exec, Halt;
  }

  lemma {:induction false} FetchPlain(pf: FloatParser, op: byte, rest: bytes)
    requires OperandFormat(op) == Fixed(0)
    ensures Fetch(pf, [op] + rest) == Some(Fetched(InterpretPlain(op), rest))
  {
    hide OperandFormat, InterpretPlain, InterpretLine;
    assert ([op] + rest)[1..] == rest;
    assert Take(rest, 0) == Some(Split([], rest));
  }

  lemma {:induction false} RunPlain(pf: FloatParser, op: byte, rest: bytes, s: State)
    requires OperandFormat(op) == Fixed(0) && !InterpretPlain(op).Stop?
    ensures Run(pf, [op] + rest, s)
         == match Exec(InterpretPlain(op), s) case None => Fail case Some(s') => Run(pf, rest, s')
  {
    hide OperandFormat, InterpretPlain, Fetch, Exec, Run;
    FetchPlain(pf, op, rest);
    RunStep(pf, [op] + rest, InterpretPlain(op), rest, s);
  }

  /** An opcode whose operand is the whole of `operand` and means "push v". */
  lemma {:induction false} PushInstr(pf: FloatParser, op: byte, operand: bytes, payload: bytes, v: Value)
    requires forall rest: bytes :: TakeOperand(OperandFormat(op), operand + rest) == Some(Split(payload, rest))
    requires OperandFormat(op).Fixed? ==> |payload| == OperandFormat(op).width
    requires Interpret(pf, op, payload) == Some(Push(v))
    ensures Pushes(pf, [op] + operand, [v])
  {
    hide Interpret, TakeOperand, OperandFormat, Run;
    forall rest: bytes, s: State
      ensures PushesAt(pf, [op] + operand, [v], rest, s)
    {
      var b := [op] + operand + rest;
      assert b[1..] == operand + rest;
      assert Fetch(pf, b) == Some(Fetched(Push(v), rest));
      RunStep(pf, b, Push(v), rest, s);
      assert Vals([v]) == [Val(v)];
    }
  }

  lemma {:induction false} PushPlain(pf: FloatParser, op: byte, v: Value)
    requires OperandFormat(op) == Fixed(0) && InterpretPlain(op) == Push(v)
    ensures Pushes(pf, [op], [v])
  {
    assert forall rest: bytes :: [] + rest == rest;
    assert [op] + [] == [op];
    PushInstr(pf, op, [], [], v);
  }

  lemma {:induction false} PushFixed(pf: FloatParser, op: byte, payload: bytes, v: Value)
    requires OperandFormat(op) == Fixed(|payload|)
    requires Interpret(pf, op, payload) == Some(Push(v))
    ensures Pushes(pf, [op] + payload, [v])
  {
    forall rest: bytes
      ensures TakeOperand(OperandFormat(op), payload + rest) == Some(Split(payload, rest))
    {
      TakeExact(payload, rest);
    }
    PushInstr(pf, op, payload, payload, v);
  }

  lemma {:induction false} PushCounted(pf: FloatParser, op: byte, width: nat, payload: bytes, v: Value)
    requires OperandFormat(op) == Counted(width) && |payload| < Pow256(width)
    requires Interpret(pf, op, payload) == Some(Push(v))
    ensures Pushes(pf, [op] + ToLe(|payload|, width) + payload, [v])
  {
    var len := ToLe(|payload|, width);
    UnsignedRoundTrip(|payload|, width);
    forall rest: bytes
      ensures TakeOperand(OperandFormat(op), len + payload + rest) == Some(Split(payload, rest))
    {
      assert len + payload + rest == len + (payload + rest);
      TakeExact(len, payload + rest);
      TakeExact(payload, rest);
    }
    assert [op] + (len + payload) == [op] + len + payload;
    PushInstr(pf, op, len + payload, payload, v);
  }

  lemma {:induction false} TakeExact(a: bytes, rest: bytes)
    ensures Take(a + rest, |a|) == Some(Split(a, rest))
  {
    assert (a + rest)[..|a|] == a && (a + rest)[|a|..] == rest;
  }

  // ---- Composition ----

  lemma {:induction false} PushesNothing(pf: FloatParser)
    ensures Pushes(pf, [], [])
  {
    hide Run;
    forall rest: bytes, s: State
      ensures PushesAt(pf, [], [], rest, s)
    {
      assert [] + rest == rest && s.stack + Vals([]) == s.stack;
    }
  }

  lemma {:induction false} PushesInOrder(pf: FloatParser, p: bytes, vs: seq<Value>, q: bytes, ws: seq<Value>)
    requires Pushes(pf, p, vs) && Pushes(pf, q, ws)
    ensures Pushes(pf, p + q, vs + ws)
  {
    hide Run;
    forall rest: bytes, s: State
      ensures PushesAt(pf, p + q, vs + ws, rest, s)
    {
      assert PushesAt(pf, p, vs, q + rest, s);
      assert PushesAt(pf, q, ws, rest, s.(stack := s.stack + Vals(vs)));
      assert p + q + rest == p + (q + rest);
      assert s.stack + Vals(vs + ws) == s.stack + Vals(vs) + Vals(ws);
    }
  }

  lemma {:induction false} PopToMarkFinds(below: seq<Item>, vs: seq<Value>)
    ensures PopToMark(below + [Mark] + Vals(vs)) == Some(Popped(vs, below))
  {
    hide Vals;
    var stack := below + [Mark] + Vals(vs);
    if vs == [] {
      assert stack == below + [Mark];
      assert stack[..|stack| - 1] == below;
    } else {
      var init, last := vs[..|vs| - 1], vs[|vs| - 1];
      assert init + [last] == vs;
      assert Vals(vs) == Vals(init) + [Val(last)];
      assert stack == below + [Mark] + Vals(init) + [Val(last)];
      assert stack[..|stack| - 1] == below + [Mark] + Vals(init);
      PopToMarkFinds(below, init);
    }
  }

  lemma {:induction false} PopValuesFinds(below: seq<Item>, vs: seq<Value>)
    ensures PopValues(below + Vals(vs), |vs|) == Some(Popped(vs, below))
  {
    hide Vals;
    var stack := below + Vals(vs);
    if vs == [] {
      assert stack == below;
    } else {
      var init, last := vs[..|vs| - 1], vs[|vs| - 1];
      assert init + [last] == vs;
      assert Vals(vs) == Vals(init) + [Val(last)];
      assert stack == below + Vals(init) + [Val(last)];
      assert stack[..|stack| - 1] == below + Vals(init);
      PopValuesFinds(below, init);
    }
  }

  lemma {:induction false} RunMark(pf: FloatParser, rest: bytes, s: State)
    ensures Run(pf, [MARK] + rest, s) == Run(pf, rest, s.(stack := s.stack + [Mark]))
  {
    hide Run;
    RunPlain(pf, MARK, rest, s);
  }

  /** `p`, MARK and `q` leave a mark between their values, ready for the opcode that follows. */
  lemma {:induction false} RunMarked(pf: FloatParser, p: bytes, vs: seq<Value>, q: bytes, ws: seq<Value>,
                  op: byte, rest: bytes, s: State)
    requires Pushes(pf, p, vs) && Pushes(pf, q, ws)
    requires OperandFormat(op) == Fixed(0) && !InterpretPlain(op).Stop?
    ensures var below := s.stack + Vals(vs);
            PopToMark(below + [Mark] + Vals(ws)) == Some(Popped(ws, below)) &&
            Run(pf, p + [MARK] + q + [op] + rest, s)
            == match Exec(InterpretPlain(op), s.(stack := below + [Mark] + Vals(ws)))
               case None => Fail
               case Some(s') => Run(pf, rest, s')
  {
    hide Run, PopToMark, Exec, OperandFormat, InterpretPlain;
    var below := s.stack + Vals(vs);
    var tail := [op] + rest;
    assert p + [MARK] + q + [op] + rest == p + ([MARK] + (q + tail));
    assert PushesAt(pf, p, vs, [MARK] + (q + tail), s);
    RunMark(pf, q + tail, s.(stack := below));
    assert PushesAt(pf, q, ws, tail, s.(stack := below + [Mark]));
    RunPlain(pf, op, rest, s.(stack := below + [Mark] + Vals(ws)));
    PopToMarkFinds(below, ws);
  }

  /** MARK, a program pushing `vs`, and an opcode that turns everything above the mark into `v`. */
  lemma {:induction false} PushesMarked(pf: FloatParser, p: bytes, vs: seq<Value>, op: byte, v: Value)
    requires Pushes(pf, p, vs)
    requires op == LIST ==> v == List(vs)
    requires op == TUPLE ==> v == Tuple(vs)
    requires op == DICT ==> |vs| % 2 == 0 && v == Dict(PairUp(vs))
    requires op in {LIST, TUPLE, DICT}
    ensures Pushes(pf, [MARK] + p + [op], [v])
  {
    hide Run, PopToMark, PushesAt, Exec, PairUp;
    PushesNothing(pf);
    forall rest: bytes, s: State
      ensures PushesAt(pf, [MARK] + p + [op], [v], rest, s)
    {
      RunMarked(pf, [], [], p, vs, op, rest, s);
      ExecMarked(s.(stack := s.stack + Vals([]) + [Mark] + Vals(vs)));
      assert s.stack + Vals([]) == s.stack;
      assert [] + [MARK] + p + [op] == [MARK] + p + [op];
      AtResult(pf, [MARK] + p + [op], v, rest, s);
    }
  }

  lemma {:induction false} AtResult(pf: FloatParser, p: bytes, v: Value, rest: bytes, s: State)
    requires Run(pf, p + rest, s) == Run(pf, rest, s.(stack := s.stack + [Val(v)]))
    ensures PushesAt(pf, p, [v], rest, s)
  {
    hide Run;
    assert Vals([v]) == [Val(v)];
  }

  /** A program pushing one, two or three values and the matching TUPLE opcode. */
  lemma {:induction false} PushesSmallTuple(pf: FloatParser, p: bytes, vs: seq<Value>, op: byte)
    requires Pushes(pf, p, vs)
    requires (|vs| == 1 && op == TUPLE1) || (|vs| == 2 && op == TUPLE2) || (|vs| == 3 && op == TUPLE3)
    ensures Pushes(pf, p + [op], [Tuple(vs)])
  {
    hide Run, PopValues, Exec;
    forall rest: bytes, s: State
      ensures PushesAt(pf, p + [op], [Tuple(vs)], rest, s)
    {
      assert p + [op] + rest == p + ([op] + rest);
      assert PushesAt(pf, p, vs, [op] + rest, s);
      RunPlain(pf, op, rest, s.(stack := s.stack + Vals(vs)));
      ExecTuple(|vs|, s.(stack := s.stack + Vals(vs)));
      PopValuesFinds(s.stack, vs);
      AtResult(pf, p + [op], Tuple(vs), rest, s);
    }
  }

  /** MARK, a program pushing `ws`, and APPENDS grow the list that `p` has built. */
  lemma {:induction false} PushesAppends(pf: FloatParser, p: bytes, vs: seq<Value>, q: bytes, ws: seq<Value>)
    requires Pushes(pf, p, [List(vs)]) && Pushes(pf, q, ws)
    ensures Pushes(pf, p + [MARK] + q + [APPENDS], [List(vs + ws)])
  {
    hide Run, PopToMark, PushesAt, Exec;
    forall rest: bytes, s: State
      ensures PushesAt(pf, p + [MARK] + q + [APPENDS], [List(vs + ws)], rest, s)
    {
      RunMarked(pf, p, [List(vs)], q, ws, APPENDS, rest, s);
      ExecGrowMany(s.(stack := s.stack + Vals([List(vs)]) + [Mark] + Vals(ws)));
      OnTop(s.stack, List(vs));
      AtResult(pf, p + [MARK] + q + [APPENDS], List(vs + ws), rest, s);
    }
  }

  /** MARK, a program pushing keys and values alternately, and SETITEMS grow the dict `p` has built. */
  lemma {:induction false} PushesSetItems(pf: FloatParser, p: bytes, ps: seq<Pair>, q: bytes, ws: seq<Value>)
    requires Pushes(pf, p, [Dict(ps)]) && Pushes(pf, q, ws) && |ws| % 2 == 0
    ensures Pushes(pf, p + [MARK] + q + [SETITEMS], [Dict(ps + PairUp(ws))])
  {
    hide Run, PopToMark, PushesAt, Exec, PairUp;
    forall rest: bytes, s: State
      ensures PushesAt(pf, p + [MARK] + q + [SETITEMS], [Dict(ps + PairUp(ws))], rest, s)
    {
      RunMarked(pf, p, [Dict(ps)], q, ws, SETITEMS, rest, s);
      ExecGrowMany(s.(stack := s.stack + Vals([Dict(ps)]) + [Mark] + Vals(ws)));
      OnTop(s.stack, Dict(ps));
      AtResult(pf, p + [MARK] + q + [SETITEMS], Dict(ps + PairUp(ws)), rest, s);
    }
  }

  lemma {:induction false} OnTop(stack: seq<Item>, v: Value)
    ensures Top(stack + Vals([v])) == Some(v)
    ensures (stack + Vals([v]))[..|stack|] == stack
  {
  }

  // ---- Encodings ----

  lemma {:induction false} IntPushes(pf: FloatParser, i: int64)
    ensures Pushes(pf, EncodedInt(i), [Int(i)])
  {
    Pow256Values();
    if 0 <= i <= 0xFF {
      assert FromLe([i]) == i + 256 * FromLe([i][1..]) == i;
      PushFixed(pf, BININT1, [i], Int(i));
      assert [BININT1] + [i] == [BININT1, i];
    } else if 0 <= i <= 0xFFFF {
      UnsignedRoundTrip(i, 2);
      PushFixed(pf, BININT2, ToLe(i, 2), Int(i));
    } else if -0x8000_0000 <= i <= 0x7FFF_FFFF {
      SignedRoundTrip(i, 4);
      PushFixed(pf, BININT, ToLe(i, 4), Int(i));
    } else {
      LongRoundTrip(i);
      LongBytesWidth(i);
      OneByteLength(LongBytes(i));
      PushCounted(pf, LONG1, 1, LongBytes(i), Int(i));
      assert [LONG1] + [|LongBytes(i)|] == [LONG1, |LongBytes(i)|];
    }
  }

  lemma {:induction false} OneByteLength(s: bytes)
    requires |s| < 256
    ensures ToLe(|s|, 1) == [|s|]
  {
    assert ToLe(|s|, 1) == [|s| % 256] + ToLe(|s| / 256, 0);
  }

  lemma {:induction false} BlobPushes(pf: FloatParser, v: Value)
    requires v.Str? || v.ByteStr?
    requires Encodable(v)
    ensures Pushes(pf, Encode(v), [v])
  {
    Pow256Values();
    match v
    case Str(s) => PushCounted(pf, BINUNICODE, 4, s, v);
    case ByteStr(s) =>
      if |s| < 256 {
        OneByteLength(s);
        PushCounted(pf, SHORT_BINBYTES, 1, s, v);
        assert [SHORT_BINBYTES] + [|s|] == [SHORT_BINBYTES, |s|];
      } else {
        PushCounted(pf, BINBYTES, 4, s, v);
      }
  }

  lemma {:induction false} FloatPushes(pf: FloatParser, bits: uint64)
    ensures Pushes(pf, Encode(Float(bits)), [Float(bits)])
  {
    Pow256Values();
    hide ToBe, FromBe, Pushes;
    BigEndianRoundTrip(bits, 8);
    PushFixed(pf, BINFLOAT, ToBe(bits, 8), Float(bits));
  }

  /** The compiler's correctness: a value's encoding is a program that pushes that value. */
  lemma {:induction false} EncodePushes(pf: FloatParser, v: Value)
    requires Encodable(v)
    ensures Pushes(pf, Encode(v), [v])
    decreases v, 1
  {
    match v
    case PyNone => PushPlain(pf, NONE, v);
    case Bool(b) => PushPlain(pf, if b then NEWTRUE else NEWFALSE, v);
    case Int(i) => IntPushes(pf, i);
    case Float(bits) => FloatPushes(pf, bits);
    case Str(_) => BlobPushes(pf, v);
    case ByteStr(_) => BlobPushes(pf, v);
    case List(items) => ListPushes(pf, items);
    case Tuple(items) => TuplePushes(pf, items);
    case Dict(pairs) => DictPushes(pf, pairs);
  }

  lemma {:induction false} ListPushes(pf: FloatParser, items: seq<Value>)
    requires AllEncodable(items)
    ensures Pushes(pf, Encode(List(items)), [List(items)])
    decreases items, 1
  {
    hide Run;
    PushPlain(pf, EMPTY_LIST, List([]));
    hide Pushes, EncodeAll, Encodable;
    if items != [] {
      EncodeAllPushes(pf, items);
      PushesAppends(pf, [EMPTY_LIST], [], EncodeAll(items), items);
      assert [EMPTY_LIST] + [MARK] == [EMPTY_LIST, MARK];
      assert [] + items == items;
    }
  }

  lemma {:induction false} TuplePushes(pf: FloatParser, items: seq<Value>)
    requires AllEncodable(items)
    ensures Pushes(pf, Encode(Tuple(items)), [Tuple(items)])
    decreases items, 1
  {
    hide Pushes, EncodeAll, Encodable;
    EncodeAllPushes(pf, items);
    if items == [] {
      PushPlain(pf, EMPTY_TUPLE, Tuple([]));
    } else if |items| <= 3 {
      PushesSmallTuple(pf, EncodeAll(items), items,
                       if |items| == 1 then TUPLE1 else if |items| == 2 then TUPLE2 else TUPLE3);
    } else {
      PushesMarked(pf, EncodeAll(items), items, TUPLE, Tuple(items));
    }
  }

  lemma {:induction false} DictPushes(pf: FloatParser, pairs: seq<Pair>)
    requires Encodable(Dict(pairs))
    ensures Pushes(pf, Encode(Dict(pairs)), [Dict(pairs)])
    decreases pairs, 1
  {
    hide Run;
    PushPlain(pf, EMPTY_DICT, Dict([]));
    hide Pushes, EncodePairs, Flatten, Encodable;
    if pairs != [] {
      EncodePairsPushes(pf, pairs);
      PairUpFlatten(pairs);
      PushesSetItems(pf, [EMPTY_DICT], [], EncodePairs(pairs), Flatten(pairs));
      assert [EMPTY_DICT] + [MARK] == [EMPTY_DICT, MARK];
      assert [] + pairs == pairs;
    }
  }

  lemma {:induction false} EncodeAllPushes(pf: FloatParser, vs: seq<Value>)
    requires AllEncodable(vs)
    ensures Pushes(pf, EncodeAll(vs), vs)
    decreases vs, 0
  {
    if vs == [] {
      PushesNothing(pf);
    } else {
      var init, last := vs[..|vs| - 1], vs[|vs| - 1];
      EncodeAllPushes(pf, init);
      EncodePushes(pf, last);
      PushesInOrder(pf, EncodeAll(init), init, Encode(last), [last]);
      assert init + [last] == vs;
    }
  }

  function Flatten(ps: seq<Pair>): (vs: seq<Value>)
    ensures |vs| == 2 * |ps|
  {
    if ps == [] then []
    else Flatten(ps[..|ps| - 1]) + [ps[|ps| - 1].key, ps[|ps| - 1].val]
  }

  lemma {:induction false} PairUpFlatten(ps: seq<Pair>)
    ensures PairUp(Flatten(ps)) == ps
  {
    if ps == [] {
    } else {
      var init := ps[..|ps| - 1];
      PairUpFlatten(init);
      assert forall i :: 0 <= i < |init| ==> PairUp(Flatten(ps))[i] == PairUp(Flatten(init))[i];
    }
  }

  lemma {:induction false} EncodePairsPushes(pf: FloatParser, ps: seq<Pair>)
    requires Encodable(Dict(ps))
    ensures Pushes(pf, EncodePairs(ps), Flatten(ps))
    decreases ps, 0
  {
    if ps == [] {
      PushesNothing(pf);
    } else {
      var init, p := ps[..|ps| - 1], ps[|ps| - 1];
      EncodePairsPushes(pf, init);
      EncodePairPushes(pf, p);
      PushesInOrder(pf, EncodePairs(init), Flatten(init), EncodePair(p), [p.key, p.val]);
    }
  }

  lemma {:induction false} EncodePairPushes(pf: FloatParser, p: Pair)
    requires Encodable(p.key) && Encodable(p.val)
    ensures Pushes(pf, EncodePair(p), [p.key, p.val])
    decreases p, 2
  {
    EncodePushes(pf, p.key);
    EncodePushes(pf, p.val);
    PushesInOrder(pf, Encode(p.key), [p.key], Encode(p.val), [p.val]);
    assert [p.key] + [p.val] == [p.key, p.val];
  }

  // ---- Whole pickles ----

  /** Decoding from any machine state returns the value, stops right after STOP, and leaves the
      state as it was. */
  lemma {:induction false} SerializedRun(pf: FloatParser, v: Value, rest: bytes, s: State)
    requires Encodable(v)
    ensures Run(pf, Serialize(v) + rest, s) == Done(v, rest, s)
  {
    hide Run, Encode, Encodable, PopValues;
    var body := Encode(v) + ([STOP] + rest);
    assert Serialize(v) + rest == [PROTO, 2] + body;
    RunHeader(pf, body, s);
    EncodePushes(pf, v);
    assert PushesAt(pf, Encode(v), [v], [STOP] + rest, s);
    RunStop(pf, rest, s.(stack := s.stack + Vals([v])));
    PopValuesFinds(s.stack, [v]);
  }

  lemma {:induction false} RunStop(pf: FloatParser, rest: bytes, s: State)
    ensures Run(pf, [STOP] + rest, s) == Halt(s, rest)
  {
    hide Fetch, Halt, Exec;
    FetchPlain(pf, STOP, rest);
  }

  lemma {:induction false} RunHeader(pf: FloatParser, body: bytes, s: State)
    ensures Run(pf, [PROTO, 2] + body, s) == Run(pf, body, s)
  {
    hide Run;
    var b := [PROTO, 2] + body;
    assert b[1..] == [2] + body;
    TakeExact([2], body);
    RunStep(pf, b, Skip, body, s);
  }

  /** The round trip. */
  lemma {:induction false} RoundTrip(pf: FloatParser, v: Value)
    requires Encodable(v)
    ensures Deserialize(pf, Serialize(v)) == Ok(v)
  {
    assert Serialize(v) + [] == Serialize(v);
    SerializedRun(pf, v, [], EMPTY_STATE);
  }

  /** Different values have different pickles. */
  lemma {:induction false} SerializeInjective(v: Value, w: Value)
    requires Encodable(v) && Encodable(w)
    ensures Serialize(v) == Serialize(w) ==> v == w
  {
    var pf: FloatParser := (s: bytes) => Option<uint64>.None;
    RoundTrip(pf, v);
    RoundTrip(pf, w);
  }
}
