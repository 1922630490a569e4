/** The decoder as the program runs it: a position, a stack and a memo that each opcode updates. */
module PickleDecoder {
  import opened Bytes
  import opened Common
  import opened PickleLong
  import opened PickleMachine
  import opened PickleRoundTrip
  import opened PickleValue
  import opened Text

  method PickleDeserialize(pf: FloatParser, data: bytes) returns (r: Result<Value>)
    ensures r == Deserialize(pf, data)
  {
    var decoder := new Decoder(pf, data);
    assert data[0..] == data;
    r := decoder.Decode();
  }

  /** One opcode other than STOP, with its operand at the head of `b`, on the machine `s`. */
  datatype Stepped = Stepped(rest: bytes, s: State)

  function StepOpcode(pf: FloatParser, op: byte, b: bytes, s: State): Option<Stepped>
    requires op != STOP
  {
    match FetchOperand(pf, op, b)
    case None => None
    case Some(f) =>
      match Exec(f.instr, s)
      case None => None
      case Some(s') => Some(Stepped(f.rest, s'))
  }

  class Decoder {
    const pf: FloatParser
    const data: bytes
    var pos: nat
    var stack: seq<Item>
    var memo: map<uint32, Value>

    ghost predicate Valid()
      reads this
    {
      pos <= |data|
    }

    ghost function Rest(): bytes
      requires Valid()
      reads this
    {
      data[pos..]
    }

    ghost function Machine(): State
      reads this
    {
      State(stack, memo)
    }

    constructor (pf: FloatParser, data: bytes)
      ensures Valid() && this.pf == pf && this.data == data && pos == 0 && Machine() == EMPTY_STATE
    {
      this.pf, this.data := pf, data;
      pos, stack, memo := 0, [], map[];
    }

    // ---- Readers ----

    method ReadByte() returns (r: Option<byte>)
      requires Valid()
      modifies this`pos
      ensures Valid() && pos >= old(pos)
      ensures r == if old(Rest()) == [] then None else Some(old(Rest())[0])
      ensures r.Some? ==> Rest() == old(Rest())[1..] && pos > old(pos)
    {
      if pos >= |data| {
        return None;
      }
      r := Some(data[pos]);
      pos := pos + 1;
    }

    method ReadBytes(n: nat) returns (r: Option<bytes>)
      requires Valid()
      modifies this`pos
      ensures Valid() && pos >= old(pos)
      ensures match Take(old(Rest()), n)
              case None => r == None
              case Some(split) => r == Some(split.payload) && Rest() == split.rest
    {
      if pos + n > |data| {
        return None;
      }
      r := Some(data[pos..pos + n]);
      assert data[pos..][..n] == data[pos..pos + n] && data[pos..][n..] == data[pos + n..];
      pos := pos + n;
    }

    method ReadUnsigned(n: nat) returns (r: Option<nat>)
      requires Valid()
      modifies this`pos
      ensures Valid() && pos >= old(pos)
      ensures match Take(old(Rest()), n)
              case None => r == None
              case Some(split) => r == Some(FromLe(split.payload)) && Rest() == split.rest
    {
      var s := ReadBytes(n);
      r := match s case None => None case Some(b) => Some(FromLe(b));
    }

    method ReadI32Le() returns (r: Option<int>)
      requires Valid()
      modifies this`pos
      ensures Valid() && pos >= old(pos)
      ensures match Take(old(Rest()), 4)
              case None => r == None
              case Some(split) => r == Some(SignedLe(split.payload)) && Rest() == split.rest
    {
      var s := ReadBytes(4);
      r := match s case None => None case Some(b) => Some(SignedLe(b));
    }

    /** An unsigned length of `width` bytes, then that many bytes. */
    method ReadCounted(width: nat) returns (r: Option<bytes>)
      requires Valid()
      modifies this`pos
      ensures Valid() && pos >= old(pos)
      ensures match TakeOperand(Counted(width), old(Rest()))
              case None => r == None
              case Some(split) => r == Some(split.payload) && Rest() == split.rest
    {
      var n := ReadUnsigned(width);
      if n.None? { return None; }
      r := ReadBytes(n.value);
    }

    method ReadLine() returns (r: Option<bytes>)
      requires Valid()
      modifies this`pos
      ensures Valid() && pos >= old(pos)
      ensures match TakeLine(old(Rest()))
              case None => r == None
              case Some(split) => r == Some(split.payload) && Rest() == split.rest
    {
      var start := pos;
      while pos < |data| && data[pos] != 10
        invariant start <= pos <= |data|
        invariant LineLength(data[start..]) == pos - start + LineLength(data[pos..])
      {
        assert data[pos..][1..] == data[pos + 1..];
        pos := pos + 1;
      }
      assert pos < |data| ==> data[pos..][0] == 10;
      if pos >= |data| {
        return None;
      }
      r := Some(data[start..pos]);
      assert data[start..][..pos - start] == data[start..pos];
      assert data[start..][pos - start + 1..] == data[pos + 1..];
      pos := pos + 1;
    }

    // ---- Stack ----

    method PushValue(v: Value)
      modifies this`stack
      ensures stack == old(stack) + [Val(v)]
    {
      stack := stack + [Val(v)];
    }

    method PopValue() returns (r: Option<Value>)
      modifies this`stack
      ensures r.None? <==> PopValues(old(stack), 1).None?
      ensures r.Some? ==> PopValues(old(stack), 1) == Some(Popped([r.value], stack))
    {
      if stack == [] {
        return None;
      }
      var top := stack[|stack| - 1];
      stack := stack[..|stack| - 1];
      r := if top.Val? then Some(top.v) else None;
      assert top.Val? ==> [] + [top.v] == [top.v];
    }

    /** Pops down to the topmost mark; the values come off last first and are put back in order. */
    method PopDownToMark() returns (r: Option<seq<Value>>)
      modifies this`stack
      ensures r.None? <==> PopToMark(old(stack)).None?
      ensures r.Some? ==> PopToMark(old(stack)) == Some(Popped(r.value, stack))
    {
      hide PopToMark, Vals;
      var items: seq<Value> := [];
      assert Vals(Reverse(items)) == [];
      while stack != []
        invariant old(stack) == stack + Vals(Reverse(items))
        decreases |stack|
      {
        var top := stack[|stack| - 1];
        stack := stack[..|stack| - 1];
        if top.Mark? {
          assert old(stack) == stack + [Mark] + Vals(Reverse(items));
          PopToMarkFinds(stack, Reverse(items));
          return Some(Reverse(items));
        }
        assert Reverse(items + [top.v]) == [top.v] + Reverse(items);
        assert Vals([top.v] + Reverse(items)) == [top] + Vals(Reverse(items));
        items := items + [top.v];
      }
      assert old(stack) == Vals(Reverse(items)) && Mark !in old(stack);
      r := None;
    }

    method PopTwo() returns (r: Option<seq<Value>>)
      modifies this`stack
      ensures r.None? <==> PopValues(old(stack), 2).None?
      ensures r.Some? ==> PopValues(old(stack), 2) == Some(Popped(r.value, stack))
    {
      var b := PopValue();
      if b.None? { return None; }
      var a := PopValue();
      if a.None? { return None; }
      r := Some([a.value, b.value]);
      assert [a.value] + [b.value] == r.value;
    }

    method PopThree() returns (r: Option<seq<Value>>)
      modifies this`stack
      ensures r.None? <==> PopValues(old(stack), 3).None?
      ensures r.Some? ==> PopValues(old(stack), 3) == Some(Popped(r.value, stack))
    {
      var c := PopValue();
      if c.None? { return None; }
      var ab := PopTwo();
      if ab.None? { return None; }
      r := Some(ab.value + [c.value]);
    }

    method ExtendTop(vs: seq<Value>) returns (ok: bool)
      modifies this`stack
      ensures match Extend(old(stack), vs)
              case None => !ok
              case Some(st) => ok && stack == st
    {
      if stack != [] && stack[|stack| - 1].Val? && stack[|stack| - 1].v.List? {
        stack := stack[|stack| - 1 := Val(List(stack[|stack| - 1].v.items + vs))];
        return true;
      }
      ok := false;
    }

    method AddPairsToTop(ps: seq<Pair>) returns (ok: bool)
      modifies this`stack
      ensures match AddPairs(old(stack), ps)
              case None => !ok
              case Some(st) => ok && stack == st
    {
      if stack != [] && stack[|stack| - 1].Val? && stack[|stack| - 1].v.Dict? {
        stack := stack[|stack| - 1 := Val(Dict(stack[|stack| - 1].v.pairs + ps))];
        return true;
      }
      ok := false;
    }

    method Memoize(index: uint32)
      modifies this`memo
      ensures Machine() == Remember(old(Machine()), index)
    {
      if stack != [] && stack[|stack| - 1].Val? {
        memo := memo[index := stack[|stack| - 1].v];
      }
    }

    method PushMemo(index: uint32) returns (ok: bool)
      modifies this`stack
      ensures ok <==> index in memo
      ensures ok ==> stack == old(stack) + [Val(memo[index])]
    {
      ok := index in memo;
      if ok {
        PushValue(memo[index]);
      }
    }

    // ---- Opcodes ----

    /** What the handler of `op` did, against the machine's step. */
    twostate predicate Handled(op: byte, ok: bool)
      requires op != STOP && old(Valid()) && Valid()
      reads this
    {
      match StepOpcode(pf, op, old(Rest()), old(Machine()))
      case None => !ok
      case Some(next) => ok && Rest() == next.rest && Machine() == next.s
    }

    method Header(op: byte) returns (ok: bool)
      requires Valid() && op in {PROTO, FRAME}
      modifies this
      ensures Valid() && pos >= old(pos) && Handled(op, ok)
    {
      hide FetchOperand, FromLe;
      FixedMeaning(pf, op, Rest());
      var skipped := ReadUnsigned(if op == PROTO then 1 else 8);
      ok := skipped.Some?;
    }

    method Scalar(op: byte) returns (ok: bool)
      requires Valid()
      requires op in {NONE, NEWTRUE, NEWFALSE, EMPTY_LIST, EMPTY_DICT, EMPTY_TUPLE}
      modifies this
      ensures Valid() && pos >= old(pos) && Handled(op, ok)
    {
      hide FetchOperand;
      PlainMeaning(pf, op, Rest());
      if op == NONE { PushValue(PyNone); }
      else if op == NEWTRUE { PushValue(Bool(true)); }
      else if op == NEWFALSE { PushValue(Bool(false)); }
      else if op == EMPTY_LIST { PushValue(List([])); }
      else if op == EMPTY_DICT { PushValue(Dict([])); }
      else { PushValue(Tuple([])); }
      ok := true;
    }

    method Number(op: byte) returns (ok: bool)
      requires Valid() && op in {BININT1, BININT2, BININT, BINFLOAT}
      modifies this
      ensures Valid() && pos >= old(pos) && Handled(op, ok)
    {
      hide FetchOperand, FromLe, SignedLe;
      FixedMeaning(pf, op, Rest());
      var s := ReadBytes(if op == BININT1 then 1 else if op == BININT2 then 2 else if op == BININT then 4 else 8);
      if s.None? { return false; }
      if op == BININT {
        PushValue(Int(Int32(s.value)));
      } else if op == BINFLOAT {
        PushValue(Float(FloatBits(s.value)));
      } else {
        PushValue(Int(Unsigned32(s.value)));
      }
      ok := true;
    }

    method Long(op: byte) returns (ok: bool)
      requires Valid() && op == LONG1
      modifies this
      ensures Valid() && pos >= old(pos) && Handled(op, ok)
    {
      hide FetchOperand, TakeOperand, SignedLe;
      CountedMeaning(pf, op, Rest());
      var s := ReadCounted(1);
      if s.None? { return false; }
      var v := BytesToLong(s.value);
      PushValue(Int(v));
      ok := true;
    }

    method Unicode(op: byte) returns (ok: bool)
      requires Valid() && op in {BINUNICODE, SHORT_BINUNICODE, BINUNICODE8}
      modifies this
      ensures Valid() && pos >= old(pos) && Handled(op, ok)
    {
      hide FetchOperand, ValidUtf8, TakeOperand;
      CountedMeaning(pf, op, Rest());
      var s := ReadCounted(if op == SHORT_BINUNICODE then 1 else if op == BINUNICODE then 4 else 8);
      if s.None? || !ValidUtf8(s.value) { return false; }
      PushValue(Str(s.value));
      ok := true;
    }

    method ByteString(op: byte) returns (ok: bool)
      requires Valid() && op in {SHORT_BINBYTES, BINBYTES, BINBYTES8, SHORT_BINSTRING}
      modifies this
      ensures Valid() && pos >= old(pos) && Handled(op, ok)
    {
      hide FetchOperand, TakeOperand;
      CountedMeaning(pf, op, Rest());
      var s := ReadCounted(if op == BINBYTES then 4 else if op == BINBYTES8 then 8 else 1);
      if s.None? { return false; }
      PushValue(ByteStr(s.value));
      ok := true;
    }

    method BinString(op: byte) returns (ok: bool)
      requires Valid() && op == BINSTRING
      modifies this
      ensures Valid() && pos >= old(pos) && Handled(op, ok)
    {
      hide FetchOperand, SignedLe;
      BinStringMeaning(pf, Rest());
      var n := ReadI32Le();
      // A negative length sign-extends past the end of any input.
      if n.None? || n.value < 0 { return false; }
      var s := ReadBytes(n.value);
      if s.None? { return false; }
      PushValue(ByteStr(s.value));
      ok := true;
    }

    method TextLine(op: byte) returns (ok: bool)
      requires Valid() && op in {UNICODE, STRING, INT, FLOAT}
      modifies this
      ensures Valid() && pos >= old(pos) && Handled(op, ok)
    {
      hide FetchOperand, ValidUtf8, TakeLine, Trim, TrimByte, ParseI64;
      LineMeaning(pf, op, Rest());
      var line := ReadLine();
      if line.None? || !ValidUtf8(line.value) { return false; }
      if op == UNICODE {
        PushValue(Str(line.value));
      } else if op == STRING {
        PushValue(ByteStr(TrimByte(TrimByte(line.value, 0x27), 0x22)));
      } else if op == INT {
        var s := Trim(line.value);
        if s == [0x30, 0x30] {
          PushValue(Bool(false));
        } else if s == [0x30, 0x31] {
          PushValue(Bool(true));
        } else {
          var v := ParseI64(s);
          if v.None? { return false; }
          PushValue(Int(v.value));
        }
      } else {
        var v := pf(Trim(line.value));
        if v.None? { return false; }
        PushValue(Float(v.value));
      }
      ok := true;
    }

    method MarkedContainer(op: byte) returns (ok: bool)
      requires Valid() && op in {MARK, LIST, DICT, TUPLE, POP_MARK}
      modifies this
      ensures Valid() && pos >= old(pos) && Handled(op, ok)
    {
      hide FetchOperand, PopToMark, PairUp, Exec;
      PlainMeaning(pf, op, Rest());
      ExecMarked(Machine());
      if op == MARK {
        stack := stack + [Mark];
        return true;
      }
      var items := PopDownToMark();
      if items.None? { return false; }
      if op == LIST {
        PushValue(List(items.value));
      } else if op == DICT {
        if |items.value| % 2 != 0 { return false; }
        PushValue(Dict(PairUp(items.value)));
      } else if op == TUPLE {
        PushValue(Tuple(items.value));
      }
      ok := true;
    }

    method SmallTuple(op: byte) returns (ok: bool)
      requires Valid() && op in {TUPLE1, TUPLE2, TUPLE3}
      modifies this
      ensures Valid() && pos >= old(pos) && Handled(op, ok)
    {
      hide PopValues, Exec, FetchOperand;
      PlainMeaning(pf, op, Rest());
      ExecTuple(if op == TUPLE1 then 1 else if op == TUPLE2 then 2 else 3, Machine());
      var items: Option<seq<Value>>;
      if op == TUPLE1 {
        var a := PopValue();
        items := match a case None => None case Some(v) => Some([v]);
      } else if op == TUPLE2 {
        items := PopTwo();
      } else {
        items := PopThree();
      }
      if items.None? { return false; }
      PushValue(Tuple(items.value));
      ok := true;
    }

    method GrowList(op: byte) returns (ok: bool)
      requires Valid() && op in {APPEND, APPENDS}
      modifies this
      ensures Valid() && pos >= old(pos) && Handled(op, ok)
    {
      hide FetchOperand, PopToMark, PopValues, Extend, Exec;
      PlainMeaning(pf, op, Rest());
      if op == APPEND {
        ExecGrowOne(Machine());
        var item := PopValue();
        if item.None? { return false; }
        ok := ExtendTop([item.value]);
      } else {
        ExecGrowMany(Machine());
        var items := PopDownToMark();
        if items.None? { return false; }
        ok := ExtendTop(items.value);
      }
    }

    method GrowDict(op: byte) returns (ok: bool)
      requires Valid() && op in {SETITEM, SETITEMS}
      modifies this
      ensures Valid() && pos >= old(pos) && Handled(op, ok)
    {
      hide FetchOperand, PopToMark, PopValues, PairUp, AddPairs, Exec;
      PlainMeaning(pf, op, Rest());
      if op == SETITEM {
        ExecGrowOne(Machine());
        var kv := PopTwo();
        if kv.None? { return false; }
        ok := AddPairsToTop(PairUp(kv.value));
      } else {
        ExecGrowMany(Machine());
        var items := PopDownToMark();
        if items.None? || |items.value| % 2 != 0 { return false; }
        ok := AddPairsToTop(PairUp(items.value));
      }
    }

    method MemoWrite(op: byte) returns (ok: bool)
      requires Valid() && op in {BINPUT, LONG_BINPUT, PUT, MEMOIZE}
      modifies this
      ensures Valid() && pos >= old(pos) && Handled(op, ok)
    {
      hide FetchOperand, ValidUtf8, TakeLine, Trim, ParseU32, FromLe, Remember;
      if op == MEMOIZE {
        PlainMeaning(pf, op, Rest());
        Memoize(|memo| % TWO_32);
        return true;
      }
      var index: uint32;
      if op == PUT {
        LineMeaning(pf, op, Rest());
        var line := ReadLine();
        if line.None? || !ValidUtf8(line.value) { return false; }
        var i := ParseU32(Trim(line.value));
        if i.None? { return false; }
        index := i.value;
      } else {
        FixedMeaning(pf, op, Rest());
        var s := ReadBytes(if op == BINPUT then 1 else 4);
        if s.None? { return false; }
        index := Unsigned32(s.value);
      }
      Memoize(index);
      ok := true;
    }

    method MemoRead(op: byte) returns (ok: bool)
      requires Valid() && op in {BINGET, LONG_BINGET, GET}
      modifies this
      ensures Valid() && pos >= old(pos) && Handled(op, ok)
    {
      hide FetchOperand, ValidUtf8, TakeLine, Trim, ParseU32, FromLe;
      var index: uint32;
      if op == GET {
        LineMeaning(pf, op, Rest());
        var line := ReadLine();
        if line.None? || !ValidUtf8(line.value) { return false; }
        var i := ParseU32(Trim(line.value));
        if i.None? { return false; }
        index := i.value;
      } else {
        FixedMeaning(pf, op, Rest());
        var s := ReadBytes(if op == BINGET then 1 else 4);
        if s.None? { return false; }
        index := Unsigned32(s.value);
      }
      ok := PushMemo(index);
    }

    method Shuffle(op: byte) returns (ok: bool)
      requires Valid() && op in {POP, DUP}
      modifies this
      ensures Valid() && pos >= old(pos) && Handled(op, ok)
    {
      hide FetchOperand;
      PlainMeaning(pf, op, Rest());
      if op == POP {
        if stack != [] {
          stack := stack[..|stack| - 1];
        }
      } else if stack != [] && stack[|stack| - 1].Val? {
        PushValue(stack[|stack| - 1].v);
      }
      ok := true;
    }

    method Discard(op: byte) returns (ok: bool)
      requires Valid() && op in {STACK_GLOBAL, REDUCE, NEWOBJ, BUILD}
      modifies this
      ensures Valid() && pos >= old(pos) && Handled(op, ok)
    {
      hide FetchOperand, PopValues, Exec, InterpretPlain;
      PlainMeaning(pf, op, Rest());
      DiscardMeaning(op);
      if op == BUILD {
        ExecDrop(Machine());
        var state := PopValue();
        return state.Some?;
      }
      ExecReplace(Machine());
      var args := PopTwo();
      if args.None? { return false; }
      PushValue(PyNone);
      ok := true;
    }

    method Global(op: byte) returns (ok: bool)
      requires Valid() && op == GLOBAL
      modifies this
      ensures Valid() && pos >= old(pos) && Handled(op, ok)
    {
      hide FetchOperand, TakeLine;
      GlobalMeaning(pf, Rest());
      var moduleName := ReadLine();
      if moduleName.None? { return false; }
      var name := ReadLine();
      if name.None? { return false; }
      PushValue(PyNone);
      ok := true;
    }

    method Opcode(op: byte) returns (ok: bool)
      requires Valid() && op != STOP
      modifies this
      ensures Valid() && pos >= old(pos) && Handled(op, ok)
    {
      hide Exec, FetchOperand;
      if op in {PROTO, FRAME} {
        ok := Header(op);
      } else if op in {NONE, NEWTRUE, NEWFALSE, EMPTY_LIST, EMPTY_DICT, EMPTY_TUPLE} {
        ok := Scalar(op);
      } else if op in {BININT1, BININT2, BININT, BINFLOAT} {
        ok := Number(op);
      } else if op == LONG1 {
        ok := Long(op);
      } else if op in {BINUNICODE, SHORT_BINUNICODE, BINUNICODE8} {
        ok := Unicode(op);
      } else if op in {SHORT_BINBYTES, BINBYTES, BINBYTES8, SHORT_BINSTRING} {
        ok := ByteString(op);
      } else if op == BINSTRING {
        ok := BinString(op);
      } else if op in {UNICODE, STRING, INT, FLOAT} {
        ok := TextLine(op);
      } else if op in {MARK, LIST, DICT, TUPLE, POP_MARK} {
        ok := MarkedContainer(op);
      } else if op in {TUPLE1, TUPLE2, TUPLE3} {
        ok := SmallTuple(op);
      } else if op in {APPEND, APPENDS} {
        ok := GrowList(op);
      } else if op in {SETITEM, SETITEMS} {
        ok := GrowDict(op);
      } else if op in {BINPUT, LONG_BINPUT, PUT, MEMOIZE} {
        ok := MemoWrite(op);
      } else if op in {BINGET, LONG_BINGET, GET} {
        ok := MemoRead(op);
      } else if op in {POP, DUP} {
        ok := Shuffle(op);
      } else if op in {STACK_GLOBAL, REDUCE, NEWOBJ, BUILD} {
        ok := Discard(op);
      } else if op == GLOBAL {
        ok := Global(op);
      } else {
        UnknownOpcode(pf, op, Rest());
        ok := false;
      }
    }

    /** Terminates on every input; agrees with the machine's run in its result, in the position it
        stops at and in the stack and memo it leaves. */
    method Decode() returns (r: Result<Value>)
      requires Valid()
      modifies this
      ensures Valid() && old(pos) <= pos
      ensures match Run(pf, old(Rest()), old(Machine()))
              case Fail => r == Err(Serialization)
              case Done(v, rest, s) => r == Ok(v) && Rest() == rest && Machine() == s
    {
      hide FetchOperand, Exec, PopValues;
      while true
        invariant Valid() && old(pos) <= pos
        invariant Run(pf, Rest(), Machine()) == Run(pf, old(Rest()), old(Machine()))
        decreases |data| - pos
      {
        var op := ReadByte();
        if op.None? {
          return Err(Serialization);
        }
        if op.value == STOP {
          FetchStop(pf, Rest());
          var v := PopValue();
          return if v.Some? then Ok(v.value) else Err(Serialization);
        }
        var ok := Opcode(op.value);
        if !ok {
          return Err(Serialization);
        }
      }
    }
  }

  lemma {:induction false} UnknownOpcode(pf: FloatParser, op: byte, b: bytes)
    requires OperandFormat(op) == Unsupported
    ensures FetchOperand(pf, op, b) == None
  {
  }

  lemma {:induction false} FetchStop(pf: FloatParser, b: bytes)
    ensures FetchOperand(pf, STOP, b) == Some(Fetched(Stop, b))
  {
    assert Take(b, 0) == Some(Split([], b));
  }
}
