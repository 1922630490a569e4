/** The decoder as an abstract machine. `Fetch` reads one instruction off the remaining bytes, `Exec`
    runs it on the stack and the memo, and `Run` repeats the two until STOP or a failure. */
module PickleMachine {
  import opened Bytes
  import opened Common
  import opened PickleValue
  import opened Text

  datatype Item = Val(v: Value) | Mark

  datatype State = State(stack: seq<Item>, memo: map<uint32, Value>)

  const EMPTY_STATE := State([], map[])

  datatype Instr =
    | Stop
    | Skip                     // PROTO and FRAME
    | Push(v: Value)
    | PushMark
    | MakeList | MakeDict | MakeTuple
    | TupleOf(n: nat)
    | AppendOne | AppendMany | SetOne | SetMany
    | Store(index: uint32) | StoreNext | Load(index: uint32)
    | Drop | Duplicate | DropToMark
    | ReplaceTwoByNone         // STACK_GLOBAL, REDUCE and NEWOBJ
    | DropValue                // BUILD

  /** How the operand of an opcode is laid out. */
  datatype Format =
    | Fixed(width: nat)        // that many bytes
    | Counted(width: nat)      // an unsigned little-endian length, then that many bytes
    | CountedI32               // the same with a signed four-byte length
    | Line                     // up to a line feed
    | TwoLines
    | Unsupported

  /** Parses the text of a FLOAT line. The library function is a parameter of the machine. */
  type FloatParser = bytes -> Option<uint64>

  predicate HasNoOperand(op: byte) {
    op in {
      STOP, NONE, NEWTRUE, NEWFALSE, EMPTY_LIST, EMPTY_DICT, EMPTY_TUPLE, MARK, LIST, DICT, TUPLE,
      TUPLE1, TUPLE2, TUPLE3, APPEND, APPENDS, SETITEM, SETITEMS, MEMOIZE, POP, DUP, POP_MARK,
      STACK_GLOBAL, REDUCE, NEWOBJ, BUILD
    }
  }

  function OperandFormat(op: byte): Format {
    if HasNoOperand(op) then Fixed(0)
    else if op in {PROTO, BININT1, BINPUT, BINGET} then Fixed(1)
    else if op == BININT2 then Fixed(2)
    else if op in {BININT, LONG_BINPUT, LONG_BINGET} then Fixed(4)
    else if op in {FRAME, BINFLOAT} then Fixed(8)
    else if op in {LONG1, SHORT_BINUNICODE, SHORT_BINBYTES, SHORT_BINSTRING} then Counted(1)
    else if op in {BINUNICODE, BINBYTES} then Counted(4)
    else if op in {BINUNICODE8, BINBYTES8} then Counted(8)
    else if op == BINSTRING then CountedI32
    else if op in {UNICODE, STRING, INT, FLOAT, PUT, GET} then Line
    else if op == GLOBAL then TwoLines
    else Unsupported
  }

  /** The operand's payload and the bytes after it. */
  datatype Split = Split(payload: bytes, rest: bytes)

  function Take(b: bytes, n: nat): (r: Option<Split>)
    ensures r.Some? <==> n <= |b|
    ensures r.Some? ==> |r.value.payload| == n && b == r.value.payload + r.value.rest
  {
    if n <= |b| then Some(Split(b[..n], b[n..])) else None
  }

  function LineLength(b: bytes): (n: nat)
    ensures n <= |b|
    ensures n < |b| ==> b[n] == 10
    ensures forall i :: 0 <= i < n ==> b[i] != 10
  {
    if b == [] || b[0] == 10 then 0 else 1 + LineLength(b[1..])
  }

  /** Splits at the first line feed, which is consumed and belongs to neither part. */
  function TakeLine(b: bytes): (r: Option<Split>)
    ensures r.Some? ==> b == r.value.payload + [10] + r.value.rest && 10 !in r.value.payload
  {
    var n := LineLength(b);
    if n < |b| then Some(Split(b[..n], b[n + 1..])) else None
  }

  function TakeOperand(f: Format, b: bytes): (r: Option<Split>)
    ensures r.Some? ==> |r.value.rest| <= |b|
    ensures r.Some? ==> (f.Fixed? ==> |r.value.payload| == f.width) && !f.Unsupported?
  {
    match f
    case Fixed(n) => Take(b, n)
    case Counted(w) =>
      (match Take(b, w)
       case None => None
       case Some(head) => Take(head.rest, FromLe(head.payload)))
    case CountedI32 =>
      (match Take(b, 4)
       case None => None
       case Some(head) =>
         var n := SignedLe(head.payload);
         if n < 0 then None else Take(head.rest, n))
    case Line => TakeLine(b)
    case TwoLines =>
      (match TakeLine(b)
       case None => None
       case Some(first) => TakeLine(first.rest))
    case Unsupported => None
  }

  function PushStr(s: bytes): Option<Instr> {
    if ValidUtf8(s) then Some(Push(Str(s))) else None
  }

  function Int32(payload: bytes): int64
    requires |payload| == 4
  {
    Pow256Values();
    SignedLeRange(payload);
    SignedLe(payload)
  }

  function Unsigned32(payload: bytes): uint32
    requires |payload| in {1, 2, 4}
  {
    Pow256Values();
    FromLeRange(payload);
    FromLe(payload)
  }

  function FloatBits(payload: bytes): uint64
    requires |payload| == 8
  {
    Pow256Values();
    FromLeRange(Reverse(payload));
    FromBe(payload)
  }

  /** What an opcode with this payload means; `None` where the payload is malformed. */
  function Interpret(pf: FloatParser, op: byte, payload: bytes): (i: Option<Instr>)
    requires OperandFormat(op).Fixed? ==> |payload| == OperandFormat(op).width
    ensures i == Some(Stop) ==> op == STOP
  {
    if OperandFormat(op) == Fixed(0) then Some(InterpretPlain(op))
    else if OperandFormat(op).Line? then InterpretLine(pf, op, payload)
    else if op in {PROTO, FRAME} then Some(Skip)
    else if op in {BININT1, BININT2} then Some(Push(Int(Unsigned32(payload))))
    else if op == BININT then Some(Push(Int(Int32(payload))))
    else if op == LONG1 then Some(Push(Int(WrapI64(SignedLe(payload)))))
    else if op == BINFLOAT then Some(Push(Float(FloatBits(payload))))
    else if op in {BINUNICODE, SHORT_BINUNICODE, BINUNICODE8} then PushStr(payload)
    else if op in {SHORT_BINBYTES, BINBYTES, BINBYTES8, SHORT_BINSTRING, BINSTRING} then
      Some(Push(ByteStr(payload)))
    else if op in {BINPUT, LONG_BINPUT} then Some(Store(Unsigned32(payload)))
    else if op in {BINGET, LONG_BINGET} then Some(Load(Unsigned32(payload)))
    else if op == GLOBAL then Some(Push(PyNone))
    else None
  }

  function InterpretPlain(op: byte): (i: Instr)
    ensures i == Stop <==> op == STOP
  {
    if op == STOP then Stop
    else if op == NONE then Push(PyNone)
    else if op == NEWTRUE then Push(Bool(true))
    else if op == NEWFALSE then Push(Bool(false))
    else if op == EMPTY_LIST then Push(List([]))
    else if op == EMPTY_DICT then Push(Dict([]))
    else if op == EMPTY_TUPLE then Push(Tuple([]))
    else if op == MARK then PushMark
    else if op == LIST then MakeList
    else if op == DICT then MakeDict
    else if op == TUPLE then MakeTuple
    else if op == TUPLE1 then TupleOf(1)
    else if op == TUPLE2 then TupleOf(2)
    else if op == TUPLE3 then TupleOf(3)
    else if op == APPEND then AppendOne
    else if op == APPENDS then AppendMany
    else if op == SETITEM then SetOne
    else if op == SETITEMS then SetMany
    else if op == MEMOIZE then StoreNext
    else if op == POP then Drop
    else if op == DUP then Duplicate
    else if op == POP_MARK then DropToMark
    else if op == BUILD then DropValue
    else ReplaceTwoByNone
  }

  /** The line-oriented opcodes; all but UNICODE trim or strip their text first. */
  function InterpretLine(pf: FloatParser, op: byte, line: bytes): (i: Option<Instr>)
    ensures i != Some(Stop)
  {
    if !ValidUtf8(line) then None
    else if op == UNICODE then Some(Push(Str(line)))
    else if op == STRING then Some(Push(ByteStr(TrimByte(TrimByte(line, 0x27), 0x22))))
    else if op == INT then
      var s := Trim(line);
      if s == [0x30, 0x30] then Some(Push(Bool(false)))
      else if s == [0x30, 0x31] then Some(Push(Bool(true)))
      else match ParseI64(s) case None => None case Some(i) => Some(Push(Int(i)))
    else if op == FLOAT then
      match pf(Trim(line)) case None => None case Some(bits) => Some(Push(Float(bits)))
    else
      match ParseU32(Trim(line))
      case None => None
      case Some(i) => Some(if op == PUT then Store(i) else Load(i))
  }

  datatype Fetched = Fetched(instr: Instr, rest: bytes)

  /** The instruction of opcode `op`, whose operand is at the head of `b`. */
  function FetchOperand(pf: FloatParser, op: byte, b: bytes): (r: Option<Fetched>)
    ensures r.Some? ==> |r.value.rest| <= |b| && (r.value.instr.Stop? ==> op == STOP)
  {
    match TakeOperand(OperandFormat(op), b)
    case None => None
    case Some(split) =>
      match Interpret(pf, op, split.payload)
      case None => None
      case Some(i) => Some(Fetched(i, split.rest))
  }

  function Fetch(pf: FloatParser, b: bytes): (r: Option<Fetched>)
    ensures r.Some? ==> |r.value.rest| < |b|
  {
    if b == [] then None else FetchOperand(pf, b[0], b[1..])
  }

  /** The values above the topmost mark, in pushing order, and the stack below that mark. */
  datatype Popped = Popped(values: seq<Value>, below: seq<Item>)

  function PopToMark(stack: seq<Item>): (r: Option<Popped>)
    ensures r.Some? ==> stack == r.value.below + [Mark] + Vals(r.value.values)
    ensures r.None? <==> Mark !in stack
  {
    if stack == [] then None
    else
      var top, under := stack[|stack| - 1], stack[..|stack| - 1];
      assert stack == under + [top];
      if top.Mark? then Some(Popped([], under))
      else
        match PopToMark(under)
        case None => None
        case Some(p) => Some(Popped(p.values + [top.v], p.below))
  }

  /** Pops `n` values; a mark among them is a failure. */
  function PopValues(stack: seq<Item>, n: nat): (r: Option<Popped>)
    ensures r.Some? ==> |r.value.values| == n && stack == r.value.below + Vals(r.value.values)
    ensures r.Some? <==> n <= |stack| && Mark !in stack[|stack| - n..]
  {
    if n == 0 then Some(Popped([], stack))
    else if stack == [] || stack[|stack| - 1].Mark? then None
    else
      match PopValues(stack[..|stack| - 1], n - 1)
      case None => None
      case Some(p) => Some(Popped(p.values + [stack[|stack| - 1].v], p.below))
  }

  function Vals(vs: seq<Value>): (items: seq<Item>)
    ensures |items| == |vs|
    ensures forall i :: 0 <= i < |vs| ==> items[i] == Val(vs[i])
    ensures Mark !in items
  {
    seq(|vs|, i requires 0 <= i < |vs| => Val(vs[i]))
  }

  /** Consecutive values taken two by two. */
  function PairUp(vs: seq<Value>): (ps: seq<Pair>)
    ensures |ps| == |vs| / 2
    ensures forall i :: 0 <= i < |ps| ==> ps[i] == Pair(vs[2 * i], vs[2 * i + 1])
  {
    seq(|vs| / 2, i requires 0 <= i < |vs| / 2 => Pair(vs[2 * i], vs[2 * i + 1]))
  }

  function Top(stack: seq<Item>): Option<Value> {
    if stack != [] && stack[|stack| - 1].Val? then Some(stack[|stack| - 1].v) else None
  }

  /** Extends the list on top of the stack. */
  function Extend(stack: seq<Item>, vs: seq<Value>): Option<seq<Item>> {
    match Top(stack)
    case Some(List(items)) => Some(stack[..|stack| - 1] + [Val(List(items + vs))])
    case _ => None
  }

  /** Adds pairs to the dict on top of the stack. */
  function AddPairs(stack: seq<Item>, ps: seq<Pair>): Option<seq<Item>> {
    match Top(stack)
    case Some(Dict(pairs)) => Some(stack[..|stack| - 1] + [Val(Dict(pairs + ps))])
    case _ => None
  }

  /** Memoizing copies the value on top of the stack; with none there it does nothing. */
  function Remember(s: State, index: uint32): State {
    match Top(s.stack)
    case Some(v) => s.(memo := s.memo[index := v])
    case None => s
  }

  function WithStack(s: State, stack: Option<seq<Item>>): Option<State> {
    match stack case None => None case Some(st) => Some(s.(stack := st))
  }

  /** One instruction other than `Stop`. */
  function Exec(i: Instr, s: State): Option<State>
    requires !i.Stop?
  {
    match i
    case Skip => Some(s)
    case Push(v) => Some(s.(stack := s.stack + [Val(v)]))
    case PushMark => Some(s.(stack := s.stack + [Mark]))
    case MakeList =>
      (match PopToMark(s.stack)
       case None => None
       case Some(p) => Some(s.(stack := p.below + [Val(List(p.values))])))
    case MakeTuple =>
      (match PopToMark(s.stack)
       case None => None
       case Some(p) => Some(s.(stack := p.below + [Val(Tuple(p.values))])))
    case MakeDict =>
      (match PopToMark(s.stack)
       case None => None
       case Some(p) =>
         if |p.values| % 2 != 0 then None
         else Some(s.(stack := p.below + [Val(Dict(PairUp(p.values)))])))
    case TupleOf(n) =>
      (match PopValues(s.stack, n)
       case None => None
       case Some(p) => Some(s.(stack := p.below + [Val(Tuple(p.values))])))
    case AppendOne =>
      (match PopValues(s.stack, 1)
       case None => None
       case Some(p) => WithStack(s, Extend(p.below, p.values)))
    case AppendMany =>
      (match PopToMark(s.stack)
       case None => None
       case Some(p) => WithStack(s, Extend(p.below, p.values)))
    case SetOne =>
      (match PopValues(s.stack, 2)
       case None => None
       case Some(p) => WithStack(s, AddPairs(p.below, PairUp(p.values))))
    case SetMany =>
      (match PopToMark(s.stack)
       case None => None
       case Some(p) =>
         if |p.values| % 2 != 0 then None
         else WithStack(s, AddPairs(p.below, PairUp(p.values))))
    case Store(index) => Some(Remember(s, index))
    case StoreNext => Some(Remember(s, |s.memo| % TWO_32))
    case Load(index) =>
      if index in s.memo then Some(s.(stack := s.stack + [Val(s.memo[index])])) else None
    case Drop => Some(if s.stack == [] then s else s.(stack := s.stack[..|s.stack| - 1]))
    case Duplicate =>
      (match Top(s.stack)
       case None => Some(s)
       case Some(v) => Some(s.(stack := s.stack + [Val(v)])))
    case DropToMark =>
      (match PopToMark(s.stack)
       case None => None
       case Some(p) => Some(s.(stack := p.below)))
    case ReplaceTwoByNone =>
      (match PopValues(s.stack, 2)
       case None => None
       case Some(p) => Some(s.(stack := p.below + [Val(PyNone)])))
    case DropValue =>
      (match PopValues(s.stack, 1)
       case None => None
       case Some(p) => Some(s.(stack := p.below)))
  }

  /** A finished run: the value STOP popped, the bytes after STOP, and what is left on the machine. */
  datatype Outcome = Done(v: Value, rest: bytes, s: State) | Fail

  function Halt(s: State, rest: bytes): Outcome {
    match PopValues(s.stack, 1)
    case None => Fail
    case Some(p) => Done(p.values[0], rest, s.(stack := p.below))
  }

  function Run(pf: FloatParser, b: bytes, s: State): Outcome
    decreases |b|
  {
    match Fetch(pf, b)
    case None => Fail
    case Some(f) =>
      if f.instr.Stop? then Halt(s, f.rest)
      else
        match Exec(f.instr, s)
        case None => Fail
        case Some(s') => Run(pf, f.rest, s')
  }

  /** What `pickle_deserialize` returns. */
  function Deserialize(pf: FloatParser, b: bytes): Result<Value> {
    match Run(pf, b, EMPTY_STATE)
    case Done(v, _, _) => Ok(v)
    case Fail => Err(Serialization)
  }

  // ---- What each family of opcodes fetches ----

  lemma {:induction false} PlainMeaning(pf: FloatParser, op: byte, b: bytes)
    requires HasNoOperand(op)
    ensures FetchOperand(pf, op, b) == Some(Fetched(InterpretPlain(op), b))
  {
    hide InterpretPlain, InterpretLine;
    assert Take(b, 0) == Some(Split([], b));
  }

  lemma {:induction false} DiscardMeaning(op: byte)
    requires op in {STACK_GLOBAL, REDUCE, NEWOBJ, BUILD}
    ensures InterpretPlain(op) == if op == BUILD then DropValue else ReplaceTwoByNone
  {
  }

  lemma {:induction false} FixedMeaning(pf: FloatParser, op: byte, b: bytes)
    requires op in {PROTO, FRAME, BININT1, BININT2, BININT, BINFLOAT, BINPUT, LONG_BINPUT, BINGET, LONG_BINGET}
    ensures FetchOperand(pf, op, b)
         == match Take(b, if op in {BININT, LONG_BINPUT, LONG_BINGET} then 4
                          else if op in {FRAME, BINFLOAT} then 8 else if op == BININT2 then 2 else 1)
            case None => None
            case Some(Split(p, rest)) =>
              Some(Fetched(
                     if op in {PROTO, FRAME} then Skip
                     else if op == BININT then Push(Int(Int32(p)))
                     else if op == BINFLOAT then Push(Float(FloatBits(p)))
                     else if op in {BINPUT, LONG_BINPUT} then Store(Unsigned32(p))
                     else if op in {BINGET, LONG_BINGET} then Load(Unsigned32(p))
                     else Push(Int(Unsigned32(p))), rest))
  {
    hide Take, FromLe, SignedLe, InterpretLine, InterpretPlain;
  }

  lemma {:induction false} CountedMeaning(pf: FloatParser, op: byte, b: bytes)
    requires op in {LONG1, BINUNICODE, SHORT_BINUNICODE, BINUNICODE8,
                    SHORT_BINBYTES, BINBYTES, BINBYTES8, SHORT_BINSTRING}
    ensures FetchOperand(pf, op, b)
         == match TakeOperand(Counted(if op in {BINUNICODE, BINBYTES} then 4
                                      else if op in {BINUNICODE8, BINBYTES8} then 8 else 1), b)
            case None => None
            case Some(Split(p, rest)) =>
              if op == LONG1 then Some(Fetched(Push(Int(WrapI64(SignedLe(p)))), rest))
              else if op in {BINUNICODE, SHORT_BINUNICODE, BINUNICODE8} then
                if ValidUtf8(p) then Some(Fetched(Push(Str(p)), rest)) else None
              else Some(Fetched(Push(ByteStr(p)), rest))
  {
    hide TakeOperand, SignedLe, ValidUtf8, InterpretLine, InterpretPlain;
  }

  lemma {:induction false} BinStringMeaning(pf: FloatParser, b: bytes)
    ensures FetchOperand(pf, BINSTRING, b)
         == match TakeOperand(CountedI32, b)
            case None => None
            case Some(Split(p, rest)) => Some(Fetched(Push(ByteStr(p)), rest))
  {
    hide TakeOperand, InterpretLine, InterpretPlain;
  }

  lemma {:induction false} LineMeaning(pf: FloatParser, op: byte, b: bytes)
    requires op in {UNICODE, STRING, INT, FLOAT, PUT, GET}
    ensures FetchOperand(pf, op, b)
         == match TakeLine(b)
            case None => None
            case Some(Split(line, rest)) =>
              match InterpretLine(pf, op, line) case None => None case Some(i) => Some(Fetched(i, rest))
  {
    hide TakeLine, InterpretLine, InterpretPlain;
  }

  lemma {:induction false} GlobalMeaning(pf: FloatParser, b: bytes)
    ensures FetchOperand(pf, GLOBAL, b)
         == match TakeLine(b)
            case None => None
            case Some(Split(_, more)) =>
              match TakeLine(more) case None => None case Some(Split(_, rest)) => Some(Fetched(Push(PyNone), rest))
  {
    hide TakeLine, InterpretLine, InterpretPlain;
  }

  // ---- What each family of instructions does ----

  lemma {:induction false} ExecTuple(n: nat, s: State)
    ensures var popped := PopValues(s.stack, n);
            Exec(TupleOf(n), s)
            == if popped.None? then None
               else Some(s.(stack := popped.value.below + [Val(Tuple(popped.value.values))]))
  {
    hide PopValues;
  }

  lemma {:induction false} ExecMarked(s: State)
    ensures Exec(PushMark, s) == Some(s.(stack := s.stack + [Mark]))
    ensures var popped := PopToMark(s.stack);
            if popped.None? then
              && Exec(MakeList, s) == None && Exec(MakeTuple, s) == None
              && Exec(MakeDict, s) == None && Exec(DropToMark, s) == None
            else
              var Popped(vs, below) := popped.value;
              && Exec(MakeList, s) == Some(s.(stack := below + [Val(List(vs))]))
              && Exec(MakeTuple, s) == Some(s.(stack := below + [Val(Tuple(vs))]))
              && Exec(MakeDict, s)
                 == (if |vs| % 2 != 0 then None else Some(s.(stack := below + [Val(Dict(PairUp(vs)))])))
              && Exec(DropToMark, s) == Some(s.(stack := below))
  {
    hide PopToMark, PairUp;
  }

  lemma {:induction false} ExecGrowOne(s: State)
    ensures var one := PopValues(s.stack, 1);
            Exec(AppendOne, s)
            == if one.None? then None else WithStack(s, Extend(one.value.below, one.value.values))
    ensures var two := PopValues(s.stack, 2);
            Exec(SetOne, s)
            == if two.None? then None else WithStack(s, AddPairs(two.value.below, PairUp(two.value.values)))
  {
    hide PopValues, PairUp, Extend, AddPairs, WithStack;
  }

  lemma {:induction false} ExecGrowMany(s: State)
    ensures var many := PopToMark(s.stack);
            if many.None? then Exec(AppendMany, s) == None && Exec(SetMany, s) == None
            else
              var Popped(vs, below) := many.value;
              && Exec(AppendMany, s) == WithStack(s, Extend(below, vs))
              && Exec(SetMany, s) == if |vs| % 2 != 0 then None else WithStack(s, AddPairs(below, PairUp(vs)))
  {
    hide PopToMark, PairUp, Extend, AddPairs, WithStack;
  }

  lemma {:induction false} ExecReplace(s: State)
    ensures var two := PopValues(s.stack, 2);
            Exec(ReplaceTwoByNone, s)
            == if two.None? then None else Some(s.(stack := two.value.below + [Val(PyNone)]))
  {
    hide PopValues;
  }

  lemma {:induction false} ExecDrop(s: State)
    ensures var one := PopValues(s.stack, 1);
            Exec(DropValue, s) == if one.None? then None else Some(s.(stack := one.value.below))
  {
    hide PopValues;
  }
}
