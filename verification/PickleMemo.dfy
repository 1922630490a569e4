/** What the memo is for: MEMOIZE fills the slots 0, 1, 2, … in order, as numbered PUTs would, and a
    GET pushes what its slot holds; so pickles that name a value again decode to the value named. */
module PickleMemo {
  import opened Bytes
  import opened Common
  import opened PickleMachine
  import opened PickleRoundTrip
  import opened PickleValue

  /** Running `p` from `s`, before `rest`, comes to `rest` in state `s'`. */
  ghost predicate ReachesBefore(pf: FloatParser, p: bytes, s: State, s': State, rest: bytes) {
    Run(pf, p + rest, s) == Run(pf, rest, s')
  }

  /** The same before any bytes. */
  ghost predicate Reaches(pf: FloatParser, p: bytes, s: State, s': State) {
    forall rest: bytes :: ReachesBefore(pf, p, s, s', rest)
  }

  lemma {:induction false} ReachesInOrder(pf: FloatParser, p: bytes, q: bytes, s: State, s1: State, s2: State)
    requires Reaches(pf, p, s, s1) && Reaches(pf, q, s1, s2)
    ensures Reaches(pf, p + q, s, s2)
  {
    hide Run;
    forall rest: bytes
      ensures ReachesBefore(pf, p + q, s, s2, rest)
    {
      assert ReachesBefore(pf, p, s, s1, q + rest) && ReachesBefore(pf, q, s1, s2, rest);
      assert p + q + rest == p + (q + rest);
    }
  }

  lemma {:induction false} PushesReaches(pf: FloatParser, p: bytes, v: Value, s: State)
    requires Pushes(pf, p, [v])
    ensures Reaches(pf, p, s, s.(stack := s.stack + [Val(v)]))
  {
    hide Run;
    assert Vals([v]) == [Val(v)];
    forall rest: bytes
      ensures ReachesBefore(pf, p, s, s.(stack := s.stack + [Val(v)]), rest)
    {
      assert PushesAt(pf, p, [v], rest, s);
    }
  }

  /** An opcode with a fixed-width operand. */
  lemma {:induction false} ReachesFixed(pf: FloatParser, op: byte, payload: bytes, i: Instr, s: State)
    requires OperandFormat(op) == Fixed(|payload|) && Interpret(pf, op, payload) == Some(i)
    requires !i.Stop? && Exec(i, s).Some?
    ensures Reaches(pf, [op] + payload, s, Exec(i, s).value)
  {
    hide Run, Interpret, OperandFormat, Exec;
    forall rest: bytes
      ensures ReachesBefore(pf, [op] + payload, s, Exec(i, s).value, rest)
    {
      RunFixed(pf, op, payload, i, s, rest);
    }
  }

  lemma {:induction false} RunFixed(pf: FloatParser, op: byte, payload: bytes, i: Instr, s: State, rest: bytes)
    requires OperandFormat(op) == Fixed(|payload|) && Interpret(pf, op, payload) == Some(i) && !i.Stop?
    ensures Run(pf, [op] + payload + rest, s)
         == match Exec(i, s) case None => Fail case Some(s') => Run(pf, rest, s')
  {
    hide Run, Interpret, OperandFormat, Exec;
    var b := [op] + payload + rest;
    assert b[1..] == payload + rest;
    TakeExact(payload, rest);
    RunStep(pf, b, i, rest, s);
  }

  lemma {:induction false} ReachesPlain(pf: FloatParser, op: byte, s: State)
    requires HasNoOperand(op) && op != STOP && Exec(InterpretPlain(op), s).Some?
    ensures Reaches(pf, [op], s, Exec(InterpretPlain(op), s).value)
  {
    hide Run, InterpretPlain, Exec;
    forall rest: bytes
      ensures ReachesBefore(pf, [op], s, Exec(InterpretPlain(op), s).value, rest)
    {
      RunPlain(pf, op, rest, s);
    }
  }

  // ---- Writing and reading one slot ----

  /** The ways to write a slot: MEMOIZE numbers it itself; the others carry the number. */
  datatype Style = Numbered | Implicit

  function Save(style: Style, k: nat): bytes {
    match style
    case Implicit => [MEMOIZE]
    case Numbered => if k < 0x100 then [BINPUT, k] else [LONG_BINPUT] + ToLe(k, 4)
  }

  function Get(k: nat): bytes {
    if k < 0x100 then [BINGET, k] else [LONG_BINGET] + ToLe(k, 4)
  }

  lemma {:induction false} SlotNumbers(k: uint32)
    ensures k < 0x100 ==> Unsigned32([k]) == k
    ensures Unsigned32(ToLe(k, 4)) == k
  {
    Pow256Values();
    UnsignedRoundTrip(k, 4);
    assert k < 0x100 ==> FromLe([k]) == k + 256 * FromLe([]);
  }

  lemma {:induction false} SlotOpcodes(pf: FloatParser, payload: bytes)
    ensures |payload| == 1 ==>
              && OperandFormat(BINPUT) == Fixed(1) && Interpret(pf, BINPUT, payload) == Some(Store(Unsigned32(payload)))
              && OperandFormat(BINGET) == Fixed(1) && Interpret(pf, BINGET, payload) == Some(Load(Unsigned32(payload)))
    ensures |payload| == 4 ==>
              && OperandFormat(LONG_BINPUT) == Fixed(4)
              && Interpret(pf, LONG_BINPUT, payload) == Some(Store(Unsigned32(payload)))
              && OperandFormat(LONG_BINGET) == Fixed(4)
              && Interpret(pf, LONG_BINGET, payload) == Some(Load(Unsigned32(payload)))
  {
    hide InterpretLine, InterpretPlain, Unsigned32;
  }

  lemma {:induction false} ExecSave(k: uint32, s: State, below: seq<Item>, v: Value)
    requires s.stack == below + [Val(v)]
    ensures Exec(Store(k), s) == Some(s.(memo := s.memo[k := v]))
    ensures |s.memo| == k ==> Exec(StoreNext, s) == Some(s.(memo := s.memo[k := v]))
  {
    assert Top(s.stack) == Some(v);
  }

  lemma {:induction false} ExecGet(k: uint32, s: State)
    requires k in s.memo
    ensures Exec(Load(k), s) == Some(s.(stack := s.stack + [Val(s.memo[k])]))
  {
  }

  /** With `v` on top and `k` slots filled, saving in either style writes `v` to slot `k`, and so does
      the four-byte form for any `k`. */
  lemma {:induction false} SaveWrites(pf: FloatParser, style: Style, k: uint32, s: State, below: seq<Item>, v: Value)
    requires s.stack == below + [Val(v)] && |s.memo| == k
    ensures Reaches(pf, Save(style, k), s, s.(memo := s.memo[k := v]))
    ensures Reaches(pf, [LONG_BINPUT] + ToLe(k, 4), s, s.(memo := s.memo[k := v]))
  {
    hide Reaches, Exec, Interpret, OperandFormat, Unsigned32, ToLe;
    SlotNumbers(k);
    ExecSave(k, s, below, v);
    SlotOpcodes(pf, ToLe(k, 4));
    ReachesFixed(pf, LONG_BINPUT, ToLe(k, 4), Store(k), s);
    match style
    case Implicit => ReachesPlain(pf, MEMOIZE, s);
    case Numbered =>
      if k < 0x100 {
        SlotOpcodes(pf, [k]);
        ReachesFixed(pf, BINPUT, [k], Store(k), s);
        assert [BINPUT] + [k] == [BINPUT, k];
      }
  }

  /** Reading a filled slot pushes its value, in either width. */
  lemma {:induction false} GetPushes(pf: FloatParser, k: uint32, s: State)
    requires k in s.memo
    ensures Reaches(pf, Get(k), s, s.(stack := s.stack + [Val(s.memo[k])]))
    ensures Reaches(pf, [LONG_BINGET] + ToLe(k, 4), s, s.(stack := s.stack + [Val(s.memo[k])]))
  {
    hide Reaches, Exec, Interpret, OperandFormat, Unsigned32, ToLe;
    SlotNumbers(k);
    ExecGet(k, s);
    SlotOpcodes(pf, ToLe(k, 4));
    ReachesFixed(pf, LONG_BINGET, ToLe(k, 4), Load(k), s);
    if k < 0x100 {
      SlotOpcodes(pf, [k]);
      ReachesFixed(pf, BINGET, [k], Load(k), s);
      assert [BINGET] + [k] == [BINGET, k];
    }
  }

  /** With no value on top there is nothing to save, and an empty slot cannot be read. */
  lemma {:induction false} NothingToSaveOrGet(pf: FloatParser, style: Style, k: uint32, s: State, rest: bytes)
    ensures s.stack == [] || s.stack[|s.stack| - 1].Mark? ==> Run(pf, Save(style, k) + rest, s) == Run(pf, rest, s)
    ensures k !in s.memo ==> Run(pf, Get(k) + rest, s) == Fail
  {
    hide Run, Interpret, Unsigned32, ToLe;
    SlotNumbers(k);
    var payload := if k < 0x100 then [k] else ToLe(k, 4);
    SlotOpcodes(pf, payload);
    RunFixed(pf, if k < 0x100 then BINPUT else LONG_BINPUT, payload, Store(k), s, rest);
    RunFixed(pf, if k < 0x100 then BINGET else LONG_BINGET, payload, Load(k), s, rest);
    RunPlain(pf, MEMOIZE, rest, s);
    assert [BINPUT] + [k] == [BINPUT, k] && [BINGET] + [k] == [BINGET, k];
  }

  /** MEMOIZE does what a PUT with the number of filled slots does, whatever those slots are. */
  lemma {:induction false} MemoizeIsPut(pf: FloatParser, p: bytes, v: Value, s: State, rest: bytes)
    requires Pushes(pf, p, [v]) && |s.memo| < TWO_32
    ensures var k := |s.memo|;
            && (k < 0x100 ==> Run(pf, p + [MEMOIZE] + rest, s) == Run(pf, p + [BINPUT, k] + rest, s))
            && Run(pf, p + [MEMOIZE] + rest, s) == Run(pf, p + ([LONG_BINPUT] + ToLe(k, 4)) + rest, s)
  {
    hide Run, Reaches, Pushes;
    var k := |s.memo|;
    var pushed := s.(stack := s.stack + [Val(v)]);
    var saved := pushed.(memo := s.memo[k := v]);
    PushesReaches(pf, p, v, s);
    SaveWrites(pf, Implicit, k, pushed, s.stack, v);
    SaveWrites(pf, Numbered, k, pushed, s.stack, v);
    ReachesInOrder(pf, p, [MEMOIZE], s, pushed, saved);
    ReachesInOrder(pf, p, Save(Numbered, k), s, pushed, saved);
    ReachesInOrder(pf, p, [LONG_BINPUT] + ToLe(k, 4), s, pushed, saved);
    At(pf, p + [MEMOIZE], s, saved, rest);
    At(pf, p + Save(Numbered, k), s, saved, rest);
    At(pf, p + ([LONG_BINPUT] + ToLe(k, 4)), s, saved, rest);
  }

  lemma {:induction false} At(pf: FloatParser, p: bytes, s: State, s': State, rest: bytes)
    requires Reaches(pf, p, s, s')
    ensures Run(pf, p + rest, s) == Run(pf, rest, s')
  {
    hide Run;
    assert ReachesBefore(pf, p, s, s', rest);
  }

  /** A value that is memoized and named again is on the stack twice, and in the next slot. */
  lemma {:induction false} MemoizeThenGet(pf: FloatParser, p: bytes, v: Value, s: State, rest: bytes)
    requires Pushes(pf, p, [v]) && |s.memo| < TWO_32
    ensures var k := |s.memo|;
            var twice := State(s.stack + [Val(v), Val(v)], s.memo[k := v]);
            && (k < 0x100 ==> Run(pf, p + [MEMOIZE] + [BINGET, k] + rest, s) == Run(pf, rest, twice))
            && Run(pf, p + [MEMOIZE] + ([LONG_BINGET] + ToLe(k, 4)) + rest, s) == Run(pf, rest, twice)
  {
    hide Run, Reaches, Pushes;
    var k := |s.memo|;
    var pushed := s.(stack := s.stack + [Val(v)]);
    var saved := pushed.(memo := s.memo[k := v]);
    var twice := State(s.stack + [Val(v), Val(v)], s.memo[k := v]);
    assert saved.stack + [Val(v)] == twice.stack;
    PushesReaches(pf, p, v, s);
    SaveWrites(pf, Implicit, k, pushed, s.stack, v);
    GetPushes(pf, k, saved);
    ReachesInOrder(pf, p, [MEMOIZE], s, pushed, saved);
    ReachesInOrder(pf, p + [MEMOIZE], Get(k), s, saved, twice);
    ReachesInOrder(pf, p + [MEMOIZE], [LONG_BINGET] + ToLe(k, 4), s, saved, twice);
    At(pf, p + [MEMOIZE] + Get(k), s, twice, rest);
    At(pf, p + [MEMOIZE] + ([LONG_BINGET] + ToLe(k, 4)), s, twice, rest);
  }

  // ---- Pickles with sharing ----

  /** How a pickler spells a value: a program of its own; a value memoized once it is complete; the
      `j`-th memoized value again; or a container of spellings. As Python does, a list or a dict
      is memoized, if at all, while it is still empty. */
  datatype Node =
    | Plain(code: bytes, v: Value)
    | Saved(node: Node)
    | Again(j: nat)
    | ListOf(saved: bool, items: seq<Node>)
    | DictOf(saved: bool, items: seq<Node>)
    | TupleOf(items: seq<Node>)

  /** What a spelling denotes, and all values memoized by its end, in order. */
  datatype Meaning<+T> = Meaning(v: T, memo: seq<Value>)

  function MeaningOf(n: Node, memo: seq<Value>): (r: Option<Meaning<Value>>)
    decreases n
  {
    match n
    case Plain(_, v) => Some(Meaning(v, memo))
    case Saved(node) =>
      (match MeaningOf(node, memo)
       case None => None
       case Some(m) => Some(Meaning(m.v, m.memo + [m.v])))
    case Again(j) => if j < |memo| then Some(Meaning(memo[j], memo)) else None
    case ListOf(saved, items) =>
      (match MeaningOfAll(items, if saved then memo + [List([])] else memo)
       case None => None
       case Some(m) => Some(Meaning(List(m.v), m.memo)))
    case DictOf(saved, items) =>
      (match MeaningOfAll(items, if saved then memo + [Dict([])] else memo)
       case None => None
       case Some(m) => if |m.v| % 2 != 0 then None else Some(Meaning(Dict(PairUp(m.v)), m.memo)))
    case TupleOf(items) =>
      (match MeaningOfAll(items, memo)
       case None => None
       case Some(m) => Some(Meaning(Tuple(m.v), m.memo)))
  }

  function MeaningOfAll(ns: seq<Node>, memo: seq<Value>): (r: Option<Meaning<seq<Value>>>)
    decreases ns
  {
    if ns == [] then Some(Meaning([], memo))
    else
      match MeaningOfAll(ns[..|ns| - 1], memo)
      case None => None
      case Some(before) =>
        match MeaningOf(ns[|ns| - 1], before.memo)
        case None => None
        case Some(m) => Some(Meaning(before.v + [m.v], m.memo))
  }

  /** How many values a spelling memoizes. */
  function Saves(n: Node): nat
    decreases n
  {
    match n
    case Plain(_, _) => 0
    case Saved(node) => Saves(node) + 1
    case Again(_) => 0
    case ListOf(saved, items) => (if saved then 1 else 0) + SavesAll(items)
    case DictOf(saved, items) => (if saved then 1 else 0) + SavesAll(items)
    case TupleOf(items) => SavesAll(items)
  }

  function SavesAll(ns: seq<Node>): nat
    decreases ns
  {
    if ns == [] then 0 else SavesAll(ns[..|ns| - 1]) + Saves(ns[|ns| - 1])
  }

  /** The program of a spelling that starts with `k` values memoized. */
  function Program(style: Style, n: Node, k: nat): bytes
    decreases n
  {
    match n
    case Plain(code, _) => code
    case Saved(node) => Program(style, node, k) + Save(style, k + Saves(node))
    case Again(j) => Get(j)
    case ListOf(saved, items) =>
      [EMPTY_LIST] + (if saved then Save(style, k) else []) + [MARK]
        + ProgramAll(style, items, if saved then k + 1 else k) + [APPENDS]
    case DictOf(saved, items) =>
      [EMPTY_DICT] + (if saved then Save(style, k) else []) + [MARK]
        + ProgramAll(style, items, if saved then k + 1 else k) + [SETITEMS]
    case TupleOf(items) => [MARK] + ProgramAll(style, items, k) + [TUPLE]
  }

  function ProgramAll(style: Style, ns: seq<Node>, k: nat): bytes
    decreases ns
  {
    if ns == [] then []
    else
      var init := ns[..|ns| - 1];
      ProgramAll(style, init, k) + Program(style, ns[|ns| - 1], k + SavesAll(init))
  }

  /** Every program in the spelling pushes the value it is said to. */
  ghost predicate Sound(pf: FloatParser, n: Node)
    decreases n
  {
    match n
    case Plain(code, v) => Pushes(pf, code, [v])
    case Saved(node) => Sound(pf, node)
    case Again(_) => true
    case ListOf(_, items) => forall i :: 0 <= i < |items| ==> Sound(pf, items[i])
    case DictOf(_, items) => forall i :: 0 <= i < |items| ==> Sound(pf, items[i])
    case TupleOf(items) => forall i :: 0 <= i < |items| ==> Sound(pf, items[i])
  }

  /** The memo whose slots 0, 1, 2, … hold these values. */
  function MemoOf(vs: seq<Value>): (m: map<uint32, Value>) {
    map k: uint32 | 0 <= k < |vs| :: vs[k]
  }

  lemma {:induction false} MemoGrows(vs: seq<Value>, v: Value)
    requires |vs| < TWO_32
    ensures |MemoOf(vs)| == |vs| && MemoOf(vs + [v]) == MemoOf(vs)[|vs| := v]
  {
    var k: uint32 := |vs|;
    assert MemoOf(vs + [v]) == MemoOf(vs)[k := v];
    if vs == [] {
      assert MemoOf(vs) == map[];
    } else {
      var init, last := vs[..|vs| - 1], vs[|vs| - 1];
      MemoGrows(init, last);
      assert init + [last] == vs;
      var j: uint32 := |init|;
      assert j !in MemoOf(init);
      assert |MemoOf(init)[j := last]| == |MemoOf(init)| + 1;
    }
  }

  /** The state after a spelling that denotes `v` has run from `s`. */
  function After(s: State, v: Value, memo: seq<Value>): State {
    State(s.stack + [Val(v)], MemoOf(memo))
  }

  lemma {:induction false} MemoCounts(n: Node, memo: seq<Value>)
    requires MeaningOf(n, memo).Some?
    ensures |MeaningOf(n, memo).value.memo| == |memo| + Saves(n)
    decreases n
  {
    match n
    case Plain(_, _) =>
    case Saved(node) => MemoCounts(node, memo);
    case Again(_) =>
    case ListOf(saved, items) => MemoCountsAll(items, if saved then memo + [List([])] else memo);
    case DictOf(saved, items) => MemoCountsAll(items, if saved then memo + [Dict([])] else memo);
    case TupleOf(items) => MemoCountsAll(items, memo);
  }

  lemma {:induction false} MemoCountsAll(ns: seq<Node>, memo: seq<Value>)
    requires MeaningOfAll(ns, memo).Some?
    ensures |MeaningOfAll(ns, memo).value.memo| == |memo| + SavesAll(ns)
    ensures |MeaningOfAll(ns, memo).value.v| == |ns|
    decreases ns
  {
    if ns == [] {
    } else {
      var init := ns[..|ns| - 1];
      MemoCountsAll(init, memo);
      MemoCounts(ns[|ns| - 1], MeaningOfAll(init, memo).value.memo);
    }
  }

  /** A spelling's program, run with the memoized values in their slots, pushes what the spelling
      denotes and adds what it memoizes. */
  lemma {:induction false} ProgramMeans(pf: FloatParser, style: Style, n: Node, memo: seq<Value>, s: State)
    requires Sound(pf, n) && MeaningOf(n, memo).Some?
    requires s.memo == MemoOf(memo) && |memo| + Saves(n) <= TWO_32
    ensures var m := MeaningOf(n, memo).value;
            Reaches(pf, Program(style, n, |memo|), s, After(s, m.v, m.memo))
    decreases n, 0
  {
    hide Run, Reaches, Pushes, PairUp, Get, Save;
    match n
    case Plain(code, v) => PushesReaches(pf, code, v, s);
    case Saved(node) =>
      ProgramMeans(pf, style, node, memo, s);
      MemoCounts(node, memo);
      SavedMeans(pf, style, Program(style, node, |memo|), MeaningOf(node, memo).value, s);
    case Again(j) =>
      var k: uint32 := j;
      assert k in s.memo;
      GetPushes(pf, k, s);
    case ListOf(saved, items) =>
      ContainerMeans(pf, style, EMPTY_LIST, saved, items, APPENDS, memo, s);
    case DictOf(saved, items) =>
      ContainerMeans(pf, style, EMPTY_DICT, saved, items, SETITEMS, memo, s);
    case TupleOf(items) =>
      MarkedMeans(pf, style, items, TUPLE, memo, s);
  }

  lemma {:induction false} SavedMeans(pf: FloatParser, style: Style, p: bytes, m: Meaning<Value>, s: State)
    requires Reaches(pf, p, s, After(s, m.v, m.memo)) && |m.memo| < TWO_32
    ensures Reaches(pf, p + Save(style, |m.memo|), s, After(s, m.v, m.memo + [m.v]))
  {
    hide Run, Reaches, Save, MemoOf;
    MemoGrows(m.memo, m.v);
    SaveWrites(pf, style, |m.memo|, After(s, m.v, m.memo), s.stack, m.v);
    ReachesInOrder(pf, p, Save(style, |m.memo|), s, After(s, m.v, m.memo), After(s, m.v, m.memo + [m.v]));
  }

  lemma {:induction false} ProgramAllMeans(pf: FloatParser, style: Style, ns: seq<Node>, memo: seq<Value>, s: State)
    requires (forall i :: 0 <= i < |ns| ==> Sound(pf, ns[i])) && MeaningOfAll(ns, memo).Some?
    requires s.memo == MemoOf(memo) && |memo| + SavesAll(ns) <= TWO_32
    ensures var m := MeaningOfAll(ns, memo).value;
            Reaches(pf, ProgramAll(style, ns, |memo|), s, State(s.stack + Vals(m.v), MemoOf(m.memo)))
    decreases ns, 0
  {
    hide Run, Sound, Vals;
    if ns == [] {
      assert s.stack + Vals([]) == s.stack;
      assert forall rest: bytes :: [] + rest == rest;
    } else {
      hide Reaches;
      var init, last := ns[..|ns| - 1], ns[|ns| - 1];
      ProgramAllMeans(pf, style, init, memo, s);
      MemoCountsAll(init, memo);
      var before := MeaningOfAll(init, memo).value;
      var middle := State(s.stack + Vals(before.v), MemoOf(before.memo));
      ProgramMeans(pf, style, last, before.memo, middle);
      var m := MeaningOf(last, before.memo).value;
      var end := After(middle, m.v, m.memo);
      assert Vals(before.v + [m.v]) == Vals(before.v) + [Val(m.v)];
      assert end.stack == s.stack + Vals(before.v + [m.v]);
      ReachesInOrder(pf, ProgramAll(style, init, |memo|), Program(style, last, |before.memo|), s, middle, end);
    }
  }

  /** An opcode that takes everything above the mark. */
  lemma {:induction false} TakesAll(op: byte, stack: seq<Item>, vs: seq<Value>, full: State)
    requires full.stack == stack + [Mark] + Vals(vs) && op in {TUPLE, APPENDS, SETITEMS}
    requires op == APPENDS ==> stack != [] && stack[|stack| - 1] == Val(List([]))
    requires op == SETITEMS ==> stack != [] && stack[|stack| - 1] == Val(Dict([])) && |vs| % 2 == 0
    ensures var below := if op == TUPLE then stack else stack[..|stack| - 1];
            var v := if op == TUPLE then Tuple(vs) else if op == APPENDS then List(vs) else Dict(PairUp(vs));
            Exec(InterpretPlain(op), full) == Some(full.(stack := below + [Val(v)]))
  {
    hide Vals, PairUp, PopToMark, Exec;
    PopToMarkFinds(stack, vs);
    ExecMarked(full);
    ExecGrowMany(full);
    assert [] + vs == vs && [] + PairUp(vs) == PairUp(vs);
  }

  /** MARK, the items, and an opcode that takes all of them. */
  lemma {:induction false} MarkedMeans(
      pf: FloatParser, style: Style, items: seq<Node>, op: byte, memo: seq<Value>, s: State)
    requires (forall i :: 0 <= i < |items| ==> Sound(pf, items[i])) && MeaningOfAll(items, memo).Some?
    requires s.memo == MemoOf(memo) && |memo| + SavesAll(items) <= TWO_32
    requires op in {TUPLE, APPENDS, SETITEMS}
    requires op == APPENDS ==> s.stack != [] && s.stack[|s.stack| - 1] == Val(List([]))
    requires op == SETITEMS ==> s.stack != [] && s.stack[|s.stack| - 1] == Val(Dict([]))
                                && |MeaningOfAll(items, memo).value.v| % 2 == 0
    ensures var m := MeaningOfAll(items, memo).value;
            var below := if op == TUPLE then s.stack else s.stack[..|s.stack| - 1];
            var v := if op == TUPLE then Tuple(m.v) else if op == APPENDS then List(m.v) else Dict(PairUp(m.v));
            Reaches(pf, [MARK] + ProgramAll(style, items, |memo|) + [op], s, State(below + [Val(v)], MemoOf(m.memo)))
    decreases items, 1
  {
    hide Run, Reaches, Sound, Vals, PairUp, PopToMark, Exec, InterpretPlain;
    var marked := s.(stack := s.stack + [Mark]);
    var m := MeaningOfAll(items, memo).value;
    var full := State(marked.stack + Vals(m.v), MemoOf(m.memo));
    ExecMarked(s);
    assert InterpretPlain(MARK) == PushMark by { MarkMeaning(); }
    ReachesPlain(pf, MARK, s);
    ProgramAllMeans(pf, style, items, memo, marked);
    ReachesInOrder(pf, [MARK], ProgramAll(style, items, |memo|), s, marked, full);
    TakesAll(op, s.stack, m.v, full);
    ReachesPlain(pf, op, full);
    ReachesInOrder(
      pf, [MARK] + ProgramAll(style, items, |memo|), [op], s, full, Exec(InterpretPlain(op), full).value);
  }

  lemma {:induction false} MarkMeaning()
    ensures InterpretPlain(MARK) == PushMark
  {
  }

  function Unfilled(op: byte): Value { if op == APPENDS then List([]) else Dict([]) }

  /** An empty container, memoized or not, that is then filled. */
  lemma {:induction false} ContainerMeans(
      pf: FloatParser, style: Style, empty: byte, saved: bool, items: seq<Node>, op: byte, memo: seq<Value>, s: State)
    requires (empty == EMPTY_LIST && op == APPENDS) || (empty == EMPTY_DICT && op == SETITEMS)
    requires forall i :: 0 <= i < |items| ==> Sound(pf, items[i])
    requires var m := MeaningOfAll(items, if saved then memo + [Unfilled(op)] else memo);
             m.Some? && (op == SETITEMS ==> |m.value.v| % 2 == 0)
    requires s.memo == MemoOf(memo) && |memo| + (if saved then 1 else 0) + SavesAll(items) <= TWO_32
    ensures var memo' := if saved then memo + [Unfilled(op)] else memo;
            var m := MeaningOfAll(items, memo').value;
            var v := if op == APPENDS then List(m.v) else Dict(PairUp(m.v));
            Reaches(pf, [empty] + (if saved then Save(style, |memo|) else []) + [MARK]
                        + ProgramAll(style, items, |memo'|) + [op],
                    s, After(s, v, m.memo))
    decreases items, 2
  {
    hide Run, Reaches, Sound, Vals, PairUp, PopToMark, Exec;
    var v := Unfilled(op);
    var pushed := s.(stack := s.stack + [Val(v)]);
    var memo' := if saved then memo + [v] else memo;
    var save := if saved then Save(style, |memo|) else [];
    var ready := pushed.(memo := MemoOf(memo'));
    assert Exec(Push(v), s) == Some(pushed) by { ExecPush(v, s); }
    ReachesPlain(pf, empty, s);
    if saved {
      MemoGrows(memo, v);
      SaveWrites(pf, style, |memo|, pushed, s.stack, v);
      ReachesInOrder(pf, [empty], save, s, pushed, ready);
    } else {
      assert [empty] + save == [empty];
    }
    MarkedMeans(pf, style, items, op, memo', ready);
    assert ready.stack[..|ready.stack| - 1] == s.stack;
    var fill := [MARK] + ProgramAll(style, items, |memo'|) + [op];
    var m := MeaningOfAll(items, memo').value;
    ReachesInOrder(pf, [empty] + save, fill, s, ready,
                   After(s, if op == APPENDS then List(m.v) else Dict(PairUp(m.v)), m.memo));
    assert [empty] + save + [MARK] + ProgramAll(style, items, |memo'|) + [op] == [empty] + save + fill;
  }

  lemma {:induction false} ExecPush(v: Value, s: State)
    ensures Exec(Push(v), s) == Some(s.(stack := s.stack + [Val(v)]))
  {
  }

  /** A pickle that shares values decodes to what it denotes: the `j`-th value memoized is what every
      reference to `j` stands for, whether the slots are numbered by MEMOIZE or by PUTs. */
  lemma {:induction false} SharedPickleDecodes(pf: FloatParser, style: Style, n: Node)
    requires Sound(pf, n) && MeaningOf(n, []).Some? && Saves(n) <= TWO_32
    ensures Deserialize(pf, [PROTO, 2] + (Program(style, n, 0) + [STOP])) == Ok(MeaningOf(n, []).value.v)
  {
    hide Run, Reaches, Sound;
    var p, m := Program(style, n, 0), MeaningOf(n, []).value;
    assert EMPTY_STATE.memo == MemoOf([]);
    ProgramMeans(pf, style, n, [], EMPTY_STATE);
    RunHeader(pf, p + [STOP], EMPTY_STATE);
    At(pf, p, EMPTY_STATE, After(EMPTY_STATE, m.v, m.memo), [STOP]);
    var end := After(EMPTY_STATE, m.v, m.memo);
    RunStop(pf, [], end);
    assert [STOP] + [] == [STOP];
  }
}
