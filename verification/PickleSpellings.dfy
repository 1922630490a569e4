/** The container opcodes agree: however a pickler spells a list, a dict or a tuple, the machine
    builds the same value (PEP 307, "Pickling of large lists and dicts", "Pickling small tuples"). */
module PickleSpellings {
  import opened Bytes
  import opened Common
  import opened PickleMachine
  import opened PickleRoundTrip
  import opened PickleValue

  /** A program that pushes one value, with that value. */
  datatype Prog = Prog(code: bytes, v: Value)

  ghost predicate Sound(pf: FloatParser, items: seq<Prog>) {
    forall i :: 0 <= i < |items| ==> Pushes(pf, items[i].code, [items[i].v])
  }

  function Code(items: seq<Prog>): bytes {
    if items == [] then [] else Code(items[..|items| - 1]) + items[|items| - 1].code
  }

  function Values(items: seq<Prog>): (vs: seq<Value>)
    ensures |vs| == |items|
  {
    seq(|items|, i requires 0 <= i < |items| => items[i].v)
  }

  lemma {:induction false} CodePushes(pf: FloatParser, items: seq<Prog>)
    requires Sound(pf, items)
    ensures Pushes(pf, Code(items), Values(items))
    decreases |items|
  {
    hide Pushes;
    if items == [] {
      PushesNothing(pf);
    } else {
      var init, last := items[..|items| - 1], items[|items| - 1];
      CodePushes(pf, init);
      PushesInOrder(pf, Code(init), Values(init), last.code, [last.v]);
      assert Values(init) + [last.v] == Values(items);
    }
  }

  // ---- Lists ----

  /** One step of filling a list: an item and APPEND, or MARK, a batch of items and APPENDS. */
  datatype ListStep = One(prog: Prog) | Batch(items: seq<Prog>)

  function StepItems(c: ListStep): seq<Prog> {
    match c case One(prog) => [prog] case Batch(items) => items
  }

  function StepCode(c: ListStep): bytes {
    match c
    case One(prog) => prog.code + [APPEND]
    case Batch(items) => [MARK] + Code(items) + [APPENDS]
  }

  /** EMPTY_LIST followed by any mixture of steps, empty batches included. */
  function ListCode(steps: seq<ListStep>): bytes {
    if steps == [] then [EMPTY_LIST] else ListCode(steps[..|steps| - 1]) + StepCode(steps[|steps| - 1])
  }

  function ListItems(steps: seq<ListStep>): seq<Prog> {
    if steps == [] then [] else ListItems(steps[..|steps| - 1]) + StepItems(steps[|steps| - 1])
  }

  lemma {:induction false} PushesAppend(pf: FloatParser, p: bytes, vs: seq<Value>, q: bytes, w: Value)
    requires Pushes(pf, p, [List(vs)]) && Pushes(pf, q, [w])
    ensures Pushes(pf, p + q + [APPEND], [List(vs + [w])])
  {
    hide Run, PopValues;
    forall rest: bytes, s: State
      ensures PushesAt(pf, p + q + [APPEND], [List(vs + [w])], rest, s)
    {
      RunTwo(pf, p, List(vs), q, w, APPEND, rest, s);
      OnTop(s.stack, List(vs));
      PopValuesFinds(s.stack + Vals([List(vs)]), [w]);
      AtResult(pf, p + q + [APPEND], List(vs + [w]), rest, s);
    }
  }

  lemma {:induction false} RunTwo(
      pf: FloatParser, p: bytes, v: Value, q: bytes, w: Value, op: byte, rest: bytes, s: State)
    requires Pushes(pf, p, [v]) && Pushes(pf, q, [w])
    requires OperandFormat(op) == Fixed(0) && !InterpretPlain(op).Stop?
    ensures Run(pf, p + q + [op] + rest, s)
         == match Exec(InterpretPlain(op), s.(stack := s.stack + Vals([v]) + Vals([w])))
            case None => Fail
            case Some(s') => Run(pf, rest, s')
  {
    hide Run, OperandFormat, InterpretPlain, Exec;
    assert p + q + [op] + rest == p + (q + ([op] + rest));
    assert PushesAt(pf, p, [v], q + ([op] + rest), s);
    var s1 := s.(stack := s.stack + Vals([v]));
    assert PushesAt(pf, q, [w], [op] + rest, s1);
    RunPlain(pf, op, rest, s1.(stack := s1.stack + Vals([w])));
  }

  lemma {:induction false} ListStepPushes(pf: FloatParser, p: bytes, vs: seq<Value>, step: ListStep)
    requires Pushes(pf, p, [List(vs)]) && Sound(pf, StepItems(step))
    ensures Pushes(pf, p + StepCode(step), [List(vs + Values(StepItems(step)))])
  {
    hide Pushes, Code;
    match step
    case One(prog) =>
      assert Pushes(pf, StepItems(step)[0].code, [prog.v]);
      assert Values(StepItems(step)) == [prog.v];
      PushesAppend(pf, p, vs, prog.code, prog.v);
      assert p + prog.code + [APPEND] == p + StepCode(step);
    case Batch(items) =>
      CodePushes(pf, items);
      PushesAppends(pf, p, vs, Code(items), Values(items));
      assert p + [MARK] + Code(items) + [APPENDS] == p + StepCode(step);
  }

  lemma {:induction false} ListCodePushes(pf: FloatParser, steps: seq<ListStep>)
    requires Sound(pf, ListItems(steps))
    ensures Pushes(pf, ListCode(steps), [List(Values(ListItems(steps)))])
    decreases |steps|
  {
    hide Pushes, StepCode, StepItems, Sound;
    if steps == [] {
      PushPlain(pf, EMPTY_LIST, List([]));
      assert Values([]) == [];
    } else {
      var init, last := steps[..|steps| - 1], steps[|steps| - 1];
      var before, added := ListItems(init), StepItems(last);
      SoundParts(pf, before, added);
      ListCodePushes(pf, init);
      ListStepPushes(pf, ListCode(init), Values(before), last);
      assert Values(before + added) == Values(before) + Values(added);
    }
  }

  lemma {:induction false} SoundParts(pf: FloatParser, a: seq<Prog>, b: seq<Prog>)
    requires Sound(pf, a + b)
    ensures Sound(pf, a) && Sound(pf, b)
  {
    hide Pushes;
    assert forall i :: 0 <= i < |a| ==> (a + b)[i] == a[i];
    assert forall i :: 0 <= i < |b| ==> (a + b)[|a| + i] == b[i];
  }

  /** MARK…LIST and EMPTY_LIST with any batching of APPEND and APPENDS push the same list. */
  lemma {:induction false} ListSpellingsAgree(pf: FloatParser, items: seq<Prog>, steps: seq<ListStep>)
    requires Sound(pf, items) && ListItems(steps) == items
    ensures Pushes(pf, [MARK] + Code(items) + [LIST], [List(Values(items))])
    ensures Pushes(pf, ListCode(steps), [List(Values(items))])
  {
    hide Pushes;
    ListCodePushes(pf, steps);
    CodePushes(pf, items);
    PushesMarked(pf, Code(items), Values(items), LIST, List(Values(items)));
  }

  // ---- Tuples ----

  /** Where TUPLE1, TUPLE2 or TUPLE3 applies it does what MARK…TUPLE does. */
  lemma {:induction false} TupleSpellingsAgree(pf: FloatParser, items: seq<Prog>)
    requires Sound(pf, items)
    ensures Pushes(pf, [MARK] + Code(items) + [TUPLE], [Tuple(Values(items))])
    ensures |items| == 0 ==> Pushes(pf, [EMPTY_TUPLE], [Tuple(Values(items))])
    ensures |items| == 1 ==> Pushes(pf, Code(items) + [TUPLE1], [Tuple(Values(items))])
    ensures |items| == 2 ==> Pushes(pf, Code(items) + [TUPLE2], [Tuple(Values(items))])
    ensures |items| == 3 ==> Pushes(pf, Code(items) + [TUPLE3], [Tuple(Values(items))])
  {
    hide Pushes, Code;
    CodePushes(pf, items);
    PushesMarked(pf, Code(items), Values(items), TUPLE, Tuple(Values(items)));
    if |items| == 0 {
      PushPlain(pf, EMPTY_TUPLE, Tuple([]));
      assert Values(items) == [];
    } else if |items| <= 3 {
      PushesSmallTuple(pf, Code(items), Values(items),
                       if |items| == 1 then TUPLE1 else if |items| == 2 then TUPLE2 else TUPLE3);
    }
  }

  // ---- Dicts ----

  datatype Entry = Entry(key: Prog, val: Prog)

  datatype DictStep = OneEntry(entry: Entry) | EntryBatch(entries: seq<Entry>)

  /** The key and value programs in the order a pickler writes them. */
  function EntryItems(entries: seq<Entry>): (items: seq<Prog>)
    ensures |items| == 2 * |entries|
  {
    if entries == [] then []
    else EntryItems(entries[..|entries| - 1]) + [entries[|entries| - 1].key, entries[|entries| - 1].val]
  }

  function Pairs(entries: seq<Entry>): (ps: seq<Pair>)
    ensures |ps| == |entries|
  {
    seq(|entries|, i requires 0 <= i < |entries| => Pair(entries[i].key.v, entries[i].val.v))
  }

  lemma {:induction false} PairsOfEntries(entries: seq<Entry>)
    ensures PairUp(Values(EntryItems(entries))) == Pairs(entries)
  {
    if entries == [] {
    } else {
      var init, last := entries[..|entries| - 1], entries[|entries| - 1];
      PairsOfEntries(init);
      var vs := Values(EntryItems(init));
      assert Values(EntryItems(entries)) == vs + [last.key.v, last.val.v];
      forall i | 0 <= i < |init|
        ensures PairUp(vs + [last.key.v, last.val.v])[i] == Pairs(entries)[i]
      {
        assert PairUp(vs)[i] == Pairs(init)[i];
      }
    }
  }

  function DictStepEntries(c: DictStep): seq<Entry> {
    match c case OneEntry(e) => [e] case EntryBatch(entries) => entries
  }

  function DictStepCode(c: DictStep): bytes {
    match c
    case OneEntry(e) => e.key.code + e.val.code + [SETITEM]
    case EntryBatch(entries) => [MARK] + Code(EntryItems(entries)) + [SETITEMS]
  }

  /** EMPTY_DICT followed by any mixture of SETITEM and SETITEMS. */
  function DictCode(steps: seq<DictStep>): bytes {
    if steps == [] then [EMPTY_DICT]
    else DictCode(steps[..|steps| - 1]) + DictStepCode(steps[|steps| - 1])
  }

  function DictEntries(steps: seq<DictStep>): seq<Entry> {
    if steps == [] then []
    else DictEntries(steps[..|steps| - 1]) + DictStepEntries(steps[|steps| - 1])
  }

  ghost predicate SoundEntries(pf: FloatParser, entries: seq<Entry>) {
    forall i :: 0 <= i < |entries| ==>
      Pushes(pf, entries[i].key.code, [entries[i].key.v]) &&
      Pushes(pf, entries[i].val.code, [entries[i].val.v])
  }

  lemma {:induction false} SoundEntryItems(pf: FloatParser, entries: seq<Entry>)
    requires SoundEntries(pf, entries)
    ensures Sound(pf, EntryItems(entries))
    decreases |entries|
  {
    hide Pushes;
    if entries == [] {
    } else {
      SoundEntryItems(pf, entries[..|entries| - 1]);
    }
  }

  lemma {:induction false} PushesSetItem(pf: FloatParser, p: bytes, ps: seq<Pair>, e: Entry)
    requires Pushes(pf, p, [Dict(ps)])
    requires Pushes(pf, e.key.code, [e.key.v]) && Pushes(pf, e.val.code, [e.val.v])
    ensures Pushes(pf, p + (e.key.code + e.val.code + [SETITEM]), [Dict(ps + [Pair(e.key.v, e.val.v)])])
  {
    hide Run, PopValues, PushesAt;
    var code := p + (e.key.code + e.val.code + [SETITEM]);
    PushesInOrder(pf, p, [Dict(ps)], e.key.code, [e.key.v]);
    PushesInOrder(pf, p + e.key.code, [Dict(ps)] + [e.key.v], e.val.code, [e.val.v]);
    var kv := [e.key.v, e.val.v];
    var vs := [Dict(ps)] + [e.key.v] + [e.val.v];
    forall rest: bytes, s: State
      ensures PushesAt(pf, code, [Dict(ps + [Pair(e.key.v, e.val.v)])], rest, s)
    {
      assert code + rest == p + e.key.code + e.val.code + ([SETITEM] + rest);
      UseAt(pf, p + e.key.code + e.val.code, vs, [SETITEM] + rest, s);
      var below := s.stack + Vals([Dict(ps)]);
      assert s.stack + Vals(vs) == below + Vals(kv);
      RunPlain(pf, SETITEM, rest, s.(stack := below + Vals(kv)));
      PopValuesFinds(below, kv);
      assert PairUp(kv) == [Pair(e.key.v, e.val.v)];
      OnTop(s.stack, Dict(ps));
      AtResult(pf, code, Dict(ps + [Pair(e.key.v, e.val.v)]), rest, s);
    }
  }

  lemma {:induction false} UseAt(pf: FloatParser, p: bytes, vs: seq<Value>, rest: bytes, s: State)
    requires Pushes(pf, p, vs)
    ensures Run(pf, p + rest, s) == Run(pf, rest, s.(stack := s.stack + Vals(vs)))
  {
    hide Run;
    assert PushesAt(pf, p, vs, rest, s);
  }

  lemma {:induction false} DictStepPushes(pf: FloatParser, p: bytes, ps: seq<Pair>, step: DictStep)
    requires Pushes(pf, p, [Dict(ps)]) && SoundEntries(pf, DictStepEntries(step))
    ensures Pushes(pf, p + DictStepCode(step), [Dict(ps + Pairs(DictStepEntries(step)))])
  {
    hide Pushes, Code, EntryItems;
    match step
    case OneEntry(e) =>
      assert DictStepEntries(step)[0] == e;
      assert Pairs([e]) == [Pair(e.key.v, e.val.v)];
      PushesSetItem(pf, p, ps, e);
    case EntryBatch(entries) =>
      SoundEntryItems(pf, entries);
      CodePushes(pf, EntryItems(entries));
      PairsOfEntries(entries);
      PushesSetItems(pf, p, ps, Code(EntryItems(entries)), Values(EntryItems(entries)));
      assert p + [MARK] + Code(EntryItems(entries)) + [SETITEMS] == p + DictStepCode(step);
  }

  lemma {:induction false} DictCodePushes(pf: FloatParser, steps: seq<DictStep>)
    requires SoundEntries(pf, DictEntries(steps))
    ensures Pushes(pf, DictCode(steps), [Dict(Pairs(DictEntries(steps)))])
    decreases |steps|
  {
    hide Pushes, DictStepCode, DictStepEntries, SoundEntries;
    if steps == [] {
      PushPlain(pf, EMPTY_DICT, Dict([]));
      assert Pairs([]) == [];
    } else {
      var init, last := steps[..|steps| - 1], steps[|steps| - 1];
      var before, added := DictEntries(init), DictStepEntries(last);
      SoundEntriesParts(pf, before, added);
      DictCodePushes(pf, init);
      DictStepPushes(pf, DictCode(init), Pairs(before), last);
      assert Pairs(before + added) == Pairs(before) + Pairs(added);
    }
  }

  lemma {:induction false} SoundEntriesParts(pf: FloatParser, a: seq<Entry>, b: seq<Entry>)
    requires SoundEntries(pf, a + b)
    ensures SoundEntries(pf, a) && SoundEntries(pf, b)
  {
    hide Pushes;
    assert forall i :: 0 <= i < |a| ==> (a + b)[i] == a[i];
    assert forall i :: 0 <= i < |b| ==> (a + b)[|a| + i] == b[i];
  }

  /** MARK…DICT and EMPTY_DICT with any batching of SETITEM and SETITEMS push the same dict. */
  lemma {:induction false} DictSpellingsAgree(pf: FloatParser, entries: seq<Entry>, steps: seq<DictStep>)
    requires SoundEntries(pf, entries) && DictEntries(steps) == entries
    ensures Pushes(pf, [MARK] + Code(EntryItems(entries)) + [DICT], [Dict(Pairs(entries))])
    ensures Pushes(pf, DictCode(steps), [Dict(Pairs(entries))])
  {
    hide Pushes;
    DictCodePushes(pf, steps);
    SoundEntryItems(pf, entries);
    CodePushes(pf, EntryItems(entries));
    PairsOfEntries(entries);
    PushesMarked(pf, Code(EntryItems(entries)), Values(EntryItems(entries)), DICT, Dict(Pairs(entries)));
  }
}
