/** Memo writes and frames do not matter to programs that never read the memo. */
module PickleErasure {
  import opened Bytes
  import opened Common
  import opened PickleEncoder
  import opened PickleMachine
  import opened PickleRoundTrip
  import opened PickleStreams
  import opened PickleValue

  /** BINPUT, LONG_BINPUT, PUT, MEMOIZE, FRAME and PROTO. */
  predicate Redundant(i: Instr) { i.Store? || i.StoreNext? || i.Skip? }

  /** No GET, BINGET or LONG_BINGET among the instructions up to STOP. */
  predicate LoadFree(pf: FloatParser, b: bytes)
    decreases |b|
  {
    match Fetch(pf, b)
    case None => true
    case Some(f) => f.instr.Stop? || (!f.instr.Load? && LoadFree(pf, f.rest))
  }

  /** Deletes every redundant instruction before STOP; unreadable bytes stay as they are. */
  function Erase(pf: FloatParser, b: bytes): bytes
    decreases |b|
  {
    match Fetch(pf, b)
    case None => b
    case Some(f) =>
      if f.instr.Stop? then b
      else if Redundant(f.instr) then Erase(pf, f.rest)
      else b[..|b| - |f.rest|] + Erase(pf, f.rest)
  }

  ghost predicate SameOutcome(o1: Outcome, o2: Outcome) {
    match o1
    case Fail => o2 == Fail
    case Done(v, rest, s) => o2.Done? && o2.v == v && o2.rest == rest && o2.s.stack == s.stack
  }

  /** Erasing leaves the outcome the same: the same value, the same remaining bytes and the same
      stack, or failure in both; whatever the memos were at the start. */
  lemma {:induction false} ErasureKeepsOutcome(pf: FloatParser, b: bytes, s1: State, s2: State)
    requires LoadFree(pf, b) && s1.stack == s2.stack
    ensures SameOutcome(Run(pf, b, s1), Run(pf, Erase(pf, b), s2))
    decreases |b|
  {
    hide Fetch, Exec, Halt;
    if Fetch(pf, b).None? {
    } else {
      var f := Fetch(pf, b).value;
      if f.instr.Stop? {
        HaltIgnoresMemo(s1, s2, f.rest);
      } else if Redundant(f.instr) {
        RedundantKeepsStack(f.instr, s1);
        ErasureKeepsOutcome(pf, f.rest, Exec(f.instr, s1).value, s2);
      } else {
        KeptInstruction(pf, b, Erase(pf, f.rest));
        ExecIgnoresMemo(f.instr, s1, s2);
        if Exec(f.instr, s1).Some? {
          ErasureKeepsOutcome(pf, f.rest, Exec(f.instr, s1).value, Exec(f.instr, s2).value);
        }
      }
    }
  }

  lemma {:induction false} KeptInstruction(pf: FloatParser, b: bytes, y: bytes)
    requires Fetch(pf, b).Some?
    ensures var Fetched(i, rest) := Fetch(pf, b).value;
            Fetch(pf, b[..|b| - |rest|] + y) == Some(Fetched(i, y))
  {
    FetchSuffix(pf, b);
    hide Fetch;
    var Fetched(i, rest) := Fetch(pf, b).value;
    var c := b[..|b| - |rest|];
    assert b == c + rest;
    FetchSwap(pf, c, rest, y);
    assert Swap(rest, rest, y) == y;
  }

  /** What an instruction leaves unread is a proper suffix of its input. */
  lemma {:induction false} FetchSuffix(pf: FloatParser, b: bytes)
    requires Fetch(pf, b).Some?
    ensures var rest := Fetch(pf, b).value.rest; |rest| < |b| && b[|b| - |rest|..] == rest
  {
    hide Interpret, OperandFormat;
    assert TakeOperand(OperandFormat(b[0]), b[1..]).Some?;
    var rest := Fetch(pf, b).value.rest;
    OperandSuffix(OperandFormat(b[0]), b[1..]);
    assert b[|b| - |rest|..] == b[1..][|b[1..]| - |rest|..];
  }

  lemma {:induction false} OperandSuffix(f: Format, b: bytes)
    requires TakeOperand(f, b).Some?
    ensures EndsWith(b, TakeOperand(f, b).value.rest)
  {
    hide LineLength, FromLe, SignedLe;
  }

  lemma {:induction false} HaltIgnoresMemo(s1: State, s2: State, rest: bytes)
    requires s1.stack == s2.stack
    ensures SameOutcome(Halt(s1, rest), Halt(s2, rest))
  {
  }

  lemma {:induction false} RedundantKeepsStack(i: Instr, s: State)
    requires Redundant(i)
    ensures Exec(i, s).Some? && Exec(i, s).value.stack == s.stack
  {
  }

  lemma {:induction false} ExecIgnoresMemo(i: Instr, s1: State, s2: State)
    requires !i.Stop? && !i.Load? && s1.stack == s2.stack
    ensures Exec(i, s1).Some? <==> Exec(i, s2).Some?
    ensures Exec(i, s1).Some? ==> Exec(i, s1).value.stack == Exec(i, s2).value.stack
  {
    hide PopToMark, PopValues, Top;
  }

  /** Nothing redundant is left before STOP. */
  predicate Minimal(pf: FloatParser, b: bytes)
    decreases |b|
  {
    match Fetch(pf, b)
    case None => true
    case Some(f) => f.instr.Stop? || (!Redundant(f.instr) && Minimal(pf, f.rest))
  }

  lemma {:induction false} EraseIsMinimal(pf: FloatParser, b: bytes)
    ensures Minimal(pf, Erase(pf, b))
    decreases |b|
  {
    hide Fetch;
    if Fetch(pf, b).None? {
    } else {
      var f := Fetch(pf, b).value;
      if !f.instr.Stop? {
        EraseIsMinimal(pf, f.rest);
        KeptInstruction(pf, b, Erase(pf, f.rest));
      }
    }
  }

  /** A pickle that memoizes and frames what it likes, but otherwise spells the encoding of `v`,
      decodes to `v`. */
  lemma {:induction false} MemoisedPickleDecodes(pf: FloatParser, p: bytes, v: Value)
    requires Encodable(v) && LoadFree(pf, p)
    requires Erase(pf, p) == Encode(v) + [STOP]
    ensures Deserialize(pf, p) == Ok(v)
  {
    hide Run, Erase, LoadFree;
    ErasureKeepsOutcome(pf, p, EMPTY_STATE, EMPTY_STATE);
    assert Serialize(v) + [] == [PROTO, 2] + (Encode(v) + [STOP]);
    RunHeader(pf, Encode(v) + [STOP], EMPTY_STATE);
    SerializedRun(pf, v, [], EMPTY_STATE);
  }

  /** The erased program never fills its memo, so its first memo read fails, if it comes that far. */
  lemma {:induction false} ErasedLoadFails(pf: FloatParser, b: bytes, s: State)
    requires !LoadFree(pf, b) && s.memo == map[]
    ensures Run(pf, Erase(pf, b), s) == Fail
    decreases |b|
  {
    hide Fetch, Exec;
    var f := Fetch(pf, b).value;
    if Redundant(f.instr) {
      ErasedLoadFails(pf, f.rest, s);
    } else {
      KeptInstruction(pf, b, Erase(pf, f.rest));
      ExecKeepsMemo(f.instr, s);
      if Exec(f.instr, s).Some? {
        ErasedLoadFails(pf, f.rest, Exec(f.instr, s).value);
      }
    }
  }

  /** Only memo writes change the memo, and a memo read finds nothing in an empty one. */
  lemma {:induction false} ExecKeepsMemo(i: Instr, s: State)
    requires !i.Stop? && !Redundant(i)
    ensures Exec(i, s).Some? ==> Exec(i, s).value.memo == s.memo
    ensures i.Load? && s.memo == map[] ==> Exec(i, s).None?
  {
    hide PopToMark, PopValues, Top;
  }

  /** Erasure changes what a pickle decodes to exactly when the pickle decodes and reads the memo. */
  lemma {:induction false} ErasureIsExactFor(pf: FloatParser, b: bytes)
    ensures Deserialize(pf, Erase(pf, b)) == Deserialize(pf, b) <==> LoadFree(pf, b) || Deserialize(pf, b).Err?
    ensures !LoadFree(pf, b) ==> Deserialize(pf, Erase(pf, b)) == Err(Serialization)
  {
    hide Run, Erase, LoadFree;
    if LoadFree(pf, b) {
      ErasureKeepsOutcome(pf, b, EMPTY_STATE, EMPTY_STATE);
    } else {
      ErasedLoadFails(pf, b, EMPTY_STATE);
    }
  }

  const LOAD_ONLY: bytes := [BINGET, 0, STOP]
  const STORE_AND_LOAD: bytes := [BINPUT, 0] + LOAD_ONLY

  /** Such a pickle exists: this one decodes, and its erasure does not. */
  lemma {:induction false} LoadsNeedTheirStores(pf: FloatParser)
    ensures var p := [NONE] + STORE_AND_LOAD;
            Deserialize(pf, p) == Ok(PyNone) && Deserialize(pf, Erase(pf, p)) == Err(Serialization)
  {
    hide Fetch, Run, Erase, Exec;
    var p := [NONE] + STORE_AND_LOAD;
    var s1 := State([Val(PyNone)], map[]);
    var s2 := s1.(memo := map[0 := PyNone]);
    Reads(pf);
    Execs(s1, s2);
    assert !LoadFree(pf, p) by {
      assert !LoadFree(pf, LOAD_ONLY);
      assert !LoadFree(pf, STORE_AND_LOAD);
    }
    ErasureIsExactFor(pf, p);
    hide LoadFree;
    RunStep(pf, p, Push(PyNone), STORE_AND_LOAD, EMPTY_STATE);
    RunStep(pf, STORE_AND_LOAD, Store(0), LOAD_ONLY, s1);
    RunStep(pf, LOAD_ONLY, Load(0), [STOP], s2);
    RunStop(pf, [], s2.(stack := [Val(PyNone), Val(PyNone)]));
    assert [STOP] + [] == [STOP];
  }

  lemma {:induction false} Reads(pf: FloatParser)
    ensures Fetch(pf, [NONE] + STORE_AND_LOAD) == Some(Fetched(Push(PyNone), STORE_AND_LOAD))
    ensures Fetch(pf, STORE_AND_LOAD) == Some(Fetched(Store(0), LOAD_ONLY))
    ensures Fetch(pf, LOAD_ONLY) == Some(Fetched(Load(0), [STOP]))
  {
    hide Fetch;
    ReadStep(pf, NONE, [], Push(PyNone), STORE_AND_LOAD);
    ReadStep(pf, BINPUT, [0], Store(0), LOAD_ONLY);
    ReadStep(pf, BINGET, [0], Load(0), [STOP]);
    assert [NONE] + [] == [NONE];
    assert [BINPUT] + [0] + LOAD_ONLY == STORE_AND_LOAD;
    assert [BINGET] + [0] + [STOP] == LOAD_ONLY;
  }

  lemma {:induction false} Execs(s1: State, s2: State)
    requires s1 == State([Val(PyNone)], map[]) && s2 == State([Val(PyNone)], map[0 := PyNone])
    ensures Exec(Push(PyNone), EMPTY_STATE) == Some(s1)
    ensures Exec(Store(0), s1) == Some(s2)
    ensures Exec(Load(0), s2) == Some(s2.(stack := [Val(PyNone), Val(PyNone)]))
  {
    var v := [Val(PyNone)];
    assert [] + v == v && v + v == [Val(PyNone), Val(PyNone)];
  }

  lemma {:induction false} ReadStep(pf: FloatParser, op: byte, operand: bytes, i: Instr, rest: bytes)
    requires (op == NONE && operand == [] && i == Push(PyNone))
          || (op == BINPUT && operand == [0] && i == Store(0))
          || (op == BINGET && operand == [0] && i == Load(0))
    ensures Fetch(pf, [op] + operand + rest) == Some(Fetched(i, rest))
  {
    hide FetchOperand;
    var b := [op] + operand + rest;
    assert b[1..] == operand + rest;
    if op == NONE {
      PlainMeaning(pf, op, b[1..]);
    } else {
      FixedMeaning(pf, op, b[1..]);
      TakeExact(operand, rest);
      assert FromLe([0]) == 0;
    }
  }
}
