/** The pickle format at the level of bytes: the opcode numbers, the form of every scalar, the other
    spellings of scalars that the decoder accepts, and what the stack opcodes do and refuse
    (PEP 307, "Pickling Python longs"; PEP 3154, "Framing"). */
module PickleWire {
  import opened Bytes
  import opened Common
  import opened PickleEncoder
  import opened PickleLong
  import opened PickleMachine
  import opened PickleRoundTrip
  import opened PickleValue
  import opened Text
  import opened TextRoundTrip

  // ---- Bytes ----

  /** The opcode numbers of the format. */
  lemma {:induction false} OpcodeNumbers()
    ensures [PROTO, FRAME, STOP, MARK, POP, POP_MARK, DUP] == [0x80, 0x95, 0x2E, 0x28, 0x30, 0x31, 0x32]
    ensures [NONE, NEWTRUE, NEWFALSE] == [0x4E, 0x88, 0x89]
    ensures [INT, BININT, BININT1, BININT2, LONG1] == [0x49, 0x4A, 0x4B, 0x4D, 0x8A]
    ensures [FLOAT, BINFLOAT] == [0x46, 0x47]
    ensures [UNICODE, BINUNICODE, SHORT_BINUNICODE, BINUNICODE8] == [0x56, 0x58, 0x8C, 0x8D]
    ensures [STRING, BINSTRING, SHORT_BINSTRING] == [0x53, 0x54, 0x55]
    ensures [BINBYTES, SHORT_BINBYTES, BINBYTES8] == [0x42, 0x43, 0x8E]
    ensures [EMPTY_LIST, LIST, APPEND, APPENDS] == [0x5D, 0x6C, 0x61, 0x65]
    ensures [EMPTY_DICT, DICT, SETITEM, SETITEMS] == [0x7D, 0x64, 0x73, 0x75]
    ensures [EMPTY_TUPLE, TUPLE, TUPLE1, TUPLE2, TUPLE3] == [0x29, 0x74, 0x85, 0x86, 0x87]
    ensures [PUT, BINPUT, LONG_BINPUT, MEMOIZE, GET, BINGET, LONG_BINGET]
         == [0x70, 0x71, 0x72, 0x94, 0x67, 0x68, 0x6A]
    ensures [GLOBAL, STACK_GLOBAL, REDUCE, NEWOBJ, BUILD] == [0x63, 0x93, 0x52, 0x81, 0x62]
  {
  }

  /** Every other byte is refused as an opcode. */
  lemma {:induction false} OtherBytesRefused(pf: FloatParser, op: byte, b: bytes)
    requires op !in {
               0x80, 0x95, 0x2E, 0x28, 0x30, 0x31, 0x32, 0x4E, 0x88, 0x89, 0x49, 0x4A, 0x4B, 0x4D, 0x8A, 0x46, 0x47,
               0x56, 0x58, 0x8C, 0x8D, 0x53, 0x54, 0x55, 0x42, 0x43, 0x8E, 0x5D, 0x6C, 0x61, 0x65, 0x7D, 0x64, 0x73,
               0x75, 0x29, 0x74, 0x85, 0x86, 0x87, 0x70, 0x71, 0x72, 0x94, 0x67, 0x68, 0x6A, 0x63, 0x93, 0x52, 0x81,
               0x62
             }
    ensures Fetch(pf, [op] + b) == None
  {
    assert OperandFormat(op) == Unsupported;
  }

  lemma {:induction false} LittleEndian(v: int)
    ensures ToLe(v, 2) == [v % 256, v / 256 % 256]
    ensures ToLe(v, 4) == [v % 256, v / 256 % 256, v / 256 / 256 % 256, v / 256 / 256 / 256 % 256]
  {
    Unroll(v, 2);
    Unroll(v, 4);
    Unroll(v / 256, 1);
    Unroll(v / 256, 3);
    Unroll(v / 256 / 256, 2);
    Unroll(v / 256 / 256 / 256, 1);
  }

  lemma {:induction false} Unroll(v: int, n: nat)
    requires n > 0
    ensures ToLe(v, n) == [v % 256] + ToLe(v / 256, n - 1)
  {
  }

  /** What each scalar looks like in a pickle, byte by byte. */
  lemma {:induction false} ScalarsOnTheWire(i: int64)
    ensures Serialize(PyNone) == [0x80, 2, 0x4E, 0x2E]
    ensures Serialize(Bool(true)) == [0x80, 2, 0x88, 0x2E] && Serialize(Bool(false)) == [0x80, 2, 0x89, 0x2E]
    ensures 0 <= i < 0x100 ==> Encode(Int(i)) == [0x4B, i]
    ensures 0x100 <= i < 0x1_0000 ==> Encode(Int(i)) == [0x4D, i % 256, i / 256]
    ensures (-0x8000_0000 <= i < 0 || 0x1_0000 <= i < 0x8000_0000) ==>
              Encode(Int(i))
              == [0x4A, i % 256, i / 256 % 256, i / 256 / 256 % 256, i / 256 / 256 / 256 % 256]
    ensures !(-0x8000_0000 <= i < 0x8000_0000) ==> Encode(Int(i)) == [0x8A, |LongBytes(i)|] + LongBytes(i)
  {
    LittleEndian(i);
    LongBytesWidth(i);
  }

  /** A string is its length in four bytes and its UTF-8; a byte string's length takes one or four. */
  lemma {:induction false} BlobsOnTheWire(s: utf8, data: bytes)
    ensures var n := |s|;
            Encode(Str(s))
            == [0x58, n % 256, n / 256 % 256, n / 256 / 256 % 256, n / 256 / 256 / 256 % 256] + s
    ensures |data| < 256 ==> Encode(ByteStr(data)) == [0x43, |data|] + data
    ensures var n := |data|;
            n >= 256 ==>
              Encode(ByteStr(data))
              == [0x42, n % 256, n / 256 % 256, n / 256 / 256 % 256, n / 256 / 256 / 256 % 256] + data
  {
    LittleEndian(|s|);
    LittleEndian(|data|);
  }

  /** A float is its eight bytes, most significant first. */
  lemma {:induction false} FloatsOnTheWire(bits: uint64)
    ensures var f := Encode(Float(bits));
            |f| == 9 && f[0] == 0x47 && forall k :: 1 <= k < 9 ==> f[k] == bits / Pow256(8 - k) % 256
  {
    var f := Encode(Float(bits));
    assert |f| == 9 && f[0] == 0x47;
    forall k | 1 <= k < 9
      ensures f[k] == bits / Pow256(8 - k) % 256
    {
      ByteOf(bits, 8, 8 - k);
    }
  }

  lemma {:induction false} ByteOf(v: nat, n: nat, k: nat)
    requires k < n
    ensures ToLe(v, n)[k] == v / Pow256(k) % 256
    decreases n
  {
    if k == 0 {
    } else {
      ByteOf(v / 256, n - 1, k - 1);
      assert ToLe(v, n)[k] == ToLe(v / 256, n - 1)[k - 1];
      DivideTwice(v, Pow256(k - 1));
    }
  }

  lemma {:induction false} DivideTwice(v: nat, p: nat)
    requires p > 0
    ensures v / 256 / p == v / (256 * p)
  {
    var q := v / 256 / p;
    var r1, r2 := v % 256, v / 256 % p;
    assert v == 256 * (p * q + r2) + r1;
    MulAssoc(256, p, q);
    assert v == (256 * p) * q + (256 * r2 + r1);
    assert 0 <= 256 * r2 + r1 < 256 * p;
    QuotientIs(v, 256 * p, q, 256 * r2 + r1);
  }

  lemma {:induction false} QuotientIs(v: int, d: int, q: int, r: int)
    requires v == d * q + r && 0 <= r < d
    ensures v / d == q
  {
    var q', r' := v / d, v % d;
    assert v == d * q' + r';
    if q > q' {
      MulMono(d, q' + 1, q);
    } else if q < q' {
      MulMono(d, q + 1, q');
    }
  }

  // ---- Other spellings of scalars ----

  /** Containers open, hold their items in order, keys before values, and close. */
  lemma {:induction false} ContainersOnTheWire(items: seq<Value>, p: Pair, pairs: seq<Pair>)
    ensures Encode(List([])) == [0x5D] && Encode(Dict([])) == [0x7D] && Encode(Tuple([])) == [0x29]
    ensures items != [] ==> Encode(List(items)) == [0x5D, 0x28] + EncodeAll(items) + [0x65]
    ensures |items| == 1 ==> Encode(Tuple(items)) == EncodeAll(items) + [0x85]
    ensures |items| == 2 ==> Encode(Tuple(items)) == EncodeAll(items) + [0x86]
    ensures |items| == 3 ==> Encode(Tuple(items)) == EncodeAll(items) + [0x87]
    ensures |items| > 3 ==> Encode(Tuple(items)) == [0x28] + EncodeAll(items) + [0x74]
    ensures pairs != [] ==> Encode(Dict(pairs)) == [0x7D, 0x28] + EncodePairs(pairs) + [0x75]
    ensures EncodePair(p) == Encode(p.key) + Encode(p.val)
  {
  }

  /** Any string in any of the four Unicode forms. */
  lemma {:induction false} StringSpellings(pf: FloatParser, s: bytes)
    ensures ValidUtf8(s) && |s| < 0x100 ==> Pushes(pf, [SHORT_BINUNICODE] + ToLe(|s|, 1) + s, [Str(s)])
    ensures ValidUtf8(s) && |s| < TWO_32 ==> Pushes(pf, [BINUNICODE] + ToLe(|s|, 4) + s, [Str(s)])
    ensures ValidUtf8(s) && |s| < TWO_64 ==> Pushes(pf, [BINUNICODE8] + ToLe(|s|, 8) + s, [Str(s)])
    ensures ValidUtf8(s) && 10 !in s ==> Pushes(pf, [UNICODE] + s + [10], [Str(s)])
  {
    Pow256Values();
    hide ValidUtf8, Pushes;
    if ValidUtf8(s) {
      if |s| < 0x100 { PushCounted(pf, SHORT_BINUNICODE, 1, s, Str(s)); }
      if |s| < TWO_32 { PushCounted(pf, BINUNICODE, 4, s, Str(s)); }
      if |s| < TWO_64 { PushCounted(pf, BINUNICODE8, 8, s, Str(s)); }
      if 10 !in s { PushLine(pf, UNICODE, s, Str(s)); }
    }
  }

  /** Ill-formed UTF-8 is refused in all of them. */
  lemma {:induction false} IllFormedStringsRefused(pf: FloatParser, s: bytes, rest: bytes)
    requires !ValidUtf8(s)
    ensures |s| < 0x100 ==> Fetch(pf, [SHORT_BINUNICODE] + (ToLe(|s|, 1) + (s + rest))) == None
    ensures |s| < TWO_32 ==> Fetch(pf, [BINUNICODE] + (ToLe(|s|, 4) + (s + rest))) == None
    ensures |s| < TWO_64 ==> Fetch(pf, [BINUNICODE8] + (ToLe(|s|, 8) + (s + rest))) == None
    ensures 10 !in s ==> Fetch(pf, [UNICODE] + (s + [10] + rest)) == None
  {
    hide ValidUtf8, FetchOperand, TakeLine, ToLe, FromLe;
    Pow256Values();
    if |s| < 0x100 { CountedRefused(pf, SHORT_BINUNICODE, 1, s, rest); }
    if |s| < TWO_32 { CountedRefused(pf, BINUNICODE, 4, s, rest); }
    if |s| < TWO_64 { CountedRefused(pf, BINUNICODE8, 8, s, rest); }
    if 10 !in s {
      TakesLine(s, rest);
      LineMeaning(pf, UNICODE, s + [10] + rest);
      assert ([UNICODE] + (s + [10] + rest))[1..] == s + [10] + rest;
    }
  }

  lemma {:induction false} CountedRefused(pf: FloatParser, op: byte, width: nat, s: bytes, rest: bytes)
    requires (op == SHORT_BINUNICODE && width == 1) || (op == BINUNICODE && width == 4)
          || (op == BINUNICODE8 && width == 8)
    requires !ValidUtf8(s) && |s| < Pow256(width)
    ensures Fetch(pf, [op] + (ToLe(|s|, width) + (s + rest))) == None
  {
    hide ValidUtf8, FetchOperand, ToLe, FromLe, Pow256;
    var b := ToLe(|s|, width) + (s + rest);
    UnsignedRoundTrip(|s|, width);
    TakeExact(ToLe(|s|, width), s + rest);
    TakeExact(s, rest);
    CountedMeaning(pf, op, b);
    assert ([op] + b)[1..] == b;
  }

  /** A negative length is refused. */
  lemma {:induction false} NegativeLengthRefused(pf: FloatParser, n: int, rest: bytes)
    requires -0x8000_0000 <= n < 0
    ensures Fetch(pf, [BINSTRING] + (ToLe(n, 4) + rest)) == None
  {
    Pow256Values();
    SignedRoundTrip(n, 4);
    hide FetchOperand, ToLe, SignedLe;
    TakeExact(ToLe(n, 4), rest);
    BinStringMeaning(pf, ToLe(n, 4) + rest);
    assert ([BINSTRING] + (ToLe(n, 4) + rest))[1..] == ToLe(n, 4) + rest;
  }

  /** An opcode whose operand is a line that means "push v". */
  lemma {:induction false} PushLine(pf: FloatParser, op: byte, line: bytes, v: Value)
    requires op in {UNICODE, STRING, INT, FLOAT} && 10 !in line
    requires InterpretLine(pf, op, line) == Some(Push(v))
    ensures Pushes(pf, [op] + line + [10], [v])
  {
    hide InterpretLine, InterpretPlain;
    forall rest: bytes
      ensures TakeOperand(OperandFormat(op), line + [10] + rest) == Some(Split(line, rest))
    {
      TakesLine(line, rest);
    }
    assert Interpret(pf, op, line) == Some(Push(v));
    assert [op] + (line + [10]) == [op] + line + [10];
    PushInstr(pf, op, line + [10], line, v);
  }

  lemma {:induction false} TakesLine(line: bytes, rest: bytes)
    requires 10 !in line
    ensures TakeLine(line + [10] + rest) == Some(Split(line, rest))
  {
    var b := line + [10] + rest;
    var n := LineLength(b);
    assert b[|line|] == 10;
    assert forall i :: 0 <= i < |line| ==> b[i] == line[i] != 10;
    assert n == |line|;
    assert b[..n] == line && b[n + 1..] == rest;
  }

  /** Any byte string in any of its forms, the two Python 2 string forms included. */
  lemma {:induction false} BytesSpellings(pf: FloatParser, s: bytes)
    ensures |s| < 0x100 ==> Pushes(pf, [SHORT_BINBYTES] + ToLe(|s|, 1) + s, [ByteStr(s)])
    ensures |s| < 0x100 ==> Pushes(pf, [SHORT_BINSTRING] + ToLe(|s|, 1) + s, [ByteStr(s)])
    ensures |s| < TWO_32 ==> Pushes(pf, [BINBYTES] + ToLe(|s|, 4) + s, [ByteStr(s)])
    ensures |s| < TWO_64 ==> Pushes(pf, [BINBYTES8] + ToLe(|s|, 8) + s, [ByteStr(s)])
    ensures |s| < 0x8000_0000 ==> Pushes(pf, [BINSTRING] + ToLe(|s|, 4) + s, [ByteStr(s)])
  {
    Pow256Values();
    hide Pushes;
    if |s| < 0x100 {
      PushCounted(pf, SHORT_BINBYTES, 1, s, ByteStr(s));
      PushCounted(pf, SHORT_BINSTRING, 1, s, ByteStr(s));
    }
    if |s| < TWO_32 { PushCounted(pf, BINBYTES, 4, s, ByteStr(s)); }
    if |s| < TWO_64 { PushCounted(pf, BINBYTES8, 8, s, ByteStr(s)); }
    if |s| < 0x8000_0000 { PushBinString(pf, s); }
  }

  lemma {:induction false} BinStringOpcode(pf: FloatParser, s: bytes)
    ensures OperandFormat(BINSTRING) == CountedI32
    ensures Interpret(pf, BINSTRING, s) == Some(Push(ByteStr(s)))
  {
    hide InterpretLine, InterpretPlain;
  }

  lemma {:induction false} PushBinString(pf: FloatParser, s: bytes)
    requires |s| < 0x8000_0000
    ensures Pushes(pf, [BINSTRING] + ToLe(|s|, 4) + s, [ByteStr(s)])
  {
    var len := ToLe(|s|, 4);
    Pow256Values();
    SignedRoundTrip(|s|, 4);
    BinStringOpcode(pf, s);
    hide SignedLe, ToLe, Interpret, OperandFormat, Pushes;
    forall rest: bytes
      ensures TakeOperand(CountedI32, len + s + rest) == Some(Split(s, rest))
    {
      assert len + s + rest == len + (s + rest);
      TakeExact(len, s + rest);
      TakeExact(s, rest);
    }
    hide TakeOperand;
    assert [BINSTRING] + (len + s) == [BINSTRING] + len + s;
    PushInstr(pf, BINSTRING, len + s, s, ByteStr(s));
  }

  /** A quoted Python 2 string, with either quote. */
  lemma {:induction false} QuotedString(pf: FloatParser, s: bytes, quote: byte)
    requires quote in {0x27, 0x22} && ValidUtf8(s) && 10 !in s
    requires s != [] ==> s[0] !in {0x27, 0x22} && s[|s| - 1] !in {0x27, 0x22}
    ensures Pushes(pf, [STRING] + ([quote] + s + [quote]) + [10], [ByteStr(s)])
  {
    hide Pushes;
    var line := [quote] + s + [quote];
    AsciiIsUtf8([quote]);
    Utf8Concat([quote], s);
    Utf8Concat([quote] + s, [quote]);
    TrimQuotes(s, quote, quote);
    if quote == 0x27 {
      NothingToTrim(s, 0x22);
    } else {
      NothingToTrim(line, 0x27);
    }
    hide ValidUtf8, TrimByte;
    PushLine(pf, STRING, line, ByteStr(s));
  }

  lemma {:induction false} NothingToTrim(s: bytes, b: byte)
    requires s != [] ==> s[0] != b && s[|s| - 1] != b
    ensures TrimByte(s, b) == s
  {
  }

  lemma {:induction false} TrimQuotes(s: bytes, q: byte, b: byte)
    requires q == b && (s != [] ==> s[0] != b && s[|s| - 1] != b)
    ensures TrimByte([q] + s + [q], b) == s
  {
    var t := [q] + s + [q];
    assert t[1..] == s + [q];
    if s == [] {
      assert (s + [q])[1..] == [];
    } else {
      assert (s + [q])[..|s|] == s && (s + [q])[|s|] == q;
      NothingToTrim(s, b);
    }
  }

  /** Any integer in each form that holds it: one, two and four bytes, any signed little-endian string
      for it, and its decimal numeral, padded or not. */
  lemma {:induction false} IntSpellings(pf: FloatParser, i: int64, s: bytes, before: bytes, after: bytes)
    requires Blank(before) && Blank(after) && 10 !in before && 10 !in after
    ensures 0 <= i < 0x100 ==> Pushes(pf, [BININT1] + ToLe(i, 1), [Int(i)])
    ensures 0 <= i < 0x1_0000 ==> Pushes(pf, [BININT2] + ToLe(i, 2), [Int(i)])
    ensures -0x8000_0000 <= i < 0x8000_0000 ==> Pushes(pf, [BININT] + ToLe(i, 4), [Int(i)])
    ensures |s| < 0x100 && SignedLe(s) == i ==> Pushes(pf, [LONG1] + ToLe(|s|, 1) + s, [Int(i)])
    ensures Pushes(pf, [INT] + (before + SignedDecimal(i) + after) + [10], [Int(i)])
  {
    hide Pushes, SignedDecimal, Blank;
    PushBinaryInt(pf, i, s);
    PushNumeral(pf, i, before, after);
  }

  lemma {:induction false} IntOpcodes(pf: FloatParser, payload: bytes)
    ensures OperandFormat(BININT1) == Fixed(1) && OperandFormat(BININT2) == Fixed(2)
    ensures OperandFormat(BININT) == Fixed(4) && OperandFormat(LONG1) == Counted(1)
    ensures |payload| == 1 ==> Interpret(pf, BININT1, payload) == Some(Push(Int(Unsigned32(payload))))
    ensures |payload| == 2 ==> Interpret(pf, BININT2, payload) == Some(Push(Int(Unsigned32(payload))))
    ensures |payload| == 4 ==> Interpret(pf, BININT, payload) == Some(Push(Int(Int32(payload))))
    ensures Interpret(pf, LONG1, payload) == Some(Push(Int(WrapI64(SignedLe(payload)))))
  {
    hide InterpretLine, InterpretPlain, Unsigned32, Int32, WrapI64, SignedLe;
  }

  lemma {:induction false} PushBinaryInt(pf: FloatParser, i: int64, s: bytes)
    ensures 0 <= i < 0x100 ==> Pushes(pf, [BININT1] + ToLe(i, 1), [Int(i)])
    ensures 0 <= i < 0x1_0000 ==> Pushes(pf, [BININT2] + ToLe(i, 2), [Int(i)])
    ensures -0x8000_0000 <= i < 0x8000_0000 ==> Pushes(pf, [BININT] + ToLe(i, 4), [Int(i)])
    ensures |s| < 0x100 && SignedLe(s) == i ==> Pushes(pf, [LONG1] + ToLe(|s|, 1) + s, [Int(i)])
  {
    hide Pushes, ToLe, SignedLe, Interpret, OperandFormat;
    Pow256Values();
    if 0 <= i < 0x100 {
      UnsignedRoundTrip(i, 1);
      IntOpcodes(pf, ToLe(i, 1));
      PushFixed(pf, BININT1, ToLe(i, 1), Int(i));
    }
    if 0 <= i < 0x1_0000 {
      UnsignedRoundTrip(i, 2);
      IntOpcodes(pf, ToLe(i, 2));
      PushFixed(pf, BININT2, ToLe(i, 2), Int(i));
    }
    if -0x8000_0000 <= i < 0x8000_0000 {
      SignedRoundTrip(i, 4);
      IntOpcodes(pf, ToLe(i, 4));
      PushFixed(pf, BININT, ToLe(i, 4), Int(i));
    }
    if |s| < 0x100 && SignedLe(s) == i {
      IntOpcodes(pf, s);
      PushCounted(pf, LONG1, 1, s, Int(i));
    }
  }

  lemma {:induction false} PushNumeral(pf: FloatParser, i: int64, before: bytes, after: bytes)
    requires Blank(before) && Blank(after) && 10 !in before && 10 !in after
    ensures Pushes(pf, [INT] + (before + SignedDecimal(i) + after) + [10], [Int(i)])
  {
    PaddedNumeral(i, before, after);
    NumeralRoundTrip(i);
    hide Pushes, Trim, ParseI64, SignedDecimal, ValidUtf8;
    PushLine(pf, INT, before + SignedDecimal(i) + after, Int(i));
  }

  lemma {:induction false} PaddedNumeral(i: int, before: bytes, after: bytes)
    requires Blank(before) && Blank(after) && 10 !in before && 10 !in after
    ensures var line := before + SignedDecimal(i) + after;
            ValidUtf8(line) && Trim(line) == SignedDecimal(i) && 10 !in line
  {
    NumeralIsAscii(i);
    hide SignedDecimal;
    var s := SignedDecimal(i);
    AsciiIsUtf8(before + s + after);
    TrimPadded(before, s, after);
  }

  /** The two Booleans of protocol 0, and floats by the library's parser. */
  lemma {:induction false} LineSpellings(pf: FloatParser, line: bytes, bits: uint64)
    ensures Pushes(pf, [0x49, 0x30, 0x31, 0x0A], [Bool(true)]) && Pushes(pf, [0x49, 0x30, 0x30, 0x0A], [Bool(false)])
    ensures ValidUtf8(line) && 10 !in line && pf(Trim(line)) == Some(bits) ==>
              Pushes(pf, [FLOAT] + line + [10], [Float(bits)])
  {
    hide Pushes, Trim;
    AsciiIsUtf8([0x30, 0x31]);
    AsciiIsUtf8([0x30, 0x30]);
    TrimPadded([], [0x30, 0x31], []);
    TrimPadded([], [0x30, 0x30], []);
    assert [] + [0x30, 0x31] + [] == [0x30, 0x31] && [] + [0x30, 0x30] + [] == [0x30, 0x30];
    hide ValidUtf8;
    PushLine(pf, INT, [0x30, 0x31], Bool(true));
    PushLine(pf, INT, [0x30, 0x30], Bool(false));
    assert [INT] + [0x30, 0x31] + [10] == [0x49, 0x30, 0x31, 0x0A];
    assert [INT] + [0x30, 0x30] + [10] == [0x49, 0x30, 0x30, 0x0A];
    if ValidUtf8(line) && 10 !in line && pf(Trim(line)) == Some(bits) {
      PushLine(pf, FLOAT, line, Float(bits));
    }
  }

  /** The slot numbers of protocol 0 are decimal numerals. */
  lemma {:induction false} TextSlots(pf: FloatParser, k: uint32, before: bytes, after: bytes, rest: bytes)
    requires Blank(before) && Blank(after) && 10 !in before && 10 !in after
    ensures var line := before + SignedDecimal(k) + after;
            && Fetch(pf, [PUT] + (line + [10] + rest)) == Some(Fetched(Store(k), rest))
            && Fetch(pf, [GET] + (line + [10] + rest)) == Some(Fetched(Load(k), rest))
  {
    var line := before + SignedDecimal(k) + after;
    PaddedNumeral(k, before, after);
    NumeralRoundTrip(k);
    hide SignedDecimal, Trim, ValidUtf8, ParseU32, FetchOperand;
    TakesLine(line, rest);
    LineMeaning(pf, PUT, line + [10] + rest);
    LineMeaning(pf, GET, line + [10] + rest);
    assert ([PUT] + (line + [10] + rest))[1..] == line + [10] + rest;
    assert ([GET] + (line + [10] + rest))[1..] == line + [10] + rest;
  }

  // ---- The stack ----

  /** What an opcode that takes everything above the topmost mark does, and when it fails. */
  lemma {:induction false} MarkOpcodes(s: State, below: seq<Item>, vs: seq<Value>)
    requires s.stack == below + [Mark] + Vals(vs)
    ensures Exec(MakeList, s) == Some(s.(stack := below + [Val(List(vs))]))
    ensures Exec(MakeTuple, s) == Some(s.(stack := below + [Val(Tuple(vs))]))
    ensures Exec(DropToMark, s) == Some(s.(stack := below))
    ensures Exec(MakeDict, s)
         == if |vs| % 2 == 0 then Some(s.(stack := below + [Val(Dict(PairUp(vs)))])) else None
    ensures Exec(AppendMany, s)
         == if below != [] && below[|below| - 1].Val? && below[|below| - 1].v.List?
            then Some(s.(stack := below[..|below| - 1] + [Val(List(below[|below| - 1].v.items + vs))])) else None
    ensures Exec(SetMany, s)
         == if below != [] && below[|below| - 1].Val? && below[|below| - 1].v.Dict? && |vs| % 2 == 0
            then Some(s.(stack := below[..|below| - 1] + [Val(Dict(below[|below| - 1].v.pairs + PairUp(vs)))]))
            else None
  {
    hide Exec, PopToMark, PairUp, Vals;
    PopToMarkFinds(below, vs);
    ExecMarked(s);
    ExecGrowMany(s);
  }

  /** Without a mark they all fail. */
  lemma {:induction false} MarkOpcodesNeedMark(s: State, i: Instr)
    requires Mark !in s.stack
    requires i in {MakeList, MakeTuple, MakeDict, DropToMark, AppendMany, SetMany}
    ensures Exec(i, s) == None
  {
    hide Exec;
    ExecMarked(s);
    ExecGrowMany(s);
  }

  /** What an opcode that takes `n` values off the top does, when they are there. */
  lemma {:induction false} ValueOpcodes(s: State, below: seq<Item>, vs: seq<Value>)
    requires s.stack == below + Vals(vs)
    ensures Exec(TupleOf(|vs|), s) == Some(s.(stack := below + [Val(Tuple(vs))]))
    ensures |vs| == 2 ==> Exec(ReplaceTwoByNone, s) == Some(s.(stack := below + [Val(PyNone)]))
    ensures |vs| == 1 ==> Exec(DropValue, s) == Some(s.(stack := below))
  {
    hide Exec, PopValues;
    PopValuesFinds(below, vs);
    ExecTuple(|vs|, s);
    ExecReplace(s);
    ExecDrop(s);
  }

  /** APPEND grows the list below the item, and fails on anything else. */
  lemma {:induction false} AppendOpcode(s: State, below: seq<Item>, v: Value)
    requires s.stack == below + Vals([v])
    ensures Exec(AppendOne, s)
         == if below != [] && below[|below| - 1].Val? && below[|below| - 1].v.List?
            then Some(s.(stack := below[..|below| - 1] + [Val(List(below[|below| - 1].v.items + [v]))])) else None
  {
    hide Exec, PopValues, Vals, PairUp, AddPairs;
    PopValuesFinds(below, [v]);
    ExecGrowOne(s);
  }

  /** SETITEM adds a pair to the dict below key and value, and fails on anything else. */
  lemma {:induction false} SetItemOpcode(s: State, below: seq<Item>, k: Value, v: Value)
    requires s.stack == below + Vals([k, v])
    ensures Exec(SetOne, s)
         == if below != [] && below[|below| - 1].Val? && below[|below| - 1].v.Dict?
            then Some(s.(stack := below[..|below| - 1] + [Val(Dict(below[|below| - 1].v.pairs + [Pair(k, v)]))]))
            else None
  {
    hide Exec, PopValues, Vals, Extend;
    PopValuesFinds(below, [k, v]);
    ExecGrowOne(s);
    assert PairUp([k, v]) == [Pair(k, v)];
    hide PairUp;
  }

  /** DUP repeats the value on top. */
  lemma {:induction false} DuplicateTop(s: State, below: seq<Item>, v: Value)
    requires s.stack == below + Vals([v])
    ensures Exec(Duplicate, s) == Some(s.(stack := s.stack + Vals([v])))
  {
    hide Exec;
    assert Vals([v]) == [Val(v)];
    assert s.stack[|s.stack| - 1] == Val(v);
    ExecDuplicate(s, v);
  }

  lemma {:induction false} ExecDuplicate(s: State, v: Value)
    requires Top(s.stack) == Some(v)
    ensures Exec(Duplicate, s) == Some(s.(stack := s.stack + [Val(v)]))
  {
  }

  /** With fewer values above the topmost mark, or on the whole stack, they fail; DUP does nothing. */
  lemma {:induction false} ValueOpcodesNeedValues(s: State, n: nat)
    requires n > |s.stack| || Mark in s.stack[|s.stack| - n..]
    ensures Exec(TupleOf(n), s) == None
    ensures n == 1 ==> Exec(DropValue, s) == None && Exec(AppendOne, s) == None && Exec(Duplicate, s) == Some(s)
    ensures n == 2 ==> Exec(ReplaceTwoByNone, s) == None && Exec(SetOne, s) == None
  {
    hide Exec;
    ExecTuple(n, s);
    ExecReplace(s);
    ExecDrop(s);
    ExecGrowOne(s);
    if n == 1 {
      assert s.stack == [] || s.stack[|s.stack| - 1] == Mark;
      DuplicateNothing(s);
    }
  }

  lemma {:induction false} DuplicateNothing(s: State)
    requires s.stack == [] || s.stack[|s.stack| - 1].Mark?
    ensures Exec(Duplicate, s) == Some(s)
  {
  }

  /** POP takes off the top item, even a mark, and does nothing to an empty stack. */
  lemma {:induction false} PopDrops(s: State, below: seq<Item>, top: Item)
    ensures s.stack == below + [top] ==> Exec(Drop, s) == Some(s.(stack := below))
    ensures s.stack == [] ==> Exec(Drop, s) == Some(s)
  {
    assert s.stack == below + [top] ==> s.stack[..|s.stack| - 1] == below;
  }

  /** STOP returns the value on top and fails on a mark or an empty stack. */
  lemma {:induction false} StopReturnsTop(s: State, below: seq<Item>, top: Item, rest: bytes)
    ensures s.stack == below + [top] ==>
              Halt(s, rest) == if top.Val? then Done(top.v, rest, s.(stack := below)) else Fail
    ensures s.stack == [] ==> Halt(s, rest) == Fail
  {
    if s.stack == below + [top] {
      assert s.stack[|s.stack| - 1] == top && s.stack[..|below|] == below;
    }
  }

  /** The instruction of each opcode without an operand. */
  lemma {:induction false} PlainInstructions()
    ensures InterpretPlain(MARK) == PushMark && InterpretPlain(LIST) == MakeList
    ensures InterpretPlain(DICT) == MakeDict && InterpretPlain(TUPLE) == MakeTuple
    ensures InterpretPlain(TUPLE1) == TupleOf(1) && InterpretPlain(TUPLE2) == TupleOf(2)
    ensures InterpretPlain(TUPLE3) == TupleOf(3)
    ensures InterpretPlain(APPEND) == AppendOne && InterpretPlain(APPENDS) == AppendMany
    ensures InterpretPlain(SETITEM) == SetOne && InterpretPlain(SETITEMS) == SetMany
  {
  }

  lemma {:induction false} StackInstructions()
    ensures InterpretPlain(POP) == Drop && InterpretPlain(DUP) == Duplicate && InterpretPlain(POP_MARK) == DropToMark
    ensures InterpretPlain(REDUCE) == InterpretPlain(NEWOBJ) == InterpretPlain(STACK_GLOBAL) == ReplaceTwoByNone
    ensures InterpretPlain(BUILD) == DropValue
  {
  }

  /** POP and POP_MARK undo what was pushed, DUP repeats it, and the object opcodes leave a placeholder
      in place of their two operands, or drop one. */
  lemma {:induction false} StackSpellings(pf: FloatParser, p: bytes, v: Value, q: bytes, w: Value)
    requires Pushes(pf, p, [v]) && Pushes(pf, q, [w])
    ensures Pushes(pf, p + [POP], []) && Pushes(pf, p + [DUP], [v, v]) && Pushes(pf, p + q + [BUILD], [v])
    ensures Pushes(pf, p + q + [REDUCE], [PyNone]) && Pushes(pf, p + q + [NEWOBJ], [PyNone])
    ensures Pushes(pf, p + q + [STACK_GLOBAL], [PyNone])
    ensures Pushes(pf, [MARK] + (p + q) + [POP_MARK], [])
  {
    PushesInOrder(pf, p, [v], q, [w]);
    assert [v] + [w] == [v, w];
    hide Run, PushesAt;
    forall rest: bytes, s: State
      ensures PushesAt(pf, p + [POP], [], rest, s) && PushesAt(pf, p + [DUP], [v, v], rest, s)
    {
      AfterOne(pf, p, v, rest, s);
    }
    forall rest: bytes, s: State
      ensures PushesAt(pf, p + q + [BUILD], [v], rest, s)
      ensures PushesAt(pf, p + q + [REDUCE], [PyNone], rest, s)
      ensures PushesAt(pf, p + q + [NEWOBJ], [PyNone], rest, s)
      ensures PushesAt(pf, p + q + [STACK_GLOBAL], [PyNone], rest, s)
    {
      AfterTwo(pf, p + q, v, w, rest, s);
    }
    forall rest: bytes, s: State
      ensures PushesAt(pf, [MARK] + (p + q) + [POP_MARK], [], rest, s)
    {
      MarkAndPop(pf, p + q, [v, w], rest, s);
    }
  }

  /** `p` and then one opcode without an operand. */
  lemma {:induction false} ThenPlain(
      pf: FloatParser, p: bytes, vs: seq<Value>, op: byte, rest: bytes, s: State, s': State)
    requires Pushes(pf, p, vs) && HasNoOperand(op) && op != STOP
    requires Exec(InterpretPlain(op), s.(stack := s.stack + Vals(vs))) == Some(s')
    ensures Run(pf, p + [op] + rest, s) == Run(pf, rest, s')
  {
    hide Run, Exec, InterpretPlain, Vals;
    assert PushesAt(pf, p, vs, [op] + rest, s);
    assert p + [op] + rest == p + ([op] + rest);
    RunPlain(pf, op, rest, s.(stack := s.stack + Vals(vs)));
  }

  lemma {:induction false} AfterOne(pf: FloatParser, p: bytes, v: Value, rest: bytes, s: State)
    requires Pushes(pf, p, [v])
    ensures PushesAt(pf, p + [POP], [], rest, s) && PushesAt(pf, p + [DUP], [v, v], rest, s)
  {
    hide Run, Exec, InterpretPlain;
    var pushed := s.(stack := s.stack + Vals([v]));
    StackInstructions();
    DuplicateTop(pushed, s.stack, v);
    assert Vals([v]) == [Val(v)];
    PopDrops(pushed, s.stack, Val(v));
    ThenPlain(pf, p, [v], POP, rest, s, s);
    ThenPlain(pf, p, [v], DUP, rest, s, s.(stack := pushed.stack + Vals([v])));
    assert s.stack + Vals([]) == s.stack;
    assert pushed.stack + Vals([v]) == s.stack + Vals([v, v]);
  }

  lemma {:induction false} AfterTwo(pf: FloatParser, p: bytes, v: Value, w: Value, rest: bytes, s: State)
    requires Pushes(pf, p, [v, w])
    ensures PushesAt(pf, p + [BUILD], [v], rest, s)
    ensures forall op <- {REDUCE, NEWOBJ, STACK_GLOBAL} :: PushesAt(pf, p + [op], [PyNone], rest, s)
  {
    hide Run, Exec, InterpretPlain;
    var pushed := s.(stack := s.stack + Vals([v, w]));
    StackInstructions();
    ValueOpcodes(pushed, s.stack, [v, w]);
    assert pushed.stack == s.stack + Vals([v]) + Vals([w]);
    ValueOpcodes(pushed, s.stack + Vals([v]), [w]);
    assert Vals([PyNone]) == [Val(PyNone)];
    hide Vals;
    ThenPlain(pf, p, [v, w], BUILD, rest, s, s.(stack := s.stack + Vals([v])));
    forall op | op in {REDUCE, NEWOBJ, STACK_GLOBAL}
      ensures PushesAt(pf, p + [op], [PyNone], rest, s)
    {
      ThenPlain(pf, p, [v, w], op, rest, s, s.(stack := s.stack + [Val(PyNone)]));
    }
  }

  lemma {:induction false} MarkAndPop(pf: FloatParser, p: bytes, vs: seq<Value>, rest: bytes, s: State)
    requires Pushes(pf, p, vs)
    ensures PushesAt(pf, [MARK] + p + [POP_MARK], [], rest, s)
  {
    hide Run, Exec, InterpretPlain, Vals;
    var marked := s.(stack := s.stack + [Mark]);
    StackInstructions();
    MarkOpcodes(marked.(stack := marked.stack + Vals(vs)), s.stack, vs);
    ThenPlain(pf, p, vs, POP_MARK, rest, marked, s);
    RunMark(pf, p + [POP_MARK] + rest, s);
    assert [MARK] + p + [POP_MARK] + rest == [MARK] + (p + [POP_MARK] + rest);
    assert s.stack + Vals([]) == s.stack by { assert Vals([]) == []; }
  }

  /** GLOBAL skips its two names and leaves a placeholder. */
  lemma {:induction false} GlobalPlaceholder(pf: FloatParser, a: bytes, b: bytes)
    requires 10 !in a && 10 !in b
    ensures Pushes(pf, [GLOBAL] + (a + [10] + b + [10]), [PyNone])
  {
    hide Run, TakeLine;
    forall rest: bytes, s: State
      ensures PushesAt(pf, [GLOBAL] + (a + [10] + b + [10]), [PyNone], rest, s)
    {
      var code := [GLOBAL] + (a + [10] + b + [10]) + rest;
      assert code[1..] == a + [10] + (b + [10] + rest);
      TakesLine(a, b + [10] + rest);
      TakesLine(b, rest);
      GlobalMeaning(pf, code[1..]);
      RunStep(pf, code, Push(PyNone), rest, s);
      assert Vals([PyNone]) == [Val(PyNone)];
    }
  }
}
