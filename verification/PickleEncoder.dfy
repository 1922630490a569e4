/** The encoder: a value becomes a stack-machine program of protocol 2. */
module PickleEncoder {
  import opened Bytes
  import opened Common
  import opened PickleLong
  import opened PickleValue
  import opened Text

  /** The program that pushes `v`. */
  function Encode(v: Value): bytes
    decreases v
  {
    match v
    case PyNone => [NONE]
    case Bool(b) => [if b then NEWTRUE else NEWFALSE]
    case Int(i) => EncodedInt(i)
    case Float(bits) => [BINFLOAT] + ToBe(bits, 8)
    case Str(s) => [BINUNICODE] + ToLe(|s|, 4) + s
    case ByteStr(s) =>
      (if |s| < 256 then [SHORT_BINBYTES, |s|] else [BINBYTES] + ToLe(|s|, 4)) + s
    case List(items) =>
      if items == [] then [EMPTY_LIST] else [EMPTY_LIST, MARK] + EncodeAll(items) + [APPENDS]
    case Tuple(items) =>
      if items == [] then [EMPTY_TUPLE]
      else if |items| == 1 then EncodeAll(items) + [TUPLE1]
      else if |items| == 2 then EncodeAll(items) + [TUPLE2]
      else if |items| == 3 then EncodeAll(items) + [TUPLE3]
      else [MARK] + EncodeAll(items) + [TUPLE]
    case Dict(pairs) =>
      if pairs == [] then [EMPTY_DICT] else [EMPTY_DICT, MARK] + EncodePairs(pairs) + [SETITEMS]
  }

  function EncodeAll(vs: seq<Value>): bytes
    decreases vs
  {
    if vs == [] then [] else EncodeAll(vs[..|vs| - 1]) + Encode(vs[|vs| - 1])
  }

  function EncodePairs(ps: seq<Pair>): bytes
    decreases ps
  {
    if ps == [] then [] else EncodePairs(ps[..|ps| - 1]) + EncodePair(ps[|ps| - 1])
  }

  function EncodePair(p: Pair): bytes
    decreases p
  {
    Encode(p.key) + Encode(p.val)
  }

  /** The first of the four integer opcodes whose range test holds. */
  function EncodedInt(i: int64): bytes {
    if 0 <= i <= 0xFF then [BININT1, i]
    else if 0 <= i <= 0xFFFF then [BININT2] + ToLe(i, 2)
    else if -0x8000_0000 <= i <= 0x7FFF_FFFF then [BININT] + ToLe(i, 4)
    else
      LongBytesWidth(i);
      [LONG1, |LongBytes(i)|] + LongBytes(i)
  }

  function Serialize(v: Value): bytes {
    [PROTO, 2] + Encode(v) + [STOP]
  }

  /** The growing output buffer. */
  class Buffer {
    var data: bytes

    constructor ()
      ensures data == []
    {
      data := [];
    }

    method Push(b: byte)
      modifies this
      ensures data == old(data) + [b]
    {
      data := data + [b];
    }

    method Extend(s: bytes)
      modifies this
      ensures data == old(data) + s
    {
      data := data + s;
    }
  }

  method PickleSerialize(value: Value) returns (r: bytes)
    ensures r == Serialize(value)
  {
    var buf := new Buffer();
    buf.Push(PROTO);
    buf.Push(2);
    EncodeValue(buf, value);
    buf.Push(STOP);
    r := buf.data;
  }

  method EncodeValue(buf: Buffer, value: Value)
    modifies buf
    ensures buf.data == old(buf.data) + Encode(value)
    decreases value, 1
  {
    match value
    case PyNone => buf.Push(NONE);
    case Bool(b) =>
      if b { buf.Push(NEWTRUE); } else { buf.Push(NEWFALSE); }
    case Int(i) => EncodeInt(buf, i);
    case Float(bits) =>
      buf.Push(BINFLOAT);
      buf.Extend(ToBe(bits, 8));
    case Str(s) => EncodeStr(buf, s);
    case ByteStr(s) => EncodeByteStr(buf, s);
    case List(items) => EncodeList(buf, items);
    case Tuple(items) => EncodeTuple(buf, items);
    case Dict(pairs) => EncodeDict(buf, pairs);
  }

  method EncodeStr(buf: Buffer, s: utf8)
    modifies buf
    ensures buf.data == old(buf.data) + Encode(Str(s))
  {
    buf.Push(BINUNICODE);
    buf.Extend(ToLe(|s|, 4));
    buf.Extend(s);
  }

  method EncodeByteStr(buf: Buffer, s: bytes)
    modifies buf
    ensures buf.data == old(buf.data) + Encode(ByteStr(s))
  {
    if |s| < 256 {
      buf.Push(SHORT_BINBYTES);
      buf.Push(|s|);
    } else {
      buf.Push(BINBYTES);
      buf.Extend(ToLe(|s|, 4));
    }
    buf.Extend(s);
  }

  method EncodeList(buf: Buffer, items: seq<Value>)
    modifies buf
    ensures buf.data == old(buf.data) + Encode(List(items))
    decreases items, 1
  {
    hide EncodeAll;
    buf.Push(EMPTY_LIST);
    if items != [] {
      buf.Push(MARK);
      EncodeItems(buf, items);
      buf.Push(APPENDS);
    }
  }

  method EncodeDict(buf: Buffer, pairs: seq<Pair>)
    modifies buf
    ensures buf.data == old(buf.data) + Encode(Dict(pairs))
    decreases pairs, 1
  {
    hide EncodePairs;
    buf.Push(EMPTY_DICT);
    if pairs != [] {
      buf.Push(MARK);
      EncodeDictItems(buf, pairs);
      buf.Push(SETITEMS);
    }
  }

  method EncodeTuple(buf: Buffer, items: seq<Value>)
    modifies buf
    ensures buf.data == old(buf.data) + Encode(Tuple(items))
    decreases items, 1
  {
    hide EncodeAll;
    if |items| == 0 {
      buf.Push(EMPTY_TUPLE);
    } else if |items| <= 3 {
      EncodeItems(buf, items);
      buf.Push(if |items| == 1 then TUPLE1 else if |items| == 2 then TUPLE2 else TUPLE3);
    } else {
      buf.Push(MARK);
      EncodeItems(buf, items);
      buf.Push(TUPLE);
    }
  }

  method EncodeItems(buf: Buffer, items: seq<Value>)
    modifies buf
    ensures buf.data == old(buf.data) + EncodeAll(items)
    decreases items, 0
  {
    hide Encode;
    for i := 0 to |items|
      invariant buf.data == old(buf.data) + EncodeAll(items[..i])
    {
      EncodeValue(buf, items[i]);
      assert items[..i + 1][..i] == items[..i];
    }
    assert items[..|items|] == items;
  }

  method EncodeDictItems(buf: Buffer, pairs: seq<Pair>)
    modifies buf
    ensures buf.data == old(buf.data) + EncodePairs(pairs)
    decreases pairs, 0
  {
    hide Encode, EncodePair;
    for i := 0 to |pairs|
      invariant buf.data == old(buf.data) + EncodePairs(pairs[..i])
    {
      EncodeDictItem(buf, pairs[i]);
      assert pairs[..i + 1][..i] == pairs[..i];
    }
    assert pairs[..|pairs|] == pairs;
  }

  method EncodeDictItem(buf: Buffer, pair: Pair)
    modifies buf
    ensures buf.data == old(buf.data) + EncodePair(pair)
    decreases pair, 2
  {
    EncodeValue(buf, pair.key);
    EncodeValue(buf, pair.val);
  }

  method EncodeInt(buf: Buffer, v: int64)
    modifies buf
    ensures buf.data == old(buf.data) + EncodedInt(v)
  {
    hide ToLe, LongBytes;
    if 0 <= v <= 0xFF {
      buf.Push(BININT1);
      buf.Push(v);
    } else if 0 <= v <= 0xFFFF {
      buf.Push(BININT2);
      buf.Extend(ToLe(v, 2));
    } else if -0x8000_0000 <= v <= 0x7FFF_FFFF {
      buf.Push(BININT);
      buf.Extend(ToLe(v, 4));
    } else {
      buf.Push(LONG1);
      var s := LongToBytes(v);
      LongBytesWidth(v);
      buf.Push(|s|);
      buf.Extend(s);
    }
  }
}
