/** The values the codec carries, and the opcode numbers of the pickle format. */
module PickleValue {
  import opened Bytes
  import opened Text

  /** Floats are their IEEE 754 bit patterns, so equality also covers NaN payloads. A dict is the
      sequence of its pairs: duplicate keys and order are kept. */
  datatype Value =
    | PyNone
    | Bool(b: bool)
    | Int(i: int64)
    | Float(bits: uint64)
    | Str(s: utf8)
    | ByteStr(data: bytes)
    | List(items: seq<Value>)
    | Tuple(items: seq<Value>)
    | Dict(pairs: seq<Pair>)

  datatype Pair = Pair(key: Value, val: Value)

  /** Every string and byte string in `v` has fewer than `limit` bytes. */
  predicate BlobsBelow(v: Value, limit: int)
    decreases v
  {
    match v
    case Str(s) => |s| < limit
    case ByteStr(s) => |s| < limit
    case List(items) => forall i :: 0 <= i < |items| ==> BlobsBelow(items[i], limit)
    case Tuple(items) => forall i :: 0 <= i < |items| ==> BlobsBelow(items[i], limit)
    case Dict(pairs) => forall i :: 0 <= i < |pairs| ==>
                          BlobsBelow(pairs[i].key, limit) && BlobsBelow(pairs[i].val, limit)
    case _ => true
  }

  /** The values whose blob lengths fit the four-byte length field. */
  predicate Encodable(v: Value) { BlobsBelow(v, TWO_32) }

  predicate AllEncodable(vs: seq<Value>) {
    forall i :: 0 <= i < |vs| ==> Encodable(vs[i])
  }

  const PROTO: byte := 0x80
  const STOP: byte := '.' as int
  const NONE: byte := 'N' as int
  const NEWTRUE: byte := 0x88
  const NEWFALSE: byte := 0x89
  const BININT1: byte := 'K' as int
  const BININT2: byte := 'M' as int
  const BININT: byte := 'J' as int
  const LONG1: byte := 0x8a
  const BINFLOAT: byte := 'G' as int
  const BINUNICODE: byte := 'X' as int
  const SHORT_BINUNICODE: byte := 0x8c
  const SHORT_BINBYTES: byte := 'C' as int
  const BINBYTES: byte := 'B' as int
  const BINBYTES8: byte := 0x8e
  const BINUNICODE8: byte := 0x8d
  const SHORT_BINSTRING: byte := 'U' as int
  const BINSTRING: byte := 'T' as int
  const EMPTY_LIST: byte := ']' as int
  const EMPTY_DICT: byte := '}' as int
  const EMPTY_TUPLE: byte := ')' as int
  const MARK: byte := '(' as int
  const APPEND: byte := 'a' as int
  const APPENDS: byte := 'e' as int
  const SETITEM: byte := 's' as int
  const SETITEMS: byte := 'u' as int
  const LIST: byte := 'l' as int
  const DICT: byte := 'd' as int
  const TUPLE: byte := 't' as int
  const TUPLE1: byte := 0x85
  const TUPLE2: byte := 0x86
  const TUPLE3: byte := 0x87
  const BINPUT: byte := 'q' as int
  const LONG_BINPUT: byte := 'r' as int
  const BINGET: byte := 'h' as int
  const LONG_BINGET: byte := 'j' as int
  const PUT: byte := 'p' as int
  const GET: byte := 'g' as int
  const MEMOIZE: byte := 0x94
  const FRAME: byte := 0x95
  const INT: byte := 'I' as int
  const FLOAT: byte := 'F' as int
  const STRING: byte := 'S' as int
  const UNICODE: byte := 'V' as int
  const POP: byte := '0' as int
  const DUP: byte := '2' as int
  const POP_MARK: byte := '1' as int
  const GLOBAL: byte := 'c' as int
  const REDUCE: byte := 'R' as int
  const BUILD: byte := 'b' as int
  const NEWOBJ: byte := 0x81
  const STACK_GLOBAL: byte := 0x93
}
