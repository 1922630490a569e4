/** The text forms that pickle's line-oriented opcodes read: UTF-8, white space, decimal integers. */
module Text {
  import opened Bytes
  import opened Common

  predicate Continuation(b: byte) { 0x80 <= b < 0xC0 }

  /** The length of the well-formed UTF-8 sequence (RFC 3629, section 4) at the head of `s`;
      0 when there is none. */
  function Utf8Head(s: bytes): (n: nat)
    ensures n <= |s|
  {
    if s == [] then 0
    else if s[0] < 0x80 then 1
    else if |s| >= 2 && 0xC2 <= s[0] < 0xE0 && Continuation(s[1]) then 2
    else if |s| >= 3 && 0xE0 <= s[0] < 0xF0 && Continuation(s[1]) && Continuation(s[2])
            && (s[0] == 0xE0 ==> s[1] >= 0xA0) && (s[0] == 0xED ==> s[1] < 0xA0) then 3
    else if |s| >= 4 && 0xF0 <= s[0] < 0xF5
            && Continuation(s[1]) && Continuation(s[2]) && Continuation(s[3])
            && (s[0] == 0xF0 ==> s[1] >= 0x90) && (s[0] == 0xF4 ==> s[1] < 0x90) then 4
    else 0
  }

  predicate ValidUtf8(s: bytes) {
    s == [] || (Utf8Head(s) > 0 && ValidUtf8(s[Utf8Head(s)..]))
  }

  /** A Rust `String`, as its bytes. */
  type utf8 = s: bytes | ValidUtf8(s) witness []

  /** The scalar value that the sequence at the head of `s` encodes. */
  function CodeOf(s: bytes): (c: int)
    requires Utf8Head(s) > 0
  {
    match Utf8Head(s)
    case 1 => s[0]
    case 2 => (s[0] as int - 0xC0) * 0x40 + (s[1] as int - 0x80)
    case 3 => (s[0] as int - 0xE0) * 0x1000 + (s[1] as int - 0x80) * 0x40 + (s[2] as int - 0x80)
    case _ =>
      (s[0] as int - 0xF0) * 0x4_0000 + (s[1] as int - 0x80) * 0x1000 + (s[2] as int - 0x80) * 0x40
        + (s[3] as int - 0x80)
  }

  /** The Unicode white-space code points. */
  predicate WhiteSpace(code: int) {
    || 9 <= code <= 13 || code == 0x20 || code == 0x85 || code == 0xA0 || code == 0x1680
    || 0x2000 <= code <= 0x200A || code in {0x2028, 0x2029, 0x202F, 0x205F, 0x3000}
  }

  /** One white-space character in UTF-8. */
  predicate IsSpace(c: bytes) { c != [] && Utf8Head(c) == |c| && WhiteSpace(CodeOf(c)) }

  function TrimStart(s: bytes): (t: bytes)
    ensures |t| <= |s|
  {
    if |s| >= 1 && IsSpace(s[..1]) then TrimStart(s[1..])
    else if |s| >= 2 && IsSpace(s[..2]) then TrimStart(s[2..])
    else if |s| >= 3 && IsSpace(s[..3]) then TrimStart(s[3..])
    else s
  }

  function TrimEnd(s: bytes): (t: bytes)
    ensures |t| <= |s|
  {
    if |s| >= 1 && IsSpace(s[|s| - 1..]) then TrimEnd(s[..|s| - 1])
    else if |s| >= 2 && IsSpace(s[|s| - 2..]) then TrimEnd(s[..|s| - 2])
    else if |s| >= 3 && IsSpace(s[|s| - 3..]) then TrimEnd(s[..|s| - 3])
    else s
  }

  function Trim(s: bytes): (t: bytes)
    ensures |t| <= |s|
  {
    TrimEnd(TrimStart(s))
  }

  /** Strips every leading and trailing `b`. */
  function TrimByte(s: bytes, b: byte): (t: bytes)
    ensures |t| <= |s|
  {
    if s != [] && s[0] == b then TrimByte(s[1..], b)
    else if s != [] && s[|s| - 1] == b then TrimByte(s[..|s| - 1], b)
    else s
  }

  predicate IsDigit(b: byte) { 0x30 <= b <= 0x39 }

  function Digits(s: bytes): nat
    requires forall i :: 0 <= i < |s| ==> IsDigit(s[i])
  {
    if s == [] then 0
    else
      assert IsDigit(s[|s| - 1]);
      10 * Digits(s[..|s| - 1]) + (s[|s| - 1] as int - 0x30)
  }

  /** An unsigned decimal numeral: at least one digit and nothing else. */
  function ParseDigits(s: bytes): Option<nat> {
    if s != [] && forall i :: 0 <= i < |s| ==> IsDigit(s[i]) then Some(Digits(s)) else None
  }

  function ParseI64(s: bytes): Option<int64> {
    var negative := s != [] && s[0] == '-' as int;
    var unsigned := if s != [] && (s[0] == '+' as int || negative) then s[1..] else s;
    match ParseDigits(unsigned)
    case None => None
    case Some(n) =>
      var v := if negative then 0 - (n as int) else n as int;
      if -TWO_63 <= v < TWO_63 then Some(v) else None
  }

  function ParseU32(s: bytes): Option<uint32> {
    match ParseDigits(if s != [] && s[0] == '+' as int then s[1..] else s)
    case None => None
    case Some(n) => if n < TWO_32 then Some(n) else None
  }
}
