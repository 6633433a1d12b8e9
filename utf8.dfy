/** UTF-8, as Python's `str.encode("utf-8")` produces it.  A Dafny `char` is a
    Unicode scalar value, so every string has an encoding. */
module Utf8 {
  import opened Wrappers
  import opened Bytes

  /** The values of the one to four bytes that encode one character: the code
      point's bits, six at a time from the right, behind a lead byte that gives
      the length. */
  function CodeUnits(c: char): (r: seq<int>)
    ensures 1 <= |r| <= 4
    ensures forall i :: 0 <= i < |r| ==> 0 <= r[i] < 0x100
  {
    var n := c as int;
    var low, q1 := n % 0x40, n / 0x40;
    var mid, q2 := q1 % 0x40, q1 / 0x40;
    var high, q3 := q2 % 0x40, q2 / 0x40;
    if n < 0x80 then [n]
    else if n < 0x800 then [0xC0 + q1, 0x80 + low]
    else if n < 0x1_0000 then [0xE0 + q2, 0x80 + mid, 0x80 + low]
    else [0xF0 + q3, 0x80 + high, 0x80 + mid, 0x80 + low]
  }

  /** The bytes that encode one character. */
  function EncodeChar(c: char): (r: seq<Byte>)
    ensures |r| == |CodeUnits(c)|
    ensures forall i :: 0 <= i < |r| ==> r[i] as int == CodeUnits(c)[i]
  {
    var units := CodeUnits(c);
    seq(|units|, i requires 0 <= i < |units| => FromInt(units[i]))
  }

  /** `s.encode("utf-8")`: the characters' encodings, in order. */
  function Encode(s: string): (r: seq<Byte>)
    ensures |s| <= |r| <= 4 * |s|
  {
    if s == [] then [] else EncodeChar(s[0]) + Encode(s[1..])
  }

  /** The value of a byte of the form 10xxxxxx. */
  predicate IsContinuation(x: int) {
    0x80 <= x < 0xC0
  }

  /** A code point that may stand as a `char`: not a surrogate, at most 0x10FFFF. */
  predicate IsScalar(n: int) {
    (0 <= n < 0xD800) || (0xE000 <= n < 0x11_0000)
  }

  /** The character a two-byte sequence encodes, if it is well formed. */
  function DecodeTwo(x0: int, x1: int): Option<char> {
    if !IsContinuation(x1) then None
    else
      var n := (x0 - 0xC0) * 0x40 + (x1 - 0x80);
      if 0x80 <= n < 0x800 then Some(n as char) else None
  }

  /** The character a three-byte sequence encodes, if it is well formed. */
  function DecodeThree(x0: int, x1: int, x2: int): Option<char> {
    if !IsContinuation(x1) || !IsContinuation(x2) then None
    else
      var n := ((x0 - 0xE0) * 0x40 + (x1 - 0x80)) * 0x40 + (x2 - 0x80);
      if 0x800 <= n < 0x1_0000 && IsScalar(n) then Some(n as char) else None
  }

  /** The character a four-byte sequence encodes, if it is well formed. */
  function DecodeFour(x0: int, x1: int, x2: int, x3: int): Option<char> {
    if !IsContinuation(x1) || !IsContinuation(x2) || !IsContinuation(x3) then None
    else
      var n := (((x0 - 0xF0) * 0x40 + (x1 - 0x80)) * 0x40 + (x2 - 0x80)) * 0x40 + (x3 - 0x80);
      if 0x1_0000 <= n < 0x11_0000 then Some(n as char) else None
  }

  /** How many bytes a sequence starting with this lead byte takes; 0 if the
      byte cannot start one. */
  function SequenceLength(x0: int): nat {
    if x0 < 0x80 then 1
    else if 0xC2 <= x0 < 0xE0 then 2
    else if 0xE0 <= x0 < 0xF0 then 3
    else if 0xF0 <= x0 < 0xF5 then 4
    else 0
  }

  /** Decodes the first character of `bytes` and says how many bytes it took;
      None for an ill-formed start (bad lead byte, missing or bad continuation
      byte, overlong form, surrogate, or beyond 0x10FFFF). */
  function DecodeFirst(bytes: seq<Byte>): (r: Option<(char, nat)>)
    ensures r.Some? ==> 1 <= r.value.1 <= |bytes| && r.value.1 <= 4
  {
    if bytes == [] then None
    else
      var length := SequenceLength(bytes[0] as int);
      var decoded :=
        if length == 0 || |bytes| < length then None
        else if length == 1 then Some(bytes[0] as int as char)
        else if length == 2 then DecodeTwo(bytes[0] as int, bytes[1] as int)
        else if length == 3 then DecodeThree(bytes[0] as int, bytes[1] as int, bytes[2] as int)
        else DecodeFour(bytes[0] as int, bytes[1] as int, bytes[2] as int, bytes[3] as int);
      match decoded
      case None => None
      case Some(c) => Some((c, length))
  }

  /** Decodes a whole byte string; None if any part of it is ill-formed. */
  function Decode(bytes: seq<Byte>): Option<string>
    decreases |bytes|
  {
    if bytes == [] then Some([])
    else
      match DecodeFirst(bytes)
      case None => None
      case Some((c, n)) =>
        match Decode(bytes[n..])
        case None => None
        case Some(rest) => Some([c] + rest)
  }

  /** The code units of a character decode back to it. */
  lemma DecodeCodeUnits(c: char)
    ensures var u := CodeUnits(c);
            SequenceLength(u[0]) == |u| &&
            (|u| == 1 ==> u[0] as char == c) &&
            (|u| == 2 ==> DecodeTwo(u[0], u[1]) == Some(c)) &&
            (|u| == 3 ==> DecodeThree(u[0], u[1], u[2]) == Some(c)) &&
            (|u| == 4 ==> DecodeFour(u[0], u[1], u[2], u[3]) == Some(c))
  {
    var n := c as int;
    var low, q1 := n % 0x40, n / 0x40;
    var mid, q2 := q1 % 0x40, q1 / 0x40;
    var high, q3 := q2 % 0x40, q2 / 0x40;
    assert n == q1 * 0x40 + low && q1 == q2 * 0x40 + mid && q2 == q3 * 0x40 + high;
  }

  /** Decoding the encoding of a character gives back that character and its length,
      whatever follows it. */
  lemma DecodeEncodeChar(c: char, rest: seq<Byte>)
    ensures DecodeFirst(EncodeChar(c) + rest) == Some((c, |EncodeChar(c)|))
  {
    var u, bytes := CodeUnits(c), EncodeChar(c) + rest;
    DecodeCodeUnits(c);
    assert forall i :: 0 <= i < |u| ==> bytes[i] as int == u[i];
  }

  /** Decoding inverts encoding. */
  lemma {:induction false} DecodeEncode(s: string)
    ensures Decode(Encode(s)) == Some(s)
  {
    if s != [] {
      var e := EncodeChar(s[0]);
      DecodeEncodeChar(s[0], Encode(s[1..]));
      assert (e + Encode(s[1..]))[|e|..] == Encode(s[1..]);
      DecodeEncode(s[1..]);
      assert [s[0]] + s[1..] == s;
    }
  }

  /** So distinct strings have distinct encodings. */
  lemma EncodeInjective(s: string, t: string)
    ensures Encode(s) == Encode(t) ==> s == t
  {
    DecodeEncode(s);
    DecodeEncode(t);
  }

  /** A string of ASCII characters encodes to one byte per character, its code. */
  lemma {:induction false} EncodeAscii(s: string)
    requires forall i :: 0 <= i < |s| ==> s[i] as int < 0x80
    ensures |Encode(s)| == |s|
    ensures forall i :: 0 <= i < |s| ==> Encode(s)[i] as int == s[i] as int
  {
    if s != [] {
      EncodeAscii(s[1..]);
    }
  }
}
