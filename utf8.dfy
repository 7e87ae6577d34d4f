/** `Buffer.from(text, 'utf-8')`: the UTF-8 bytes of a string, and a strict decoder
    that reads them back. */
module Utf8 {
  import opened Wrappers
  import opened Storage

  /** The one to four bytes UTF-8 writes for one Unicode scalar value. */
  function EncodeChar(c: char): (r: seq<byte>)
    ensures 1 <= |r| <= 4
  {
    var v := c as int;
    var q := v / 64;
    var q2 := q / 64;
    if v < 0x80 then [v as byte]
    else if v < 0x800 then [(0xC0 + q) as byte, (0x80 + v % 64) as byte]
    else if v < 0x10000 then
      [(0xE0 + q2) as byte, (0x80 + q % 64) as byte, (0x80 + v % 64) as byte]
    else
      [(0xF0 + q2 / 64) as byte, (0x80 + q2 % 64) as byte,
       (0x80 + q % 64) as byte, (0x80 + v % 64) as byte]
  }

  function Encode(s: string): (r: seq<byte>)
  {
    if s == [] then [] else EncodeChar(s[0]) + Encode(s[1..])
  }

  predicate IsContinuation(b: byte)
  {
    0x80 <= b < 0xC0
  }

  /** The scalar value a well-formed sequence at the head of `b` stands for, and how
      many bytes it takes; overlong forms, surrogates and values past U+10FFFF are
      refused. */
  function DecodeHead(b: seq<byte>): (r: Option<(char, nat)>)
    ensures r.Some? ==> 1 <= r.value.1 <= |b|
  {
    if b == [] then None
    else if b[0] < 0x80 then Some((b[0] as int as char, 1))
    else if b[0] < 0xC0 then None
    else if b[0] < 0xE0 then
      if |b| < 2 || !IsContinuation(b[1]) then None
      else
        var v := (b[0] as int - 0xC0) * 64 + (b[1] as int - 0x80);
        if v < 0x80 then None else Some((v as char, 2))
    else if b[0] < 0xF0 then
      if |b| < 3 || !IsContinuation(b[1]) || !IsContinuation(b[2]) then None
      else
        var v := ((b[0] as int - 0xE0) * 64 + (b[1] as int - 0x80)) * 64 + (b[2] as int - 0x80);
        if v < 0x800 || (0xD800 <= v < 0xE000) then None else Some((v as char, 3))
    else if b[0] < 0xF8 then
      if |b| < 4 || !IsContinuation(b[1]) || !IsContinuation(b[2]) || !IsContinuation(b[3]) then None
      else
        var v := (((b[0] as int - 0xF0) * 64 + (b[1] as int - 0x80)) * 64
                  + (b[2] as int - 0x80)) * 64 + (b[3] as int - 0x80);
        if v < 0x10000 || v > 0x10FFFF then None else Some((v as char, 4))
    else None
  }

  /** Strict UTF-8 decoding: nothing when any byte sequence is ill-formed. */
  function Decode(b: seq<byte>): Option<string>
    decreases |b|
  {
    if b == [] then Some([])
    else
      match DecodeHead(b)
      case None => None
      case Some((c, n)) =>
        match Decode(b[n..])
        case None => None
        case Some(rest) => Some([c] + rest)
  }

  /** The bytes of one character are read back as that character, whatever follows. */
  lemma DecodeEncodeChar(c: char, rest: seq<byte>)
    ensures DecodeHead(EncodeChar(c) + rest) == Some((c, |EncodeChar(c)|))
  {
    var v := c as int;
    if v < 0x80 {
      assert (EncodeChar(c) + rest)[0] == v as byte;
    } else if v < 0x800 {
      DecodeTwo(c, rest);
    } else if v < 0x10000 {
      DecodeThree(c, rest);
    } else {
      DecodeFour(c, rest);
    }
  }

  lemma DecodeTwo(c: char, rest: seq<byte>)
    requires 0x80 <= c as int < 0x800
    ensures DecodeHead(EncodeChar(c) + rest) == Some((c, 2))
  {
    var v := c as int;
    var q, lo := v / 64, v % 64;
    assert v == 64 * q + lo && 0 <= lo < 64;
    var b := EncodeChar(c) + rest;
    assert b[0] as int == 0xC0 + q && b[1] as int == 0x80 + lo;
  }

  lemma DecodeThree(c: char, rest: seq<byte>)
    requires 0x800 <= c as int < 0x10000
    ensures DecodeHead(EncodeChar(c) + rest) == Some((c, 3))
  {
    var v := c as int;
    var q, lo := v / 64, v % 64;
    var q2, mid := q / 64, q % 64;
    assert v == 64 * q + lo && 0 <= lo < 64;
    assert q == 64 * q2 + mid && 0 <= mid < 64;
    var b := EncodeChar(c) + rest;
    assert b[0] as int == 0xE0 + q2 && b[1] as int == 0x80 + mid && b[2] as int == 0x80 + lo;
  }

  lemma DecodeFour(c: char, rest: seq<byte>)
    requires 0x10000 <= c as int
    ensures DecodeHead(EncodeChar(c) + rest) == Some((c, 4))
  {
    var v := c as int;
    var q, lo := v / 64, v % 64;
    var q2, mid := q / 64, q % 64;
    var q3, top := q2 / 64, q2 % 64;
    assert v == 64 * q + lo && 0 <= lo < 64;
    assert q == 64 * q2 + mid && 0 <= mid < 64;
    assert q2 == 64 * q3 + top && 0 <= top < 64;
    var b := EncodeChar(c) + rest;
    assert b[0] as int == 0xF0 + q3 && b[1] as int == 0x80 + top;
    assert b[2] as int == 0x80 + mid && b[3] as int == 0x80 + lo;
  }

  /** Decoding what `Encode` wrote gives the original string back. */
  lemma {:induction false} DecodeEncode(s: string)
    ensures Decode(Encode(s)) == Some(s)
  {
    if s != [] {
      var e := EncodeChar(s[0]);
      DecodeEncodeChar(s[0], Encode(s[1..]));
      assert (e + Encode(s[1..]))[|e|..] == Encode(s[1..]);
      DecodeEncode(s[1..]);
      assert [s[0]] + s[1..] == s;
    }
  }

  /** ASCII text is written one byte per character, unchanged. */
  lemma {:induction false} EncodeAscii(s: string)
    requires forall i :: 0 <= i < |s| ==> s[i] < '\U{0080}'
    ensures |Encode(s)| == |s|
    ensures forall i :: 0 <= i < |s| ==> Encode(s)[i] as int == s[i] as int
  {
    if s != [] {
      EncodeAscii(s[1..]);
    }
  }
}
