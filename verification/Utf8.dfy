/** Which bytes are text, as `String::from_utf8` decides it: exactly the encodings of Unicode scalar values. */
module Utf8 {
  import opened Basics

  /** A code point that is not a surrogate. */
  predicate IsScalar(c: int) { 0 <= c < 0xD800 || 0xE000 <= c < 0x11_0000 }

  function Byte(b: int): byte
    requires 0 <= b < 256
  {
    b as byte
  }

  /** The encoding of one scalar value, section 3 of RFC 3629. */
  function Encode(c: int): Bytes
    requires IsScalar(c)
  {
    if c < 0x80 then [Byte(c)]
    else if c < 0x800 then [Byte(0xC0 + c / 0x40), Byte(0x80 + c % 0x40)]
    else if c < 0x1_0000 then [Byte(0xE0 + c / 0x1000), Byte(0x80 + c / 0x40 % 0x40), Byte(0x80 + c % 0x40)]
    else [Byte(0xF0 + c / 0x4_0000), Byte(0x80 + c / 0x1000 % 0x40), Byte(0x80 + c / 0x40 % 0x40), Byte(0x80 + c % 0x40)]
  }

  function EncodeAll(text: seq<int>): Bytes
    requires forall i :: 0 <= i < |text| ==> IsScalar(text[i])
  {
    if text == [] then [] else Encode(text[0]) + EncodeAll(text[1..])
  }

  predicate Between(b: byte, low: int, high: int) { low <= b as int <= high }

  predicate IsTail(b: byte) { Between(b, 0x80, 0xBF) }

  /** The size of the well-formed character at the front, or 0 when there is none, section 4 of RFC 3629. */
  function Width(s: Bytes): (w: nat)
    ensures w <= |s| && w <= 4
  {
    if s == [] then 0
    else if Between(s[0], 0, 0x7F) then 1
    else if |s| < 2 then 0
    else if Between(s[0], 0xC2, 0xDF) then if IsTail(s[1]) then 2 else 0
    else if |s| < 3 then 0
    else if Between(s[0], 0xE0, 0xEF) then
      if Between(s[1], if s[0] == 0xE0 then 0xA0 else 0x80, if s[0] == 0xED then 0x9F else 0xBF) && IsTail(s[2]) then 3 else 0
    else if |s| < 4 then 0
    else if Between(s[0], 0xF0, 0xF4) then
      if Between(s[1], if s[0] == 0xF0 then 0x90 else 0x80, if s[0] == 0xF4 then 0x8F else 0xBF) && IsTail(s[2]) && IsTail(s[3])
      then 4 else 0
    else 0
  }

  predicate IsUtf8(s: Bytes) {
    s == [] || (Width(s) > 0 && IsUtf8(s[Width(s)..]))
  }

  /** The scalar value of the character at the front. */
  function Decode(s: Bytes): int
    requires Width(s) > 0
  {
    match Width(s)
    case 1 => s[0] as int
    case 2 => (s[0] as int - 0xC0) * 0x40 + (s[1] as int - 0x80)
    case 3 => (s[0] as int - 0xE0) * 0x1000 + (s[1] as int - 0x80) * 0x40 + (s[2] as int - 0x80)
    case _ =>
      (s[0] as int - 0xF0) * 0x4_0000 + (s[1] as int - 0x80) * 0x1000 + (s[2] as int - 0x80) * 0x40 + (s[3] as int - 0x80)
  }

  lemma Digits(high: int, low: int)
    requires 0 <= low < 0x40
    ensures (high * 0x40 + low) / 0x40 == high && (high * 0x40 + low) % 0x40 == low
  {
  }

  lemma DecodesTwo(s: Bytes)
    requires Width(s) == 2
    ensures IsScalar(Decode(s)) && Encode(Decode(s)) == s[..2]
  {
    Digits(s[0] as int - 0xC0, s[1] as int - 0x80);
  }

  lemma DecodesThree(s: Bytes)
    requires Width(s) == 3
    ensures IsScalar(Decode(s)) && Encode(Decode(s)) == s[..3]
  {
    var front := (s[0] as int - 0xE0) * 0x40 + (s[1] as int - 0x80);
    Digits(front, s[2] as int - 0x80);
    Digits(s[0] as int - 0xE0, s[1] as int - 0x80);
  }

  lemma DecodesFour(s: Bytes)
    requires Width(s) == 4
    ensures IsScalar(Decode(s)) && Encode(Decode(s)) == s[..4]
  {
    var front := (s[0] as int - 0xF0) * 0x40 + (s[1] as int - 0x80);
    Digits(front * 0x40 + (s[2] as int - 0x80), s[3] as int - 0x80);
    Digits(front, s[2] as int - 0x80);
    Digits(s[0] as int - 0xF0, s[1] as int - 0x80);
  }

  lemma DecodesToScalar(s: Bytes)
    requires Width(s) > 0
    ensures IsScalar(Decode(s)) && Encode(Decode(s)) == s[..Width(s)]
  {
    if Width(s) == 2 {
      DecodesTwo(s);
    } else if Width(s) == 3 {
      DecodesThree(s);
    } else if Width(s) == 4 {
      DecodesFour(s);
    }
  }

  lemma EncodesToCharacter(c: int, rest: Bytes)
    requires IsScalar(c)
    ensures Width(Encode(c) + rest) == |Encode(c)|
  {
  }

  /** Bytes are accepted exactly when they encode some text. */
  lemma {:induction false} TextExactly(s: Bytes)
    ensures IsUtf8(s) <==> exists text :: IsEncoding(text, s)
  {
    if IsUtf8(s) {
      var text := TextOf(s);
    }
    if text :| IsEncoding(text, s) {
      EncodingIsText(text);
    }
  }

  ghost predicate IsEncoding(text: seq<int>, s: Bytes) {
    (forall i :: 0 <= i < |text| ==> IsScalar(text[i])) && EncodeAll(text) == s
  }

  lemma {:induction false} TextOf(s: Bytes) returns (text: seq<int>)
    requires IsUtf8(s)
    ensures IsEncoding(text, s)
  {
    if s == [] {
      text := [];
    } else {
      var rest := TextOf(s[Width(s)..]);
      DecodesToScalar(s);
      text := [Decode(s)] + rest;
      assert text[1..] == rest;
      assert s == s[..Width(s)] + s[Width(s)..];
    }
  }

  lemma {:induction false} EncodingIsText(text: seq<int>)
    requires forall i :: 0 <= i < |text| ==> IsScalar(text[i])
    ensures IsUtf8(EncodeAll(text))
  {
    if text != [] {
      EncodingIsText(text[1..]);
      EncodesToCharacter(text[0], EncodeAll(text[1..]));
      assert EncodeAll(text)[|Encode(text[0])|..] == EncodeAll(text[1..]);
    }
  }
}
