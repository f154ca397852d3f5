/**
 UTF-8: every character as one to four bytes, and back. Decoding is strict: overlong forms, stray
 continuation bytes and surrogates are refused, so valid bytes and strings correspond one to one.
 */
module Utf8 {
  import opened Arithmetic
  import opened Framing

  datatype Decoded = Decoded(text: string) | Invalid

  /** The first character of some bytes and how many of them it takes. */
  datatype First = First(c: char, size: nat) | NoChar

  function EncodeChar(c: char): (bytes: seq<byte>)
    ensures |bytes| > 0
  {
    var n := c as int;
    if n < 0x80 then [n as byte]
    else if n < 0x800 then Two(n)
    else if n < 0x1_0000 then Three(n)
    else Four(n)
  }

  function Two(n: nat): seq<byte>
    requires n < 0x800
  {
    [(0xC0 + n / 0x40) as byte, Tail(n)]
  }

  function Three(n: nat): seq<byte>
    requires n < 0x1_0000
  {
    [(0xE0 + n / 0x1000) as byte, Tail(n / 0x40), Tail(n)]
  }

  function Four(n: nat): seq<byte>
    requires n < 0x11_0000
  {
    [(0xF0 + n / 0x4_0000) as byte, Tail(n / 0x1000), Tail(n / 0x40), Tail(n)]
  }

  /** A continuation byte with the low six bits. */
  function Tail(n: nat): byte {
    (0x80 + n % 0x40) as byte
  }

  function Encode(text: string): seq<byte> {
    if text == [] then [] else EncodeChar(text[0]) + Encode(text[1..])
  }

  predicate IsTail(b: byte) { 0x80 <= b < 0xC0 }

  /** The bits of a continuation byte after some higher bits. */
  function Next(high: nat, b: byte): nat
    requires IsTail(b)
  {
    high * 0x40 + (b as int - 0x80)
  }

  predicate Scalar(n: int) { 0 <= n < 0xD800 || 0xE000 <= n < 0x11_0000 }

  function CharOf(n: nat, least: nat, size: nat): First {
    if least <= n && Scalar(n) then First(n as char, size) else NoChar
  }

  function FirstChar(bytes: seq<byte>): (first: First)
    ensures first.First? ==> 0 < first.size <= |bytes|
  {
    if bytes == [] then NoChar
    else if bytes[0] < 0x80 then First(bytes[0] as int as char, 1)
    else if 0xC0 <= bytes[0] < 0xE0 && |bytes| >= 2 && IsTail(bytes[1]) then
      CharOf(Next(bytes[0] as int - 0xC0, bytes[1]), 0x80, 2)
    else if 0xE0 <= bytes[0] < 0xF0 && |bytes| >= 3 && IsTail(bytes[1]) && IsTail(bytes[2]) then
      CharOf(Next(Next(bytes[0] as int - 0xE0, bytes[1]), bytes[2]), 0x800, 3)
    else if 0xF0 <= bytes[0] < 0xF8 && |bytes| >= 4 && IsTail(bytes[1]) && IsTail(bytes[2]) && IsTail(bytes[3]) then
      CharOf(Next(Next(Next(bytes[0] as int - 0xF0, bytes[1]), bytes[2]), bytes[3]), 0x1_0000, 4)
    else NoChar
  }

  function Decode(bytes: seq<byte>): Decoded
    decreases |bytes|
  {
    if bytes == [] then Decoded([])
    else
      match FirstChar(bytes)
      case NoChar => Invalid
      case First(c, size) =>
        match Decode(bytes[size..])
        case Invalid => Invalid
        case Decoded(rest) => Decoded([c] + rest)
  }

  lemma TailBits(n: nat)
    ensures IsTail(Tail(n)) && Next(n / 0x40, Tail(n)) == n
  {
    DivMod(n, 0x40);
  }

  lemma FirstOfTwo(n: nat, rest: seq<byte>)
    requires 0x80 <= n < 0x800
    ensures FirstChar(Two(n) + rest) == First(n as char, 2)
  {
    TailBits(n);
    hide Next, Tail, IsTail;
    var bytes := Two(n) + rest;
    assert bytes[0] == (0xC0 + n / 0x40) as byte && bytes[1] == Tail(n);
  }

  lemma FirstOfThree(n: nat, rest: seq<byte>)
    requires 0x800 <= n < 0x1_0000 && Scalar(n)
    ensures FirstChar(Three(n) + rest) == First(n as char, 3)
  {
    TailBits(n);
    TailBits(n / 0x40);
    assert n / 0x40 / 0x40 == n / 0x1000;
    hide Next, Tail, IsTail;
    var bytes := Three(n) + rest;
    assert bytes[0] == (0xE0 + n / 0x1000) as byte && bytes[1] == Tail(n / 0x40) && bytes[2] == Tail(n);
  }

  lemma FirstOfFour(n: nat, rest: seq<byte>)
    requires 0x1_0000 <= n < 0x11_0000
    ensures FirstChar(Four(n) + rest) == First(n as char, 4)
  {
    TailBits(n);
    TailBits(n / 0x40);
    TailBits(n / 0x1000);
    assert n / 0x40 / 0x40 == n / 0x1000 && n / 0x1000 / 0x40 == n / 0x4_0000;
    hide Next, Tail, IsTail;
    var bytes := Four(n) + rest;
    assert bytes[0] == (0xF0 + n / 0x4_0000) as byte && bytes[1] == Tail(n / 0x1000);
    assert bytes[2] == Tail(n / 0x40) && bytes[3] == Tail(n);
  }

  lemma FirstOfChar(c: char, rest: seq<byte>)
    ensures FirstChar(EncodeChar(c) + rest) == First(c, |EncodeChar(c)|)
  {
    var n := c as int;
    if n < 0x80 {
    } else if n < 0x800 {
      FirstOfTwo(n, rest);
      hide FirstChar;
    } else if n < 0x1_0000 {
      FirstOfThree(n, rest);
      hide FirstChar;
    } else {
      FirstOfFour(n, rest);
      hide FirstChar;
    }
  }

  lemma {:induction false} DecodeEncode(text: string)
    ensures Decode(Encode(text)) == Decoded(text)
  {
    if text != [] {
      var bytes := EncodeChar(text[0]);
      FirstOfChar(text[0], Encode(text[1..]));
      DecodeEncode(text[1..]);
      hide EncodeChar, FirstChar;
      assert (bytes + Encode(text[1..]))[|bytes|..] == Encode(text[1..]);
    }
  }

  lemma NextBits(high: nat, b: byte)
    requires IsTail(b)
    ensures Next(high, b) / 0x40 == high && Tail(Next(high, b)) == b
  {
    DivModUnique(Next(high, b), 0x40, high, b as int - 0x80);
  }

  lemma TwoIs(high: nat, b: byte)
    requires IsTail(b) && high < 0x20
    ensures Next(high, b) < 0x800 && Two(Next(high, b)) == [(0xC0 + high) as byte, b]
  {
    NextBits(high, b);
    hide Tail;
  }

  lemma ThreeIs(high: nat, b: byte, c: byte)
    requires IsTail(b) && IsTail(c) && high < 0x10
    ensures Next(Next(high, b), c) < 0x1_0000 && Three(Next(Next(high, b), c)) == [(0xE0 + high) as byte, b, c]
  {
    var n := Next(Next(high, b), c);
    NextBits(high, b);
    NextBits(Next(high, b), c);
    assert n / 0x1000 == n / 0x40 / 0x40;
    hide Tail;
  }

  lemma FourIs(high: nat, b: byte, c: byte, d: byte)
    requires IsTail(b) && IsTail(c) && IsTail(d) && high < 8 && Next(Next(Next(high, b), c), d) < 0x11_0000
    ensures Four(Next(Next(Next(high, b), c), d)) == [(0xF0 + high) as byte, b, c, d]
  {
    var n := Next(Next(Next(high, b), c), d);
    NextBits(high, b);
    NextBits(Next(high, b), c);
    NextBits(Next(Next(high, b), c), d);
    assert n / 0x1000 == n / 0x40 / 0x40 && n / 0x4_0000 == n / 0x1000 / 0x40;
    hide Tail;
  }

  /** Bytes that decode are the encoding of what they decode to. */
  lemma FirstIsEncoded(bytes: seq<byte>)
    requires FirstChar(bytes).First?
    ensures bytes[..FirstChar(bytes).size] == EncodeChar(FirstChar(bytes).c)
  {
    hide Next, Two, Three, Four;
    if bytes[0] < 0x80 {
    } else if bytes[0] < 0xE0 {
      TwoIs(bytes[0] as int - 0xC0, bytes[1]);
    } else if bytes[0] < 0xF0 {
      ThreeIs(bytes[0] as int - 0xE0, bytes[1], bytes[2]);
    } else {
      FourIs(bytes[0] as int - 0xF0, bytes[1], bytes[2], bytes[3]);
    }
  }

  lemma DecodeUnfolds(bytes: seq<byte>)
    requires bytes != [] && Decode(bytes).Decoded?
    ensures var first := FirstChar(bytes);
            && first.First? && Decode(bytes[first.size..]).Decoded?
            && Decode(bytes).text == [first.c] + Decode(bytes[first.size..]).text
  {
    hide FirstChar;
  }

  lemma EncodeCons(c: char, text: string)
    ensures Encode([c] + text) == EncodeChar(c) + Encode(text)
  {
    hide EncodeChar;
    assert ([c] + text)[1..] == text;
  }

  lemma NoBytes()
    ensures Decode([]) == Decoded([]) && Encode([]) == []
  {
  }

  lemma {:induction false} EncodeDecode(bytes: seq<byte>)
    requires Decode(bytes).Decoded?
    ensures Encode(Decode(bytes).text) == bytes
    decreases |bytes|
  {
    hide *;
    NoBytes();
    if bytes != [] {
      var first := FirstChar(bytes);
      DecodeUnfolds(bytes);
      FirstIsEncoded(bytes);
      EncodeDecode(bytes[first.size..]);
      EncodeCons(first.c, Decode(bytes[first.size..]).text);
      assert bytes[..first.size] + bytes[first.size..] == bytes;
    }
  }

  /** One character of each length. */
  lemma EncodedExamples()
    ensures EncodeChar('A') == [0x41]
    ensures EncodeChar('\U{A2}') == [0xC2, 0xA2]
    ensures EncodeChar('\U{20AC}') == [0xE2, 0x82, 0xAC]
    ensures EncodeChar('\U{1F600}') == [0xF0, 0x9F, 0x98, 0x80]
  {
  }
}
