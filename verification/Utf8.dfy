/** UTF-8 as section 3 of RFC 3629 defines it: shortest forms of scalar values only. */
module Utf8 {
  import opened Wrappers
  import opened SseFraming

  function Continuation(n: nat): Byte { 0x80 + n % 0x40 }

  /** What a byte carries above its marker. */
  function Bits(b: Byte, marker: int): int { (b as int) - marker }

  predicate Continues(b: Byte) { 0x80 <= b < 0xC0 }

  function EncodeChar(c: char): (r: Bytes)
    ensures 0 < |r| <= 4
  {
    var n := c as int;
    if n < 0x80 then [n]
    else if n < 0x800 then [0xC0 + n / 0x40, Continuation(n)]
    else if n < 0x10000 then [0xE0 + n / 0x1000, Continuation(n / 0x40), Continuation(n)]
    else [0xF0 + n / 0x40000, Continuation(n / 0x1000), Continuation(n / 0x40), Continuation(n)]
  }

  function Encode(s: string): Bytes {
    if s == [] then [] else EncodeChar(s[0]) + Encode(s[1..])
  }

  predicate IsScalar(n: int) { 0 <= n < 0xD800 || 0xE000 <= n < 0x11_0000 }

  /** A code point from its range, if it is a scalar value of at least `least`. */
  function Scalar(n: int, least: int): Option<char> {
    if n >= least && IsScalar(n) then Some(n as char) else None
  }

  /** How many bytes the lead byte announces; zero if it cannot lead. */
  function Announced(lead: Byte): nat {
    if lead < 0x80 then 1
    else if lead < 0xC0 then 0
    else if lead < 0xE0 then 2
    else if lead < 0xF0 then 3
    else if lead < 0xF8 then 4
    else 0
  }

  /** The first character, if the bytes start with a well-formed one. */
  function DecodeChar(b: Bytes): (r: Option<char>)
    requires b != []
    ensures r.Some? ==> 0 < Announced(b[0]) <= |b|
  {
    var n := Announced(b[0]);
    if n == 0 || n > |b| then None
    else if n == 1 then Scalar(b[0], 0)
    else if n == 2 then
      if Continues(b[1]) then Scalar(Bits(b[0], 0xC0) * 0x40 + Bits(b[1], 0x80), 0x80) else None
    else if n == 3 then
      if Continues(b[1]) && Continues(b[2]) then Scalar(Bits(b[0], 0xE0) * 0x1000 + Bits(b[1], 0x80) * 0x40 + Bits(b[2], 0x80), 0x800) else None
    else if Continues(b[1]) && Continues(b[2]) && Continues(b[3]) then
      Scalar(Bits(b[0], 0xF0) * 0x40000 + Bits(b[1], 0x80) * 0x1000 + Bits(b[2], 0x80) * 0x40 + Bits(b[3], 0x80), 0x10000)
    else None
  }

  function Decode(b: Bytes): Option<string>
    decreases |b|
  {
    if b == [] then Some([])
    else
      match DecodeChar(b)
      case None => None
      case Some(c) =>
        match Decode(b[Announced(b[0])..])
        case None => None
        case Some(s) => Some([c] + s)
  }

  lemma CharRoundTrip(c: char, rest: Bytes)
    ensures var b := EncodeChar(c) + rest;
            DecodeChar(b) == Some(c) && Announced(b[0]) == |EncodeChar(c)| && b[Announced(b[0])..] == rest
  {
    var n, e := c as int, EncodeChar(c);
    assert (e + rest)[..|e|] == e && (e + rest)[|e|..] == rest;
    assert forall i | 0 <= i < |e| :: (e + rest)[i] == e[i];
    assert n < 0x11_0000;
    if 0x80 <= n < 0x800 {
      assert n == (n / 0x40) * 0x40 + n % 0x40;
    } else if 0x800 <= n < 0x10000 {
      assert n / 0x40 / 0x40 == n / 0x1000;
      assert n == (n / 0x1000) * 0x1000 + (n / 0x40 % 0x40) * 0x40 + n % 0x40;
    } else if 0x10000 <= n {
      assert n / 0x40 / 0x40 == n / 0x1000 && n / 0x1000 / 0x40 == n / 0x40000;
      assert n == (n / 0x40000) * 0x40000 + (n / 0x1000 % 0x40) * 0x1000 + (n / 0x40 % 0x40) * 0x40 + n % 0x40;
    }
  }

  /** Every text survives encoding and decoding. */
  lemma {:induction false} DecodeEncode(s: string)
    ensures Decode(Encode(s)) == Some(s)
  {
    if s != [] {
      hide DecodeChar, EncodeChar, Announced;
      CharRoundTrip(s[0], Encode(s[1..]));
      DecodeEncode(s[1..]);
      assert s == [s[0]] + s[1..];
    }
  }

  lemma {:induction false} EncodeConcat(a: string, b: string)
    ensures Encode(a + b) == Encode(a) + Encode(b)
  {
    hide EncodeChar;
    if a == [] {
      assert a + b == b;
    } else {
      assert (a + b)[1..] == a[1..] + b;
      EncodeConcat(a[1..], b);
    }
  }

  /** An ASCII byte only ever stands for its own character. */
  lemma {:induction false} AsciiByte(s: string, c: char)
    requires c as int < 0x80
    ensures c as int in Encode(s) ==> c in s
  {
    if s != [] {
      AsciiByte(s[1..], c);
      AsciiChar(s[0], c);
    }
  }

  lemma AsciiChar(d: char, c: char)
    requires c as int < 0x80
    ensures c as int in EncodeChar(d) ==> c == d
  {
  }

  /** What decodes was written by the encoder: there is one encoding of a text. */
  lemma {:induction false} EncodeDecode(b: Bytes)
    requires Decode(b).Some?
    ensures Encode(Decode(b).value) == b
    decreases |b|
  {
    hide DecodeChar, EncodeChar, Announced;
    if b != [] {
      var n := Announced(b[0]);
      var c, tail := DecodeChar(b).value, Decode(b[n..]).value;
      EncodeDecode(b[n..]);
      CharEncoding(b);
      assert ([c] + tail)[1..] == tail;
      assert b == b[..n] + b[n..];
    }
  }

  lemma CharEncoding(b: Bytes)
    requires b != [] && DecodeChar(b).Some?
    ensures EncodeChar(DecodeChar(b).value) == b[..Announced(b[0])]
  {
    var k := Announced(b[0]);
    if k == 2 { TwoBytes(b); } else if k == 3 { ThreeBytes(b); } else if k == 4 { FourBytes(b); }
  }

  lemma TwoBytes(b: Bytes)
    requires b != [] && DecodeChar(b).Some? && Announced(b[0]) == 2
    ensures EncodeChar(DecodeChar(b).value) == b[..2]
  {
    SixBits(Bits(b[0], 0xC0), Bits(b[1], 0x80));
  }

  lemma ThreeBytes(b: Bytes)
    requires b != [] && DecodeChar(b).Some? && Announced(b[0]) == 3
    ensures EncodeChar(DecodeChar(b).value) == b[..3]
  {
    var n := DecodeChar(b).value as int;
    SixBits(Bits(b[0], 0xE0), Bits(b[1], 0x80));
    SixBits(Bits(b[0], 0xE0) * 0x40 + Bits(b[1], 0x80), Bits(b[2], 0x80));
    assert n / 0x1000 == n / 0x40 / 0x40;
  }

  lemma FourBytes(b: Bytes)
    requires b != [] && DecodeChar(b).Some? && Announced(b[0]) == 4
    ensures EncodeChar(DecodeChar(b).value) == b[..4]
  {
    var n := DecodeChar(b).value as int;
    SixBits(Bits(b[0], 0xF0), Bits(b[1], 0x80));
    SixBits(Bits(b[0], 0xF0) * 0x40 + Bits(b[1], 0x80), Bits(b[2], 0x80));
    SixBits(Bits(b[0], 0xF0) * 0x1000 + Bits(b[1], 0x80) * 0x40 + Bits(b[2], 0x80), Bits(b[3], 0x80));
    assert n / 0x1000 == n / 0x40 / 0x40 && n / 0x40000 == n / 0x1000 / 0x40;
  }

  lemma SixBits(high: nat, low: nat)
    requires low < 0x40
    ensures (high * 0x40 + low) / 0x40 == high && (high * 0x40 + low) % 0x40 == low
  {
  }

  /** One character of each length. */
  lemma Lengths()
    ensures EncodeChar('A') == [0x41] && EncodeChar('\U{E9}') == [0xC3, 0xA9]
    ensures EncodeChar('\U{20AC}') == [0xE2, 0x82, 0xAC] && EncodeChar('\U{1F600}') == [0xF0, 0x9F, 0x98, 0x80]
  {
  }
}
