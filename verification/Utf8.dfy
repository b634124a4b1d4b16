// What it means that bytes decode: they are the UTF-8 encoding of some Unicode scalar values.
module Utf8 {
  import opened Text

  // A code point that is no surrogate.
  predicate Scalar(c: int) {
    0 <= c <= 0xD7FF || 0xE000 <= c <= 0x10FFFF
  }

  function Byte(n: int): char
    requires 0 <= n < 256
  {
    n as char
  }

  // Section 3.9 of the Unicode Standard: the bits of c, six to a continuation byte.
  function Encode(c: int): string
    requires Scalar(c)
  {
    if c < 0x80 then [Byte(c)]
    else if c < 0x800 then [Byte(0xC0 + c / 64), Byte(0x80 + c % 64)]
    else if c < 0x10000 then [Byte(0xE0 + c / 4096), Byte(0x80 + c / 64 % 64), Byte(0x80 + c % 64)]
    else [Byte(0xF0 + c / 262144), Byte(0x80 + c / 4096 % 64), Byte(0x80 + c / 64 % 64), Byte(0x80 + c % 64)]
  }

  function EncodeAll(text: seq<int>): string
    requires forall i | 0 <= i < |text| :: Scalar(text[i])
  {
    if text == [] then [] else Encode(text[0]) + EncodeAll(text[1..])
  }

  // The scalar value of the sequence at the start of s.
  function First(s: string): int
    requires SequenceLength(s) > 0
  {
    var n := SequenceLength(s);
    if n == 1 then s[0] as int
    else if n == 2 then (s[0] as int - 0xC0) * 64 + (s[1] as int - 0x80)
    else if n == 3 then (s[0] as int - 0xE0) * 4096 + (s[1] as int - 0x80) * 64 + (s[2] as int - 0x80)
    else (s[0] as int - 0xF0) * 262144 + (s[1] as int - 0x80) * 4096 + (s[2] as int - 0x80) * 64 + (s[3] as int - 0x80)
  }

  lemma Digits64(a: int, b: int, c: int, d: int)
    requires 0 <= b < 64 && 0 <= c < 64 && 0 <= d < 64 && 0 <= a
    ensures var n := a * 262144 + b * 4096 + c * 64 + d;
            n / 262144 == a && n / 4096 == a * 64 + b && n / 4096 % 64 == b && n / 64 % 64 == c && n % 64 == d
  {
    var n := a * 262144 + b * 4096 + c * 64 + d;
    assert n / 64 == a * 4096 + b * 64 + c;
    assert n / 4096 == a * 64 + b;
  }

  // What is recognised at the start is the encoding of a scalar value.
  lemma FirstEncodes(s: string)
    requires SequenceLength(s) > 0
    ensures Scalar(First(s)) && Encode(First(s)) == s[..SequenceLength(s)]
  {
    var n := SequenceLength(s);
    if n == 2 {
      Digits64(0, 0, s[0] as int - 0xC0, s[1] as int - 0x80);
    } else if n == 3 {
      FirstOfThree(s);
    } else if n == 4 {
      FirstOfFour(s);
    }
  }

  lemma FirstOfThree(s: string)
    requires SequenceLength(s) == 3
    ensures Scalar(First(s)) && Encode(First(s)) == s[..3]
  {
    var a, b, c := s[0] as int - 0xE0, s[1] as int - 0x80, s[2] as int - 0x80;
    assert 0 <= a < 16 && 0 <= b < 64 && 0 <= c < 64 && (a == 0 ==> b >= 32) && (a == 13 ==> b < 32);
    hide SequenceLength;
    Digits64(0, a, b, c);
  }

  lemma FirstOfFour(s: string)
    requires SequenceLength(s) == 4
    ensures Scalar(First(s)) && Encode(First(s)) == s[..4]
  {
    var a, b, c, d := s[0] as int - 0xF0, s[1] as int - 0x80, s[2] as int - 0x80, s[3] as int - 0x80;
    assert 0 <= a <= 4 && 0 <= b < 64 && 0 <= c < 64 && 0 <= d < 64 && (a == 0 ==> b >= 16) && (a == 4 ==> b < 16);
    hide SequenceLength;
    Digits64(a, b, c, d);
  }

  lemma ThreeBytes(c: int)
    requires 0x800 <= c < 0x10000 && Scalar(c)
    ensures var a, b := c / 4096, c / 64 % 64; 0 <= a < 16 && (a == 0 ==> b >= 32) && (a == 13 ==> b < 32)
  {
  }

  lemma FourBytes(c: int)
    requires 0x10000 <= c <= 0x10FFFF
    ensures var a, b := c / 262144, c / 4096 % 64; 0 <= a <= 4 && (a == 0 ==> b >= 16) && (a == 4 ==> b < 16)
  {
  }

  // And the encoding of every scalar value is recognised, whatever follows.
  lemma EncodedIsFirst(c: int, rest: string)
    requires Scalar(c)
    ensures SequenceLength(Encode(c) + rest) == |Encode(c)| > 0
  {
    var s := Encode(c) + rest;
    if 0x80 <= c < 0x800 {
      assert s[0] as int == 0xC0 + c / 64 && s[1] as int == 0x80 + c % 64;
    } else if 0x800 <= c < 0x10000 {
      ThreeBytes(c);
      assert s[0] as int == 0xE0 + c / 4096 && s[1] as int == 0x80 + c / 64 % 64 && s[2] as int == 0x80 + c % 64;
    } else if 0x10000 <= c {
      FourEncoded(c, rest);
    }
  }

  lemma FourEncoded(c: int, rest: string)
    requires 0x10000 <= c <= 0x10FFFF
    ensures SequenceLength(Encode(c) + rest) == 4 == |Encode(c)|
  {
    var s := Encode(c) + rest;
    FourBytes(c);
    assert s[0] as int == 0xF0 + c / 262144 && s[1] as int == 0x80 + c / 4096 % 64;
    assert s[2] as int == 0x80 + c / 64 % 64 && s[3] as int == 0x80 + c % 64;
  }

  ghost predicate Encoded(s: string) {
    exists text: seq<int> :: (forall i | 0 <= i < |text| :: Scalar(text[i])) && s == EncodeAll(text)
  }

  // Bytes decode exactly when they are the encoding of some text.
  lemma DecodesIffEncoded(s: string)
    ensures Decodable(s) <==> Encoded(s)
  {
    if Decodable(s) { Decode(s); }
    if text: seq<int> :| (forall i | 0 <= i < |text| :: Scalar(text[i])) && s == EncodeAll(text) { EncodingDecodes(text); }
  }

  lemma {:induction false} Decode(s: string)
    requires Decodable(s)
    ensures Encoded(s)
    decreases |s|
  {
    hide Encode, First, SequenceLength;
    if s == [] {
      assert EncodeAll([]) == s;
    } else {
      Decode(s[SequenceLength(s)..]);
      FirstEncodes(s);
      hide Decodable;
      EncodedGrows(First(s), s[SequenceLength(s)..], s);
    }
  }

  lemma EncodedGrows(c: int, rest: string, s: string)
    requires Scalar(c) && Encoded(rest) && s == Encode(c) + rest
    ensures Encoded(s)
  {
    hide Encode;
    var text: seq<int> :| (forall i | 0 <= i < |text| :: Scalar(text[i])) && rest == EncodeAll(text);
    var longer := [c] + text;
    assert longer[1..] == text;
    assert EncodeAll(longer) == s;
  }

  lemma {:induction false} EncodingDecodes(text: seq<int>)
    requires forall i | 0 <= i < |text| :: Scalar(text[i])
    ensures Decodable(EncodeAll(text))
  {
    hide Encode, SequenceLength;
    if text != [] {
      EncodedIsFirst(text[0], EncodeAll(text[1..]));
      EncodingDecodes(text[1..]);
      var s := EncodeAll(text);
      assert s[|Encode(text[0])|..] == EncodeAll(text[1..]);
    }
  }
}
