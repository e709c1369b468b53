/** What the parser accepts as a string: UTF-8 as an encoding of Unicode scalar values. */
module Utf8 {
  import opened Lists
  import opened Wire
  import opened Messages

  /** Code points without the surrogates. */
  type Scalar = n: nat | n < 0x11_0000 && !(0xD800 <= n < 0xE000)

  /** The bits of a continuation byte. */
  function Tail(n: nat): byte { 0x80 + n % 0x40 }

  /** UTF-8 as section 3 of RFC 3629 defines it. */
  function EncodeScalar(n: Scalar): (b: bytes)
    ensures 1 <= |b| <= 4
  {
    if n < 0x80 then [n]
    else if n < 0x800 then [0xC0 + n / 0x40, Tail(n)]
    else if n < 0x1_0000 then [0xE0 + n / 0x1000, Tail(n / 0x40), Tail(n)]
    else [0xF0 + n / 0x4_0000, Tail(n / 0x1000), Tail(n / 0x40), Tail(n)]
  }

  function EncodeText(text: seq<Scalar>): bytes {
    if text == [] then [] else EncodeScalar(text[0]) + EncodeText(text[1..])
  }

  /** An encoded scalar is recognised, whatever follows. */
  lemma UnitOfScalar(n: Scalar, rest: bytes)
    ensures Utf8Unit(EncodeScalar(n) + rest) == |EncodeScalar(n)|
  {
    var b := EncodeScalar(n) + rest;
    assert forall i | 0 <= i < |EncodeScalar(n)| :: b[i] == EncodeScalar(n)[i];
  }

  lemma {:induction false} TextIsValid(text: seq<Scalar>)
    ensures ValidUtf8(EncodeText(text))
  {
    if text == [] {
    } else {
      var first, rest := EncodeScalar(text[0]), EncodeText(text[1..]);
      UnitOfScalar(text[0], rest);
      assert (first + rest)[|first|..] == rest;
      TextIsValid(text[1..]);
    }
  }

  /** What a byte adds to the bits that mark it. */
  function Bits(b: byte, mark: int): int { b - mark }

  /** The last six bits, and the others. */
  lemma LastBits(high: nat, low: nat)
    requires low < 0x40
    ensures (0x40 * high + low) / 0x40 == high && (0x40 * high + low) % 0x40 == low
  {
  }

  lemma ThreeBytes(a: nat, b: nat, c: nat)
    requires a < 0x10 && b < 0x40 && c < 0x40
    ensures var n := 0x40 * (0x40 * a + b) + c;
            n / 0x1000 == a && (n / 0x40) % 0x40 == b && n % 0x40 == c
  {
    LastBits(0x40 * a + b, c);
    LastBits(a, b);
  }

  lemma FourBytes(a: nat, b: nat, c: nat, d: nat)
    requires a < 5 && b < 0x40 && c < 0x40 && d < 0x40
    ensures var n := 0x40 * (0x40 * (0x40 * a + b) + c) + d;
            n / 0x4_0000 == a && (n / 0x1000) % 0x40 == b && (n / 0x40) % 0x40 == c && n % 0x40 == d
  {
    LastBits(0x40 * (0x40 * a + b) + c, d);
    LastBits(0x40 * a + b, c);
    LastBits(a, b);
  }

  lemma ScalarOfTwo(b: bytes) returns (n: Scalar)
    requires Utf8Unit(b) == 2
    ensures EncodeScalar(n) == b[..2]
  {
    n := 0x40 * Bits(b[0], 0xC0) + Bits(b[1], 0x80);
    LastBits(Bits(b[0], 0xC0), Bits(b[1], 0x80));
  }

  lemma ScalarOfThree(b: bytes) returns (n: Scalar)
    requires Utf8Unit(b) == 3
    ensures EncodeScalar(n) == b[..3]
  {
    n := 0x40 * (0x40 * Bits(b[0], 0xE0) + Bits(b[1], 0x80)) + Bits(b[2], 0x80);
    ThreeBytes(Bits(b[0], 0xE0), Bits(b[1], 0x80), Bits(b[2], 0x80));
  }

  lemma ScalarOfFour(b: bytes) returns (n: Scalar)
    requires Utf8Unit(b) == 4
    ensures EncodeScalar(n) == b[..4]
  {
    n := 0x40 * (0x40 * (0x40 * Bits(b[0], 0xF0) + Bits(b[1], 0x80)) + Bits(b[2], 0x80)) + Bits(b[3], 0x80);
    FourBytes(Bits(b[0], 0xF0), Bits(b[1], 0x80), Bits(b[2], 0x80), Bits(b[3], 0x80));
  }

  /** What is recognised is an encoded scalar. */
  lemma ScalarOfUnit(b: bytes) returns (n: Scalar)
    requires Utf8Unit(b) > 0
    ensures EncodeScalar(n) == b[..Utf8Unit(b)]
  {
    if Utf8Unit(b) == 1 {
      n := b[0];
    } else if Utf8Unit(b) == 2 {
      n := ScalarOfTwo(b);
    } else if Utf8Unit(b) == 3 {
      n := ScalarOfThree(b);
    } else {
      n := ScalarOfFour(b);
    }
  }

  lemma {:induction false} ValidIsText(b: bytes) returns (text: seq<Scalar>)
    requires ValidUtf8(b)
    ensures EncodeText(text) == b
    decreases |b|
  {
    if b == [] {
      text := [];
    } else {
      var k := Utf8Unit(b);
      var n := ScalarOfUnit(b);
      var rest := ValidIsText(b[k..]);
      text := [n] + rest;
      assert b[..k] + b[k..] == b;
    }
  }

  /** Exactly the encodings of sequences of scalar values are accepted. */
  lemma ValidExactly(b: bytes)
    ensures ValidUtf8(b) <==> exists text: seq<Scalar> :: EncodeText(text) == b
  {
    if ValidUtf8(b) {
      var text := ValidIsText(b);
    }
    forall text: seq<Scalar> | EncodeText(text) == b ensures ValidUtf8(b) {
      TextIsValid(text);
    }
  }

  lemma {:induction false} AsciiIsText(b: bytes)
    requires forall i | 0 <= i < |b| :: b[i] < 0x80
    ensures EncodeText(b) == b
  {
    if b == [] {
    } else {
      AsciiIsText(b[1..]);
      assert [b[0]] + b[1..] == b;
    }
  }

  /** Every ASCII string is accepted. */
  lemma AsciiIsValid(b: bytes)
    requires forall i | 0 <= i < |b| :: b[i] < 0x80
    ensures ValidUtf8(b)
  {
    AsciiIsText(b);
    TextIsValid(b);
  }
}
