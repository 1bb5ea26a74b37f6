/**
 The app's UTF-8 decoder, an index loop that masks and shifts bytes into UTF-16
 code units. On the encoding of any scalar values (RFC 3629, section 3) it yields
 their UTF-16 form (RFC 2781, section 2.1); it accepts any other bytes too.
 */
module Utf8 {
  import opened Bits

  type Byte = x: int | 0 <= x < 256

  type Unit = x: int | 0 <= x < 0x1_0000

  // ---------- The standards ----------

  // Unicode scalar values: no surrogates.
  type Scalar = x: int | 0 <= x < 0xd800 || 0xe000 <= x < 0x11_0000

  // RFC 3629, section 3: one to four octets, six bits in each but the first.
  function Octets(c: Scalar): seq<Byte> {
    if c < 0x80 then [c]
    else if c < 0x800 then [0xc0 + c / 0x40, 0x80 + c % 0x40]
    else if c < 0x1_0000 then [0xe0 + c / 0x1000, 0x80 + c / 0x40 % 0x40, 0x80 + c % 0x40]
    else [0xf0 + c / 0x4_0000, 0x80 + c / 0x1000 % 0x40, 0x80 + c / 0x40 % 0x40, 0x80 + c % 0x40]
  }

  function Encode(text: seq<Scalar>): seq<Byte> {
    if text == [] then [] else Octets(text[0]) + Encode(text[1..])
  }

  // RFC 2781, section 2.1: a surrogate pair above the first plane.
  function Units(c: Scalar): seq<Unit> {
    if c < 0x1_0000 then [c]
    else [0xd800 + (c - 0x1_0000) / 0x400, 0xdc00 + (c - 0x1_0000) % 0x400]
  }

  function Utf16(text: seq<Scalar>): seq<Unit> {
    if text == [] then [] else Units(text[0]) + Utf16(text[1..])
  }

  // ---------- The decoder ----------

  // String.fromCharCode keeps the low 16 bits.
  function CharCode(x: int): Unit {
    x % 0x1_0000
  }

  // x >> 10 on a 32-bit signed number.
  function ShiftRight10(x: int): int {
    x / 0x400
  }

  // x & 0x3ff, on two's complement.
  function LowTen(x: int): int {
    And(x % 0x1_0000_0000, 0x3ff)
  }

  function At(s: seq<Byte>, i: nat): Byte { // bytes[i] ?? 0
    if i < |s| then s[i] else 0
  }

  function Six(b: Byte): nat {
    And(b, 0x3f)
  }

  // How many bytes a leading byte claims.
  function Width(first: Byte): (n: nat)
    ensures 1 <= n <= 4
  {
    if first < 0x80 then 1 else if first < 0xe0 then 2 else if first < 0xf0 then 3 else 4
  }

  function Two(first: Byte, second: Byte): nat {
    Or(And(first, 0x1f) * 64, Six(second))
  }

  function Three(first: Byte, second: Byte, third: Byte): nat {
    Or(Or(And(first, 0x0f) * 4096, Six(second) * 64), Six(third))
  }

  function Four(first: Byte, second: Byte, third: Byte, fourth: Byte): nat {
    Or(Or(Or(And(first, 7) * 0x4_0000, Six(second) * 4096), Six(third) * 64), Six(fourth))
  }

  // The units that four bytes, or as many as the first claims, decode to.
  function StepOf(first: Byte, second: Byte, third: Byte, fourth: Byte): seq<Unit> {
    match Width(first)
    case 1 => [first]
    case 2 => [CharCode(Two(first, second))]
    case 3 => [CharCode(Three(first, second, third))]
    case _ => Pair(Four(first, second, third, fourth) - 0x1_0000)
  }

  function Pair(adjusted: int): seq<Unit> {
    [CharCode(0xd800 + ShiftRight10(adjusted)), CharCode(0xdc00 + LowTen(adjusted))]
  }

  function Step(s: seq<Byte>, i: nat): seq<Unit> {
    StepOf(At(s, i), At(s, i + 1), At(s, i + 2), At(s, i + 3))
  }

  // What the loop appends from i on.
  function DecodeFrom(s: seq<Byte>, i: nat): seq<Unit>
    decreases |s| - i
  {
    if i >= |s| then [] else Step(s, i) + DecodeFrom(s, i + Width(s[i]))
  }

  lemma StepOnce(was: seq<Unit>, s: seq<Byte>, i: nat)
    requires i < |s|
    ensures was + Step(s, i) + DecodeFrom(s, i + Width(s[i])) == was + DecodeFrom(s, i)
  {
    hide Step;
  }

  lemma NothingLeft(s: seq<Byte>)
    ensures forall i: nat | i >= |s| :: DecodeFrom(s, i) == []
  {
  }

  method Decode(bytes: seq<Byte>) returns (result: seq<Unit>)
    ensures result == DecodeFrom(bytes, 0)
  {
    hide Two, Three, Four, CharCode, Pair, DecodeFrom;
    NothingLeft(bytes);
    result := [];
    var i := 0;
    while i < |bytes|
      invariant result + DecodeFrom(bytes, i) == DecodeFrom(bytes, 0)
      decreases |bytes| - i
    {
      ghost var from, was := i, result;
      var first := At(bytes, i);
      i := i + 1;
      if first < 0x80 {
        result := result + [first];
      } else {
        var second := At(bytes, i);
        i := i + 1;
        if first < 0xe0 {
          result := result + [CharCode(Two(first, second))];
        } else {
          var third := At(bytes, i);
          i := i + 1;
          if first < 0xf0 {
            result := result + [CharCode(Three(first, second, third))];
          } else {
            var fourth := At(bytes, i);
            i := i + 1;
            var adjusted := Four(first, second, third, fourth) - 0x1_0000;
            result := result + Pair(adjusted);
          }
        }
      }
      StepOnce(was, bytes, from);
      assert result == was + Step(bytes, from) && i == from + Width(bytes[from]);
    }
  }

  // ---------- Decoding what was encoded ----------

  lemma Masks(b: Byte)
    ensures And(b, 7) == b % 8 && And(b, 0x0f) == b % 16 && And(b, 0x1f) == b % 32 && Six(b) == b % 64
  {
    LowMask(3, b);
    LowMask(4, b);
    LowMask(5, b);
    LowMask(6, b);
    assert Pow2(3) == 8 && Pow2(4) == 16 && Pow2(5) == 32 && Pow2(6) == 64;
  }

  lemma Joins(a: nat, b: nat, c: nat, d: nat)
    requires b < 64 && c < 64 && d < 64
    ensures Or(a * 64, b) == a * 64 + b
    ensures Or(Or(a * 4096, b * 64), c) == a * 4096 + b * 64 + c
    ensures Or(Or(Or(a * 0x4_0000, b * 4096), c * 64), d) == a * 0x4_0000 + b * 4096 + c * 64 + d
  {
    hide Or, Pow2;
    Powers();
    OrIsSum(6, a, b);
    OrIsSum(12, a, b * 64);
    OrIsSum(6, a * 64 + b, c);
    OrIsSum(18, a, b * 4096);
    OrIsSum(12, a * 64 + b, c * 64);
    OrIsSum(6, a * 4096 + b * 64 + c, d);
  }

  lemma Powers()
    ensures Pow2(6) == 64 && Pow2(10) == 1024 && Pow2(12) == 4096 && Pow2(18) == 0x4_0000
  {
    assert Pow2(12) == 64 * Pow2(6);
    assert Pow2(18) == 64 * Pow2(12);
  }

  // A scalar value in groups of six bits.
  lemma Sixes(c: nat)
    ensures c / 0x40 == c / 0x1000 * 0x40 + c / 0x40 % 0x40
    ensures c / 0x1000 == c / 0x4_0000 * 0x40 + c / 0x1000 % 0x40
  {
    assert c / 0x40 / 0x40 == c / 0x1000;
    assert c / 0x1000 / 0x40 == c / 0x4_0000;
  }

  lemma TwoDecodes(c: Scalar)
    requires 0x80 <= c < 0x800
    ensures Two(0xc0 + c / 0x40, 0x80 + c % 0x40) == c
  {
    hide And, Or;
    Masks(0xc0 + c / 0x40);
    Masks(0x80 + c % 0x40);
    Joins(c / 0x40, c % 0x40, 0, 0);
  }

  lemma ThreeDecodes(c: Scalar)
    requires 0x800 <= c < 0x1_0000
    ensures Three(0xe0 + c / 0x1000, 0x80 + c / 0x40 % 0x40, 0x80 + c % 0x40) == c
  {
    hide And, Or;
    Masks(0xe0 + c / 0x1000);
    Masks(0x80 + c / 0x40 % 0x40);
    Masks(0x80 + c % 0x40);
    Sixes(c);
    Joins(c / 0x1000, c / 0x40 % 0x40, c % 0x40, 0);
  }

  lemma FourDecodes(c: Scalar)
    requires 0x1_0000 <= c
    ensures Four(0xf0 + c / 0x4_0000, 0x80 + c / 0x1000 % 0x40, 0x80 + c / 0x40 % 0x40, 0x80 + c % 0x40) == c
  {
    Sixes(c);
    var x, y, z, w := c / 0x4_0000, c / 0x1000 % 0x40, c / 0x40 % 0x40, c % 0x40;
    assert x <= 4;
    FourOf(x, y, z, w);
    hide Four;
    assert c == c / 0x40 * 0x40 + w;
  }

  lemma FourOf(x: nat, y: nat, z: nat, w: nat)
    requires x <= 4 && y < 64 && z < 64 && w < 64
    ensures Four(0xf0 + x, 0x80 + y, 0x80 + z, 0x80 + w) == x * 0x4_0000 + y * 4096 + z * 64 + w
  {
    hide And, Or;
    Masks(0xf0 + x);
    Masks(0x80 + y);
    Masks(0x80 + z);
    Masks(0x80 + w);
    Joins(x, y, z, w);
  }

  lemma PairIsSurrogates(c: Scalar)
    requires 0x1_0000 <= c
    ensures Pair(c - 0x1_0000) == Units(c)
  {
    hide And;
    LowMask(10, c - 0x1_0000);
    Powers();
  }

  lemma StepOfDecodes(c: Scalar, second: Byte, third: Byte, fourth: Byte)
    ensures var b := Octets(c);
      && Width(b[0]) == |b|
      && StepOf(b[0], if |b| > 1 then b[1] else second, if |b| > 2 then b[2] else third,
                if |b| > 3 then b[3] else fourth) == Units(c)
  {
    hide Two, Three, Four, Pair;
    if 0x1_0000 <= c {
      FourDecodes(c);
      PairIsSurrogates(c);
    } else if 0x800 <= c {
      ThreeDecodes(c);
    } else if 0x80 <= c {
      TwoDecodes(c);
    }
  }

  // One character's octets decode to its units and no more.
  lemma StepDecodes(before: seq<Byte>, c: Scalar, after: seq<Byte>)
    ensures var s, i := before + Octets(c) + after, |before|;
      Step(s, i) == Units(c) && Width(s[i]) == |Octets(c)|
  {
    hide StepOf, Units, Width;
    var s, i := before + Octets(c) + after, |before|;
    StepOfDecodes(c, At(s, i + 1), At(s, i + 2), At(s, i + 3));
  }

  // The round trip, for every sequence of scalar values.
  lemma DecodeEncode(text: seq<Scalar>)
    ensures DecodeFrom(Encode(text), 0) == Utf16(text)
  {
    DecodeRest([], text);
    assert [] + Encode(text) == Encode(text);
  }

  lemma {:induction false} DecodeRest(before: seq<Byte>, text: seq<Scalar>)
    ensures DecodeFrom(before + Encode(text), |before|) == Utf16(text)
    decreases text
  {
    hide Step, Units, Width;
    if text != [] {
      var b := Octets(text[0]);
      StepDecodes(before, text[0], Encode(text[1..]));
      assert before + Encode(text) == before + b + Encode(text[1..]);
      DecodeRest(before + b, text[1..]);
    }
  }
}
