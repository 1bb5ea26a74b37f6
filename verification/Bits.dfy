/**
 Bitwise operations on natural numbers, digit by digit, and the facts that turn
 masks and shifts into division and remainder.
 */
module Bits {
  function Pow2(n: nat): (p: nat)
    ensures p > 0
  {
    if n == 0 then 1 else 2 * Pow2(n - 1)
  }

  function And(x: nat, y: nat): nat {
    if x == 0 || y == 0 then 0 else (x % 2) * (y % 2) + 2 * And(x / 2, y / 2)
  }

  function Or(x: nat, y: nat): nat {
    if x == 0 then y else if y == 0 then x
    else (if x % 2 == 1 || y % 2 == 1 then 1 else 0) + 2 * Or(x / 2, y / 2)
  }

  function Xor(x: nat, y: nat): nat {
    if x == 0 then y else if y == 0 then x
    else (if x % 2 != y % 2 then 1 else 0) + 2 * Xor(x / 2, y / 2)
  }

  // Complement within `width` bits.
  function Not(width: nat, x: nat): int {
    Pow2(width) - 1 - x
  }

  lemma {:induction false} Bounds(n: nat, x: nat, y: nat)
    requires x < Pow2(n) && y < Pow2(n)
    ensures And(x, y) < Pow2(n) && Or(x, y) < Pow2(n) && Xor(x, y) < Pow2(n)
  {
    if n > 0 {
      Bounds(n - 1, x / 2, y / 2);
    }
  }

  lemma ModUnique(x: int, m: int, q: int, r: int)
    requires m > 0 && x == m * q + r && 0 <= r < m
    ensures x % m == r && x / m == q
  {
    var d := x / m - q;
    assert m * d == r - x % m by {
      assert x == m * (x / m) + x % m;
      assert m * (x / m) - m * q == m * d;
    }
    assert d == 0;
  }

  lemma Pow32()
    ensures Pow2(32) == 0x1_0000_0000 && Pow2(33) == 0x2_0000_0000
  {
    assert Pow2(8) == 256;
    assert Pow2(16) == 256 * Pow2(8);
    assert Pow2(24) == 256 * Pow2(16);
    assert Pow2(32) == 256 * Pow2(24);
  }

  lemma ModHalf(x: nat, p: nat)
    requires p > 0
    ensures x % (2 * p) == x % 2 + 2 * ((x / 2) % p)
  {
    var q, r := (x / 2) / p, (x / 2) % p;
    assert x / 2 == p * q + r;
    assert x == (2 * p) * q + (x % 2 + 2 * r);
    ModUnique(x, 2 * p, q, x % 2 + 2 * r);
  }

  lemma AndStep(x: nat, y: nat)
    ensures And(x, y) == (x % 2) * (y % 2) + 2 * And(x / 2, y / 2)
  {
  }

  lemma AndZero(x: nat)
    ensures And(x, 0) == 0
  {
  }

  // x & (2^n - 1) keeps the low n bits.
  lemma {:induction false} LowMask(n: nat, x: nat)
    ensures And(x, Pow2(n) - 1) == x % Pow2(n)
  {
    hide And;
    if n == 0 {
      AndZero(x);
    } else {
      var p := Pow2(n - 1);
      assert Pow2(n) == 2 * p;
      hide Pow2;
      LowMask(n - 1, x / 2);
      AndStep(x, 2 * p - 1);
      ModHalf(x, p);
    }
  }

  // x & ~(2^n - 1), within w bits, clears the low n bits.
  lemma HighMask(w: nat, n: nat, x: nat)
    requires n <= w && x < Pow2(w)
    ensures Not(w, Pow2(n) - 1) >= 0
    ensures And(x, Not(w, Pow2(n) - 1)) == x - x % Pow2(n)
  {
    hide And, Pow2;
    PowMonotone(n, w);
    HighBits(w, n, x);
  }

  lemma {:induction false} HighBits(w: nat, n: nat, x: nat)
    requires n <= w && x < Pow2(w) && Pow2(n) <= Pow2(w)
    ensures And(x, Pow2(w) - Pow2(n)) == x - x % Pow2(n)
  {
    hide And;
    if n == 0 {
      FullMask(w, x);
    } else {
      HighBits(w - 1, n - 1, x / 2);
      EvenStep(x, Pow2(w - 1) - Pow2(n - 1));
      ModHalf(x, Pow2(n - 1));
    }
  }

  lemma EvenStep(x: nat, m: nat)
    ensures And(x, 2 * m) == 2 * And(x / 2, m)
  {
    hide And;
    var y := 2 * m;
    assert y % 2 == 0 && y / 2 == m;
    AndStep(x, y);
  }

  lemma {:induction false} FullMask(w: nat, x: nat)
    requires x < Pow2(w)
    ensures And(x, Pow2(w) - 1) == x
  {
    if w > 0 && x > 0 {
      FullMask(w - 1, x / 2);
      assert (Pow2(w) - 1) / 2 == Pow2(w - 1) - 1;
    }
  }

  lemma {:induction false} PowMonotone(a: nat, b: nat)
    requires a <= b
    ensures Pow2(a) <= Pow2(b)
  {
    if a < b {
      PowMonotone(a, b - 1);
    }
  }

  // Or of a shifted value and a value that fits below it is their sum.
  lemma {:induction false} OrIsSum(n: nat, high: nat, low: nat)
    requires low < Pow2(n)
    ensures Or(high * Pow2(n), low) == high * Pow2(n) + low
  {
    if n > 0 && high > 0 && low > 0 {
      var x := high * Pow2(n);
      assert x == 2 * (high * Pow2(n - 1));
      assert x > 0;
      OrIsSum(n - 1, high, low / 2);
    }
  }
}
