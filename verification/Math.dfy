// lib/math.c: 32-step restoring division.
module Math {

  function Pow2(n: nat): (p: nat)
    ensures p > 0
  {
    if n == 0 then 1 else 2 * Pow2(n - 1)
  }

  /** Bit `i` of a number. */
  function Bit(x: nat, i: nat): (b: nat)
    ensures b < 2
  {
    x / Pow2(i) % 2
  }

  /** Dropping one bit less leaves twice as much plus that bit. */
  lemma ShiftStep(x: nat, i: nat)
    ensures x / Pow2(i) == 2 * (x / Pow2(i + 1)) + Bit(x, i)
  {
    HalfQuotient(x, Pow2(i));
  }

  lemma TwiceAndRest(p: nat, c: nat, d: nat)
    requires d < 2
    ensures p * (2 * c + d) == 2 * p * c + p * d && 0 <= p * d <= p
  {
  }

  lemma HalfQuotient(x: nat, p: nat)
    requires p > 0
    ensures x / (2 * p) == x / p / 2
  {
    var a, b := x / p, x % p;
    TwiceAndRest(p, a / 2, a % 2);
    UniqueQuotient(x, 2 * p, a / 2, p * (a % 2) + b);
  }

  lemma {:induction false} NextMultiple(d: nat, a: nat, b: nat)
    requires a < b
    ensures d * a + d <= d * b
    decreases b
  {
    assert d * b == d * (b - 1) + d;
    if a < b - 1 {
      NextMultiple(d, a, b - 1);
    }
  }

  lemma UniqueQuotient(x: nat, d: nat, q: nat, r: nat)
    requires d > 0 && x == d * q + r && r < d
    ensures q == x / d && r == x % d
  {
    if q < x / d {
      NextMultiple(d, q, x / d);
    } else if x / d < q {
      NextMultiple(d, x / d, q);
    }
  }

  lemma Pow2Of32()
    ensures Pow2(32) == 0x1_0000_0000
  {
    assert Pow2(8) == 0x100;
    assert Pow2(16) == 0x1_0000;
    assert Pow2(24) == 0x100_0000;
  }

  /** What is left of a number once bit i + 1 and below are dropped can be doubled safely. */
  lemma ShiftFits(x: nat, i: nat)
    requires x < 0x1_0000_0000
    ensures 2 * (x / Pow2(i + 1)) + 1 < 0x1_0000_0000
  {
    HalfQuotient(x, Pow2(i));
    assert x / Pow2(i) <= x by { SmallerQuotient(x, Pow2(i)); }
  }

  lemma AtLeastOnce(p: nat, q: nat)
    requires p > 0
    ensures p * q >= q
  {
    if p > 1 {
      AtLeastOnce(p - 1, q);
      assert p * q == (p - 1) * q + q;
    }
  }

  lemma Doubled(a: nat, b: nat)
    ensures a * (2 * b) == 2 * (a * b) && a * (2 * b + 1) == 2 * (a * b) + a
  {
  }

  lemma SmallerQuotient(x: nat, p: nat)
    requires p > 0
    ensures x / p <= x
  {
    assert x == p * (x / p) + x % p;
    AtLeastOnce(p, x / p);
  }

  /** The bits of the numerator from bit `i` up are divided; `high` is the quotient so far.
      Dividing by zero subtracts nothing and sets every quotient bit. */
  ghost predicate Divided(numerator: nat, denominator: nat, i: nat, quotient: nat, remainder: nat, high: nat) {
    && i <= 32 && quotient == high * Pow2(i)
    && numerator / Pow2(i) == denominator * high + remainder
    && (if denominator == 0 then high == Pow2(32 - i) - 1 else remainder < denominator)
  }

  /** Bringing down bit `i`. */
  lemma DivideStep(numerator: nat, denominator: nat, i: nat, quotient: nat, remainder: nat, high: nat)
    requires i < 32 && Divided(numerator, denominator, i + 1, quotient, remainder, high)
    ensures var r := 2 * remainder + Bit(numerator, i);
      if r >= denominator then Divided(numerator, denominator, i, quotient + Pow2(i), r - denominator, 2 * high + 1)
      else Divided(numerator, denominator, i, quotient, r, 2 * high)
  {
    ShiftStep(numerator, i);
    var p := Pow2(i);
    Doubled(high, p);
    Doubled(p, high);
    Doubled(denominator, high);
    assert high * Pow2(i + 1) == p * (2 * high) == (2 * high) * p;
    assert (2 * high + 1) * p == p * (2 * high + 1);
    assert denominator == 0 ==> Pow2(32 - i) == 2 * Pow2(32 - (i + 1));
  }

  lemma RemainderBound(numerator: nat, denominator: nat, i: nat, quotient: nat, remainder: nat, high: nat)
    requires Divided(numerator, denominator, i, quotient, remainder, high)
    ensures remainder <= numerator / Pow2(i)
  {
    assert denominator * high >= 0;
  }

  /** Quotient and remainder of 32-bit numbers; a zero denominator gives all ones and the numerator.
      The doubled remainder never leaves 32 bits, whatever the denominator. */
  method UnsignedDivmod(numerator: nat, denominator: nat) returns (quotient: nat, remainder: nat)
    requires numerator < 0x1_0000_0000 && denominator < 0x1_0000_0000
    ensures denominator != 0 ==> quotient == numerator / denominator && remainder == numerator % denominator
    ensures denominator == 0 ==> quotient == 0xffff_ffff && remainder == numerator
  {
    quotient, remainder := 0, 0;
    ghost var high: nat := 0;
    var i := 31;
    Pow2Of32();
    while i >= 0
      invariant -1 <= i <= 31
      invariant Divided(numerator, denominator, i + 1, quotient, remainder, high)
    {
      DivideStep(numerator, denominator, i, quotient, remainder, high);
      RemainderBound(numerator, denominator, i + 1, quotient, remainder, high);
      ShiftFits(numerator, i);
      var shifted := 2 * remainder + Bit(numerator, i);
      assert shifted < 0x1_0000_0000;
      remainder := shifted % 0x1_0000_0000;
      if remainder >= denominator {
        remainder := remainder - denominator;
        quotient := quotient + Pow2(i);
        high := 2 * high + 1;
      } else {
        high := 2 * high;
      }
      i := i - 1;
    }
    if denominator != 0 {
      UniqueQuotient(numerator, denominator, high, remainder);
    }
  }
}
