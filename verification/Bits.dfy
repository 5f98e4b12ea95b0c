// Bitwise operators on unsigned words, and what they compute where the kernel uses them.
module Bits {
  import opened Math

  /** a & b */
  function And(a: nat, b: nat): nat {
    if a == 0 || b == 0 then 0 else 2 * And(a / 2, b / 2) + (if a % 2 == 1 && b % 2 == 1 then 1 else 0)
  }

  /** a | b */
  function Or(a: nat, b: nat): nat
    decreases a + b
  {
    if a == 0 then b else if b == 0 then a
    else 2 * Or(a / 2, b / 2) + (if a % 2 == 1 || b % 2 == 1 then 1 else 0)
  }

  predicate PowerOfTwo(x: nat) {
    x == 1 || (x > 0 && x % 2 == 0 && PowerOfTwo(x / 2))
  }

  lemma {:induction false} AndSelf(x: nat)
    ensures And(x, x) == x
  {
    if x > 0 { AndSelf(x / 2); }
  }

  /** x & (x - 1) is zero exactly for powers of two. */
  lemma {:induction false} PowerOfTwoTest(x: nat)
    requires x > 0
    ensures And(x, x - 1) == 0 <==> PowerOfTwo(x)
  {
    if x % 2 == 0 {
      PowerOfTwoTest(x / 2);
      assert (x - 1) / 2 == x / 2 - 1;
    } else if x > 1 {
      AndSelf(x / 2);
      assert (x - 1) / 2 == x / 2;
    }
  }

  lemma AndOdd(x: nat, h: nat)
    requires h > 0
    ensures And(x, 2 * h - 1) == 2 * And(x / 2, h - 1) + x % 2
  {
    assert (2 * h - 1) / 2 == h - 1 && (2 * h - 1) % 2 == 1;
  }

  /** x & (m - 1) is the remainder for a power of two m. */
  lemma {:induction false} AndMask(x: nat, m: nat)
    requires PowerOfTwo(m)
    ensures And(x, m - 1) == x % m
    decreases m
  {
    if m > 1 {
      var h := m / 2;
      AndMask(x / 2, h);
      AndOdd(x, h);
      HalfMod(x, h);
      assert m == 2 * h;
    }
  }

  lemma HalfMod(x: nat, h: nat)
    requires h > 0
    ensures x % (2 * h) == 2 * (x / 2 % h) + x % 2
  {
    var q, r := x / 2 / h, x / 2 % h;
    TwiceAndRest(h, q, 0);
    UniqueQuotient(x, 2 * h, q, 2 * r + x % 2);
  }

  /** | is addition when the low part of one operand is free for the other. */
  lemma {:induction false} OrAligned(a: nat, b: nat, m: nat)
    requires PowerOfTwo(m) && a % m == 0 && b < m
    ensures Or(a, b) == a + b
    decreases m
  {
    if m > 1 && a > 0 && b > 0 {
      HalfMod(a, m / 2);
      OrAligned(a / 2, b / 2, m / 2);
    }
  }

  /** Masking with four times a mask. */
  lemma AndShifted(x: nat, m: nat)
    ensures And(x, 4 * m) == 4 * And(x / 4, m)
  {
    assert x / 4 == x / 2 / 2 && 4 * m / 2 == 2 * m && 2 * m / 2 == m;
    assert And(x, 4 * m) == 2 * And(x / 2, 2 * m);
    assert And(x / 2, 2 * m) == 2 * And(x / 2 / 2, m);
  }
}
