// The numeral of a number in a base, and the number of a numeral.
module Numerals {
  import opened Math

  /** The digits of a number, most significant first. */
  function Digits(value: nat, base: nat): (s: seq<nat>)
    requires base >= 2
    ensures s != [] && forall i :: 0 <= i < |s| ==> s[i] < base
  {
    if value < base then [value] else
      Smaller(value, base);
      Digits(value / base, base) + [value % base]
  }

  lemma Smaller(value: nat, base: nat)
    requires base >= 2 && value >= base
    ensures 0 < value / base < value
  {
    if value / base == 0 {
      UniqueQuotient(value, base, 0, value % base);
    } else {
      NextMultiple(value / base, 1, base);
    }
  }

  /** The number that a string of digits stands for. */
  function Value(s: seq<nat>, base: nat): nat {
    if s == [] then 0 else Value(s[..|s| - 1], base) * base + s[|s| - 1]
  }

  /** A proper numeral: digits of the base, at least one, and no leading zero but in 0 itself. */
  predicate Numeral(s: seq<nat>, base: nat) {
    s != [] && (forall i :: 0 <= i < |s| ==> s[i] < base) && (s[0] == 0 ==> |s| == 1)
  }

  /** The digits are a proper numeral and stand for the number. */
  lemma {:induction false} DigitsValue(value: nat, base: nat)
    requires base >= 2
    ensures Numeral(Digits(value, base), base) && Value(Digits(value, base), base) == value
    decreases value
  {
    var s := Digits(value, base);
    if value < base {
      assert s[..0] == [];
    } else {
      Smaller(value, base);
      DigitsValue(value / base, base);
      var front := Digits(value / base, base);
      assert s[..|s| - 1] == front && s[0] == front[0];
      NonZeroFirst(value / base, base);
    }
  }

  lemma {:induction false} NonZeroFirst(value: nat, base: nat)
    requires base >= 2 && value > 0
    ensures Digits(value, base)[0] != 0
    decreases value
  {
    if value >= base {
      Smaller(value, base);
      NonZeroFirst(value / base, base);
    }
  }

  lemma {:induction false} PositiveValue(s: seq<nat>, base: nat)
    requires base >= 2 && s != [] && s[0] != 0
    ensures Value(s, base) > 0
  {
    if |s| > 1 {
      PositiveValue(s[..|s| - 1], base);
      NextMultiple(base, 0, Value(s[..|s| - 1], base));
    }
  }

  /** There is only one proper numeral of a number. */
  lemma {:induction false} DigitsUnique(s: seq<nat>, base: nat)
    requires base >= 2 && Numeral(s, base)
    ensures s == Digits(Value(s, base), base)
    decreases |s|
  {
    var front, last := s[..|s| - 1], s[|s| - 1];
    if |s| == 1 {
      assert front == [] && s == [last];
    } else {
      var q, v := Value(front, base), Value(s, base);
      PositiveValue(front, base);
      UniqueQuotient(v, base, q, last);
      NextMultiple(base, 0, q);
      DigitsUnique(front, base);
      assert s == front + [last];
    }
  }
}
