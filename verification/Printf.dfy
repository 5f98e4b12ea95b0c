// lib/stdio/vsprintf.c: printing numbers.
module Printf {
  import opened Math
  import opened Numerals

  const DIGITS := "0123456789abcdef"

  function Text(s: seq<nat>): (t: string)
    requires forall i :: 0 <= i < |s| ==> s[i] < 16
    ensures |t| == |s|
  {
    seq(|s|, i requires 0 <= i < |s| => DIGITS[s[i]])
  }

  /** The signed number that a numeral with an optional minus sign shows. */
  ghost function Shown(negative: bool, s: seq<nat>): int {
    if negative then -(Value(s, 10) as int) else Value(s, 10)
  }

  class Output {
    var text: string
    var length: nat

    ghost predicate Valid()
      reads this
    {
      length == |text|
    }

    method Character(ch: char)
      requires Valid()
      modifies this
      ensures Valid() && text == old(text) + [ch]
    {
      text := text + [ch];
      length := length + 1;
    }

    /** Prints the numeral of a 32-bit number. */
    method Number(value: nat, base: nat)
      requires Valid() && value < 0x1_0000_0000 && 2 <= base <= 16
      modifies this
      ensures Valid() && text == old(text) + Text(Digits(value, base))
      decreases value
    {
      var rest, digit := UnsignedDivmod(value, base);
      ghost var before := text;
      if rest != 0 {
        NotSmall(value, base);
        Number(rest, base);
        TextMore(Digits(rest, base), digit);
      } else {
        SmallDigit(value, base);
      }
      Character(DIGITS[digit]);
    }

    /** %d: a minus sign for negative numbers, then the absolute value, the least one included. */
    method Signed(value: int)
      requires Valid() && -0x8000_0000 <= value < 0x8000_0000
      modifies this
      ensures Valid()
      ensures var s := Digits(if value < 0 then -value else value, 10);
        && text == old(text) + (if value < 0 then "-" else "") + Text(s)
        && Shown(value < 0, s) == value
    {
      if value < 0 {
        Character('-');
      }
      var word := if value < 0 then value + 0x1_0000_0000 else value;
      DigitsValue(if value < 0 then -value else value, 10);
      Number(if value < 0 then (0x1_0000_0000 - word) % 0x1_0000_0000 else word, 10);
    }

    /** %x: 0x, then the hexadecimal numeral. */
    method Hexadecimal(value: nat)
      requires Valid() && value < 0x1_0000_0000
      modifies this
      ensures Valid() && text == old(text) + "0x" + Text(Digits(value, 16)) && Value(Digits(value, 16), 16) == value
    {
      DigitsValue(value, 16);
      Character('0');
      Character('x');
      Number(value, 16);
    }
  }

  lemma NotSmall(value: nat, base: nat)
    requires base >= 2 && value / base != 0
    ensures value >= base && 0 < value / base < value
    ensures Digits(value, base) == Digits(value / base, base) + [value % base]
  {
    if value < base {
      UniqueQuotient(value, base, 0, value);
    } else {
      Smaller(value, base);
    }
  }

  lemma SmallDigit(value: nat, base: nat)
    requires base >= 2 && value / base == 0
    ensures value < base && value % base == value && Digits(value, base) == [value]
  {
    if value >= base {
      Smaller(value, base);
    } else {
      UniqueQuotient(value, base, 0, value);
    }
  }

  lemma TextMore(s: seq<nat>, digit: nat)
    requires digit < 16 && forall i :: 0 <= i < |s| ==> s[i] < 16
    ensures Text(s + [digit]) == Text(s) + [DIGITS[digit]]
  {
  }

  /** Different digits print differently, so the text determines the number. */
  lemma TextInjective(s: seq<nat>, t: seq<nat>)
    requires (forall i :: 0 <= i < |s| ==> s[i] < 16) && (forall i :: 0 <= i < |t| ==> t[i] < 16) && Text(s) == Text(t)
    ensures s == t
  {
    assert |s| == |Text(s)| == |Text(t)| == |t|;
    forall i | 0 <= i < |s| ensures s[i] == t[i] {
      assert Text(s)[i] == Text(t)[i];
      SameDigit(s[i], t[i]);
    }
  }

  /** The digit that a character stands for, by its ASCII code. */
  function DigitOf(ch: char): (d: int) {
    if 48 <= ch as int < 58 then ch as int - 48 else if 97 <= ch as int < 103 then ch as int - 87 else -1
  }

  /** The number that a text of digits stands for, read from left to right. */
  function Read(t: string, base: nat): int {
    if t == "" then 0 else Read(t[..|t| - 1], base) * base + DigitOf(t[|t| - 1])
  }

  /** What Number prints reads back as the number. */
  lemma {:induction false} ReadText(s: seq<nat>, base: nat)
    requires forall i :: 0 <= i < |s| ==> s[i] < 16
    ensures Read(Text(s), base) == Value(s, base)
  {
    if s != [] {
      var n := |s| - 1;
      ReadText(s[..n], base);
      assert Text(s)[..n] == Text(s[..n]);
      DigitCode(s[n]);
    }
  }

  lemma DigitCode(d: nat)
    requires d < 16
    ensures DigitOf(DIGITS[d]) == d
  {
  }

  /** Every number reads back from its printed form in any base up to 16. */
  lemma ReadBack(value: nat, base: nat)
    requires 2 <= base <= 16
    ensures Read(Text(Digits(value, base)), base) == value
  {
    DigitsValue(value, base);
    ReadText(Digits(value, base), base);
  }

  lemma SameDigit(a: nat, b: nat)
    requires a < 16 && b < 16 && DIGITS[a] == DIGITS[b]
    ensures a == b
  {
  }
}
