/** Decimal text of natural numbers: the model of Python's `str(n)` and
    `int(s)` on non-negative integers, as the digit-cycle edit of the
    clock uses them. */
module Decimal {

  /** The character that spells the decimal digit `d`. */
  function DigitChar(d: nat): (c: char)
    requires d < 10
    ensures '0' <= c <= '9' && (c as int) - ('0' as int) == d
  {
    (('0' as int) + d) as char
  }

  /** The value of a decimal digit character. */
  function DigitValue(c: char): (d: nat)
    requires '0' <= c <= '9'
    ensures d < 10 && DigitChar(d) == c
  {
    (c as int) - ('0' as int)
  }

  predicate IsDigits(s: string) {
    forall i :: 0 <= i < |s| ==> '0' <= s[i] <= '9'
  }

  /** `str(n)`: most significant digit first, no leading zeros. */
  function ToDecimal(n: nat): (s: string)
    ensures 1 <= |s| && IsDigits(s)
    ensures s[|s| - 1] == DigitChar(n % 10)
    ensures n < 10 <==> |s| == 1
  {
    if n < 10 then [DigitChar(n)] else ToDecimal(n / 10) + [DigitChar(n % 10)]
  }

  /** `int(s)` for a string of decimal digits (the empty string reads as 0). */
  function ParseDecimal(s: string): nat
    requires IsDigits(s)
  {
    if s == [] then 0 else ParseDecimal(s[..|s| - 1]) * 10 + DigitValue(s[|s| - 1])
  }

  /** Dropping the last character of `str(n)` leaves `str(n / 10)`, or the
      empty string when `n` has a single digit. */
  lemma DropLastDigit(n: nat)
    ensures var s := ToDecimal(n);
      s[..|s| - 1] == if n < 10 then [] else ToDecimal(n / 10)
  {
    var s := ToDecimal(n);
    if n >= 10 {
      assert s == ToDecimal(n / 10) + [DigitChar(n % 10)];
      assert s[..|s| - 1] == ToDecimal(n / 10);
    }
  }

  /** Appending one digit multiplies the value by ten and adds the digit. */
  lemma ParseAppendDigit(p: string, c: char)
    requires IsDigits(p) && '0' <= c <= '9'
    ensures IsDigits(p + [c])
    ensures ParseDecimal(p + [c]) == ParseDecimal(p) * 10 + DigitValue(c)
  {
    var s := p + [c];
    assert s[..|s| - 1] == p;
  }

  /** `int(str(n)) == n`. */
  lemma {:induction false} ParseToDecimal(n: nat)
    ensures ParseDecimal(ToDecimal(n)) == n
  {
    if n < 10 {
      ParseAppendDigit([], DigitChar(n));
      assert [] + [DigitChar(n)] == ToDecimal(n);
    } else {
      var q, d := n / 10, n % 10;
      var p, c := ToDecimal(q), DigitChar(d);
      assert ToDecimal(n) == p + [c];
      ParseAppendDigit(p, c);
      ParseToDecimal(q);
      assert DigitValue(c) == d;
    }
  }
}
