/** Decimal numerals as Python prints and reads them: `str(n)`, `f"{n:04d}"` and `int(text)`. */
module Decimal {

  predicate IsDigit(c: char) {
    '0' <= c <= '9'
  }

  predicate AllDigits(s: string) {
    forall i :: 0 <= i < |s| ==> IsDigit(s[i])
  }

  function DigitChar(d: nat): (c: char)
    requires d < 10
    ensures IsDigit(c)
  {
    (d + 48) as char
  }

  function DigitValue(c: char): (d: nat)
    requires IsDigit(c)
    ensures d < 10 && DigitChar(d) == c
  {
    (c as int) - 48
  }

  function Digits(n: nat): (s: string)
    ensures AllDigits(s) && |s| >= 1
  {
    if n < 10 then [DigitChar(n)] else Digits(n / 10) + [DigitChar(n % 10)]
  }

  function Value(s: string): nat
    requires AllDigits(s)
  {
    if s == [] then 0 else Value(s[..|s| - 1]) * 10 + DigitValue(s[|s| - 1])
  }

  /** `f"{n:0wd}"` for a non-negative n. */
  function ZeroPad(s: string, width: nat): (r: string)
    requires AllDigits(s)
    ensures AllDigits(r) && |r| >= width && |r| >= |s|
    decreases width - |s|
  {
    if |s| >= width then s else ZeroPad("0" + s, width)
  }

  lemma {:induction false} ValueOfDigits(n: nat)
    ensures Value(Digits(n)) == n
  {
    var s := Digits(n);
    if n >= 10 {
      ValueOfDigits(n / 10);
      assert s[..|s| - 1] == Digits(n / 10);
    } else {
      assert s[..|s| - 1] == [];
    }
  }

  lemma {:induction false} LeadingZero(s: string)
    requires AllDigits(s)
    ensures Value("0" + s) == Value(s)
  {
    var z := "0" + s;
    if s == [] {
      assert z[..|z| - 1] == [];
    } else {
      assert z[..|z| - 1] == "0" + s[..|s| - 1];
      LeadingZero(s[..|s| - 1]);
    }
  }

  lemma {:induction false} ValueOfPadded(s: string, width: nat)
    requires AllDigits(s)
    ensures Value(ZeroPad(s, width)) == Value(s)
    decreases width - |s|
  {
    if |s| < width {
      LeadingZero(s);
      ValueOfPadded("0" + s, width);
    }
  }

  /** A padded numeral reads back as the number it prints, so printing is injective. */
  lemma PaddedReadsBack(n: nat, width: nat)
    ensures Value(ZeroPad(Digits(n), width)) == n
  {
    ValueOfPadded(Digits(n), width);
    ValueOfDigits(n);
  }
}
