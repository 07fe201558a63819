/** Small facts about sums of equal real amounts, kept away from nonlinear arithmetic. */
module Reals {

  function Min(a: real, b: real): real { if a <= b then a else b }

  function Max(a: real, b: real): real { if a >= b then a else b }

  /** The sum of n amounts x. */
  ghost function Times(n: nat, x: real): (sum: real)
    ensures x >= 0.0 ==> sum >= 0.0
  {
    if n == 0 then 0.0 else Times(n - 1, x) + x
  }

  lemma {:induction false} TimesGrows(i: nat, n: nat, x: real)
    requires i < n && x >= 0.0
    ensures 0.0 <= Times(i, x) <= Times(i, x) + x == Times(i + 1, x) <= Times(n, x)
    decreases n
  {
    if i > 0 {
      TimesGrows(i - 1, i, x);
    }
    if i + 1 < n {
      TimesGrows(i, n - 1, x);
    }
  }

  lemma {:induction false} TimesAdd(m: nat, n: nat, x: real)
    ensures Times(m + n, x) == Times(m, x) + Times(n, x)
    ensures x >= 0.0 ==> Times(m, x) <= Times(m + n, x)
  {
    if n > 0 {
      TimesAdd(m, n - 1, x);
    }
  }

  lemma {:induction false} TimesIsProduct(n: nat, x: real)
    ensures Times(n, x) == n as real * x
  {
    if n > 0 {
      TimesIsProduct(n - 1, x);
      assert n as real * x == (n - 1) as real * x + x;
    }
  }

  lemma Scales(product: real, a: real, b: real, factor: real)
    requires factor > 0.0 && a == product / factor && a <= b
    ensures product <= b * factor
  {
    assert product == a * factor;
    assert (b - a) * factor >= 0.0;
  }

  lemma ProductIsNonNegative(a: real, b: real)
    requires a >= 0.0 && b >= 0.0
    ensures a * b >= 0.0
  {
  }

  lemma Distributes(x: real, a: real, b: real, c: real)
    ensures x * (b - a) + x * (c - b) == x * (c - a)
  {
  }
}
