/** Products behind a name, so that a proof meets them one step at a time. */
module Arithmetic {
  function Times(n: int, width: int): int { n * width }

  lemma TimesSuccessor(n: int, width: int)
    ensures Times(n + 1, width) == Times(n, width) + width
  {
  }

  lemma TimesMonotone(a: int, b: int, width: int)
    requires a <= b && width > 0
    ensures a * width <= b * width
  {
  }

  lemma TimesQuotient(n: int, width: int, span: int)
    requires width > 0 && Times(n, width) <= span
    ensures n <= span / width
  {
    var q := span / width;
    assert span < (q + 1) * width;
    if q + 1 <= n {
      TimesMonotone(q + 1, n, width);
    }
  }

  lemma TimesNonNegative(n: nat, width: nat)
    ensures Times(n, width) >= 0
  {
  }

  lemma TimesMonotoneRight(n: nat, a: int, b: int)
    requires a <= b
    ensures Times(n, a) <= Times(n, b)
  {
  }
}
