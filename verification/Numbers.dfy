/** Arithmetic on reals that several models share. */
module Numbers {
  function Max(a: real, b: real): real {
    if a >= b then a else b
  }

  function Min(a: real, b: real): real {
    if a <= b then a else b
  }

  function Abs(a: real): real {
    if a >= 0.0 then a else -a
  }

  /** The larger and the smaller of two numbers, and the size of one. */
  lemma LargerSmallerSize(a: real, b: real)
    ensures Max(a, b) >= a && Max(a, b) >= b && (Max(a, b) == a || Max(a, b) == b)
    ensures Min(a, b) <= a && Min(a, b) <= b && (Min(a, b) == a || Min(a, b) == b)
    ensures Abs(a) >= 0.0 && (Abs(a) == a || Abs(a) == -a)
  {
  }

  /** An average lies between the bounds its total was measured against. */
  lemma QuotientWithin(total: real, n: real, lo: real, hi: real)
    requires n > 0.0 && n * lo <= total <= n * hi
    ensures lo <= total / n <= hi
  {
    assert total / n * n == total;
  }
}
