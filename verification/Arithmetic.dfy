// Integer arithmetic shared by the component models.
module Arithmetic {
  function Min(a: int, b: int): int {
    if a < b then a else b
  }

  function Max(a: int, b: int): int {
    if a < b then b else a
  }

  /** The product, by repeated addition: solvers handle it better than a product of two unknowns. */
  function Times(width: nat, n: nat): nat {
    if n == 0 then 0 else Times(width, n - 1) + width
  }

  lemma {:induction false} TimesIsProduct(width: nat, n: nat)
    ensures Times(width, n) == width * n == n * width
  {
    if n > 0 {
      TimesIsProduct(width, n - 1);
      assert width * n == width * (n - 1) + width;
    }
  }

  lemma {:induction false} TimesAdds(width: nat, a: nat, b: nat)
    ensures Times(width, a) + Times(width, b) == Times(width, a + b)
  {
    if b > 0 {
      TimesAdds(width, a, b - 1);
    }
  }

  lemma {:induction false} TimesGrows(width: nat, a: nat, b: nat)
    requires a <= b
    ensures Times(width, a) <= Times(width, b)
  {
    if a < b {
      TimesGrows(width, a, b - 1);
    }
  }

  lemma ProductGrows(a: nat, b: nat, width: nat)
    requires a <= b
    ensures a * width <= b * width
  {
    TimesIsProduct(width, a);
    TimesIsProduct(width, b);
    TimesGrows(width, a, b);
  }

  function Power(base: nat, n: nat): nat {
    if n == 0 then 1 else Power(base, n - 1) * base
  }

  lemma Multiple(k: int, n: nat)
    ensures k >= 1 ==> k * n >= n
    ensures k <= -1 ==> k * n <= 0 - n
  {
    if k >= 1 {
      ProductGrows(1, k, n);
    } else if k <= -1 {
      ProductGrows(1, -k, n);
      assert -k * n == -(k * n);
    }
  }

  /** Quotient and remainder are unique. */
  lemma DivMod(x: int, q: int, r: nat, n: nat)
    requires r < n && x == q * n + r
    ensures x / n == q && x % n == r
  {
    var p, m := x / n, x % n;
    Difference(p, q, n);
    Multiple(p - q, n);
  }

  lemma Difference(p: int, q: int, n: int)
    ensures (p - q) * n == p * n - q * n
  {
  }
}
