// Arithmetic modulo the order of the curve group. A point of the ideal group is its multiple of the base point.
module Modular {
  import opened Arithmetic

  // The order of the base point of secp256k1.
  const N: int := 0xFFFFFFFFFFFFFFFFFFFFFFFFFFFFFFFEBAAEDCE6AF48A03BBFD25E8CD0364141

  function Mod(a: int): (r: nat)
    ensures r < N
  {
    a % N
  }

  /** Two numbers that differ by a multiple of N are equal modulo N. */
  lemma ModShift(a: int, b: int, k: int)
    requires a == b + k * N
    ensures Mod(a) == Mod(b)
  {
    assert a == (b / N + k) * N + Mod(b);
    DivMod(a, b / N + k, Mod(b), N);
  }

  /** The numbers differ by a multiple of N. */
  ghost predicate Congruent(a: int, b: int) {
    exists k: int :: a == b + k * N
  }

  lemma CongruentIff(a: int, b: int)
    ensures Congruent(a, b) <==> Mod(a) == Mod(b)
  {
    if Congruent(a, b) {
      var k: int :| a == b + k * N;
      ModShift(a, b, k);
    }
    if Mod(a) == Mod(b) {
      assert a == b + (a / N - b / N) * N;
    }
  }

  lemma ModAdd(a: int, b: int)
    ensures Mod(Mod(a) + b) == Mod(a + b)
  {
    ModShift(a + b, Mod(a) + b, a / N);
  }

  lemma ModSum(a: int, b: int)
    ensures Mod(Mod(a) + Mod(b)) == Mod(a + b)
  {
    ModAdd(a, Mod(b));
    ModAdd(b, a);
  }

  lemma ModMul(a: int, b: int)
    ensures Mod(Mod(a) * b) == Mod(a * b)
  {
    Expand(a / N, N, Mod(a), b);
    ModShift(a * b, Mod(a) * b, (a / N) * b);
  }

  lemma Expand(q: int, n: int, r: int, b: int)
    ensures (q * n + r) * b == r * b + (q * b) * n
  {
  }
}
