// Powers of two and the option type shared by the component models.
module Powers {
  datatype Option<+T> = None | Some(value: T)

  function Pow2(k: nat): (r: nat)
    ensures r >= 1
    ensures k >= 1 ==> r % 2 == 0
  {
    if k == 0 then 1 else 2 * Pow2(k - 1)
  }

  lemma {:induction false} Pow2Monotone(j: nat, k: nat)
    requires j <= k
    ensures Pow2(j) <= Pow2(k)
  {
    if j < k {
      Pow2Monotone(j, k - 1);
    }
  }

  /** Any element of a set: the order in which a map is ranged over is arbitrary. */
  method Pick<T>(s: set<T>) returns (a: T)
    requires s != {}
    ensures a in s
  {
    a :| a in s;
  }
}
