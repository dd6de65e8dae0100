// Sums of the values of finite maps.
module Sums {
  ghost function SumOver<K(!new)>(s: set<K>, m: map<K, nat>): nat
    requires s <= m.Keys
  {
    if s == {} then 0 else
      var a :| a in s;
      m[a] + SumOver(s - {a}, m)
  }

  ghost function Sum<K(!new)>(m: map<K, nat>): nat {
    SumOver(m.Keys, m)
  }

  lemma {:induction false} SumRemove<K(!new)>(s: set<K>, m: map<K, nat>, a: K)
    requires a in s && s <= m.Keys
    ensures SumOver(s, m) == m[a] + SumOver(s - {a}, m)
    decreases s
  {
    var b :| b in s && SumOver(s, m) == m[b] + SumOver(s - {b}, m);
    if b != a {
      SumRemove(s - {b}, m, a);
      SumRemove(s - {a}, m, b);
      assert s - {a} - {b} == s - {b} - {a};
    }
  }

  lemma {:induction false} SumLe<K(!new)>(s: set<K>, m: map<K, nat>, n: map<K, nat>)
    requires s <= m.Keys && s <= n.Keys && forall a :: a in s ==> m[a] <= n[a]
    ensures SumOver(s, m) <= SumOver(s, n)
    decreases s
  {
    if s != {} {
      var a :| a in s;
      SumRemove(s, m, a);
      SumRemove(s, n, a);
      SumLe(s - {a}, m, n);
    }
  }

  /** Changing one entry changes the sum by the difference. */
  lemma SumUpdate<K(!new)>(m: map<K, nat>, a: K, x: nat)
    requires a in m
    ensures Sum(m[a := x]) + m[a] == Sum(m) + x
  {
    var m' := m[a := x];
    var rest := m.Keys - {a};
    assert m'.Keys == m.Keys;
    SumRemove(m.Keys, m, a);
    SumRemove(m.Keys, m', a);
    SumLe(rest, m, m');
    SumLe(rest, m', m);
  }
}
