// The reference hasher of bmt/bmt_r.go: a plain recursion over the chunk.
module BmtReference {
  import opened Powers

  type Bytes = seq<bv8>
  // The base hash is any function on byte strings; nothing below depends on which one.
  type BaseHash = Bytes -> Bytes

  datatype RefHasher = RefHasher(section: nat, span: nat, cap: nat)

  /** The halving loop `for ; s >= l; s /= 2`. */
  function Halved(s: nat, l: nat): (r: nat)
    requires l >= 1
    ensures r < l
    ensures s >= 1 && l >= 2 ==> r >= 1
  {
    if s < l then s else Halved(s / 2, l)
  }

  /** What `RefHasher.hash` computes on chunk `d` with span `s`. */
  function RefHash(h: BaseHash, section: nat, d: Bytes, s: nat): Bytes
    requires section >= 2 && s >= 1
    decreases |d|
  {
    if |d| <= section then h(d)
    else
      var m := Halved(s, |d|);
      var left := RefHash(h, section, d[..m], m);
      var right := if |d| - m > section / 2 then RefHash(h, section, d[m..], m) else d[m..];
      h(left + right)
  }

  /** `NewRefHasher`: the span is the largest power of two of segments below `count` (never below two). */
  method NewRefHasher(size: nat, count: nat) returns (rh: RefHasher, ghost k: nat)
    requires size >= 1
    ensures rh.section == 2 * size && rh.cap == size * count
    ensures k >= 1 && rh.span == Pow2(k) * size
    ensures count <= 2 ==> k == 1
    ensures count > 2 ==> Pow2(k) < count <= Pow2(k + 1)
  {
    var c := 2;
    k := 1;
    while c < count
      invariant k >= 1 && c == Pow2(k)
      invariant k > 1 ==> Pow2(k - 1) < count
    {
      c := c * 2;
      k := k + 1;
    }
    if c > 2 {
      c := c / 2;
      k := k - 1;
    }
    rh := RefHasher(2 * size, c * size, size * count);
  }

  /** `RefHasher.hash` with its loop. */
  method HashSpan(h: BaseHash, section: nat, d: Bytes, s: nat) returns (r: Bytes)
    requires section >= 2 && s >= 1
    ensures r == RefHash(h, section, d, s)
    decreases |d|
  {
    var left, right := d, [];
    if |d| > section {
      var m := s;
      while m >= |d|
        invariant m >= 1 && Halved(m, |d|) == Halved(s, |d|)
      {
        m := m / 2;
      }
      left := HashSpan(h, section, d[..m], m);
      right := d[m..];
      if |d| - m > section / 2 {
        right := HashSpan(h, section, right, m);
      }
    }
    assert |d| <= section ==> left + right == d;
    r := h(left + right);
  }

  /** `RefHasher.Hash`: input beyond the capacity is ignored. */
  method Hash(h: BaseHash, rh: RefHasher, d: Bytes) returns (r: Bytes)
    requires rh.section >= 2 && rh.span >= 1
    ensures r == RefHash(h, rh.section, if |d| > rh.cap then d[..rh.cap] else d, rh.span)
  {
    var chunk := d;
    if |chunk| > rh.cap {
      chunk := chunk[..rh.cap];
    }
    r := HashSpan(h, rh.section, chunk, rh.span);
  }

  /** The length of `Pow2(k)` segments. */
  function Width(size: nat, k: nat): nat {
    if k == 0 then size else 2 * Width(size, k - 1)
  }

  lemma {:induction false} WidthIs(size: nat, k: nat)
    ensures Width(size, k) == Pow2(k) * size >= size
  {
    if k > 0 {
      WidthIs(size, k - 1);
      Doubles(Pow2(k - 1), size);
    }
  }

  lemma Doubles(p: nat, size: nat)
    ensures (2 * p) * size == 2 * (p * size)
  {
  }

  /** The hash of the perfect binary tree over `Pow2(k)` segments, two to a leaf. */
  function TreeHash(h: BaseHash, size: nat, d: Bytes, k: nat): Bytes
    requires |d| == Width(size, k)
  {
    if k <= 1 then h(d)
    else
      var m := Width(size, k - 1);
      h(TreeHash(h, size, d[..m], k - 1) + TreeHash(h, size, d[m..], k - 1))
  }

  /** On full chunks the recursion with its moving span is the perfect tree. */
  lemma {:induction false} RefHashIsTreeHash(h: BaseHash, size: nat, d: Bytes, k: nat, s: nat)
    requires size >= 1 && k >= 1
    requires |d| == Width(size, k)
    requires s == Width(size, k) || s == Width(size, k - 1)
    ensures s >= 1 && RefHash(h, 2 * size, d, s) == TreeHash(h, size, d, k)
    decreases k
  {
    var m := Width(size, k - 1);
    WidthIs(size, k - 1);
    if k > 1 {
      WidthIs(size, k - 2);
      HalvedSpan(s, m);
      RefHashIsTreeHash(h, size, d[..m], k - 1, m);
      RefHashIsTreeHash(h, size, d[m..], k - 1, m);
    }
  }

  lemma {:induction false} HalvedSpan(s: nat, m: nat)
    requires m >= 1 && (s == m || s == 2 * m)
    ensures Halved(s, 2 * m) == m
  {
    if s == 2 * m {
      assert s / 2 == m;
      assert Halved(s, 2 * m) == Halved(m, 2 * m);
    }
  }
}
