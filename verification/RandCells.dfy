// The cells of a weighted selection tree as one sequence, and what splitting it into equal parts preserves.
module RandCells {
  import opened Arithmetic

  datatype Cell = Free | Used(item: int, weight: nat)

  function Weight(c: Cell): nat {
    if c.Used? then c.weight else 0
  }

  function One(c: Cell): nat {
    if c.Used? then 1 else 0
  }

  /** The weight of the first n cells. */
  function Prefix(s: seq<Cell>, n: nat): nat
    requires n <= |s|
  {
    if n == 0 then 0 else Prefix(s, n - 1) + Weight(s[n - 1])
  }

  function Total(s: seq<Cell>): nat {
    Prefix(s, |s|)
  }

  /** The number of used cells among the first n. */
  function UsedIn(s: seq<Cell>, n: nat): nat
    requires n <= |s|
  {
    if n == 0 then 0 else UsedIn(s, n - 1) + One(s[n - 1])
  }

  function Count(s: seq<Cell>): nat {
    UsedIn(s, |s|)
  }

  /** The first n parts in a row. */
  function Join(parts: seq<seq<Cell>>, n: nat): seq<Cell>
    requires n <= |parts|
  {
    if n == 0 then [] else Join(parts, n - 1) + parts[n - 1]
  }

  function Flat(parts: seq<seq<Cell>>): seq<Cell> {
    Join(parts, |parts|)
  }

  ghost predicate Even(parts: seq<seq<Cell>>, size: nat) {
    forall i :: 0 <= i < |parts| ==> |parts[i]| == size
  }

  /** A draw falls on the cell whose weight covers it, counting weights from the left. */
  predicate Covers(s: seq<Cell>, k: nat, draw: int) {
    k < |s| && Prefix(s, k) <= draw < Prefix(s, k) + Weight(s[k])
  }

  /** k is the first free cell. */
  ghost predicate FirstFree(s: seq<Cell>, k: nat) {
    k < |s| && s[k].Free? && forall j :: 0 <= j < k ==> s[j].Used?
  }

  /** Sums of a prefix depend on the prefix alone. */
  lemma {:induction false} SameSums(s: seq<Cell>, t: seq<Cell>, n: nat)
    requires n <= |s| && n <= |t| && forall i :: 0 <= i < n ==> s[i] == t[i]
    ensures Prefix(s, n) == Prefix(t, n) && UsedIn(s, n) == UsedIn(t, n)
  {
    if n > 0 {
      SameSums(s, t, n - 1);
    }
  }

  lemma {:induction false} Concat(a: seq<Cell>, b: seq<Cell>, n: nat)
    requires n <= |b|
    ensures Prefix(a + b, |a| + n) == Total(a) + Prefix(b, n) && UsedIn(a + b, |a| + n) == Count(a) + UsedIn(b, n)
  {
    if n == 0 {
      SameSums(a + b, a, |a|);
    } else {
      Concat(a, b, n - 1);
      assert (a + b)[|a| + n - 1] == b[n - 1];
    }
  }

  /** Changing one cell changes the sums by that cell alone. */
  lemma {:induction false} Change(s: seq<Cell>, t: seq<Cell>, k: nat, n: nat)
    requires k < n <= |s| == |t| && forall i :: 0 <= i < n && i != k ==> s[i] == t[i]
    ensures Prefix(t, n) == Prefix(s, n) - Weight(s[k]) + Weight(t[k])
    ensures UsedIn(t, n) == UsedIn(s, n) - One(s[k]) + One(t[k])
  {
    if n == k + 1 {
      SameSums(s, t, k);
    } else {
      Change(s, t, k, n - 1);
    }
  }

  lemma Single(c: Cell)
    ensures Total([c]) == Weight(c) && Count([c]) == One(c)
  {
    assert Prefix([c], 0) == 0 && UsedIn([c], 0) == 0;
  }

  lemma {:induction false} CountBound(s: seq<Cell>, n: nat)
    requires n <= |s|
    ensures UsedIn(s, n) <= n
    ensures UsedIn(s, n) == n <==> forall k :: 0 <= k < n ==> s[k].Used?
  {
    if n > 0 {
      CountBound(s, n - 1);
    }
  }

  lemma {:induction false} AllFree(s: seq<Cell>, n: nat)
    requires n <= |s| && forall k :: 0 <= k < n ==> s[k].Free?
    ensures Prefix(s, n) == 0 && UsedIn(s, n) == 0
  {
    if n > 0 {
      AllFree(s, n - 1);
    }
  }

  lemma {:induction false} JoinLength(parts: seq<seq<Cell>>, size: nat, n: nat)
    requires Even(parts, size) && n <= |parts|
    ensures |Join(parts, n)| == Times(size, n)
  {
    if n > 0 {
      JoinLength(parts, size, n - 1);
    }
  }

  /** The cell at an index is found in the part the index divides to, and the parts before it come first. */
  lemma {:induction false} JoinAt(parts: seq<seq<Cell>>, size: nat, b: nat, k: nat, n: nat)
    requires Even(parts, size) && b < n <= |parts| && k < size
    ensures |Join(parts, b)| == Times(size, b)
    ensures Times(size, b) + k < |Join(parts, n)| && Join(parts, n)[Times(size, b) + k] == parts[b][k]
    ensures Join(parts, n)[..Times(size, b) + k] == Join(parts, b) + parts[b][..k]
  {
    JoinLength(parts, size, n - 1);
    if b < n - 1 {
      JoinAt(parts, size, b, k, n - 1);
      assert Join(parts, n)[..Times(size, b) + k] == Join(parts, n - 1)[..Times(size, b) + k];
    }
  }

  lemma {:induction false} JoinUpdate(parts: seq<seq<Cell>>, q: seq<seq<Cell>>, size: nat, b: nat, k: nat, c: Cell,
                                      n: nat)
    requires Even(parts, size) && b < |parts| && k < size && n <= |parts| && q == parts[b := parts[b][k := c]]
    ensures n <= b ==> Join(q, n) == Join(parts, n)
    ensures b < n ==> Times(size, b) + k < |Join(parts, n)| && Join(q, n) == Join(parts, n)[Times(size, b) + k := c]
  {
    if n > 0 {
      JoinUpdate(parts, q, size, b, k, c, n - 1);
      JoinLength(parts, size, n - 1);
    }
  }

  /** Changing one cell of a part changes the row, and its sums, in that cell alone. */
  lemma {:induction false} ChangePart(parts: seq<seq<Cell>>, q: seq<seq<Cell>>, size: nat, b: nat, k: nat, c: Cell)
    requires Even(parts, size) && b < |parts| && k < size && q == parts[b := parts[b][k := c]]
    ensures Times(size, b) + k < |Flat(parts)| && Flat(q) == Flat(parts)[Times(size, b) + k := c]
    ensures Total(Flat(q)) == Total(Flat(parts)) - Weight(parts[b][k]) + Weight(c)
    ensures Count(Flat(q)) == Count(Flat(parts)) - One(parts[b][k]) + One(c)
  {
    var s, t, i := Flat(parts), Flat(q), Times(size, b) + k;
    JoinUpdate(parts, q, size, b, k, c, |parts|);
    JoinAt(parts, size, b, k, |parts|);
    Change(s, t, i, |s|);
  }

  /** The first free cell of the first part that has one is the first free cell of all. */
  lemma {:induction false} FirstFreePart(parts: seq<seq<Cell>>, size: nat, b: nat, k: nat)
    requires Even(parts, size) && b < |parts| && FirstFree(parts[b], k)
    requires forall i :: 0 <= i < b ==> Count(parts[i]) == size
    ensures FirstFree(Flat(parts), Times(size, b) + k)
  {
    JoinAt(parts, size, b, k, |parts|);
    FullParts(parts, size, b);
    var full := Join(parts, b);
    CountBound(full, |full|);
    var s, i := Flat(parts), Times(size, b) + k;
    forall j | 0 <= j < i ensures s[j].Used? {
      assert s[j] == s[..i][j];
    }
  }

  lemma {:induction false} FullParts(parts: seq<seq<Cell>>, size: nat, n: nat)
    requires Even(parts, size) && n <= |parts| && forall i :: 0 <= i < n ==> Count(parts[i]) == size
    ensures Count(Join(parts, n)) == |Join(parts, n)|
  {
    if n > 0 {
      FullParts(parts, size, n - 1);
      Concat(Join(parts, n - 1), parts[n - 1], size);
    }
  }

  /** A draw that a part covers after the weights of the parts before it is covered by the same cell of the row. */
  lemma {:induction false} CoversPart(parts: seq<seq<Cell>>, size: nat, b: nat, k: nat, draw: int)
    requires Even(parts, size) && b < |parts| && Covers(parts[b], k, draw - Total(Join(parts, b)))
    ensures Covers(Flat(parts), Times(size, b) + k, draw)
  {
    JoinAt(parts, size, b, k, |parts|);
    PrefixAt(parts, size, b, k);
  }

  /** The weight before cell k of part b is that of the parts before and of the cells before it in the part. */
  lemma {:induction false} PrefixAt(parts: seq<seq<Cell>>, size: nat, b: nat, k: nat)
    requires Even(parts, size) && b < |parts| && k < size
    ensures Times(size, b) + k <= |Flat(parts)|
    ensures Prefix(Flat(parts), Times(size, b) + k) == Total(Join(parts, b)) + Prefix(parts[b], k)
  {
    JoinAt(parts, size, b, k, |parts|);
    var row, front, part, i := Flat(parts), Join(parts, b), parts[b][..k], Times(size, b) + k;
    Concat(front, part, k);
    SameSums(part, parts[b], k);
    FrontSums(row, front + part, i);
  }

  lemma {:induction false} FrontSums(s: seq<Cell>, t: seq<Cell>, i: nat)
    requires i <= |s| && s[..i] == t
    ensures |t| == i && Prefix(s, i) == Prefix(t, i)
  {
    forall j | 0 <= j < i ensures s[j] == t[j] {
      assert s[..i][j] == s[j];
    }
    SameSums(s, t, i);
  }

  lemma {:induction false} PrefixGrows(s: seq<Cell>, i: nat, j: nat)
    requires i < j <= |s|
    ensures Prefix(s, i) + Weight(s[i]) <= Prefix(s, j)
  {
    if i + 1 < j {
      PrefixGrows(s, i, j - 1);
    }
  }

  /** Each draw falls on one cell only. */
  lemma CoversOnce(s: seq<Cell>, i: nat, j: nat, draw: int)
    requires Covers(s, i, draw) && Covers(s, j, draw)
    ensures i == j
  {
    if i < j {
      PrefixGrows(s, i, j);
    } else if j < i {
      PrefixGrows(s, j, i);
    }
  }

  /** Exactly as many draws below the total fall on a cell as the cell weighs. */
  lemma DrawsPerCell(s: seq<Cell>, k: nat)
    requires k < |s|
    ensures |set draw | 0 <= draw < Total(s) && Covers(s, k, draw)| == Weight(s[k])
  {
    PrefixGrows(s, k, |s|);
    var draws := set draw | 0 <= draw < Total(s) && Covers(s, k, draw);
    assert draws == Interval(Prefix(s, k), Prefix(s, k) + Weight(s[k]));
  }

  ghost function Interval(low: int, high: int): (r: set<int>)
    requires low <= high
    ensures forall i :: i in r <==> low <= i < high
    ensures |r| == high - low
    decreases high - low
  {
    if low == high then {} else Interval(low, high - 1) + {high - 1}
  }
}
