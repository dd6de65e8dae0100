// The selection set itself: items with handed-out indexes over a tree whose root grows.
module RandSelectRuns {
  import opened Arithmetic
  import opened Powers
  import opened RandCells
  import opened RandSelect

  /** The cell holds its item at the index that was handed out for it. */
  ghost predicate CellTracked(idx: map<int, nat>, cells: seq<Cell>, k: nat)
    requires k < |cells|
  {
    cells[k].Used? ==> cells[k].weight > 0 && cells[k].item in idx && idx[cells[k].item] == k
  }

  /** Each item's index leads to its cell, and each used cell is some item's. */
  ghost predicate Tracks(idx: map<int, nat>, cells: seq<Cell>) {
    && (forall x :: x in idx ==> idx[x] < |cells| && cells[idx[x]].Used? && cells[idx[x]].item == x)
    && forall k :: 0 <= k < |cells| ==> CellTracked(idx, cells, k)
  }

  /** The weight stored for an item, zero if it is not in the set. */
  ghost function StoredWeight(idx: map<int, nat>, cells: seq<Cell>, item: int): nat {
    if item in idx && idx[item] < |cells| then Weight(cells[idx[item]]) else 0
  }

  /** One level more, with the old root as first branch. */
  function Grow(root: Node): Node
    requires root.sumWeight >= 0
  {
    var n := NewNode(root.level + 1);
    n.(items := n.items[0 := Sub(root)], weights := n.weights[0 := root.sumWeight],
       sumWeight := root.sumWeight, itemCnt := root.itemCnt)
  }

  lemma {:induction false} GrownJoin(parts: seq<seq<Cell>>, n: nat)
    requires 1 <= n <= |parts| && forall i, k :: 1 <= i < |parts| && 0 <= k < |parts[i]| ==> parts[i][k].Free?
    ensures |parts[0]| <= |Join(parts, n)| && Join(parts, n)[..|parts[0]|] == parts[0]
    ensures forall k :: |parts[0]| <= k < |Join(parts, n)| ==> Join(parts, n)[k].Free?
    ensures Total(Join(parts, n)) == Total(parts[0]) && Count(Join(parts, n)) == Count(parts[0])
  {
    if n == 1 {
      assert Join(parts, 0) == [] && Join(parts, 1) == [] + parts[0] == parts[0];
    } else {
      GrownJoin(parts, n - 1);
      var a, b := Join(parts, n - 1), parts[n - 1];
      Concat(a, b, |b|);
      AllFree(b, |b|);
    }
  }

  lemma {:induction false} GrownSlots(root: Node, n: Node, i: nat)
    requires Valid(root) && i < BRANCHES && n == Grow(root)
    ensures SlotOk(n.items[i], n.weights[i], n.level)
  {
    PartsEven(root);
    AllFree(FreeCells(Span(n.level)), Span(n.level));
    assert Span(n.level) == root.maxItems;
  }

  /** Growth keeps every cell in its place and adds free cells behind. */
  lemma {:induction false} Grown(root: Node, n: Node)
    requires Valid(root) && n == Grow(root)
    ensures Valid(n) && n.maxItems == BRANCHES * root.maxItems && n.itemCnt == Count(Contents(root))
    ensures |Contents(root)| <= |Contents(n)| && Contents(n)[..|Contents(root)|] == Contents(root)
    ensures forall k :: |Contents(root)| <= k < |Contents(n)| ==> Contents(n)[k].Free?
  {
    GrownJoin(Parts(n, |n.items|), |n.items|);
    forall i | 0 <= i < BRANCHES ensures SlotOk(n.items[i], n.weights[i], n.level) {
      GrownSlots(root, n, i);
    }
  }

  lemma GrownTracked(idx: map<int, nat>, cells: seq<Cell>, more: seq<Cell>)
    requires Tracks(idx, cells) && |cells| <= |more| && more[..|cells|] == cells
    requires forall k :: |cells| <= k < |more| ==> more[k].Free?
    ensures Tracks(idx, more)
    ensures forall x :: StoredWeight(idx, more, x) == StoredWeight(idx, cells, x)
  {
    assert forall k :: 0 <= k < |cells| ==> more[k] == more[..|cells|][k];
    forall k | 0 <= k < |more| ensures CellTracked(idx, more, k) {
      assert k < |cells| ==> CellTracked(idx, cells, k);
    }
  }

  lemma InsertTracked(idx: map<int, nat>, cells: seq<Cell>, k: nat, item: int, weight: nat)
    requires Tracks(idx, cells) && item !in idx && k < |cells| && cells[k].Free? && weight > 0
    ensures Tracks(idx[item := k], cells[k := Used(item, weight)])
    ensures forall x ::
      StoredWeight(idx[item := k], cells[k := Used(item, weight)], x) ==
      if x == item then weight else StoredWeight(idx, cells, x)
  {
    var idx', cells' := idx[item := k], cells[k := Used(item, weight)];
    forall j | 0 <= j < |cells'| ensures CellTracked(idx', cells', j) {
      assert CellTracked(idx, cells, j);
    }
    forall x ensures StoredWeight(idx', cells', x) == if x == item then weight else StoredWeight(idx, cells, x) {
    }
  }

  lemma UpdateTracked(idx: map<int, nat>, cells: seq<Cell>, item: int, weight: nat, idx': map<int, nat>,
                      cells': seq<Cell>)
    requires Tracks(idx, cells) && item in idx && cells' == cells[idx[item] := Reweighed(cells[idx[item]], weight)]
    requires idx' == if weight == 0 then map x | x in idx && x != item :: idx[x] else idx
    ensures Tracks(idx', cells')
    ensures forall x :: StoredWeight(idx', cells', x) == if x == item then weight else StoredWeight(idx, cells, x)
  {
    forall j | 0 <= j < |cells'| ensures CellTracked(idx', cells', j) {
      assert CellTracked(idx, cells, j);
    }
    forall x | x in idx' ensures idx'[x] < |cells'| && cells'[idx'[x]].Used? && cells'[idx'[x]].item == x {
      assert CellTracked(idx, cells, idx[x]);
    }
  }

  /** The weight of an item as some round up to the given one has read it. */
  ghost predicate ReadAs(weights: seq<map<int, nat>>, rounds: nat, item: int, weight: nat) {
    exists j :: 0 <= j < rounds <= |weights| && item in weights[j] && weights[j][item] == weight
  }

  lemma ReadMore(weights: seq<map<int, nat>>, j: nat, choice: int)
    requires j < |weights| && choice in weights[j]
    ensures ReadAs(weights, j + 1, choice, weights[j][choice])
    ensures forall x, w :: ReadAs(weights, j, x, w) ==> ReadAs(weights, j + 1, x, w)
  {
  }

  /** The random numbers of one round, each reduced to the range it is needed in. */
  datatype Random = Random(first: nat, second: nat)

  function RandBelow(raw: nat, n: nat): (draw: nat)
    requires n > 0
    ensures draw < n && (raw < n ==> draw == raw)
  {
    raw % n
  }

  /** The first number of a round falls on cell k. */
  ghost predicate Falls(cells: seq<Cell>, k: nat, current: map<int, nat>, random: Random) {
    && Total(cells) > 0 && Covers(cells, k, RandBelow(random.first, Total(cells)))
    && cells[k].Used? && cells[k].weight > 0 && cells[k].item in current
  }

  /** An item whose weight has not fallen is accepted; another one if the second number is below its new weight. */
  predicate Accepted(weight: nat, last: nat, draw: nat) {
    weight >= last || draw < weight
  }

  /** The cells before and after one round, and the item it accepts. */
  ghost predicate RoundAt(cells: seq<Cell>, cells': seq<Cell>, current: map<int, nat>, random: Random, r: Option<int>) {
    exists k: nat :: Falls(cells, k, current, random) && RoundOn(cells, cells', current, random, r, k)
  }

  ghost predicate RoundOn(cells: seq<Cell>, cells': seq<Cell>, current: map<int, nat>, random: Random, r: Option<int>,
                          k: nat)
    requires Falls(cells, k, current, random)
  {
    var item, last := cells[k].item, cells[k].weight;
    && cells' == cells[k := Reweighed(cells[k], current[item])]
    && r == if Accepted(current[item], last, RandBelow(random.second, last)) then Some(item) else None
  }

  /** The first n rounds, of which all but the last reject. */
  ghost predicate Rounds(trace: seq<seq<Cell>>, weights: seq<map<int, nat>>, randoms: seq<Random>, n: nat,
                         r: Option<int>) {
    && n < |trace| && n <= |weights| && n <= |randoms|
    && forall j :: 0 <= j < n ==>
      RoundAt(trace[j], trace[j + 1], weights[j], randoms[j], if j == n - 1 then r else None)
  }

  lemma MoreRounds(trace: seq<seq<Cell>>, cells: seq<Cell>, weights: seq<map<int, nat>>, randoms: seq<Random>, n: nat,
                   r: Option<int>)
    requires Rounds(trace, weights, randoms, n, None) && |trace| == n + 1 && n < |weights| && n < |randoms|
    requires RoundAt(trace[n], cells, weights[n], randoms[n], r)
    ensures Rounds(trace + [cells], weights, randoms, n + 1, r)
  {
    var more := trace + [cells];
    forall j | 0 <= j < n + 1
      ensures RoundAt(more[j], more[j + 1], weights[j], randoms[j], if j == n then r else None)
    {
      if j < n {
        assert RoundAt(trace[j], trace[j + 1], weights[j], randoms[j], if j == n - 1 then None else None);
      }
    }
  }

  /** A round has one outcome. */
  lemma RoundDetermined(cells: seq<Cell>, current: map<int, nat>, random: Random, a: seq<Cell>, b: seq<Cell>,
                        r: Option<int>, q: Option<int>)
    requires RoundAt(cells, a, current, random, r) && RoundAt(cells, b, current, random, q)
    ensures a == b && r == q
  {
    var i: nat :| Falls(cells, i, current, random) && RoundOn(cells, a, current, random, r, i);
    var j: nat :| Falls(cells, j, current, random) && RoundOn(cells, b, current, random, q, j);
    CoversOnce(cells, i, j, RandBelow(random.first, Total(cells)));
  }

  ghost function Pairs<T, U>(a: set<T>, b: set<U>): set<(T, U)> {
    set x, y | x in a && y in b :: (x, y)
  }

  lemma {:induction false} PairsSize<T, U>(a: set<T>, b: set<U>)
    ensures |Pairs(a, b)| == |a| * |b|
    decreases a
  {
    if a == {} {
      assert Pairs(a, b) == {};
    } else {
      var x :| x in a;
      PairsSize(a - {x}, b);
      WithoutRow(a, b, x);
      Distribute(|a|, |b|);
    }
  }

  lemma WithoutRow<T, U>(a: set<T>, b: set<U>, x: T)
    requires x in a
    ensures |Pairs(a, b)| == |Pairs(a - {x}, b)| + |b| && |a - {x}| == |a| - 1
  {
    RowSize(x, b);
    assert Pairs(a, b) == Pairs(a - {x}, b) + Pairs({x}, b) && Pairs(a - {x}, b) !! Pairs({x}, b);
  }

  lemma Distribute(a: int, b: int)
    ensures (a - 1) * b + b == a * b
  {
  }

  lemma {:induction false} RowSize<T, U>(x: T, b: set<U>)
    ensures |Pairs({x}, b)| == |b|
    decreases b
  {
    if b == {} {
      assert Pairs({x}, b) == {};
    } else {
      var y :| y in b;
      RowSize(x, b - {y});
      assert Pairs({x}, b) == Pairs({x}, b - {y}) + {(x, y)};
    }
  }

  ghost function Accepting(weight: nat, last: nat): set<int> {
    set draw | 0 <= draw < last && Accepted(weight, last, draw)
  }

  /** Of the second draws below the stored weight, as many accept as the current weight says. */
  lemma AcceptingDraws(weight: nat, last: nat)
    ensures |Accepting(weight, last)| == Min(weight, last)
  {
    assert Accepting(weight, last) == Interval(0, Min(weight, last));
  }

  ghost function Choosing(cells: seq<Cell>, k: nat, weight: nat): set<(int, int)>
    requires k < |cells|
  {
    set first, second |
      0 <= first < Total(cells) && 0 <= second < Weight(cells[k]) &&
      Covers(cells, k, first) && Accepted(weight, Weight(cells[k]), second) :: (first, second)
  }

  /**
   * Of all pairs of a first draw below the sum and a second one below an item's stored weight, those that choose and
   * accept the item: with the sum S and the stored weight W there are S * W pairs, so the chance is the current weight
   * over S, or W / S if the weight has risen.
   */
  lemma AcceptingPairs(cells: seq<Cell>, k: nat, weight: nat)
    requires k < |cells|
    ensures |Choosing(cells, k, weight)| == Weight(cells[k]) * Min(weight, Weight(cells[k]))
  {
    var last := Weight(cells[k]);
    var firsts := set draw | 0 <= draw < Total(cells) && Covers(cells, k, draw);
    var seconds := Accepting(weight, last);
    DrawsPerCell(cells, k);
    AcceptingDraws(weight, last);
    PairsSize(firsts, seconds);
    assert Choosing(cells, k, weight) == Pairs(firsts, seconds);
  }

  class WeightedRandomSelect {
    var root: Node
    var idx: map<int, nat>

    ghost predicate Valid()
      reads this
    {
      RandSelect.Valid(root) && Tracks(idx, Contents(root))
    }

    ghost function Stored(item: int): nat
      reads this
    {
      StoredWeight(idx, Contents(root), item)
    }

    constructor ()
      ensures Valid() && idx == map[]
    {
      root := NewNode(0);
      idx := map[];
      new;
      EmptyNode(root);
    }

    /** Sets one stored weight and no other; an item keeps its index for as long as it stays in the set. */
    method SetWeight(item: int, weight: nat)
      requires Valid()
      modifies this
      ensures Valid()
      ensures forall x :: Stored(x) == if x == item then weight else old(Stored(x))
      ensures forall x :: x in idx <==> (if x == item then weight > 0 else x in old(idx))
      ensures forall x :: x in idx && x in old(idx) ==> idx[x] == old(idx)[x]
      ensures root.sumWeight == old(root.sumWeight) - old(Stored(item)) + weight
      ensures item in old(idx) ==>
        Contents(root) == old(Contents(root))[old(idx[item]) := Reweighed(old(Contents(root)[idx[item]]), weight)]
    {
      if item in idx {
        Reweigh(item, weight);
      } else if weight != 0 {
        PartsEven(root);
        CountBound(Contents(root), |Contents(root)|);
        if root.itemCnt == root.maxItems {
          AddLevel();
        }
        Add(item, weight);
      }
    }

    method Reweigh(item: int, weight: nat)
      requires Valid() && item in idx
      modifies this
      ensures Valid() && idx == if weight == 0 then map x | x in old(idx) && x != item :: old(idx)[x] else old(idx)
      ensures forall x :: Stored(x) == if x == item then weight else old(Stored(x))
      ensures root.sumWeight == old(root.sumWeight) - old(Stored(item)) + weight
      ensures Contents(root) == old(Contents(root))[old(idx[item]) := Reweighed(old(Contents(root)[idx[item]]), weight)]
    {
      ghost var idx0, cells := idx, Contents(root);
      var diff;
      root, diff := RandSelect.SetWeight(root, idx[item], weight);
      Change(cells, Contents(root), idx[item], |cells|);
      if weight == 0 {
        idx := map x | x in idx && x != item :: idx[x];
      }
      UpdateTracked(idx0, cells, item, weight, idx, Contents(root));
    }

    method AddLevel()
      requires Valid()
      modifies this`root
      ensures Valid() && root.itemCnt == old(root.itemCnt) && root.maxItems == BRANCHES * old(root.maxItems)
      ensures root.sumWeight == old(root.sumWeight)
      ensures forall x :: Stored(x) == old(Stored(x))
    {
      ghost var cells := Contents(root);
      Grown(root, Grow(root));
      root := Grow(root);
      GrownTracked(idx, cells, Contents(root));
    }

    method Add(item: int, weight: nat)
      requires Valid() && item !in idx && weight > 0 && root.itemCnt < root.maxItems
      modifies this
      ensures Valid() && item in idx && idx == old(idx)[item := idx[item]]
      ensures forall x :: Stored(x) == if x == item then weight else old(Stored(x))
      ensures root.sumWeight == old(root.sumWeight) + weight
    {
      ghost var idx0, cells := idx, Contents(root);
      var index;
      root, index := Insert(root, item, weight);
      idx := idx[item := index];
      Change(cells, Contents(root), index, |cells|);
      InsertTracked(idx0, cells, index, item, weight);
    }

    /** Of the draws below the sum, exactly as many fall on an item as its stored weight. */
    lemma DrawsPerItem(item: int)
      requires Valid() && item in idx
      ensures |set draw | 0 <= draw < root.sumWeight && Covers(Contents(root), idx[item], draw)| == Stored(item) > 0
    {
      DrawsPerCell(Contents(root), idx[item]);
      assert CellTracked(idx, Contents(root), idx[item]);
    }

    /**
     * Draws until an item is accepted; `weights` holds the items' current weights and `randoms` the random numbers of
     * each round. Every rejection lowers the stored weight of an item, so the sum falls and the rounds suffice. `trace`
     * holds the cells before each round and after the last one: only the last can accept.
     */
    method Choose(weights: seq<map<int, nat>>, randoms: seq<Random>)
      returns (r: Option<int>, ghost trace: seq<seq<Cell>>)
      requires Valid() && |weights| == |randoms| >= root.sumWeight
      requires forall j, x :: 0 <= j < |weights| && x in idx ==> x in weights[j]
      modifies this
      ensures Valid() && 1 <= |trace| <= |weights| + 1 && forall x :: x in idx ==> x in old(idx)
      ensures trace[0] == old(Contents(root)) && trace[|trace| - 1] == Contents(root)
      ensures Rounds(trace, weights, randoms, |trace| - 1, r)
      ensures r.Some? ==> |trace| >= 2 && r.value in old(idx) && r.value in weights[|trace| - 2]
      ensures r.Some? ==> Stored(r.value) == weights[|trace| - 2][r.value] > 0
      ensures r.None? ==> idx == map[] && forall x :: x in old(idx) ==> ReadAs(weights, |trace| - 1, x, 0)
      ensures forall x ::
        Stored(x) == old(Stored(x)) || (x in old(idx) && ReadAs(weights, |trace| - 1, x, Stored(x)))
    {
      ghost var idx0 := idx;
      var j := 0;
      trace := [Contents(root)];
      while root.sumWeight != 0
        invariant Valid() && forall x :: x in idx ==> x in idx0
        invariant |trace| == j + 1 && root.sumWeight <= |weights| - j
        invariant trace[0] == old(Contents(root)) && trace[j] == Contents(root)
        invariant Rounds(trace, weights, randoms, j, None)
        invariant forall x :: Stored(x) == old(Stored(x)) || (x in idx0 && ReadAs(weights, j, x, Stored(x)))
        invariant forall x :: x in idx0 && x !in idx ==> ReadAs(weights, j, x, 0)
        decreases root.sumWeight
      {
        var accepted, choice := Draw(weights[j], randoms[j]);
        ReadMore(weights, j, choice);
        MoreRounds(trace, Contents(root), weights, randoms, j, if accepted then Some(choice) else None);
        j, trace := j + 1, trace + [Contents(root)];
        if accepted {
          return Some(choice), trace;
        }
      }
      NoneLeft(idx, Contents(root));
      return None, trace;
    }

    /** One round: a draw, the update of the drawn item's stored weight, and the second draw that may reject it. */
    method Draw(current: map<int, nat>, random: Random) returns (accepted: bool, choice: int)
      requires Valid() && root.sumWeight > 0 && forall x :: x in idx ==> x in current
      modifies this
      ensures Valid() && choice in old(idx) && choice in current
      // the first number falls on the chosen item, the second one decides if its weight has fallen
      ensures Covers(old(Contents(root)), old(idx[choice]), RandBelow(random.first, old(root.sumWeight)))
      ensures accepted <==>
        old(Stored(choice)) <= current[choice] || random.second % old(Stored(choice)) < current[choice]
      ensures RoundAt(old(Contents(root)), Contents(root), current, random, if accepted then Some(choice) else None)
      ensures forall x :: Stored(x) == if x == choice then current[choice] else old(Stored(x))
      ensures forall x :: x in idx <==> x in old(idx) && (x == choice ==> current[choice] > 0)
      ensures accepted ==> current[choice] > 0
      ensures !accepted ==> root.sumWeight < old(root.sumWeight)
    {
      var val := RandBelow(random.first, root.sumWeight);
      var lastWeight;
      ghost var index, cells := 0, Contents(root);
      choice, lastWeight, index := RandSelect.Choose(root, val);
      assert CellTracked(idx, cells, index);
      var weight := current[choice];
      if weight != lastWeight {
        SetWeight(choice, weight);
      }
      assert Contents(root) == cells[index := Reweighed(cells[index], weight)];
      accepted := weight >= lastWeight || RandBelow(random.second, lastWeight) < weight;
      assert Falls(cells, index, current, random);
      assert RoundOn(cells, Contents(root), current, random, if accepted then Some(choice) else None, index);
    }
  }

  /** A set of weight zero is empty. */
  lemma NoneLeft(idx: map<int, nat>, cells: seq<Cell>)
    requires Tracks(idx, cells) && Total(cells) == 0
    ensures idx == map[]
  {
    forall x | x in idx ensures false {
      assert CellTracked(idx, cells, idx[x]);
      PrefixGrows(cells, idx[x], |cells|);
    }
  }
}
