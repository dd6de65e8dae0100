// The weighted random selection tree: nodes of eight branches, a root that grows, and the map from items to the
// indexes handed out. A node is a value that its only parent holds. Weights and their sums are not bounded to
// 64 bits; random draws are arbitrary choices below their bound.
module RandSelect {
  import opened Arithmetic
  import opened RandCells

  const BRANCHES := 8

  datatype Slot = Empty | Leaf(item: int) | Sub(node: Node)

  datatype Node = Node(items: seq<Slot>, weights: seq<nat>, sumWeight: int, level: nat, itemCnt: int, maxItems: nat)

  /** The number of items a tree of this level can hold. */
  function Capacity(level: nat): nat {
    if level == 0 then BRANCHES else BRANCHES * Capacity(level - 1)
  }

  /** The number of cells under one branch. */
  function Span(level: nat): (size: nat)
    ensures size > 0 && Capacity(level) == BRANCHES * size
  {
    if level == 0 then 1 else BRANCHES * Span(level - 1)
  }

  function FreeCells(n: nat): (s: seq<Cell>)
    ensures |s| == n && forall k :: 0 <= k < n ==> s[k] == Free
  {
    if n == 0 then [] else FreeCells(n - 1) + [Free]
  }

  /** The cells under a branch. */
  function Part(slot: Slot, weight: nat, level: nat): seq<Cell>
    decreases slot
  {
    match slot
    case Empty => FreeCells(Span(level))
    case Leaf(x) => [Used(x, weight)]
    case Sub(n) => Contents(n)
  }

  function Parts(n: Node, count: nat): (s: seq<seq<Cell>>)
    requires count <= |n.items| && count <= |n.weights|
    ensures |s| == count && forall i :: 0 <= i < count ==> s[i] == Part(n.items[i], n.weights[i], n.level)
    decreases n, count
  {
    if count == 0 then [] else Parts(n, count - 1) + [Part(n.items[count - 1], n.weights[count - 1], n.level)]
  }

  /** The cells of a tree from left to right. */
  function Contents(n: Node): seq<Cell>
    decreases n, |n.items| + 1
  {
    if |n.items| <= |n.weights| then Flat(Parts(n, |n.items|)) else []
  }

  ghost predicate SlotOk(slot: Slot, weight: nat, level: nat)
    decreases slot
  {
    && weight == Total(Part(slot, weight, level)) && |Part(slot, weight, level)| == Span(level)
    && match slot
       case Empty => true
       case Leaf(_) => level == 0 && weight > 0
       case Sub(n) => level == n.level + 1 && Valid(n)
  }

  ghost predicate Shaped(n: Node) {
    && |n.items| == |n.weights| == BRANCHES && n.maxItems == Capacity(n.level)
    && n.sumWeight == Total(Contents(n)) && n.itemCnt == Count(Contents(n))
  }

  /** Counts and weights agree with the cells below, in every node. */
  ghost predicate Valid(n: Node)
    decreases n
  {
    Shaped(n) && forall i :: 0 <= i < BRANCHES ==> SlotOk(n.items[i], n.weights[i], n.level)
  }

  lemma {:induction false} PartsEven(n: Node)
    requires Valid(n)
    ensures Even(Parts(n, |n.items|), Span(n.level)) && |Contents(n)| == n.maxItems
  {
    var parts := Parts(n, |n.items|);
    forall i | 0 <= i < BRANCHES ensures |parts[i]| == Span(n.level) {
      assert SlotOk(n.items[i], n.weights[i], n.level);
    }
    JoinLength(parts, Span(n.level), |parts|);
    TimesIsProduct(Span(n.level), BRANCHES);
  }

  function NewNode(level: nat): (n: Node)
    ensures |n.items| == |n.weights| == BRANCHES && n.level == level
    ensures n.maxItems == Capacity(level) && n.itemCnt == n.sumWeight == 0
    ensures forall i :: 0 <= i < BRANCHES ==> n.items[i] == Empty && n.weights[i] == 0
  {
    Node(seq(BRANCHES, i => Empty), seq(BRANCHES, i => 0), 0, level, 0, Capacity(level))
  }

  /** A node without items is valid and all its cells are free. */
  lemma {:induction false} EmptyNode(n: Node)
    requires |n.items| == |n.weights| == BRANCHES && n.maxItems == Capacity(n.level) && n.itemCnt == n.sumWeight == 0
    requires forall i :: 0 <= i < BRANCHES ==> n.items[i] == Empty && n.weights[i] == 0
    ensures Valid(n) && Contents(n) == FreeCells(n.maxItems)
  {
    var parts := Parts(n, |n.items|);
    AllFree(FreeCells(Span(n.level)), Span(n.level));
    JoinLength(parts, Span(n.level), |parts|);
    TimesIsProduct(Span(n.level), BRANCHES);
    FreeParts(parts, |parts|);
    AllFree(Contents(n), |Contents(n)|);
  }

  lemma {:induction false} FreeParts(parts: seq<seq<Cell>>, n: nat)
    requires n <= |parts| && forall i, k :: 0 <= i < |parts| && 0 <= k < |parts[i]| ==> parts[i][k].Free?
    ensures forall k :: 0 <= k < |Join(parts, n)| ==> Join(parts, n)[k].Free?
  {
    if n > 0 {
      FreeParts(parts, n - 1);
    }
  }

  /** A node after a change of one branch. */
  function With(n: Node, branch: nat, slot: Slot, delta: int, more: int): Node
    requires branch < |n.items| && branch < |n.weights| && n.weights[branch] + delta >= 0
  {
    n.(items := n.items[branch := slot], weights := n.weights[branch := n.weights[branch] + delta],
       sumWeight := n.sumWeight + delta, itemCnt := n.itemCnt + more)
  }

  /** The change of one cell under a branch. */
  ghost predicate Changes(n: Node, branch: nat, slot: Slot, delta: int, more: int, k: nat, cell: Cell)
    requires branch < |n.items| && branch < |n.weights|
  {
    var part := Part(n.items[branch], n.weights[branch], n.level);
    && k < |part| && delta == Weight(cell) - Weight(part[k]) && more == One(cell) - One(part[k])
    && n.weights[branch] + delta >= 0
    && Part(slot, n.weights[branch] + delta, n.level) == part[k := cell]
  }

  /** Changing one cell below a branch, with the weight and count it adds, changes that cell of the tree. */
  lemma {:induction false} WithChanges(n: Node, branch: nat, slot: Slot, delta: int, more: int, k: nat, cell: Cell)
    requires Valid(n) && branch < BRANCHES && Changes(n, branch, slot, delta, more, k, cell)
    requires SlotOk(slot, n.weights[branch] + delta, n.level)
    ensures Valid(With(n, branch, slot, delta, more)) && k < Span(n.level)
    ensures Times(Span(n.level), branch) + k < |Contents(n)|
    ensures Contents(With(n, branch, slot, delta, more)) == Contents(n)[Times(Span(n.level), branch) + k := cell]
  {
    var m := With(n, branch, slot, delta, more);
    WithCells(n, m, branch, slot, delta, more, k, cell);
    WithSlots(n, m, branch, slot, n.weights[branch] + delta);
  }

  lemma {:induction false} WithCells(n: Node, m: Node, branch: nat, slot: Slot, delta: int, more: int, k: nat,
                                     cell: Cell)
    requires Valid(n) && branch < BRANCHES && Changes(n, branch, slot, delta, more, k, cell)
    requires m == With(n, branch, slot, delta, more)
    ensures Shaped(m) && k < Span(n.level) && Times(Span(n.level), branch) + k < |Contents(n)|
    ensures Contents(m) == Contents(n)[Times(Span(n.level), branch) + k := cell]
  {
    var part := ChangedPart(n, branch, slot, delta, more, k, cell);
    WithParts(n, m, branch, slot, delta, more, k, cell);
    WithSums(n, m, branch, delta, more, k, cell);
  }

  lemma {:induction false} ChangedPart(n: Node, branch: nat, slot: Slot, delta: int, more: int, k: nat, cell: Cell)
    returns (part: seq<Cell>)
    requires Valid(n) && branch < BRANCHES && Changes(n, branch, slot, delta, more, k, cell)
    ensures Even(Parts(n, |n.items|), Span(n.level)) && k < Span(n.level)
    ensures part == Parts(n, |n.items|)[branch] && |part| == Span(n.level)
    ensures delta == Weight(cell) - Weight(part[k]) && more == One(cell) - One(part[k])
  {
    PartsEven(n);
    part := Parts(n, |n.items|)[branch];
  }

  lemma {:induction false} WithParts(n: Node, m: Node, branch: nat, slot: Slot, delta: int, more: int, k: nat,
                                     cell: Cell)
    requires |n.items| == |n.weights| && branch < |n.items| && Changes(n, branch, slot, delta, more, k, cell)
    requires m == With(n, branch, slot, delta, more)
    ensures Parts(m, |m.items|) == Parts(n, |n.items|)[branch := Parts(n, |n.items|)[branch][k := cell]]
  {
  }

  lemma {:induction false} WithSums(n: Node, m: Node, branch: nat, delta: int, more: int, k: nat, cell: Cell)
    requires Valid(n) && branch < BRANCHES && |m.items| == |m.weights| == BRANCHES
    requires m.level == n.level && m.maxItems == n.maxItems
    requires m.sumWeight == n.sumWeight + delta && m.itemCnt == n.itemCnt + more
    requires Even(Parts(n, |n.items|), Span(n.level)) && k < Span(n.level)
    requires Parts(m, |m.items|) == Parts(n, |n.items|)[branch := Parts(n, |n.items|)[branch][k := cell]]
    requires delta == Weight(cell) - Weight(Parts(n, |n.items|)[branch][k])
    requires more == One(cell) - One(Parts(n, |n.items|)[branch][k])
    ensures Shaped(m)
    ensures Times(Span(n.level), branch) + k < |Contents(n)|
    ensures Contents(m) == Contents(n)[Times(Span(n.level), branch) + k := cell]
  {
    ChangePart(Parts(n, |n.items|), Parts(m, |m.items|), Span(n.level), branch, k, cell);
  }

  lemma {:induction false} WithSlots(n: Node, m: Node, branch: nat, slot: Slot, weight: nat)
    requires Valid(n) && branch < BRANCHES && Shaped(m) && SlotOk(slot, weight, n.level)
    requires m.level == n.level && m.items == n.items[branch := slot] && m.weights == n.weights[branch := weight]
    ensures Valid(m)
  {
  }

  /** The branch is empty or not full, and all branches before it are full. */
  ghost predicate RoomAt(n: Node, branch: nat) {
    && branch < BRANCHES == |n.items| == |n.weights|
    && (match n.items[branch] case Empty => true case Leaf(_) => false case Sub(m) => m.itemCnt < m.maxItems)
    && forall j :: 0 <= j < branch ==> Count(Parts(n, |n.items|)[j]) == Span(n.level)
  }

  /** The first branch that is empty or not full; there is one, since the tree is not full. */
  method FindRoom(n: Node) returns (branch: nat)
    requires Valid(n) && n.itemCnt < n.maxItems
    ensures RoomAt(n, branch)
  {
    branch := 0;
    PartsEven(n);
    ghost var parts := Parts(n, |n.items|);
    assert SlotOk(n.items[0], n.weights[0], n.level);
    while n.items[branch] != Empty && (n.level == 0 || n.items[branch].node.itemCnt == n.items[branch].node.maxItems)
      invariant branch < BRANCHES && SlotOk(n.items[branch], n.weights[branch], n.level)
      invariant forall j :: 0 <= j < branch ==> Count(parts[j]) == Span(n.level)
      decreases BRANCHES - branch
    {
      FullBranch(n, branch);
      branch := branch + 1;
      if branch == BRANCHES {
        FullParts(parts, Span(n.level), |parts|);
        assert false;
      }
      assert SlotOk(n.items[branch], n.weights[branch], n.level);
    }
    if n.items[branch].Sub? {
      CountBound(parts[branch], Span(n.level));
      PartsEven(n.items[branch].node);
    }
  }

  lemma {:induction false} FullBranch(n: Node, i: nat)
    requires Valid(n) && i < BRANCHES
    requires match n.items[i] case Empty => false case Leaf(_) => true case Sub(m) => m.itemCnt == m.maxItems
    ensures Count(Part(n.items[i], n.weights[i], n.level)) == Span(n.level)
  {
    assert SlotOk(n.items[i], n.weights[i], n.level);
    if n.items[i].Sub? {
      PartsEven(n.items[i].node);
    } else {
      Single(Part(n.items[i], n.weights[i], n.level)[0]);
    }
  }

  /** Puts an item into the first free cell of a tree that is not full. */
  method Insert(n: Node, item: int, weight: nat) returns (n': Node, index: nat)
    requires Valid(n) && weight > 0 && n.itemCnt < n.maxItems
    ensures Valid(n') && n'.level == n.level
    ensures FirstFree(Contents(n), index) && Contents(n') == Contents(n)[index := Used(item, weight)]
    decreases n.level
  {
    var branch := FindRoom(n);
    if n.level == 0 {
      n', index := With(n, branch, Leaf(item), weight, 1), branch;
      InsertedLeaf(n, n', branch, item, weight);
    } else {
      var subNode := if n.items[branch] == Empty then NewNode(n.level - 1) else n.items[branch].node;
      SubNodeIs(n, branch, subNode);
      var newNode, subIdx := Insert(subNode, item, weight);
      n', index := With(n, branch, Sub(newNode), weight, 1), Position(newNode.maxItems, branch, subIdx);
      InsertedBelow(n, n', branch, newNode, subIdx, index, item, weight);
    }
  }

  /** The index of a cell from its branch and its index below the branch. */
  function Position(size: nat, branch: nat, k: nat): (index: nat)
    ensures index == Times(size, branch) + k
  {
    TimesIsProduct(size, branch);
    size * branch + k
  }

  lemma {:induction false} InsertedLeaf(n: Node, n': Node, branch: nat, item: int, weight: nat)
    requires Valid(n) && n.level == 0 && RoomAt(n, branch) && weight > 0
    requires n' == With(n, branch, Leaf(item), weight, 1)
    ensures Valid(n') && FirstFree(Contents(n), branch) && Contents(n') == Contents(n)[branch := Used(item, weight)]
  {
    var part := Part(n.items[branch], n.weights[branch], n.level);
    assert SlotOk(n.items[branch], n.weights[branch], n.level);
    AllFree(part, |part|);
    Single(Used(item, weight));
    PartsEven(n);
    assert part[0 := Used(item, weight)] == [Used(item, weight)];
    TimesIsProduct(1, branch);
    FirstFreePart(Parts(n, |n.items|), 1, branch, 0);
    WithChanges(n, branch, Leaf(item), weight, 1, 0, Used(item, weight));
  }

  /** The sub-tree to insert into holds the cells of the branch and has room. */
  lemma {:induction false} SubNodeIs(n: Node, branch: nat, subNode: Node)
    requires Valid(n) && n.level > 0 && RoomAt(n, branch)
    requires subNode == if n.items[branch] == Empty then NewNode(n.level - 1) else n.items[branch].node
    ensures Valid(subNode) && subNode.level == n.level - 1 && subNode.itemCnt < subNode.maxItems
    ensures Contents(subNode) == Part(n.items[branch], n.weights[branch], n.level)
  {
    assert SlotOk(n.items[branch], n.weights[branch], n.level);
    if n.items[branch] == Empty {
      EmptyNode(subNode);
      assert Span(n.level) == Capacity(n.level - 1);
    }
  }

  lemma {:induction false} InsertedBelow(n: Node, n': Node, branch: nat, sub: Node, k: nat, index: nat, item: int,
                                         weight: nat)
    requires Valid(n) && n.level > 0 && RoomAt(n, branch) && weight > 0
    requires FirstFree(Part(n.items[branch], n.weights[branch], n.level), k)
    requires Valid(sub) && sub.level == n.level - 1
    requires Contents(sub) == Part(n.items[branch], n.weights[branch], n.level)[k := Used(item, weight)]
    requires n' == With(n, branch, Sub(sub), weight, 1) && index == Times(Span(n.level), branch) + k
    ensures Valid(n') && FirstFree(Contents(n), index) && Contents(n') == Contents(n)[index := Used(item, weight)]
  {
    var part := Part(n.items[branch], n.weights[branch], n.level);
    assert SlotOk(n.items[branch], n.weights[branch], n.level);
    Change(part, Contents(sub), k, |part|);
    FirstFreeBelow(n, branch, k);
    assert SlotOk(Sub(sub), n.weights[branch] + weight, n.level);
    WithChanges(n, branch, Sub(sub), weight, 1, k, Used(item, weight));
  }

  lemma {:induction false} FirstFreeBelow(n: Node, branch: nat, k: nat)
    requires Valid(n) && RoomAt(n, branch) && FirstFree(Part(n.items[branch], n.weights[branch], n.level), k)
    ensures FirstFree(Contents(n), Times(Span(n.level), branch) + k)
  {
    PartsEven(n);
    FirstFreePart(Parts(n, |n.items|), Span(n.level), branch, k);
  }

  /** A used cell with a new weight, freed when the weight is zero. */
  function Reweighed(c: Cell, weight: nat): Cell
    requires c.Used?
  {
    if weight == 0 then Free else Used(c.item, weight)
  }

  /** The branch of an index and the index below that branch. */
  method Locate(idx: nat, size: nat) returns (b: nat, k: nat)
    requires size > 0 && idx < BRANCHES * size
    ensures b < BRANCHES && k < size && idx == Times(size, b) + k
  {
    b := idx / size;
    TimesIsProduct(size, b);
    assert idx == size * b + idx % size;
    if b >= BRANCHES {
      TimesGrows(size, BRANCHES, b);
      TimesIsProduct(size, BRANCHES);
    }
    k := idx - b * size;
  }

  /** Sets the weight of a used cell, or frees it, and returns the change of the stored weight. */
  method SetWeight(n: Node, idx: nat, weight: nat) returns (n': Node, diff: int)
    requires Valid(n) && idx < |Contents(n)| && Contents(n)[idx].Used?
    ensures Valid(n') && n'.level == n.level
    ensures diff == weight - Contents(n)[idx].weight
    ensures Contents(n') == Contents(n)[idx := Reweighed(Contents(n)[idx], weight)]
    decreases n.level
  {
    PartsEven(n);
    var more := if weight == 0 then -1 else 0;
    if n.level == 0 {
      LeafAt(n, idx);
      diff := weight - n.weights[idx];
      var slot := if weight == 0 then Empty else n.items[idx];
      n' := With(n, idx, slot, diff, more);
      ReweighedLeaf(n, n', idx, slot, weight);
    } else {
      var branchItems := n.maxItems / BRANCHES;
      var branch, subIdx := Locate(idx, branchItems);
      SubNodeAt(n, branch, subIdx);
      var sub;
      sub, diff := SetWeight(n.items[branch].node, subIdx, weight);
      ReweighedBelow(n, branch, sub, subIdx, weight, diff);
      n' := With(n, branch, Sub(sub), diff, more);
    }
  }

  lemma {:induction false} LeafAt(n: Node, idx: nat)
    requires Valid(n) && n.level == 0 && idx < |Contents(n)| && Contents(n)[idx].Used?
    ensures idx < BRANCHES && n.items[idx].Leaf? && Contents(n)[idx] == Used(n.items[idx].item, n.weights[idx])
    ensures SlotOk(n.items[idx], n.weights[idx], 0) && Part(n.items[idx], n.weights[idx], 0) == [Contents(n)[idx]]
  {
    PartsEven(n);
    TimesIsProduct(1, idx);
    JoinAt(Parts(n, |n.items|), 1, idx, 0, BRANCHES);
    assert SlotOk(n.items[idx], n.weights[idx], 0);
  }

  lemma {:induction false} ReweighedLeaf(n: Node, n': Node, idx: nat, slot: Slot, weight: nat)
    requires Valid(n) && n.level == 0 && idx < BRANCHES && n.items[idx].Leaf?
    requires SlotOk(n.items[idx], n.weights[idx], 0)
    requires slot == if weight == 0 then Empty else n.items[idx]
    requires n' == With(n, idx, slot, weight - n.weights[idx], if weight == 0 then -1 else 0)
    ensures Valid(n') && idx < |Contents(n)|
    ensures Contents(n') == Contents(n)[idx := Reweighed(Used(n.items[idx].item, n.weights[idx]), weight)]
  {
    var cell := Reweighed(Used(n.items[idx].item, n.weights[idx]), weight);
    TimesIsProduct(1, idx);
    Single(cell);
    assert Part(n.items[idx], n.weights[idx], 0)[0 := cell] == [cell];
    assert Part(slot, weight, 0) == [cell];
    assert SlotOk(slot, weight, 0);
    WithChanges(n, idx, slot, weight - n.weights[idx], One(cell) - 1, 0, cell);
  }

  lemma {:induction false} SubNodeAt(n: Node, branch: nat, k: nat)
    requires Valid(n) && n.level > 0 && branch < BRANCHES && k < Span(n.level)
    requires Times(Span(n.level), branch) + k < |Contents(n)| && Contents(n)[Times(Span(n.level), branch) + k].Used?
    ensures SlotOk(n.items[branch], n.weights[branch], n.level) && n.items[branch].Sub?
    ensures k < |Contents(n.items[branch].node)|
    ensures Contents(n.items[branch].node)[k] == Contents(n)[Times(Span(n.level), branch) + k]
  {
    PartsEven(n);
    JoinAt(Parts(n, |n.items|), Span(n.level), branch, k, BRANCHES);
    assert SlotOk(n.items[branch], n.weights[branch], n.level);
  }

  lemma ReweighedBelow(n: Node, branch: nat, sub: Node, k: nat, weight: nat, diff: int)
    requires Valid(n) && n.level > 0 && branch < BRANCHES && n.items[branch].Sub?
    requires SlotOk(n.items[branch], n.weights[branch], n.level)
    requires var part := Contents(n.items[branch].node);
      && k < |part| && part[k].Used? && diff == weight - part[k].weight
      && Contents(sub) == part[k := Reweighed(part[k], weight)]
    requires Valid(sub) && sub.level == n.level - 1
    ensures n.weights[branch] + diff >= 0
    ensures Valid(With(n, branch, Sub(sub), diff, if weight == 0 then -1 else 0))
    ensures Times(Span(n.level), branch) + k < |Contents(n)|
    ensures Contents(With(n, branch, Sub(sub), diff, if weight == 0 then -1 else 0))
         == Contents(n)[Times(Span(n.level), branch) + k := Reweighed(Contents(n.items[branch].node)[k], weight)]
  {
    var part := Contents(n.items[branch].node);
    var cell := Reweighed(part[k], weight);
    PartsEven(sub);
    Change(part, Contents(sub), k, |part|);
    WithChanges(n, branch, Sub(sub), diff, One(cell) - 1, k, cell);
  }

  /** The recursion: one branch covers the draw, and one cell below it. */
  method ChooseCell(n: Node, draw: int) returns (item: int, weight: nat, ghost index: nat)
    requires Valid(n) && 0 <= draw < n.sumWeight
    ensures Covers(Contents(n), index, draw) && Contents(n)[index] == Used(item, weight)
    decreases n.level
  {
    PartsEven(n);
    forall i | 0 <= i < BRANCHES ensures n.weights[i] == Total(Part(n.items[i], n.weights[i], n.level)) {
      assert SlotOk(n.items[i], n.weights[i], n.level);
    }
    var i, val := FindBranch(n.weights, Parts(n, |n.items|), draw);
    ChosenBranch(n, i);
    ghost var k := 0;
    if n.level == 0 {
      item, weight := n.items[i].item, n.weights[i];
    } else {
      item, weight, k := ChooseCell(n.items[i].node, val);
    }
    CoversPart(Parts(n, |n.items|), Span(n.level), i, k, draw);
    JoinAt(Parts(n, |n.items|), Span(n.level), i, k, BRANCHES);
    index := Times(Span(n.level), i) + k;
  }

  /** The item a draw falls on, with its stored weight. */
  method Choose(n: Node, draw: int) returns (item: int, weight: nat, ghost index: nat)
    requires Valid(n) && 0 <= draw < n.sumWeight
    ensures Covers(Contents(n), index, draw) && Contents(n)[index] == Used(item, weight)
    ensures forall k: nat :: Covers(Contents(n), k, draw) ==> Contents(n)[k] == Used(item, weight)
  {
    item, weight, index := ChooseCell(n, draw);
    OnlyCell(Contents(n), index, draw);
  }

  lemma OnlyCell(s: seq<Cell>, index: nat, draw: int)
    requires Covers(s, index, draw)
    ensures forall k: nat :: Covers(s, k, draw) ==> s[k] == s[index]
  {
    forall k: nat | Covers(s, k, draw) ensures s[k] == s[index] {
      CoversOnce(s, k, index, draw);
    }
  }

  /** A branch of positive weight is not empty. */
  lemma {:induction false} ChosenBranch(n: Node, i: nat)
    requires Valid(n) && i < BRANCHES && n.weights[i] > 0
    ensures var slot, weight := n.items[i], n.weights[i];
      if n.level == 0
      then slot.Leaf? && Part(slot, weight, 0) == [Used(slot.item, weight)] && Total(Part(slot, weight, 0)) == weight
      else slot.Sub? && Valid(slot.node) && slot.node.level == n.level - 1 && slot.node.sumWeight == weight
  {
    assert SlotOk(n.items[i], n.weights[i], n.level);
    if n.items[i].Empty? {
      AllFree(FreeCells(Span(n.level)), Span(n.level));
    }
  }

  /** The loop that subtracts branch weights from the draw; one branch always covers what is left. */
  method FindBranch(weights: seq<nat>, ghost parts: seq<seq<Cell>>, draw: int) returns (i: nat, val: int)
    requires |weights| == |parts| && forall k :: 0 <= k < |parts| ==> weights[k] == Total(parts[k])
    requires 0 <= draw < Total(Flat(parts))
    ensures i < |parts| && val == draw - Total(Join(parts, i)) && 0 <= val < weights[i]
  {
    i, val := 0, draw;
    while i < |weights|
      invariant i <= |parts| && 0 <= val == draw - Total(Join(parts, i))
    {
      if val < weights[i] {
        return;
      }
      Concat(Join(parts, i), parts[i], |parts[i]|);
      val := val - weights[i];
      i := i + 1;
    }
    assert false;
  }
}
