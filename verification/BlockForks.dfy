// Walking two chains down to their fork point, as the database helper and the reorganisation do.
module BlockForks {
  import opened Powers
  import opened Blocks

  /** The blocks from b down to, not including, the given height. */
  ghost function Path(b: Block, low: nat): seq<Block>
    requires Linked(b)
    decreases b.number
  {
    if b.number <= low then [] else [b] + Path(b.parent.value, low)
  }

  /** The transactions of a list of blocks, in order. */
  function Transactions(chain: seq<Block>): seq<int> {
    if chain == [] then [] else Transactions(chain[..|chain| - 1]) + chain[|chain| - 1].txs
  }

  /** The proper ancestors of b from the given height upwards are stored. */
  ghost predicate Reaches(stored: set<Block>, b: Block, low: nat)
    requires Linked(b)
  {
    forall n: nat :: low <= n < b.number ==> Ancestor(b, n) in stored
  }

  lemma {:induction false} ReachesParent(stored: set<Block>, b: Block, low: nat)
    requires Linked(b) && low < b.number
    ensures Reaches(stored, b, low) <==> b.parent.value in stored && Reaches(stored, b.parent.value, low)
  {
    var p := b.parent.value;
    assert Ancestor(b, p.number) == p;
    forall n: nat | n <= p.number ensures Ancestor(b, n) == Ancestor(p, n) {
    }
  }

  /** The path holds exactly the ancestors above the height. */
  lemma {:induction false} PathHolds(b: Block, low: nat, c: Block)
    requires Linked(b)
    ensures c in Path(b, low) <==> IsAncestor(b, c) && low < c.number
    decreases b.number
  {
    if b.number > low {
      var p := b.parent.value;
      PathHolds(p, low, c);
      if c.number <= p.number {
        assert Ancestor(b, c.number) == Ancestor(p, c.number);
      }
    }
  }

  lemma {:induction false} TransactionsHold(chain: seq<Block>, tx: int)
    ensures tx in Transactions(chain) <==> exists b :: b in chain && tx in b.txs
  {
    if chain != [] {
      var last := |chain| - 1;
      TransactionsHold(chain[..last], tx);
      assert chain == chain[..last] + [chain[last]];
    }
  }

  lemma {:induction false} CommonBelow(a: Block, b: Block)
    requires Linked(a) && Linked(b) && Root(a) == Root(b)
    ensures Common(a, b).number <= a.number && Common(a, b).number <= b.number
    ensures a != b && a.number >= b.number ==> Common(a, b).number < a.number
    ensures a != b && b.number >= a.number ==> Common(a, b).number < b.number
  {
    CommonIsHighest(a, b, 0);
  }

  /** The state of a walk from (a0, b0) down to (a, b): the same fork point, and the same headers still to find. */
  ghost predicate Walking(stored: set<Block>, a0: Block, b0: Block, a: Block, b: Block) {
    && Linked(a0) && Linked(b0) && Linked(a) && Linked(b)
    && Root(a) == Root(a0) && Root(b) == Root(b0)
    && (Root(a0) == Root(b0) ==> StillToFind(stored, a0, b0, a, b))
  }

  ghost predicate StillToFind(stored: set<Block>, a0: Block, b0: Block, a: Block, b: Block)
    requires Linked(a0) && Linked(b0) && Linked(a) && Linked(b) && Root(a0) == Root(b0) == Root(a) == Root(b)
  {
    && Common(a, b) == Common(a0, b0)
    && (Found(stored, a0, b0) <==> Found(stored, a, b))
  }

  /** Both walks to the fork point find every header. */
  ghost predicate Found(stored: set<Block>, a: Block, b: Block)
    requires Linked(a) && Linked(b) && Root(a) == Root(b)
  {
    Reaches(stored, a, Common(a, b).number) && Reaches(stored, b, Common(a, b).number)
  }

  lemma {:induction false} StepFirst(stored: set<Block>, a: Block, b: Block)
    requires Linked(a) && Linked(b) && Root(a) == Root(b) && a.number > b.number
    ensures Common(a, b) == Common(a.parent.value, b)
    ensures Found(stored, a, b) <==> a.parent.value in stored && Found(stored, a.parent.value, b)
  {
    CommonBelow(a, b);
    ReachesParent(stored, a, Common(a, b).number);
  }

  lemma {:induction false} StepSecond(stored: set<Block>, a: Block, b: Block)
    requires Linked(a) && Linked(b) && Root(a) == Root(b) && b.number > a.number
    ensures Common(a, b) == Common(a, b.parent.value)
    ensures Found(stored, a, b) <==> b.parent.value in stored && Found(stored, a, b.parent.value)
  {
    CommonBelow(a, b);
    ReachesParent(stored, b, Common(a, b).number);
  }

  lemma {:induction false} StepBoth(stored: set<Block>, a: Block, b: Block)
    requires Linked(a) && Linked(b) && Root(a) == Root(b) && a.number == b.number && a != b
    ensures a.number > 0
    ensures Common(a, b) == Common(a.parent.value, b.parent.value)
    ensures Found(stored, a, b) <==>
      a.parent.value in stored && b.parent.value in stored && Found(stored, a.parent.value, b.parent.value)
  {
    CommonBelow(a, b);
    ReachesParent(stored, a, Common(a, b).number);
    ReachesParent(stored, b, Common(a, b).number);
  }

  /**
   * The last common ancestor, or nothing when a walked header is missing or the chains share no genesis block.
   */
  method FindCommonAncestor(stored: set<Block>, a0: Block, b0: Block) returns (r: Option<Block>)
    requires Linked(a0) && Linked(b0)
    ensures r.Some? <==> Root(a0) == Root(b0) && Found(stored, a0, b0)
    ensures r.Some? ==> r.value == Common(a0, b0)
  {
    var a, b := a0, b0;
    while a.number > b.number
      invariant Walking(stored, a0, b0, a, b) && b == b0
      decreases a.number
    {
      if Root(a) == Root(b) { StepFirst(stored, a, b); }
      a := a.parent.value;
      if a !in stored { return None; }
    }
    while a.number < b.number
      invariant Walking(stored, a0, b0, a, b) && a.number <= b.number
      decreases b.number
    {
      if Root(a) == Root(b) { StepSecond(stored, a, b); }
      b := b.parent.value;
      if b !in stored { return None; }
    }
    while a != b
      invariant Walking(stored, a0, b0, a, b) && a.number == b.number
      decreases a.number
    {
      if Root(a) == Root(b) { StepBoth(stored, a, b); }
      if a.parent.None? || a.parent.value !in stored { return None; }
      a := a.parent.value;
      if b.parent.None? || b.parent.value !in stored { return None; }
      b := b.parent.value;
    }
    return Some(a);
  }

  lemma {:induction false} PathStep(chain: seq<Block>, b0: Block, b: Block, low: nat)
    requires Linked(b0) && Linked(b) && low < b.number && chain + Path(b, low) == Path(b0, low)
    ensures (chain + [b]) + Path(b.parent.value, low) == Path(b0, low)
    ensures Transactions(chain + [b]) == Transactions(chain) + b.txs
  {
    assert (chain + [b])[..|chain|] == chain;
    assert (chain + [b]) + Path(b.parent.value, low) == chain + Path(b, low);
  }

  lemma {:induction false} PathEnd(chain: seq<Block>, b0: Block, b: Block, low: nat)
    requires Linked(b0) && Linked(b) && low == b.number && chain + Path(b, low) == Path(b0, low)
    ensures chain == Path(b0, low)
  {
  }

  /** What the walk of a reorganisation has gathered on the way from (old0, new0) to (old, new). */
  ghost predicate Gathered(old0: Block, new0: Block, oldB: Block, newB: Block, low: nat, oldChain: seq<Block>,
                           newChain: seq<Block>)
    requires Linked(old0) && Linked(new0) && Linked(oldB) && Linked(newB)
  {
    oldChain + Path(oldB, low) == Path(old0, low) && newChain + Path(newB, low) == Path(new0, low)
  }

  /**
   * The walk of a reorganisation: it finds the fork point, the abandoned and the adopted blocks from the
   * highest down, and the abandoned transactions. It fails exactly when an adopted ancestor is missing.
   */
  method ForkChains(stored: set<Block>, old0: Block, new0: Block)
    returns (ok: bool, common: Block, oldChain: seq<Block>, newChain: seq<Block>, deleted: seq<int>)
    requires Linked(old0) && Linked(new0) && Root(old0) == Root(new0)
    ensures ok <==> Found(stored, old0, new0)
    ensures ok ==> common == Common(old0, new0)
    ensures ok ==> oldChain == Path(old0, common.number) && newChain == Path(new0, common.number)
    ensures ok ==> deleted == Transactions(oldChain)
  {
    ghost var low := Common(old0, new0).number;
    var oldB, newB := old0, new0;
    common, oldChain, newChain, deleted := old0, [], [], [];
    CommonBelow(old0, new0);
    if oldB.number > newB.number {
      while oldB.number != newB.number
        invariant Walking(stored, old0, new0, oldB, newB) && newB.number <= oldB.number
        invariant Gathered(old0, new0, oldB, newB, low, oldChain, newChain) && deleted == Transactions(oldChain)
        decreases oldB.number
      {
        StepFirst(stored, oldB, newB);
        CommonBelow(oldB, newB);
        PathStep(oldChain, old0, oldB, low);
        oldChain, deleted := oldChain + [oldB], deleted + oldB.txs;
        oldB := oldB.parent.value;
        if oldB !in stored { return false, common, [], [], []; }
      }
    } else {
      while newB.number != oldB.number
        invariant Walking(stored, old0, new0, oldB, newB) && oldB.number <= newB.number
        invariant Gathered(old0, new0, oldB, newB, low, oldChain, newChain)
        decreases newB.number
      {
        StepSecond(stored, oldB, newB);
        CommonBelow(oldB, newB);
        PathStep(newChain, new0, newB, low);
        newChain := newChain + [newB];
        newB := newB.parent.value;
        if newB !in stored { return false, common, [], [], []; }
      }
    }
    while oldB != newB
      invariant Walking(stored, old0, new0, oldB, newB) && oldB.number == newB.number
      invariant Gathered(old0, new0, oldB, newB, low, oldChain, newChain) && deleted == Transactions(oldChain)
      decreases oldB.number
    {
      StepBoth(stored, oldB, newB);
      CommonBelow(oldB, newB);
      PathStep(oldChain, old0, oldB, low);
      PathStep(newChain, new0, newB, low);
      oldChain, newChain, deleted := oldChain + [oldB], newChain + [newB], deleted + oldB.txs;
      oldB, newB := oldB.parent.value, newB.parent.value;
      if oldB !in stored || newB !in stored { return false, common, [], [], []; }
    }
    common := oldB;
    PathEnd(oldChain, old0, oldB, low);
    PathEnd(newChain, new0, newB, low);
    return true, common, oldChain, newChain, deleted;
  }
}
