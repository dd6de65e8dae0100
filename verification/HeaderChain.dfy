// The header chain: total-difficulty fork choice over headers, the number-to-hash index and its
// rewriting, and rewinding. The database is a set of headers with maps; the caches in front of it
// hold nothing else and are not modelled. `coin` is the outcome of the tie-breaking random draw.
module HeaderChains {
  import opened Powers
  import opened Blocks

  datatype Status = Canonical | Side | UnknownAncestor | NilHeader

  /** The number-to-hash index of the chain that ends in b: every height up to b and nothing else. */
  ghost function IndexOf(b: Block): map<nat, Block>
    requires Linked(b)
  {
    map n: nat | 0 <= n <= b.number :: Ancestor(b, n)
  }

  /** Every stored header's parent is stored. */
  ghost predicate Rooted(headers: set<Block>) {
    forall h :: h in headers && h.parent.Some? ==> h.parent.value in headers
  }

  /** Exactly the stored headers have a difficulty, the sum along their ancestry, and share one genesis. */
  ghost predicate Recorded(headers: set<Block>, tds: map<Block, nat>, genesis: Block) {
    && tds.Keys == headers
    && forall h :: h in headers ==> Linked(h) && Root(h) == genesis && tds[h] == TotalDifficulty(h)
  }

  /** The parent of h is not stored. */
  predicate Orphan(h: Block, headers: set<Block>) {
    h.parent.None? || h.parent.value !in headers
  }

  lemma {:induction false} RootedIsComplete(headers: set<Block>, b: Block)
    requires Linked(b) && Rooted(headers) && b in headers
    ensures Complete(headers, b)
    decreases b.number
  {
    if b.parent.Some? {
      RootedIsComplete(headers, b.parent.value);
      CompleteParent(headers, b);
    }
  }

  /** The loop that drops index entries above a height, up to the first missing one. */
  method DropAbove(index: map<nat, Block>, ghost head: Block, number: nat) returns (kept: map<nat, Block>)
    requires Linked(head) && index == IndexOf(head)
    ensures forall n: nat :: n in kept <==> n <= number && n <= head.number
    ensures forall n: nat :: n in kept ==> kept[n] == Ancestor(head, n)
  {
    kept := index;
    var i := number + 1;
    while i in kept
      invariant number < i && (i <= head.number + 1 || i == number + 1)
      invariant forall n: nat :: n in kept <==> n <= head.number && (n <= number || i <= n)
      invariant forall n: nat :: n in kept ==> kept[n] == Ancestor(head, n)
      decreases head.number + 1 - i
    {
      kept := map n: nat | n in kept && n != i :: kept[n];
      i := i + 1;
    }
  }

  /** The rewriting loop, which stops at the first height whose entry already is the ancestor. */
  method Reroute(headers: set<Block>, index: map<nat, Block>, ghost head: Block, tip: Block)
    returns (rerouted: map<nat, Block>, ok: bool)
    requires Linked(head) && Linked(tip) && Root(head) == Root(tip) && Complete(headers, head)
    requires forall n: nat :: n in index <==> n <= tip.number + 1 && n <= head.number
    requires forall n: nat :: n in index ==> index[n] == Ancestor(head, n)
    ensures ok <==> Complete(headers, tip)
    ensures ok ==> forall n: nat :: n <= tip.number ==> n in rerouted && rerouted[n] == Ancestor(tip, n)
    ensures ok ==> forall n: nat :: n in rerouted ==> n <= tip.number + 1
  {
    rerouted, ok := index, true;
    var b := tip;
    RootIsAncestor(head);
    while !(b.number in rerouted && rerouted[b.number] == b)
      invariant Linked(b) && b.number <= tip.number && Ancestor(tip, b.number) == b && Root(b) == Root(tip)
      invariant Complete(headers, tip) <==> Complete(headers, b)
      invariant forall n: nat :: n <= b.number ==> (n in rerouted <==> n <= head.number)
      invariant forall n: nat :: n <= b.number && n in rerouted ==> rerouted[n] == Ancestor(head, n)
      invariant forall n: nat :: b.number < n <= tip.number ==> n in rerouted && rerouted[n] == Ancestor(tip, n)
      invariant forall n: nat :: n in rerouted ==> n <= tip.number + 1
      decreases b.number
    {
      assert rerouted[0] == Root(b);
      CompleteParent(headers, b);
      rerouted := rerouted[b.number := b];
      if b !in headers {
        return rerouted, false;
      }
      AncestorOfAncestor(tip, b.number, b.number - 1);
      b := b.parent.value;
    }
    CompleteAncestor(headers, head, b.number);
    forall n: nat | n <= tip.number ensures n in rerouted && rerouted[n] == Ancestor(tip, n) {
      if n <= b.number {
        SharedBelow(head, tip, b.number, n);
      }
    }
  }

  /** The head after the first n headers of a chain: each one that was not stored takes over if it is heavier. */
  ghost function HeadAfter(head: Block, stored: set<Block>, chain: seq<Block>, coins: seq<bool>, n: nat): Block
    requires n <= |chain| == |coins|
  {
    if n == 0 then head
    else
      var before, h := HeadAfter(head, stored, chain, coins, n - 1), chain[n - 1];
      if h !in stored + Leading(chain, n - 1) && Heavier(h, before, coins[n - 1]) then h else before
  }

  ghost function Leading(chain: seq<Block>, n: nat): set<Block>
    requires n <= |chain|
  {
    set k | 0 <= k < n :: chain[k]
  }

  lemma LeadingStep(chain: seq<Block>, n: nat)
    requires n < |chain|
    ensures Leading(chain, n + 1) == Leading(chain, n) + {chain[n]}
  {
  }

  /** The index after h becomes head, unless the walk meets a missing header. */
  method TakeOver(headers: set<Block>, index: map<nat, Block>, ghost head: Block, h: Block)
    returns (index': map<nat, Block>, ok: bool)
    requires Linked(head) && Linked(h) && h.parent.Some? && Root(head) == Root(h) && h in headers
    requires Complete(headers, head) && index == IndexOf(head)
    ensures ok <==> Complete(headers, h)
    ensures ok ==> index' == IndexOf(h)
  {
    index' := DropAbove(index, head, h.number);
    index', ok := Reroute(headers, index', head, h.parent.value);
    CompleteParent(headers, h);
    if ok {
      index' := index'[h.number := h];
      assert index' == IndexOf(h);
    }
  }

  class HeaderChain {
    const genesis: Block
    var headers: set<Block>
    var tds: map<Block, nat>
    var index: map<nat, Block>
    var current: Block

    /** The index traces the head's ancestry, which is stored, and stored difficulties are sums along the ancestry. */
    ghost predicate Valid()
      reads this
    {
      && Linked(current) && index == IndexOf(current) && Complete(headers, current)
      && Recorded(headers, tds, genesis)
    }

    /** No stored header is heavier than the head. */
    ghost predicate Heaviest()
      reads this
    {
      Outweighs(current, headers)
    }

    constructor (root: Block)
      requires Linked(root) && root.parent.None?
      ensures Valid() && Rooted(headers) && Heaviest() && genesis == root && current == root && headers == {root}
    {
      genesis := root;
      headers := {root};
      tds := map[root := root.difficulty];
      index := map[0 := root];
      current := root;
      new;
      assert index == IndexOf(current);
    }

    method WriteHeader(h: Block, coin: bool) returns (status: Status)
      requires Valid() && Linked(h)
      modifies this
      ensures status.UnknownAncestor? <==> Orphan(h, old(headers))
      ensures status.Canonical? || status.NilHeader? <==> !status.UnknownAncestor? && Heavier(h, old(current), coin)
      ensures !status.UnknownAncestor? ==>
        var mine, theirs := old(TotalDifficulty(current)), TotalDifficulty(h);
        && (theirs < mine ==> status.Side?) && (theirs > mine ==> !status.Side?)
        && (theirs == mine ==> (status.Side? <==> !coin))
      // The walk dereferences a missing header exactly when an ancestor was deleted.
      ensures status.NilHeader? <==>
        !status.UnknownAncestor? && Heavier(h, old(current), coin) && !Complete(old(headers), h.parent.value)
      ensures headers == if status.UnknownAncestor? then old(headers) else old(headers) + {h}
      ensures !status.NilHeader? ==> Valid()
      ensures current == if status.Canonical? then h else old(current)
      ensures TotalDifficulty(current) >= old(TotalDifficulty(current))
      ensures old(Heaviest()) && !status.NilHeader? ==> Heaviest()
      ensures old(Rooted(headers)) ==> !status.NilHeader? && Rooted(headers)
    {
      if h.parent.None? || h.parent.value !in tds {
        return UnknownAncestor;
      }
      var parent := h.parent.value;
      assert current in headers by { assert Ancestor(current, current.number) == current; }
      var externTd := h.difficulty + tds[parent];
      var localTd := tds[current];
      ghost var before := headers;
      tds := tds[h := externTd];
      headers := headers + {h};
      AddHeader(before, h, parent, current);
      if externTd > localTd || (externTd == localTd && coin) {
        var ok;
        index, ok := TakeOver(headers, index, current, h);
        if !ok {
          return NilHeader;
        }
        current := h;
        return Canonical;
      }
      return Side;
    }

    method InsertHeader(h: Block, coin: bool) returns (ok: bool)
      requires Valid() && Rooted(headers) && Linked(h)
      modifies this
      ensures Valid() && Rooted(headers)
      ensures old(Heaviest()) ==> Heaviest()
      ensures TotalDifficulty(current) >= old(TotalDifficulty(current))
      ensures headers == if ok then old(headers) + {h} else old(headers)
      ensures !ok ==> h !in headers && Orphan(h, headers)
      ensures current == if ok && h !in old(headers) && Heavier(h, old(current), coin) then h else old(current)
    {
      if h in headers {
        return true;
      }
      var status := WriteHeader(h, coin);
      return !status.UnknownAncestor?;
    }

    /**
     * A run of header writes, which skips stored headers and ends at the first failing one. The run never
     * meets a missing header, and it leaves the head heaviest among all that is stored.
     */
    method InsertHeaderChain(chain: seq<Block>, coins: seq<bool>) returns (done: nat)
      requires Valid() && Rooted(headers) && |coins| == |chain|
      requires forall k :: 0 <= k < |chain| ==> Linked(chain[k])
      modifies this
      ensures Valid() && Rooted(headers)
      ensures old(Heaviest()) ==> Heaviest()
      ensures TotalDifficulty(current) >= old(TotalDifficulty(current))
      ensures done <= |chain| && headers == old(headers) + Leading(chain, done)
      ensures done < |chain| ==> chain[done] !in headers && Orphan(chain[done], headers)
      ensures current == HeadAfter(old(current), old(headers), chain, coins, done)
    {
      ghost var stored, weight := headers, TotalDifficulty(current);
      done := 0;
      while done < |chain|
        invariant done <= |chain| && headers == stored + Leading(chain, done)
        invariant Valid() && Rooted(headers)
        invariant old(Heaviest()) ==> Heaviest()
        invariant TotalDifficulty(current) >= weight
        invariant current == HeadAfter(old(current), stored, chain, coins, done)
      {
        var ok := InsertHeader(chain[done], coins[done]);
        if !ok {
          return;
        }
        LeadingStep(chain, done);
        done := done + 1;
      }
    }

    /** Rewinding leaves exactly the prefix of the chain. */
    method SetHead(head: nat)
      requires Valid()
      modifies this
      ensures Valid()
      ensures head >= old(current).number ==> current == old(current) && headers == old(headers)
      ensures head < old(current).number ==> current == Ancestor(old(current), head)
      ensures headers == Unwound(old(headers), old(current), head)
      // Side branches above the new head are left dangling: exactly then is some parent missing.
      ensures old(Rooted(headers)) ==>
          (Rooted(headers) <==> !exists h :: h in old(headers) && Dangles(old(current), head, h))
    {
      ghost var was, stored := current, headers;
      var height := current.number;
      headers, tds, current := Unwind(headers, tds, current, head);
      index := DropDown(index, was, current, height, head);
      KeptComplete(stored, headers, was, current);
      if head < was.number && Rooted(stored) {
        RewindRooted(stored, headers, was, head);
      }
    }
  }

  /** What is stored once the chain that ends in was is unwound to a height. */
  ghost function Unwound(stored: set<Block>, was: Block, head: nat): set<Block> {
    set h | h in stored && !(h.number > head && IsAncestor(was, h))
  }

  /** The loop that deletes headers and difficulties from the head downwards. */
  method Unwind(headers: set<Block>, tds: map<Block, nat>, current: Block, head: nat)
    returns (left: set<Block>, leftTds: map<Block, nat>, b: Block)
    requires Linked(current) && tds.Keys == headers
    ensures b == if head < current.number then Ancestor(current, head) else current
    ensures IsAncestor(current, b) && (b.number == head || (b == current && current.number <= head))
    ensures left == Unwound(headers, current, head)
    ensures leftTds.Keys == left && forall h :: h in left ==> leftTds[h] == tds[h]
  {
    left, leftTds, b := headers, tds, current;
    assert left == Unwound(headers, current, b.number);
    while b.number > head
      invariant Linked(b) && b.number <= current.number && Ancestor(current, b.number) == b
      invariant b.number == current.number || head <= b.number
      invariant left == Unwound(headers, current, b.number)
      invariant leftTds.Keys == left && forall h :: h in left ==> leftTds[h] == tds[h]
      decreases b.number
    {
      var parent := b.parent.value;
      UnwindOne(headers, current, b);
      left := left - {b};
      leftTds := map h | h in leftTds && h != b :: leftTds[h];
      b := parent;
    }
    if current.number < head {
      assert left == Unwound(headers, current, head);
    }
  }

  lemma {:induction false} UnwindOne(stored: set<Block>, was: Block, b: Block)
    requires Linked(was) && Linked(b) && 0 < b.number <= was.number && Ancestor(was, b.number) == b
    ensures Ancestor(was, b.parent.value.number) == b.parent.value
    ensures Unwound(stored, was, b.parent.value.number) == Unwound(stored, was, b.number) - {b}
  {
    AncestorOfAncestor(was, b.number, b.number - 1);
  }

  /** The loop that drops index entries from the old height down to the new head. */
  method DropDown(index: map<nat, Block>, ghost was: Block, ghost b: Block, height: nat, head: nat)
    returns (kept: map<nat, Block>)
    requires Linked(was) && index == IndexOf(was) && height == was.number
    requires IsAncestor(was, b) && (b.number == head || (b == was && was.number <= head))
    ensures Linked(b) && kept == IndexOf(b)
  {
    kept := index;
    var i := height;
    while i > head
      invariant i <= height && (head <= i || i == height)
      invariant forall n: nat :: n in kept <==> n <= i
      invariant forall n: nat :: n in kept ==> kept[n] == Ancestor(was, n)
    {
      kept := map n: nat | n in kept && n != i :: kept[n];
      i := i - 1;
    }
    IndexPrefix(was, b, kept);
  }

  lemma {:induction false} IndexPrefix(was: Block, b: Block, index: map<nat, Block>)
    requires IsAncestor(was, b)
    requires forall n: nat :: n in index <==> n <= b.number
    requires forall n: nat :: n in index ==> index[n] == Ancestor(was, n)
    ensures Linked(b) && index == IndexOf(b)
  {
    AncestorFacts(was, b.number);
    forall n: nat | n <= b.number ensures Ancestor(b, n) == Ancestor(was, n) {
      AncestorOfAncestor(was, b.number, n);
    }
  }

  lemma {:induction false} KeptComplete(stored: set<Block>, left: set<Block>, was: Block, b: Block)
    requires IsAncestor(was, b) && Complete(stored, was) && Linked(b)
    requires forall h :: h in stored && h.number <= b.number ==> h in left
    ensures Complete(left, b)
  {
    forall n: nat | n <= b.number ensures Ancestor(b, n) in left {
      AncestorOfAncestor(was, b.number, n);
      AncestorFacts(was, n);
    }
  }

  lemma {:induction false} AddHeader(headers: set<Block>, h: Block, parent: Block, head: Block)
    requires Linked(h) && Linked(head) && h.parent == Some(parent) && parent in headers && Complete(headers, head)
    ensures Complete(headers + {h}, h) <==> Complete(headers, parent)
    ensures Complete(headers + {h}, head)
    ensures Rooted(headers) ==> Complete(headers, parent) && Rooted(headers + {h})
  {
    forall n: nat | n <= parent.number ensures Ancestor(parent, n) != h {
      AncestorFacts(parent, n);
    }
    CompleteParent(headers + {h}, h);
    if Rooted(headers) {
      RootedIsComplete(headers, parent);
    }
  }

  /** h is a side header whose parent is a canonical header above the new head. */
  ghost predicate Dangles(current: Block, head: nat, h: Block) {
    && !IsAncestor(current, h)
    && h.parent.Some? && h.parent.value.number > head && IsAncestor(current, h.parent.value)
  }

  lemma {:induction false} RewindRooted(stored: set<Block>, left: set<Block>, was: Block, head: nat)
    requires Linked(was) && Rooted(stored) && head < was.number
    requires forall h :: h in stored ==> Linked(h)
    requires left == Unwound(stored, was, head)
    ensures Rooted(left) <==> !exists h :: h in stored && Dangles(was, head, h)
  {
    if h :| h in stored && Dangles(was, head, h) {
      assert h in left && h.parent.value !in left;
    } else {
      forall h | h in left && h.parent.Some? ensures h.parent.value in left {
        var p := h.parent.value;
        assert p in stored;
        assert !Dangles(was, head, h);
      }
    }
  }

  /** Two children of a1, of which a2 is canonical: rewinding to the genesis block leaves b2 without its parent. */
  method RewindThenExtend() returns (status: Status)
    ensures status == NilHeader
  {
    var g := Block(None, 0, 1, [], 0);
    var a1 := Block(Some(g), 1, 2, [], 1);
    var b2 := Block(Some(a1), 2, 1, [], 3);
    var chain := Forked(g, a1, Block(Some(a1), 2, 2, [], 2), b2);
    chain.SetHead(0);
    assert Ancestor(b2, 1) == a1;
    status := chain.WriteHeader(Block(Some(b2), 3, 9, [], 4), false);
  }

  method Forked(g: Block, a1: Block, a2: Block, b2: Block) returns (chain: HeaderChain)
    requires Linked(a2) && Linked(b2) && a2.parent == b2.parent == Some(a1) && a1.parent == Some(g) && g.parent.None?
    requires a1.difficulty > 0 && a2.difficulty > b2.difficulty
    ensures fresh(chain) && chain.Valid() && Rooted(chain.headers)
    ensures chain.headers == {g, a1, a2, b2} && chain.current == a2
  {
    chain := new HeaderChain(g);
    var status := chain.WriteHeader(a1, false);
    status := chain.WriteHeader(a2, false);
    status := chain.WriteHeader(b2, false);
  }
}
