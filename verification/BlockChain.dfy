// The block chain: total-difficulty fork choice over blocks, reorganisation, the number-to-hash index and the
// transaction index. `coin` is the tie-breaking random draw and `approved` the consensus engine's verdict on a
// reorganisation. Database failures are not modelled.
module BlockChains {
  import opened Powers
  import opened Blocks
  import opened BlockForks
  import opened BlockLookup

  datatype Status = Canonical | Side | UnknownAncestor | InvalidNewChain | ReorgRefused

  /** One call to write a block, with what the environment decides. */
  datatype Write = Write(block: Block, coin: bool, approved: bool)

  /** The index holds the ancestry of b at every height up to b; entries above are arbitrary. */
  ghost predicate Traces(index: map<nat, Block>, b: Block) {
    Linked(b) && forall n: nat :: n <= b.number ==> n in index && index[n] == Ancestor(b, n)
  }

  /** Difficulties are recorded for linked blocks of one genesis block, as the sum along the ancestry. */
  ghost predicate Weighed(tds: map<Block, nat>, genesis: Block) {
    forall h :: h in tds ==> Linked(h) && Root(h) == genesis && tds[h] == TotalDifficulty(h)
  }

  /** Entries above a height are those of b's chain, entries at or below it as before. */
  ghost predicate Rewritten(before: map<nat, Block>, after: map<nat, Block>, b: Block, low: nat) {
    Linked(b) && forall n: nat :: RewrittenAt(before, after, b, low, n)
  }

  ghost predicate RewrittenAt(before: map<nat, Block>, after: map<nat, Block>, b: Block, low: nat, n: nat)
    requires Linked(b)
  {
    if low < n <= b.number then n in after && after[n] == Ancestor(b, n)
    else (n in after <==> n in before) && (n in before ==> after[n] == before[n])
  }

  lemma {:induction false} TracesRewritten(before: map<nat, Block>, after: map<nat, Block>, a: Block, b: Block, n: nat)
    requires Traces(before, a) && Rewritten(before, after, b, n)
    requires n <= a.number && n <= b.number && Ancestor(a, n) == Ancestor(b, n)
    ensures Traces(after, b)
  {
    forall k: nat | k <= b.number ensures k in after && after[k] == Ancestor(b, k) {
      assert RewrittenAt(before, after, b, n, k);
      if k <= n {
        SharedBelow(a, b, n, k);
      }
    }
  }

  /** The index already holds b's ancestor at a height. */
  ghost predicate Held(index: map<nat, Block>, b: Block, n: nat) {
    n in index && IsAncestor(b, index[n]) && index[n].number == n
  }

  /**
   * The head header after b's chain is inserted from b down to just above a height: the lowest block that the index
   * did not already hold, or the head header of before if it held them all.
   */
  ghost function HeaderAfter(index: map<nat, Block>, b: Block, low: nat, header: Block): Block
    requires Linked(b)
    decreases b.number - low
  {
    if b.number <= low then header
    else if Held(index, b, low + 1) then HeaderAfter(index, b, low + 1, header)
    else Ancestor(b, low + 1)
  }

  /**
   * The head header is b if and only if the index held all of b's chain above the height but b itself, or held that
   * too and the head header was b before.
   */
  lemma {:induction false} HeaderIsHeadIff(index: map<nat, Block>, b: Block, low: nat, header: Block)
    requires Linked(b) && low <= b.number
    ensures HeaderAfter(index, b, low, header) == b <==>
      && (forall n :: low < n < b.number ==> Held(index, b, n))
      && ((low < b.number && !Held(index, b, b.number)) || header == b)
    decreases b.number - low
  {
    if low < b.number {
      AncestorFacts(b, low + 1);
      if Held(index, b, low + 1) {
        HeaderIsHeadIff(index, b, low + 1, header);
      }
    }
  }

  /** Where the head header stands once b has replaced head: by the fork point of their chains. */
  ghost predicate HeaderMoved(index: map<nat, Block>, head: Block, b: Block, before: Block, header: Block) {
    && Linked(head) && Linked(b) && Root(head) == Root(b)
    && header == HeaderAfter(index, b, Common(head, b).number, before)
  }

  /** Across a fork it is the first adopted block, which is the new head if and only if only one block is adopted. */
  lemma {:induction false} HeaderAcrossFork(index: map<nat, Block>, head: Block, b: Block, before: Block, header: Block)
    requires Traces(index, head) && HeaderMoved(index, head, b, before, header)
    requires Common(head, b).number < head.number && Common(head, b).number < b.number
    ensures header == Ancestor(b, Common(head, b).number + 1)
    ensures header == b <==> Common(head, b).number + 1 == b.number
  {
    var low := Common(head, b).number;
    CommonIsHighest(head, b, low + 1);
    AncestorFacts(head, low + 1);
    AncestorFacts(b, low + 1);
  }

  lemma {:induction false} RewriteStep(before: map<nat, Block>, index: map<nat, Block>, tip: Block, b: Block)
    requires IsAncestor(tip, b) && Linked(b) && 0 < b.number && Rewritten(before, index, tip, b.number)
    ensures IsAncestor(tip, b.parent.value)
    ensures Rewritten(before, index[b.number := b], tip, b.parent.value.number)
    ensures b.number in index <==> b.number in before
    ensures b.number in index ==> index[b.number] == before[b.number]
  {
    AncestorOfAncestor(tip, b.number, b.number - 1);
    assert RewrittenAt(before, index, tip, b.number, b.number);
    var after, low := index[b.number := b], b.parent.value.number;
    forall n: nat ensures RewrittenAt(before, after, tip, low, n) {
      assert RewrittenAt(before, index, tip, b.number, n);
    }
  }

  lemma {:induction false} PathNext(chain: seq<Block>, i: nat, b: Block, low: nat)
    requires Linked(b) && i < |chain| && chain[i..] == Path(b, low)
    ensures low < b.number && chain[i] == b && chain[i + 1..] == Path(b.parent.value, low)
    ensures chain[..i + 1] == chain[..i] + [b] && Transactions(chain[..i + 1]) == Transactions(chain[..i]) + b.txs
  {
    assert chain[i..][0] == chain[i] && chain[i..][1..] == chain[i + 1..];
    assert chain[..i + 1][..i] == chain[..i];
  }

  /** A walk to the fork point fails exactly when an ancestor is missing, since the other chain is stored. */
  lemma {:induction false} FoundIsComplete(blocks: set<Block>, a: Block, b: Block)
    requires Linked(a) && Linked(b) && Root(a) == Root(b) && Complete(blocks, a) && b.parent.Some?
    ensures Found(blocks, a, b) <==> Complete(blocks, b.parent.value)
  {
    var c, p := Common(a, b), b.parent.value;
    CommonIsHighest(a, b, 0);
    CompleteAncestor(blocks, a, c.number);
    forall n: nat | n <= p.number ensures Ancestor(b, n) == Ancestor(p, n) {
    }
    forall n: nat | n <= c.number ensures Ancestor(b, n) == Ancestor(a, n) {
      SharedBelow(a, b, c.number, n);
    }
  }

  class BlockChain {
    const genesis: Block
    var blocks: set<Block>
    var tds: map<Block, nat>
    var index: map<nat, Block>
    var current: Block
    var headHeader: Block
    var lookup: map<int, Place>

    /** The index traces the head's ancestry, all of it stored, and no stored block outweighs the head. */
    ghost predicate Valid()
      reads this
    {
      && Traces(index, current) && Complete(blocks, current)
      && Weighed(tds, genesis) && blocks <= tds.Keys
      && Outweighs(current, blocks)
    }

    constructor (root: Block)
      requires Linked(root) && root.parent.None? && root.txs == []
      ensures Valid() && Indexed(lookup, current)
      ensures genesis == current == headHeader == root && blocks == {root}
    {
      genesis := root;
      blocks := {root};
      tds := map[root := root.difficulty];
      index := map[0 := root];
      current := root;
      headHeader := root;
      lookup := map[];
    }

    /** Makes a block the head; the head header follows only where the index changes. */
    method Insert(b: Block)
      modifies this`index, this`current, this`headHeader
      ensures index == old(index)[b.number := b] && current == b
      ensures headHeader == if b.number in old(index) && old(index)[b.number] == b then old(headHeader) else b
    {
      var updateHeads := !(b.number in index && index[b.number] == b);
      index := index[b.number := b];
      current := b;
      if updateHeads {
        headHeader := b;
      }
    }

    method AdoptOne(b: Block, ghost index0: map<nat, Block>, ghost lookup0: map<int, Place>, ghost tip: Block,
                    ghost done: seq<Block>, ghost header0: Block)
      requires Linked(b) && 0 < b.number && IsAncestor(tip, b)
      requires headHeader == HeaderAfter(index0, tip, b.number, header0)
      requires Rewritten(index0, index, tip, b.number) && Overwritten(lookup0, lookup, done)
      modifies this`index, this`current, this`headHeader, this`lookup
      ensures IsAncestor(tip, b.parent.value)
      ensures Rewritten(index0, index, tip, b.parent.value.number)
      ensures Overwritten(lookup0, lookup, done + [b])
      ensures headHeader == HeaderAfter(index0, tip, b.parent.value.number, header0)
    {
      RewriteStep(index0, index, tip, b);
      HeldIff(index0, tip, b);
      ghost var before := lookup;
      Insert(b);
      lookup := WriteTxLookupEntries(lookup, b);
      OverwriteMore(lookup0, before, lookup, done, b);
    }

    /** Inserts the adopted blocks from the highest to the lowest and writes their lookup entries. */
    method Adopt(chain: seq<Block>, ghost tip: Block, ghost low: nat) returns (added: seq<int>)
      requires Linked(tip) && low <= tip.number && chain == Path(tip, low)
      modifies this`index, this`current, this`headHeader, this`lookup
      ensures Rewritten(old(index), index, tip, low)
      ensures Overwritten(old(lookup), lookup, chain)
      ensures added == Transactions(chain)
      ensures headHeader == HeaderAfter(old(index), tip, low, old(headHeader))
    {
      added := [];
      ghost var index0, lookup0, header0, b := index, lookup, headHeader, tip;
      for i := 0 to |chain|
        invariant Linked(b) && low <= b.number && IsAncestor(tip, b) && chain[i..] == Path(b, low)
        invariant Rewritten(index0, index, tip, b.number)
        invariant Overwritten(lookup0, lookup, chain[..i])
        invariant added == Transactions(chain[..i])
        invariant headHeader == HeaderAfter(index0, tip, b.number, header0)
      {
        PathNext(chain, i, b, low);
        AdoptOne(chain[i], index0, lookup0, tip, chain[..i], header0);
        added := added + chain[i].txs;
        b := b.parent.value;
      }
      assert chain[..|chain|] == chain;
    }

    /** Moves the indexes from the chain of the head to the chain of b, unless that chain is broken or refused. */
    method Reorg(b: Block, approved: bool) returns (status: Status)
      requires Valid() && Linked(b) && Root(b) == genesis && b.parent.Some?
      modifies this`index, this`current, this`headHeader, this`lookup
      ensures status.Canonical? || status.InvalidNewChain? || status.ReorgRefused?
      ensures status.InvalidNewChain? <==> !Complete(blocks, b.parent.value)
      ensures status.ReorgRefused? <==> Complete(blocks, b.parent.value) && !approved
      ensures !status.Canonical? ==> unchanged(this)
      ensures status.Canonical? ==> Traces(index, b) && Root(b) == Root(old(current))
      ensures status.Canonical? ==> Rewritten(old(index), index, b, Common(old(current), b).number)
      ensures status.Canonical? && old(Indexed(lookup, current)) && NoRepeat(b) ==> Indexed(lookup, b)
      ensures status.Canonical? ==> HeaderMoved(old(index), old(current), b, old(headHeader), headHeader)
    {
      RootOfHead();
      ghost var head := current;
      FoundIsComplete(blocks, head, b);
      CommonIsHighest(head, b, 0);
      var ok, common, oldChain, newChain, deleted := ForkChains(blocks, current, b);
      if !ok {
        return InvalidNewChain;
      }
      if !approved {
        return ReorgRefused;
      }
      ghost var before := index;
      ghost var l0 := lookup;
      var added := Adopt(newChain, b, common.number);
      TracesRewritten(before, index, head, b, common.number);
      var diff := TxDifference(deleted, added);
      ghost var l1 := lookup;
      lookup := DeleteEntries(lookup, diff);
      if Indexed(l0, head) && NoRepeat(b) {
        ReorgLookup(l0, l1, lookup, diff, head, b, common.number);
      }
      return Canonical;
    }

    lemma RootOfHead()
      requires Valid()
      ensures current in blocks && Root(current) == genesis
    {
      assert Ancestor(current, current.number) == current;
    }

    /** The block's parent has no recorded difficulty. */
    ghost predicate Unknown(w: Write)
      reads this
    {
      w.block.parent.None? || w.block.parent.value !in tds
    }

    method WriteBlockAndState(w: Write) returns (status: Status)
      requires Valid() && Linked(w.block)
      modifies this
      ensures Valid()
      ensures status.UnknownAncestor? <==> old(Unknown(w))
      ensures status.Side? <==> !old(Unknown(w)) && !Heavier(w.block, old(current), w.coin)
      ensures status.InvalidNewChain? <==>
        !old(Unknown(w)) && Heavier(w.block, old(current), w.coin) && !Complete(old(blocks), w.block.parent.value)
      ensures status.ReorgRefused? <==>
        !old(Unknown(w)) && Heavier(w.block, old(current), w.coin) && Complete(old(blocks), w.block.parent.value) &&
        !w.approved && w.block.parent.value != old(current)
      ensures tds == if status.UnknownAncestor? then old(tds) else old(tds)[w.block := TotalDifficulty(w.block)]
      ensures blocks == if status.Canonical? || status.Side? then old(blocks) + {w.block} else old(blocks)
      ensures current == if status.Canonical? then w.block else old(current)
      ensures !status.Canonical? ==> index == old(index) && lookup == old(lookup) && headHeader == old(headHeader)
      ensures TotalDifficulty(current) >= old(TotalDifficulty(current))
      ensures old(Indexed(lookup, current)) && NoRepeat(w.block) ==> Indexed(lookup, current)
      ensures status.Canonical? ==> HeaderMoved(old(index), old(current), w.block, old(headHeader), headHeader)
      ensures Written(old(Now()), Now(), w, status)
    {
      var b := w.block;
      if b.parent.None? || b.parent.value !in tds {
        return UnknownAncestor;
      }
      RootOfHead();
      var localTd := tds[current];
      var externTd := b.difficulty + tds[b.parent.value];
      tds := tds[b := externTd];
      if externTd > localTd || (externTd == localTd && w.coin) {
        status := Extend(b, w.approved);
        if status.Canonical? {
          BlockAdded(blocks, b);
          blocks := blocks + {b};
        }
        return status;
      }
      blocks := blocks + {b};
      return Side;
    }

    /** The part of a write that changes the head: reorganise unless b extends the head, then make b the head. */
    method Extend(b: Block, approved: bool) returns (status: Status)
      requires Valid() && Linked(b) && Root(b) == genesis && b.parent.Some?
      modifies this`index, this`current, this`headHeader, this`lookup
      ensures status.Canonical? || status.InvalidNewChain? || status.ReorgRefused?
      ensures status.InvalidNewChain? <==> !Complete(blocks, b.parent.value)
      ensures status.ReorgRefused? <==> Complete(blocks, b.parent.value) && !approved && b.parent.value != old(current)
      ensures !status.Canonical? ==> unchanged(this)
      ensures status.Canonical? ==> Traces(index, b) && current == b && Root(b) == Root(old(current))
      ensures status.Canonical? ==> Rewritten(old(index), index, b, Common(old(current), b).number)
      ensures status.Canonical? && old(Indexed(lookup, current)) && NoRepeat(b) ==> Indexed(lookup, b)
      ensures status.Canonical? ==> HeaderMoved(old(index), old(current), b, old(headHeader), headHeader)
    {
      RootOfHead();
      ghost var head, l0 := current, lookup;
      if b.parent.value != current {
        status := Reorg(b, approved);
        if !status.Canonical? {
          return;
        }
      }
      ghost var l1 := lookup;
      lookup := WriteTxLookupEntries(lookup, b);
      Insert(b);
      RewrittenTop(old(index), index, head, b);
      if b.parent.value == head {
        ParentTraced(head, b);
        HeaderExtends(old(index), head, b, old(headHeader));
      }
      if Indexed(l0, head) && NoRepeat(b) {
        if b.parent.value == head {
          ExtendLookup(l1, lookup, head, b);
        } else {
          RewriteLookup(l1, lookup, b);
        }
      }
      return Canonical;
    }

    ghost function Now(): Snapshot
      reads this
    {
      Snapshot(blocks, tds, index, lookup, current, headHeader)
    }

    /**
     * Any run of writes keeps the chain valid and never lowers the head's weight; without repeats the transaction index
     * stays exact.
     */
    method Run(writes: seq<Write>) returns (statuses: seq<Status>, ghost trace: seq<Snapshot>)
      requires Valid()
      requires forall k :: 0 <= k < |writes| ==> Linked(writes[k].block)
      modifies this
      ensures Valid()
      ensures TotalDifficulty(current) >= old(TotalDifficulty(current))
      ensures old(Indexed(lookup, current)) && (forall k :: 0 <= k < |writes| ==> NoRepeat(writes[k].block)) ==>
        Indexed(lookup, current)
      ensures |statuses| == |writes| && |trace| == |writes| + 1 && trace[0] == old(Now()) && trace[|writes|] == Now()
      ensures forall k :: 0 <= k < |writes| ==> Written(trace[k], trace[k + 1], writes[k], statuses[k])
    {
      statuses, trace := [], [Now()];
      for i := 0 to |writes|
        invariant Valid()
        invariant |statuses| == i && |trace| == i + 1 && trace[0] == old(Now()) && trace[i] == Now()
        invariant forall k :: 0 <= k < i ==> Written(trace[k], trace[k + 1], writes[k], statuses[k])
        invariant TotalDifficulty(current) >= old(TotalDifficulty(current))
        invariant old(Indexed(lookup, current)) && (forall k :: 0 <= k < i ==> NoRepeat(writes[k].block)) ==>
          Indexed(lookup, current)
      {
        var status := WriteBlockAndState(writes[i]);
        statuses, trace := statuses + [status], trace + [Now()];
      }
    }
  }

  datatype Snapshot = Snapshot(blocks: set<Block>, tds: map<Block, nat>, index: map<nat, Block>,
                               lookup: map<int, Place>, current: Block, headHeader: Block)

  /** What a write makes of the chain, and which answer it gives. */
  ghost predicate Written(a: Snapshot, b: Snapshot, w: Write, status: Status) {
    var block, parent := w.block, w.block.parent;
    if parent.None? || parent.value !in a.tds then status.UnknownAncestor? && b == a
    else
      && b.tds == a.tds[block := TotalDifficulty(block)]
      && if TotalDifficulty(block) < TotalDifficulty(a.current)
            || (TotalDifficulty(block) == TotalDifficulty(a.current) && !w.coin)
         then status.Side? && b == a.(tds := b.tds, blocks := a.blocks + {block})
         else WrittenAhead(a, b, w, status)
  }

  /** A block that outweighs the head becomes head, unless its chain is broken or the engine refuses to switch. */
  ghost predicate WrittenAhead(a: Snapshot, b: Snapshot, w: Write, status: Status)
    requires w.block.parent.Some?
  {
    var block, parent := w.block, w.block.parent.value;
    && Linked(block)
    && if !Complete(a.blocks, parent) then status.InvalidNewChain? && b == a.(tds := b.tds)
       else if parent != a.current && !w.approved then status.ReorgRefused? && b == a.(tds := b.tds)
       else
         && status.Canonical? && b.blocks == a.blocks + {block} && b.current == block
         && Linked(a.current) && Root(block) == Root(a.current)
         && Rewritten(a.index, b.index, block, Common(a.current, block).number)
         && HeaderMoved(a.index, a.current, block, a.headHeader, b.headHeader)
         && (Indexed(a.lookup, a.current) && NoRepeat(block) ==> Indexed(b.lookup, block))
  }

  /** The index before and after b became head, directly or with the rest of its chain. */
  lemma {:induction false} RewrittenTop(before: map<nat, Block>, after: map<nat, Block>, head: Block, b: Block)
    requires Traces(before, head) && Linked(b) && Root(head) == Root(b) && b.parent.Some?
    requires if b.parent.value == head then after == before[b.number := b]
      else exists index :: Rewritten(before, index, b, Common(head, b).number) && after == index[b.number := b]
    ensures Rewritten(before, after, b, Common(head, b).number)
  {
    CommonIsHighest(head, b, 0);
    var low := Common(head, b).number;
    assert Ancestor(b, b.number) == b && before[low] == Ancestor(head, low) == Ancestor(b, low);
    if b.parent.value == head {
      assert Common(head, b) == head;
    } else {
      var index :| Rewritten(before, index, b, Common(head, b).number) && after == index[b.number := b];
      forall n: nat ensures RewrittenAt(before, after, b, Common(head, b).number, n) {
        assert RewrittenAt(before, index, b, Common(head, b).number, n);
      }
    }
  }

  lemma {:induction false} ParentTraced(head: Block, b: Block)
    requires Linked(b) && b.parent == Some(head)
    ensures forall n: nat :: n <= head.number ==> Ancestor(b, n) == Ancestor(head, n)
  {
  }

  lemma {:induction false} ExtendLookup(l0: map<int, Place>, l1: map<int, Place>, head: Block, b: Block)
    requires Linked(b) && b.parent == Some(head) && Indexed(l0, head) && NoRepeat(b) && Overwritten(l0, l1, [b])
    ensures Indexed(l1, b)
  {
    assert Path(b, head.number) == [b] + Path(head, head.number) == [b];
    ParentTraced(head, b);
    ReorgLookup(l0, l1, l1, [], head, b, head.number);
  }

  lemma {:induction false} BlockAdded(blocks: set<Block>, b: Block)
    requires Linked(b) && b.parent.Some? && Complete(blocks, b.parent.value)
    ensures Complete(blocks + {b}, b)
  {
    CompleteParent(blocks + {b}, b);
  }

  lemma HeldIff(index: map<nat, Block>, tip: Block, b: Block)
    requires IsAncestor(tip, b)
    ensures Held(index, tip, b.number) <==> b.number in index && index[b.number] == b
  {
  }

  lemma {:induction false} HeaderExtends(index: map<nat, Block>, head: Block, b: Block, header: Block)
    requires Linked(b) && b.parent == Some(head)
    ensures HeaderMoved(index, head, b, header, if b.number in index && index[b.number] == b then header else b)
  {
    assert Common(head, b) == Common(head, head) == head;
    HeldIff(index, b, b);
  }

  /** A chain with head a1 and a lighter side block b1 next to it. */
  method TwoBranches(g: Block, a1: Block, b1: Block) returns (chain: BlockChain)
    requires Linked(a1) && Linked(b1) && a1.parent == b1.parent == Some(g) && g.parent.None? && g.txs == []
    requires a1.difficulty > b1.difficulty
    ensures fresh(chain) && chain.Valid() && chain.genesis == g && chain.current == a1 && chain.blocks == {g, a1, b1}
  {
    chain := new BlockChain(g);
    assert Complete({g}, g);
    var status := chain.WriteBlockAndState(Write(a1, false, true));
    status := chain.WriteBlockAndState(Write(b1, false, true));
  }

  /** The side branch of two blocks takes over: the head header stays on the first of them. */
  method LaggingHeader(g: Block, a1: Block, b1: Block, b2: Block) returns (chain: BlockChain)
    requires Linked(a1) && Linked(b2) && a1.parent == b1.parent == Some(g) && g.parent.None? && g.txs == []
    requires b2.parent == Some(b1) && b1.difficulty < a1.difficulty < b1.difficulty + b2.difficulty
    ensures fresh(chain) && chain.Valid() && chain.current == b2 && chain.headHeader == b1
  {
    chain := TwoBranches(g, a1, b1);
    ForkOfTwo(g, a1, b1, b2, chain.blocks);
    ghost var index, header := chain.index, chain.headHeader;
    var status := chain.WriteBlockAndState(Write(b2, false, true));
    HeaderAcrossFork(index, a1, b2, header, chain.headHeader);
  }

  lemma {:induction false} ForkOfTwo(g: Block, a1: Block, b1: Block, b2: Block, blocks: set<Block>)
    requires Linked(a1) && Linked(b2) && a1.parent == b1.parent == Some(g) && g.parent.None? && b2.parent == Some(b1)
    requires a1 != b1 && blocks == {g, a1, b1}
    ensures Complete(blocks, b1) && Root(b2) == Root(a1) && Common(a1, b2) == g && Ancestor(b2, 1) == b1
    ensures TotalDifficulty(b2) == g.difficulty + b1.difficulty + b2.difficulty
    ensures TotalDifficulty(a1) == g.difficulty + a1.difficulty
  {
    assert Linked(b1) && b1.number == 1;
    assert Ancestor(b1, b1.number) == b1 && Ancestor(b1, g.number) == g;
    assert Common(g, g) == g;
    assert Common(a1, b1) == g;
    assert Common(a1, b2) == g;
    assert TotalDifficulty(b1) == g.difficulty + b1.difficulty;
  }

  /** Such blocks exist. */
  method LaggingHeaderInstance() returns (chain: BlockChain)
    ensures fresh(chain) && chain.headHeader.number == 1 && chain.current.number == 2
  {
    var g := Block(None, 0, 1, [], 0);
    var b1 := Block(Some(g), 1, 2, [], 2);
    chain := LaggingHeader(g, Block(Some(g), 1, 3, [], 1), b1, Block(Some(b1), 2, 2, [], 3));
  }
}
