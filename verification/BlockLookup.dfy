// The index from transactions to their place in the canonical chain.
module BlockLookup {
  import opened Blocks
  import opened BlockForks

  datatype Place = Place(block: Block, i: nat)

  predicate At(tx: int, p: Place) {
    p.i < |p.block.txs| && p.block.txs[p.i] == tx
  }

  /** p is a place of tx in the chain that ends in b. */
  ghost predicate On(b: Block, tx: int, p: Place) {
    IsAncestor(b, p.block) && At(tx, p)
  }

  /** The index maps a transaction to a place if and only if that place holds it on the chain. */
  ghost predicate Indexed(lookup: map<int, Place>, b: Block) {
    forall tx, p :: On(b, tx, p) <==> tx in lookup && lookup[tx] == p
  }

  /** No transaction appears twice in the chain that ends in b. */
  ghost predicate NoRepeat(b: Block) {
    forall tx, p, q :: On(b, tx, p) && On(b, tx, q) ==> p == q
  }

  predicate SameAt(before: map<int, Place>, after: map<int, Place>, tx: int) {
    if tx in before then tx in after && after[tx] == before[tx] else tx !in after
  }

  /** The entries of the chain's transactions now point into the chain; the others are as before. */
  ghost predicate Overwritten(before: map<int, Place>, after: map<int, Place>, chain: seq<Block>) {
    forall tx :: OverwrittenAt(before, after, chain, tx)
  }

  ghost predicate OverwrittenAt(before: map<int, Place>, after: map<int, Place>, chain: seq<Block>, tx: int) {
    if tx in Transactions(chain) then tx in after && after[tx].block in chain && At(tx, after[tx])
    else SameAt(before, after, tx)
  }

  /** Place i of a block holds a transaction's last occurrence in it. */
  predicate LastPlace(b: Block, i: nat, n: nat)
    requires n <= |b.txs|
  {
    i < n && forall j :: i < j < n ==> b.txs[j] != b.txs[i]
  }

  /** Each transaction of the block points to its last place in it, all others are as before. */
  method WriteTxLookupEntries(lookup: map<int, Place>, b: Block) returns (after: map<int, Place>)
    ensures Overwritten(lookup, after, [b])
    ensures forall i :: 0 <= i < |b.txs| && LastPlace(b, i, |b.txs|) ==>
      b.txs[i] in after && after[b.txs[i]] == Place(b, i)
  {
    after := lookup;
    for i := 0 to |b.txs|
      invariant forall tx :: EntryAt(lookup, after, b, b.txs[..i], tx)
      invariant forall k :: 0 <= k < i && LastPlace(b, k, i) ==> b.txs[k] in after && after[b.txs[k]] == Place(b, k)
    {
      assert b.txs[..i + 1] == b.txs[..i] + [b.txs[i]];
      ghost var was := after;
      after := after[b.txs[i] := Place(b, i)];
      forall k | 0 <= k < i + 1 && LastPlace(b, k, i + 1)
        ensures b.txs[k] in after && after[b.txs[k]] == Place(b, k)
      {
        if k < i {
          assert LastPlace(b, k, i) && b.txs[i] != b.txs[k];
        }
      }
      ghost var written := b.txs[..i + 1];
      forall tx ensures EntryAt(lookup, after, b, written, tx) {
        assert EntryAt(lookup, was, b, b.txs[..i], tx);
      }
    }
    assert b.txs[..|b.txs|] == b.txs;
    assert Transactions([b]) == b.txs;
    forall tx ensures OverwrittenAt(lookup, after, [b], tx) {
      assert EntryAt(lookup, after, b, b.txs, tx);
    }
  }

  ghost predicate EntryAt(before: map<int, Place>, after: map<int, Place>, b: Block, written: seq<int>, tx: int) {
    if tx in written then tx in after && after[tx].block == b && At(tx, after[tx]) else SameAt(before, after, tx)
  }

  lemma OverwriteMore(l0: map<int, Place>, l1: map<int, Place>, l2: map<int, Place>, chain: seq<Block>, b: Block)
    requires Overwritten(l0, l1, chain) && Overwritten(l1, l2, [b])
    ensures Overwritten(l0, l2, chain + [b])
  {
    assert (chain + [b])[..|chain|] == chain;
    assert Transactions([b]) == b.txs;
    forall tx ensures OverwrittenAt(l0, l2, chain + [b], tx) {
      assert OverwrittenAt(l0, l1, chain, tx) && OverwrittenAt(l1, l2, [b], tx);
    }
  }

  /** The first n transactions of a without those of b, in a's order and as often as a has them. */
  function Minus(a: seq<int>, b: seq<int>, n: nat): (keep: seq<int>)
    requires n <= |a|
    ensures forall tx :: tx in keep <==> tx in a[..n] && tx !in b
  {
    if n == 0 then []
    else
      assert a[..n] == a[..n - 1] + [a[n - 1]];
      Minus(a, b, n - 1) + if a[n - 1] in b then [] else [a[n - 1]]
  }

  method TxDifference(a: seq<int>, b: seq<int>) returns (keep: seq<int>)
    ensures keep == Minus(a, b, |a|) && forall tx :: tx in keep <==> tx in a && tx !in b
  {
    keep := [];
    var remove := set tx | tx in b;
    for i := 0 to |a|
      invariant keep == Minus(a, b, i)
    {
      if a[i] !in remove {
        keep := keep + [a[i]];
      }
    }
    assert a[..|a|] == a;
  }

  /** Entries of the listed transactions are gone, the others are as before. */
  ghost predicate Deleted(before: map<int, Place>, after: map<int, Place>, gone: seq<int>) {
    forall tx :: if tx in gone then tx !in after else SameAt(before, after, tx)
  }

  method DeleteEntries(lookup: map<int, Place>, gone: seq<int>) returns (after: map<int, Place>)
    ensures Deleted(lookup, after, gone)
  {
    after := lookup;
    for i := 0 to |gone|
      invariant Deleted(lookup, after, gone[..i])
    {
      assert gone[..i + 1] == gone[..i] + [gone[i]];
      after := map tx | tx in after && tx != gone[i] :: after[tx];
    }
    assert gone[..|gone|] == gone;
  }

  /** A transaction is among those of a path exactly when some ancestor above the height holds it. */
  lemma {:induction false} PathTransactions(b: Block, low: nat, tx: int)
    requires Linked(b)
    ensures tx in Transactions(Path(b, low)) <==> exists p :: On(b, tx, p) && low < p.block.number
  {
    TransactionsHold(Path(b, low), tx);
    if tx in Transactions(Path(b, low)) {
      var c :| c in Path(b, low) && tx in c.txs;
      var i :| 0 <= i < |c.txs| && c.txs[i] == tx;
      PathHolds(b, low, c);
      assert On(b, tx, Place(c, i));
    }
    if p :| On(b, tx, p) && low < p.block.number {
      PathHolds(b, low, p.block);
    }
  }

  /** At or below a height where two chains meet, they hold the same transactions in the same places. */
  lemma {:induction false} SharedPlaces(a: Block, b: Block, n: nat, tx: int, p: Place)
    requires Linked(a) && Linked(b) && n <= a.number && n <= b.number && Ancestor(a, n) == Ancestor(b, n)
    requires p.block.number <= n
    ensures On(a, tx, p) <==> On(b, tx, p)
  {
    SharedBelow(a, b, n, p.block.number);
  }

  /** Writing the adopted entries and deleting the abandoned ones moves the index from one chain to the other. */
  lemma {:induction false} ReorgLookup(l0: map<int, Place>, l1: map<int, Place>, l2: map<int, Place>, gone: seq<int>,
                                       a: Block, b: Block, n: nat)
    requires Linked(a) && Linked(b) && n <= a.number && n <= b.number && Ancestor(a, n) == Ancestor(b, n)
    requires Indexed(l0, a) && NoRepeat(b)
    requires Overwritten(l0, l1, Path(b, n)) && Deleted(l1, l2, gone)
    requires forall tx :: tx in gone <==> tx in Transactions(Path(a, n)) && tx !in Transactions(Path(b, n))
    ensures Indexed(l2, b)
  {
    forall tx, p ensures On(b, tx, p) <==> tx in l2 && l2[tx] == p {
      PathTransactions(a, n, tx);
      PathTransactions(b, n, tx);
      assert OverwrittenAt(l0, l1, Path(b, n), tx);
      if tx in Transactions(Path(b, n)) {
        PathHolds(b, n, l1[tx].block);
        assert On(b, tx, l1[tx]);
      } else if p.block.number <= n {
        SharedPlaces(a, b, n, tx, p);
      }
    }
  }

  lemma {:induction false} RewriteLookup(l0: map<int, Place>, l1: map<int, Place>, b: Block)
    requires Linked(b) && Indexed(l0, b) && NoRepeat(b) && Overwritten(l0, l1, [b])
    ensures Indexed(l1, b)
  {
    assert Transactions([b]) == b.txs;
    forall tx, p ensures On(b, tx, p) <==> tx in l1 && l1[tx] == p {
      assert OverwrittenAt(l0, l1, [b], tx);
      if tx in b.txs {
        assert On(b, tx, l1[tx]);
      }
    }
  }
}
