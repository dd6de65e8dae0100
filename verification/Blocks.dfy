// Blocks, their ancestry and fork points. A block's hash covers its parent, so with injective
// hashes a block value stands for its own hash and `parent` for the parent hash.
module Blocks {
  import opened Powers

  datatype Block = Block(parent: Option<Block>, number: nat, difficulty: nat, txs: seq<int>, id: int)

  /** Numbers count up from a genesis block without parent. */
  predicate Linked(b: Block) {
    match b.parent
    case None => b.number == 0
    case Some(p) => b.number == p.number + 1 && Linked(p)
  }

  function Root(b: Block): Block {
    match b.parent
    case None => b
    case Some(p) => Root(p)
  }

  /** The ancestor of b at a height, b itself included. */
  function Ancestor(b: Block, n: nat): Block
    requires Linked(b) && n <= b.number
    decreases b.number
  {
    if n == b.number then b else Ancestor(b.parent.value, n)
  }

  /** Total difficulty as the sum along the ancestry. */
  function TotalDifficulty(b: Block): nat {
    b.difficulty + match b.parent case None => 0 case Some(p) => TotalDifficulty(p)
  }

  lemma {:induction false} AncestorFacts(b: Block, n: nat)
    requires Linked(b) && n <= b.number
    ensures Linked(Ancestor(b, n)) && Ancestor(b, n).number == n && Root(Ancestor(b, n)) == Root(b)
    decreases b.number
  {
    if n < b.number {
      AncestorFacts(b.parent.value, n);
    }
  }

  lemma {:induction false} AncestorOfAncestor(b: Block, n: nat, k: nat)
    requires Linked(b) && k <= n <= b.number
    ensures Linked(Ancestor(b, n)) && Ancestor(b, n).number == n && Ancestor(Ancestor(b, n), k) == Ancestor(b, k)
    decreases b.number
  {
    AncestorFacts(b, n);
    if n < b.number {
      AncestorOfAncestor(b.parent.value, n, k);
    }
  }

  /** The only ancestor at height zero is the genesis block. */
  lemma {:induction false} RootIsAncestor(b: Block)
    requires Linked(b)
    ensures Ancestor(b, 0) == Root(b)
    decreases b.number
  {
    if b.number > 0 {
      RootIsAncestor(b.parent.value);
    }
  }

  /** c is b or one of its ancestors. */
  predicate IsAncestor(b: Block, c: Block) {
    Linked(b) && c.number <= b.number && Ancestor(b, c.number) == c
  }

  /** Where two chains of one genesis meet, by walking both down. */
  function Common(a: Block, b: Block): Block
    requires Linked(a) && Linked(b) && Root(a) == Root(b)
    decreases a.number + b.number
  {
    if a == b then a
    else if a.number > b.number then Common(a.parent.value, b)
    else if b.number > a.number then Common(a, b.parent.value)
    else if a.number == 0 then a
    else Common(a.parent.value, b.parent.value)
  }

  /** The meeting point is a common ancestor, and every other common ancestor lies at or below it. */
  lemma {:induction false} CommonIsHighest(a: Block, b: Block, n: nat)
    requires Linked(a) && Linked(b) && Root(a) == Root(b)
    ensures IsAncestor(a, Common(a, b)) && IsAncestor(b, Common(a, b))
    ensures n <= a.number && n <= b.number && Ancestor(a, n) == Ancestor(b, n) ==> n <= Common(a, b).number
    decreases a.number + b.number
  {
    if a != b {
      if a.number > b.number {
        CommonIsHighest(a.parent.value, b, n);
      } else if b.number > a.number {
        CommonIsHighest(a, b.parent.value, n);
      } else if a.number > 0 {
        CommonIsHighest(a.parent.value, b.parent.value, n);
      }
    }
  }

  /** Every ancestor of b, b included, is stored. */
  ghost predicate Complete(headers: set<Block>, b: Block)
    requires Linked(b)
  {
    forall n: nat :: n <= b.number ==> Ancestor(b, n) in headers
  }

  /** A block replaces the head: heavier, or as heavy and the coin says so. */
  ghost predicate Heavier(b: Block, head: Block, coin: bool) {
    TotalDifficulty(b) > TotalDifficulty(head) || (TotalDifficulty(b) == TotalDifficulty(head) && coin)
  }

  /** No stored block is heavier than b. */
  ghost predicate Outweighs(b: Block, headers: set<Block>) {
    forall h :: h in headers ==> TotalDifficulty(h) <= TotalDifficulty(b)
  }

  lemma {:induction false} CompleteParent(headers: set<Block>, b: Block)
    requires Linked(b) && b.parent.Some?
    ensures Complete(headers, b) <==> b in headers && Complete(headers, b.parent.value)
  {
    var p := b.parent.value;
    assert Ancestor(b, b.number) == b;
    forall n: nat | n <= p.number ensures Ancestor(b, n) == Ancestor(p, n) {
    }
  }

  lemma {:induction false} CompleteAncestor(headers: set<Block>, b: Block, n: nat)
    requires Linked(b) && n <= b.number && Complete(headers, b)
    ensures Linked(Ancestor(b, n)) && Complete(headers, Ancestor(b, n))
  {
    AncestorFacts(b, n);
    forall k: nat | k <= n ensures Ancestor(Ancestor(b, n), k) in headers {
      AncestorOfAncestor(b, n, k);
    }
  }

  /** Two chains that meet at a height agree below it. */
  lemma {:induction false} SharedBelow(a: Block, b: Block, n: nat, k: nat)
    requires Linked(a) && Linked(b) && k <= n <= a.number && n <= b.number && Ancestor(a, n) == Ancestor(b, n)
    ensures Ancestor(a, k) == Ancestor(b, k)
  {
    AncestorOfAncestor(a, n, k);
    AncestorOfAncestor(b, n, k);
  }
}
