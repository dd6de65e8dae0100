// core/tx_list.go: the price heap, cleaned lazily. It may hold stale and repeated entries; what it
// answers is still what the set of live transactions says.
module TxPriced {
  import Heaps
  import opened TxLists

  const PRICE_KEY: Tx -> int := (tx: Tx) => tx.price

  /** A price heap: no element is cheaper than the first. */
  ghost predicate Cheapest(heap: seq<Tx>) {
    heap != [] ==> forall x :: x in heap ==> heap[0].price <= x.price
  }

  lemma CheapestIsHeap(heap: seq<Tx>)
    ensures Cheapest(heap) <==> Heaps.IsHeap(heap, PRICE_KEY)
  {
    if heap != [] && Heaps.IsHeap(heap, PRICE_KEY) {
      forall x | x in heap ensures heap[0].price <= x.price {
        assert PRICE_KEY(heap[0]) <= PRICE_KEY(x);
      }
    }
  }

  method PopTx(heap: seq<Tx>) returns (x: Tx, rest: seq<Tx>)
    requires Cheapest(heap) && heap != []
    ensures x == heap[0] && Cheapest(rest) && |rest| == |heap| - 1
    ensures forall y :: y in heap ==> x.price <= y.price && (y == x || y in rest)
    ensures forall y :: y in rest ==> y in heap
  {
    CheapestIsHeap(heap);
    x, rest := Heaps.Pop(heap, PRICE_KEY);
    CheapestIsHeap(rest);
    forall y | y in heap ensures x.price <= y.price && (y == x || y in rest) {
      assert y in multiset(heap);
      assert y == x || y in multiset(rest);
    }
    forall y | y in rest ensures y in heap {
      assert y in multiset(rest);
      assert y in multiset(heap);
    }
  }

  method PushTx(heap: seq<Tx>, x: Tx) returns (r: seq<Tx>)
    requires Cheapest(heap)
    ensures Cheapest(r) && |r| == |heap| + 1
    ensures forall y :: y in r <==> y == x || y in heap
  {
    CheapestIsHeap(heap);
    r := Heaps.Push(heap, PRICE_KEY, x);
    CheapestIsHeap(r);
    forall y ensures y in r <==> y == x || y in heap {
      assert y in r <==> y in multiset(r);
      assert y in heap <==> y in multiset(heap);
    }
  }

  method PushAll(heap: seq<Tx>, txs: seq<Tx>) returns (r: seq<Tx>)
    requires Cheapest(heap)
    ensures Cheapest(r) && |r| == |heap| + |txs|
    ensures forall y :: y in r <==> y in txs || y in heap
  {
    r := heap;
    for i := 0 to |txs|
      invariant Cheapest(r) && |r| == |heap| + i
      invariant forall y :: y in r <==> y in txs[..i] || y in heap
    {
      r := PushTx(r, txs[i]);
    }
  }

  method HeapOf(live: set<Tx>) returns (r: seq<Tx>)
    ensures Cheapest(r) && |r| == |live|
    ensures forall y :: y in r <==> y in live
  {
    var todo, txs := live, [];
    while todo != {}
      invariant todo <= live && |txs| + |todo| == |live|
      invariant forall y :: y in txs <==> y in live && y !in todo
      decreases todo
    {
      var x :| x in todo;
      txs, todo := txs + [x], todo - {x};
    }
    r := Heaps.Init(txs, PRICE_KEY);
    CheapestIsHeap(r);
    forall y ensures y in r <==> y in live {
      assert y in r <==> y in multiset(r);
      assert y in txs <==> y in multiset(txs);
    }
  }

  class PricedList {
    var items: seq<Tx>
    var stales: int

    constructor ()
      ensures Valid() && items == [] && stales == 0
    {
      items, stales := [], 0;
    }

    ghost predicate Valid()
      reads this
    {
      Cheapest(items)
    }

    /** Every live transaction is in the heap. */
    ghost predicate Covers(live: set<Tx>)
      reads this
    {
      forall tx :: tx in live ==> tx in items
    }

    method Put(tx: Tx)
      requires Valid()
      modifies this
      ensures Valid() && stales == old(stales) && |items| == |old(items)| + 1
      ensures forall y :: y in items <==> y == tx || y in old(items)
    {
      items := PushTx(items, tx);
    }

    /** Counts a stale entry; once they pass a quarter the heap is rebuilt from the live set. */
    method Removed(live: set<Tx>)
      requires Valid()
      modifies this
      ensures Valid()
      ensures if old(stales) + 1 <= |old(items)| / 4
        then items == old(items) && stales == old(stales) + 1
        else stales == 0 && |items| == |live| && forall y :: y in items <==> y in live
    {
      stales := stales + 1;
      if stales <= |items| / 4 {
        return;
      }
      stales := 0;
      items := HeapOf(live);
    }

    /** Drops exactly the live remote transactions below the threshold. */
    method Cap(live: set<Tx>, threshold: nat, locals: set<Address>) returns (drop: seq<Tx>)
      requires Valid() && Covers(live)
      modifies this
      ensures Valid()
      ensures forall tx :: tx in drop <==> tx in live && tx.sender !in locals && tx.price < threshold
      ensures forall tx :: tx in live && tx !in drop ==> tx in items
      // what the heap holds beyond its stale entries shrinks by what is dropped
      ensures |items| - stales + |drop| == |old(items)| - old(stales)
      ensures forall y :: y in items ==> y in old(items)
    {
      drop := [];
      var save: seq<Tx>, heap := [], items;
      var done := false;
      while |heap| > 0 && !done
        invariant Cheapest(heap)
        invariant forall tx :: tx in live ==> tx in heap || tx in save || tx in drop
        invariant forall tx :: tx in drop ==> tx in live && tx.sender !in locals && tx.price < threshold
        invariant forall tx :: tx in save ==> tx.sender in locals || tx.price >= threshold
        invariant done ==> forall tx :: tx in heap ==> tx.price >= threshold
        invariant |heap| + |save| + |drop| - stales == |items| - old(stales) && items == old(items)
        invariant forall y :: y in heap || y in save ==> y in items
        decreases |heap|
      {
        var tx;
        tx, heap := PopTx(heap);
        if tx !in live {
          stales := stales - 1;
        } else if tx.price >= threshold {
          save := save + [tx];
          done := true;
        } else if tx.sender in locals {
          save := save + [tx];
        } else {
          drop := drop + [tx];
        }
      }
      items := PushAll(heap, save);
    }

    /** A remote transaction is underpriced iff no live transaction is cheaper than it. */
    method Underpriced(live: set<Tx>, tx: Tx, locals: set<Address>) returns (r: bool)
      requires Valid() && Covers(live)
      modifies this
      ensures Valid() && Covers(live)
      ensures r <==> tx.sender !in locals && live != {} && forall t :: t in live ==> tx.price <= t.price
      ensures forall y :: y in items ==> y in old(items)
      ensures |items| - stales == |old(items)| - old(stales)
    {
      if tx.sender in locals {
        return false;
      }
      var heap := items;
      while |heap| > 0 && heap[0] !in live
        invariant Cheapest(heap)
        invariant forall t :: t in live ==> t in heap
        invariant items == old(items) && forall y :: y in heap ==> y in items
        invariant |heap| - stales == |items| - old(stales)
        decreases |heap|
      {
        stales := stales - 1;
        var stale;
        stale, heap := PopTx(heap);
      }
      items := heap;
      if |items| == 0 {
        return false;
      }
      return items[0].price >= tx.price;
    }

    /** Drops cheapest live remote transactions: none it leaves is cheaper than one it drops. */
    method Discard(live: set<Tx>, count: nat, locals: set<Address>) returns (drop: seq<Tx>)
      requires Valid() && Covers(live)
      modifies this
      ensures Valid() && |drop| <= count
      ensures forall d :: d in drop ==> d in live && d.sender !in locals
      ensures forall d, t :: d in drop && t in live && t !in drop && t.sender !in locals ==> d.price <= t.price
      ensures |drop| < count ==> forall t :: t in live && t.sender !in locals ==> t in drop
      ensures forall t :: t in live && t !in drop ==> t in items
      ensures |items| - stales + |drop| == |old(items)| - old(stales)
      ensures forall y :: y in items ==> y in old(items)
    {
      drop := [];
      var save: seq<Tx>, heap, left := [], items, count;
      while |heap| > 0 && left > 0
        invariant Cheapest(heap) && |drop| + left == count
        invariant forall t :: t in live ==> t in heap || t in save || t in drop
        invariant forall d :: d in drop ==> d in live && d.sender !in locals
        invariant forall t :: t in save ==> t.sender in locals
        invariant forall d, t :: d in drop && t in heap ==> d.price <= t.price
        invariant |heap| + |save| + |drop| - stales == |items| - old(stales) && items == old(items)
        invariant forall y :: y in heap || y in save ==> y in items
        decreases |heap|
      {
        var tx;
        tx, heap := PopTx(heap);
        if tx !in live {
          stales := stales - 1;
        } else if tx.sender in locals {
          save := save + [tx];
        } else {
          drop := drop + [tx];
          left := left - 1;
        }
      }
      items := PushAll(heap, save);
    }
  }
}
