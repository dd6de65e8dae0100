// core/tx_pool.go, promoteExecutables: when the queues overflow, remote queues are emptied or cut
// until the total fits or only local ones remain.
module TxQueue {
  import opened Arithmetic
  import opened Powers
  import opened Sums
  import opened TxLists
  import opened TxPriced
  import opened TxPool
  import opened TxFairness

  /** The queues of remote accounts. */
  function Remote(s: State): Accounts {
    map a | a in s.queue && a !in s.locals :: s.queue[a]
  }

  /** `s'` differs from `s0` only in the queue of the given accounts and in what they held. */
  ghost predicate OnlyQueues(s0: State, s': State, touched: set<Address>) {
    && s' == s0.(queue := s'.queue, all := s'.all) && s'.AllOk() && Sheds(s0, s')
    && forall a :: a !in touched ==> SameQueue(s0, s', a)
  }

  /** Moreover the touched queues lost their highest nonces. */
  ghost predicate QueuesCut(s0: State, s': State, touched: set<Address>) {
    OnlyQueues(s0, s', touched) && forall a :: a in touched ==> Shortened(Get(s0.queue, a), Get(s'.queue, a))
  }

  /** What is left of a list lies below what is gone. */
  ghost predicate Shortened(q: Items, q': Items) {
    && (forall n :: n in q' ==> n in q && q'[n] == q[n])
    && (forall n, k :: n in q' && k in q && k !in q' ==> n < k)
  }

  /** Of the list exactly the given transactions are gone. */
  ghost predicate Taken(q: Items, q': Items, txs: seq<Tx>) {
    && (forall n :: n in q' ==> n in q && q'[n] == q[n])
    && (forall n :: n in q && n !in q' ==> n in Nonces(txs))
    && (forall n :: n in q' ==> n !in Nonces(txs))
  }

  ghost function Nonces(txs: seq<Tx>): set<nat> {
    set i | 0 <= i < |txs| :: txs[i].nonce
  }

  ghost predicate SameQueue(s0: State, s': State, a: Address) {
    (a in s'.queue <==> a in s0.queue) && Get(s'.queue, a) == Get(s0.queue, a)
  }

  lemma TotalDelete(m: Accounts, a: Address)
    requires a in m && |m[a]| == 1
    ensures Total(Without(m, a)) == Total(m) - 1
  {
    var sizes, sizes' := Sizes(m), Sizes(Without(m, a));
    var rest := sizes.Keys - {a};
    SumRemove(sizes.Keys, sizes, a);
    assert sizes'.Keys == rest;
    SumLe(rest, sizes, sizes');
    SumLe(rest, sizes', sizes);
  }

  /** Storing a list one shorter lowers the total by one, also when the entry disappears. */
  lemma TotalPut(m: Accounts, a: Address, list: Items)
    requires a in m && |list| == |m[a]| - 1
    ensures Total(PutList(m, a, list)) == Total(m) - 1
  {
    if list == map[] {
      TotalDelete(m, a);
    } else {
      TotalCut(m, a, list);
    }
  }

  lemma TotalCut(m: Accounts, a: Address, list: Items)
    requires a in m && |list| == |m[a]| - 1
    ensures Total(m[a := list]) == Total(m) - 1
  {
    assert Sizes(m[a := list]) == Sizes(m)[a := |list|];
    SumUpdate(Sizes(m), a, |list|);
  }

  /** Removing one queued transaction. */
  method RemoveQueuedTx(s: State, priced: PricedList, a: Address, n: nat) returns (s': State)
    requires Synced(s, priced) && s.AllOk() && a in s.queue && n in s.queue[a]
    modifies priced
    ensures Synced(s', priced) && s'.AllOk() && s' == s.(queue := s'.queue, all := s'.all)
    ensures s'.queue == PutList(s.queue, a, RemoveKey(s.queue[a], n))
    ensures Total(s'.queue) == Total(s.queue) - 1 && Sheds(s, s')
  {
    assert s.Ok(a);
    var tx := s.queue[a][n];
    s' := RemoveTx(s, priced, tx);
    RemoveTxKeepsAll(s, s', tx);
    RemovedSheds(s, s', a, n);
    TotalPut(s.queue, a, RemoveKey(s.queue[a], n));
  }

  lemma RemovedSheds(s: State, s': State, a: Address, n: nat)
    requires s.Ok(a) && a in s.queue && n in s.queue[a] && OnlyAccount(s, s', a) && s'.all == s.all - {s.queue[a][n]}
    requires s'.View(a) == s.View(a).(q := RemoveKey(s.queue[a], n))
    ensures Sheds(s, s')
  {
    assert s.View(a).q == s.queue[a];
    QueueSheds(s, s', a, RemoveKey(s.queue[a], n));
    ShedsOne(s, s', a);
  }

  /** The transactions of `txs` sit in queue a under different nonces. */
  ghost predicate QueuedAs(q: Items, txs: seq<Tx>) {
    && (forall i :: 0 <= i < |txs| ==> txs[i].nonce in q)
    && forall i, j :: 0 <= i < j < |txs| ==> txs[i].nonce != txs[j].nonce
  }

  /** Removes the given transactions of one queue, in order. */
  method RemoveAll(s: State, priced: PricedList, a: Address, txs: seq<Tx>) returns (s': State)
    requires Synced(s, priced) && s.AllOk() && QueuedAs(Get(s.queue, a), txs)
    modifies priced
    ensures Synced(s', priced) && OnlyQueues(s, s', {a})
    ensures Total(s'.queue) == Total(s.queue) - |txs|
    ensures Taken(Get(s.queue, a), Get(s'.queue, a), txs)
  {
    s' := s;
    ghost var q := Get(s.queue, a);
    var i := 0;
    while i < |txs|
      invariant 0 <= i <= |txs| && Synced(s', priced) && OnlyQueues(s, s', {a})
      invariant Total(s'.queue) == Total(s.queue) - i && Taken(q, Get(s'.queue, a), txs[..i])
      invariant forall j :: i <= j < |txs| ==> txs[j].nonce in Get(s'.queue, a)
    {
      assert txs[i].nonce in Get(s'.queue, a);
      TakenNext(q, Get(s'.queue, a), txs, i);
      ghost var was := s';
      s' := RemoveQueuedTx(s', priced, a, txs[i].nonce);
      OnlyQueuesNext(s, was, s', a);
      i := i + 1;
    }
    assert txs[..i] == txs;
  }

  lemma OnlyQueuesNext(s0: State, s: State, s': State, a: Address)
    requires OnlyQueues(s0, s, {a}) && s' == s.(queue := s'.queue, all := s'.all) && s'.AllOk() && Sheds(s, s')
    requires forall b :: b != a ==> (b in s'.queue <==> b in s.queue) && Get(s'.queue, b) == Get(s.queue, b)
    ensures OnlyQueues(s0, s', {a})
  {
    ShedsTrans(s0, s, s');
    forall b | b !in {a} ensures SameQueue(s0, s', b) {
      assert SameQueue(s0, s, b);
    }
  }

  lemma TakenNext(q: Items, q': Items, txs: seq<Tx>, i: nat)
    requires i < |txs| && Taken(q, q', txs[..i])
    ensures Taken(q, RemoveKey(q', txs[i].nonce), txs[..i + 1])
  {
    assert txs[..i + 1] == txs[..i] + [txs[i]];
    NoncesNext(txs[..i], txs[i]);
  }

  lemma NoncesNext(txs: seq<Tx>, tx: Tx)
    ensures Nonces(txs + [tx]) == Nonces(txs) + {tx.nonce}
  {
    var more := txs + [tx];
    forall n ensures n in Nonces(more) <==> n in Nonces(txs) || n == tx.nonce {
      if n in Nonces(txs) {
        var j :| 0 <= j < |txs| && txs[j].nonce == n;
        assert more[j].nonce == n;
      } else if n == tx.nonce {
        assert more[|txs|].nonce == n;
      }
    }
  }

  /** What a queue loses when `drop` transactions have to go: all of it, or its highest nonces from the top. */
  method ToDrop(list: Items, drop: nat) returns (txs: seq<Tx>, ghost sorted: seq<Tx>)
    requires Keyed(list)
    ensures Lists(list, sorted) && QueuedAs(list, txs) && |txs| == Min(|list|, drop)
    ensures txs == sorted || forall i :: 0 <= i < |txs| ==> txs[i] == sorted[|sorted| - 1 - i]
    ensures |list| <= drop ==> txs == sorted
  {
    var all := SortValues(list);
    sorted, txs := all, all;
    if |list| > drop {
      txs := seq(drop, i requires 0 <= i < drop => all[|list| - 1 - i]);
    }
  }

  /** Removes up to `drop` transactions of one queue: all of it, or its highest nonces. */
  method CutQueue(s: State, priced: PricedList, a: Address, drop: nat) returns (s': State, removed: nat)
    requires Synced(s, priced) && s.AllOk() && a in s.queue
    modifies priced
    ensures Synced(s', priced) && QueuesCut(s, s', {a})
    ensures removed == Min(|s.queue[a]|, drop)
    ensures Total(s'.queue) == Total(s.queue) - removed
    ensures |s.queue[a]| <= drop ==> Get(s'.queue, a) == map[]
  {
    assert s.Ok(a);
    var txs;
    ghost var sorted;
    txs, sorted := ToDrop(s.queue[a], drop);
    removed := |txs|;
    s' := RemoveAll(s, priced, a, txs);
    TopTaken(s.queue[a], Get(s'.queue, a), sorted, txs);
    if txs == sorted {
      AllTaken(s.queue[a], Get(s'.queue, a), sorted);
    }
  }

  lemma InNonces(txs: seq<Tx>, i: nat)
    requires i < |txs|
    ensures txs[i].nonce in Nonces(txs)
  {
  }

  lemma TopIndex(sorted: seq<Tx>, txs: seq<Tx>, j: nat)
    requires |txs| <= |sorted| && |sorted| - |txs| <= j < |sorted|
    requires forall i :: 0 <= i < |txs| ==> txs[i] == sorted[|sorted| - 1 - i]
    ensures sorted[j].nonce in Nonces(txs)
  {
    InNonces(txs, |sorted| - 1 - j);
  }

  /** Taking a number of transactions from the top of the sorted list, or all of them, leaves its lower part. */
  lemma TopTaken(q: Items, q': Items, sorted: seq<Tx>, txs: seq<Tx>)
    requires Lists(q, sorted) && Taken(q, q', txs) && |txs| <= |sorted|
    requires txs == sorted || forall i :: 0 <= i < |txs| ==> txs[i] == sorted[|sorted| - 1 - i]
    ensures Shortened(q, q')
  {
    if txs == sorted {
      AllTaken(q, q', sorted);
    } else {
      forall n, k | n in q' && k in q && k !in q' ensures n < k {
        ListsCovers(q, sorted, n);
        var i: nat :| i < |txs| && txs[i].nonce == k;
        var j: nat :| j < |sorted| && sorted[j].nonce == n;
        if j >= |sorted| - |txs| {
          TopIndex(sorted, txs, j);
        } else {
          assert sorted[j].nonce < sorted[|sorted| - 1 - i].nonce;
        }
      }
    }
  }

  lemma AllTaken(q: Items, q': Items, sorted: seq<Tx>)
    requires Lists(q, sorted) && Taken(q, q', sorted)
    ensures q' == map[]
  {
    forall n | n in q ensures n !in q' {
      ListsCovers(q, sorted, n);
      var j: nat :| j < |sorted| && sorted[j].nonce == n;
      InNonces(sorted, j);
    }
  }

  /** One address of the loop below. */
  method CutNextQueue(s: State, priced: PricedList, a: Address, drop: nat, ghost s0: State, ghost touched: set<Address>)
    returns (s': State, removed: nat)
    requires Synced(s, priced) && QueuesCut(s0, s, touched) && a in s0.queue && a !in touched
    modifies priced
    ensures Synced(s', priced) && QueuesCut(s0, s', touched + {a})
    ensures removed == Min(|s0.queue[a]|, drop)
    ensures Total(s'.queue) == Total(s.queue) - removed
    ensures |s0.queue[a]| <= drop ==> Get(s'.queue, a) == map[]
    ensures forall b :: b != a ==> SameQueue(s, s', b)
  {
    assert SameQueue(s0, s, a);
    s', removed := CutQueue(s, priced, a, drop);
    ShedsTrans(s0, s, s');
    forall b | b !in touched + {a} ensures SameQueue(s0, s', b) {
      assert SameQueue(s0, s, b) && SameQueue(s, s', b);
    }
    forall b | b in touched + {a} ensures Shortened(Get(s0.queue, b), Get(s'.queue, b)) {
      if b != a {
        assert SameQueue(s, s', b) && Shortened(Get(s0.queue, b), Get(s.queue, b));
      }
    }
  }

  /** Every queue but one is as before or gone. */
  ghost predicate CutButOne(s: State, s': State) {
    exists partial: Option<Address> :: EmptiedBut(s, s', partial)
  }

  ghost predicate EmptiedBut(s: State, s': State, partial: Option<Address>) {
    forall a :: partial == Some(a) || Get(s'.queue, a) == map[] || SameQueue(s, s', a)
  }

  lemma EmptiedNext(s: State, t: State, s': State, a: Address, whole: bool)
    requires EmptiedBut(s, t, None) && (forall b :: b != a ==> SameQueue(t, s', b))
    requires whole ==> Get(s'.queue, a) == map[]
    ensures EmptiedBut(s, s', if whole then None else Some(a))
  {
    forall b | b != a ensures Get(s'.queue, b) == map[] || SameQueue(s, s', b) {
      assert SameQueue(t, s', b);
    }
  }

  /** The loop over the remote addresses: drops until the overflow is gone or no address is left. */
  method CutRemote(s: State, priced: PricedList, remote: set<Address>, over: nat, ghost sizes: map<Address, nat>)
    returns (s': State)
    requires Synced(s, priced) && s.AllOk() && remote == sizes.Keys
    requires forall a :: a in remote ==> a in s.queue && sizes[a] == |s.queue[a]|
    modifies priced
    ensures Synced(s', priced) && QueuesCut(s, s', remote)
    ensures Total(s'.queue) == Total(s.queue) - Min(over, Sum(sizes)) && CutButOne(s, s')
  {
    s' := s;
    ghost var partial: Option<Address> := None;
    var addresses, drop := remote, over;
    ghost var touched: set<Address>, gone := {}, 0;
    while drop > 0 && addresses != {}
      invariant 0 <= drop && drop + gone == over && addresses <= remote && touched == remote - addresses
      invariant Synced(s', priced) && QueuesCut(s, s', touched)
      invariant Total(s'.queue) == Total(s.queue) - gone
      invariant gone + SumOver(addresses, sizes) <= Sum(sizes)
      invariant drop > 0 ==> gone + SumOver(addresses, sizes) == Sum(sizes)
      invariant EmptiedBut(s, s', partial) && (drop > 0 ==> partial.None?)
      decreases addresses
    {
      var a := Pick(addresses);
      SumRemove(addresses, sizes, a);
      var removed;
      ghost var was := s';
      s', removed := CutNextQueue(s', priced, a, drop, s, touched);
      EmptiedNext(s, was, s', a, sizes[a] <= drop);
      partial := if sizes[a] <= drop then None else Some(a);
      addresses := addresses - {a};
      gone, touched := gone + removed, touched + {a};
      drop := drop - removed;
    }
    if drop > 0 {
      assert SumOver(addresses, sizes) == 0;
      assert touched == remote;
    } else {
      assert gone == over;
    }
    AllRemote(s, s', touched, remote);
  }

  /** A queue that was not reached is shortened by nothing. */
  lemma AllRemote(s: State, s': State, touched: set<Address>, remote: set<Address>)
    requires QueuesCut(s, s', touched) && touched <= remote
    ensures QueuesCut(s, s', remote)
  {
    forall a | a in remote ensures Shortened(Get(s.queue, a), Get(s'.queue, a)) {
      if a !in touched {
        assert SameQueue(s, s', a);
      }
    }
  }

  /** Cutting queues keeps what is not executable so. */
  lemma CutKeepsSettled(s: State, s': State, touched: set<Address>)
    requires QueuesCut(s, s', touched)
    ensures KeepsSettled(s, s')
  {
    forall a | s.Settled(a) ensures s'.Settled(a) {
      if a !in touched {
        assert SameQueue(s, s', a);
      } else {
        assert Shortened(Get(s.queue, a), Get(s'.queue, a));
      }
    }
  }

  /** The queue part of `promoteExecutables`; heartbeats only decide the order, which is arbitrary here. */
  method TruncateQueue(s: State, priced: PricedList) returns (s': State)
    requires Synced(s, priced) && s.AllOk()
    modifies priced
    ensures Synced(s', priced) && QueuesCut(s, s', Remote(s).Keys)
    ensures var over := Total(s.queue) - s.config.globalQueue;
      Total(s'.queue) == Total(s.queue) - (if over <= 0 then 0 else Min(over, Total(Remote(s))))
    ensures Total(s.queue) <= s.config.globalQueue ==> s' == s
    ensures CutButOne(s, s')
  {
    s' := s;
    var queued := Count(s.queue);
    if queued > s.config.globalQueue {
      ghost var sizes := Sizes(Remote(s));
      s' := CutRemote(s, priced, Remote(s).Keys, queued - s.config.globalQueue, sizes);
    } else {
      assert EmptiedBut(s, s, None);
    }
  }
}
