// core/tx_pool.go: promotion, demotion, replacement and eviction. After every operation an
// account's executable nonces are exactly the window from its state nonce to its virtual nonce.
module TxPool {
  import Heaps
  import opened TxLists
  import opened TxAccount
  import opened TxPriced

  datatype PoolConfig = PoolConfig(
    priceBump: nat, accountSlots: nat, globalSlots: nat, accountQueue: nat, globalQueue: nat, noLocals: bool)

  /**
   * What the pool reads from the chain state at a head. Accounts without an entry have nonce and
   * balance zero. The sets collect the transactions that pass checks made outside this model: type,
   * size and value (`wellFormed`), the signature (`signed`), intrinsic gas (`coversIntrinsic`), the
   * stamp of a privacy transaction (`privacyValid`) and the called precompile's own check.
   */
  datatype Head = Head(
    nonces: map<Address, nat>, balances: map<Address, nat>, maxGas: nat,
    wellFormed: set<Tx>, signed: set<Tx>, coversIntrinsic: set<Tx>, privacyValid: set<Tx>, precompileValid: set<Tx>)
  {
    function Nonce(a: Address): nat {
      if a in nonces then nonces[a] else 0
    }

    function Balance(a: Address): nat {
      if a in balances then balances[a] else 0
    }
  }

  datatype PoolError =
    | KnownTransaction | InvalidTx | GasLimit | InvalidSender | Underpriced | NonceTooLow | InsufficientFunds
    | IntrinsicGas | InvalidPrivacyTx | PrecompileRefuses | ReplaceUnderpriced

  type Accounts = map<Address, Items>

  function Get(m: Accounts, a: Address): Items {
    if a in m then m[a] else map[]
  }

  /** `delete(m, a)` */
  function Without(m: Accounts, a: Address): (r: Accounts)
    ensures a !in r && Get(r, a) == map[]
    ensures forall b :: b != a ==> (b in r <==> b in m) && Get(r, b) == Get(m, b)
  {
    map b | b in m && b != a :: m[b]
  }

  /** The list belongs to account a and all of it is known to the pool. */
  ghost predicate Owned(m: Items, a: Address, all: set<Tx>) {
    forall n :: n in m ==> m[n].nonce == n && m[n].sender == a && m[n] in all
  }

  ghost predicate Window(m: Items, lo: nat, hi: nat) {
    lo <= hi && forall n :: n in m <==> lo <= n < hi
  }

  /** One account as the pool sees it: executable list, queued list, virtual nonce. */
  datatype Account = Account(p: Items, q: Items, v: nat)

  /** Executable nonces fill [lo, v), queued ones lie at or above v. */
  ghost predicate AccountOk(a: Address, s: Account, lo: nat, all: set<Tx>) {
    Owned(s.p, a, all) && Owned(s.q, a, all) && Window(s.p, lo, s.v) && forall n :: n in s.q ==> n >= s.v
  }

  /** As AccountOk, except that the queue may still hold nonces the chain has passed. */
  ghost predicate AccountStale(a: Address, s: Account, lo: nat, all: set<Tx>) {
    Owned(s.p, a, all) && Owned(s.q, a, all) && Window(s.p, lo, s.v) && forall n :: n in s.q ==> n >= s.v || n < lo
  }

  /** Stores a list, or deletes the entry when the list is empty. */
  function PutList(m: Accounts, a: Address, list: Items): (r: Accounts)
    ensures Get(r, a) == list
    ensures forall b :: b != a ==> (b in r <==> b in m) && Get(r, b) == Get(m, b)
  {
    if list == map[] then Without(m, a) else m[a := list]
  }

  /** What removing nonce n does to an account. */
  function RemoveFrom(s: Account, n: nat): Account {
    if n in s.p then
      var rest := Below(s.p, n);
      Account(rest, if rest == map[] then s.q else s.q + AtLeast(s.p, n + 1), if s.v > n then n else s.v)
    else s.(q := RemoveKey(s.q, n))
  }

  /**
   * Removing a nonce from a window leaves executable what lies below it and queues what lies above, unless nothing
   * lies below: then what lies above is in no list. A queued nonce just goes.
   */
  lemma RemoveFromIff(s: Account, lo: nat, n: nat, k: nat)
    requires Window(s.p, lo, s.v) && forall m :: m in s.q ==> m >= s.v
    ensures k in RemoveFrom(s, n).p <==> k in s.p && (n in s.p ==> k < n)
    ensures k in RemoveFrom(s, n).q <==> (k in s.q && k != n) || (lo < n < k && n in s.p && k in s.p)
    ensures RemoveFrom(s, n).v == if n in s.p then n else s.v
  {
    var rest := Below(s.p, n);
    if n in s.p {
      assert rest == map[] <==> n == lo by {
        assert lo < n ==> lo in rest;
      }
    }
  }

  /** The pool's maps and settings; the price heap is an object beside them. */
  datatype State = State(
    config: PoolConfig, gasPrice: nat, head: Head, virt: map<Address, nat>, locals: set<Address>,
    pending: Accounts, queue: Accounts, all: set<Tx>)
  {
    /** `pendingState.GetNonce`: the tracked nonce, or the state's. */
    function Virtual(a: Address): nat {
      if a in virt then virt[a] else head.Nonce(a)
    }

    function View(a: Address): Account {
      Account(Get(pending, a), Get(queue, a), Virtual(a))
    }

    ghost predicate Ok(a: Address) {
      AccountOk(a, View(a), head.Nonce(a), all)
    }

    /** Nothing that could be executed waits in the queue. */
    ghost predicate Settled(a: Address) {
      forall n :: n in Get(queue, a) ==> n > Virtual(a)
    }

    ghost predicate Stale(a: Address) {
      AccountStale(a, View(a), head.Nonce(a), all)
    }

    ghost predicate AllOk() {
      forall a :: Ok(a)
    }
  }

  /** Only account a and the set of known transactions differ. */
  ghost predicate OnlyAccount(s: State, s': State, a: Address) {
    && s'.config == s.config && s'.head == s.head && s'.locals == s.locals && s'.gasPrice == s.gasPrice
    && forall b :: b != a ==> s'.View(b) == s.View(b)
  }

  /** No account that had nothing executable in its queue has it now. */
  ghost predicate KeepsSettled(s: State, s': State) {
    forall a :: s.Settled(a) ==> s'.Settled(a)
  }

  /** The transaction sits in the list under its nonce. */
  predicate Has(m: Items, tx: Tx) {
    tx.nonce in m && m[tx.nonce] == tx
  }

  predicate Listed(s: Account, tx: Tx) {
    Has(s.p, tx) || Has(s.q, tx)
  }

  /**
   * The transaction is forgotten exactly if it was in a list of its account and is in none now; it did not enter one.
   */
  ghost predicate ShedAt(s: Account, all: set<Tx>, s': Account, all': set<Tx>, tx: Tx) {
    && (Listed(s', tx) ==> Listed(s, tx))
    && (tx in all' <==> tx in all && (Listed(s, tx) ==> Listed(s', tx)))
  }

  ghost predicate AccountSheds(s: State, s': State, a: Address) {
    forall tx: Tx :: tx.sender == a ==> ShedAt(s.View(a), s.all, s'.View(a), s'.all, tx)
  }

  /** Exactly the transactions that leave the lists leave `all`. */
  ghost predicate Sheds(s: State, s': State) {
    forall a :: AccountSheds(s, s', a)
  }

  lemma AccountShedsTrans(s: State, s1: State, s': State, a: Address)
    requires AccountSheds(s, s1, a) && AccountSheds(s1, s', a)
    ensures AccountSheds(s, s', a)
  {
    forall tx: Tx | tx.sender == a ensures ShedAt(s.View(a), s.all, s'.View(a), s'.all, tx) {
      assert ShedAt(s.View(a), s.all, s1.View(a), s1.all, tx) && ShedAt(s1.View(a), s1.all, s'.View(a), s'.all, tx);
    }
  }

  lemma ShedsTrans(s: State, s1: State, s': State)
    requires Sheds(s, s1) && Sheds(s1, s')
    ensures Sheds(s, s')
  {
    forall a ensures AccountSheds(s, s', a) {
      AccountShedsTrans(s, s1, s', a);
    }
  }

  /** A step that changes one account's lists and forgets only of that account. */
  lemma ShedsOne(s: State, s': State, a: Address)
    requires OnlyAccount(s, s', a) && s'.all <= s.all && AccountSheds(s, s', a)
    requires forall tx :: tx in s.all && tx.sender != a ==> tx in s'.all
    ensures Sheds(s, s')
  {
    forall b | b != a ensures AccountSheds(s, s', b) {
      assert s'.View(b) == s.View(b);
    }
  }

  /** Shrinking a queue and forgetting exactly what it lost. */
  lemma QueueSheds(s: State, s': State, a: Address, q: Items)
    requires s.Stale(a) && s'.View(a) == s.View(a).(q := q)
    requires forall n :: n in q ==> n in Get(s.queue, a) && q[n] == Get(s.queue, a)[n]
    requires forall tx :: tx in s'.all <==> tx in s.all && !(Has(Get(s.queue, a), tx) && tx.nonce !in q)
    ensures AccountSheds(s, s', a)
  {
    var was := s.View(a);
    forall tx: Tx | tx.sender == a ensures ShedAt(was, s.all, s'.View(a), s'.all, tx) {
      assert was.q == Get(s.queue, a) && (tx.nonce in was.p ==> tx.nonce !in was.q);
    }
  }

  // ---------------------------------------------------------------- small steps

  /** `delete(pool.all, hash); pool.priced.Removed()` */
  method Forget(s: State, priced: PricedList, tx: Tx) returns (s': State)
    requires priced.Valid()
    modifies priced
    ensures s' == s.(all := s.all - {tx}) && priced.Valid()
    ensures forall t :: t in s'.all && t in old(priced.items) ==> t in priced.items
  {
    s' := s.(all := s.all - {tx});
    priced.Removed(s'.all);
  }

  /** Forgets a whole batch, in whatever order the map or slice yields it. */
  method ForgetAll(s: State, priced: PricedList, txs: set<Tx>) returns (s': State)
    requires priced.Valid()
    modifies priced
    ensures s' == s.(all := s.all - txs) && priced.Valid()
    ensures forall t :: t in s'.all && t in old(priced.items) ==> t in priced.items
  {
    s' := s;
    var todo := txs;
    while todo != {}
      invariant todo <= txs && s' == s.(all := s.all - (txs - todo)) && priced.Valid()
      invariant forall t :: t in s'.all && t in old(priced.items) ==> t in priced.items
      decreases todo
    {
      var tx :| tx in todo;
      s' := Forget(s', priced, tx);
      todo := todo - {tx};
    }
  }

  /** `enqueueTx`: into the future queue, replacing a cheaper transaction at the same nonce. */
  method EnqueueTx(s: State, priced: PricedList, tx: Tx) returns (s': State, ok: bool, replaced: bool)
    requires priced.Valid()
    modifies priced
    ensures var q, n := Get(s.queue, tx.sender), tx.nonce;
      if n in q && BumpThreshold(q[n].price, s.config.priceBump) >= tx.price
      then !ok && !replaced && s' == s
      else ok && replaced == (n in q) && tx in priced.items &&
           s' == s.(queue := s.queue[tx.sender := q[n := tx]], all := s.all - (if n in q then {q[n]} else {}) + {tx})
    ensures priced.Valid() && forall t :: t in s'.all && t in old(priced.items) ==> t in priced.items
  {
    s' := s;
    var q, n := Get(s.queue, tx.sender), tx.nonce;
    if n in q && BumpThreshold(q[n].price, s.config.priceBump) >= tx.price {
      return s, false, false;
    }
    s' := s.(queue := s.queue[tx.sender := q[n := tx]]);
    if n in q {
      s' := Forget(s', priced, q[n]);
    }
    s' := s'.(all := s'.all + {tx});
    priced.Put(tx);
    return s', true, n in q;
  }

  /** Moves a batch of one account back to its queue, where none of its nonces is taken. */
  method EnqueueItems(s: State, priced: PricedList, a: Address, m: Items) returns (s': State)
    requires priced.Valid()
    requires Owned(m, a, s.all) && m.Keys !! Get(s.queue, a).Keys
    modifies priced
    ensures s' == s.(queue := s'.queue) && Get(s'.queue, a) == Get(s.queue, a) + m
    ensures forall b :: b != a ==> Get(s'.queue, b) == Get(s.queue, b)
    ensures priced.Valid() && forall t :: t in s'.all && t in old(priced.items) ==> t in priced.items
  {
    s' := s;
    var todo := m.Keys;
    ghost var q := Get(s.queue, a);
    while todo != {}
      invariant todo <= m.Keys && s' == s.(queue := s'.queue) && priced.Valid()
      invariant forall t :: t in s'.all && t in old(priced.items) ==> t in priced.items
      invariant Get(s'.queue, a).Keys == q.Keys + (m.Keys - todo)
      invariant forall n :: n in Get(s'.queue, a) ==> Get(s'.queue, a)[n] == if n in m then m[n] else q[n]
      invariant forall b :: b != a ==> Get(s'.queue, b) == Get(s.queue, b)
      decreases todo
    {
      var n :| n in todo;
      s' := EnqueueNew(s', priced, a, m[n]);
      todo := todo - {n};
    }
  }

  /** `enqueueTx` of a known transaction at a nonce that is free in its queue. */
  method EnqueueNew(s: State, priced: PricedList, a: Address, tx: Tx) returns (s': State)
    requires priced.Valid() && tx.sender == a && tx in s.all && tx.nonce !in Get(s.queue, a)
    modifies priced
    ensures s' == s.(queue := s'.queue) && Get(s'.queue, a) == Get(s.queue, a)[tx.nonce := tx]
    ensures forall b :: b != a ==> Get(s'.queue, b) == Get(s.queue, b)
    ensures priced.Valid() && forall t :: t in s'.all && t in old(priced.items) ==> t in priced.items
  {
    var ok, replaced;
    s', ok, replaced := EnqueueTx(s, priced, tx);
    assert s'.all == s.all;
  }

  /** The branch of `removeTx` for an executable transaction. */
  method RemovePending(s: State, priced: PricedList, tx: Tx) returns (s': State)
    requires priced.Valid() && tx.nonce in Get(s.pending, tx.sender)
    requires Owned(AtLeast(Get(s.pending, tx.sender), tx.nonce + 1), tx.sender, s.all - {tx})
    requires Get(s.pending, tx.sender).Keys !! Get(s.queue, tx.sender).Keys
    modifies priced
    ensures priced.Valid() && forall t :: t in s'.all && t in old(priced.items) ==> t in priced.items
    ensures s'.all == s.all - {tx} && OnlyAccount(s, s', tx.sender)
    ensures s'.View(tx.sender) == RemoveFrom(s.View(tx.sender), tx.nonce)
  {
    var a, n := tx.sender, tx.nonce;
    var p, q := Get(s.pending, a), Get(s.queue, a);
    s' := Forget(s, priced, tx);
    var rest := Below(p, n);
    s' := s'.(pending := PutList(s.pending, a, rest));
    if rest != map[] {
      s' := EnqueueItems(s', priced, a, AtLeast(p, n + 1));
    }
    if s'.Virtual(a) > n {
      s' := s'.(virt := s.virt[a := n]);
    }
    ghost var queued := if rest == map[] then q else q + AtLeast(p, n + 1);
    ghost var v := if s.Virtual(a) > n then n else s.Virtual(a);
    assert RemoveFrom(Account(p, q, s.Virtual(a)), n) == Account(rest, queued, v);
    assert Get(s'.pending, a) == rest;
    assert Get(s'.queue, a) == queued;
    assert s'.Virtual(a) == v;
  }

  /** The branch of `removeTx` for a queued transaction. */
  method RemoveQueued(s: State, priced: PricedList, tx: Tx) returns (s': State)
    requires priced.Valid() && tx.nonce !in Get(s.pending, tx.sender)
    modifies priced
    ensures priced.Valid() && forall t :: t in s'.all && t in old(priced.items) ==> t in priced.items
    ensures s' == s.(all := s.all - {tx}, queue := s'.queue) && OnlyAccount(s, s', tx.sender)
    ensures s'.View(tx.sender) == RemoveFrom(s.View(tx.sender), tx.nonce)
    ensures tx.sender in s.queue ==> s'.queue == PutList(s.queue, tx.sender, RemoveKey(s.queue[tx.sender], tx.nonce))
  {
    var a := tx.sender;
    s' := Forget(s, priced, tx);
    if a in s.queue {
      s' := s'.(queue := PutList(s.queue, a, RemoveKey(s.queue[a], tx.nonce)));
    }
    QueuedRemoved(s, s', a, tx);
  }

  lemma QueuedRemoved(s: State, s': State, a: Address, tx: Tx)
    requires a == tx.sender && tx.nonce !in Get(s.pending, a) && s' == s.(all := s'.all, queue := s'.queue)
    requires s'.queue == if a in s.queue then PutList(s.queue, a, RemoveKey(s.queue[a], tx.nonce)) else s.queue
    ensures OnlyAccount(s, s', a) && s'.View(a) == RemoveFrom(s.View(a), tx.nonce)
  {
    var left := RemoveKey(Get(s.queue, a), tx.nonce);
    assert Get(s'.queue, a) == left;
    assert s'.View(a) == Account(Get(s.pending, a), left, s.Virtual(a));
  }

  /** `removeTx`: drop one transaction; executable ones above it fall back to the queue. */
  method RemoveTx(s: State, priced: PricedList, tx: Tx) returns (s': State)
    requires priced.Valid() && s.Ok(tx.sender)
    modifies priced
    ensures priced.Valid() && forall t :: t in s'.all && t in old(priced.items) ==> t in priced.items
    ensures s'.all == s.all - {tx} && OnlyAccount(s, s', tx.sender)
    ensures s'.View(tx.sender) == if tx in s.all then RemoveFrom(s.View(tx.sender), tx.nonce) else s.View(tx.sender)
    ensures tx.nonce !in Get(s.pending, tx.sender) ==> s'.pending == s.pending && s'.virt == s.virt
    ensures tx in s.all && tx.nonce !in Get(s.pending, tx.sender) && tx.sender in s.queue ==>
      s'.queue == PutList(s.queue, tx.sender, RemoveKey(s.queue[tx.sender], tx.nonce))
  {
    if tx !in s.all {
      return s;
    }
    if tx.nonce in Get(s.pending, tx.sender) {
      AboveIsFree(tx.sender, s.View(tx.sender), s.head.Nonce(tx.sender), s.all, tx);
      s' := RemovePending(s, priced, tx);
    } else {
      s' := RemoveQueued(s, priced, tx);
    }
  }

  /** What lies above an executable nonce belongs to the account and is not queued. */
  lemma AboveIsFree(a: Address, s: Account, lo: nat, all: set<Tx>, tx: Tx)
    requires AccountOk(a, s, lo, all) && tx.nonce in s.p
    ensures Owned(AtLeast(s.p, tx.nonce + 1), a, all - {tx}) && s.p.Keys !! s.q.Keys
  {
  }

  // ---------------------------------------------------------------- keeping the invariant

  /** Cutting an executable window at a nonce leaves a window; what lay above it fits the queue. */
  lemma CutWindow(a: Address, s: Account, lo: nat, all: set<Tx>, tx: Tx)
    requires AccountOk(a, s, lo, all) && tx.nonce in s.p
    ensures AccountOk(a, Account(Below(s.p, tx.nonce), s.q + AtLeast(s.p, tx.nonce + 1), tx.nonce), lo, all - {tx})
    ensures AccountOk(a, Account(Below(s.p, tx.nonce), s.q, tx.nonce), lo, all - {tx})
  {
  }

  lemma CutQueue(a: Address, s: Account, lo: nat, all: set<Tx>, tx: Tx)
    requires AccountOk(a, s, lo, all) && tx.nonce !in s.p && tx.sender == a
    ensures AccountOk(a, s.(q := RemoveKey(s.q, tx.nonce)), lo, all - {tx})
  {
  }

  /** Removing one known transaction keeps its account's window. */
  lemma RemoveKeepsOk(a: Address, s: Account, lo: nat, all: set<Tx>, tx: Tx)
    requires AccountOk(a, s, lo, all) && tx.sender == a
    ensures AccountOk(a, RemoveFrom(s, tx.nonce), lo, all - {tx})
  {
    if tx.nonce in s.p {
      CutWindow(a, s, lo, all, tx);
      assert s.v > tx.nonce;
    } else {
      CutQueue(a, s, lo, all, tx);
    }
  }

  lemma OthersOk(s: State, s': State, a: Address)
    requires (forall b :: b != a ==> s.Ok(b)) && OnlyAccount(s, s', a)
    requires forall tx :: tx in s.all && tx.sender != a ==> tx in s'.all
    ensures forall b :: b != a ==> s'.Ok(b)
  {
    forall b | b != a ensures s'.Ok(b) {
      assert s.Ok(b) && s'.View(b) == s.View(b);
    }
  }

  lemma RemoveTxKeepsAll(s: State, s': State, tx: Tx)
    requires s.AllOk() && s'.all == s.all - {tx} && OnlyAccount(s, s', tx.sender)
    requires s'.View(tx.sender) == if tx in s.all then RemoveFrom(s.View(tx.sender), tx.nonce) else s.View(tx.sender)
    ensures s'.AllOk()
  {
    var a := tx.sender;
    assert s.Ok(a);
    if tx in s.all {
      RemoveKeepsOk(a, s.View(a), s.head.Nonce(a), s.all, tx);
    } else {
      assert s'.all == s.all;
    }
    OthersOk(s, s', a);
  }

  lemma ViewSettled(s: State, s': State, a: Address)
    requires s'.View(a) == s.View(a) && s.Settled(a)
    ensures s'.Settled(a)
  {
    assert Get(s'.queue, a) == s'.View(a).q == s.View(a).q && s'.Virtual(a) == s'.View(a).v == s.View(a).v;
  }

  lemma RemoveTxKeepsSettled(s: State, s': State, tx: Tx)
    requires s.Ok(tx.sender) && OnlyAccount(s, s', tx.sender)
    requires s'.View(tx.sender) == if tx in s.all then RemoveFrom(s.View(tx.sender), tx.nonce) else s.View(tx.sender)
    ensures KeepsSettled(s, s')
  {
    forall a | s.Settled(a) ensures s'.Settled(a) {
      if a != tx.sender || tx !in s.all {
        ViewSettled(s, s', a);
      } else {
        RemovedSettled(a, s.View(a), s.head.Nonce(a), s.all, tx.nonce);
        assert s'.View(a).q == Get(s'.queue, a) && s'.View(a).v == s'.Virtual(a);
        assert s.View(a).q == Get(s.queue, a) && s.View(a).v == s.Virtual(a);
      }
    }
  }

  lemma RemovedSettled(a: Address, s: Account, lo: nat, all: set<Tx>, n: nat)
    requires AccountOk(a, s, lo, all) && forall k :: k in s.q ==> k > s.v
    ensures forall k :: k in RemoveFrom(s, n).q ==> k > RemoveFrom(s, n).v
  {
  }

  /** Dropping part of a queue, and exactly its transactions, leaves both lists owned. */
  lemma QueueShrinks(a: Address, s: Account, q': Items, lo: nat, all: set<Tx>, all': set<Tx>)
    requires AccountStale(a, s, lo, all)
    requires forall n :: n in q' ==> n in s.q && q'[n] == s.q[n]
    requires forall tx :: tx in all && tx !in all' ==> tx.sender == a && tx.nonce in s.q && tx.nonce !in q'
    ensures AccountStale(a, s.(q := q'), lo, all')
    ensures (forall n :: n in q' ==> n >= lo) ==> AccountOk(a, s.(q := q'), lo, all')
  {
  }

  // ---------------------------------------------------------------- promotion

  /** What the first part of `promoteExecutables` leaves of one queue. */
  function Cleaned(head: Head, a: Address, q: Items): Items {
    Kept(Kept(AtLeast(q, head.Nonce(a)), TooCostly(head.Balance(a), head.maxGas)), InvalidPrivacy(head.privacyValid))
  }

  /** What is left of a queue: nonces still to come, payable normal and valid privacy transactions. */
  lemma CleanedIff(head: Head, a: Address, q: Items, n: nat)
    ensures n in Cleaned(head, a, q) <==>
      && n in q && n >= head.Nonce(a)
      && if q[n].normal then q[n].cost <= head.Balance(a) && q[n].gas <= head.maxGas else q[n] in head.privacyValid
    ensures n in Cleaned(head, a, q) ==> Cleaned(head, a, q)[n] == q[n]
  {
  }

  method ForgetCleaned(s: State, priced: PricedList, passed: Items, drops: Items, privacy: Items) returns (s': State)
    requires priced.Valid()
    modifies priced
    ensures s' == s.(all := s.all - passed.Values - drops.Values - privacy.Values) && priced.Valid()
    ensures forall t :: t in s'.all && t in old(priced.items) ==> t in priced.items
  {
    s' := ForgetAll(s, priced, passed.Values);
    s' := ForgetAll(s', priced, drops.Values);
    s' := ForgetAll(s', priced, privacy.Values);
  }

  /** Drops outdated, unpayable and invalid privacy transactions from one queue. */
  method CleanQueue(s: State, priced: PricedList, a: Address) returns (s': State)
    requires priced.Valid() && a in s.queue && s.Stale(a)
    modifies priced
    ensures priced.Valid() && forall t :: t in s'.all && t in old(priced.items) ==> t in priced.items
    ensures OnlyAccount(s, s', a) && s'.pending == s.pending && a in s'.queue
    ensures s'.View(a) == s.View(a).(q := Cleaned(s.head, a, Get(s.queue, a))) && s'.Ok(a)
    ensures s'.all <= s.all && AccountSheds(s, s', a) && forall tx :: tx in s.all && tx.sender != a ==> tx in s'.all
  {
    var q0 := s.queue[a];
    var costly, invalid := TooCostly(s.head.Balance(a), s.head.maxGas), InvalidPrivacy(s.head.privacyValid);
    var q1 := AtLeast(q0, s.head.Nonce(a));
    var q2 := Kept(q1, costly);
    var q3 := Kept(q2, invalid);
    var passed, drops, privacy := Below(q0, s.head.Nonce(a)), Dropped(q1, costly), Dropped(q2, invalid);
    s' := ForgetCleaned(s, priced, passed, drops, privacy);
    s' := s'.(queue := s.queue[a := q3]);
    assert Cleaned(s.head, a, q0) == q3;
    assert s'.View(a) == s.View(a).(q := q3);
    CleanedAway(a, q0, passed, drops, privacy, q3, s.all, s'.all);
    QueueShrinks(a, s.View(a), q3, s.head.Nonce(a), s.all, s'.all);
    QueueSheds(s, s', a, q3);
  }

  /** What is forgotten is what the queue has lost. */
  lemma CleanedAway(a: Address, q0: Items, passed: Items, drops: Items, privacy: Items, q3: Items, all: set<Tx>,
                    all': set<Tx>)
    requires Owned(q0, a, all) && all' == all - passed.Values - drops.Values - privacy.Values
    requires forall n :: n in passed ==> n in q0 && passed[n] == q0[n] && n !in q3
    requires forall n :: n in drops ==> n in q0 && drops[n] == q0[n] && n !in q3
    requires forall n :: n in privacy ==> n in q0 && privacy[n] == q0[n] && n !in q3
    requires forall n :: n in q0 && n !in q3 ==> n in passed || n in drops || n in privacy
    ensures forall tx :: tx in all' <==> tx in all && !(Has(q0, tx) && tx.nonce !in q3)
    ensures forall tx :: tx in all && tx !in all' ==> tx.sender == a && tx.nonce in q0 && tx.nonce !in q3
  {
    forall tx | tx in all ensures tx in all' <==> !(Has(q0, tx) && tx.nonce !in q3) {
      if Has(q0, tx) && tx.nonce !in q3 {
        var n := tx.nonce;
        assert tx == q0[n];
        assert n in passed ==> passed[n] in passed.Values;
        assert n in drops ==> drops[n] in drops.Values;
        assert n in privacy ==> privacy[n] in privacy.Values;
      } else {
        NotAmong(tx, passed, q0, a, all);
        NotAmong(tx, drops, q0, a, all);
        NotAmong(tx, privacy, q0, a, all);
      }
    }
  }

  lemma NotAmong(tx: Tx, part: Items, q: Items, a: Address, all: set<Tx>)
    requires Owned(q, a, all) && (forall n :: n in part ==> n in q && part[n] == q[n])
    requires tx.nonce in part ==> !Has(q, tx)
    ensures tx !in part.Values
  {
  }

  /** `promoteTx`: into the executable list, raising the virtual nonce. */
  method PromoteTx(s: State, priced: PricedList, a: Address, tx: Tx) returns (s': State)
    requires priced.Valid()
    modifies priced
    ensures priced.Valid() && forall t :: t in s'.all && t in old(priced.items) ==> t in priced.items
    ensures var p, n := Get(s.pending, a), tx.nonce;
      if n in p && BumpThreshold(p[n].price, s.config.priceBump) >= tx.price
      then s' == s.(all := s.all - {tx})
      else s' == s.(pending := s.pending[a := p[n := tx]], virt := s.virt[a := n + 1],
                    all := s.all - (if n in p then {p[n]} else {}) + {tx}) &&
           (tx in old(priced.items) || tx !in s.all ==> tx in priced.items)
  {
    var p, n := Get(s.pending, a), tx.nonce;
    if n in p && BumpThreshold(p[n].price, s.config.priceBump) >= tx.price {
      s' := Forget(s, priced, tx);
      return;
    }
    s' := s.(pending := s.pending[a := p[n := tx]]);
    if n in p {
      s' := Forget(s', priced, p[n]);
    }
    if tx !in s'.all {
      s' := s'.(all := s'.all + {tx});
      priced.Put(tx);
    }
    s' := s'.(virt := s'.virt[a := n + 1]);
  }

  function AddRun(p: Items, run: seq<Tx>): Items {
    if run == [] then p
    else AddRun(p, run[..|run| - 1])[run[|run| - 1].nonce := run[|run| - 1]]
  }

  lemma {:induction false} AddRunContents(p: Items, q: Items, v: nat, run: seq<Tx>)
    requires Keyed(q) && RunFrom(q, v, run)
    ensures forall n :: n in AddRun(p, run) <==> n in p || v <= n < v + |run|
    ensures forall n :: n in AddRun(p, run) ==> AddRun(p, run)[n] == if v <= n < v + |run| then q[n] else p[n]
  {
    if run != [] {
      var last := |run| - 1;
      AddRunContents(p, q, v, run[..last]);
      assert q[v + last] == run[last];
    }
  }

  /** Promotes the transaction at the virtual nonce. */
  method PromoteInTurn(s: State, priced: PricedList, a: Address, tx: Tx) returns (s': State)
    requires priced.Valid() && priced.Covers(s.all) && tx in s.all && tx.nonce == s.Virtual(a)
    requires tx.nonce !in Get(s.pending, a)
    modifies priced
    ensures priced.Valid() && priced.Covers(s'.all)
    ensures s'.all == s.all && s'.queue == s.queue && OnlyAccount(s, s', a)
    ensures Get(s'.pending, a) == Get(s.pending, a)[tx.nonce := tx] && s'.Virtual(a) == tx.nonce + 1
  {
    s' := PromoteTx(s, priced, a, tx);
    assert s'.all == s.all;
  }

  /** Promotes a run of consecutive transactions starting at the virtual nonce. */
  method PromoteRun(s: State, priced: PricedList, a: Address, run: seq<Tx>, ghost q: Items) returns (s': State)
    requires priced.Valid() && priced.Covers(s.all)
    requires Keyed(q) && RunFrom(q, s.Virtual(a), run) && (forall i :: 0 <= i < |run| ==> run[i] in s.all)
    requires forall n :: n in Get(s.pending, a) ==> n < s.Virtual(a)
    modifies priced
    ensures priced.Valid() && priced.Covers(s'.all)
    ensures s'.all == s.all && s'.queue == s.queue && OnlyAccount(s, s', a)
    ensures s'.View(a) == Account(AddRun(Get(s.pending, a), run), Get(s.queue, a), s.Virtual(a) + |run|)
  {
    s' := s;
    var i := 0;
    while i < |run|
      invariant 0 <= i <= |run| && priced.Valid() && priced.Covers(s'.all)
      invariant s'.all == s.all && s'.queue == s.queue && OnlyAccount(s, s', a)
      invariant Get(s'.pending, a) == AddRun(Get(s.pending, a), run[..i]) && s'.Virtual(a) == s.Virtual(a) + i
    {
      ghost var v := s.Virtual(a);
      AddRunContents(Get(s.pending, a), q, v, run[..i]);
      assert q[v + i] == run[i];
      assert run[..i + 1][..i] == run[..i];
      s' := PromoteInTurn(s', priced, a, run[i]);
      i := i + 1;
    }
    assert run[..i] == run;
  }

  /** `Ready` on a queue: the run at the front if it starts no later than `start`. */
  method TakeReady(m: Items, start: nat) returns (ready: seq<Tx>, rest: Items)
    requires Keyed(m)
    ensures (forall n :: n in m ==> n > start) ==> ready == [] && rest == m
    ensures (exists n :: n in m && n <= start) ==>
      LeadingRun(m, ready) && ready != [] && rest == AtLeast(m, ready[0].nonce + |ready|)
  {
    var index := IndexOf(m);
    IndexFacts(index, m.Keys);
    if |index| == 0 || index[0] > start {
      return [], m;
    }
    index, rest, ready := PopRun(index, m);
  }

  /** `Cap` on a list. */
  method CapItems(m: Items, k: nat) returns (kept: Items)
    requires Keyed(m)
    ensures KeepsLowest(m, kept, k)
  {
    if |m| <= k {
      return m;
    }
    var index := IndexOf(m);
    var sorted := Heaps.Sort(index, NONCE_KEY);
    var drops;
    kept, drops := DropHighest(sorted, m, k);
  }

  /** With queued nonces at or above the virtual nonce, what is ready starts exactly there. */
  lemma ReadyFits(a: Address, s: Account, lo: nat, all: set<Tx>, ready: seq<Tx>, rest: Items)
    requires AccountOk(a, s, lo, all)
    requires (forall n :: n in s.q ==> n > s.v) ==> ready == [] && rest == s.q
    requires (exists n :: n in s.q && n <= s.v) ==>
      LeadingRun(s.q, ready) && ready != [] && rest == AtLeast(s.q, ready[0].nonce + |ready|)
    ensures RunFrom(s.q, s.v, ready) && (forall i :: 0 <= i < |ready| ==> ready[i] in all)
    ensures forall n :: n in rest <==> n in s.q && n >= s.v + |ready|
    ensures forall n :: n in rest ==> rest[n] == s.q[n]
    ensures forall n :: n in rest ==> n > s.v + |ready|
  {
    if exists n :: n in s.q && n <= s.v {
      var n :| n in s.q && n <= s.v;
      var first := ready[0].nonce;
      assert s.q[first + 0] == ready[0];
      assert first == s.v;
      forall i | 0 <= i < |ready| ensures ready[i] in all {
        assert s.q[first + i] == ready[i];
      }
    }
  }

  lemma {:induction false} PromoteKeepsOk(a: Address, s: Account, lo: nat, all: set<Tx>, ready: seq<Tx>, rest: Items)
    requires AccountOk(a, s, lo, all) && RunFrom(s.q, s.v, ready)
    requires forall n :: n in rest <==> n in s.q && n >= s.v + |ready|
    requires forall n :: n in rest ==> rest[n] == s.q[n]
    ensures AccountOk(a, Account(AddRun(s.p, ready), rest, s.v + |ready|), lo, all)
  {
    AddRunContents(s.p, s.q, s.v, ready);
  }

  /**
   * Account t is s after promoting from a queue q: the run of q from the virtual nonce on has become executable, as far
   * as it goes.
   */
  ghost predicate Advanced(s: Account, q: Items, t: Account) {
    && t.v >= s.v && t.v !in q && (forall n :: s.v <= n < t.v ==> n in q)
    && (forall n :: n in t.p <==> n in s.p || s.v <= n < t.v)
    && (forall n :: n in t.p ==> if n >= s.v then n in q && t.p[n] == q[n] else n in s.p && t.p[n] == s.p[n])
  }

  lemma {:induction false} RunAdvances(a: Address, s: Account, lo: nat, all: set<Tx>, ready: seq<Tx>, rest: Items)
    requires AccountOk(a, s, lo, all) && RunFrom(s.q, s.v, ready) && Keyed(s.q)
    requires forall n :: n in rest <==> n in s.q && n >= s.v + |ready|
    requires forall n :: n in rest ==> rest[n] == s.q[n] && n > s.v + |ready|
    ensures Advanced(s, s.q, Account(AddRun(s.p, ready), rest, s.v + |ready|)) && rest == AtLeast(s.q, s.v + |ready|)
  {
    AddRunContents(s.p, s.q, s.v, ready);
  }

  /** What promotion does to one account: clean the queue, advance, and cap what is left unless the account is local. */
  ghost predicate PromotedAs(head: Head, a: Address, cap: nat, local: bool, s: Account, t: Account) {
    var q := Cleaned(head, a, s.q);
    && Advanced(s, q, t)
    && if local then t.q == AtLeast(q, t.v) else KeepsLowest(AtLeast(q, t.v), t.q, cap)
  }

  ghost predicate PromotedTo(s: State, s': State, a: Address) {
    PromotedAs(s.head, a, s.config.accountQueue, a in s.locals, s.View(a), s'.View(a))
  }

  /** The second part: move what is ready to the executable list. */
  method PromoteReady(s: State, priced: PricedList, a: Address) returns (s': State)
    requires priced.Valid() && priced.Covers(s.all) && s.Ok(a) && a in s.queue
    modifies priced
    ensures priced.Valid() && priced.Covers(s'.all)
    ensures OnlyAccount(s, s', a) && s'.Ok(a) && s'.all == s.all
    ensures a in s'.queue && s'.Settled(a) && AccountSheds(s, s', a)
    ensures Advanced(s.View(a), Get(s.queue, a), s'.View(a))
    ensures Get(s'.queue, a) == AtLeast(Get(s.queue, a), s'.Virtual(a))
  {
    var ready, rest := TakeReady(s.queue[a], s.Virtual(a));
    ReadyFits(a, s.View(a), s.head.Nonce(a), s.all, ready, rest);
    s' := Promoted(s, priced, a, ready, rest);
    ReadyMoved(a, s, s', ready, rest);
    MovedSheds(s, s', a);
  }

  /** Moving a run from the queue to the executable list loses nothing. */
  lemma MovedSheds(s: State, s': State, a: Address)
    requires s.Ok(a) && s'.all == s.all && Advanced(s.View(a), Get(s.queue, a), s'.View(a))
    requires Get(s'.queue, a) == AtLeast(Get(s.queue, a), s'.Virtual(a))
    ensures AccountSheds(s, s', a)
  {
    var was, now := s.View(a), s'.View(a);
    assert was.q == Get(s.queue, a) && now.q == AtLeast(was.q, now.v);
    forall tx: Tx | tx.sender == a ensures ShedAt(was, s.all, now, s'.all, tx) {
      MovedListed(a, was, now, s.head.Nonce(a), s.all, tx);
    }
  }

  lemma MovedListed(a: Address, s: Account, t: Account, lo: nat, all: set<Tx>, tx: Tx)
    requires AccountOk(a, s, lo, all) && Advanced(s, s.q, t) && t.q == AtLeast(s.q, t.v)
    ensures Listed(s, tx) <==> Listed(t, tx)
  {
  }

  /** The account after its run was moved. */
  lemma {:induction false} ReadyMoved(a: Address, s: State, s': State, ready: seq<Tx>, rest: Items)
    requires s.Ok(a) && s'.head == s.head && s'.all == s.all
    requires RunFrom(Get(s.queue, a), s.Virtual(a), ready) && Keyed(Get(s.queue, a))
    requires forall n :: n in rest <==> n in Get(s.queue, a) && n >= s.Virtual(a) + |ready|
    requires forall n :: n in rest ==> rest[n] == Get(s.queue, a)[n] && n > s.Virtual(a) + |ready|
    requires s'.View(a) == Account(AddRun(Get(s.pending, a), ready), rest, s.Virtual(a) + |ready|)
    ensures s'.Ok(a) && s'.Settled(a)
    ensures Advanced(s.View(a), Get(s.queue, a), s'.View(a))
    ensures Get(s'.queue, a) == AtLeast(Get(s.queue, a), s'.Virtual(a))
  {
    var was := s.View(a);
    PromoteKeepsOk(a, was, s.head.Nonce(a), s.all, ready, rest);
    RunAdvances(a, was, s.head.Nonce(a), s.all, ready, rest);
    SettledView(s', a, AddRun(was.p, ready), rest, was.v + |ready|);
    assert Get(s'.queue, a) == s'.View(a).q && s'.Virtual(a) == s'.View(a).v;
  }

  lemma SettledView(s: State, a: Address, p: Items, q: Items, v: nat)
    requires s.View(a) == Account(p, q, v) && forall n :: n in q ==> n > v
    ensures s.Settled(a)
  {
  }

  method Promoted(s: State, priced: PricedList, a: Address, ready: seq<Tx>, rest: Items) returns (s': State)
    requires priced.Valid() && priced.Covers(s.all)
    requires Keyed(Get(s.queue, a)) && RunFrom(Get(s.queue, a), s.Virtual(a), ready)
    requires forall i :: 0 <= i < |ready| ==> ready[i] in s.all
    requires forall n :: n in Get(s.pending, a) ==> n < s.Virtual(a)
    modifies priced
    ensures priced.Valid() && priced.Covers(s'.all)
    ensures OnlyAccount(s, s', a) && s'.all == s.all && a in s'.queue
    ensures s'.View(a) == Account(AddRun(Get(s.pending, a), ready), rest, s.Virtual(a) + |ready|)
  {
    s' := s.(queue := s.queue[a := rest]);
    s' := PromoteRun(s', priced, a, ready, Get(s.queue, a));
  }

  /** The third part: cap the queue of a remote account and delete it when empty. */
  method CapQueue(s: State, priced: PricedList, a: Address) returns (s': State)
    requires priced.Valid() && priced.Covers(s.all) && s.Ok(a) && a in s.queue
    modifies priced
    ensures priced.Valid() && priced.Covers(s'.all) && s'.pending == s.pending && s'.virt == s.virt
    ensures OnlyAccount(s, s', a) && s'.Ok(a) && s'.all <= s.all
    ensures forall tx :: tx in s.all && tx.sender != a ==> tx in s'.all
    ensures if a in s.locals then Get(s'.queue, a) == Get(s.queue, a)
      else KeepsLowest(Get(s.queue, a), Get(s'.queue, a), s.config.accountQueue)
    ensures (s.Settled(a) ==> s'.Settled(a)) && AccountSheds(s, s', a)
  {
    s' := s;
    var kept := s.queue[a];
    if a !in s.locals {
      s', kept := CapList(s, priced, a);
    }
    s' := s'.(queue := PutList(s.queue, a, kept));
    QueueReplaced(s, s', a, kept);
  }

  method CapList(s: State, priced: PricedList, a: Address) returns (s': State, kept: Items)
    requires priced.Valid() && s.Ok(a) && a in s.queue
    modifies priced
    ensures priced.Valid() && forall t :: t in s'.all && t in old(priced.items) ==> t in priced.items
    ensures s' == s.(all := s'.all) && s'.all <= s.all && KeepsLowest(s.queue[a], kept, s.config.accountQueue)
    ensures forall tx :: tx in s'.all <==> tx in s.all && !(Has(s.queue[a], tx) && tx.nonce !in kept)
  {
    var q := s.queue[a];
    assert Owned(q, a, s.all) by { assert s.View(a).q == q; }
    kept := CapItems(q, s.config.accountQueue);
    var drops := map n | n in q && n !in kept :: q[n];
    s' := ForgetAll(s, priced, drops.Values);
    CleanedAway(a, q, drops, map[], map[], kept, s.all, s'.all);
  }

  /** The account after its queue shrank to the kept part. */
  lemma QueueReplaced(s: State, s': State, a: Address, kept: Items)
    requires s.Ok(a) && s' == s.(queue := PutList(s.queue, a, kept), all := s'.all)
    requires forall n :: n in kept ==> n in Get(s.queue, a) && kept[n] == Get(s.queue, a)[n]
    requires forall tx :: tx in s'.all <==> tx in s.all && !(Has(Get(s.queue, a), tx) && tx.nonce !in kept)
    ensures OnlyAccount(s, s', a) && s'.Ok(a) && (s.Settled(a) ==> s'.Settled(a)) && AccountSheds(s, s', a)
    ensures forall tx :: tx in s.all && tx.sender != a ==> tx in s'.all
  {
    assert s'.View(a) == s.View(a).(q := kept) && s.View(a).q == Get(s.queue, a);
    QueueShrinks(a, s.View(a), kept, s.head.Nonce(a), s.all, s'.all);
    QueueSheds(s, s', a, kept);
  }

  /** One round of the account loop of `promoteExecutables`. */
  method PromoteAccount(s: State, priced: PricedList, a: Address) returns (s': State)
    requires priced.Valid() && priced.Covers(s.all) && s.Stale(a)
    modifies priced
    ensures priced.Valid() && priced.Covers(s'.all)
    ensures OnlyAccount(s, s', a) && s'.Ok(a) && s'.Settled(a) && s'.all <= s.all
    ensures forall tx :: tx in s.all && tx.sender != a ==> tx in s'.all
    ensures PromotedTo(s, s', a) && (a !in s.queue ==> s' == s) && Sheds(s, s')
  {
    s' := s;
    if a in s.queue {
      var s1 := CleanQueue(s, priced, a);
      var s2 := PromoteReady(s1, priced, a);
      s' := CapQueue(s2, priced, a);
      Chained(s, s1, s2, s', a);
      AccountShedsTrans(s, s1, s2, a);
      AccountShedsTrans(s, s2, s', a);
    } else {
      NothingQueued(s, a);
    }
    ShedsOne(s, s', a);
  }

  lemma NothingQueued(s: State, a: Address)
    requires s.Stale(a) && a !in s.queue
    ensures PromotedTo(s, s, a)
  {
    assert Cleaned(s.head, a, map[]) == map[];
    assert s.View(a).q == map[];
  }

  lemma Chained(s: State, s1: State, s2: State, s': State, a: Address)
    requires s1.View(a) == s.View(a).(q := Cleaned(s.head, a, Get(s.queue, a)))
    requires s2.locals == s.locals && s2.config == s.config
    requires Advanced(s1.View(a), Get(s1.queue, a), s2.View(a))
    requires Get(s2.queue, a) == AtLeast(Get(s1.queue, a), s2.Virtual(a))
    requires s'.pending == s2.pending && s'.virt == s2.virt && s'.head == s2.head
    requires if a in s2.locals then Get(s'.queue, a) == Get(s2.queue, a)
      else KeepsLowest(Get(s2.queue, a), Get(s'.queue, a), s2.config.accountQueue)
    ensures PromotedTo(s, s', a)
  {
    assert Get(s1.queue, a) == s1.View(a).q == Cleaned(s.head, a, Get(s.queue, a));
    assert s'.View(a).p == s2.View(a).p && s'.View(a).v == s2.View(a).v == s2.Virtual(a) == s'.Virtual(a);
  }
}
