// core/tx_pool.go: the pool as an object, and what holds after every run of its operations.
module TxPoolRuns {
  import opened Powers
  import opened Sums
  import opened TxLists
  import opened TxPriced
  import opened TxPool
  import opened TxFairness
  import opened TxQueue
  import opened TxPoolOps

  class Pool {
    const priced: PricedList
    var s: State

    constructor (config: PoolConfig, gasPrice: nat, head: Head)
      ensures Valid() && fresh(priced) && s == State(config, gasPrice, head, map[], {}, map[], map[], {})
    {
      priced := new PricedList();
      s := State(config, gasPrice, head, map[], {}, map[], map[], {});
    }

    ghost predicate Valid()
      reads this, priced
    {
      Synced(s, priced) && s.AllOk() && forall a :: s.Settled(a)
    }

    /** `addTx`: a new transaction may make others of its account executable. */
    method AddTx(tx: Tx, local: bool) returns (err: Option<PoolError>, ghost w: Steps)
      requires Valid()
      modifies this, priced
      ensures Valid() && s.head == old(s.head) && s.config == old(s.config) && s.gasPrice == old(s.gasPrice)
      ensures tx in old(s.all) ==> err == Some(KnownTransaction)
      ensures tx !in old(s.all) && Validate(old(s), tx, local).Some? ==> err == Validate(old(s), tx, local)
      ensures tx !in old(s.all) && Validate(old(s), tx, local).None? ==>
        || err.None? || (err == Some(Underpriced) && Refused(old(s), tx))
        || (err == Some(ReplaceUnderpriced) && Outbid(s, tx))
      ensures AddsOne(old(s), s, tx, local, err, w)
      ensures err.None? && Roomy(old(s), tx, local) ==>
        && tx in s.all && Listed(s.View(tx.sender), tx)
        && (Has(Get(s.pending, tx.sender), tx) <==> tx.nonce <= old(s.Virtual(tx.sender)))
    {
      ghost var was := s;
      var replaced;
      ghost var room, drop;
      s, replaced, err, room, drop := Add(s, priced, tx, local);
      w := Steps(room, drop, s, replaced, s, s, 0);
      if err.None? && !replaced {
        ghost var promoted, cut, level := Promote({tx.sender});
        w := w.(promoted := promoted, cut := cut, level := level);
      }
      if err.None? && Roomy(was, tx, local) {
        AddedStays(was, s, tx, local, w);
      }
    }

    method Promote(accounts: set<Address>) returns (ghost promoted: State, ghost cut: State, ghost level: nat)
      requires Synced(s, priced) && s.AllOk() && forall a :: a !in accounts ==> s.Settled(a)
      modifies this, priced
      ensures Valid() && SameSettings(old(s), s) && Promotes(old(s), s, Some(accounts), promoted, cut, level)
    {
      forall a ensures s.Stale(a) && s.Ok(a) {
        assert s.Ok(a);
      }
      s, promoted, cut, level := PromoteExecutables(s, priced, Some(accounts));
    }

    /** `addTxsLocked`: promotion runs once, for the accounts that got something new. */
    method AddTxs(txs: seq<Tx>, local: bool) returns (ghost w: Batch)
      requires Valid()
      modifies this, priced
      ensures Valid() && s.head == old(s.head) && s.config == old(s.config) && s.gasPrice == old(s.gasPrice)
      ensures AddsMany(old(s), s, txs, local, w)
    {
      var dirty: set<Address> := {};
      w := Batch([s], [], s, s, 0);
      for i := 0 to |txs|
        invariant Synced(s, priced) && s.AllOk() && forall a :: a !in dirty ==> s.Settled(a)
        invariant s.head == old(s.head) && s.config == old(s.config) && s.gasPrice == old(s.gasPrice)
        invariant Batching(w, old(s), s, txs, local, i) && dirty == Dirty(w.inserts, txs, i)
      {
        dirty, w := AddNext(txs, local, i, dirty, w, old(s));
      }
      if dirty != {} {
        ghost var promoted, cut, level := Promote(dirty);
        w := w.(promoted := promoted, cut := cut, level := level);
      }
    }

    /** Transaction i of a batch. */
    method AddNext(txs: seq<Tx>, local: bool, i: nat, dirty: set<Address>, ghost w: Batch, ghost s0: State)
      returns (dirty': set<Address>, ghost w': Batch)
      requires Synced(s, priced) && s.AllOk() && forall a :: a !in dirty ==> s.Settled(a)
      requires i < |txs| && Batching(w, s0, s, txs, local, i) && dirty == Dirty(w.inserts, txs, i)
      modifies this, priced
      ensures Synced(s, priced) && s.AllOk() && forall a :: a !in dirty' ==> s.Settled(a)
      ensures s.head == old(s.head) && s.config == old(s.config) && s.gasPrice == old(s.gasPrice)
      ensures Batching(w', s0, s, txs, local, i + 1) && dirty' == Dirty(w'.inserts, txs, i + 1)
    {
      var replaced, err;
      ghost var room, drop;
      ghost var was := s;
      s, replaced, err, room, drop := Add(s, priced, txs[i], local);
      w' := MoreInserts(w, s0, was, s, Insert(room, drop, replaced, err), txs, local, i);
      dirty' := if err.None? && !replaced then dirty + {txs[i].sender} else dirty;
    }

    /** `SetGasPrice`: afterwards no remote transaction below the price is left. */
    method SetGasPrice(price: nat) returns (ghost drop: seq<Tx>)
      requires Valid()
      modifies this, priced
      ensures Valid() && s.gasPrice == price && s.head == old(s.head) && s.config == old(s.config)
      ensures forall tx :: tx in s.all <==> tx in old(s.all) && (tx.sender in old(s.locals) || tx.price >= price)
      ensures Reprices(old(s), s, price, drop)
    {
      ghost var was := s;
      s := s.(gasPrice := price);
      forall a ensures s.Ok(a) && s.Settled(a) {
        assert was.Ok(a) && was.Settled(a) && s.View(a) == was.View(a);
      }
      var cheap := priced.Cap(s.all, price, s.locals);
      s := RemoveDropped(s, priced, cheap);
      drop := cheap;
    }

    /** One tick of the eviction loop for an account whose last heartbeat is too old. */
    method Evict(a: Address)
      requires Valid()
      modifies this, priced
      ensures Valid() && s == old(s).(queue := s.queue, all := s.all)
      ensures if a in s.locals then s == old(s) else Get(s.queue, a) == map[]
      ensures forall b :: b != a ==> SameQueue(old(s), s, b)
      ensures Expires(old(s), s, a)
    {
      if a in s.queue && a !in s.locals {
        ghost var was := s;
        assert s.Ok(a);
        var txs := SortValues(s.queue[a]);
        s := RemoveAll(s, priced, a, txs);
        TopTaken(was.queue[a], Get(s.queue, a), txs, txs);
        AllTaken(was.queue[a], Get(s.queue, a), txs);
        CutKeepsSettled(was, s, {a});
      } else {
        ShedsNothing(s);
      }
    }

    /** A new chain head without reinjection. */
    method NewHead(head: Head) returns (ghost demoted: State, ghost promoted: State, ghost cut: State, ghost level: nat)
      requires Valid()
      modifies this, priced
      ensures Valid() && s.head == head && s.config == old(s.config)
      ensures Moves(old(s), s, head, demoted, promoted, cut, level)
    {
      s, demoted, promoted, cut, level := Reset(s, priced, head);
    }

    method Apply(op: Operation) returns (ghost w: Witness)
      requires Valid()
      modifies this, priced
      ensures Valid() && s.config == old(s.config) && Happens(old(s), s, op, w)
    {
      match op {
        case AddOne(tx, local) =>
          var err;
          ghost var steps;
          err, steps := AddTx(tx, local && !s.config.noLocals);
          w := One(err, steps);
        case AddMany(txs, local) =>
          ghost var batch := AddTxs(txs, local && !s.config.noLocals);
          w := Many(batch);
        case PriceChange(price) =>
          ghost var drop := SetGasPrice(price);
          w := Drops(drop);
        case Expire(a) =>
          Evict(a);
          w := Nothing;
        case HeadChange(head) =>
          ghost var demoted, promoted, cut, level := NewHead(head);
          w := Moved(demoted, promoted, cut, level);
      }
    }
  }

  // ---------------------------------------------------------------- what an operation does

  /** The states `addTx` goes through: with room made, with the transaction added, promoted and cut. */
  datatype Steps = Steps(room: State, drop: seq<Tx>, added: State, replaced: bool, promoted: State, cut: State,
                         level: nat)

  ghost predicate AddsOne(s: State, s': State, tx: Tx, local: bool, err: Option<PoolError>, w: Steps) {
    && Added(s, w.added, tx, local, w.replaced, err, w.room, w.drop)
    && if err.None? && !w.replaced then Promotes(w.added, s', Some({tx.sender}), w.promoted, w.cut, w.level)
       else s' == w.added
  }

  /** What `add` did with one transaction of a batch. */
  datatype Insert = Insert(room: State, drop: seq<Tx>, replaced: bool, err: Option<PoolError>)

  /** The states before and after each `add` of a batch, and those of the promotion behind them. */
  datatype Batch = Batch(states: seq<State>, inserts: seq<Insert>, promoted: State, cut: State, level: nat)

  ghost predicate InsertsEach(states: seq<State>, inserts: seq<Insert>, txs: seq<Tx>, local: bool, n: nat) {
    && n < |states| && n <= |inserts| && n <= |txs|
    && (n > 0 ==>
        && InsertsEach(states, inserts, txs, local, n - 1)
        && Inserted(states[n - 1], states[n], txs[n - 1], local, inserts[n - 1]))
  }

  lemma {:induction false} SameInserts(states: seq<State>, s': State, inserts: seq<Insert>, more: Insert, txs: seq<Tx>,
                                       local: bool, n: nat)
    requires InsertsEach(states, inserts, txs, local, n)
    ensures InsertsEach(states + [s'], inserts + [more], txs, local, n)
  {
    if n > 0 {
      SameInserts(states, s', inserts, more, txs, local, n - 1);
      assert (states + [s'])[n - 1] == states[n - 1] && (states + [s'])[n] == states[n];
      assert (inserts + [more])[n - 1] == inserts[n - 1];
    }
  }

  ghost predicate Inserted(s: State, s': State, tx: Tx, local: bool, w: Insert) {
    Added(s, s', tx, local, w.replaced, w.err, w.room, w.drop)
  }

  /** The accounts that got something new. */
  ghost function Dirty(inserts: seq<Insert>, txs: seq<Tx>, n: nat): set<Address>
    requires n <= |inserts| && n <= |txs|
  {
    if n == 0 then {}
    else
      var insert := inserts[n - 1];
      Dirty(inserts, txs, n - 1) + if insert.err.None? && !insert.replaced then {txs[n - 1].sender} else {}
  }

  ghost predicate AddsMany(s: State, s': State, txs: seq<Tx>, local: bool, w: Batch) {
    && |w.states| == |txs| + 1 && Batching(w, s, w.states[|txs|], txs, local, |txs|)
    && var dirty := Dirty(w.inserts, txs, |txs|);
      if dirty == {} then s' == w.states[|txs|]
      else Promotes(w.states[|txs|], s', Some(dirty), w.promoted, w.cut, w.level)
  }

  /** The first i transactions of a batch have been tried, which led from s to s'. */
  ghost predicate Batching(w: Batch, s: State, s': State, txs: seq<Tx>, local: bool, i: nat) {
    && |w.states| == i + 1 && |w.inserts| == i && w.states[0] == s && w.states[i] == s'
    && InsertsEach(w.states, w.inserts, txs, local, i)
  }

  lemma MoreInserts(w: Batch, s: State, t: State, s': State, more: Insert, txs: seq<Tx>, local: bool, i: nat)
    returns (w': Batch)
    requires i < |txs| && Batching(w, s, t, txs, local, i) && Inserted(t, s', txs[i], local, more)
    ensures Batching(w', s, s', txs, local, i + 1)
    ensures Dirty(w'.inserts, txs, i + 1) ==
      Dirty(w.inserts, txs, i) + if more.err.None? && !more.replaced then {txs[i].sender} else {}
  {
    w' := w.(states := w.states + [s'], inserts := w.inserts + [more]);
    SameDirty(w.inserts, more, txs, i);
    SameInserts(w.states, s', w.inserts, more, txs, local, i);
    assert w'.states[i] == t && w'.states[i + 1] == s' && w'.inserts[i] == more;
  }

  lemma {:induction false} SameDirty(inserts: seq<Insert>, more: Insert, txs: seq<Tx>, n: nat)
    requires n <= |inserts| && n <= |txs|
    ensures Dirty(inserts + [more], txs, n) == Dirty(inserts, txs, n)
  {
    if n > 0 {
      SameDirty(inserts, more, txs, n - 1);
    }
  }

  /** The remote transactions below the price are removed one after another, and nothing else. */
  ghost predicate Reprices(s: State, s': State, price: nat, drop: seq<Tx>) {
    && RemovedInTurn(s.(gasPrice := price), s', drop)
    && forall tx :: tx in drop <==> tx in s.all && tx.sender !in s.locals && tx.price < price
  }

  /** A remote account's queue is gone, with exactly its transactions. */
  ghost predicate Expires(s: State, s': State, a: Address) {
    && s' == s.(queue := s'.queue, all := s'.all) && Sheds(s, s') && (forall b :: b != a ==> SameQueue(s, s', b))
    && if a in s.locals then s' == s else Get(s'.queue, a) == map[]
  }

  lemma ShedsNothing(s: State)
    ensures Sheds(s, s)
  {
  }

  ghost predicate Moves(s: State, s': State, head: Head, demoted: State, promoted: State, cut: State,
                        level: nat) {
    && (forall a :: ResetAt(s, head, demoted, a))
    && (forall a :: PromotionAt(demoted, promoted, ToVisit(demoted, None), a))
    && Cut(promoted, cut, level, s') && Forgets(s, s')
  }

  datatype Witness =
    | One(err: Option<PoolError>, steps: Steps)
    | Many(batch: Batch)
    | Drops(drop: seq<Tx>)
    | Nothing
    | Moved(demoted: State, promoted: State, cut: State, level: nat)

  /** What an operation makes of the pool, with the states in between as witness. */
  ghost predicate Happens(s: State, s': State, op: Operation, w: Witness) {
    match op
    case AddOne(tx, local) => w.One? && AddsOne(s, s', tx, local && !s.config.noLocals, w.err, w.steps)
    case AddMany(txs, local) => w.Many? && AddsMany(s, s', txs, local && !s.config.noLocals, w.batch)
    case PriceChange(price) => w.Drops? && Reprices(s, s', price, w.drop)
    case Expire(a) => Expires(s, s', a)
    case HeadChange(head) => w.Moved? && Moves(s, s', head, w.demoted, w.promoted, w.cut, w.level)
  }

  // ---------------------------------------------------------------- an accepted transaction stays

  /** The pool is far from its limits, and so is the queue of the transaction's account. */
  predicate Roomy(s: State, tx: Tx, local: bool) {
    && |s.all| < s.config.globalSlots && |s.all| < s.config.globalQueue
    && (local || tx.sender in s.locals || |Get(s.queue, tx.sender)| < s.config.accountQueue)
  }

  lemma {:induction false} ValuesSize(m: Items)
    requires Keyed(m)
    ensures |m.Values| == |m|
    decreases |m|
  {
    if m != map[] {
      var n :| n in m;
      var less := RemoveKey(m, n);
      ValuesSize(less);
      forall tx ensures tx in m.Values <==> tx in less.Values || tx == m[n] {
        if tx in m.Values {
          var k :| k in m && m[k] == tx;
          assert k != n ==> k in less && less[k] == tx;
        }
      }
      assert m.Values == less.Values + {m[n]} && m[n] !in less.Values;
      assert less.Keys == m.Keys - {n};
    }
  }

  ghost function SentBy(all: set<Tx>, accounts: set<Address>): set<Tx> {
    set tx | tx in all && tx.sender in accounts
  }

  /** Lists hold no more transactions than the pool knows. */
  lemma {:induction false} TotalOver(m: Accounts, all: set<Tx>, accounts: set<Address>)
    requires accounts <= m.Keys && forall a :: a in accounts ==> Owned(m[a], a, all)
    ensures SumOver(accounts, Sizes(m)) <= |SentBy(all, accounts)|
    decreases accounts
  {
    if accounts != {} {
      var a: Address :| a in accounts;
      var rest := accounts - {a};
      SumRemove(accounts, Sizes(m), a);
      TotalOver(m, all, rest);
      ValuesSize(m[a]);
      var own := SentBy(all, {a});
      SubsetSize(m[a].Values, own);
      SentApart(all, accounts, a);
    }
  }

  lemma SentApart(all: set<Tx>, accounts: set<Address>, a: Address)
    requires a in accounts
    ensures |SentBy(all, accounts)| == |SentBy(all, accounts - {a})| + |SentBy(all, {a})|
  {
    var rest, own := SentBy(all, accounts - {a}), SentBy(all, {a});
    assert SentBy(all, accounts) == rest + own && rest !! own;
  }

  lemma {:induction false} SubsetSize<T>(a: set<T>, b: set<T>)
    requires a <= b
    ensures |a| <= |b|
  {
    assert b == a + (b - a);
  }

  lemma TotalBound(m: Accounts, all: set<Tx>)
    requires forall a :: a in m ==> Owned(m[a], a, all)
    ensures Total(m) <= |all|
  {
    assert Sizes(m).Keys == m.Keys;
    TotalOver(m, all, m.Keys);
    SubsetSize(SentBy(all, m.Keys), all);
  }

  /** Promotion of an account that just got a valid transaction. */
  lemma PromotedStays(head: Head, a: Address, cap: nat, local: bool, was: Account, s: Account, t: Account, tx: Tx)
    requires tx.sender == a && tx.nonce >= head.Nonce(a) && s == was.(q := was.q[tx.nonce := tx])
    requires tx.normal ==> tx.cost <= head.Balance(a) && tx.gas <= head.maxGas
    requires !tx.normal ==> tx in head.privacyValid
    requires tx.nonce !in was.p && tx.nonce !in was.q && tx.nonce >= was.v && forall n :: n in was.q ==> n > was.v
    requires PromotedAs(head, a, cap, local, s, t) && (local || |was.q| < cap)
    ensures Listed(t, tx) && (Has(t.p, tx) <==> tx.nonce <= was.v)
  {
    var q, n := Cleaned(head, a, s.q), tx.nonce;
    assert n in q && q[n] == tx && q.Keys <= was.q.Keys + {n};
    var rest := AtLeast(q, t.v);
    AdvancedOver(was, s, q, t, tx);
    if !local {
      SubsetSize(rest.Keys, was.q.Keys + {n});
      KeepsAll(rest, t.q, cap);
    }
  }

  lemma AdvancedOver(was: Account, s: Account, q: Items, t: Account, tx: Tx)
    requires Advanced(s, q, t) && s.p == was.p && s.v == was.v && Has(q, tx) && q.Keys <= was.q.Keys + {tx.nonce}
    requires tx.nonce !in was.p && tx.nonce >= was.v && forall n :: n in was.q ==> n > was.v
    ensures if tx.nonce <= was.v then Has(t.p, tx) else tx.nonce !in t.p && Has(AtLeast(q, t.v), tx)
  {
    if t.v > was.v {
      assert was.v in q;
    }
  }

  lemma KeepsAll(m: Items, m': Items, k: nat)
    requires KeepsLowest(m, m', k) && |m| <= k
    ensures m' == m
  {
    SubsetSameSize(m'.Keys, m.Keys);
  }

  /** In a roomy pool an accepted transaction is known and listed, and executable if the virtual nonce reaches it. */
  lemma AddedStays(s: State, s': State, tx: Tx, local: bool, w: Steps)
    requires s.AllOk() && s.Settled(tx.sender) && AddsOne(s, s', tx, local, None, w) && Roomy(s, tx, local)
    ensures tx in s'.all && Listed(s'.View(tx.sender), tx)
    ensures Has(Get(s'.pending, tx.sender), tx) <==> tx.nonce <= s.Virtual(tx.sender)
  {
    AddedPlaced(s, s', tx, local, w);
    if tx.nonce in Get(s.pending, tx.sender) || tx.nonce in Get(s.queue, tx.sender) {
      ReplacedStays(s, tx, local);
    } else {
      AddedPromoted(s, s', tx, local, w);
      NewStays(s, w.added, s', tx, local);
    }
  }

  lemma AddedPlaced(s: State, s': State, tx: Tx, local: bool, w: Steps)
    requires s.AllOk() && AddsOne(s, s', tx, local, None, w) && Roomy(s, tx, local)
    ensures s.Ok(tx.sender) && w.added == Placed(s, tx, local) && Validate(s, tx, local).None?
    ensures if tx.nonce in Get(s.pending, tx.sender) || tx.nonce in Get(s.queue, tx.sender) then s' == w.added
      else Promotes(w.added, s', Some({tx.sender}), w.promoted, w.cut, w.level)
  {
    assert s.Ok(tx.sender);
    assert !Full(s);
  }

  lemma AddedPromoted(s: State, s': State, tx: Tx, local: bool, w: Steps)
    requires Roomy(s, tx, local) && w.added == Placed(s, tx, local)
    requires Promotes(w.added, s', Some({tx.sender}), w.promoted, w.cut, w.level)
    ensures s'.Ok(tx.sender) && PromotionAt(w.added, s', {tx.sender}, tx.sender)
  {
    PromotesOne(w.added, s', tx.sender, w.promoted, w.cut, w.level);
    PlacedSize(s, tx, local);
    SubsetSize(w.promoted.all, w.added.all);
    NothingCut(w.promoted, s', w.cut, w.level);
  }

  lemma PromotesOne(s: State, s': State, a: Address, promoted: State, cut: State, level: nat)
    requires Promotes(s, s', Some({a}), promoted, cut, level)
    ensures PromotionAt(s, promoted, {a}, a) && promoted.Ok(a) && promoted.AllOk() && promoted.all <= s.all
    ensures promoted.config == s.config && Cut(promoted, cut, level, s')
  {
    assert PromotionAt(s, promoted, ToVisit(s, Some({a})), a) && promoted.Ok(a);
  }

  lemma PlacedSize(s: State, tx: Tx, local: bool)
    ensures var t := Placed(s, tx, local); |t.all| <= |s.all| + 1 && t.config == s.config
  {
    SubsetSize(Placed(s, tx, local).all, s.all + {tx});
  }

  lemma ReplacedStays(s: State, tx: Tx, local: bool)
    requires s.Ok(tx.sender) && s.Settled(tx.sender)
    requires tx.nonce in Get(s.pending, tx.sender) || tx.nonce in Get(s.queue, tx.sender)
    ensures var t := Placed(s, tx, local);
      && tx in t.all && Listed(t.View(tx.sender), tx)
      && (Has(Get(t.pending, tx.sender), tx) <==> tx.nonce <= s.Virtual(tx.sender))
  {
    var was := s.View(tx.sender);
    assert was.p == Get(s.pending, tx.sender) && was.q == Get(s.queue, tx.sender);
  }

  lemma NewStays(s: State, added: State, t: State, tx: Tx, local: bool)
    requires s.Ok(tx.sender) && s.Settled(tx.sender) && Validate(s, tx, local).None? && Roomy(s, tx, local)
    requires tx.nonce !in Get(s.pending, tx.sender) && tx.nonce !in Get(s.queue, tx.sender)
    requires added == Placed(s, tx, local) && PromotionAt(added, t, {tx.sender}, tx.sender) && t.Ok(tx.sender)
    ensures tx in t.all && Listed(t.View(tx.sender), tx)
    ensures Has(Get(t.pending, tx.sender), tx) <==> tx.nonce <= s.Virtual(tx.sender)
  {
    var a := tx.sender;
    var was, now := s.View(a), added.View(a);
    QueuedView(s, added, tx, local);
    PromotedStays(s.head, a, s.config.accountQueue, a in added.locals, was, now, t.View(a), tx);
    ListedKnown(t, tx);
  }

  lemma QueuedView(s: State, added: State, tx: Tx, local: bool)
    requires tx.nonce !in Get(s.pending, tx.sender) && added == Placed(s, tx, local)
    ensures added.View(tx.sender) == s.View(tx.sender).(q := Get(s.queue, tx.sender)[tx.nonce := tx])
    ensures added.head == s.head && added.config == s.config
    ensures tx.sender in added.locals <==> local || tx.sender in s.locals
  {
  }

  lemma ListedKnown(s: State, tx: Tx)
    requires s.Ok(tx.sender) && Listed(s.View(tx.sender), tx)
    ensures tx in s.all
  {
  }

  /** A pool that knows no more than fits in either kind of lists is not cut. */
  lemma NothingCut(t: State, s': State, cut: State, level: nat)
    requires t.AllOk() && |t.all| <= t.config.globalSlots && |t.all| <= t.config.globalQueue && Cut(t, cut, level, s')
    ensures s' == t
  {
    forall a | a in t.pending ensures Owned(t.pending[a], a, t.all) {
      assert t.Ok(a) && t.View(a).p == t.pending[a];
    }
    forall a | a in t.queue ensures Owned(t.queue[a], a, t.all) {
      assert t.Ok(a) && t.View(a).q == t.queue[a];
    }
    TotalBound(t.pending, t.all);
    TotalBound(t.queue, t.all);
  }

  /** What can happen to a pool. */
  datatype Operation =
    | AddOne(tx: Tx, local: bool)
    | AddMany(txs: seq<Tx>, local: bool)
    | PriceChange(price: nat)
    | Expire(a: Address)
    | HeadChange(head: Head)

  /** What Valid means, spelled out for one account. */
  ghost predicate WindowOf(s: State, a: Address) {
    && (forall n :: n in Get(s.pending, a) <==> s.head.Nonce(a) <= n < s.Virtual(a))
    && (forall n :: n in Get(s.queue, a) ==> n > s.Virtual(a))
    && (forall n :: n in Get(s.pending, a) ==> Get(s.pending, a)[n] in s.all)
    && (forall n :: n in Get(s.queue, a) ==> Get(s.queue, a)[n] in s.all)
  }

  /**
   * After any run from an empty pool every account has its window, and every known transaction is priced. The states
   * between the operations are each what the operation makes of the one before.
   */
  method Run(config: PoolConfig, gasPrice: nat, head: Head, ops: seq<Operation>)
    returns (s: State, priced: PricedList, ghost trace: seq<State>, ghost ws: seq<Witness>)
    ensures fresh(priced) && forall a :: WindowOf(s, a)
    ensures |trace| == |ops| + 1 && |ws| == |ops| && trace[|ops|] == s
    ensures trace[0] == State(config, gasPrice, head, map[], {}, map[], map[], {})
    ensures forall i :: 0 <= i < |ops| ==> Happens(trace[i], trace[i + 1], ops[i], ws[i])
    ensures s.config == config && priced.Covers(s.all)
  {
    var pool := new Pool(config, gasPrice, head);
    trace, ws := [pool.s], [];
    for i := 0 to |ops|
      invariant pool.Valid() && pool.s.config == config && fresh(pool) && fresh(pool.priced)
      invariant |trace| == i + 1 && |ws| == i && trace[i] == pool.s
      invariant trace[0] == State(config, gasPrice, head, map[], {}, map[], map[], {})
      invariant forall k :: 0 <= k < i ==> Happens(trace[k], trace[k + 1], ops[k], ws[k])
    {
      ghost var w := pool.Apply(ops[i]);
      trace, ws := trace + [pool.s], ws + [w];
    }
    s, priced := pool.s, pool.priced;
    forall a ensures WindowOf(s, a) {
      assert s.Settled(a) && s.Ok(a) && s.View(a) == Account(Get(s.pending, a), Get(s.queue, a), s.Virtual(a));
    }
  }
}
