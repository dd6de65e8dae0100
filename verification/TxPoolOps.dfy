// core/tx_pool.go: the pool's operations. Each keeps every account's window, so every run of them does.
module TxPoolOps {
  import opened Powers
  import opened Arithmetic
  import opened TxLists
  import opened TxAccount
  import opened TxPriced
  import opened TxPool
  import opened TxFairness
  import opened TxQueue
  import opened TxDemotion

  // ---------------------------------------------------------------- promotion

  /** Same settings and chain head. */
  ghost predicate SameSettings(s: State, s': State) {
    s' == s.(virt := s'.virt, pending := s'.pending, queue := s'.queue, all := s'.all)
  }

  /** The account loop of `promoteExecutables`. */
  method PromoteAccounts(s: State, priced: PricedList, accounts: set<Address>) returns (s': State)
    requires Synced(s, priced) && forall a :: s.Stale(a) && (a !in accounts ==> s.Ok(a))
    modifies priced
    ensures Synced(s', priced) && s'.AllOk() && SameSettings(s, s') && s'.all <= s.all && Sheds(s, s')
    ensures forall a :: PromotionAt(s, s', accounts, a)
  {
    s' := s;
    var todo := accounts;
    ghost var done: set<Address> := {};
    while todo != {}
      invariant Synced(s', priced) && SameSettings(s, s') && s'.all <= s.all && done + todo == accounts && done !! todo
      invariant Sheds(s, s') && forall a :: PromotingAt(s, s', todo, done, a)
      decreases todo
    {
      var a := Pick(todo);
      s' := PromoteNext(s', priced, a, s, todo, done);
      todo, done := todo - {a}, done + {a};
    }
    AllPromoted(s, s', done, accounts);
  }

  method PromoteNext(s: State, priced: PricedList, a: Address, ghost s0: State, ghost todo: set<Address>,
                     ghost done: set<Address>)
    returns (s': State)
    requires Synced(s, priced) && SameSettings(s0, s) && Sheds(s0, s) && a !in done
    requires forall b :: PromotingAt(s0, s, todo, done, b)
    modifies priced
    ensures Synced(s', priced) && SameSettings(s0, s') && s'.all <= s.all && Sheds(s0, s')
    ensures forall b :: PromotingAt(s0, s', todo - {a}, done + {a}, b)
  {
    assert PromotingAt(s0, s, todo, done, a);
    s' := PromoteAccount(s, priced, a);
    ShedsTrans(s0, s, s');
    PromotionNext(s0, s, s', todo, done, a);
  }

  lemma AllPromoted(s: State, s': State, done: set<Address>, accounts: set<Address>)
    requires done == accounts && forall a :: PromotingAt(s, s', {}, done, a)
    ensures s'.AllOk() && forall a :: PromotionAt(s, s', accounts, a)
  {
    forall a ensures s'.Ok(a) && PromotionAt(s, s', accounts, a) {
      assert PromotingAt(s, s', {}, done, a);
    }
  }

  /** Account a during the loop. */
  ghost predicate PromotingAt(s0: State, s: State, todo: set<Address>, done: set<Address>, a: Address) {
    s.Stale(a) && (a !in todo ==> s.Ok(a)) && PromotionAt(s0, s, done, a)
  }

  /** A visited account is promoted and has nothing executable left in its queue, any other is as before. */
  ghost predicate PromotionAt(s0: State, s: State, done: set<Address>, a: Address) {
    if a in done then PromotedTo(s0, s, a) && s.Settled(a) else s.View(a) == s0.View(a)
  }

  lemma PromotionNext(s0: State, s: State, s': State, todo: set<Address>, done: set<Address>, a: Address)
    requires (forall b :: PromotingAt(s0, s, todo, done, b)) && a !in done && SameSettings(s0, s)
    requires OnlyAccount(s, s', a) && s'.Ok(a) && s'.Settled(a) && PromotedTo(s, s', a)
    requires forall tx :: tx in s.all && tx.sender != a ==> tx in s'.all
    ensures forall b :: PromotingAt(s0, s', todo - {a}, done + {a}, b)
  {
    forall b ensures PromotingAt(s0, s', todo - {a}, done + {a}, b) {
      assert PromotingAt(s0, s, todo, done, b);
      if b == a {
        PromotionHere(s0, s, s', todo, done, a);
      } else {
        PromotionElsewhere(s0, s, s', todo, done, a, b);
      }
    }
  }

  lemma PromotionHere(s0: State, s: State, s': State, todo: set<Address>, done: set<Address>, a: Address)
    requires PromotionAt(s0, s, done, a) && a !in done && SameSettings(s0, s)
    requires s'.head == s.head && s'.Ok(a) && s'.Settled(a) && PromotedTo(s, s', a)
    ensures PromotingAt(s0, s', todo - {a}, done + {a}, a)
  {
    assert s'.Stale(a);
  }

  lemma PromotionElsewhere(s0: State, s: State, s': State, todo: set<Address>, done: set<Address>, a: Address,
                           b: Address)
    requires PromotingAt(s0, s, todo, done, b) && b != a && s'.View(b) == s.View(b) && s'.head == s.head
    requires forall tx :: tx in s.all && tx.sender != a ==> tx in s'.all
    ensures PromotingAt(s0, s', todo - {a}, done + {a}, b)
  {
    StillHeld(s, s', a, b);
    if b in done {
      ViewSettled(s, s', b);
    }
  }

  /** An account whose lists did not change keeps its order when only others are forgotten. */
  lemma StillHeld(s: State, s': State, a: Address, b: Address)
    requires s'.View(b) == s.View(b) && s'.head == s.head && b != a
    requires forall tx :: tx in s.all && tx.sender != a ==> tx in s'.all
    ensures s.Ok(b) ==> s'.Ok(b)
    ensures s.Stale(b) ==> s'.Stale(b)
  {
  }

  /** The accounts to promote: those given, or all that have a queue. */
  function ToVisit(s: State, accounts: Option<set<Address>>): set<Address> {
    if accounts.Some? then accounts.value else s.queue.Keys
  }

  /**
   * `promoteExecutables`; without a list of accounts, every queue is visited. The ghost results are
   * the states between its three parts and the level the executable lists were cut to.
   */
  method PromoteExecutables(s: State, priced: PricedList, accounts: Option<set<Address>>)
    returns (s': State, ghost promoted: State, ghost cut: State, ghost level: nat)
    requires Synced(s, priced) && forall a :: s.Stale(a) && (accounts.Some? && a !in accounts.value ==> s.Ok(a))
    modifies priced
    ensures Synced(s', priced) && s'.AllOk() && SameSettings(s, s')
    ensures Promotes(s, s', accounts, promoted, cut, level)
    ensures forall a :: accounts.None? || a in accounts.value || s.Settled(a) ==> s'.Settled(a)
  {
    var visit := ToVisit(s, accounts);
    forall a ensures s.Stale(a) && (a !in visit ==> s.Ok(a)) {
      assert s.Stale(a);
    }
    s' := PromoteAccounts(s, priced, visit);
    promoted := s';
    s', cut, level := CutBack(s', priced);
    forall a | accounts.None? || a in accounts.value || s.Settled(a) ensures s'.Settled(a) {
      PromotionSettles(s, promoted, visit, a);
    }
    ShedsTrans(s, promoted, s');
  }

  /** Every account visited is promoted, into `promoted`; then lists and queues are cut back. */
  ghost predicate Promotes(s: State, s': State, accounts: Option<set<Address>>, promoted: State, cut: State,
                           level: nat) {
    && (forall a :: PromotionAt(s, promoted, ToVisit(s, accounts), a))
    && SameSettings(s, promoted) && promoted.AllOk() && promoted.all <= s.all
    && Cut(promoted, cut, level, s') && Sheds(s, s')
  }

  lemma PromotionSettles(s: State, promoted: State, visit: set<Address>, a: Address)
    requires PromotionAt(s, promoted, visit, a) && (a in visit || s.Settled(a))
    ensures promoted.Settled(a)
  {
    if a !in visit {
      ViewSettled(s, promoted, a);
    }
  }

  /** The second and third part of `promoteExecutables`. */
  method CutBack(s: State, priced: PricedList) returns (s': State, ghost cut: State, ghost level: nat)
    requires Synced(s, priced) && s.AllOk()
    modifies priced
    ensures Synced(s', priced) && s'.AllOk() && SameSettings(s, s')
    ensures Cut(s, cut, level, s') && Sheds(s, s') && KeepsSettled(s, s')
  {
    s', level := Equalize(s, priced);
    cut := s';
    TrimmedKeeps(s, cut);
    s' := TruncateQueue(s', priced);
    CutKeepsSettled(cut, s', Remote(cut).Keys);
    ShedsTrans(s, cut, s');
  }

  /**
   * The two cuts at the end of promotion: remote executable lists go down to the water level if all together are too
   * many, and remote queues then lose exactly the overflow or all they have.
   */
  ghost predicate Cut(promoted: State, cut: State, level: nat, s': State) {
    && Levelled(promoted, cut, level)
    && QueuesCut(cut, s', Remote(cut).Keys) && QueueTotal(cut, s') && CutButOne(cut, s')
  }

  ghost predicate Levelled(promoted: State, cut: State, level: nat) {
    && Trimmed(promoted, cut)
    && if Total(promoted.pending) <= promoted.config.globalSlots then cut == promoted
       else DemandOf(promoted).IsWaterLevel(level) && Sizes(cut.pending) == DemandOf(promoted).Shares(level)
  }

  ghost predicate QueueTotal(cut: State, s': State) {
    var over := Total(cut.queue) - cut.config.globalQueue;
    && Total(s'.queue) == Total(cut.queue) - (if over <= 0 then 0 else Min(over, Total(Remote(cut))))
    && (over <= 0 ==> s' == cut)
  }

  lemma TrimmedKeeps(s: State, s': State)
    requires Trimmed(s, s') && s.AllOk()
    ensures s'.AllOk() && SameSettings(s, s') && KeepsSettled(s, s') && Sheds(s, s')
  {
    forall a | s.Settled(a) ensures s'.Settled(a) {
      TrimLowers(s, s', a);
    }
    forall a ensures s'.Ok(a) && AccountSheds(s, s', a) {
      assert TrimmedAt(s, s', a);
    }
    assert TrimmedAt(s, s', 0);
  }

  /** Trimming never raises the virtual nonce. */
  lemma TrimLowers(s: State, s': State, a: Address)
    requires TrimmedAt(s, s', a) && s.Ok(a)
    ensures s'.Virtual(a) <= s.Virtual(a) && s'.queue == s.queue
  {
    var p, p' := s.View(a).p, s'.View(a).p;
    var lo := s.head.Nonce(a);
    assert Window(p, lo, s.Virtual(a)) && Window(p', lo, s'.Virtual(a)) && p' == Below(p, s'.Virtual(a));
    var v := s.Virtual(a);
    assert v in p' ==> v in p;
  }

  // ---------------------------------------------------------------- a new head

  /** Account a during demotion: still as the old head `s0` left it, or done. */
  ghost predicate DemotionAt(s0: State, s: State, todo: set<Address>, a: Address) {
    if a in todo
    then a in s.pending && Demotable(a, Get(s.pending, a), Get(s.queue, a), s0.head.Nonce(a), s0.Virtual(a), s.all)
    else (a in s.pending ==> s.pending[a] != map[]) &&
         Demoted(a, Get(s.pending, a), Get(s.queue, a), s.head.Nonce(a), s.all)
  }

  lemma DemotionElsewhere(s0: State, s: State, s': State, todo: set<Address>, a: Address, b: Address)
    requires DemotionAt(s0, s, todo, b) && b != a && s'.View(b) == s.View(b) && s'.head == s.head
    requires b in s'.pending <==> b in s.pending
    requires forall tx :: tx in s.all && tx.sender != a ==> tx in s'.all
    ensures DemotionAt(s0, s', todo - {a}, b)
  {
    assert s'.View(b).p == s.View(b).p && s'.View(b).q == s.View(b).q;
  }

  /** What demotion makes of an account's lists: those visited are demoted, the others are as before. */
  ghost predicate DemotionOf(s: State, s': State, done: set<Address>, a: Address) {
    if a in done then DemotedTo(s.head, a, Get(s.pending, a), Get(s.queue, a), Get(s'.pending, a), Get(s'.queue, a))
    else s'.View(a) == s.View(a)
  }

  lemma DemotionNext(s0: State, s: State, s': State, done: set<Address>, a: Address)
    requires (forall b :: DemotionOf(s0, s, done, b)) && a !in done && s.head == s0.head && OnlyAccount(s, s', a)
    requires DemotedTo(s.head, a, Get(s.pending, a), Get(s.queue, a), Get(s'.pending, a), Get(s'.queue, a))
    ensures forall b :: DemotionOf(s0, s', done + {a}, b)
  {
    forall b ensures DemotionOf(s0, s', done + {a}, b) {
      assert DemotionOf(s0, s, done, b);
      assert s.View(b) == Account(Get(s.pending, b), Get(s.queue, b), s.Virtual(b));
      assert s0.View(b) == Account(Get(s0.pending, b), Get(s0.queue, b), s0.Virtual(b));
      if b != a {
        assert s'.View(b) == Account(Get(s'.pending, b), Get(s'.queue, b), s'.Virtual(b));
      }
    }
  }

  /** `demoteUnexecutables` */
  method DemoteUnexecutables(s: State, priced: PricedList, ghost s0: State) returns (s': State)
    requires Synced(s, priced) && forall a :: DemotionAt(s0, s, s.pending.Keys, a)
    modifies priced
    ensures Synced(s', priced) && SameSettings(s, s') && s'.virt == s.virt && forall a :: DemotionAt(s0, s', {}, a)
    ensures Sheds(s, s') && forall a :: DemotionOf(s, s', s.pending.Keys, a)
  {
    s' := s;
    var todo := s.pending.Keys;
    ghost var done: set<Address> := {};
    while todo != {}
      invariant Synced(s', priced) && SameSettings(s, s') && s'.virt == s.virt
      invariant forall a :: DemotionAt(s0, s', todo, a)
      invariant done + todo == s.pending.Keys && done !! todo && forall a :: DemotionOf(s, s', done, a)
      invariant Sheds(s, s')
      decreases todo
    {
      var a := Pick(todo);
      ghost var was := s';
      assert DemotionAt(s0, was, todo, a);
      s' := DemoteAccount(s', priced, a, s0.head.Nonce(a), s0.Virtual(a));
      forall b ensures DemotionAt(s0, s', todo - {a}, b) {
        if b != a {
          assert DemotionAt(s0, was, todo, b);
          DemotionElsewhere(s0, was, s', todo, a, b);
        }
      }
      DemotionNext(s, was, s', done, a);
      ShedsTrans(s, was, s');
      todo, done := todo - {a}, done + {a};
    }
    assert done == s.pending.Keys;
  }

  /** The last executable nonce plus one closes the window. */
  lemma LastClosesWindow(a: Address, p: Items, q: Items, nonce: nat, all: set<Tx>, txs: seq<Tx>)
    requires Demoted(a, p, q, nonce, all) && p != map[] && Lists(p, txs)
    ensures txs != [] && AccountStale(a, Account(p, q, txs[|txs| - 1].nonce + 1), nonce, all)
  {
    var n :| n in p;
    ListsCovers(p, txs, n);
    var h: nat :| Window(p, nonce, h) && forall m :: m in q ==> m >= h;
    var last := txs[|txs| - 1].nonce;
    assert last in p && h - 1 in p;
    ListsCovers(p, txs, h - 1);
    assert h == last + 1;
  }

  /** Resets the virtual nonces to just past the executable lists. */
  method UpdateNonces(s: State, ghost s0: State) returns (s': State)
    requires s.virt == map[] && forall a :: DemotionAt(s0, s, {}, a)
    ensures s' == s.(virt := s'.virt) && forall a :: s'.Stale(a)
  {
    var virt: map<Address, nat> := map[];
    var todo := s.pending.Keys;
    while todo != {}
      invariant todo <= s.pending.Keys && virt.Keys == s.pending.Keys - todo
      invariant forall a :: a in virt ==>
        AccountStale(a, Account(Get(s.pending, a), Get(s.queue, a), virt[a]), s.head.Nonce(a), s.all)
      decreases todo
    {
      var a := Pick(todo);
      assert DemotionAt(s0, s, {}, a);
      var txs := SortValues(s.pending[a]);
      LastClosesWindow(a, s.pending[a], Get(s.queue, a), s.head.Nonce(a), s.all, txs);
      virt := virt[a := txs[|txs| - 1].nonce + 1];
      todo := todo - {a};
    }
    s' := s.(virt := virt);
    forall a ensures s'.Stale(a) {
      assert DemotionAt(s0, s, {}, a);
      assert s'.View(a) == Account(Get(s.pending, a), Get(s.queue, a), if a in virt then virt[a] else s.head.Nonce(a));
    }
  }

  /** `reset` when no transaction is reinjected: the new head extends the old one, or lies too far from it. */
  method Reset(s: State, priced: PricedList, head: Head)
    returns (s': State, ghost demoted: State, ghost promoted: State, ghost cut: State, ghost level: nat)
    requires Synced(s, priced) && s.AllOk()
    modifies priced
    ensures forall a :: ResetAt(s, head, demoted, a)
    ensures forall a :: PromotionAt(demoted, promoted, ToVisit(demoted, None), a)
    ensures Cut(promoted, cut, level, s') && Forgets(s, s')
    ensures Synced(s', priced) && s'.AllOk() && s'.head == head && forall a :: s'.Settled(a)
    ensures s'.config == s.config && s'.locals == s.locals && s'.gasPrice == s.gasPrice
  {
    var s1 := s.(head := head, virt := map[]);
    forall a ensures DemotionAt(s, s1, s1.pending.Keys, a) {
      assert s.Ok(a);
      assert s.View(a) == Account(Get(s1.pending, a), Get(s1.queue, a), s.Virtual(a));
    }
    var s2 := DemoteUnexecutables(s1, priced, s);
    var s3 := UpdateNonces(s2, s);
    forall a ensures ResetAt(s, head, s3, a) {
      assert DemotionOf(s1, s2, s1.pending.Keys, a);
      assert s2.View(a) == Account(Get(s2.pending, a), Get(s2.queue, a), s2.Virtual(a));
      assert s1.View(a) == Account(Get(s1.pending, a), Get(s1.queue, a), s1.Virtual(a));
    }
    s', promoted, cut, level := PromoteExecutables(s3, priced, None);
    demoted := s3;
    ResetForgets(s, s1, s2, s3, s');
  }

  /** Exactly the transactions that are in no list of their account any more are forgotten. */
  ghost predicate Forgets(s: State, s': State) {
    forall tx: Tx :: ForgetsAt(s, s', tx)
  }

  ghost predicate ForgetsAt(s: State, s': State, tx: Tx) {
    var was, now := s.View(tx.sender), s'.View(tx.sender);
    (Listed(now, tx) ==> Listed(was, tx)) && (tx in s'.all <==> tx in s.all && (Listed(was, tx) ==> Listed(now, tx)))
  }

  lemma ResetForgets(s: State, s1: State, s2: State, s3: State, s': State)
    requires s1 == s.(head := s1.head, virt := s1.virt) && Sheds(s1, s2) && s3 == s2.(virt := s3.virt) && Sheds(s3, s')
    ensures Forgets(s, s')
  {
    forall tx: Tx ensures ForgetsAt(s, s', tx) {
      var a := tx.sender;
      assert AccountSheds(s1, s2, a) && AccountSheds(s3, s', a);
      assert s.View(a).p == s1.View(a).p && s.View(a).q == s1.View(a).q;
      assert s2.View(a).p == s3.View(a).p && s2.View(a).q == s3.View(a).q;
      assert ShedAt(s1.View(a), s1.all, s2.View(a), s2.all, tx) && ShedAt(s3.View(a), s3.all, s'.View(a), s'.all, tx);
    }
  }

  /**
   * Account a once the new head has demoted it, before promotion: lists that were executable are demoted, the queue
   * alone stays.
   */
  ghost predicate ResetAt(s: State, head: Head, demoted: State, a: Address) {
    && demoted.head == head && demoted.Stale(a)
    && if a in s.pending
       then DemotedTo(head, a, Get(s.pending, a), Get(s.queue, a), Get(demoted.pending, a), Get(demoted.queue, a))
       else Get(demoted.pending, a) == map[] && Get(demoted.queue, a) == Get(s.queue, a)
  }

  // ---------------------------------------------------------------- adding and dropping

  /** `validateTx`, in its order. */
  function Validate(s: State, tx: Tx, local: bool): Option<PoolError> {
    if tx !in s.head.wellFormed then Some(InvalidTx)
    else if s.head.maxGas < tx.gas then Some(GasLimit)
    else if tx !in s.head.signed then Some(InvalidSender)
    else if !local && tx.sender !in s.locals && s.gasPrice > tx.price then Some(Underpriced)
    else if s.head.Nonce(tx.sender) > tx.nonce then Some(NonceTooLow)
    else if tx.normal && s.head.Balance(tx.sender) < tx.cost then Some(InsufficientFunds)
    else if tx.normal && tx !in s.head.coversIntrinsic then Some(IntrinsicGas)
    else if !tx.normal && tx !in s.head.privacyValid then Some(InvalidPrivacyTx)
    else if tx !in s.head.precompileValid then Some(PrecompileRefuses)
    else None
  }

  /** Account a after the first n of a list of transactions are removed one after another. */
  ghost function ViewAfter(s: State, drop: seq<Tx>, n: nat, a: Address): Account
    requires n <= |drop|
  {
    if n == 0 then s.View(a)
    else
      var was, tx := ViewAfter(s, drop, n - 1, a), drop[n - 1];
      if tx.sender == a && tx in s.all && tx !in drop[..n - 1] then RemoveFrom(was, tx.nonce) else was
  }

  /** The transactions have been removed one after another, and nothing else has happened. */
  ghost predicate RemovedInTurn(s: State, s': State, drop: seq<Tx>) {
    SameSettings(s, s') && Remaining(s.all, s'.all, drop) && ViewsAfter(s, s', drop, |drop|)
  }

  lemma ViewNext(s: State, was: State, s': State, drop: seq<Tx>, i: nat)
    requires i < |drop| && OnlyAccount(was, s', drop[i].sender)
    requires Remaining(s.all, was.all, drop[..i]) && ViewsAfter(s, was, drop, i)
    requires var tx, v := drop[i], was.View(drop[i].sender);
      s'.View(tx.sender) == if tx in was.all then RemoveFrom(v, tx.nonce) else v
    ensures ViewsAfter(s, s', drop, i + 1)
  {
    forall a ensures s'.View(a) == ViewAfter(s, drop, i + 1, a) {
      assert was.View(a) == ViewAfter(s, drop, i, a);
    }
  }

  /** The first i of a batch have been removed, and every account is in order. */
  ghost predicate Removing(s: State, s': State, drop: seq<Tx>, i: nat) {
    && i <= |drop| && s'.AllOk() && SameSettings(s, s') && KeepsSettled(s, s')
    && Remaining(s.all, s'.all, drop[..i]) && ViewsAfter(s, s', drop, i)
  }

  ghost predicate Remaining(all: set<Tx>, all': set<Tx>, drop: seq<Tx>) {
    forall tx :: tx in all' <==> tx in all && tx !in drop
  }

  ghost predicate ViewsAfter(s: State, s': State, drop: seq<Tx>, i: nat)
    requires i <= |drop|
  {
    forall a :: s'.View(a) == ViewAfter(s, drop, i, a)
  }

  lemma RemainingNext(all: set<Tx>, all': set<Tx>, drop: seq<Tx>, i: nat)
    requires i < |drop| && Remaining(all, all', drop[..i])
    ensures Remaining(all, all' - {drop[i]}, drop[..i + 1])
  {
    assert drop[..i + 1] == drop[..i] + [drop[i]];
  }

  lemma RemovingNext(s: State, was: State, s': State, drop: seq<Tx>, i: nat)
    requires i < |drop| && Removing(s, was, drop, i)
    requires SameSettings(was, s') && OnlyAccount(was, s', drop[i].sender) && s'.all == was.all - {drop[i]}
    requires var tx, v := drop[i], was.View(drop[i].sender);
      s'.View(tx.sender) == if tx in was.all then RemoveFrom(v, tx.nonce) else v
    ensures Removing(s, s', drop, i + 1)
  {
    RemainingNext(s.all, was.all, drop, i);
    ViewNext(s, was, s', drop, i);
    RemovalKeeps(was, s', drop[i]);
    KeepsSettledTrans(s, was, s');
  }

  lemma RemovalKeeps(was: State, s': State, tx: Tx)
    requires was.AllOk() && OnlyAccount(was, s', tx.sender) && s'.all == was.all - {tx}
    requires s'.View(tx.sender) ==
      if tx in was.all then RemoveFrom(was.View(tx.sender), tx.nonce) else was.View(tx.sender)
    ensures s'.AllOk() && KeepsSettled(was, s')
  {
    assert was.Ok(tx.sender);
    RemoveTxKeepsAll(was, s', tx);
    RemoveTxKeepsSettled(was, s', tx);
  }

  lemma KeepsSettledTrans(s: State, t: State, u: State)
    requires KeepsSettled(s, t) && KeepsSettled(t, u)
    ensures KeepsSettled(s, u)
  {
  }

  /** Removes a batch the price heap has already let go of. */
  method RemoveDropped(s: State, priced: PricedList, drop: seq<Tx>) returns (s': State)
    requires s.AllOk() && priced.Valid() && forall tx :: tx in s.all && tx !in drop ==> tx in priced.items
    modifies priced
    ensures Synced(s', priced) && s'.AllOk() && SameSettings(s, s') && KeepsSettled(s, s')
    ensures RemovedInTurn(s, s', drop)
  {
    s' := s;
    var i := 0;
    while i < |drop|
      invariant priced.Valid() && Removing(s, s', drop, i)
      invariant forall tx :: tx in s'.all && tx !in drop ==> tx in priced.items
    {
      ghost var was := s';
      assert was.Ok(drop[i].sender);
      s' := RemoveTx(s', priced, drop[i]);
      RemovingNext(s, was, s', drop, i);
      i := i + 1;
    }
    assert drop[..i] == drop;
  }

  predicate Full(s: State) {
    |s.all| >= s.config.globalSlots + s.config.globalQueue
  }

  /** A full pool refuses a remote transaction that pays no more than any other. */
  predicate Refused(s: State, tx: Tx) {
    Full(s) && s.all != {} && tx.sender !in s.locals && forall t :: t in s.all ==> tx.price <= t.price
  }

  /** The transaction at the same nonce prices at or above the bump threshold. */
  predicate Outbid(s: State, tx: Tx) {
    var p, q, n := Get(s.pending, tx.sender), Get(s.queue, tx.sender), tx.nonce;
    if n in p then BumpThreshold(p[n].price, s.config.priceBump) >= tx.price
    else n in q && BumpThreshold(q[n].price, s.config.priceBump) >= tx.price
  }

  /** A full pool has let go of cheapest remote transactions, as many as needed or all there are. */
  ghost predicate RoomMade(s: State, s': State, drop: seq<Tx>) {
    var need := |s.all| - (s.config.globalSlots + s.config.globalQueue) + 1;
    && RemovedInTurn(s, s', drop) && (if Full(s) then |drop| <= need else s' == s)
    && (forall d :: d in drop ==> d in s.all && d.sender !in s.locals)
    && (forall d, t :: d in drop && t in s'.all && t.sender !in s.locals ==> d.price <= t.price)
    && (Full(s) && |drop| < need ==> forall t :: t in s'.all ==> t.sender in s.locals)
  }

  /** Makes room in a full pool, unless the newcomer is no better than what is there. */
  method MakeRoom(s: State, priced: PricedList, tx: Tx) returns (s': State, underpriced: bool, ghost drop: seq<Tx>)
    requires Synced(s, priced) && s.AllOk() && tx !in s.all
    modifies priced
    ensures Synced(s', priced) && s'.AllOk() && SameSettings(s, s')
    ensures KeepsSettled(s, s') && tx !in s'.all && s'.all <= s.all
    ensures underpriced <==> Refused(s, tx)
    ensures underpriced || !Full(s) ==> s' == s
    ensures !underpriced ==> RoomMade(s, s', drop)
    ensures Full(s) && !underpriced ==> s'.all < s.all || forall t :: t in s.all ==> t.sender in s.locals
    ensures Full(s) ==> |s'.all| + 1 >= s.config.globalSlots + s.config.globalQueue
    ensures forall t :: t in s.all && t !in s'.all ==> t.sender !in s.locals
    ensures forall d, t :: d in s.all && d !in s'.all && t in s'.all && t.sender !in s.locals ==> d.price <= t.price
  {
    s', underpriced, drop := s, false, [];
    var capacity := s.config.globalSlots + s.config.globalQueue;
    if |s.all| >= capacity {
      underpriced := priced.Underpriced(s.all, tx, s.locals);
      if !underpriced {
        var cheap := priced.Discard(s.all, |s.all| - capacity + 1, s.locals);
        s' := RemoveDropped(s, priced, cheap);
        if cheap != [] {
          assert cheap[0] in cheap;
        }
        NotTooMany(s.all, s'.all, cheap);
        drop := cheap;
      }
    }
  }

  /** Dropping a list of transactions shrinks the set by at most its length. */
  lemma {:induction false} NotTooMany(all: set<Tx>, left: set<Tx>, drop: seq<Tx>)
    requires forall tx :: tx in left <==> tx in all && tx !in drop
    ensures |left| + |drop| >= |all|
    decreases |drop|
  {
    if drop == [] {
      assert left == all;
    } else {
      var tx, rest := drop[0], drop[1..];
      var less := all - {tx};
      assert drop == [tx] + rest;
      NotTooMany(less, left, rest);
    }
  }

  /** Replacing an executable transaction keeps the window. */
  lemma ReplaceKeepsOk(a: Address, s: Account, lo: nat, all: set<Tx>, tx: Tx)
    requires AccountOk(a, s, lo, all) && tx.sender == a && tx.nonce in s.p && tx !in all
    ensures AccountOk(a, s.(p := s.p[tx.nonce := tx]), lo, all - {s.p[tx.nonce]} + {tx})
  {
  }

  /** A transaction outside the window, with a nonce the chain has not passed, fits the queue. */
  lemma EnqueueKeepsOk(a: Address, s: Account, lo: nat, all: set<Tx>, tx: Tx)
    requires AccountOk(a, s, lo, all) && tx.sender == a && tx.nonce !in s.p && tx.nonce >= lo && tx !in all
    ensures var gone := if tx.nonce in s.q then {s.q[tx.nonce]} else {};
      AccountOk(a, s.(q := s.q[tx.nonce := tx]), lo, all - gone + {tx})
  {
  }

  /** The pool with the transaction in the executable list if its nonce is there, and in the queue otherwise. */
  function Placed(s: State, tx: Tx, local: bool): State {
    var a, n := tx.sender, tx.nonce;
    var p, q := Get(s.pending, a), Get(s.queue, a);
    if n in p then s.(pending := s.pending[a := p[n := tx]], all := s.all - {p[n]} + {tx})
    else s.(queue := s.queue[a := q[n := tx]], all := s.all - (if n in q then {q[n]} else {}) + {tx},
            locals := if local then s.locals + {a} else s.locals)
  }

  /** The branch of `add` for a nonce that is already executable. */
  method ReplacePending(s: State, priced: PricedList, tx: Tx) returns (s': State, ok: bool)
    requires Synced(s, priced) && s.AllOk() && tx !in s.all && tx.nonce in Get(s.pending, tx.sender)
    modifies priced
    ensures Synced(s', priced) && s'.AllOk() && SameSettings(s, s') && KeepsSettled(s, s')
    ensures ok <==> BumpThreshold(Get(s.pending, tx.sender)[tx.nonce].price, s.config.priceBump) < tx.price
    ensures s' == if ok then Placed(s, tx, false) else s
  {
    var a, n := tx.sender, tx.nonce;
    var p := Get(s.pending, a);
    if BumpThreshold(p[n].price, s.config.priceBump) >= tx.price {
      return s, false;
    }
    assert s.Ok(a);
    ReplaceKeepsOk(a, s.View(a), s.head.Nonce(a), s.all, tx);
    s' := Forget(s, priced, p[n]);
    s' := s'.(pending := s.pending[a := p[n := tx]], all := s'.all + {tx});
    priced.Put(tx);
    assert s'.View(a) == s.View(a).(p := p[n := tx]);
    OthersOk(s, s', a);
    ok := true;
  }

  /** The branch of `add` that queues the transaction. */
  method QueueNew(s: State, priced: PricedList, tx: Tx) returns (s': State, ok: bool, replaced: bool)
    requires Synced(s, priced) && s.AllOk() && tx !in s.all
    requires tx.nonce !in Get(s.pending, tx.sender) && tx.nonce >= s.head.Nonce(tx.sender)
    modifies priced
    ensures Synced(s', priced) && s'.AllOk() && SameSettings(s, s') && s'.pending == s.pending
    ensures forall a :: (a != tx.sender || replaced || !ok) && s.Settled(a) ==> s'.Settled(a)
    ensures ok <==> !Outbid(s, tx)
    ensures s' == if ok then Placed(s, tx, false) else s
    ensures replaced <==> ok && tx.nonce in Get(s.queue, tx.sender)
  {
    var a := tx.sender;
    assert s.Ok(a);
    EnqueueKeepsOk(a, s.View(a), s.head.Nonce(a), s.all, tx);
    s', ok, replaced := EnqueueTx(s, priced, tx);
    forall b | (b != a || replaced || !ok) && s.Settled(b) ensures s'.Settled(b) {
      assert forall n :: n in Get(s'.queue, b) ==> n in Get(s.queue, b);
    }
    if ok {
      assert s'.View(a) == s.View(a).(q := Get(s.queue, a)[tx.nonce := tx]);
      OthersOk(s, s', a);
    }
  }

  /** What `add` refuses before it touches anything. */
  predicate Declined(s: State, tx: Tx, local: bool) {
    tx in s.all || Validate(s, tx, local).Some? || Refused(s, tx)
  }

  /** A declined transaction changes nothing; any other makes room, and then is outbid or placed. */
  ghost predicate Added(s: State, s': State, tx: Tx, local: bool, replaced: bool, err: Option<PoolError>, room: State,
                        drop: seq<Tx>) {
    if Declined(s, tx, local) then s' == s && err.Some? && !replaced
    else
      && RoomMade(s, room, drop) && (err.None? <==> !Outbid(room, tx))
      && s' == (if err.None? then Placed(room, tx, local) else room)
      && (replaced <==>
          err.None? && (tx.nonce in Get(room.pending, tx.sender) || tx.nonce in Get(room.queue, tx.sender)))
  }

  /** `add`: validate, make room, then replace in place or queue. */
  method Add(s: State, priced: PricedList, tx: Tx, local: bool)
    returns (s': State, replaced: bool, err: Option<PoolError>, ghost room: State, ghost drop: seq<Tx>)
    requires Synced(s, priced) && s.AllOk()
    modifies priced
    ensures Synced(s', priced) && s'.AllOk() && SameSettings(s, s'.(locals := s.locals))
    ensures s.locals <= s'.locals && s'.locals <= s.locals + {tx.sender}
    ensures forall a :: (a != tx.sender || replaced || err.Some?) && s.Settled(a) ==> s'.Settled(a)
    ensures tx in s.all ==> err == Some(KnownTransaction)
    ensures tx !in s.all && Validate(s, tx, local).Some? ==> err == Validate(s, tx, local)
    ensures tx !in s.all && Validate(s, tx, local).None? && Refused(s, tx) ==> err == Some(Underpriced)
    ensures tx !in s.all && Validate(s, tx, local).None? && !Refused(s, tx) ==>
      if err.None? then Has(Get(s'.pending, tx.sender), tx) || Has(Get(s'.queue, tx.sender), tx)
      else err == Some(ReplaceUnderpriced) && Outbid(s', tx)
    ensures Added(s, s', tx, local, replaced, err, room, drop)
  {
    s', replaced, room, drop := s, false, s, [];
    if tx in s.all {
      err := Some(KnownTransaction);
      return;
    }
    err := Validate(s, tx, local);
    if err.Some? {
      return;
    }
    var underpriced;
    s', underpriced, drop := MakeRoom(s, priced, tx);
    room := s';
    if underpriced {
      err := Some(Underpriced);
      return;
    }
    var ok;
    if tx.nonce in Get(s'.pending, tx.sender) {
      s', ok := ReplacePending(s', priced, tx);
      replaced := ok;
    } else {
      s', ok, replaced := QueueNew(s', priced, tx);
      if ok && local {
        s' := AddLocalAccount(s', tx.sender);
      }
    }
    err := if ok then None else Some(ReplaceUnderpriced);
  }

  method AddLocalAccount(s: State, a: Address) returns (s': State)
    requires s.AllOk()
    ensures s' == s.(locals := s.locals + {a}) && s'.AllOk() && KeepsSettled(s, s')
  {
    s' := s.(locals := s.locals + {a});
    forall b ensures s'.Ok(b) {
      assert s.Ok(b) && s'.View(b) == s.View(b);
    }
  }
}
