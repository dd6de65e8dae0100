// core/tx_pool.go, demoteUnexecutables: what a new chain head leaves of one executable list.
module TxDemotion {
  import opened TxLists
  import opened TxAccount
  import opened TxPriced
  import opened TxPool

  /** Before demotion: the executable list is a window [lo, hi) below the queue. */
  ghost predicate Demotable(a: Address, p: Items, q: Items, lo: nat, hi: nat, all: set<Tx>) {
    Owned(p, a, all) && Owned(q, a, all) && Window(p, lo, hi) && forall m :: m in q ==> m >= hi
  }

  /** After demotion: what is left is a window from the new state nonce, still below the queue. */
  ghost predicate Demoted(a: Address, p: Items, q: Items, nonce: nat, all: set<Tx>) {
    && Owned(p, a, all) && Owned(q, a, all)
    && (p != map[] ==> exists h: nat :: Window(p, nonce, h) && forall m :: m in q ==> m >= h)
  }

  /** The parts a list splits into under a new head. */
  datatype Parts = Parts(passed: Items, drops: Items, invalids: Items, privacy: Items, left: Items)

  function Split(head: Head, a: Address, p: Items): Parts {
    var costly, invalid := TooCostly(head.Balance(a), head.maxGas), InvalidPrivacy(head.privacyValid);
    var p1 := AtLeast(p, head.Nonce(a));
    var p2 := StrictKept(p1, costly);
    var left := StrictKept(p2, invalid);
    Parts(Below(p, head.Nonce(a)),
          Dropped(p1, costly),
          map n | n in p1 && n !in p2 && n !in Dropped(p1, costly) :: p1[n],
          map n | n in p2 && n !in left :: p2[n],
          left)
  }

  /** The account can pay for a normal transaction within the block's limit. */
  predicate Payable(head: Head, a: Address, tx: Tx) {
    tx.normal ==> tx.cost <= head.Balance(a) && tx.gas <= head.maxGas
  }

  predicate ValidPrivacy(head: Head, tx: Tx) {
    !tx.normal ==> tx in head.privacyValid
  }

  /** The chain has passed the nonce, or it is unpayable, or an unpayable one lies below it. */
  lemma PartIff(head: Head, a: Address, p: Items, n: nat)
    requires n in p
    ensures var t, lo := Split(head, a, p), head.Nonce(a);
      && (n in t.passed <==> n < lo)
      && (n in t.drops <==> n >= lo && !Payable(head, a, p[n]))
      && (n in t.invalids <==> n >= lo && Payable(head, a, p[n]) && UnpaidBelow(head, a, p, n))
  {
    var costly, p1 := TooCostly(head.Balance(a), head.maxGas), AtLeast(p, head.Nonce(a));
    StrictIff(p1, costly, n);
    forall k | k in p1 ensures costly(p1[k]) <==> !Payable(head, a, p[k]) {
    }
    if n in p1 && Payable(head, a, p[n]) {
      UnpaidIff(head, a, p, p1, costly, n);
    }
  }

  predicate UnpaidBelow(head: Head, a: Address, p: Items, n: nat) {
    exists k :: k in p && head.Nonce(a) <= k < n && !Payable(head, a, p[k])
  }

  lemma UnpaidIff(head: Head, a: Address, p: Items, p1: Items, costly: Tx -> bool, n: nat)
    requires p1 == AtLeast(p, head.Nonce(a)) && n in p1 && !costly(p1[n])
    requires forall k :: k in p1 ==> (costly(p1[k]) <==> !Payable(head, a, p[k]))
    ensures UnpaidBelow(head, a, p, n) <==> !forall k :: k in p1 && k <= n ==> !costly(p1[k])
  {
    if UnpaidBelow(head, a, p, n) {
      var k :| k in p && head.Nonce(a) <= k < n && !Payable(head, a, p[k]);
      assert k in p1 && costly(p1[k]);
    }
    if k :| k in p1 && k <= n && costly(p1[k]) {
      assert k in p && head.Nonce(a) <= k < n && !Payable(head, a, p[k]);
    }
  }

  /** What is left is payable and valid, down to the state nonce. */
  lemma LeftIff(head: Head, a: Address, p: Items, n: nat)
    ensures n in Split(head, a, p).left <==> n in p && n >= head.Nonce(a) && FineTo(head, a, p, n)
  {
    var costly, invalid := TooCostly(head.Balance(a), head.maxGas), InvalidPrivacy(head.privacyValid);
    StrictTwice(AtLeast(p, head.Nonce(a)), costly, invalid, n);
    if n in p {
      FineIff(head, a, p, costly, invalid, n);
    }
  }

  predicate FineTo(head: Head, a: Address, p: Items, n: nat) {
    forall k :: k in p && head.Nonce(a) <= k <= n ==> Payable(head, a, p[k]) && ValidPrivacy(head, p[k])
  }

  lemma FineIff(head: Head, a: Address, p: Items, costly: Tx -> bool, invalid: Tx -> bool, n: nat)
    requires costly == TooCostly(head.Balance(a), head.maxGas) && invalid == InvalidPrivacy(head.privacyValid)
    ensures FineTo(head, a, p, n) <==>
      var m := AtLeast(p, head.Nonce(a)); forall k :: k in m && k <= n ==> !costly(m[k]) && !invalid(m[k])
  {
    var m := AtLeast(p, head.Nonce(a));
    forall k | k in m ensures costly(m[k]) <==> !Payable(head, a, p[k]) {
    }
    forall k | k in m ensures invalid(m[k]) <==> !ValidPrivacy(head, p[k]) {
    }
  }

  lemma StrictTwice(m: Items, costly: Tx -> bool, invalid: Tx -> bool, n: nat)
    ensures n in StrictKept(StrictKept(m, costly), invalid) <==>
      n in m && forall k :: k in m && k <= n ==> !costly(m[k]) && !invalid(m[k])
  {
    var m2 := StrictKept(m, costly);
    StrictIff(m, costly, n);
    StrictIff(m2, invalid, n);
    forall k | k in m && k <= n && n in m2 ensures k in m2 && m2[k] == m[k] {
      StrictIff(m, costly, k);
    }
  }

  lemma StrictIff(m: Items, drop: Tx -> bool, n: nat)
    ensures n in StrictKept(m, drop) <==> n in m && forall k :: k in m && k <= n ==> !drop(m[k])
    ensures n in StrictKept(m, drop) ==> StrictKept(m, drop)[n] == m[n]
  {
  }

  /** Lists p' and q' are what demotion makes of p and q: a gap at the front sends everything left back to the queue. */
  ghost predicate DemotedTo(head: Head, a: Address, p: Items, q: Items, p': Items, q': Items) {
    Requeued(Split(head, a, p), head.Nonce(a), q, p', q')
  }

  ghost predicate Requeued(t: Parts, nonce: nat, q: Items, p': Items, q': Items) {
    var gap := t.left != map[] && nonce !in t.left;
    p' == (if gap then map[] else t.left) && q' == if gap then q + t.invalids + t.left else q + t.invalids
  }

  /** The parts partition the list; what is left is a prefix of what the chain has not passed. */
  ghost predicate Partitions(p: Items, nonce: nat, t: Parts) {
    && (forall n :: n in t.passed ==> n in p && t.passed[n] == p[n] && n !in t.left && n !in t.invalids)
    && (forall n :: n in t.drops ==> n in p && t.drops[n] == p[n] && n !in t.left && n !in t.invalids)
    && (forall n :: n in t.privacy ==> n in p && t.privacy[n] == p[n] && n !in t.left && n !in t.invalids)
    && (forall n :: n in t.invalids ==> n in p && t.invalids[n] == p[n] && n !in t.left && n >= nonce)
    && (forall n :: n in t.left ==> n in p && t.left[n] == p[n] && n >= nonce)
    && (forall n, k :: n in t.left && k in p && k >= nonce && k !in t.left ==> n < k)
  }

  lemma SplitPartitions(head: Head, a: Address, p: Items)
    ensures Partitions(p, head.Nonce(a), Split(head, a, p))
  {
    var costly, invalid := TooCostly(head.Balance(a), head.maxGas), InvalidPrivacy(head.privacyValid);
    var p1 := AtLeast(p, head.Nonce(a));
    StrictPrefix(p1, costly);
    StrictPrefix(StrictKept(p1, costly), invalid);
  }

  /** Strict removal leaves a prefix without the dropped ones. */
  lemma StrictPrefix(m: Items, drop: Tx -> bool)
    ensures var kept := StrictKept(m, drop);
      && (forall n :: n in kept ==> n in m && kept[n] == m[n] && n !in Dropped(m, drop))
      && (forall n, k :: n in kept && k in m && k !in kept ==> n < k)
  {
    var kept := StrictKept(m, drop);
    forall n, k | n in kept && k in m && k !in kept ensures n < k {
      var d :| d in m && drop(m[d]) && d <= k;
      assert n < d;
    }
  }

  /** Everything forgotten belongs to account a and has one of the given nonces. */
  ghost predicate Forgotten(all: set<Tx>, all': set<Tx>, a: Address, gone: set<nat>) {
    all' <= all && forall tx :: tx in all && tx !in all' ==> tx.sender == a && tx.nonce in gone
  }

  lemma StillOwned(m: Items, a: Address, all: set<Tx>, all': set<Tx>, gone: set<nat>)
    requires Owned(m, a, all) && Forgotten(all, all', a, gone) && m.Keys !! gone
    ensures Owned(m, a, all')
  {
  }

  /** Forgets one part of the list. */
  method ForgetPart(s: State, priced: PricedList, a: Address, part: Items, ghost s0: State, ghost gone: set<nat>)
    returns (s': State)
    requires priced.Valid() && s == s0.(all := s.all) && Forgotten(s0.all, s.all, a, gone)
    requires forall n :: n in part ==> n in gone && part[n].nonce == n && part[n].sender == a
    modifies priced
    ensures priced.Valid() && forall t :: t in s'.all && t in old(priced.items) ==> t in priced.items
    ensures s' == s0.(all := s'.all) && Forgotten(s0.all, s'.all, a, gone) && s'.all == s.all - part.Values
  {
    s' := ForgetAll(s, priced, part.Values);
  }

  /** A prefix of a window is a window. */
  lemma PrefixWindow(p: Items, left: Items, nonce: nat, lo: nat, hi: nat) returns (h: nat)
    requires Window(p, lo, hi) && nonce in left
    requires forall n :: n in left ==> n in p && n >= nonce
    requires forall n, k :: n in left && k in p && k >= nonce && k !in left ==> n < k
    ensures Window(left, nonce, h) && h <= hi && (h < hi ==> h !in left)
  {
    h := nonce;
    while h in left
      invariant nonce <= h <= hi && forall n :: nonce <= n < h ==> n in left
      decreases hi - h
    {
      h := h + 1;
    }
    forall n | n in left ensures n < h {
      if h < hi {
        assert h in p;
      }
    }
  }

  lemma OwnedBoth(m: Items, n: Items, a: Address, all: set<Tx>)
    requires Owned(m, a, all) && Owned(n, a, all)
    ensures Owned(m + n, a, all)
  {
  }

  lemma DemotedPrefix(p: Items, q: Items, lo: nat, hi: nat, nonce: nat, t: Parts)
    requires Window(p, lo, hi) && Partitions(p, nonce, t) && nonce in t.left && forall m :: m in q ==> m >= hi
    ensures exists h: nat :: Window(t.left, nonce, h) && forall m :: m in q + t.invalids ==> m >= h
  {
    var h := PrefixWindow(p, t.left, nonce, lo, hi);
    forall m | m in q + t.invalids ensures m >= h {
      assert m in t.invalids ==> m !in t.left && m >= nonce;
    }
  }

  lemma DemotedLists(a: Address, p: Items, q: Items, lo: nat, hi: nat, nonce: nat, t: Parts, all: set<Tx>)
    requires Window(p, lo, hi) && Partitions(p, nonce, t) && forall m :: m in q ==> m >= hi
    requires Owned(q, a, all) && Owned(t.left, a, all) && Owned(t.invalids, a, all)
    ensures if t.left != map[] && nonce !in t.left then Demoted(a, map[], q + t.invalids + t.left, nonce, all)
            else Demoted(a, t.left, q + t.invalids, nonce, all)
  {
    OwnedBoth(q, t.invalids, a, all);
    if nonce in t.left {
      DemotedPrefix(p, q, lo, hi, nonce, t);
    } else if t.left != map[] {
      OwnedBoth(q + t.invalids, t.left, a, all);
    }
  }

  lemma PartsOwned(a: Address, p: Items, q: Items, lo: nat, hi: nat, nonce: nat, t: Parts, all: set<Tx>, all': set<Tx>,
                   gone: set<nat>)
    requires Demotable(a, p, q, lo, hi, all) && Partitions(p, nonce, t)
    requires gone == t.passed.Keys + t.drops.Keys + t.privacy.Keys && Forgotten(all, all', a, gone)
    ensures Owned(q, a, all') && Owned(t.left, a, all') && Owned(t.invalids, a, all')
  {
    StillOwned(q, a, all, all', gone);
    StillOwned(t.left, a, all, all', gone);
    StillOwned(t.invalids, a, all, all', gone);
  }

  /** One round of `demoteUnexecutables`. */
  method DemoteAccount(s: State, priced: PricedList, a: Address, ghost lo: nat, ghost hi: nat) returns (s': State)
    requires priced.Valid() && priced.Covers(s.all) && a in s.pending
    requires Demotable(a, Get(s.pending, a), Get(s.queue, a), lo, hi, s.all)
    modifies priced
    ensures priced.Valid() && priced.Covers(s'.all)
    ensures OnlyAccount(s, s', a) && s'.virt == s.virt && s'.all <= s.all
    ensures forall tx :: tx in s.all && tx.sender != a ==> tx in s'.all
    ensures Demoted(a, Get(s'.pending, a), Get(s'.queue, a), s.head.Nonce(a), s'.all)
    ensures DemotedTo(s.head, a, Get(s.pending, a), Get(s.queue, a), Get(s'.pending, a), Get(s'.queue, a))
    ensures a in s'.pending ==> s'.pending[a] != map[]
    ensures forall b :: b != a ==> (b in s'.pending <==> b in s.pending)
    ensures Sheds(s, s')
  {
    var p, nonce := s.pending[a], s.head.Nonce(a);
    ghost var q := Get(s.queue, a);
    var t := SplitList(s.head, a, p, nonce);
    var s1 := ForgetParts(s, priced, a, p, nonce, t);
    PartsOwned(a, p, q, lo, hi, nonce, t, s.all, s1.all, t.passed.Keys + t.drops.Keys + t.privacy.Keys);
    DemotedLists(a, p, q, lo, hi, nonce, t, s1.all);
    s' := Requeue(s1, priced, a, t, nonce, hi);
    SplitCovers(s.head, a, p);
    DemotionSheds(s, s', a, p, q, nonce, t);
  }

  /** Every nonce of the list is in one of the parts. */
  ghost predicate Covering(p: Items, t: Parts) {
    forall n :: n in p && n !in t.invalids && n !in t.left ==> n in t.passed || n in t.drops || n in t.privacy
  }

  lemma SplitCovers(head: Head, a: Address, p: Items)
    ensures Covering(p, Split(head, a, p))
  {
  }

  /** Demotion forgets exactly what it leaves in neither list. */
  lemma DemotionSheds(s: State, s': State, a: Address, p: Items, q: Items, nonce: nat, t: Parts)
    requires p == Get(s.pending, a) && q == Get(s.queue, a) && p.Keys !! q.Keys && Owned(p, a, s.all)
    requires Partitions(p, nonce, t) && Covering(p, t) && Requeued(t, nonce, q, Get(s'.pending, a), Get(s'.queue, a))
    requires OnlyAccount(s, s', a) && s'.all == s.all - t.passed.Values - t.drops.Values - t.privacy.Values
    ensures Sheds(s, s')
  {
    var stays := t.invalids + t.left;
    PartsGone(a, p, t, nonce, stays, s.all, s'.all);
    PartsShed(s, s', a, p, q, stays, t, nonce);
    ShedsOne(s, s', a);
  }

  lemma PartsGone(a: Address, p: Items, t: Parts, nonce: nat, stays: Items, all: set<Tx>, all': set<Tx>)
    requires Owned(p, a, all) && Partitions(p, nonce, t) && Covering(p, t) && stays == t.invalids + t.left
    requires all' == all - t.passed.Values - t.drops.Values - t.privacy.Values
    ensures forall n :: n in stays ==> n in p && stays[n] == p[n]
    ensures t.invalids.Keys !! t.left.Keys
    ensures forall tx :: tx in all' <==> tx in all && !(Has(p, tx) && tx.nonce !in stays)
    ensures forall tx :: tx in all && tx !in all' ==> tx.sender == a
  {
    CleanedAway(a, p, t.passed, t.drops, t.privacy, stays, all, all');
  }

  lemma PartsShed(s: State, s': State, a: Address, p: Items, q: Items, stays: Items, t: Parts, nonce: nat)
    requires p == Get(s.pending, a) && q == Get(s.queue, a) && p.Keys !! q.Keys && stays == t.invalids + t.left
    requires Requeued(t, nonce, q, Get(s'.pending, a), Get(s'.queue, a)) && t.invalids.Keys !! t.left.Keys
    requires forall n :: n in stays ==> n in p && stays[n] == p[n]
    requires forall tx :: tx in s'.all <==> tx in s.all && !(Has(p, tx) && tx.nonce !in stays)
    ensures AccountSheds(s, s', a)
  {
    var was, now := s.View(a), s'.View(a);
    assert was.p == p && was.q == q && now.p == Get(s'.pending, a) && now.q == Get(s'.queue, a);
    forall tx: Tx | tx.sender == a ensures ShedAt(was, s.all, now, s'.all, tx) {
      StillListed(p, q, now.p, now.q, t.invalids, t.left, t.left != map[] && nonce !in t.left, tx);
      assert tx in s'.all <==> tx in s.all && !(Has(p, tx) && tx.nonce !in stays);
    }
  }

  /** A transaction is in one of the lists after demotion exactly if it was queued or stays. */
  lemma StillListed(p: Items, q: Items, p': Items, q': Items, invalids: Items, left: Items, gap: bool, tx: Tx)
    requires p.Keys !! q.Keys && invalids.Keys !! left.Keys
    requires forall n :: n in invalids ==> n in p && invalids[n] == p[n]
    requires forall n :: n in left ==> n in p && left[n] == p[n]
    requires p' == (if gap then map[] else left) && q' == if gap then q + invalids + left else q + invalids
    ensures Has(p', tx) || Has(q', tx) <==> Has(q, tx) || (Has(p, tx) && (tx.nonce in invalids || tx.nonce in left))
  {
    var n := tx.nonce;
    assert n in q' <==> n in q || n in invalids || (gap && n in left);
  }

  method SplitList(head: Head, a: Address, p: Items, nonce: nat) returns (t: Parts)
    requires nonce == head.Nonce(a)
    ensures Partitions(p, nonce, t) && t == Split(head, a, p)
  {
    SplitPartitions(head, a, p);
    t := Split(head, a, p);
  }

  /** Forgets what the chain has passed, what became unpayable and invalid privacy transactions. */
  method ForgetParts(s: State, priced: PricedList, a: Address, p: Items, nonce: nat, t: Parts) returns (s': State)
    requires priced.Valid() && priced.Covers(s.all) && Owned(p, a, s.all) && Partitions(p, nonce, t)
    modifies priced
    ensures priced.Valid() && priced.Covers(s'.all) && s' == s.(all := s'.all)
    ensures Forgotten(s.all, s'.all, a, t.passed.Keys + t.drops.Keys + t.privacy.Keys)
    ensures s'.all == s.all - t.passed.Values - t.drops.Values - t.privacy.Values
  {
    ghost var gone := t.passed.Keys + t.drops.Keys + t.privacy.Keys;
    s' := ForgetPart(s, priced, a, t.passed, s, gone);
    s' := ForgetPart(s', priced, a, t.drops, s, gone);
    s' := ForgetPart(s', priced, a, t.privacy, s, gone);
  }

  /** Puts demoted transactions into the queue and stores what is left. */
  method Requeue(s: State, priced: PricedList, a: Address, t: Parts, nonce: nat, ghost hi: nat) returns (s': State)
    requires priced.Valid() && priced.Covers(s.all)
    requires Owned(t.left, a, s.all) && Owned(t.invalids, a, s.all)
    requires forall n :: n in t.left ==> n !in t.invalids && n < hi
    requires (forall n :: n in t.invalids ==> n < hi) && forall m :: m in Get(s.queue, a) ==> m >= hi
    modifies priced
    ensures priced.Valid() && priced.Covers(s'.all) && OnlyAccount(s, s', a) && s'.virt == s.virt && s'.all == s.all
    ensures Requeued(t, nonce, Get(s.queue, a), Get(s'.pending, a), Get(s'.queue, a))
    ensures a in s'.pending ==> s'.pending[a] != map[]
    ensures forall b :: b != a ==> (b in s'.pending <==> b in s.pending)
  {
    s' := EnqueueItems(s, priced, a, t.invalids);
    var left := t.left;
    if left != map[] && nonce !in left {
      s' := EnqueueItems(s', priced, a, left);
      left := map[];
    }
    s' := s'.(pending := PutList(s.pending, a, left));
  }
}
