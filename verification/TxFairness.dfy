// core/tx_pool.go, promoteExecutables: when the executable lists overflow, large remote accounts
// are cut back in rounds. The rounds amount to exact water-filling.
module TxFairness {
  import opened Powers
  import opened Sums
  import opened TxLists
  import opened TxPriced
  import opened TxPool
  import opened WaterLevel

  function Sizes(m: Accounts): map<Address, nat> {
    map a | a in m :: |m[a]|
  }

  /** How many transactions the lists hold together. */
  ghost function Total(m: Accounts): nat {
    Sum(Sizes(m))
  }

  function DemandOf(s: State): Demand {
    Demand(Sizes(s.pending), s.locals, s.config.accountSlots, s.config.globalSlots)
  }

  /** The counting loops over `pool.pending` and `pool.queue`. */
  method Count(m: Accounts) returns (n: nat)
    ensures n == Total(m)
  {
    n := 0;
    ghost var sizes := Sizes(m);
    assert sizes.Keys == m.Keys;
    var todo := m.Keys;
    while todo != {}
      invariant todo <= sizes.Keys && n + SumOver(todo, sizes) == Total(m)
      decreases todo
    {
      var a := Pick(todo);
      SumRemove(todo, sizes, a);
      n, todo := n + |m[a]|, todo - {a};
    }
  }

  lemma {:induction false} WindowSize(m: Items, lo: nat, hi: nat)
    requires Window(m, lo, hi)
    ensures |m| == hi - lo
    decreases hi - lo
  {
    if lo == hi {
      assert m == map[];
    } else {
      WindowSize(RemoveKey(m, hi - 1), lo, hi - 1);
    }
  }

  /** Keeping all but one of a window cuts its highest nonce. */
  lemma CapWindow(m: Items, kept: Items, lo: nat, hi: nat)
    requires Window(m, lo, hi) && m != map[] && KeepsLowest(m, kept, |m| - 1)
    ensures hi > lo && kept == Below(m, hi - 1) && |kept| == |m| - 1
  {
    WindowSize(m, lo, hi);
    var n := hi - 1;
    assert n in m;
    assert m.Keys - kept.Keys != {} by {
      assert |m.Keys - kept.Keys| == |m.Keys| - |kept.Keys|;
    }
    var b :| b in m.Keys - kept.Keys;
    assert b <= n;
    var rest := m.Keys - {n};
    assert |rest| == |m| - 1 && kept.Keys <= rest;
    SubsetSameSize(kept.Keys, rest);
  }

  lemma SubsetSameSize<T>(a: set<T>, b: set<T>)
    requires a <= b && |a| == |b|
    ensures a == b
  {
    assert |b - a| == |b| - |a|;
  }

  /** The price heap and the pool agree. */
  ghost predicate Synced(s: State, priced: PricedList)
    reads priced
  {
    priced.Valid() && priced.Covers(s.all)
  }

  /** `s'` differs from `s0` only in that executable lists lost their highest nonces. */
  ghost predicate Trimmed(s0: State, s': State) {
    forall a :: TrimmedAt(s0, s', a)
  }

  /** Account a is in order and its executable list holds the lowest nonces it had in `s0`. */
  ghost predicate TrimmedAt(s0: State, s': State, a: Address) {
    && s' == s0.(virt := s'.virt, pending := s'.pending, all := s'.all)
    && s'.Ok(a) && Get(s'.pending, a) == Below(Get(s0.pending, a), s'.Virtual(a))
    && (a in s'.pending <==> a in s0.pending) && AccountSheds(s0, s', a)
  }

  /** Forgets the transaction at the top of a list that was capped, and lowers the virtual nonce to it. */
  method DropTop(s: State, priced: PricedList, a: Address, kept: Items, tx: Tx) returns (s': State)
    requires Synced(s, priced) && tx.nonce < s.Virtual(a)
    modifies priced
    ensures Synced(s', priced)
    ensures s' == s.(pending := s.pending[a := kept], virt := s.virt[a := tx.nonce], all := s.all - {tx})
  {
    s' := Forget(s, priced, tx);
    s' := s'.(pending := s.pending[a := kept]);
    if s'.Virtual(a) > tx.nonce {
      s' := s'.(virt := s.virt[a := tx.nonce]);
    }
  }

  /** Capping one list by one: the body of both equalising loops. */
  method CutOne(s: State, priced: PricedList, a: Address) returns (s': State, top: nat)
    requires Synced(s, priced) && s.Ok(a) && a in s.pending && s.pending[a] != map[]
    modifies priced
    ensures Synced(s', priced) && top + 1 == s.Virtual(a)
    ensures s' == s.(pending := s.pending[a := Below(s.pending[a], top)], virt := s.virt[a := top], all := s'.all)
    ensures s'.Ok(a) && |s'.pending[a]| == |s.pending[a]| - 1
    ensures top in s.pending[a] && s'.all == s.all - {s.pending[a][top]}
  {
    var p := s.pending[a];
    var kept := CapItems(p, |p| - 1);
    ghost var w := TopOf(s, a, kept);
    top :| top in p && top !in kept;
    s' := DropTop(s, priced, a, kept, p[top]);
    assert s'.View(a) == Account(kept, Get(s.queue, a), top);
  }

  /** The one nonce a cap by one drops is the last before the virtual nonce. */
  lemma TopOf(s: State, a: Address, kept: Items) returns (top: nat)
    requires s.Ok(a) && a in s.pending && s.pending[a] != map[]
    requires KeepsLowest(s.pending[a], kept, |s.pending[a]| - 1)
    ensures var p := s.pending[a];
      && top + 1 == s.Virtual(a) && kept == Below(p, top) && |kept| == |p| - 1
      && top in p && top !in kept && p[top].nonce == top && p[top].sender == a
      && (forall n :: n in p && n !in kept ==> n == top)
      && AccountOk(a, Account(kept, Get(s.queue, a), top), s.head.Nonce(a), s.all - {p[top]})
  {
    var p, lo := s.pending[a], s.head.Nonce(a);
    CapWindow(p, kept, lo, s.Virtual(a));
    top := s.Virtual(a) - 1;
    assert top in p;
    CutTop(a, s.View(a), lo, s.all, p[top]);
  }

  lemma CutOneTrims(s0: State, s: State, s': State, a: Address, top: nat)
    requires Trimmed(s0, s) && a in s.pending && top + 1 == s.Virtual(a) && s'.Ok(a)
    requires s' == s.(pending := s.pending[a := Below(s.pending[a], top)], virt := s.virt[a := top], all := s'.all)
    requires top in s.pending[a] && s'.all == s.all - {s.pending[a][top]}
    ensures Trimmed(s0, s')
  {
    assert TrimmedAt(s0, s, a);
    CutSheds(s, s', a, top);
    forall b | b != a ensures s.Ok(b) {
      assert TrimmedAt(s0, s, b);
    }
    OthersOk(s, s', a);
    forall b ensures TrimmedAt(s0, s', b) {
      assert TrimmedAt(s0, s, b);
      AccountShedsTrans(s0, s, s', b);
      if b != a {
        assert s'.View(b) == s.View(b);
      } else {
        BelowBelow(Get(s0.pending, a), s.Virtual(a), top);
      }
    }
  }

  /** Cutting the top of an executable list forgets exactly that transaction. */
  lemma CutSheds(s: State, s': State, a: Address, top: nat)
    requires s.Ok(a) && a in s.pending && top + 1 == s.Virtual(a) && top in s.pending[a]
    requires s' == s.(pending := s.pending[a := Below(s.pending[a], top)], virt := s.virt[a := top],
                      all := s.all - {s.pending[a][top]})
    ensures Sheds(s, s') && forall tx :: tx in s.all && tx.sender != a ==> tx in s'.all
  {
    var was, gone := s.View(a), s.pending[a][top];
    assert was.p == s.pending[a] && gone.nonce == top && gone.sender == a;
    assert s'.View(a) == Account(Below(was.p, top), was.q, top);
    forall tx: Tx | tx.sender == a ensures ShedAt(was, s.all, s'.View(a), s'.all, tx) {
      assert tx.nonce in was.p ==> tx.nonce < top || tx.nonce == top;
    }
    forall b | b != a ensures s'.View(b) == s.View(b) {
    }
    ShedsOne(s, s', a);
  }

  lemma CutTop(a: Address, s: Account, lo: nat, all: set<Tx>, tx: Tx)
    requires AccountOk(a, s, lo, all) && tx.nonce in s.p
    ensures AccountOk(a, Account(Below(s.p, tx.nonce), s.q, tx.nonce), lo, all - {tx})
  {
    CutWindow(a, s, lo, all, tx);
  }

  lemma BelowBelow(m: Items, t: nat, u: nat)
    requires u <= t
    ensures Below(Below(m, t), u) == Below(m, u)
  {
  }

  method CutTrimmed(s: State, priced: PricedList, a: Address, ghost s0: State) returns (s': State)
    requires Synced(s, priced) && Trimmed(s0, s) && a in s.pending && Sizes(s.pending)[a] > 0
    modifies priced
    ensures Synced(s', priced) && Trimmed(s0, s')
    ensures Sizes(s'.pending) == Sizes(s.pending)[a := Sizes(s.pending)[a] - 1]
  {
    assert TrimmedAt(s0, s, a);
    var top;
    s', top := CutOne(s, priced, a);
    CutOneTrims(s0, s, s', a, top);
    SizesWith(s.pending, a, s'.pending[a]);
  }

  lemma SizesWith(m: Accounts, a: Address, list: Items)
    ensures Sizes(m[a := list]) == Sizes(m)[a := |list|]
  {
  }

  lemma CutOnceMore(sizes: map<Address, nat>, offenders: seq<Address>, i: nat)
    requires Distinct(offenders) && i < |offenders| && offenders[i] in sizes && sizes[offenders[i]] > 0
    ensures var a, before := offenders[i], CutOnce(sizes, offenders[..i]);
      a in before && before[a] == sizes[a] && CutOnce(sizes, offenders[..i + 1]) == before[a := before[a] - 1]
  {
    var a, before := offenders[i], CutOnce(sizes, offenders[..i]);
    assert a !in offenders[..i];
    assert offenders[..i + 1] == offenders[..i] + [a];
  }

  method CutNext(s: State, priced: PricedList, offenders: seq<Address>, i: nat, ghost sizes: map<Address, nat>,
                 pending: nat, ghost s0: State)
    returns (s': State, pending': nat)
    requires Synced(s, priced) && Trimmed(s0, s) && pending == Total(s.pending)
    requires Distinct(offenders) && i < |offenders| && offenders[i] in sizes && sizes[offenders[i]] > 0
    requires Sizes(s.pending) == CutOnce(sizes, offenders[..i])
    modifies priced
    ensures Synced(s', priced) && Trimmed(s0, s') && pending' == Total(s'.pending)
    ensures Sizes(s'.pending) == CutOnce(sizes, offenders[..i + 1])
  {
    var a := offenders[i];
    CutOnceMore(sizes, offenders, i);
    SumUpdate(Sizes(s.pending), a, sizes[a] - 1);
    assert a in Sizes(s.pending);
    s' := CutTrimmed(s, priced, a, s0);
    pending' := pending - 1;
  }

  /** One round: every given account loses its highest nonce. */
  method CutRound(s: State, priced: PricedList, offenders: seq<Address>, pending: nat, ghost s0: State)
    returns (s': State, pending': nat)
    requires Synced(s, priced) && Trimmed(s0, s) && pending == Total(s.pending)
    requires Distinct(offenders)
    requires forall k :: 0 <= k < |offenders| ==> offenders[k] in Sizes(s.pending) && Sizes(s.pending)[offenders[k]] > 0
    modifies priced
    ensures Synced(s', priced) && Trimmed(s0, s') && pending' == Total(s'.pending)
    ensures Sizes(s'.pending) == CutOnce(Sizes(s.pending), offenders)
  {
    ghost var sizes := Sizes(s.pending);
    s', pending' := s, pending;
    var i := 0;
    assert CutOnce(sizes, offenders[..0]) == sizes;
    while i < |offenders|
      invariant 0 <= i <= |offenders|
      invariant Synced(s', priced) && Trimmed(s0, s') && pending' == Total(s'.pending)
      invariant Sizes(s'.pending) == CutOnce(sizes, offenders[..i])
    {
      s', pending' := CutNext(s', priced, offenders, i, sizes, pending', s0);
      i := i + 1;
    }
    assert offenders[..i] == offenders;
  }

  // ---------------------------------------------------------------- water-filling

  /** The state of the equalising loops: all remote accounts stand at one level, none cut too far. */
  ghost predicate Filling(s0: State, d: Demand, s: State, pending: nat, level: nat) {
    && Trimmed(s0, s) && d == DemandOf(s0)
    && pending == Total(s.pending) && Sizes(s.pending) == d.Shares(level)
    && level >= d.accountSlots && d.TotalAt(level + 1) > d.globalSlots
  }

  /** One round over `offenders`, all of which stand at the level. */
  method LowerLevel(s: State, priced: PricedList, offenders: seq<Address>, pending: nat, ghost s0: State,
                    ghost d: Demand, ghost level: nat, ghost floor: nat)
    returns (s': State, pending': nat, ghost lower: nat)
    requires Synced(s, priced) && Filling(s0, d, s, pending, level)
    requires Above(d, offenders, level, floor) && level > floor >= d.accountSlots && pending > d.globalSlots
    modifies priced
    ensures lower == level - 1
    ensures Synced(s', priced) && Filling(s0, d, s', pending', lower) && Above(d, offenders, lower, floor)
  {
    lower := level - 1;
    RoundLowersLevel(d, offenders, level, lower, floor);
    s', pending' := CutRound(s, priced, offenders, pending, s0);
    FillingLower(s0, d, s, s', pending', level, lower);
  }

  lemma FillingLower(s0: State, d: Demand, s: State, s': State, pending': nat, level: nat, lower: nat)
    requires Filling(s0, d, s, Total(s.pending), level) && Total(s.pending) > d.globalSlots && level == lower + 1
    requires Trimmed(s0, s') && pending' == Total(s'.pending)
    requires Sizes(s'.pending) == d.Shares(lower) && lower >= d.accountSlots
    ensures Filling(s0, d, s', pending', lower)
  {
  }

  /** The length of the last offender's list, which the loops compare with their floor. */
  method LastLength(s: State, offenders: seq<Address>, ghost d: Demand, ghost level: nat, ghost floor: nat)
    returns (n: nat)
    requires Sizes(s.pending) == d.Shares(level) && Above(d, offenders, level, floor)
    ensures n == level
  {
    var a := offenders[|offenders| - 1];
    assert a in d.sizes;
    assert a in Sizes(s.pending) && Sizes(s.pending)[a] == level;
    n := |s.pending[a]|;
  }

  /** Both equalising loops: rounds until the total fits or the floor is reached. */
  method CutDown(s: State, priced: PricedList, offenders: seq<Address>, floor: nat, pending: nat, ghost s0: State,
                 ghost d: Demand, ghost level: nat)
    returns (s': State, pending': nat, ghost level': nat)
    requires Synced(s, priced) && Filling(s0, d, s, pending, level)
    requires Above(d, offenders, level, floor) && d.accountSlots <= floor <= level
    modifies priced
    ensures Synced(s', priced) && Filling(s0, d, s', pending', level')
    ensures floor <= level' <= level && (pending' <= d.globalSlots || level' == floor)
  {
    s', pending', level' := s, pending, level;
    var limit := s.config.globalSlots;
    assert TrimmedAt(s0, s, 0);
    var length := LastLength(s', offenders, d, level', floor);
    while pending' > limit && length > floor
      invariant Synced(s', priced) && Filling(s0, d, s', pending', level') && Above(d, offenders, level', floor)
      invariant floor <= level' <= level && length == level'
      decreases level'
    {
      s', pending', level' := LowerLevel(s', priced, offenders, pending', s0, d, level', floor);
      length := LastLength(s', offenders, d, level', floor);
    }
  }

  /** Taking the account with the longest list from the priority queue. */
  method PopLargest(s: State, spammers: set<Address>) returns (a: Address)
    requires spammers != {} && spammers <= s.pending.Keys
    ensures a in spammers && forall b :: b in spammers ==> Sizes(s.pending)[b] <= Sizes(s.pending)[a]
  {
    a := Pick(spammers);
    var todo := spammers - {a};
    while todo != {}
      invariant a in spammers && todo <= spammers
      invariant forall b :: b in spammers && b !in todo ==> Sizes(s.pending)[b] <= Sizes(s.pending)[a]
      decreases todo
    {
      var b := Pick(todo);
      if |s.pending[b]| > |s.pending[a]| {
        a := b;
      }
      todo := todo - {b};
    }
  }

  /** The part of the offender loop after a pop: equalise those popped before. */
  method EqualizeOthers(s: State, priced: PricedList, offenders: seq<Address>, offender: Address,
                        spammers: set<Address>, pending: nat, ghost s0: State, ghost d: Demand, ghost level: nat)
    returns (s': State, pending': nat, ghost level': nat)
    requires Synced(s, priced) && Filling(s0, d, s, pending, level) && offenders != []
    requires Split(d, offenders + [offender], spammers) && d.Large(offender) && d.sizes[offender] <= level
    requires forall b :: b in spammers ==> b in d.sizes && d.sizes[b] <= d.sizes[offender]
    requires forall a :: a in offenders ==> a in d.sizes && a !in d.locals && d.sizes[a] >= level
    modifies priced
    ensures Synced(s', priced) && Filling(s0, d, s', pending', level')
    ensures d.accountSlots < level' <= level && (pending' > d.globalSlots ==> level' == d.sizes[offender])
    ensures d.sizes[offender] <= level'
  {
    RestAreShorter(d, offenders, offender, spammers);
    assert Distinct(offenders + [offender]);
    assert forall i :: 0 <= i < |offenders| ==> (offenders + [offender])[i] == offenders[i];
    var threshold := LengthOf(s, offender, d, level);
    s', pending', level' := CutDown(s, priced, offenders, threshold, pending, s0, d, level);
  }

  method LengthOf(s: State, a: Address, ghost d: Demand, ghost level: nat) returns (n: nat)
    requires Sizes(s.pending) == d.Shares(level) && a in d.sizes && d.sizes[a] <= level
    ensures n == d.sizes[a]
  {
    assert a in Sizes(s.pending) && Sizes(s.pending)[a] == d.sizes[a];
    n := |s.pending[a]|;
  }

  /** The offenders of a round all stand at the level as long as the total is too high. */
  ghost predicate Queued(d: Demand, offenders: seq<Address>, spammers: set<Address>, pending: nat, level: nat) {
    && Split(d, offenders, spammers) && level > d.accountSlots
    && (forall a :: a in spammers ==> a in d.sizes && d.sizes[a] <= level)
    && (pending > d.globalSlots ==>
        forall a :: a in offenders ==> a in d.sizes && a !in d.locals && d.sizes[a] >= level)
  }

  lemma PopSplits(d: Demand, offenders: seq<Address>, spammers: set<Address>, a: Address)
    requires Split(d, offenders, spammers) && a in spammers
    ensures Split(d, offenders + [a], spammers - {a}) && d.Large(a)
  {
    forall b ensures (b in offenders + [a] || b in spammers - {a}) <==> d.Large(b) {
      assert (b in offenders || b in spammers) <==> d.Large(b);
    }
  }

  /** The loop that pops offenders, largest first, and equalises the ones popped before. */
  method CutOffenders(s: State, priced: PricedList, large: set<Address>, total: nat, ghost d: Demand)
    returns (s': State, pending: nat, offenders: seq<Address>, ghost level: nat)
    requires Synced(s, priced) && Trimmed(s, s) && d == DemandOf(s) && Split(d, [], large) && large != {}
    requires total == Total(s.pending) > s.config.globalSlots
    modifies priced
    ensures Synced(s', priced) && Filling(s, d, s', pending, level) && offenders != []
    ensures exists spammers ::
      Queued(d, offenders, spammers, pending, level) && (pending > d.globalSlots ==> spammers == {})
  {
    s', pending, offenders, level := s, total, [], 0;
    var spammers, limit := large, s.config.globalSlots;
    while pending > limit && spammers != {}
      invariant Synced(s', priced) && Split(d, offenders, spammers)
      invariant if offenders == [] then s' == s && spammers == large && pending == total
                else Filling(s, d, s', pending, level) && Queued(d, offenders, spammers, pending, level)
      decreases spammers
    {
      var offender;
      if |offenders| > 0 {
        s', pending, offender, level := NextOffender(s', priced, offenders, spammers, pending, s, d, level);
      } else {
        SplitInPending(s, offenders, spammers);
        offender := PopLargest(s, spammers);
        PopSplits(d, offenders, spammers, offender);
        FirstOffender(d, offender, large);
        level := d.sizes[offender];
      }
      offenders, spammers := offenders + [offender], spammers - {offender};
    }
  }

  /** A round after the first: pops the next offender and equalises those popped before. */
  method NextOffender(s: State, priced: PricedList, offenders: seq<Address>, spammers: set<Address>, pending: nat,
                      s0: State, ghost d: Demand, ghost level: nat)
    returns (s': State, pending': nat, offender: Address, ghost level': nat)
    requires Synced(s, priced) && d == DemandOf(s0) && pending > d.globalSlots && offenders != [] && spammers != {}
    requires Filling(s0, d, s, pending, level) && Queued(d, offenders, spammers, pending, level)
    modifies priced
    ensures offender in spammers && Synced(s', priced) && Filling(s0, d, s', pending', level')
    ensures Queued(d, offenders + [offender], spammers - {offender}, pending', level')
  {
    SplitInPending(s0, offenders, spammers);
    offender := PopLargest(s0, spammers);
    PopSplits(d, offenders, spammers, offender);
    var rest := spammers - {offender};
    s', pending', level' := EqualizeOthers(s, priced, offenders, offender, rest, pending, s0, d, level);
  }

  lemma SplitInPending(s: State, offenders: seq<Address>, spammers: set<Address>)
    requires Split(DemandOf(s), offenders, spammers)
    ensures spammers <= s.pending.Keys
  {
    forall a | a in spammers ensures a in s.pending {
      assert DemandOf(s).Large(a);
    }
  }

  /** The equalising part of `promoteExecutables`: every remote account ends at the water level. */
  method Equalize(s: State, priced: PricedList) returns (s': State, ghost level: nat)
    requires s.AllOk() && Synced(s, priced)
    modifies priced
    ensures Synced(s', priced) && Trimmed(s, s')
    ensures Total(s.pending) <= s.config.globalSlots ==> s' == s
    ensures Total(s.pending) > s.config.globalSlots ==>
      DemandOf(s).IsWaterLevel(level) && Sizes(s'.pending) == DemandOf(s).Shares(level)
  {
    s', level := s, s.config.accountSlots;
    ghost var d := DemandOf(s);
    AllTrimmed(s);
    var pending := Count(s.pending);
    if pending > s.config.globalSlots {
      var large := LargeAccounts(s);
      if large == {} {
        RestAreSmall(d, []);
        FullLevel(d, level);
        return;
      }
      var offenders;
      s', pending, offenders, level := CutOffenders(s, priced, large, pending, d);
      if pending > s.config.globalSlots && |offenders| > 0 {
        RestAreSmall(d, offenders);
        s', pending, level := CutDown(s', priced, offenders, s.config.accountSlots, pending, s, d, level);
      }
    }
  }

  /** The remote accounts above their guaranteed slots. */
  method LargeAccounts(s: State) returns (large: set<Address>)
    ensures Split(DemandOf(s), [], large)
  {
    large := set a | a in s.pending && a !in s.locals && |s.pending[a]| > s.config.accountSlots;
  }

  lemma AllTrimmed(s: State)
    requires s.AllOk()
    ensures Trimmed(s, s)
  {
    forall a ensures TrimmedAt(s, s, a) {
      assert s.Ok(a);
      assert Get(s.pending, a) == Below(Get(s.pending, a), s.Virtual(a));
    }
  }
}
