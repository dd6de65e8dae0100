// core/tx_list.go: the nonce-sorted map with its heap index and sorted cache, and the per-account
// list with its cost and gas caps. Both are proved against plain maps from nonce to transaction.
module TxLists {
  import opened Powers
  import Heaps

  type Address = int

  /** A transaction; `id` stands for whatever else its hash covers, so equal values are equal hashes. */
  datatype Tx = Tx(id: nat, sender: Address, nonce: nat, price: nat, cost: nat, gas: nat, normal: bool)

  type Items = map<nat, Tx>

  const NONCE_KEY: nat -> int := (n: nat) => n

  /** Every transaction sits at its own nonce. */
  predicate Keyed(m: Items) {
    forall n :: n in m ==> m[n].nonce == n
  }

  // ---------------------------------------------------------------- plain map operations

  function Below(m: Items, t: nat): Items {
    map n | n in m && n < t :: m[n]
  }

  function AtLeast(m: Items, t: nat): Items {
    map n | n in m && n >= t :: m[n]
  }

  /** `m'` keeps the `k` lowest nonces of `m` (all of them if there are fewer). */
  ghost predicate KeepsLowest(m: Items, m': Items, k: nat) {
    && m'.Keys <= m.Keys && (forall n :: n in m' ==> m'[n] == m[n])
    && |m'| == (if |m| <= k then |m| else k)
    && forall a, b :: a in m' && b in m && b !in m' ==> a < b
  }

  ghost predicate RunFrom(m: Items, first: nat, run: seq<Tx>) {
    forall n :: first <= n < first + |run| ==> n in m && m[n] == run[n - first]
  }

  /** `run` is the contiguous run of nonces starting at the lowest nonce of `m`, as far as it goes. */
  ghost predicate LeadingRun(m: Items, run: seq<Tx>) {
    && (run == [] <==> m == map[])
    && (run != [] ==>
        var first := run[0].nonce;
        && (forall n :: n in m ==> first <= n)
        && RunFrom(m, first, run)
        && first + |run| !in m)
  }

  /** `txs` lists exactly the values of `m` in strictly increasing nonce order. */
  ghost predicate Lists(m: Items, txs: seq<Tx>) {
    && |txs| == |m|
    && (forall i, j :: 0 <= i < j < |txs| ==> txs[i].nonce < txs[j].nonce)
    && (forall i :: 0 <= i < |txs| ==> txs[i].nonce in m && m[txs[i].nonce] == txs[i])
  }

  /** `txs` holds exactly the values of `m`, in some order and each once. */
  ghost predicate Holds(m: Items, txs: seq<Tx>) {
    && (forall i, j :: 0 <= i < j < |txs| ==> txs[i].nonce != txs[j].nonce)
    && (forall i :: 0 <= i < |txs| ==> txs[i].nonce in m && m[txs[i].nonce] == txs[i])
    && (forall n :: n in m ==> m[n] in txs)
  }

  /** `low` and `high` are the parts of `m` below and above some nonce. */
  ghost predicate Cuts(m: Items, low: Items, high: Items) {
    && (forall n :: n in m <==> n in low || n in high)
    && (forall n :: n in low ==> n in m && low[n] == m[n])
    && (forall n :: n in high ==> n in m && high[n] == m[n])
    && (forall a, b :: a in low && b in high ==> a < b)
  }

  /** A strictly sorted listing of the right length misses nothing. */
  lemma {:induction false} ListsCovers(m: Items, txs: seq<Tx>, n: nat)
    requires Lists(m, txs) && n in m
    ensures m[n] in txs && exists i :: 0 <= i < |txs| && txs[i].nonce == n
    decreases |txs|
  {
    var last := |txs| - 1;
    assert last >= 0;
    if txs[last].nonce != n {
      ListsCovers(RemoveKey(m, txs[last].nonce), txs[..last], n);
    }
  }

  lemma ListsTail(m: Items, txs: seq<Tx>)
    requires Lists(m, txs) && txs != []
    ensures Lists(RemoveKey(m, txs[0].nonce), txs[1..])
    ensures forall n :: n in m ==> txs[0].nonce <= n
  {
    forall n | n in m ensures txs[0].nonce <= n {
      ListsCovers(m, txs, n);
    }
  }

  lemma ListsExtend(m: Items, txs: seq<Tx>, tx: Tx)
    requires Lists(m, txs) && forall i :: 0 <= i < |txs| ==> txs[i].nonce < tx.nonce
    ensures Lists(m[tx.nonce := tx], txs + [tx])
  {
    if tx.nonce in m {
      ListsCovers(m, txs, tx.nonce);
    }
    assert m[tx.nonce := tx].Keys == m.Keys + {tx.nonce};
    assert |m[tx.nonce := tx]| == |m| + 1;
  }

  /** Sorted listings are unique. */
  lemma {:induction false} ListsUnique(m: Items, a: seq<Tx>, b: seq<Tx>)
    requires Lists(m, a) && Lists(m, b)
    ensures a == b
    decreases |a|
  {
    if a != [] {
      ListsTail(m, a);
      ListsTail(m, b);
      ListsUnique(RemoveKey(m, a[0].nonce), a[1..], b[1..]);
    }
  }

  // ---------------------------------------------------------------- the nonce heap

  /** The heap slice holds exactly the given nonces, each once, with a least one in front. */
  ghost predicate Indexes(index: seq<nat>, keys: set<nat>) {
    Heaps.IsHeap(index, NONCE_KEY) && multiset(index) == multiset(keys)
  }

  lemma IndexFacts(index: seq<nat>, keys: set<nat>)
    requires Indexes(index, keys)
    ensures forall n :: n in index <==> n in keys
    ensures |index| == |keys|
    ensures index != [] ==> index[0] in keys && forall n :: n in keys ==> index[0] <= n
  {
    forall n ensures n in index <==> n in keys {
      assert n in index <==> n in multiset(index);
    }
    assert |multiset(index)| == |multiset(keys)|;
    if index != [] {
      forall n | n in keys ensures index[0] <= n {
        assert NONCE_KEY(index[0]) <= NONCE_KEY(n);
      }
    }
  }

  method PushNonce(index: seq<nat>, ghost keys: set<nat>, n: nat) returns (r: seq<nat>)
    requires Indexes(index, keys) && n !in keys
    ensures Indexes(r, keys + {n})
  {
    r := Heaps.Push(index, NONCE_KEY, n);
    assert multiset(keys + {n}) == multiset(keys) + multiset{n};
  }

  method PopNonce(index: seq<nat>, ghost keys: set<nat>) returns (n: nat, r: seq<nat>)
    requires Indexes(index, keys) && index != []
    ensures n == index[0] && n in keys && Indexes(r, keys - {n}) && |r| == |index| - 1
    ensures forall k :: k in keys ==> n <= k
  {
    IndexFacts(index, keys);
    n, r := Heaps.Pop(index, NONCE_KEY);
    assert multiset(keys - {n}) == multiset(keys) - multiset{n};
  }

  class SortedMap {
    var items: Items
    var index: seq<nat>
    var cache: Option<seq<Tx>>

    constructor ()
      ensures Valid() && items == map[]
    {
      items, index, cache := map[], [], None;
    }

    ghost predicate Valid()
      reads this
    {
      && Keyed(items)
      && Indexes(index, items.Keys)
      && (cache.Some? ==> Lists(items, cache.value))
    }

    method Put(tx: Tx)
      requires Valid()
      modifies this
      ensures Valid() && items == old(items)[tx.nonce := tx]
    {
      ghost var keys := items.Keys + {tx.nonce};
      if tx.nonce !in items {
        index := PushNonce(index, items.Keys, tx.nonce);
      } else {
        assert keys == items.Keys;
      }
      items, cache := items[tx.nonce := tx], None;
      assert items.Keys == keys;
    }

    /** Pops everything below the threshold; a cached order only loses its front. */
    method Forward(threshold: nat) returns (removed: seq<Tx>)
      requires Valid()
      modifies this
      ensures Valid() && items == AtLeast(old(items), threshold)
      ensures Lists(Below(old(items), threshold), removed)
    {
      var kept;
      index, kept, removed := PopBelow(index, items, threshold);
      if cache.Some? {
        ShiftFront(items, cache.value, Below(items, threshold), removed, kept);
        cache := Some(cache.value[|removed|..]);
      }
      items := kept;
    }

    /** Removes what the test selects; heap and cache are rebuilt only if something went. */
    method Filter(drop: Tx -> bool) returns (removed: seq<Tx>)
      requires Valid()
      modifies this
      ensures Valid() && items == Kept(old(items), drop)
      ensures Holds(Dropped(old(items), drop), removed)
    {
      var kept;
      kept, removed := Partition(items, drop);
      if |removed| > 0 {
        index := IndexOf(kept);
        cache := None;
        items := kept;
      } else {
        NothingDropped(items, drop, removed);
      }
    }

    /** Keeps the lowest nonces; a cached order only loses its back. */
    method Cap(threshold: nat) returns (drops: seq<Tx>)
      requires Valid()
      modifies this
      ensures Valid() && KeepsLowest(old(items), items, threshold)
      ensures Holds(old(items) - items.Keys, drops)
    {
      if |items| <= threshold {
        assert items - items.Keys == map[];
        return [];
      }
      var sorted := Heaps.Sort(index, NONCE_KEY);
      var kept;
      kept, drops := DropHighest(sorted, items, threshold);
      index := Heaps.Init(sorted[..threshold], NONCE_KEY);
      if cache.Some? {
        CapCache(items, cache.value, sorted, kept, threshold);
        cache := Some(cache.value[..|cache.value| - |drops|]);
      }
      items := kept;
    }

    method Remove(nonce: nat) returns (found: bool)
      requires Valid()
      modifies this
      ensures Valid() && found == (nonce in old(items)) && items == RemoveKey(old(items), nonce)
    {
      if nonce !in items {
        return false;
      }
      index, items := Drop(index, items, nonce);
      cache := None;
      return true;
    }

    /** Hands out the run of consecutive nonces at the front, if it starts no later than `start`. */
    method Ready(start: nat) returns (ready: seq<Tx>)
      requires Valid()
      modifies this
      ensures Valid()
      ensures (forall n :: n in old(items) ==> n > start) ==> ready == [] && items == old(items)
      ensures (exists n :: n in old(items) && n <= start) ==>
        LeadingRun(old(items), ready) && items == AtLeast(old(items), ready[0].nonce + |ready|)
    {
      IndexFacts(index, items.Keys);
      if |index| == 0 || index[0] > start {
        return [];
      }
      index, items, ready := PopRun(index, items);
      cache := None;
    }

    method Flatten() returns (txs: seq<Tx>)
      requires Valid()
      modifies this
      ensures Valid() && items == old(items) && Lists(items, txs)
    {
      if cache.None? {
        var sorted := SortValues(items);
        cache := Some(sorted);
      }
      txs := cache.value;
    }
  }

  /** The loop of `Forward`, on the heap and the map. */
  method PopBelow(heap: seq<nat>, m: Items, threshold: nat) returns (index: seq<nat>, items: Items, removed: seq<Tx>)
    requires Indexes(heap, m.Keys) && Keyed(m)
    ensures items == AtLeast(m, threshold) && Indexes(index, items.Keys)
    ensures Lists(Below(m, threshold), removed)
  {
    ghost var gone;
    index, items, removed, gone := PopWhileBelow(heap, m, threshold);
    NoneBelow(index, items, threshold);
    CutAt(m, gone, items, threshold);
  }

  method PopWhileBelow(heap: seq<nat>, m: Items, threshold: nat)
    returns (index: seq<nat>, items: Items, removed: seq<Tx>, ghost gone: Items)
    requires Indexes(heap, m.Keys) && Keyed(m)
    ensures Indexes(index, items.Keys) && Popped(m, gone, items, removed, threshold)
    ensures index == [] || index[0] >= threshold
  {
    index, items, removed, gone := heap, m, [], map[];
    while |index| > 0 && index[0] < threshold
      invariant Indexes(index, items.Keys) && Popped(m, gone, items, removed, threshold)
      decreases |index|
    {
      ghost var was, least := gone, index[0];
      index, items, removed, gone := PopOne(m, index, items, removed, gone);
      BelowMore(was, gone, least, threshold);
    }
  }

  lemma NoneBelow(index: seq<nat>, items: Items, threshold: nat)
    requires Indexes(index, items.Keys) && (index == [] || index[0] >= threshold)
    ensures forall n :: n in items ==> n >= threshold
  {
    IndexFacts(index, items.Keys);
  }

  ghost predicate Popped(m: Items, gone: Items, items: Items, removed: seq<Tx>, threshold: nat) {
    Cuts(m, gone, items) && Lists(gone, removed) && AllBelow(gone, threshold)
  }

  ghost predicate AllBelow(m: Items, threshold: nat) {
    forall n :: n in m ==> n < threshold
  }

  lemma BelowMore(low: Items, more: Items, n: nat, threshold: nat)
    requires AllBelow(low, threshold) && n < threshold && more.Keys == low.Keys + {n}
    ensures AllBelow(more, threshold)
  {
  }

  /** Pops the least nonce and moves its transaction across the cut. */
  method PopOne(ghost m: Items, heap: seq<nat>, high: Items, txs: seq<Tx>, ghost low: Items)
    returns (index: seq<nat>, items: Items, removed: seq<Tx>, ghost gone: Items)
    requires Indexes(heap, high.Keys) && Cuts(m, low, high) && Lists(low, txs) && Keyed(m) && heap != []
    ensures Indexes(index, items.Keys) && Cuts(m, gone, items) && Lists(gone, removed) && |index| == |heap| - 1
    ensures heap[0] in high && gone == low[heap[0] := high[heap[0]]]
  {
    var nonce;
    nonce, index := PopNonce(heap, high.Keys);
    CutsMove(m, low, txs, high, nonce);
    removed := txs + [high[nonce]];
    gone := low[nonce := high[nonce]];
    items := RemoveKey(high, nonce);
  }

  function RemoveKey(m: Items, n: nat): (r: Items)
    ensures r.Keys == m.Keys - {n}
    ensures forall k :: k in r ==> r[k] == m[k]
    ensures n in m ==> |r| == |m| - 1
  {
    var r := map k | k in m && k != n :: m[k];
    assert r.Keys == m.Keys - {n};
    r
  }

  /** Moving the least nonce of the upper part across the cut. */
  lemma CutsMove(m: Items, low: Items, removed: seq<Tx>, high: Items, n: nat)
    requires Cuts(m, low, high) && Lists(low, removed) && Keyed(m)
    requires n in high && forall k :: k in high ==> n <= k
    ensures Cuts(m, low[n := high[n]], RemoveKey(high, n))
    ensures Lists(low[n := high[n]], removed + [high[n]])
  {
    CutMoves(m, low, high, n);
    assert high[n].nonce == n;
    forall i | 0 <= i < |removed| ensures removed[i].nonce < n {
      assert removed[i].nonce in low;
    }
    ListsExtend(low, removed, high[n]);
  }

  lemma CutMoves(m: Items, low: Items, high: Items, n: nat)
    requires Cuts(m, low, high) && n in high && forall k :: k in high ==> n <= k
    ensures Cuts(m, low[n := high[n]], RemoveKey(high, n))
  {
  }

  lemma CutAt(m: Items, low: Items, high: Items, t: nat)
    requires Cuts(m, low, high)
    requires forall n :: n in low ==> n < t
    requires forall n :: n in high ==> n >= t
    ensures low == Below(m, t) && high == AtLeast(m, t)
  {
  }

  /** Dropping the lowest nonces leaves the rest of a sorted cache in place. */
  lemma {:induction false} ShiftFront(m: Items, cache: seq<Tx>, low: Items, removed: seq<Tx>, high: Items)
    requires Lists(m, cache) && Cuts(m, low, high) && Lists(low, removed)
    ensures |removed| <= |cache| && Lists(high, cache[|removed|..])
    decreases |removed|
  {
    if removed == [] {
      assert low == map[] && high == m;
    } else {
      ListsTail(m, cache);
      ListsTail(low, removed);
      var n := removed[0].nonce;
      assert cache[0].nonce in low;
      assert cache[0].nonce == n;
      ShiftFront(RemoveKey(m, n), cache[1..], RemoveKey(low, n), removed[1..], high);
      assert cache[1..][|removed[1..]|..] == cache[|removed|..];
    }
  }

  // ---------------------------------------------------------------- loops of the map methods

  function Kept(m: Items, drop: Tx -> bool): Items {
    map n | n in m && !drop(m[n]) :: m[n]
  }

  function Dropped(m: Items, drop: Tx -> bool): Items {
    map n | n in m && drop(m[n]) :: m[n]
  }

  lemma NothingDropped(m: Items, drop: Tx -> bool, removed: seq<Tx>)
    requires Holds(Dropped(m, drop), removed) && removed == []
    ensures Kept(m, drop) == m
  {
    forall n | n in m ensures !drop(m[n]) {
      assert n in Dropped(m, drop) <==> drop(m[n]);
    }
  }

  lemma HoldsExtend(m: Items, txs: seq<Tx>, tx: Tx)
    requires Holds(m, txs) && tx.nonce !in m
    ensures Holds(m[tx.nonce := tx], txs + [tx])
  {
  }

  /** The loop of `Filter`: map iteration order is arbitrary. */
  method Partition(m: Items, drop: Tx -> bool) returns (kept: Items, removed: seq<Tx>)
    requires Keyed(m)
    ensures kept == Kept(m, drop) && Holds(Dropped(m, drop), removed)
  {
    kept, removed := m, [];
    ghost var gone: Items := map[];
    var todo := m.Keys;
    while todo != {}
      invariant todo <= m.Keys
      invariant Holds(gone, removed)
      invariant forall n :: n in kept <==> n in m && (n in todo || !drop(m[n]))
      invariant forall n :: n in gone <==> n in m && n !in todo && drop(m[n])
      invariant forall n :: n in kept ==> kept[n] == m[n]
      invariant forall n :: n in gone ==> gone[n] == m[n]
      decreases todo
    {
      var nonce :| nonce in todo;
      if drop(m[nonce]) {
        HoldsExtend(gone, removed, m[nonce]);
        removed := removed + [m[nonce]];
        gone := gone[nonce := m[nonce]];
        kept := RemoveKey(kept, nonce);
      }
      todo := todo - {nonce};
    }
    assert kept == Kept(m, drop) && gone == Dropped(m, drop);
  }

  /** Rebuilding the heap from the map. */
  method IndexOf(m: Items) returns (index: seq<nat>)
    ensures Indexes(index, m.Keys)
  {
    var todo, nonces := m.Keys, [];
    while todo != {}
      invariant todo <= m.Keys && multiset(nonces) == multiset(m.Keys - todo)
      decreases todo
    {
      var n :| n in todo;
      assert multiset(m.Keys - (todo - {n})) == multiset(m.Keys - todo) + multiset{n};
      nonces, todo := nonces + [n], todo - {n};
    }
    assert m.Keys - todo == m.Keys;
    index := Heaps.Init(nonces, NONCE_KEY);
  }

  lemma OccursOnce(s: seq<nat>, i: nat, j: nat)
    requires i < j < |s| && multiset(s)[s[i]] <= 1
    ensures s[i] != s[j]
  {
    assert s == s[..j] + s[j..];
    assert s[i] in s[..j];
    assert multiset(s[j..])[s[i]] == 0;
    assert s[i] !in s[j..];
    assert s[j] in s[j..];
  }

  lemma StrictlySorted(sorted: seq<nat>, keys: set<nat>)
    requires Heaps.IsSorted(sorted, NONCE_KEY) && multiset(sorted) == multiset(keys)
    ensures forall i, j :: 0 <= i < j < |sorted| ==> sorted[i] < sorted[j]
    ensures |sorted| == |keys| && forall n :: n in sorted <==> n in keys
  {
    forall i, j | 0 <= i < j < |sorted| ensures sorted[i] < sorted[j] {
      assert NONCE_KEY(sorted[i]) <= NONCE_KEY(sorted[j]);
      assert multiset(keys)[sorted[i]] <= 1;
      OccursOnce(sorted, i, j);
    }
    assert |multiset(sorted)| == |multiset(keys)|;
    forall n ensures n in sorted <==> n in keys {
      assert n in sorted <==> n in multiset(sorted);
    }
  }

  /** Dropping the highest nonces leaves the front of a sorted cache in place. */
  lemma CapCache(m: Items, cache: seq<Tx>, sorted: seq<nat>, kept: Items, t: nat)
    requires Lists(m, cache) && Keyed(m)
    requires Heaps.IsSorted(sorted, NONCE_KEY) && multiset(sorted) == multiset(m.Keys)
    requires t <= |sorted| && |kept| == t && multiset(sorted[..t]) == multiset(kept.Keys)
    requires forall n :: n in kept ==> n in m && kept[n] == m[n]
    ensures |cache| == |m| >= t && Lists(kept, cache[..t])
  {
    StrictlySorted(sorted, m.Keys);
    CacheIsSorted(m, cache, sorted);
    FrontIn(sorted, t, kept.Keys);
    FrontLists(m, cache, kept, t);
  }

  lemma FrontIn(sorted: seq<nat>, t: nat, keys: set<nat>)
    requires t <= |sorted| && multiset(sorted[..t]) == multiset(keys)
    ensures forall i :: 0 <= i < t ==> sorted[i] in keys
  {
    forall i | 0 <= i < t ensures sorted[i] in keys {
      assert sorted[..t][i] == sorted[i];
      assert sorted[i] in multiset(sorted[..t]);
    }
  }

  lemma FrontLists(m: Items, cache: seq<Tx>, kept: Items, t: nat)
    requires Lists(m, cache) && |kept| == t <= |cache| && forall n :: n in kept ==> n in m && kept[n] == m[n]
    requires forall i :: 0 <= i < t ==> cache[i].nonce in kept
    ensures Lists(kept, cache[..t])
  {
  }

  /** A sorted cache runs through the sorted nonces. */
  lemma CacheIsSorted(m: Items, cache: seq<Tx>, sorted: seq<nat>)
    requires Lists(m, cache) && Keyed(m) && |sorted| == |m|
    requires forall i, j :: 0 <= i < j < |sorted| ==> sorted[i] < sorted[j]
    requires forall n :: n in sorted ==> n in m
    ensures forall i :: 0 <= i < |cache| ==> cache[i].nonce == sorted[i]
  {
    forall i | 0 <= i < |sorted| ensures sorted[i] in m {
      assert sorted[i] in sorted;
    }
    var txs := seq(|sorted|, i requires 0 <= i < |sorted| => m[sorted[i]]);
    ListsUnique(m, txs, cache);
  }

  /** The loop of `Cap`: walk the sorted nonces down to the threshold. */
  method DropHighest(sorted: seq<nat>, m: Items, threshold: nat) returns (kept: Items, drops: seq<Tx>)
    requires Keyed(m) && threshold < |m|
    requires Heaps.IsSorted(sorted, NONCE_KEY) && multiset(sorted) == multiset(m.Keys)
    ensures Cuts(m, kept, m - kept.Keys) && |kept| == threshold
    ensures Holds(m - kept.Keys, drops) && |drops| == |m| - threshold
    ensures threshold <= |sorted| && multiset(sorted[..threshold]) == multiset(kept.Keys)
  {
    StrictlySorted(sorted, m.Keys);
    kept, drops := m, [];
    ghost var gone: Items := map[];
    var size := |m|;
    assert sorted[..size] == sorted;
    while size > threshold
      invariant threshold <= size <= |m| == |sorted| && Dropping(sorted, m, size, kept, gone, drops)
    {
      kept, drops, gone := DropOne(sorted, m, size, kept, gone, drops);
      size := size - 1;
    }
    CutsRest(m, kept, gone);
  }

  /** The `size` lowest nonces are kept, the others dropped. */
  ghost predicate Dropping(sorted: seq<nat>, m: Items, size: nat, kept: Items, gone: Items, drops: seq<Tx>) {
    && size <= |sorted| && |kept| == size && |drops| == |m| - size
    && multiset(sorted[..size]) == multiset(kept.Keys)
    && Cuts(m, kept, gone) && Holds(gone, drops)
  }

  method DropOne(sorted: seq<nat>, m: Items, size: nat, low: Items, ghost high: Items, txs: seq<Tx>)
    returns (kept: Items, drops: seq<Tx>, ghost gone: Items)
    requires Keyed(m) && 1 <= size <= |sorted| && Dropping(sorted, m, size, low, high, txs)
    requires forall i, j :: 0 <= i < j < |sorted| ==> sorted[i] < sorted[j]
    ensures Dropping(sorted, m, size - 1, kept, gone, drops)
  {
    var nonce := sorted[size - 1];
    LastIsHighest(sorted, low.Keys, size);
    CutsMoveDown(m, low, high, txs, nonce);
    drops := txs + [m[nonce]];
    gone := high[nonce := m[nonce]];
    kept := RemoveKey(low, nonce);
  }

  lemma CutsMoveDown(m: Items, low: Items, high: Items, drops: seq<Tx>, n: nat)
    requires Cuts(m, low, high) && Holds(high, drops) && Keyed(m)
    requires n in low && forall k :: k in low ==> k <= n
    ensures Cuts(m, RemoveKey(low, n), high[n := m[n]])
    ensures Holds(high[n := m[n]], drops + [m[n]])
  {
    assert n !in high;
    HoldsExtend(high, drops, m[n]);
  }

  lemma CutsRest(m: Items, low: Items, high: Items)
    requires Cuts(m, low, high)
    ensures high == m - low.Keys
  {
    assert forall n :: n in low ==> n !in high;
  }

  lemma LastIsHighest(sorted: seq<nat>, keys: set<nat>, size: nat)
    requires 1 <= size <= |sorted| && multiset(sorted[..size]) == multiset(keys)
    requires forall i, j :: 0 <= i < j < |sorted| ==> sorted[i] < sorted[j]
    ensures sorted[size - 1] in keys && forall n :: n in keys ==> n <= sorted[size - 1]
    ensures multiset(sorted[..size - 1]) == multiset(keys - {sorted[size - 1]})
  {
    var last := sorted[size - 1];
    assert sorted[..size] == sorted[..size - 1] + [last];
    forall n | n in keys ensures n <= last {
      assert n in multiset(sorted[..size]);
      assert n in sorted[..size];
    }
    assert last in multiset(sorted[..size]);
    assert multiset(keys - {last}) == multiset(keys) - multiset{last};
  }

  method Drop(heap: seq<nat>, m: Items, nonce: nat) returns (index: seq<nat>, items: Items)
    requires Indexes(heap, m.Keys) && nonce in m
    ensures items == RemoveKey(m, nonce) && Indexes(index, items.Keys)
  {
    index := UnindexNonce(heap, m.Keys, nonce);
    items := RemoveKey(m, nonce);
  }

  /** The search loop of `Remove`. */
  method UnindexNonce(heap: seq<nat>, ghost keys: set<nat>, nonce: nat) returns (index: seq<nat>)
    requires Indexes(heap, keys) && nonce in keys
    ensures Indexes(index, keys - {nonce})
  {
    IndexFacts(heap, keys);
    index := heap;
    var i := 0;
    while i < |index| && index[i] != nonce
      invariant 0 <= i <= |index| && index == heap
      invariant nonce !in index[..i]
    {
      i := i + 1;
    }
    assert heap == heap[..i] + heap[i..];
    index := Heaps.Remove(index, NONCE_KEY, i);
    assert multiset(keys - {nonce}) == multiset(keys) - multiset{nonce};
  }

  lemma RunGrows(m: Items, first: nat, run: seq<Tx>, items: Items, next: nat)
    requires RunFrom(m, first, run) && next == first + |run|
    requires items == AtLeast(m, next) && next in items
    ensures RunFrom(m, first, run + [items[next]])
    ensures RemoveKey(items, next) == AtLeast(m, next + 1)
  {
    AtLeastNext(m, next);
  }

  /** The loop of `Ready`. */
  method PopRun(heap: seq<nat>, m: Items) returns (index: seq<nat>, items: Items, ready: seq<Tx>)
    requires Indexes(heap, m.Keys) && Keyed(m) && heap != []
    ensures LeadingRun(m, ready) && ready != []
    ensures items == AtLeast(m, ready[0].nonce + |ready|) && Indexes(index, items.Keys)
  {
    IndexFacts(heap, m.Keys);
    index, items, ready := heap, m, [];
    var first := heap[0];
    var next := first;
    assert AtLeast(m, first) == m;
    while |index| > 0 && index[0] == next
      invariant next == first + |ready| && Indexes(index, items.Keys) && (ready == [] ==> index == heap)
      invariant items == AtLeast(m, next) && RunFrom(m, first, ready)
      decreases |index|
    {
      index, items, ready := PopNext(m, first, index, items, ready);
      next := next + 1;
    }
    RunEnds(m, first, ready, index, items);
  }

  /** One more nonce of the run. */
  method PopNext(ghost m: Items, ghost first: nat, heap: seq<nat>, high: Items, run: seq<Tx>)
    returns (index: seq<nat>, items: Items, ready: seq<Tx>)
    requires heap != [] && Indexes(heap, high.Keys) && heap[0] == first + |run|
    requires high == AtLeast(m, first + |run|) && RunFrom(m, first, run)
    ensures Indexes(index, items.Keys) && |index| == |heap| - 1 && |ready| == |run| + 1
    ensures items == AtLeast(m, first + |ready|) && RunFrom(m, first, ready)
  {
    var nonce;
    nonce, index := PopNonce(heap, high.Keys);
    RunGrows(m, first, run, high, nonce);
    ready := run + [high[nonce]];
    items := RemoveKey(high, nonce);
  }

  lemma RunEnds(m: Items, first: nat, run: seq<Tx>, index: seq<nat>, items: Items)
    requires RunFrom(m, first, run) && run != [] && Keyed(m) && forall n :: n in m ==> first <= n
    requires items == AtLeast(m, first + |run|) && Indexes(index, items.Keys)
    requires index == [] || index[0] != first + |run|
    ensures LeadingRun(m, run) && run[0].nonce == first
  {
    IndexFacts(index, items.Keys);
    var next := first + |run|;
    var head := run[0];
    assert first in m;
    assert next !in items;
  }

  lemma AtLeastNext(m: Items, t: nat)
    ensures RemoveKey(AtLeast(m, t), t) == AtLeast(m, t + 1)
  {
  }

  /** Collecting and sorting the values for `Flatten`. */
  method SortValues(m: Items) returns (txs: seq<Tx>)
    requires Keyed(m)
    ensures Lists(m, txs)
  {
    var index := IndexOf(m);
    txs := [];
    var todo := m;
    ghost var done: Items := map[];
    while |index| > 0
      invariant Indexes(index, todo.Keys) && Cuts(m, done, todo) && Lists(done, txs)
      decreases |index|
    {
      index, todo, txs, done := PopOne(m, index, todo, txs, done);
    }
    IndexFacts(index, todo.Keys);
    assert done == m;
  }
}
