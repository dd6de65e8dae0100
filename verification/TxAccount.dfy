// core/tx_list.go: the per-account list with its cost and gas caps, and the price bump rule.
module TxAccount {
  import opened Arithmetic
  import opened Powers
  import opened TxLists

  /** Whether `Filter` would remove the transaction: privacy transactions are never filtered. */
  function TooCostly(costLimit: nat, gasLimit: nat): Tx -> bool {
    (tx: Tx) => tx.normal && (tx.cost > costLimit || tx.gas > gasLimit)
  }

  function InvalidPrivacy(valid: set<Tx>): Tx -> bool {
    (tx: Tx) => !tx.normal && tx !in valid
  }

  /** The price a replacement at the same nonce has to exceed. */
  function BumpThreshold(price: nat, priceBump: nat): nat {
    price * (100 + priceBump) / 100
  }

  /** What a strict list keeps when `drop` is removed: everything below the lowest dropped nonce. */
  function StrictKept(m: Items, drop: Tx -> bool): Items {
    map n | n in m && forall k :: k in m && drop(m[k]) ==> n < k :: m[n]
  }

  /** What a list keeps after removing `drop`, in either mode. */
  function Remains(strict: bool, m: Items, drop: Tx -> bool): Items {
    if strict then StrictKept(m, drop) else Kept(m, drop)
  }

  /** The loop that looks for the lowest removed nonce. */
  method LowestNonce(removed: seq<Tx>) returns (lowest: nat)
    requires removed != []
    ensures forall i :: 0 <= i < |removed| ==> lowest <= removed[i].nonce
    ensures exists i :: 0 <= i < |removed| && removed[i].nonce == lowest
  {
    lowest := removed[0].nonce;
    for k := 1 to |removed|
      invariant forall i :: 0 <= i < k ==> lowest <= removed[i].nonce
      invariant exists i :: 0 <= i < k && removed[i].nonce == lowest
    {
      if removed[k].nonce < lowest {
        lowest := removed[k].nonce;
      }
    }
  }

  lemma StrictCut(m: Items, drop: Tx -> bool, removed: seq<Tx>, lowest: nat)
    requires Keyed(m) && Holds(Dropped(m, drop), removed)
    requires forall i :: 0 <= i < |removed| ==> lowest <= removed[i].nonce
    requires exists i :: 0 <= i < |removed| && removed[i].nonce == lowest
    ensures Kept(Kept(m, drop), Above(lowest)) == StrictKept(m, drop)
    ensures Dropped(Kept(m, drop), Above(lowest)) == Kept(m, drop) - StrictKept(m, drop).Keys
  {
    var i :| 0 <= i < |removed| && removed[i].nonce == lowest;
    assert lowest in Dropped(m, drop);
    forall k | k in m && drop(m[k]) ensures lowest <= k {
      assert Dropped(m, drop)[k] in removed;
    }
    var kept := Kept(Kept(m, drop), Above(lowest));
    forall n ensures n in kept <==> n in StrictKept(m, drop) {
    }
    CutDropped(Kept(m, drop), lowest, kept);
  }

  lemma CutDropped(m: Items, nonce: nat, kept: Items)
    requires kept == Kept(m, Above(nonce))
    ensures Dropped(m, Above(nonce)) == m - kept.Keys
  {
  }

  function Above(nonce: nat): Tx -> bool {
    (tx: Tx) => tx.nonce > nonce
  }

  lemma CutAbove(m: Items, nonce: nat, rest: Items)
    requires Keyed(m) && rest == RemoveKey(m, nonce)
    ensures Kept(rest, Above(nonce)) == Below(m, nonce) && Dropped(rest, Above(nonce)) == rest - Below(m, nonce).Keys
  {
    KeptBelow(m, nonce, rest, Above(nonce));
    CutDropped(rest, nonce, Below(m, nonce));
  }

  lemma KeptBelow(m: Items, nonce: nat, rest: Items, above: Tx -> bool)
    requires Keyed(m) && rest == RemoveKey(m, nonce) && forall tx :: above(tx) <==> tx.nonce > nonce
    ensures Kept(rest, above) == Below(m, nonce)
  {
    forall n ensures n in Kept(rest, above) <==> n in Below(m, nonce) {
    }
  }

  lemma RemainsSubset(strict: bool, m: Items, drop: Tx -> bool)
    ensures Remains(strict, m, drop).Keys <= Kept(m, drop).Keys
  {
  }

  lemma HoldsBoth(m: Items, drop: Tx -> bool, kept: Items, removed: seq<Tx>, invalids: seq<Tx>)
    requires kept.Keys <= Kept(m, drop).Keys
    requires Holds(Dropped(m, drop), removed) && Holds(Kept(m, drop) - kept.Keys, invalids)
    ensures Holds(m - kept.Keys, removed + invalids)
  {
    var gone := removed + invalids;
    forall n | n in m - kept.Keys ensures m[n] in gone {
      assert n in Dropped(m, drop) || n in Kept(m, drop) - kept.Keys;
    }
  }

  lemma NothingStrict(m: Items, drop: Tx -> bool)
    requires forall n :: n in m ==> !drop(m[n])
    ensures Kept(m, drop) == m && StrictKept(m, drop) == m
  {
  }

  class TxList {
    const strict: bool
    const txs: SortedMap
    var costcap: nat
    var gascap: nat

    constructor (strict: bool)
      ensures Valid() && fresh(txs) && txs.items == map[] && this.strict == strict
    {
      this.strict := strict;
      txs := new SortedMap();
      costcap, gascap := 0, 0;
    }

    /** The caps bound every normal transaction in the list. */
    ghost predicate Valid()
      reads this, txs
    {
      txs.Valid() && forall n :: n in txs.items && txs.items[n].normal ==>
        txs.items[n].cost <= costcap && txs.items[n].gas <= gascap
    }

    method Add(tx: Tx, priceBump: nat) returns (inserted: bool, replaced: Option<Tx>)
      requires Valid()
      modifies this, txs
      ensures Valid()
      ensures var m := old(txs.items);
        if tx.nonce in m && BumpThreshold(m[tx.nonce].price, priceBump) >= tx.price
        then !inserted && replaced == None && txs.items == m
        else inserted && txs.items == m[tx.nonce := tx] &&
             replaced == (if tx.nonce in m then Some(m[tx.nonce]) else None)
    {
      replaced := None;
      if tx.nonce in txs.items {
        replaced := Some(txs.items[tx.nonce]);
        if BumpThreshold(replaced.value.price, priceBump) >= tx.price {
          return false, None;
        }
      }
      txs.Put(tx);
      if costcap < tx.cost {
        costcap := tx.cost;
      }
      if gascap < tx.gas {
        gascap := tx.gas;
      }
      return true, replaced;
    }

    /** The short circuit over the caps never changes the outcome: always the full scan. */
    method Filter(costLimit: nat, gasLimit: nat) returns (removed: seq<Tx>, invalids: seq<Tx>)
      requires Valid()
      modifies this, txs
      ensures Valid()
      ensures var m, drop := old(txs.items), TooCostly(costLimit, gasLimit);
        && txs.items == Remains(strict, m, drop)
        && Holds(Dropped(m, drop), removed)
        && Holds(Kept(m, drop) - txs.items.Keys, invalids)
    {
      ghost var m := txs.items;
      var drop := TooCostly(costLimit, gasLimit);
      if costcap <= costLimit && gascap <= gasLimit {
        NothingStrict(m, drop);
        assert Dropped(m, drop) == map[];
        return [], [];
      }
      costcap, gascap := costLimit, gasLimit;
      removed, invalids := FilterStrict(drop);
    }

    method InvalidPrivacyTx(valid: set<Tx>) returns (gone: seq<Tx>)
      requires Valid()
      modifies this, txs
      ensures Valid()
      ensures txs.items == Remains(strict, old(txs.items), InvalidPrivacy(valid))
      ensures Holds(old(txs.items) - txs.items.Keys, gone)
    {
      ghost var m, drop := txs.items, InvalidPrivacy(valid);
      var removed, invalids := FilterStrict(InvalidPrivacy(valid));
      gone := removed + invalids;
      RemainsSubset(strict, m, drop);
      HoldsBoth(m, drop, txs.items, removed, invalids);
    }

    /** Remove a selection and, in strict mode, everything above the lowest removed nonce. */
    method FilterStrict(drop: Tx -> bool) returns (removed: seq<Tx>, invalids: seq<Tx>)
      requires txs.Valid()
      modifies txs
      ensures txs.Valid() && txs.items == Remains(strict, old(txs.items), drop)
      ensures Holds(Dropped(old(txs.items), drop), removed)
      ensures Holds(Kept(old(txs.items), drop) - txs.items.Keys, invalids)
    {
      ghost var m := txs.items;
      invalids := [];
      removed := txs.Filter(drop);
      if strict && |removed| > 0 {
        var lowest := LowestNonce(removed);
        StrictCut(m, drop, removed, lowest);
        invalids := txs.Filter(Above(lowest));
      } else {
        if |removed| == 0 {
          NothingDropped(m, drop, removed);
          NothingStrict(m, drop);
        }
        NoneLeft(txs.items);
      }
    }

    /** Deleting from a strict list takes everything above along. */
    method Remove(tx: Tx) returns (found: bool, invalids: seq<Tx>)
      requires Valid()
      modifies txs
      ensures Valid() && found == (tx.nonce in old(txs.items))
      ensures var m := old(txs.items);
        && txs.items == (if found && strict then Below(m, tx.nonce) else RemoveKey(m, tx.nonce))
        && Holds(RemoveKey(m, tx.nonce) - txs.items.Keys, invalids)
    {
      ghost var m := txs.items;
      found := txs.Remove(tx.nonce);
      invalids := [];
      if found && strict {
        CutAbove(m, tx.nonce, RemoveKey(m, tx.nonce));
        invalids := txs.Filter(Above(tx.nonce));
      } else {
        NoneLeft(txs.items);
      }
    }
  }

  lemma NoneLeft(m: Items)
    ensures m - m.Keys == map[]
  {
  }

  // ---------------------------------------------------------------- replacements

  /** Every price in the list replaced the one before it under the bump rule. */
  ghost predicate Replacements(prices: seq<nat>, priceBump: nat) {
    forall i :: 0 <= i < |prices| - 1 ==> BumpThreshold(prices[i], priceBump) < prices[i + 1]
  }

  lemma BumpExceeds(before: nat, after: nat, priceBump: nat)
    requires BumpThreshold(before, priceBump) < after
    ensures after * 100 > before * (100 + priceBump)
  {
    var p := before * (100 + priceBump);
    assert p / 100 * 100 > p - 100;
  }

  /** After k replacements the price has grown by more than the k-th power of the bump. */
  lemma {:induction false} ReplacementsGrow(prices: seq<nat>, priceBump: nat)
    requires |prices| >= 2 && prices[0] > 0 && Replacements(prices, priceBump)
    ensures var k := |prices| - 1; prices[k] * Power(100, k) > prices[0] * Power(100 + priceBump, k)
    decreases |prices|
  {
    var k := |prices| - 1;
    var b := 100 + priceBump;
    BumpExceeds(prices[k - 1], prices[k], priceBump);
    if k == 1 {
      assert Power(100, 0) == Power(b, 0) == 1;
      assert Power(100, 1) == 100 && Power(b, 1) == b;
    } else {
      ReplacementsGrow(prices[..k], priceBump);
      GrowOnce(prices[0], prices[k - 1], prices[k], Power(100, k - 1), Power(b, k - 1), b);
    }
  }

  lemma GrowOnce(first: nat, last: nat, next: nat, hundred: nat, bumped: nat, b: nat)
    requires next * 100 > last * b && last * hundred > first * bumped && b >= 1
    ensures next * (hundred * 100) > first * (bumped * b)
  {
    Regroup(next, hundred, 100);
    ProductGrows(last * b, next * 100, hundred);
    Regroup(last, hundred, b);
    ProductGrows(first * bumped + 1, last * hundred, b);
    Regroup(first, b, bumped);
    assert (first * bumped + 1) * b == (first * bumped) * b + b;
  }

  lemma Regroup(x: nat, y: nat, z: nat)
    ensures x * (y * z) == (x * z) * y == (x * y) * z
    ensures y * z == z * y
  {
  }
}
