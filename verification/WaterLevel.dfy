// The arithmetic of cutting everybody above a level down to it.
module WaterLevel {
  import opened Sums

  type Address = int

  /** List lengths before cutting, the accounts exempt from it, and the two limits. */
  datatype Demand = Demand(sizes: map<Address, nat>, locals: set<Address>, accountSlots: nat, globalSlots: nat) {
    /** An account's share when remote accounts are capped at a level. */
    function Share(level: nat, a: Address): nat
      requires a in sizes
    {
      if a in locals || sizes[a] <= level then sizes[a] else level
    }

    function Shares(level: nat): map<Address, nat> {
      map a | a in sizes :: Share(level, a)
    }

    ghost function TotalAt(level: nat): nat {
      Sum(Shares(level))
    }

    /** A remote account above its guaranteed slots. */
    predicate Large(a: Address) {
      a in sizes && a !in locals && sizes[a] > accountSlots
    }

    /** The level exact water-filling stops at. */
    ghost predicate IsWaterLevel(level: nat) {
      && level >= accountSlots
      && (TotalAt(level) <= globalSlots || level == accountSlots)
      && TotalAt(level + 1) > globalSlots
    }
  }

  /** A higher level never gives a smaller total. */
  lemma TotalAtMonotone(d: Demand, low: nat, high: nat)
    requires low <= high
    ensures d.TotalAt(low) <= d.TotalAt(high)
  {
    var l, h := d.Shares(low), d.Shares(high);
    assert l.Keys == h.Keys == d.sizes.Keys;
    SumLe(l.Keys, l, h);
  }

  /** The water level is the highest level that fits, or the guaranteed minimum if that is higher. */
  lemma WaterLevelIsHighestFit(d: Demand, level: nat, other: nat)
    requires d.IsWaterLevel(level) && d.TotalAt(other) <= d.globalSlots
    ensures other <= level
  {
    if other > level {
      TotalAtMonotone(d, level + 1, other);
    }
  }

  /** At a level no remote account exceeds, nothing is cut. */
  lemma FullLevel(d: Demand, level: nat)
    requires forall a :: a in d.sizes && a !in d.locals ==> d.sizes[a] <= level
    ensures d.Shares(level) == d.sizes && d.TotalAt(level) == d.TotalAt(level + 1) == Sum(d.sizes)
  {
    assert d.Shares(level) == d.sizes;
    assert d.Shares(level + 1) == d.sizes;
  }

  /** One round: every given account loses one. */
  function CutOnce(sizes: map<Address, nat>, offenders: seq<Address>): map<Address, nat> {
    map a | a in sizes :: if a in offenders && sizes[a] > 0 then sizes[a] - 1 else sizes[a]
  }

  ghost predicate Distinct(offenders: seq<Address>) {
    forall i, j :: 0 <= i < j < |offenders| ==> offenders[i] != offenders[j]
  }

  /** The offenders are remote accounts at or above the level; all other remote ones stay within the floor. */
  ghost predicate Above(d: Demand, offenders: seq<Address>, level: nat, floor: nat) {
    && Distinct(offenders) && offenders != []
    && (forall a :: a in offenders ==> a in d.sizes && a !in d.locals && d.sizes[a] >= level)
    && (forall a :: a in d.sizes && a !in d.locals && a !in offenders ==> d.sizes[a] <= floor)
  }

  /** If exactly the remote accounts at the level are cut, the level falls by one. */
  lemma RoundLowersLevel(d: Demand, offenders: seq<Address>, level: nat, lower: nat, floor: nat)
    requires Above(d, offenders, level, floor) && floor < level == lower + 1
    ensures CutOnce(d.Shares(level), offenders) == d.Shares(lower)
    ensures forall k :: 0 <= k < |offenders| ==>
      offenders[k] in d.Shares(level) && d.Shares(level)[offenders[k]] == level
    ensures Above(d, offenders, lower, floor)
  {
    var cut, after := CutOnce(d.Shares(level), offenders), d.Shares(lower);
    assert cut.Keys == after.Keys;
    forall a | a in cut ensures cut[a] == after[a] {
    }
    forall k | 0 <= k < |offenders| ensures offenders[k] in d.Shares(level) && d.Shares(level)[offenders[k]] == level {
      var a := offenders[k];
      assert a in offenders && a in d.sizes;
    }
  }

  /** The large accounts are split into those being cut and those still queued. */
  ghost predicate Split(d: Demand, offenders: seq<Address>, spammers: set<Address>) {
    && Distinct(offenders) && (forall a :: a in offenders ==> a !in spammers)
    && forall a :: (a in offenders || a in spammers) <==> d.Large(a)
  }

  /** When the longest list is popped first, its length is a level that cuts nothing. */
  lemma FirstOffender(d: Demand, a: Address, spammers: set<Address>)
    requires Split(d, [], spammers) && a in spammers && Sum(d.sizes) > d.globalSlots
    requires d.Large(a) && forall b :: b in spammers ==> b in d.sizes && d.sizes[b] <= d.sizes[a]
    ensures d.Shares(d.sizes[a]) == d.sizes && d.TotalAt(d.sizes[a] + 1) > d.globalSlots
  {
    forall b | b in d.sizes && b !in d.locals ensures d.sizes[b] <= d.sizes[a] {
      assert d.Large(b) ==> b in spammers;
    }
    FullLevel(d, d.sizes[a]);
  }

  /** Accounts not popped yet are no longer than the one just popped. */
  lemma RestAreShorter(d: Demand, others: seq<Address>, a: Address, spammers: set<Address>)
    requires Split(d, others + [a], spammers) && d.Large(a)
    requires forall b :: b in spammers ==> b in d.sizes && d.sizes[b] <= d.sizes[a]
    ensures forall b :: b in d.sizes && b !in d.locals && b !in others ==> d.sizes[b] <= d.sizes[a]
  {
    forall b | b in d.sizes && b !in d.locals && b !in others ensures d.sizes[b] <= d.sizes[a] {
      assert d.Large(b) ==> b in others + [a] || b in spammers;
    }
  }

  /** With nothing left to pop, everybody not being cut is within the guaranteed slots. */
  lemma RestAreSmall(d: Demand, offenders: seq<Address>)
    requires Split(d, offenders, {})
    ensures forall a :: a in d.sizes && a !in d.locals && a !in offenders ==> d.sizes[a] <= d.accountSlots
  {
    forall a | a in d.sizes && a !in d.locals && a !in offenders ensures d.sizes[a] <= d.accountSlots {
      assert !d.Large(a);
    }
  }
}
