// Gas over a whole block: the processing loop, cumulative receipts, and recovering each receipt's gas from them.
module BlockGas {
  import opened Gas

  datatype Receipt = Receipt(cumulative: nat, gasUsed: int, failed: bool)

  /** Each receipt's cumulative gas is that of the one before plus its own. */
  predicate Cumulates(receipts: seq<Receipt>) {
    forall j :: 0 <= j < |receipts| ==> receipts[j].cumulative == Before(receipts, j) + receipts[j].gasUsed
  }

  /** The cumulative gas ahead of receipt j. */
  function Before(receipts: seq<Receipt>, j: nat): nat
    requires j <= |receipts|
  {
    if j == 0 then 0 else receipts[j - 1].cumulative
  }

  /** The sum of the gas of the first n receipts. */
  function Used(receipts: seq<Receipt>, n: nat): int
    requires n <= |receipts|
  {
    if n == 0 then 0 else Used(receipts, n - 1) + receipts[n - 1].gasUsed
  }

  /** Cumulative gas is what its name says: the sum of all gas so far. */
  lemma {:induction false} CumulativeIsSum(receipts: seq<Receipt>, n: nat)
    requires Cumulates(receipts) && n <= |receipts|
    ensures Before(receipts, n) == Used(receipts, n)
  {
    if n > 0 {
      CumulativeIsSum(receipts, n - 1);
    }
  }

  /** Sets each receipt's gas from the cumulative values. */
  method SetReceiptsData(receipts: array<Receipt>)
    modifies receipts
    ensures forall j :: 0 <= j < receipts.Length ==>
      receipts[j].cumulative == old(receipts[j]).cumulative && receipts[j].failed == old(receipts[j]).failed
    ensures Cumulates(receipts[..])
  {
    ghost var stored := receipts[..];
    for j := 0 to receipts.Length
      invariant forall k :: 0 <= k < receipts.Length ==>
        receipts[k].cumulative == old(receipts[k]).cumulative && receipts[k].failed == old(receipts[k]).failed
      invariant forall k :: 0 <= k < j ==> receipts[k].gasUsed == stored[k].cumulative - Before(stored, k)
    {
      var r := receipts[j];
      if j == 0 {
        receipts[j] := r.(gasUsed := r.cumulative);
      } else {
        receipts[j] := r.(gasUsed := r.cumulative - receipts[j - 1].cumulative);
      }
    }
    forall k | 0 <= k < receipts.Length
      ensures receipts[k].cumulative == Before(receipts[..], k) + receipts[k].gasUsed
    {
      assert Before(receipts[..], k) == Before(stored, k);
    }
  }

  /** Receipts with equal cumulative values have equal gas, so whatever was stored is recovered. */
  lemma Recovered(stored: seq<Receipt>, read: seq<Receipt>, j: nat)
    requires Cumulates(stored) && Cumulates(read) && |stored| == |read| && j < |stored|
    requires forall k :: 0 <= k < |stored| ==> stored[k].cumulative == read[k].cumulative
    ensures stored[j].gasUsed == read[j].gasUsed
  {
    assert stored[j].cumulative == Before(stored, j) + stored[j].gasUsed;
    assert read[j].cumulative == Before(read, j) + read[j].gasUsed;
    assert Before(stored, j) == Before(read, j);
  }

  /** What the first n transactions add to the total of balances: the fees paid with stamps. */
  ghost function Minted(msgs: seq<Message>, receipts: seq<Receipt>, n: nat): nat
    requires n <= |msgs| && n <= |receipts| && forall k :: 0 <= k < n ==> receipts[k].gasUsed >= 0
  {
    if n == 0 then 0 else
      var msg := msgs[n - 1];
      Minted(msgs, receipts, n - 1) + if msg.normal then 0 else Fee(receipts[n - 1].gasUsed, msg.gasPrice)
  }

  /** The value of the stamps among the first n transactions. */
  ghost function Stamps(msgs: seq<Message>, n: nat): nat
    requires n <= |msgs|
  {
    if n == 0 then 0 else
      var msg := msgs[n - 1];
      Stamps(msgs, n - 1) + if msg.normal || msg.ring.None? then 0 else msg.ring.value.stampBalance
  }

  /** Transaction k pays with this key image. */
  predicate Pays(msgs: seq<Message>, k: nat, image: int)
    requires k < |msgs|
  {
    !msgs[k].normal && msgs[k].ring.Some? && msgs[k].ring.value.keyImage == image
  }

  /**
   * The stamps of the first n transactions were unspent before the block, are spent now, and differ from each other.
   */
  ghost predicate SpentOnce(msgs: seq<Message>, n: nat, before: set<int>, now: set<int>)
    requires n <= |msgs|
  {
    && before <= now
    && (forall k, image :: 0 <= k < n && Pays(msgs, k, image) ==> image in now - before)
    && (forall k, l, image :: 0 <= k < l < n && Pays(msgs, k, image) ==> !Pays(msgs, l, image))
  }

  /** Wealth has grown by the fees paid with stamps, which the stamps cover. */
  ghost predicate Funded(msgs: seq<Message>, receipts: seq<Receipt>, before: nat, now: nat) {
    && |receipts| <= |msgs| && (forall k :: 0 <= k < |receipts| ==> receipts[k].gasUsed >= 0)
    && now == before + Minted(msgs, receipts, |receipts|) && now <= before + Stamps(msgs, |receipts|)
  }

  lemma {:induction false} MintedSame(msgs: seq<Message>, a: seq<Receipt>, b: seq<Receipt>, n: nat)
    requires n <= |msgs| && n <= |a| <= |b| && (forall k :: 0 <= k < |a| ==> a[k] == b[k])
    requires forall k :: 0 <= k < n ==> a[k].gasUsed >= 0
    ensures Minted(msgs, a, n) == Minted(msgs, b, n)
  {
    if n > 0 {
      MintedSame(msgs, a, b, n - 1);
    }
  }

  lemma FundedMore(msgs: seq<Message>, receipts: seq<Receipt>, r: Receipt, before: nat, now: nat, later: nat)
    requires Funded(msgs, receipts, before, now) && |receipts| < |msgs| && r.gasUsed >= 0
    requires msgs[|receipts|].normal ==> later == now
    requires !msgs[|receipts|].normal ==>
      StampPays(msgs[|receipts|]) && later == now + Fee(r.gasUsed, msgs[|receipts|].gasPrice)
    requires !msgs[|receipts|].normal ==>
      r.gasUsed == msgs[|receipts|].ring.value.stampBalance / msgs[|receipts|].gasPrice
    ensures Funded(msgs, receipts + [r], before, later)
  {
    var msg := msgs[|receipts|];
    MintedSame(msgs, receipts, receipts + [r], |receipts|);
    if !msg.normal {
      StampCoversFee(msg.ring.value.stampBalance, msg.gasPrice);
    }
  }

  /** The ledger after the first n messages of a block. */
  ghost function LedgerAfter(l: Ledger, msgs: seq<Message>, execs: seq<Execution>, coinbase: Address, n: nat): Ledger
    requires n <= |msgs| == |execs|
  {
    if n == 0 then l else Settled(LedgerAfter(l, msgs, execs, coinbase, n - 1), msgs[n - 1], execs[n - 1], coinbase)
  }

  /** Message k can run on what those before it leave, and its receipt tells its gas and whether its code failed. */
  ghost predicate Ran(l: Ledger, msgs: seq<Message>, execs: seq<Execution>, coinbase: Address, receipts: seq<Receipt>,
                      k: nat)
    requires k < |receipts| <= |msgs| == |execs|
  {
    && CanRun(LedgerAfter(l, msgs, execs, coinbase, k), msgs[k]) && Affords(msgs[k])
    && receipts[k].gasUsed == UsedGas(msgs[k], execs[k]) && receipts[k].failed == execs[k].failed
  }

  ghost function LedgerOf(state: StateDB, gp: GasPool): Ledger
    reads state, gp
  {
    Ledger(state.balances, state.nonces, state.images, gp.gas)
  }

  method ApplyMessage(gp: GasPool, state: StateDB, msg: Message, e: Execution, coinbase: Address) returns (r: Result)
    modifies gp, state
    ensures r.Ok? <==> CanRun(old(LedgerOf(state, gp)), msg)
    ensures r.Panic? <==> DividesByZero(msg)
    ensures r.Ok? ==> Affords(msg) && r.usedGas == UsedGas(msg, e) && r.failed == e.failed
    ensures r.Ok? ==> LedgerOf(state, gp) == Settled(old(LedgerOf(state, gp)), msg, e, coinbase)
    ensures r.Ok? ==> gp.gas + r.usedGas == old(gp.gas) && old(state.images) <= state.images
    ensures r.Ok? && msg.normal ==> state.Wealth() == old(state.Wealth())
    ensures r.Ok? && !msg.normal ==> StampPays(msg) && r.usedGas == msg.ring.value.stampBalance / msg.gasPrice
    ensures r.Ok? && !msg.normal ==> msg.ring.value.keyImage in state.images - old(state.images)
    ensures r.Ok? && !msg.normal ==> state.Wealth() == old(state.Wealth()) + Fee(r.usedGas, msg.gasPrice)
  {
    var st := new StateTransition(gp, state, msg);
    r := st.TransitionDb(e, coinbase);
  }

  /**
   * Processes a block. After each transaction the pool and the used gas make up the block's limit; the receipts
   * cumulate; only stamps add to the total of balances, and by no more than they are worth; no stamp is spent twice.
   */
  method Process(gasLimit: nat, msgs: seq<Message>, execs: seq<Execution>, state: StateDB, coinbase: Address)
    returns (ok: bool, panics: bool, receipts: seq<Receipt>, totalUsedGas: nat, gp: GasPool)
    requires |execs| == |msgs|
    modifies state
    ensures fresh(gp) && |receipts| <= |msgs| && (ok <==> |receipts| == |msgs|)
    ensures Cumulates(receipts) && Before(receipts, |receipts|) == totalUsedGas
    ensures panics <==> !ok && DividesByZero(msgs[|receipts|])
    ensures var l := Ledger(old(state.balances), old(state.nonces), old(state.images), gasLimit);
      && (forall k :: 0 <= k < |receipts| ==> Ran(l, msgs, execs, coinbase, receipts, k))
      && (!ok ==> !CanRun(LedgerAfter(l, msgs, execs, coinbase, |receipts|), msgs[|receipts|]))
      && (ok ==> LedgerOf(state, gp) == LedgerAfter(l, msgs, execs, coinbase, |msgs|))
    ensures ok ==> gp.gas + totalUsedGas == gasLimit
    ensures ok ==> Funded(msgs, receipts, old(state.Wealth()), state.Wealth())
    ensures ok ==> SpentOnce(msgs, |msgs|, old(state.images), state.images)
  {
    gp := new GasPool(gasLimit);
    receipts, totalUsedGas := [], 0;
    ghost var wealth := state.Wealth();
    ghost var l := Ledger(state.balances, state.nonces, state.images, gasLimit);
    for i := 0 to |msgs|
      invariant |receipts| == i && Cumulates(receipts) && Before(receipts, i) == totalUsedGas
      invariant gp.gas + totalUsedGas == gasLimit
      invariant Funded(msgs, receipts, wealth, state.Wealth())
      invariant SpentOnce(msgs, i, old(state.images), state.images)
      invariant LedgerOf(state, gp) == LedgerAfter(l, msgs, execs, coinbase, i)
      invariant forall k :: 0 <= k < i ==> Ran(l, msgs, execs, coinbase, receipts, k)
    {
      ghost var prior := receipts;
      ghost var images, now := state.images, state.Wealth();
      var r := ApplyMessage(gp, state, msgs[i], execs[i], coinbase);
      if !r.Ok? {
        return false, r.Panic?, receipts, totalUsedGas, gp;
      }
      totalUsedGas := totalUsedGas + r.usedGas;
      receipts := receipts + [Receipt(totalUsedGas, r.usedGas, r.failed)];
      FundedMore(msgs, prior, Receipt(totalUsedGas, r.usedGas, r.failed), wealth, now, state.Wealth());
      CumulatesMore(prior, receipts);
      RanMore(l, msgs, execs, coinbase, prior, receipts);
      SpentMore(msgs, i, old(state.images), images, state.images);
    }
    ok, panics := true, false;
  }

  lemma CumulatesMore(prior: seq<Receipt>, receipts: seq<Receipt>)
    requires Cumulates(prior) && |receipts| == |prior| + 1 && receipts[..|prior|] == prior
    requires receipts[|prior|].cumulative == Before(prior, |prior|) + receipts[|prior|].gasUsed
    ensures Cumulates(receipts)
  {
    assert forall k :: 0 <= k < |prior| ==> receipts[k] == receipts[..|prior|][k] == prior[k];
    forall j | 0 <= j < |receipts| ensures receipts[j].cumulative == Before(receipts, j) + receipts[j].gasUsed {
      assert Before(receipts, j) == Before(prior, j);
    }
  }

  lemma RanMore(l: Ledger, msgs: seq<Message>, execs: seq<Execution>, coinbase: Address, prior: seq<Receipt>,
                receipts: seq<Receipt>)
    requires |receipts| == |prior| + 1 <= |msgs| == |execs| && receipts[..|prior|] == prior
    requires forall k :: 0 <= k < |prior| ==> Ran(l, msgs, execs, coinbase, prior, k)
    requires Ran(l, msgs, execs, coinbase, receipts, |prior|)
    ensures forall k :: 0 <= k < |receipts| ==> Ran(l, msgs, execs, coinbase, receipts, k)
  {
    forall k | 0 <= k < |prior| ensures Ran(l, msgs, execs, coinbase, receipts, k) {
      assert receipts[..|prior|][k] == receipts[k];
      assert Ran(l, msgs, execs, coinbase, prior, k);
    }
  }

  lemma SpentMore(msgs: seq<Message>, n: nat, before: set<int>, images: set<int>, now: set<int>)
    requires n < |msgs| && SpentOnce(msgs, n, before, images) && images <= now
    requires !msgs[n].normal ==> msgs[n].ring.Some? && msgs[n].ring.value.keyImage in now - images
    ensures SpentOnce(msgs, n + 1, before, now)
  {
  }
}
