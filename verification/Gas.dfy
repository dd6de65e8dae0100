// Gas accounting of one transaction: normal transactions prepay gas from their sender, privacy transactions pay with
// a stamp, and both draw on the gas pool of the block. Running the code is an input: any transfers between accounts,
// any new key images, and any amount of gas left up to what was given. Decoding and verifying the ring signature of
// a privacy transaction is an input too: its outcome, or nothing when that fails.
module Gas {
  import opened Arithmetic
  import opened Powers
  import opened Sums

  type Address = int

  const TX_GAS := 21000
  const TX_GAS_CONTRACT_CREATION := 53000
  const TX_DATA_ZERO_GAS := 4
  const TX_DATA_NON_ZERO_GAS := 68
  const SSTORE_SET_GAS := 20000
  const REQUIRED_GAS_PER_MIX_PUB := 4000
  const UINT64_RANGE := 0x1_0000_0000_0000_0000

  datatype Ring = Ring(mixLen: nat, keyImage: int, stampBalance: nat)

  datatype Message = Message(normal: bool, from: Address, creation: bool, gasPrice: nat, gas: nat, value: nat,
                             checkNonce: bool, nonce: nat, data: seq<bv8>, ring: Option<Ring>)

  datatype Error = OutOfGas | InsufficientBalanceForGas | GasLimitReached | NonceTooHigh | NonceTooLow
                 | InvalidPrivacyValue | InvalidRingSigned | InsufficientBalance

  /** The outcome of a call; a division by zero ends the program. */
  datatype Result = Ok(requiredGas: nat, usedGas: nat, failed: bool) | Err(error: Error) | Panic

  datatype Transfer = Transfer(from: Address, to: Address, amount: nat)

  /**
   * What running the code does: transfers between accounts, nonces of other accounts, new key images, and the gas it
   * does not use.
   */
  datatype Execution = Execution(transfers: seq<Transfer>, nonces: map<Address, nat>, images: set<int>, gasLeft: nat,
                                 refund: nat, failed: bool)

  function Balance(balances: map<Address, nat>, a: Address): nat {
    if a in balances then balances[a] else 0
  }

  function Credit(balances: map<Address, nat>, a: Address, amount: nat): map<Address, nat> {
    balances[a := Balance(balances, a) + amount]
  }

  function Debit(balances: map<Address, nat>, a: Address, amount: nat): map<Address, nat>
    requires amount <= Balance(balances, a)
  {
    balances[a := Balance(balances, a) - amount]
  }

  /** A transfer moves its amount if the giver has it, and nothing otherwise. */
  function Moved(balances: map<Address, nat>, t: Transfer): map<Address, nat> {
    if t.amount <= Balance(balances, t.from) then Credit(Debit(balances, t.from, t.amount), t.to, t.amount)
    else balances
  }

  lemma MovedIs(balances: map<Address, nat>, t: Transfer, a: Address)
    ensures var moves := t.amount <= Balance(balances, t.from);
      Balance(Moved(balances, t), a) + (if moves && a == t.from then t.amount else 0) ==
      Balance(balances, a) + (if moves && a == t.to then t.amount else 0)
  {
  }

  /** The balances after the first n transfers. */
  function Transferred(balances: map<Address, nat>, transfers: seq<Transfer>, n: nat): map<Address, nat>
    requires n <= |transfers|
  {
    if n == 0 then balances else Moved(Transferred(balances, transfers, n - 1), transfers[n - 1])
  }

  lemma SetBalance(balances: map<Address, nat>, a: Address, x: nat)
    ensures Sum(balances[a := x]) + Balance(balances, a) == Sum(balances) + x
  {
    if a in balances {
      SumUpdate(balances, a, x);
    } else {
      var more := balances[a := x];
      SumRemove(more.Keys, more, a);
      assert more.Keys - {a} == balances.Keys;
      SumLe(balances.Keys, balances, more);
      SumLe(balances.Keys, more, balances);
    }
  }

  /** The price of an amount of gas. */
  ghost function Fee(gas: nat, price: nat): nat {
    Times(price, gas)
  }

  method Price(gas: nat, price: nat) returns (fee: nat)
    ensures fee == Fee(gas, price)
  {
    TimesIsProduct(price, gas);
    return gas * price;
  }

  /** What one byte of data costs. */
  function ByteGas(b: bv8): nat {
    if b == 0 then TX_DATA_ZERO_GAS else TX_DATA_NON_ZERO_GAS
  }

  function DataGas(data: seq<bv8>): nat {
    if data == [] then 0 else DataGas(data[..|data| - 1]) + ByteGas(data[|data| - 1])
  }

  function BaseGas(creation: bool): nat {
    if creation then TX_GAS_CONTRACT_CREATION else TX_GAS
  }

  /** The intrinsic gas is the base cost and the cost of each byte of data. */
  method IntrinsicGas(data: seq<bv8>, creation: bool, homestead: bool) returns (igas: nat)
    ensures igas == BaseGas(creation && homestead) + DataGas(data)
  {
    igas := if creation && homestead then TX_GAS_CONTRACT_CREATION else TX_GAS;
    if |data| > 0 {
      var nz := 0;
      for i := 0 to |data|
        invariant nz <= i && DataGas(data[..i]) == nz * TX_DATA_NON_ZERO_GAS + (i - nz) * TX_DATA_ZERO_GAS
      {
        assert data[..i + 1][..i] == data[..i];
        if data[i] != 0 {
          nz := nz + 1;
        }
      }
      assert data[..|data|] == data;
      igas := igas + nz * TX_DATA_NON_ZERO_GAS;
      igas := igas + (|data| - nz) * TX_DATA_ZERO_GAS;
    }
  }

  class GasPool {
    var gas: nat

    constructor (limit: nat)
      ensures gas == limit
    {
      gas := limit;
    }

    method AddGas(amount: nat)
      modifies this
      ensures gas == old(gas) + amount
    {
      gas := gas + amount;
    }

    method SubGas(amount: nat) returns (ok: bool)
      modifies this
      ensures ok <==> amount <= old(gas)
      ensures gas == if ok then old(gas) - amount else old(gas)
    {
      if gas < amount {
        return false;
      }
      gas := gas - amount;
      return true;
    }
  }

  class StateDB {
    var balances: map<Address, nat>
    var nonces: map<Address, nat>
    // The key images of spent stamps.
    var images: set<int>

    constructor (balances: map<Address, nat>, nonces: map<Address, nat>, images: set<int>)
      ensures this.balances == balances && this.nonces == nonces && this.images == images
    {
      this.balances, this.nonces, this.images := balances, nonces, images;
    }

    ghost function Wealth(): nat
      reads this
    {
      Sum(balances)
    }

    method AddBalance(a: Address, amount: nat)
      modifies this`balances
      ensures Wealth() == old(Wealth()) + amount
      ensures balances == old(balances)[a := old(Balance(balances, a)) + amount]
    {
      SetBalance(balances, a, Balance(balances, a) + amount);
      balances := balances[a := Balance(balances, a) + amount];
    }

    method SubBalance(a: Address, amount: nat)
      requires amount <= Balance(balances, a)
      modifies this`balances
      ensures Wealth() == old(Wealth()) - amount
      ensures balances == old(balances)[a := old(Balance(balances, a)) - amount]
    {
      SetBalance(balances, a, Balance(balances, a) - amount);
      balances := balances[a := Balance(balances, a) - amount];
    }
  }

  /** The gas a stamp is worth and what is left of it once the ring signature is paid for. */
  datatype Stamp = Stamp(total: nat, left: nat)

  /** The stamp is worth enough gas, in 64 bits, for the ring signature. */
  predicate StampPays(msg: Message) {
    && msg.ring.Some? && msg.gasPrice > 0
    && REQUIRED_GAS_PER_MIX_PUB * msg.ring.value.mixLen + SSTORE_SET_GAS <= msg.ring.value.stampBalance / msg.gasPrice
    && msg.ring.value.stampBalance / msg.gasPrice < UINT64_RANGE
  }

  /** What the stamp is worth in gas, and what the ring signature costs of it. */
  function StampGas(msg: Message): nat
    requires StampPays(msg)
  {
    msg.ring.value.stampBalance / msg.gasPrice
  }

  function RingGas(msg: Message): nat
    requires msg.ring.Some?
  {
    REQUIRED_GAS_PER_MIX_PUB * msg.ring.value.mixLen + SSTORE_SET_GAS
  }

  /** The sender can prepay the whole gas limit and the pool holds it. */
  ghost predicate CanBuy(msg: Message, balances: map<Address, nat>, pool: nat) {
    msg.gas < UINT64_RANGE && Fee(msg.gas, msg.gasPrice) <= Balance(balances, msg.from) && msg.gas <= pool
  }

  predicate NonceFits(msg: Message, nonces: map<Address, nat>) {
    msg.checkNonce ==> Balance(nonces, msg.from) == msg.nonce
  }

  ghost function Intrinsic(msg: Message): nat {
    BaseGas(msg.creation) + DataGas(msg.data)
  }

  /** The balances, nonces and spent key images, and the gas left for the block. */
  datatype Ledger = Ledger(balances: map<Address, nat>, nonces: map<Address, nat>, images: set<int>, pool: nat)

  /** Balances once the gas limit of a normal message is prepaid. */
  ghost function Prepaid(balances: map<Address, nat>, msg: Message): map<Address, nat>
    requires msg.normal ==> Fee(msg.gas, msg.gasPrice) <= Balance(balances, msg.from)
  {
    if msg.normal then Debit(balances, msg.from, Fee(msg.gas, msg.gasPrice)) else balances
  }

  /** The message begins, and its sender then still has the value it sends. */
  ghost predicate CanRun(l: Ledger, msg: Message) {
    && CanBegin(msg, l.balances, l.nonces, l.images, l.pool)
    && msg.value <= Balance(Prepaid(l.balances, msg), msg.from)
  }

  /** The gas is enough to begin with. */
  ghost predicate Affords(msg: Message) {
    if msg.normal then Intrinsic(msg) <= msg.gas
    else StampPays(msg) && RingGas(msg) + Intrinsic(msg) <= StampGas(msg)
  }

  /** The gas the code leaves of what it was given. */
  ghost function Unused(msg: Message, e: Execution): nat
    requires Affords(msg)
  {
    Min(e.gasLeft, if msg.normal then msg.gas - Intrinsic(msg) else StampGas(msg) - RingGas(msg) - Intrinsic(msg))
  }

  ghost function RequiredGas(msg: Message, e: Execution): nat
    requires Affords(msg)
  {
    if msg.normal then msg.gas - Unused(msg, e) else StampGas(msg)
  }

  /** The gas a message is charged for: a refund takes off at most half, and a stamp is used up as a whole. */
  ghost function UsedGas(msg: Message, e: Execution): nat
    requires Affords(msg)
  {
    if msg.normal then RequiredGas(msg, e) - Refund(RequiredGas(msg, e), e.refund) else StampGas(msg)
  }

  /** The balances after a message: it prepays, the code runs, the sender gets the rest and the coinbase the fee. */
  ghost function PaidFor(balances: map<Address, nat>, msg: Message, e: Execution, coinbase: Address): map<Address, nat>
    requires Affords(msg) && (msg.normal ==> Fee(msg.gas, msg.gasPrice) <= Balance(balances, msg.from))
  {
    var ran := Transferred(Prepaid(balances, msg), e.transfers, |e.transfers|);
    var rest := if msg.normal then Credit(ran, msg.from, Fee(msg.gas - UsedGas(msg, e), msg.gasPrice)) else ran;
    Credit(rest, coinbase, Fee(UsedGas(msg, e), msg.gasPrice))
  }

  /** The sender's nonce goes up by one, and the code sets those of others. */
  function Counted(nonces: map<Address, nat>, from: Address, others: map<Address, nat>): map<Address, nat> {
    (nonces + others)[from := Balance(nonces, from) + 1]
  }

  lemma CountedTwice(raised: map<Address, nat>, nonces: map<Address, nat>, from: Address, others: map<Address, nat>,
                     nonce: nat)
    requires raised == nonces[from := nonce] && nonce == Balance(nonces, from) + 1
    ensures (raised + others)[from := nonce] == Counted(nonces, from, others)
  {
  }

  /** The key image of the stamp a privacy message spends. */
  function NewImage(msg: Message): set<int> {
    if msg.normal || msg.ring.None? then {} else {msg.ring.value.keyImage}
  }

  /** What a message makes of the ledger; nothing if it cannot run. */
  ghost function Settled(l: Ledger, msg: Message, e: Execution, coinbase: Address): Ledger {
    if CanRun(l, msg) && UsedGas(msg, e) <= l.pool then
      Ledger(PaidFor(l.balances, msg, e, coinbase), Counted(l.nonces, msg.from, e.nonces),
             l.images + NewImage(msg) + e.images, l.pool - UsedGas(msg, e))
    else l
  }

  lemma Settles(l: Ledger, msg: Message, e: Execution, coinbase: Address, now: Ledger)
    requires CanRun(l, msg) && Affords(msg) && UsedGas(msg, e) + now.pool == l.pool
    requires now.balances == PaidFor(l.balances, msg, e, coinbase)
    requires now.nonces == Counted(l.nonces, msg.from, e.nonces) && now.images == l.images + NewImage(msg) + e.images
    ensures now == Settled(l, msg, e, coinbase)
  {
  }

  lemma RefusedForBalance(l: Ledger, msg: Message)
    requires CanBegin(msg, l.balances, l.nonces, l.images, l.pool)
    ensures Affords(msg) && Refusal(l, msg) == InsufficientBalance
  {
  }

  /** Gas is charged for at least half of what was required. */
  lemma GasBounds(msg: Message, e: Execution, r: Result)
    requires Affords(msg) && r.Ok?
    requires r.requiredGas == if msg.normal then msg.gas - Min(e.gasLeft, msg.gas - Intrinsic(msg)) else StampGas(msg)
    requires r.usedGas == r.requiredGas - if msg.normal then Refund(r.requiredGas, e.refund) else 0
    ensures r == Ok(RequiredGas(msg, e), UsedGas(msg, e), r.failed)
    ensures msg.normal ==> Intrinsic(msg) <= r.requiredGas <= msg.gas && r.usedGas <= r.requiredGas <= 2 * r.usedGas
  {
  }

  lemma FinishedAs(l: Ledger, msg: Message, e: Execution, coinbase: Address, r: Result, now: Ledger)
    requires CanRun(l, msg) && Affords(msg) && r.Ok?
    requires r.requiredGas == if msg.normal then msg.gas - Min(e.gasLeft, msg.gas - Intrinsic(msg)) else StampGas(msg)
    requires r.usedGas == r.requiredGas - if msg.normal then Refund(r.requiredGas, e.refund) else 0
    requires r.usedGas + now.pool == l.pool
    requires var ran := Transferred(Prepaid(l.balances, msg), e.transfers, |e.transfers|);
      var fee := Fee(r.usedGas, msg.gasPrice);
      var rest := if msg.normal && r.usedGas <= msg.gas then Fee(msg.gas - r.usedGas, msg.gasPrice) else 0;
      now.balances == Credit(if msg.normal then Credit(ran, msg.from, rest) else ran, coinbase, fee)
    requires now.nonces == Counted(l.nonces, msg.from, e.nonces) && now.images == l.images + NewImage(msg) + e.images
    ensures now == Settled(l, msg, e, coinbase) && r == Ok(RequiredGas(msg, e), UsedGas(msg, e), r.failed)
    ensures msg.normal ==> Intrinsic(msg) <= r.requiredGas <= msg.gas && r.usedGas <= r.requiredGas <= 2 * r.usedGas
    ensures msg.normal ==>
      Fee(msg.gas - r.usedGas, msg.gasPrice) + Fee(r.usedGas, msg.gasPrice) == Fee(msg.gas, msg.gasPrice)
  {
    GasBounds(msg, e, r);
    if msg.normal {
      TimesAdds(msg.gasPrice, msg.gas - r.usedGas, r.usedGas);
    }
    Settles(l, msg, e, coinbase, now);
  }

  /** A normal message whose code moves nothing costs its sender the fee, which the coinbase gets. */
  lemma PlainMessage(balances: map<Address, nat>, msg: Message, e: Execution, coinbase: Address, a: Address)
    requires msg.normal && Affords(msg) && Fee(msg.gas, msg.gasPrice) <= Balance(balances, msg.from)
    requires e.transfers == [] && msg.from != coinbase
    ensures var after, fee := PaidFor(balances, msg, e, coinbase), Fee(UsedGas(msg, e), msg.gasPrice);
      && Balance(after, msg.from) + fee == Balance(balances, msg.from)
      && Balance(after, coinbase) == Balance(balances, coinbase) + fee
      && (a != msg.from && a != coinbase ==> Balance(after, a) == Balance(balances, a))
  {
    TimesAdds(msg.gasPrice, msg.gas - UsedGas(msg, e), UsedGas(msg, e));
  }

  /** Whatever the code moves: on top of it the sender pays the fee and the coinbase gets it. */
  lemma PaidOnTop(balances: map<Address, nat>, msg: Message, e: Execution, coinbase: Address, a: Address)
    requires Affords(msg) && (msg.normal ==> Fee(msg.gas, msg.gasPrice) <= Balance(balances, msg.from))
    ensures var ran := Transferred(Prepaid(balances, msg), e.transfers, |e.transfers|);
      Balance(PaidFor(balances, msg, e, coinbase), a) == Balance(ran, a)
        + (if msg.normal && a == msg.from then Fee(msg.gas - UsedGas(msg, e), msg.gasPrice) else 0)
        + (if a == coinbase then Fee(UsedGas(msg, e), msg.gasPrice) else 0)
  {
  }

  /** Why a message is refused, in the order of the tests. */
  ghost function Refusal(l: Ledger, msg: Message): Error {
    var nonce := Balance(l.nonces, msg.from);
    if msg.normal && msg.checkNonce && nonce < msg.nonce then NonceTooHigh
    else if msg.normal && msg.checkNonce && nonce > msg.nonce then NonceTooLow
    else if msg.normal && msg.gas >= UINT64_RANGE then OutOfGas
    else if msg.normal && Balance(l.balances, msg.from) < Fee(msg.gas, msg.gasPrice) then InsufficientBalanceForGas
    else if msg.normal && l.pool < msg.gas then GasLimitReached
    else if Intrinsic(msg) >= UINT64_RANGE then OutOfGas
    else if !msg.normal && msg.value != 0 then InvalidPrivacyValue
    else if !msg.normal && msg.ring.None? then InvalidRingSigned
    else if !msg.normal && (!StampPays(msg) || msg.ring.value.keyImage in l.images) then OutOfGas
    else if !msg.normal && l.pool < StampGas(msg) then GasLimitReached
    else if !Affords(msg) then OutOfGas
    else InsufficientBalance
  }

  /** The transaction can begin: its gas can be bought and covers the intrinsic gas. */
  ghost predicate CanBegin(msg: Message, balances: map<Address, nat>, nonces: map<Address, nat>, images: set<int>,
                           pool: nat) {
    var intrinsic := BaseGas(msg.creation) + DataGas(msg.data);
    && intrinsic < UINT64_RANGE
    && if msg.normal then NonceFits(msg, nonces) && CanBuy(msg, balances, pool) && intrinsic <= msg.gas
       else && msg.value == 0 && StampPays(msg) && msg.ring.value.keyImage !in images
            && StampGas(msg) <= pool && RingGas(msg) + intrinsic <= StampGas(msg)
  }

  /**
   * A privacy message with a good ring signature and a gas price of zero: the stamp's worth is divided by the price.
   */
  predicate DividesByZero(msg: Message) {
    && !msg.normal && BaseGas(msg.creation) + DataGas(msg.data) < UINT64_RANGE
    && msg.value == 0 && msg.ring.Some? && msg.gasPrice == 0
  }

  method FetchPrivacyTxInfo(msg: Message) returns (r: Result, stamp: Stamp)
    ensures r.Ok? <==> StampPays(msg)
    ensures r.Panic? <==> msg.ring.Some? && msg.gasPrice == 0
    ensures msg.ring.None? ==> r == Err(InvalidRingSigned)
    ensures msg.ring.Some? && msg.gasPrice > 0 && !StampPays(msg) ==> r == Err(OutOfGas)
    ensures r.Ok? ==> stamp.total == StampGas(msg) && stamp.left == stamp.total - RingGas(msg)
  {
    stamp := Stamp(0, 0);
    if msg.ring.None? {
      return Err(InvalidRingSigned), stamp;
    }
    if msg.gasPrice == 0 {
      return Panic, stamp;
    }
    var stampGas := msg.ring.value.stampBalance / msg.gasPrice;
    if stampGas >= UINT64_RANGE {
      return Err(OutOfGas), stamp;
    }
    var preSubGas := REQUIRED_GAS_PER_MIX_PUB * msg.ring.value.mixLen + SSTORE_SET_GAS;
    if stampGas < preSubGas {
      return Err(OutOfGas), stamp;
    }
    return Ok(0, 0, false), Stamp(stampGas, stampGas - preSubGas);
  }

  /** The refund counter, capped to half of the used gas. */
  function Refund(used: nat, counter: nat): (refund: nat)
    ensures refund <= counter && 2 * refund <= used && (refund == counter || refund == used / 2)
  {
    if used / 2 < counter then used / 2 else counter
  }

  class StateTransition {
    const gp: GasPool
    const state: StateDB
    const msg: Message
    var gas: nat
    var initialGas: nat

    constructor (gp: GasPool, state: StateDB, msg: Message)
      ensures this.gp == gp && this.state == state && this.msg == msg && gas == 0 && initialGas == 0
    {
      this.gp, this.state, this.msg, gas, initialGas := gp, state, msg, 0, 0;
    }

    method UseGas(amount: nat) returns (ok: bool)
      modifies this`gas
      ensures ok <==> amount <= old(gas)
      ensures gas == if ok then old(gas) - amount else old(gas)
    {
      if gas < amount {
        return false;
      }
      gas := gas - amount;
      return true;
    }

    ghost function Now(): Ledger
      reads gp, state
    {
      Ledger(state.balances, state.nonces, state.images, gp.gas)
    }

    function GasUsed(): int
      reads this
    {
      initialGas - gas
    }

    method BuyGas() returns (r: Result)
      requires gas == 0
      modifies this, gp, state`balances
      ensures r.Ok? <==> CanBuy(msg, old(state.balances), old(gp.gas))
      ensures !r.Panic?
      ensures r.Ok? ==> msg.gas <= old(gp.gas) && gp.gas == old(gp.gas) - msg.gas && gas == initialGas == msg.gas
      ensures r.Ok? ==> state.Wealth() == old(state.Wealth()) - Fee(msg.gas, msg.gasPrice)
      ensures r.Ok? ==> state.balances == Debit(old(state.balances), msg.from, Fee(msg.gas, msg.gasPrice))
      ensures !r.Ok? ==> gp.gas == old(gp.gas) && state.balances == old(state.balances)
      ensures !r.Ok? ==> r == Err(if msg.gas >= UINT64_RANGE then OutOfGas
        else if Balance(state.balances, msg.from) < Fee(msg.gas, msg.gasPrice) then InsufficientBalanceForGas
        else GasLimitReached)
    {
      if msg.gas >= UINT64_RANGE {
        return Err(OutOfGas);
      }
      var mgval := Price(msg.gas, msg.gasPrice);
      if Balance(state.balances, msg.from) < mgval {
        return Err(InsufficientBalanceForGas);
      }
      var ok := gp.SubGas(msg.gas);
      if !ok {
        return Err(GasLimitReached);
      }
      gas := gas + msg.gas;
      initialGas := msg.gas;
      state.SubBalance(msg.from, mgval);
      return Ok(0, 0, false);
    }

    method PreCheck() returns (r: Result)
      requires gas == 0
      modifies this, gp, state`balances
      ensures !r.Panic?
      ensures r.Ok? <==> NonceFits(msg, state.nonces) && CanBuy(msg, old(state.balances), old(gp.gas))
      ensures r.Ok? ==> msg.gas <= old(gp.gas) && gp.gas == old(gp.gas) - msg.gas && gas == initialGas == msg.gas
      ensures r.Ok? ==> state.Wealth() == old(state.Wealth()) - Fee(msg.gas, msg.gasPrice)
      ensures r.Ok? ==> state.balances == Debit(old(state.balances), msg.from, Fee(msg.gas, msg.gasPrice))
      ensures !r.Ok? ==> gp.gas == old(gp.gas) && state.balances == old(state.balances)
      ensures msg.normal && !r.Ok? ==> r == Err(Refusal(old(Now()), msg))
    {
      if msg.checkNonce {
        var nonce := Balance(state.nonces, msg.from);
        if nonce < msg.nonce {
          return Err(NonceTooHigh);
        } else if nonce > msg.nonce {
          return Err(NonceTooLow);
        }
      }
      r := BuyGas();
    }

    /** Marks the stamp as spent; a stamp that is spent already yields no gas at all. */
    method PreProcessPrivacyTx() returns (r: Result, stamp: Stamp)
      modifies state`images
      ensures r.Ok? <==> msg.value == 0 && StampPays(msg)
      ensures r.Panic? <==> msg.value == 0 && msg.ring.Some? && msg.gasPrice == 0
      ensures r == Err(InvalidPrivacyValue) <==> msg.value != 0
      ensures r.Err? && msg.value == 0 ==> r.error == if msg.ring.None? then InvalidRingSigned else OutOfGas
      ensures r.Ok? && msg.ring.value.keyImage in old(state.images) ==>
        stamp == Stamp(0, 0) && state.images == old(state.images)
      ensures r.Ok? && msg.ring.value.keyImage !in old(state.images) ==>
        state.images == old(state.images) + {msg.ring.value.keyImage}
      ensures r.Ok? && msg.ring.value.keyImage !in old(state.images) ==>
        stamp.total == StampGas(msg) && stamp.left == stamp.total - RingGas(msg)
      ensures !r.Ok? ==> state.images == old(state.images)
    {
      stamp := Stamp(0, 0);
      if msg.value != 0 {
        return Err(InvalidPrivacyValue), stamp;
      }
      var info;
      r, info := FetchPrivacyTxInfo(msg);
      if !r.Ok? || msg.ring.value.keyImage in state.images {
        return r, stamp;
      }
      state.images := state.images + {msg.ring.value.keyImage};
      return r, info;
    }

    /** The stamp's gas comes out of the pool; what the ring signature leaves of it is there to run the code. */
    method BuyWithStamp() returns (r: Result, stamp: Stamp)
      modifies this, gp, state`images
      ensures r.Ok? ==>
        StampPays(msg) && gas == initialGas == stamp.left && gp.gas + stamp.total == old(gp.gas) &&
        old(state.images) <= state.images
      ensures r.Panic? <==> msg.value == 0 && msg.ring.Some? && msg.gasPrice == 0
      ensures r.Ok? && gas > 0 ==> StampUsed(stamp.total) && gas == StampGas(msg) - RingGas(msg)
      ensures
        msg.value == 0 && StampPays(msg) && msg.ring.value.keyImage !in old(state.images) &&
        StampGas(msg) <= old(gp.gas) ==>
        r.Ok? && gas == StampGas(msg) - RingGas(msg)
      ensures r.Ok? ==> msg.value == 0 && (msg.ring.value.keyImage in old(state.images) ==> gas == 0)
      ensures r.Ok? ==> state.images == old(state.images) + {msg.ring.value.keyImage}
      ensures r.Ok? && msg.ring.value.keyImage !in old(state.images) ==>
        stamp.total == StampGas(msg) && gas == StampGas(msg) - RingGas(msg)
      ensures r.Err? ==> r.error == if msg.value != 0 then InvalidPrivacyValue
        else if msg.ring.None? then InvalidRingSigned
        else if !StampPays(msg) then OutOfGas else GasLimitReached
      ensures r == Err(GasLimitReached) ==>
        StampPays(msg) && msg.ring.value.keyImage !in old(state.images) && StampGas(msg) > old(gp.gas)
    {
      r, stamp := PreProcessPrivacyTx();
      if r.Ok? {
        gas, initialGas := stamp.left, stamp.left;
        var ok := gp.SubGas(stamp.total);
        if !ok {
          r := Err(GasLimitReached);
        }
      }
    }

    /** Returns what is left, and at most half of what was used, to the sender and to the pool. */
    method RefundGas(counter: nat)
      requires gas <= initialGas
      modifies this`gas, gp, state`balances
      ensures old(gas) <= gas <= initialGas && 2 * (gas - old(gas)) <= initialGas - old(gas)
      ensures gas - old(gas) == Refund(initialGas - old(gas), counter)
      ensures gp.gas == old(gp.gas) + gas
      ensures state.Wealth() == old(state.Wealth()) + Fee(gas, msg.gasPrice)
      ensures state.balances == Credit(old(state.balances), msg.from, Fee(gas, msg.gasPrice))
    {
      var refund := Refund(GasUsed(), counter);
      TimesAdds(msg.gasPrice, gas, refund);
      var remaining := Price(gas, msg.gasPrice);
      state.AddBalance(msg.from, remaining);
      var bonus := Price(refund, msg.gasPrice);
      state.AddBalance(msg.from, bonus);
      gas := gas + refund;
      gp.AddGas(gas);
    }

    /**
     * Runs the code if the sender has the value it sends. The sender's nonce goes up before a call, and before the
     * code of a new contract.
     */
    method Execute(e: Execution) returns (ok: bool)
      modifies this`gas, state
      ensures ok <==> msg.value <= Balance(old(state.balances), msg.from)
      ensures ok ==> gas == Min(e.gasLeft, old(gas)) && state.images == old(state.images) + e.images
      ensures ok ==> state.nonces == Counted(old(state.nonces), msg.from, e.nonces)
      ensures ok ==> state.balances == Transferred(old(state.balances), e.transfers, |e.transfers|)
      ensures state.Wealth() == old(state.Wealth())
    {
      var nonce := Balance(state.nonces, msg.from) + 1;
      if !msg.creation {
        state.nonces := state.nonces[msg.from := nonce];
      }
      if Balance(state.balances, msg.from) < msg.value {
        return false;
      }
      if msg.creation {
        state.nonces := state.nonces[msg.from := nonce];
      }
      CountedTwice(state.nonces, old(state.nonces), msg.from, e.nonces, nonce);
      state.nonces := (state.nonces + e.nonces)[msg.from := nonce];
      gas := if e.gasLeft < gas then e.gasLeft else gas;
      state.images := state.images + e.images;
      Move(e.transfers);
      ok := true;
    }

    method Move(transfers: seq<Transfer>)
      modifies state`balances
      ensures state.balances == Transferred(old(state.balances), transfers, |transfers|)
      ensures state.Wealth() == old(state.Wealth())
    {
      for i := 0 to |transfers|
        modifies state`balances
        invariant state.balances == Transferred(old(state.balances), transfers, i)
        invariant state.Wealth() == old(state.Wealth())
      {
        MoveOne(transfers[i]);
      }
    }

    method MoveOne(t: Transfer)
      modifies state`balances
      ensures state.balances == Moved(old(state.balances), t) && state.Wealth() == old(state.Wealth())
    {
      if t.amount <= Balance(state.balances, t.from) {
        state.SubBalance(t.from, t.amount);
        state.AddBalance(t.to, t.amount);
      }
    }

    /** What the pool, the balances and the stamps look like after a successful transaction. */
    twostate predicate Accounted(r: Result)
      requires r.Ok?
      reads this, gp, state
    {
      && gp.gas + r.usedGas == old(gp.gas) && old(state.images) <= state.images
      && if msg.normal then state.Wealth() == old(state.Wealth())
         else StampUsed(r.usedGas) && state.Wealth() == old(state.Wealth()) + Fee(r.usedGas, msg.gasPrice)
    }

    /** The stamp was unspent, is spent now, and is worth this much gas. */
    twostate predicate StampUsed(used: nat)
      reads this, state
    {
      && StampPays(msg) && used == StampGas(msg)
      && msg.ring.value.keyImage !in old(state.images) && msg.ring.value.keyImage in state.images
    }

    /** Buys the gas, from the balance or with the stamp, and pays the intrinsic gas out of it. */
    method Begin() returns (r: Result, stamp: Stamp)
      requires gas == 0 && initialGas == 0
      modifies this, gp, state
      ensures r.Ok? <==> old(CanBegin(msg, state.balances, state.nonces, state.images, gp.gas))
      ensures r.Panic? <==> DividesByZero(msg)
      ensures r.Ok? ==> old(state.images) <= state.images && gas <= initialGas
      ensures r.Ok? && msg.normal ==> gp.gas + initialGas == old(gp.gas) && initialGas == msg.gas
      ensures r.Ok? && msg.normal ==> initialGas - gas == BaseGas(msg.creation) + DataGas(msg.data)
      ensures r.Ok? && msg.normal ==> state.Wealth() + Fee(initialGas, msg.gasPrice) == old(state.Wealth())
      ensures r.Ok? && !msg.normal ==>
        gp.gas + stamp.total == old(gp.gas) && state.Wealth() == old(state.Wealth()) && StampUsed(stamp.total)
      ensures r.Ok? && !msg.normal ==> gas == StampGas(msg) - RingGas(msg) - Intrinsic(msg)
      ensures r.Ok? ==> Begun(old(Now()), stamp.total)
      ensures msg.normal && !old(NonceFits(msg, state.nonces) && CanBuy(msg, state.balances, gp.gas)) ==>
        Now() == old(Now())
      ensures r.Err? ==> r.error == Refusal(old(Now()), msg)
    {
      stamp := Stamp(0, 0);
      if msg.normal {
        r := PreCheck();
        if !r.Ok? {
          return;
        }
      }
      var intrinsicGas := IntrinsicGas(msg.data, msg.creation, true);
      if intrinsicGas >= UINT64_RANGE {
        return Err(OutOfGas), stamp;
      }
      if !msg.normal {
        r, stamp := BuyWithStamp();
        if !r.Ok? {
          return;
        }
      }
      var ok := UseGas(intrinsicGas);
      if !ok {
        r := Err(OutOfGas);
      }
    }

    method TransitionDb(e: Execution, coinbase: Address) returns (r: Result)
      requires gas == 0 && initialGas == 0
      modifies this, gp, state
      ensures r.Ok? <==> old(CanRun(Now(), msg))
      ensures r.Panic? <==> DividesByZero(msg)
      ensures r.Err? ==> r.error == Refusal(old(Now()), msg)
      ensures msg.normal && !old(NonceFits(msg, state.nonces) && CanBuy(msg, state.balances, gp.gas)) ==>
        Now() == old(Now())
      ensures r.Ok? ==> Affords(msg) && UsedGas(msg, e) <= old(gp.gas) && Now() == Settled(old(Now()), msg, e, coinbase)
      ensures r.Ok? ==> r == Ok(RequiredGas(msg, e), UsedGas(msg, e), e.failed)
      ensures r.Ok? ==> Accounted(r)
      ensures r.Ok? && msg.normal ==> BaseGas(msg.creation) + DataGas(msg.data) <= r.requiredGas <= msg.gas
      ensures r.Ok? && msg.normal ==> r.usedGas <= r.requiredGas <= 2 * r.usedGas
      ensures r.Ok? && !msg.normal ==> r.requiredGas == r.usedGas
    {
      var stamp;
      r, stamp := Begin();
      if !r.Ok? {
        return;
      }
      r := Finish(e, coinbase, stamp.total, old(Now()));
    }

    /** What the ledger l and the gas have become once the transaction has begun. */
    ghost predicate Begun(l: Ledger, stampTotal: nat)
      reads this, gp, state
    {
      && CanBegin(msg, l.balances, l.nonces, l.images, l.pool) && Affords(msg) && gas <= initialGas
      && state.balances == Prepaid(l.balances, msg) && state.nonces == l.nonces
      && state.images == l.images + NewImage(msg)
      && if msg.normal then gp.gas + msg.gas == l.pool && initialGas == msg.gas && gas == msg.gas - Intrinsic(msg)
         else gp.gas + stampTotal == l.pool && stampTotal == StampGas(msg)
    }

    /** The rest of `TransitionDb`, in terms of the ledger at its beginning. */
    method Finish(e: Execution, coinbase: Address, stampTotal: nat, ghost l: Ledger) returns (r: Result)
      requires Begun(l, stampTotal)
      modifies this`gas, gp, state
      ensures r == (if CanRun(l, msg) then Ok(RequiredGas(msg, e), UsedGas(msg, e), e.failed) else Err(Refusal(l, msg)))
      ensures r.Ok? ==> r.usedGas <= l.pool && Now() == Settled(l, msg, e, coinbase)
      ensures r.Ok? ==>
        state.Wealth() == old(state.Wealth()) + Fee(if msg.normal then msg.gas else r.usedGas, msg.gasPrice)
      ensures r.Ok? && msg.normal ==>
        Intrinsic(msg) <= r.requiredGas <= msg.gas && r.usedGas <= r.requiredGas <= 2 * r.usedGas
    {
      r := Perform(e, coinbase, stampTotal);
      if r.Err? {
        RefusedForBalance(l, msg);
      } else {
        FinishedAs(l, msg, e, coinbase, r, Now());
      }
    }

    /** The part of `TransitionDb` behind the intrinsic gas. */
    method Perform(e: Execution, coinbase: Address, stampTotal: nat) returns (r: Result)
      requires gas <= initialGas
      modifies this`gas, gp, state
      ensures r == Err(InsufficientBalance) || r.Ok?
      ensures r.Ok? <==> msg.value <= Balance(old(state.balances), msg.from)
      ensures r.Ok? ==> r.failed == e.failed && state.images == old(state.images) + e.images
      ensures r.Ok? ==> state.nonces == Counted(old(state.nonces), msg.from, e.nonces)
      ensures r.Ok? ==> r.requiredGas == if msg.normal then initialGas - Min(e.gasLeft, old(gas)) else stampTotal
      ensures r.Ok? ==> r.usedGas == r.requiredGas - if msg.normal then Refund(r.requiredGas, e.refund) else 0
      ensures r.Ok? ==> gp.gas == old(gp.gas) + if msg.normal then initialGas - r.usedGas else 0
      ensures r.Ok? ==>
        var ran := Transferred(old(state.balances), e.transfers, |e.transfers|);
        var fee := Fee(r.usedGas, msg.gasPrice);
        var rest := if msg.normal then Fee(initialGas - r.usedGas, msg.gasPrice) else 0;
        && state.balances == Credit(if msg.normal then Credit(ran, msg.from, rest) else ran, coinbase, fee)
        && state.Wealth() == old(state.Wealth()) + rest + fee
    {
      var ok := Execute(e);
      if !ok {
        return Err(InsufficientBalance);
      }
      r := Charge(e, coinbase, stampTotal);
    }

    /** The end of `TransitionDb`: what is left goes back, and the coinbase gets the fee of what was used. */
    method Charge(e: Execution, coinbase: Address, stampTotal: nat) returns (r: Result)
      requires gas <= initialGas
      modifies this`gas, gp, state`balances
      ensures r.Ok? && r.failed == e.failed && r.requiredGas == if msg.normal then initialGas - old(gas) else stampTotal
      ensures r.usedGas == r.requiredGas - if msg.normal then Refund(r.requiredGas, e.refund) else 0
      ensures gp.gas == old(gp.gas) + if msg.normal then initialGas - r.usedGas else 0
      ensures var fee := Fee(r.usedGas, msg.gasPrice);
        var rest := if msg.normal then Fee(initialGas - r.usedGas, msg.gasPrice) else 0;
        && state.balances == Credit(if msg.normal then Credit(old(state.balances), msg.from, rest)
                                    else old(state.balances), coinbase, fee)
        && state.Wealth() == old(state.Wealth()) + rest + fee
    {
      if msg.normal {
        var required := GasUsed();
        RefundGas(e.refund);
        r := Ok(required, GasUsed(), e.failed);
      } else {
        r := Ok(stampTotal, stampTotal, e.failed);
      }
      var fee := Price(r.usedGas, msg.gasPrice);
      state.AddBalance(coinbase, fee);
    }
  }

  /** The fee a stamp pays for is never more than the stamp, and short of it by less than the price of one gas. */
  lemma StampCoversFee(balance: nat, price: nat)
    requires price > 0
    ensures Fee(balance / price, price) <= balance < Fee(balance / price, price) + price
  {
    TimesIsProduct(price, balance / price);
  }

  /** A plain privacy call with a gas price of zero ends in a division by zero whatever the state and the pool. */
  method FreeStamp(gp: GasPool, state: StateDB, from: Address, ring: Ring, e: Execution, coinbase: Address)
    returns (r: Result)
    modifies gp, state
    ensures r == Panic
  {
    var msg := Message(false, from, false, 0, 0, 0, false, 0, [], Some(ring));
    var st := new StateTransition(gp, state, msg);
    r := st.TransitionDb(e, coinbase);
  }
}
