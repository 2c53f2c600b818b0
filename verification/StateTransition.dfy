/**
 One transaction applied to the state: pricing, buying gas, the refund and the payment of fees,
 including the split of fees between miner and fee pool.

 The virtual machine is a parameter: from a world and an amount of gas it makes a new world, some
 gas left over, and a refund counter.
 */
module StateTransition {
  import opened BlockTree
  import opened Balances
  import opened GasPool

  const TX_GAS := 21000
  const TX_GAS_CONTRACT_CREATION := 53000
  const TX_DATA_ZERO_GAS := 4
  const TX_DATA_NON_ZERO_GAS_FRONTIER := 68
  const TX_DATA_NON_ZERO_GAS_EIP2028 := 16
  const INIT_CODE_WORD_GAS := 2
  const TX_ACCESS_LIST_ADDRESS_GAS := 2400
  const TX_ACCESS_LIST_STORAGE_KEY_GAS := 1900
  const MAX_INIT_CODE_SIZE := 49152
  const REFUND_QUOTIENT := 2
  const REFUND_QUOTIENT_EIP3529 := 5
  const MINER_FEE_PERCENT := 125
  const FEE_POOL_PERCENT := 875
  const FEE_PERCENT_DIVISOR := 1000

  type Byte = b: nat | b < 256

  datatype Error =
    | NonceTooHigh
    | NonceTooLow
    | NonceMax
    | SenderNoEOA
    | FeeCapVeryHigh
    | TipVeryHigh
    | TipAboveFeeCap
    | FeeCapTooLow
    | InsufficientFunds
    | GasLimitReached
    | GasUintOverflow
    | IntrinsicGasTooLow
    | InsufficientFundsForTransfer
    | MaxInitCodeSizeExceeded

  // ----- transactions and messages

  datatype AccessList = AccessList(addresses: uint64, keys: uint64)

  /** A transaction priced by a single gas price, or by a tip cap and a fee cap. */
  datatype Price = Single(gasPrice: nat) | Dynamic(tip: nat, cap: nat)

  datatype Transaction = Transaction(
    from: Address,
    to: Option<Address>,
    nonce: uint64,
    value: nat,
    gas: uint64,
    price: Price,
    data: seq<Byte>,
    accessList: Option<AccessList>)

  datatype Message = Message(
    from: Address,
    to: Option<Address>,
    nonce: uint64,
    value: nat,
    gasLimit: uint64,
    gasPrice: nat,
    gasFeeCap: nat,
    gasTipCap: nat,
    data: seq<Byte>,
    accessList: Option<AccessList>)

  function Min(a: int, b: int): int
  {
    if a > b then b else a
  }

  /** What a transaction asks for, priced for a block.  A single price is paid as it is; with a tip and a
      cap the price is the base fee and the tip on top of it, as far as the cap allows. */
  function ToMessage(tx: Transaction, baseFee: Option<nat>): (m: Message)
    ensures m.gasPrice <= m.gasFeeCap
    ensures tx.price.Single? ==> m.gasPrice == m.gasFeeCap == m.gasTipCap == tx.price.gasPrice
    ensures tx.price.Dynamic? ==> m.gasFeeCap == tx.price.cap && m.gasTipCap == tx.price.tip
    ensures tx.price.Dynamic? && baseFee.Some? ==>
              m.gasPrice <= tx.price.tip + baseFee.value && m.gasPrice in {tx.price.cap, tx.price.tip + baseFee.value}
    ensures tx.price.Dynamic? && baseFee.None? ==> m.gasPrice == tx.price.cap
    ensures m.from == tx.from && m.to == tx.to && m.nonce == tx.nonce && m.value == tx.value && m.gasLimit == tx.gas
    ensures m.data == tx.data && m.accessList == tx.accessList
    ensures baseFee.Some? && baseFee.value <= m.gasFeeCap ==>
              m.gasPrice - baseFee.value == Min(m.gasTipCap, m.gasFeeCap - baseFee.value)
  {
    var tip := if tx.price.Single? then tx.price.gasPrice else tx.price.tip;
    var cap := if tx.price.Single? then tx.price.gasPrice else tx.price.cap;
    var price := if baseFee.Some? then Min(tip + baseFee.value, cap) else cap;
    Message(tx.from, tx.to, tx.nonce, tx.value, tx.gas, price, cap, tip, tx.data, tx.accessList)
  }

  // ----- intrinsic gas

  /** The words of 32 bytes that hold `size` bytes, as 64-bit arithmetic computes it. */
  function ToWordSize(size: uint64): (w: nat)
    ensures w * 32 >= size && (w - 1) * 32 < size
  {
    if size > MAX_UINT64 - 31 then MAX_UINT64 / 32 + 1 else (size + 31) / 32
  }

  ghost function NonZero(data: seq<Byte>): nat
  {
    if data == [] then 0
    else NonZero(data[..|data| - 1]) + if data[|data| - 1] != 0 then 1 else 0
  }

  /** What a transaction costs before it runs, without its access list, in unbounded arithmetic. */
  ghost function DataCost(data: seq<Byte>, creates: bool, homestead: bool, istanbul: bool, shanghai: bool): nat
    requires |data| <= MAX_UINT64
  {
    (if creates && homestead then TX_GAS_CONTRACT_CREATION else TX_GAS)
    + NonZero(data) * (if istanbul then TX_DATA_NON_ZERO_GAS_EIP2028 else TX_DATA_NON_ZERO_GAS_FRONTIER)
    + (|data| - NonZero(data)) * TX_DATA_ZERO_GAS
    + (if |data| > 0 && creates && shanghai then ToWordSize(|data|) * INIT_CODE_WORD_GAS else 0)
  }

  ghost function AccessCost(accessList: Option<AccessList>): nat
  {
    if accessList.None? then 0
    else
      accessList.value.addresses * TX_ACCESS_LIST_ADDRESS_GAS + accessList.value.keys * TX_ACCESS_LIST_STORAGE_KEY_GAS
  }

  /** A product added to a 64-bit counter, refused if it does not fit. */
  method AddChecked(gas: uint64, count: nat, price: nat) returns (r: Option<uint64>)
    requires price > 0
    ensures r == if gas + count * price <= MAX_UINT64 then Some(gas + count * price) else None
  {
    QuotientBound(MAX_UINT64 - gas, price, count);
    if (MAX_UINT64 - gas) / price < count {
      return None;
    }
    r := Some(gas + count * price);
  }

  lemma {:induction false} QuotientBound(room: nat, price: nat, count: nat)
    requires price > 0
    ensures room / price < count <==> count * price > room
  {
    var q, r := room / price, room % price;
    assert room == q * price + r;
    if q < count {
      assert (q + 1) * price <= count * price;
    } else {
      assert count * price <= q * price;
    }
  }

  method CountNonZero(data: seq<Byte>) returns (nz: nat)
    ensures nz == NonZero(data) <= |data|
  {
    nz := 0;
    for i := 0 to |data|
      invariant nz == NonZero(data[..i]) <= i
    {
      assert data[..i + 1][..i] == data[..i];
      if data[i] != 0 {
        nz := nz + 1;
      }
    }
    assert data[..|data|] == data;
  }

  /** The cost without the access list; a cost that does not fit 64 bits is refused. */
  method DataGas(data: seq<Byte>, creates: bool, homestead: bool, istanbul: bool, shanghai: bool)
    returns (r: Option<uint64>)
    requires |data| <= MAX_UINT64
    ensures var cost := DataCost(data, creates, homestead, istanbul, shanghai);
            r == if cost <= MAX_UINT64 then Some(cost) else None
  {
    var gas: uint64 := if creates && homestead then TX_GAS_CONTRACT_CREATION else TX_GAS;
    if |data| == 0 {
      return Some(gas);
    }
    var nz := CountNonZero(data);
    var step := AddChecked(gas, nz, if istanbul then TX_DATA_NON_ZERO_GAS_EIP2028 else TX_DATA_NON_ZERO_GAS_FRONTIER);
    if step.None? {
      return None;
    }
    step := AddChecked(step.value, |data| - nz, TX_DATA_ZERO_GAS);
    if step.None? {
      return None;
    }
    if creates && shanghai {
      step := AddChecked(step.value, ToWordSize(|data|), INIT_CODE_WORD_GAS);
    }
    r := step;
  }

  lemma {:induction false} WrapTwice(gas: nat, a: nat, b: nat)
    ensures ((gas + a) % (MAX_UINT64 + 1) + b) % (MAX_UINT64 + 1) == (gas + a + b) % (MAX_UINT64 + 1)
  {
  }

  /** The gas a transaction costs before it runs.  Costs of the data that do not fit 64 bits are
      refused; the access list is added without a check and wraps around. */
  method IntrinsicGas(data: seq<Byte>, accessList: Option<AccessList>, creates: bool, homestead: bool, istanbul: bool,
                      shanghai: bool)
    returns (r: Option<uint64>)
    requires |data| <= MAX_UINT64
    ensures r.None? <==> DataCost(data, creates, homestead, istanbul, shanghai) > MAX_UINT64
    ensures r.Some? ==>
              var cost := DataCost(data, creates, homestead, istanbul, shanghai) + AccessCost(accessList);
              r.value == cost % (MAX_UINT64 + 1)
  {
    r := DataGas(data, creates, homestead, istanbul, shanghai);
    if r.Some? && accessList.Some? {
      var a := accessList.value.addresses * TX_ACCESS_LIST_ADDRESS_GAS;
      var b := accessList.value.keys * TX_ACCESS_LIST_STORAGE_KEY_GAS;
      WrapTwice(r.value, a, b);
      var gas: uint64 := (r.value + a) % (MAX_UINT64 + 1);
      r := Some((gas + b) % (MAX_UINT64 + 1));
    }
  }

  // ----- the environment

  datatype Rules = Rules(homestead: bool, istanbul: bool, london: bool, shanghai: bool, feePool: bool)

  datatype Context = Context(rules: Rules, baseFee: Option<nat>, coinbase: Address, feePoolAddress: Address)

  /** Header validation: a base fee is present from London on and only then. */
  predicate ContextOk(c: Context)
  {
    c.rules.london <==> c.baseFee.Some?
  }

  datatype World = World(balances: Balances, nonces: map<Address, uint64>, contracts: set<Address>)

  function GetNonce(w: World, a: Address): uint64
  {
    if a in w.nonces then w.nonces[a] else 0
  }

  datatype Execution = Execution(world: World, gasLeft: uint64, refund: uint64, failed: bool)

  type Evm = (World, uint64) -> Execution

  /** The virtual machine returns no more gas than it was given. */
  ghost predicate WellBehaved(evm: Evm)
  {
    forall w: World, g: uint64 :: evm(w, g).gasLeft <= g
  }

  // ----- fees

  function EffectiveTip(c: Context, m: Message): int
    requires ContextOk(c)
  {
    if c.rules.london then Min(m.gasTipCap, m.gasFeeCap - c.baseFee.value) else m.gasPrice
  }

  function MinerShare(fee: int): int
  {
    fee * MINER_FEE_PERCENT / FEE_PERCENT_DIVISOR
  }

  function PoolShare(fee: int): int
  {
    fee * FEE_POOL_PERCENT / FEE_PERCENT_DIVISOR
  }

  /** What the two rounded-down shares of a fee fall short of it. */
  function Dust(fee: nat): (d: int)
    ensures 0 <= d <= 1
  {
    if fee * MINER_FEE_PERCENT % FEE_PERCENT_DIVISOR == 0 then 0 else 1
  }

  lemma {:induction false} Thousandths(x: int, q: int, r: int)
    requires x == 1000 * q + r && 0 <= r < 1000
    ensures x / 1000 == q && x % 1000 == r
  {
  }

  lemma {:induction false} SplitLosesDust(fee: nat)
    ensures MinerShare(fee) + PoolShare(fee) == fee - Dust(fee)
    ensures Dust(fee) == 0 <==> fee % 8 == 0
    ensures MinerShare(fee) == fee / 8 && PoolShare(fee) == fee * 7 / 8
  {
    var k, j := fee / 8, fee % 8;
    Thousandths(fee * 125, k, 125 * j);
    if j == 0 {
      Thousandths(fee * 875, fee - k, 0);
    } else {
      Thousandths(fee * 875, fee - k - 1, 1000 - 125 * j);
    }
  }

  /** What leaves circulation when a message has used some gas: rounding dust if the fee pool is
      active, otherwise the base fee. */
  ghost function Burned(c: Context, m: Message, used: nat): int
    requires ContextOk(c) && 0 <= EffectiveTip(c, m)
  {
    if c.rules.feePool then
      Dust(used * EffectiveTip(c, m)) + if c.rules.london then Dust(used * c.baseFee.value) else 0
    else if c.rules.london then used * c.baseFee.value else 0
  }

  /** With the fee pool active at most two wei are lost, one for each rounded split, and none exactly
      when both fees divide by eight; without it the base fee is burned, all of it. */
  lemma {:induction false} BurnedBounds(c: Context, m: Message, used: nat)
    requires ContextOk(c) && 0 <= EffectiveTip(c, m)
    ensures c.rules.feePool ==> 0 <= Burned(c, m, used) <= 2
    ensures c.rules.feePool && c.rules.london ==>
              (Burned(c, m, used) == 0 <==> used * EffectiveTip(c, m) % 8 == 0 && used * c.baseFee.value % 8 == 0)
    ensures !c.rules.feePool && c.rules.london ==> Burned(c, m, used) == used * c.baseFee.value
    ensures !c.rules.feePool && !c.rules.london ==> Burned(c, m, used) == 0
  {
    SplitLosesDust(used * EffectiveTip(c, m));
    if c.rules.london {
      SplitLosesDust(used * c.baseFee.value);
    }
  }

  /** What the miner earns from a message. */
  ghost function MinerEarns(c: Context, m: Message, used: nat): int
    requires ContextOk(c)
  {
    if c.rules.feePool then
      MinerShare(used * EffectiveTip(c, m)) + if c.rules.london then MinerShare(used * c.baseFee.value) else 0
    else used * EffectiveTip(c, m)
  }

  /** What the fee pool contract receives from a message. */
  ghost function PoolEarns(c: Context, m: Message, used: nat): int
    requires ContextOk(c)
  {
    if c.rules.feePool then
      PoolShare(used * EffectiveTip(c, m)) + if c.rules.london then PoolShare(used * c.baseFee.value) else 0
    else 0
  }

  /** One fee split between miner and fee pool. */
  ghost predicate Shared(c: Context, before: Balances, after: Balances, fee: nat)
  {
    forall a: Address {:trigger GetBalance(after, a)} :: GetBalance(after, a) == GetBalance(before, a)
      + (if a == c.coinbase then MinerShare(fee) else 0)
      + (if a == c.feePoolAddress then PoolShare(fee) else 0)
  }

  lemma {:induction false} SharedTwice(c: Context, m: Message, used: nat, before: Balances, mid: Balances,
                                       after: Balances)
    requires ContextOk(c) && c.rules.feePool && 0 <= EffectiveTip(c, m)
    requires if c.rules.london then Shared(c, before, mid, used * c.baseFee.value) else mid == before
    requires Shared(c, mid, after, used * EffectiveTip(c, m))
    ensures PaidOut(c, m, used, before, after)
  {
    forall a: Address
      ensures GetBalance(after, a) == GetBalance(before, a)
                + (if a == c.coinbase then MinerEarns(c, m, used) else 0)
                + (if a == c.feePoolAddress then PoolEarns(c, m, used) else 0)
    {
      var midway := GetBalance(mid, a);
      assert !c.rules.london ==> midway == GetBalance(before, a);
    }
  }

  /** Every account changed by what the roles it plays earn, however the roles coincide. */
  ghost predicate PaidOut(c: Context, m: Message, used: nat, before: Balances, after: Balances)
    requires ContextOk(c)
  {
    forall a: Address {:trigger GetBalance(after, a)} :: GetBalance(after, a) == GetBalance(before, a)
      + (if a == c.coinbase then MinerEarns(c, m, used) else 0)
      + (if a == c.feePoolAddress then PoolEarns(c, m, used) else 0)
  }

  lemma {:induction false} Distribute(a: int, b: int, c: int)
    ensures a * (b + c) == a * b + a * c
    ensures (a - b) * c == a * c - b * c
  {
  }

  lemma {:induction false} Monotone(a: nat, b: nat, c: nat)
    requires b <= c
    ensures a * b <= a * c
  {
  }

  // ----- what a message does

  ghost function IntrinsicCost(c: Context, m: Message): nat
    requires |m.data| <= MAX_UINT64
  {
    DataCost(m.data, m.to.None?, c.rules.homestead, c.rules.istanbul, c.rules.shanghai)
  }

  function RefundQuotient(c: Context): nat
  {
    if c.rules.london then REFUND_QUOTIENT_EIP3529 else REFUND_QUOTIENT
  }

  /** The gas left for the virtual machine. */
  ghost function GasGiven(c: Context, m: Message): int
    requires |m.data| <= MAX_UINT64
  {
    m.gasLimit - (IntrinsicCost(c, m) + AccessCost(m.accessList)) % (MAX_UINT64 + 1)
  }

  /** A call uses up one nonce of its sender before it runs; a creation leaves that to the machine. */
  function NonceSpent(w: World, m: Message): (after: World)
    requires GetNonce(w, m.from) < MAX_UINT64
    ensures forall a :: GetNonce(after, a) == GetNonce(w, a) + (if m.to.Some? && a == m.from then 1 else 0)
    ensures after.balances == w.balances
  {
    if m.to.Some? then w.(nonces := w.nonces[m.from := GetNonce(w, m.from) + 1]) else w
  }

  /** The sender, and nobody else, has paid for the whole gas limit. */
  ghost predicate Charged(m: Message, before: World, after: World)
  {
    && after.nonces == before.nonces && after.contracts == before.contracts
    && forall a: Address {:trigger GetBalance(after.balances, a)} ::
         GetBalance(after.balances, a)
         == GetBalance(before.balances, a) - if a == m.from then m.gasLimit * m.gasPrice else 0
  }

  function GasBought(w: World, m: Message): (r: World)
    ensures Charged(m, w, r)
  {
    w.(balances := SubBalance(w.balances, m.from, m.gasLimit * m.gasPrice))
  }

  /** The world the virtual machine starts from. */
  ghost function Entry(w: World, m: Message): World
    requires GetNonce(w, m.from) < MAX_UINT64
  {
    NonceSpent(GasBought(w, m), m)
  }

  /** The gas used up in the end, the capped refund taken off. */
  ghost function UsedGas(c: Context, m: Message, exec: Execution): int
  {
    m.gasLimit - exec.gasLeft - Min((m.gasLimit - exec.gasLeft) / RefundQuotient(c), exec.refund)
  }

  /** The refund is the counter, capped from London on at a fifth of the gas spent and before at half. */
  lemma {:induction false} RefundCapped(c: Context, m: Message, exec: Execution)
    requires exec.gasLeft <= m.gasLimit
    ensures var spent := m.gasLimit - exec.gasLeft;
            var refund, parts := spent - UsedGas(c, m, exec), if c.rules.london then 5 else 2;
            && 0 <= refund <= exec.refund && parts * refund <= spent
            && (refund < exec.refund ==> spent < parts * (refund + 1))
  {
  }

  ghost predicate Runs(c: Context, m: Message, w: World)
  {
    |m.data| <= MAX_UINT64 && GetNonce(w, m.from) < MAX_UINT64 && 0 <= GasGiven(c, m) <= MAX_UINT64
  }

  ghost function Executed(c: Context, m: Message, evm: Evm, w: World): Execution
    requires Runs(c, m, w)
  {
    evm(Entry(w, m), GasGiven(c, m))
  }

  /** Besides what the machine makes of it, every account changed by what it earns as miner or as fee
      pool, and the sender pays the price of the gas used. */
  ghost predicate Settled(c: Context, m: Message, before: World, entry: World, exit: World, after: World, used: nat)
    requires ContextOk(c)
  {
    forall a: Address {:trigger GetBalance(after.balances, a)} ::
      GetBalance(after.balances, a) - GetBalance(before.balances, a)
      == GetBalance(exit.balances, a) - GetBalance(entry.balances, a)
         - (if a == m.from then used * m.gasPrice else 0)
         + (if a == c.coinbase then MinerEarns(c, m, used) else 0)
         + (if a == c.feePoolAddress then PoolEarns(c, m, used) else 0)
  }

  lemma {:induction false} PaidIsSettled(c: Context, m: Message, before: World, entry: World, exit: World, after: World,
                                         used: nat)
    requires ContextOk(c) && used <= m.gasLimit
    requires Charged(m, before, entry.(nonces := before.nonces))
    requires PaidOut(c, m, used, AddBalance(exit.balances, m.from, (m.gasLimit - used) * m.gasPrice), after.balances)
    ensures Settled(c, m, before, entry, exit, after, used)
  {
    Distribute(m.gasLimit, used, m.gasPrice);
    var paid := entry.(nonces := before.nonces);
    assert paid.balances == entry.balances;
    forall a: Address
      ensures GetBalance(after.balances, a) - GetBalance(before.balances, a)
              == GetBalance(exit.balances, a) - GetBalance(entry.balances, a)
                 - (if a == m.from then used * m.gasPrice else 0)
                 + (if a == c.coinbase then MinerEarns(c, m, used) else 0)
                 + (if a == c.feePoolAddress then PoolEarns(c, m, used) else 0)
    {
      assert GetBalance(paid.balances, a)
             == GetBalance(before.balances, a) - if a == m.from then m.gasLimit * m.gasPrice else 0;
      var refunded := AddBalance(exit.balances, m.from, (m.gasLimit - used) * m.gasPrice);
      assert GetBalance(after.balances, a) == GetBalance(refunded, a)
             + (if a == c.coinbase then MinerEarns(c, m, used) else 0)
             + (if a == c.feePoolAddress then PoolEarns(c, m, used) else 0);
    }
  }

  /** The effect of a message on the world: the machine runs on what the sender's purchase of gas
      leaves, the gas left over is paid back, miner and fee pool are paid; and the sum of all
      balances changes by what the machine makes of it less what is burned. */
  ghost predicate Applied(c: Context, m: Message, evm: Evm, before: World, after: World, used: nat)
    requires ContextOk(c)
  {
    && Runs(c, m, before) && 0 <= EffectiveTip(c, m)
    && var exec := Executed(c, m, evm, before);
       && used == UsedGas(c, m, exec) <= m.gasLimit
       && after == exec.world.(balances := after.balances)
       && PaidOut(c, m, used, AddBalance(exec.world.balances, m.from, (m.gasLimit - used) * m.gasPrice), after.balances)
       && Total(after.balances) - Total(before.balances)
          == Total(exec.world.balances) - Total(Entry(before, m).balances) - Burned(c, m, used)
  }

  // ----- acceptance

  /** The checks a message must pass before it may buy gas, whatever their order. */
  ghost predicate Acceptable(c: Context, m: Message, w: World, poolGas: nat)
    requires ContextOk(c)
  {
    && GetNonce(w, m.from) == m.nonce < MAX_UINT64
    && m.from !in w.contracts
    && (c.rules.london ==>
          && m.gasFeeCap < TWO_256 && m.gasTipCap < TWO_256
          && m.gasTipCap <= m.gasFeeCap && c.baseFee.value <= m.gasFeeCap)
    && m.gasLimit * m.gasFeeCap + m.value <= GetBalance(w.balances, m.from)
    && m.gasLimit <= poolGas
  }

  /** The checks that follow the purchase of gas included. */
  ghost predicate Executable(c: Context, m: Message, w: World, poolGas: nat)
    requires ContextOk(c) && |m.data| <= MAX_UINT64
  {
    && Acceptable(c, m, w, poolGas)
    && IntrinsicCost(c, m) <= MAX_UINT64 && 0 <= GasGiven(c, m)
    && (c.rules.shanghai && m.to.None? ==> |m.data| <= MAX_INIT_CODE_SIZE)
  }

  /** What is wrong with a message that is refused with an error. */
  ghost predicate Refused(c: Context, m: Message, w: World, poolGas: nat, e: Error)
    requires ContextOk(c)
  {
    match e
    case NonceTooHigh => GetNonce(w, m.from) < m.nonce
    case NonceTooLow => GetNonce(w, m.from) > m.nonce
    case NonceMax => GetNonce(w, m.from) == MAX_UINT64
    case SenderNoEOA => m.from in w.contracts
    case FeeCapVeryHigh => c.rules.london && m.gasFeeCap >= TWO_256
    case TipVeryHigh => c.rules.london && m.gasTipCap >= TWO_256
    case TipAboveFeeCap => c.rules.london && m.gasTipCap > m.gasFeeCap
    case FeeCapTooLow => c.rules.london && m.gasFeeCap < c.baseFee.value
    case InsufficientFunds => GetBalance(w.balances, m.from) < m.gasLimit * m.gasFeeCap + m.value
    case GasLimitReached => poolGas < m.gasLimit
    case GasUintOverflow => |m.data| <= MAX_UINT64 && IntrinsicCost(c, m) > MAX_UINT64
    case IntrinsicGasTooLow => |m.data| <= MAX_UINT64 && IntrinsicCost(c, m) <= MAX_UINT64 && GasGiven(c, m) < 0
    case InsufficientFundsForTransfer => false
    case MaxInitCodeSizeExceeded => c.rules.shanghai && m.to.None? && |m.data| > MAX_INIT_CODE_SIZE
  }

  const TWO_256: nat := 0x1_0000_0000_0000_0000_0000_0000_0000_0000_0000_0000_0000_0000_0000_0000_0000_0000

  /** What the conversion from a transaction guarantees about the prices of a message. */
  ghost predicate FromTransaction(m: Message, baseFee: Option<nat>)
  {
    && m.gasPrice <= m.gasFeeCap
    && (baseFee.Some? && baseFee.value <= m.gasFeeCap ==>
          m.gasPrice - baseFee.value == Min(m.gasTipCap, m.gasFeeCap - baseFee.value))
  }

  /** The price paid for the gas used is the tip plus, from London on, the base fee. */
  lemma {:induction false} FeesAddUp(c: Context, m: Message, limit: nat, left: nat)
    requires ContextOk(c) && FromTransaction(m, c.baseFee) && left <= limit
    requires c.rules.london ==> c.baseFee.value <= m.gasFeeCap
    ensures limit * m.gasPrice - left * m.gasPrice
            == (limit - left) * EffectiveTip(c, m) + if c.rules.london then (limit - left) * c.baseFee.value else 0
  {
    Distribute(limit, left, m.gasPrice);
    if c.rules.london {
      Distribute(limit - left, EffectiveTip(c, m), c.baseFee.value);
    }
  }

  /** What the sender pays for the gas used is what miner and fee pool earn and what is burned.  With the
      fee pool active an eighth of each fee goes to the miner and seven eighths to the pool, both
      rounded down; otherwise the miner earns the tip. */
  lemma {:induction false} PriceIsShared(c: Context, m: Message, used: nat)
    requires ContextOk(c) && FromTransaction(m, c.baseFee) && (c.rules.london ==> c.baseFee.value <= m.gasFeeCap)
    ensures 0 <= EffectiveTip(c, m)
    ensures used * m.gasPrice == MinerEarns(c, m, used) + PoolEarns(c, m, used) + Burned(c, m, used)
    ensures var tip, base := used * EffectiveTip(c, m), if c.rules.london then used * c.baseFee.value else 0;
            if c.rules.feePool then
              MinerEarns(c, m, used) == tip / 8 + base / 8 && PoolEarns(c, m, used) == tip * 7 / 8 + base * 7 / 8
            else
              MinerEarns(c, m, used) == tip && PoolEarns(c, m, used) == 0
  {
    FeesAddUp(c, m, used, 0);
    SplitLosesDust(used * EffectiveTip(c, m));
    if c.rules.london {
      SplitLosesDust(used * c.baseFee.value);
    }
  }

  /** What the last three stages do with the world makes up the effect of the message. */
  lemma {:induction false} StagesApply(c: Context, m: Message, evm: Evm, before: World, after: World, used: nat)
    requires ContextOk(c) && FromTransaction(m, c.baseFee) && (c.rules.london ==> c.baseFee.value <= m.gasFeeCap)
    requires Runs(c, m, before) && 0 <= EffectiveTip(c, m)
    requires used == UsedGas(c, m, Executed(c, m, evm, before)) <= m.gasLimit
    requires var exit := Executed(c, m, evm, before).world;
             && after == exit.(balances := after.balances)
             && PaidOut(c, m, used, AddBalance(exit.balances, m.from, (m.gasLimit - used) * m.gasPrice), after.balances)
             && Total(after.balances) == Total(exit.balances) + (m.gasLimit - used) * m.gasPrice
                  + used * EffectiveTip(c, m)
                  + (if c.rules.feePool && c.rules.london then used * c.baseFee.value else 0)
                  - (if c.rules.feePool then Burned(c, m, used) else 0)
    ensures Applied(c, m, evm, before, after, used)
    ensures Settled(c, m, before, Entry(before, m), Executed(c, m, evm, before).world, after, used)
  {
    TotalAdd(before.balances, m.from, m.gasLimit * m.gasPrice);
    FeesAddUp(c, m, m.gasLimit, m.gasLimit - used);
    PaidIsSettled(c, m, before, Entry(before, m), Executed(c, m, evm, before).world, after, used);
  }

  class StateTransition {
    const ctx: Context
    const msg: Message
    const pool: GasPool
    var gasRemaining: uint64
    var initialGas: uint64
    var world: World

    constructor (ctx: Context, tx: Transaction, pool: GasPool, world: World)
      ensures this.ctx == ctx && this.pool == pool && this.world == world
      ensures msg == ToMessage(tx, ctx.baseFee) && gasRemaining == initialGas == 0
    {
      this.ctx, this.pool, this.world := ctx, pool, world;
      msg, gasRemaining, initialGas := ToMessage(tx, ctx.baseFee), 0, 0;
    }

    /** Charges the sender for the whole gas limit up front. */
    method BuyGas() returns (err: Option<Error>)
      requires gasRemaining == 0 && msg.gasPrice <= msg.gasFeeCap
      modifies this, pool
      ensures err.None? <==>
                && msg.gasLimit * msg.gasFeeCap + msg.value <= GetBalance(old(world).balances, msg.from)
                && msg.gasLimit <= old(pool.gas)
      ensures err.Some? ==> unchanged(this) && pool.gas == old(pool.gas) && err != Some(InsufficientFundsForTransfer)
      ensures ContextOk(ctx) && err.Some? ==> Refused(ctx, msg, old(world), old(pool.gas), err.value)
      ensures err.None? ==>
                && pool.gas == old(pool.gas) - msg.gasLimit && gasRemaining == initialGas == msg.gasLimit
                && world == GasBought(old(world), msg)
                && msg.value <= GetBalance(world.balances, msg.from)
      ensures err.None? ==>
                && world.nonces == old(world).nonces && world.contracts == old(world).contracts
                && forall a: Address {:trigger GetBalance(world.balances, a)} ::
                     GetBalance(world.balances, a)
                     == GetBalance(old(world).balances, a) - if a == msg.from then msg.gasLimit * msg.gasPrice else 0
    {
      var cost := msg.gasLimit * msg.gasPrice;
      if GetBalance(world.balances, msg.from) < msg.gasLimit * msg.gasFeeCap + msg.value {
        return Some(InsufficientFunds);
      }
      var ok := pool.SubGas(msg.gasLimit);
      if !ok {
        return Some(GasLimitReached);
      }
      Monotone(msg.gasLimit, msg.gasPrice, msg.gasFeeCap);
      gasRemaining := gasRemaining + msg.gasLimit;
      initialGas := msg.gasLimit;
      world := world.(balances := SubBalance(world.balances, msg.from, cost));
      err := None;
    }

    method PreCheck() returns (err: Option<Error>)
      requires ContextOk(ctx) && gasRemaining == 0 && msg.gasPrice <= msg.gasFeeCap
      modifies this, pool
      ensures err.None? <==> Acceptable(ctx, msg, old(world), old(pool.gas))
      ensures err.Some? ==> Refused(ctx, msg, old(world), old(pool.gas), err.value)
      ensures err.Some? ==> unchanged(this) && pool.gas == old(pool.gas) && err != Some(InsufficientFundsForTransfer)
      ensures err.None? ==>
                && pool.gas == old(pool.gas) - msg.gasLimit && gasRemaining == initialGas == msg.gasLimit
                && world == GasBought(old(world), msg)
                && msg.value <= GetBalance(world.balances, msg.from)
    {
      var nonce := GetNonce(world, msg.from);
      if nonce < msg.nonce {
        return Some(NonceTooHigh);
      } else if nonce > msg.nonce {
        return Some(NonceTooLow);
      } else if nonce == MAX_UINT64 {
        return Some(NonceMax);
      }
      if msg.from in world.contracts {
        return Some(SenderNoEOA);
      }
      if ctx.rules.london {
        if msg.gasFeeCap >= TWO_256 {
          return Some(FeeCapVeryHigh);
        }
        if msg.gasTipCap >= TWO_256 {
          return Some(TipVeryHigh);
        }
        if msg.gasFeeCap < msg.gasTipCap {
          return Some(TipAboveFeeCap);
        }
        if msg.gasFeeCap < ctx.baseFee.value {
          return Some(FeeCapTooLow);
        }
      }
      err := BuyGas();
    }

    function GasUsed(): int
      reads this
    {
      initialGas - gasRemaining
    }

    /** Applies the refund counter, capped by a quotient of the gas used, and pays back what is left. */
    method RefundGas(quotient: nat, counter: uint64) returns (panicked: bool, refund: nat)
      requires quotient == REFUND_QUOTIENT || quotient == REFUND_QUOTIENT_EIP3529
      requires gasRemaining <= initialGas && pool.gas + initialGas <= MAX_UINT64
      modifies this, pool
      ensures !panicked && initialGas == old(initialGas)
      ensures refund == Min(old(GasUsed()) / quotient, counter)
      ensures gasRemaining == old(gasRemaining) + refund <= initialGas
      ensures pool.gas == old(pool.gas) + gasRemaining
      ensures world == old(world).(balances := AddBalance(old(world).balances, msg.from, gasRemaining * msg.gasPrice))
    {
      refund := Min(GasUsed() / quotient, counter);
      gasRemaining := gasRemaining + refund;
      world := world.(balances := AddBalance(world.balances, msg.from, gasRemaining * msg.gasPrice));
      panicked := pool.AddGas(gasRemaining);
    }

    /** Pays the fees for the gas used: to the miner, or split between the miner and the fee pool. */
    method PayFees()
      requires ContextOk(ctx) && 0 <= EffectiveTip(ctx, msg) && 0 <= GasUsed()
      modifies `world
      ensures world == old(world).(balances := world.balances)
      ensures PaidOut(ctx, msg, GasUsed(), old(world).balances, world.balances)
      ensures Total(world.balances) == Total(old(world).balances) + GasUsed() * EffectiveTip(ctx, msg)
                + (if ctx.rules.feePool && ctx.rules.london then GasUsed() * ctx.baseFee.value else 0)
                - (if ctx.rules.feePool then Burned(ctx, msg, GasUsed()) else 0)
    {
      var b, used := world.balances, GasUsed();
      if ctx.rules.feePool {
        b := PaySplit(b, used);
      } else {
        var tipFee := used * EffectiveTip(ctx, msg);
        TotalAdd(b, ctx.coinbase, tipFee);
        b := AddBalance(b, ctx.coinbase, tipFee);
      }
      world := world.(balances := b);
    }

    /** With the fee pool active both fees are split. */
    method PaySplit(before: Balances, used: nat) returns (b: Balances)
      requires ContextOk(ctx) && ctx.rules.feePool && 0 <= EffectiveTip(ctx, msg)
      ensures PaidOut(ctx, msg, used, before, b)
      ensures Total(b) == Total(before) + used * EffectiveTip(ctx, msg)
                + (if ctx.rules.london then used * ctx.baseFee.value else 0) - Burned(ctx, msg, used)
    {
      b := before;
      if ctx.rules.london {
        b := PayShares(b, used * ctx.baseFee.value);
      }
      ghost var mid := b;
      b := PayShares(b, used * EffectiveTip(ctx, msg));
      SharedTwice(ctx, msg, used, before, mid, b);
    }

    method PayShares(before: Balances, fee: nat) returns (b: Balances)
      ensures Total(b) == Total(before) + fee - Dust(fee)
      ensures Shared(ctx, before, b, fee)
    {
      SplitLosesDust(fee);
      TotalAdd(before, ctx.coinbase, MinerShare(fee));
      b := AddBalance(before, ctx.coinbase, MinerShare(fee));
      TotalAdd(b, ctx.feePoolAddress, PoolShare(fee));
      b := AddBalance(b, ctx.feePoolAddress, PoolShare(fee));
    }

    /** Takes the intrinsic gas and runs the remaining checks.  The sender can always still afford the
        value, so the check for that never fails. */
    method Prepare() returns (err: Option<Error>)
      requires ContextOk(ctx) && |msg.data| <= MAX_UINT64
      requires gasRemaining == msg.gasLimit && msg.value <= GetBalance(world.balances, msg.from)
      modifies `gasRemaining
      ensures err != Some(InsufficientFundsForTransfer)
      ensures err.Some? ==>
                && err.value in {GasUintOverflow, IntrinsicGasTooLow, MaxInitCodeSizeExceeded}
                && Refused(ctx, msg, world, pool.gas, err.value)
      ensures err.None? <==>
                && IntrinsicCost(ctx, msg) <= MAX_UINT64
                && 0 <= GasGiven(ctx, msg)
                && (ctx.rules.shanghai && msg.to.None? ==> |msg.data| <= MAX_INIT_CODE_SIZE)
      ensures err.None? ==> gasRemaining == GasGiven(ctx, msg)
    {
      var gas := IntrinsicGas(msg.data, msg.accessList, msg.to.None?, ctx.rules.homestead, ctx.rules.istanbul,
                              ctx.rules.shanghai);
      if gas.None? {
        return Some(GasUintOverflow);
      }
      if gasRemaining < gas.value {
        return Some(IntrinsicGasTooLow);
      }
      gasRemaining := gasRemaining - gas.value;
      if msg.value > 0 && GetBalance(world.balances, msg.from) < msg.value {
        return Some(InsufficientFundsForTransfer);
      }
      if ctx.rules.shanghai && msg.to.None? && |msg.data| > MAX_INIT_CODE_SIZE {
        return Some(MaxInitCodeSizeExceeded);
      }
      return None;
    }

    /** Applies the message.  A message refused after it bought gas keeps what it bought. */
    method TransitionDb(evm: Evm) returns (err: Option<Error>, failed: bool, panicked: bool)
      requires ContextOk(ctx) && |msg.data| <= MAX_UINT64 && WellBehaved(evm)
      requires gasRemaining == initialGas == 0 && FromTransaction(msg, ctx.baseFee)
      modifies this, pool
      ensures !panicked && err != Some(InsufficientFundsForTransfer)
      ensures err.None? <==> Executable(ctx, msg, old(world), old(pool.gas))
      ensures err.Some? ==> Refused(ctx, msg, old(world), old(pool.gas), err.value)
      ensures err.Some? && !Acceptable(ctx, msg, old(world), old(pool.gas)) ==>
                world == old(world) && pool.gas == old(pool.gas)
      ensures err.Some? && Acceptable(ctx, msg, old(world), old(pool.gas)) ==>
                && pool.gas == old(pool.gas) - msg.gasLimit
                && world == GasBought(old(world), msg)
      ensures err.None? ==>
                && initialGas == msg.gasLimit && 0 <= GasUsed() <= msg.gasLimit
                && pool.gas == old(pool.gas) - GasUsed()
                && Applied(ctx, msg, evm, old(world), world, GasUsed())
                && failed == Executed(ctx, msg, evm, old(world)).failed
      ensures err.None? ==>
                && Settled(ctx, msg, old(world), Entry(old(world), msg), Executed(ctx, msg, evm, old(world)).world,
                           world, GasUsed())
                && forall a: Address {:trigger GetBalance(Entry(old(world), msg).balances, a)} ::
                     GetBalance(Entry(old(world), msg).balances, a)
                     == GetBalance(old(world).balances, a) - if a == msg.from then msg.gasLimit * msg.gasPrice else 0
    {
      failed, panicked := false, false;
      err := PreCheck();
      if err.Some? {
        return;
      }
      err := Prepare();
      if err.Some? {
        return;
      }
      panicked, failed := Execute(evm);
      assert gasRemaining == msg.gasLimit - GasUsed();
      StagesApply(ctx, msg, evm, old(world), world, GasUsed());
    }

    /** Runs the virtual machine on the gas left, then refunds and pays. */
    method Execute(evm: Evm) returns (panicked: bool, failed: bool)
      requires ContextOk(ctx) && WellBehaved(evm) && 0 <= EffectiveTip(ctx, msg)
      requires gasRemaining <= initialGas == msg.gasLimit && pool.gas + initialGas <= MAX_UINT64
      requires GetNonce(world, msg.from) < MAX_UINT64
      modifies this, pool
      ensures !panicked && initialGas == old(initialGas) && gasRemaining <= initialGas
      ensures pool.gas == old(pool.gas) + gasRemaining
      ensures var exec := evm(NonceSpent(old(world), msg), old(gasRemaining));
              && GasUsed() == UsedGas(ctx, msg, exec) && failed == exec.failed
              && world == exec.world.(balances := world.balances)
              && PaidOut(ctx, msg, GasUsed(),
                         AddBalance(exec.world.balances, msg.from, gasRemaining * msg.gasPrice), world.balances)
              && Total(world.balances) == Total(exec.world.balances) + gasRemaining * msg.gasPrice
                   + GasUsed() * EffectiveTip(ctx, msg)
                   + (if ctx.rules.feePool && ctx.rules.london then GasUsed() * ctx.baseFee.value else 0)
                   - (if ctx.rules.feePool then Burned(ctx, msg, GasUsed()) else 0)
    {
      world := NonceSpent(world, msg);
      var result := evm(world, gasRemaining);
      world, gasRemaining, failed := result.world, result.gasLeft, result.failed;
      var refund;
      panicked, refund := RefundGas(RefundQuotient(ctx), result.refund);
      TotalAdd(result.world.balances, msg.from, gasRemaining * msg.gasPrice);
      PayFees();
    }
  }
}
