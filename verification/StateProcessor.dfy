/** The transactions of one block applied in order against one gas pool. */
module StateProcessor {
  import opened BlockTree
  import opened Balances
  import opened GasPool
  import opened StateTransition

  datatype Receipt = Receipt(gasUsed: nat, cumulativeGasUsed: nat, failed: bool)

  ghost function GasSum(receipts: seq<Receipt>): nat
  {
    if receipts == [] then 0 else GasSum(receipts[..|receipts| - 1]) + receipts[|receipts| - 1].gasUsed
  }

  /** Each receipt's cumulative gas is the running sum up to and including it. */
  ghost predicate RunningSums(receipts: seq<Receipt>)
  {
    forall i :: 0 <= i < |receipts| ==> receipts[i].cumulativeGasUsed == GasSum(receipts[..i + 1])
  }

  lemma {:induction false} AppendReceipt(receipts: seq<Receipt>, r: Receipt)
    requires RunningSums(receipts) && r.cumulativeGasUsed == GasSum(receipts) + r.gasUsed
    ensures GasSum(receipts + [r]) == r.cumulativeGasUsed
    ensures RunningSums(receipts + [r])
  {
    var all := receipts + [r];
    assert all[..|receipts|] == receipts;
    forall i | 0 <= i < |all|
      ensures all[i].cumulativeGasUsed == GasSum(all[..i + 1])
    {
      if i < |receipts| {
        assert all[..i + 1] == receipts[..i + 1];
      } else {
        assert all[..i + 1] == all;
      }
    }
  }

  /** A transaction and the virtual machine's behaviour on it. */
  datatype Item = Item(tx: Transaction, evm: Evm)

  ghost predicate ItemOk(item: Item)
  {
    |item.tx.data| <= MAX_UINT64 && WellBehaved(item.evm)
  }

  /** The virtual machine moves value and creates none. */
  ghost predicate Conserving(evm: Evm)
  {
    forall w: World, g: uint64 :: Total(evm(w, g).world.balances) == Total(w.balances)
  }

  /** One transaction on a pool that holds `poolGas`. */
  ghost predicate ReceiptFor(ctx: Context, item: Item, before: World, poolGas: nat, after: World, receipt: Receipt)
    requires ContextOk(ctx) && ItemOk(item)
  {
    var m := ToMessage(item.tx, ctx.baseFee);
    && Executable(ctx, m, before, poolGas)
    && Applied(ctx, m, item.evm, before, after, receipt.gasUsed)
    && receipt.failed == Executed(ctx, m, item.evm, before).failed
  }

  method ApplyTransaction(ctx: Context, item: Item, pool: GasPool, world: World, used: uint64)
    returns (err: Option<Error>, receipt: Receipt, world': World)
    requires ContextOk(ctx) && ItemOk(item) && pool.gas + used <= MAX_UINT64
    modifies pool
    ensures err.None? <==> Executable(ctx, ToMessage(item.tx, ctx.baseFee), world, old(pool.gas))
    ensures err.None? ==>
              && ReceiptFor(ctx, item, world, old(pool.gas), world', receipt)
              && receipt.cumulativeGasUsed == used + receipt.gasUsed
              && pool.gas == old(pool.gas) - receipt.gasUsed
              && receipt.gasUsed <= item.tx.gas
  {
    var st := new StateTransition(ctx, item.tx, pool, world);
    var failed, panicked;
    err, failed, panicked := st.TransitionDb(item.evm);
    receipt, world' := Receipt(0, used, false), st.world;
    if err.Some? {
      return;
    }
    receipt := Receipt(st.GasUsed(), used + st.GasUsed(), failed);
  }

  // ----- a block

  ghost predicate BlockOk(ctx: Context, items: seq<Item>)
  {
    ContextOk(ctx) && forall i :: 0 <= i < |items| ==> ItemOk(items[i])
  }

  ghost predicate ReceiptAt(ctx: Context, items: seq<Item>, gasLimit: nat, worlds: seq<World>, receipts: seq<Receipt>,
                            i: nat)
    requires BlockOk(ctx, items) && i < |receipts| <= |items| && |receipts| < |worlds|
  {
    && GasSum(receipts[..i]) <= gasLimit
    && ReceiptFor(ctx, items[i], worlds[i], gasLimit - GasSum(receipts[..i]), worlds[i + 1], receipts[i])
  }

  /** The worlds between the first transactions of a block, each applied to what the one before left
      of the world and of the gas limit. */
  ghost predicate Processed(ctx: Context, items: seq<Item>, gasLimit: nat, worlds: seq<World>, receipts: seq<Receipt>)
    requires BlockOk(ctx, items)
  {
    && |receipts| <= |items| && |worlds| == |receipts| + 1
    && RunningSums(receipts)
    && forall i {:trigger ReceiptAt(ctx, items, gasLimit, worlds, receipts, i)} :: 0 <= i < |receipts| ==>
         ReceiptAt(ctx, items, gasLimit, worlds, receipts, i)
  }

  lemma {:induction false} ProcessedStep(ctx: Context, items: seq<Item>, gasLimit: nat, worlds: seq<World>,
                                         receipts: seq<Receipt>,
                                         world: World, receipt: Receipt)
    requires BlockOk(ctx, items) && Processed(ctx, items, gasLimit, worlds, receipts) && |receipts| < |items|
    requires GasSum(receipts) <= gasLimit && receipt.cumulativeGasUsed == GasSum(receipts) + receipt.gasUsed
    requires ReceiptFor(ctx, items[|receipts|], worlds[|receipts|], gasLimit - GasSum(receipts), world, receipt)
    ensures Processed(ctx, items, gasLimit, worlds + [world], receipts + [receipt])
  {
    var worlds', receipts' := worlds + [world], receipts + [receipt];
    AppendReceipt(receipts, receipt);
    forall i | 0 <= i < |receipts'|
      ensures ReceiptAt(ctx, items, gasLimit, worlds', receipts', i)
    {
      assert receipts'[..i] == receipts[..i];
      if i < |receipts| {
        assert ReceiptAt(ctx, items, gasLimit, worlds, receipts, i);
      } else {
        assert receipts[..i] == receipts;
      }
    }
  }

  /** What the virtual machine added to the sum of all balances, and what was burned, in the first
      `n` transactions. */
  ghost function Made(ctx: Context, items: seq<Item>, gasLimit: nat, worlds: seq<World>, receipts: seq<Receipt>,
                      n: nat): int
    requires BlockOk(ctx, items) && Processed(ctx, items, gasLimit, worlds, receipts) && n <= |receipts|
  {
    if n == 0 then 0
    else
      assert ReceiptAt(ctx, items, gasLimit, worlds, receipts, n - 1);
      var m := ToMessage(items[n - 1].tx, ctx.baseFee);
      Made(ctx, items, gasLimit, worlds, receipts, n - 1)
      + Total(Executed(ctx, m, items[n - 1].evm, worlds[n - 1]).world.balances)
      - Total(Entry(worlds[n - 1], m).balances)
  }

  ghost function BurnedIn(ctx: Context, items: seq<Item>, gasLimit: nat, worlds: seq<World>, receipts: seq<Receipt>,
                          n: nat): int
    requires BlockOk(ctx, items) && Processed(ctx, items, gasLimit, worlds, receipts) && n <= |receipts|
  {
    if n == 0 then 0
    else
      assert ReceiptAt(ctx, items, gasLimit, worlds, receipts, n - 1);
      BurnedIn(ctx, items, gasLimit, worlds, receipts, n - 1)
      + Burned(ctx, ToMessage(items[n - 1].tx, ctx.baseFee), receipts[n - 1].gasUsed)
  }

  /** Over a block the sum of all balances changes by what the machine made less what was burned. */
  lemma {:induction false} BlockTotal(ctx: Context, items: seq<Item>, gasLimit: nat, worlds: seq<World>,
                                      receipts: seq<Receipt>, n: nat)
    requires BlockOk(ctx, items) && Processed(ctx, items, gasLimit, worlds, receipts) && n <= |receipts|
    ensures Total(worlds[n].balances) == Total(worlds[0].balances)
              + Made(ctx, items, gasLimit, worlds, receipts, n) - BurnedIn(ctx, items, gasLimit, worlds, receipts, n)
    ensures (forall i :: 0 <= i < |items| ==> Conserving(items[i].evm)) ==>
              Made(ctx, items, gasLimit, worlds, receipts, n) == 0
  {
    if n > 0 {
      var i := n - 1;
      BlockTotal(ctx, items, gasLimit, worlds, receipts, i);
      assert ReceiptAt(ctx, items, gasLimit, worlds, receipts, i);
    }
  }

  /** With the fee pool at most two wei are burned per transaction; without it the base fee is, all
      of it, from London on, and nothing before. */
  lemma {:induction false} BlockBurned(ctx: Context, items: seq<Item>, gasLimit: nat, worlds: seq<World>,
                                       receipts: seq<Receipt>, n: nat)
    requires BlockOk(ctx, items) && Processed(ctx, items, gasLimit, worlds, receipts) && n <= |receipts|
    ensures var burned := BurnedIn(ctx, items, gasLimit, worlds, receipts, n);
            && (ctx.rules.feePool ==> 0 <= burned <= 2 * n)
            && (!ctx.rules.feePool && ctx.rules.london ==> burned == GasSum(receipts[..n]) * ctx.baseFee.value)
            && (!ctx.rules.feePool && !ctx.rules.london ==> burned == 0)
  {
    if n > 0 {
      var i := n - 1;
      BlockBurned(ctx, items, gasLimit, worlds, receipts, i);
      assert ReceiptAt(ctx, items, gasLimit, worlds, receipts, i);
      BurnedBounds(ctx, ToMessage(items[i].tx, ctx.baseFee), receipts[i].gasUsed);
      assert receipts[..n][..i] == receipts[..i];
      if ctx.rules.london {
        AddTimes(GasSum(receipts[..i]), receipts[i].gasUsed, ctx.baseFee.value);
      }
    }
  }

  lemma {:induction false} AddTimes(a: nat, b: nat, f: nat)
    ensures (a + b) * f == a * f + b * f
  {
  }

  /** Applies all transactions of a block or stops at the first that is refused.  `worlds` are those
      between the transactions that were applied. */
  method Process(ctx: Context, gasLimit: uint64, items: seq<Item>, start: World)
    returns (err: Option<Error>, receipts: seq<Receipt>, usedGas: nat, world: World, pool: GasPool,
             ghost worlds: seq<World>)
    requires BlockOk(ctx, items)
    ensures Processed(ctx, items, gasLimit, worlds, receipts) && worlds[0] == start && worlds[|receipts|] == world
    ensures usedGas == GasSum(receipts) <= gasLimit
    ensures fresh(pool) && (err.None? ==> pool.gas + usedGas == gasLimit)
    ensures err.None? <==> |receipts| == |items|
    ensures err.Some? ==> !Executable(ctx, ToMessage(items[|receipts|].tx, ctx.baseFee), world, gasLimit - usedGas)
    ensures (forall i :: 0 <= i < |items| ==> Conserving(items[i].evm)) ==>
              && (ctx.rules.feePool ==>
                    Total(start.balances) - 2 * |receipts| <= Total(world.balances) <= Total(start.balances))
              && (!ctx.rules.feePool && ctx.rules.london ==>
                    Total(world.balances) == Total(start.balances) - usedGas * ctx.baseFee.value)
              && (!ctx.rules.feePool && !ctx.rules.london ==> Total(world.balances) == Total(start.balances))
  {
    pool := new GasPool(gasLimit);
    err, receipts, usedGas, world, worlds := None, [], 0, start, [start];
    for i := 0 to |items|
      invariant fresh(pool) && err == None && pool.gas + usedGas == gasLimit
      invariant |receipts| == i && Processed(ctx, items, gasLimit, worlds, receipts)
      invariant worlds[0] == start && worlds[i] == world && usedGas == GasSum(receipts)
    {
      var receipt, world';
      err, receipt, world' := ApplyTransaction(ctx, items[i], pool, world, usedGas);
      if err.Some? {
        break;
      }
      ProcessedStep(ctx, items, gasLimit, worlds, receipts, world', receipt);
      AppendReceipt(receipts, receipt);
      receipts, usedGas, world := receipts + [receipt], receipt.cumulativeGasUsed, world';
      worlds := worlds + [world];
    }
    BlockTotal(ctx, items, gasLimit, worlds, receipts, |receipts|);
    BlockBurned(ctx, items, gasLimit, worlds, receipts, |receipts|);
    assert receipts[..|receipts|] == receipts;
  }
}
