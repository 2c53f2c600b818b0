/**
 The full-block chain: a store of blocks with their total difficulties, the
 canonical number-to-hash map, the transaction lookup index and the head markers.
 A database batch is one atomic update; the caches are left out.
 */
module BlockChain {
  import opened BlockTree
  import opened ForkChoice
  import L = Ledger

  datatype Error =
    | UnknownAncestor
    | MissingTotal
    | CommitFailed
    | HeadMissing
    | InvalidOldChain
    | InvalidNewChain
    | StateUnrecoverable
    | Interrupted
    | GhostState

  datatype Status = NonStat | Canon | Side

  /** The hashes of `a` that are not in `b`, in order. */
  function HashDifference(a: seq<Tx>, b: seq<Tx>): (r: seq<Tx>)
    ensures forall t :: t in r <==> t in a && t !in b
  {
    if a == [] then []
    else if a[0] in b then HashDifference(a[1..], b)
    else [a[0]] + HashDifference(a[1..], b)
  }

  /** `txs` are the transactions of the chain of `h` strictly above height `n`. */
  ghost predicate TxsAbove(store: Store, h: Hash, n: nat, txs: seq<Tx>)
    requires Closed(store) && h in store
  {
    && (forall t :: t in txs ==> exists k :: n < k && InChain(store, h, t, k))
    && (forall t, k :: n < k && InChain(store, h, t, k) ==> t in txs)
  }

  /** Dropping the transactions above an ancestor turns the index of a chain without repeats
      into the index of that ancestor. */
  lemma {:induction false} IndexWithoutBranch(store: Store, genesis: Block, h: Hash, n: nat, txs: seq<Tx>)
    requires WellFormed(store, genesis) && h in store && n <= store[h].number
    requires NoRepeat(store, h) && TxsAbove(store, h, n, txs)
    ensures Index(store, h) - (set t | t in txs) == Index(store, AncestorAt(store, h, n))
  {
    var a := AncestorAt(store, h, n);
    forall t, k: nat
      ensures InChain(store, a, t, k) <==> k <= n && InChain(store, h, t, k)
    {
      if k <= n { AncestorOfAncestor(store, h, n, k); }
    }
    IndexExact(store, genesis, h);
    IndexExact(store, genesis, a);
    var left := Index(store, h) - (set t | t in txs);
    var right := Index(store, a);
    forall t
      ensures t in left <==> t in right
      ensures t in left && t in right ==> left[t] == right[t]
    {
      if t in left {
        var k := Index(store, h)[t];
        assert InChain(store, h, t, k);
        assert InChain(store, a, t, k);
      }
      if t in right {
        var k := right[t];
        assert InChain(store, a, t, k);
        assert InChain(store, h, t, k);
        assert t !in txs;
      }
    }
  }

  /** A cursor has walked from `top` down to `b`, leaving the blocks above it in `chain`. */
  ghost predicate WalkedTo(store: Store, top: Hash, b: Block, chain: seq<Block>)
    requires Closed(store) && top in store
  {
    && b.hash in store && store[b.hash] == b
    && b.number <= store[top].number
    && AncestorAt(store, top, b.number) == b.hash
    && |chain| == store[top].number - b.number
    && forall i :: 0 <= i < |chain| ==> chain[i] == store[AncestorAt(store, top, store[top].number - i)]
  }

  lemma {:induction false} WalkStep(store: Store, top: Hash, b: Block, chain: seq<Block>)
    requires Closed(store) && top in store && WalkedTo(store, top, b, chain) && b.number > 0
    ensures b.parent in store && store[b.parent].number == b.number - 1
    ensures WalkedTo(store, top, store[b.parent], chain + [b])
  {
    assert Placed(store, b.hash);
    assert Placed(store, b.parent);
    AncestorParent(store, top, b.number);
  }

  lemma {:induction false} DeletedStep(store: Store, top: Hash, b: Block, txs: seq<Tx>)
    requires Closed(store) && top in store && 0 < b.number <= store[top].number
    requires b.hash in store && store[b.hash] == b && AncestorAt(store, top, b.number) == b.hash
    requires TxsAbove(store, top, b.number, txs)
    ensures TxsAbove(store, top, b.number - 1, txs + b.txs)
  {
    forall t | t in txs + b.txs
      ensures exists k :: b.number - 1 < k && InChain(store, top, t, k)
    {
      if t in txs {
        var k :| b.number < k && InChain(store, top, t, k);
      } else {
        assert InChain(store, top, t, b.number);
      }
    }
  }

  /** Follows parent links from `top` down to height `target`, collecting the blocks passed and
      their transactions; a missing block ends the walk. */
  method Descend(store: Store, top: Block, target: nat)
    returns (reached: Option<Block>, chain: seq<Block>, txs: seq<Tx>)
    requires Closed(store) && top.hash in store && store[top.hash] == top && target <= top.number
    ensures reached.Some? && reached.value.number == target
    ensures WalkedTo(store, top.hash, reached.value, chain)
    ensures TxsAbove(store, top.hash, target, txs)
  {
    var b := top;
    chain, txs := [], [];
    while b.number != target
      invariant target <= b.number
      invariant WalkedTo(store, top.hash, b, chain)
      invariant TxsAbove(store, top.hash, b.number, txs)
      decreases b.number
    {
      WalkStep(store, top.hash, b, chain);
      DeletedStep(store, top.hash, b, txs);
      chain, txs := chain + [b], txs + b.txs;
      var parent := Get(store, b.parent, b.number - 1);
      if parent.None? {
        return None, chain, txs;
      }
      b := parent.value;
    }
    reached := Some(b);
  }

  /** Two cursors at one height below heads that disagree at every height above it. */
  ghost predicate Converging(store: Store, oldHead: Hash, newHead: Hash, oldBlock: Block, newBlock: Block,
                             oldChain: seq<Block>, newChain: seq<Block>, deleted: seq<Tx>)
    requires Closed(store) && oldHead in store && newHead in store
  {
    && oldBlock.number == newBlock.number
    && WalkedTo(store, oldHead, oldBlock, oldChain)
    && WalkedTo(store, newHead, newBlock, newChain)
    && TxsAbove(store, oldHead, oldBlock.number, deleted)
    && forall n: nat :: oldBlock.number < n <= store[oldHead].number && n <= store[newHead].number ==>
         AncestorAt(store, oldHead, n) != AncestorAt(store, newHead, n)
  }

  lemma {:induction false} ConvergeStep(store: Store, genesis: Block, oldHead: Hash, newHead: Hash, oldBlock: Block,
                                        newBlock: Block,
                     oldChain: seq<Block>, newChain: seq<Block>, deleted: seq<Tx>)
    requires WellFormed(store, genesis) && oldHead in store && newHead in store
    requires Converging(store, oldHead, newHead, oldBlock, newBlock, oldChain, newChain, deleted)
    requires oldBlock.hash != newBlock.hash
    ensures oldBlock.number > 0
    ensures oldBlock.parent in store && store[oldBlock.parent].number == oldBlock.number - 1
    ensures newBlock.parent in store && store[newBlock.parent].number == oldBlock.number - 1
    ensures Converging(store, oldHead, newHead, store[oldBlock.parent], store[newBlock.parent],
                       oldChain + [oldBlock], newChain + [newBlock], deleted + oldBlock.txs)
  {
    WalkStep(store, oldHead, oldBlock, oldChain);
    WalkStep(store, newHead, newBlock, newChain);
    DeletedStep(store, oldHead, oldBlock, deleted);
    var n := oldBlock.number;
    assert AncestorAt(store, oldHead, n) != AncestorAt(store, newHead, n);
    forall m: nat | n - 1 < m <= store[oldHead].number && m <= store[newHead].number
      ensures AncestorAt(store, oldHead, m) != AncestorAt(store, newHead, m)
    {
      assert m == n || n < m;
    }
  }

  /** Both sides of a reorganisation walked down to their highest common ancestor.  In a
      well-formed store the walk always meets, so neither "invalid chain" error can be returned. */
  method CommonAncestor(store: Store, genesis: Block, oldHead: Block, newHead: Block)
    returns (err: Option<Error>, common: Block, oldChain: seq<Block>, newChain: seq<Block>, deleted: seq<Tx>)
    requires WellFormed(store, genesis)
    requires oldHead.hash in store && store[oldHead.hash] == oldHead
    requires newHead.hash in store && store[newHead.hash] == newHead
    ensures err == None
    ensures Converging(store, oldHead.hash, newHead.hash, common, common, oldChain, newChain, deleted)
  {
    var oldBlock, newBlock := oldHead, newHead;
    err, common, oldChain, newChain, deleted := None, newHead, [], [], [];
    if oldBlock.number > newBlock.number {
      var reached: Option<Block>;
      reached, oldChain, deleted := Descend(store, oldBlock, newBlock.number);
      if reached.None? {
        return Some(InvalidOldChain), common, oldChain, newChain, deleted;
      }
      oldBlock := reached.value;
    } else {
      var reached: Option<Block>;
      var passed: seq<Tx>;
      reached, newChain, passed := Descend(store, newBlock, oldBlock.number);
      if reached.None? {
        return Some(InvalidNewChain), common, oldChain, newChain, deleted;
      }
      newBlock := reached.value;
    }
    err, common, oldChain, newChain, deleted :=
      Meet(store, genesis, oldHead.hash, newHead.hash, oldBlock, newBlock, oldChain, newChain, deleted);
  }

  /** The last leg: step back on both sides until the hashes agree. */
  method Meet(store: Store, genesis: Block, ghost oldHead: Hash, ghost newHead: Hash, oldStart: Block, newStart: Block,
              oldPassed: seq<Block>, newPassed: seq<Block>, txsPassed: seq<Tx>)
    returns (err: Option<Error>, common: Block, oldChain: seq<Block>, newChain: seq<Block>, deleted: seq<Tx>)
    requires WellFormed(store, genesis) && oldHead in store && newHead in store
    requires Converging(store, oldHead, newHead, oldStart, newStart, oldPassed, newPassed, txsPassed)
    ensures err == None
    ensures Converging(store, oldHead, newHead, common, common, oldChain, newChain, deleted)
  {
    var oldBlock, newBlock := oldStart, newStart;
    err, common, oldChain, newChain, deleted := None, newStart, oldPassed, newPassed, txsPassed;
    while oldBlock.hash != newBlock.hash
      invariant err == None
      invariant Converging(store, oldHead, newHead, oldBlock, newBlock, oldChain, newChain, deleted)
      decreases oldBlock.number
    {
      ConvergeStep(store, genesis, oldHead, newHead, oldBlock, newBlock, oldChain, newChain, deleted);
      oldChain, deleted := oldChain + [oldBlock], deleted + oldBlock.txs;
      newChain := newChain + [newBlock];
      var oldParent := Get(store, oldBlock.parent, oldBlock.number - 1);
      if oldParent.None? {
        return Some(InvalidOldChain), common, oldChain, newChain, deleted;
      }
      var newParent := Get(store, newBlock.parent, newBlock.number - 1);
      if newParent.None? {
        return Some(InvalidNewChain), common, oldChain, newChain, deleted;
      }
      oldBlock, newBlock := oldParent.value, newParent.value;
    }
    common := oldBlock;
  }

  /** Up to the height of `top` the map is the path of `top`; above it the entries of the longer
      old chain may remain, without a gap. */
  ghost predicate RewrittenTo(store: Store, canonical: map<nat, Hash>, oldNumber: nat, top: Hash)
    requires Closed(store) && top in store
  {
    && (forall n: nat :: n in canonical <==> n <= oldNumber || n <= store[top].number)
    && (forall n: nat :: n <= store[top].number ==> canonical[n] == AncestorAt(store, top, n))
  }

  lemma {:induction false} RewriteStep(store: Store, canonical: map<nat, Hash>, oldNumber: nat, b: Block)
    requires Closed(store) && b.hash in store && store[b.hash] == b && b.number > 0
    requires b.parent in store && RewrittenTo(store, canonical, oldNumber, b.parent)
    ensures RewrittenTo(store, canonical[b.number := b.hash], oldNumber, b.hash)
  {
    assert Placed(store, b.hash);
  }

  /** The lookup entries that survive the pending deletions are the index of `top`. */
  ghost predicate ReindexedTo(store: Store, txLookup: map<Tx, nat>, deleted: seq<Tx>, added: seq<Tx>, top: Hash)
    requires Closed(store) && top in store
  {
    txLookup - (set t | t in deleted && t !in added) == Index(store, top)
  }

  lemma {:induction false} ReindexStep(store: Store, txLookup: map<Tx, nat>, deleted: seq<Tx>, added: seq<Tx>, b: Block)
    requires Closed(store) && b.hash in store && store[b.hash] == b && b.number > 0
    requires b.parent in store && ReindexedTo(store, txLookup, deleted, added, b.parent)
    ensures ReindexedTo(store, txLookup + Entries(b), deleted, added + b.txs, b.hash)
  {
    assert Placed(store, b.hash);
    var before := txLookup - (set t | t in deleted && t !in added);
    var after := (txLookup + Entries(b)) - (set t | t in deleted && t !in added + b.txs);
    assert after == before + Entries(b);
  }

  /** What a head write after a reorganisation that stopped at `top` makes of map and index. */
  lemma {:induction false} HeadWriteCompletes(store: Store, genesis: Block, top: Hash, b: Block)
    requires WellFormed(store, genesis) && b.hash in store && store[b.hash] == b
    requires top in store && (top == b.hash || (b.number > 0 && top == b.parent))
    ensures PathMap(store, top)[b.number := b.hash] == PathMap(store, b.hash)
    ensures Index(store, top) + Entries(b) == Index(store, b.hash)
  {
    assert Placed(store, b.hash);
    IndexIdempotent(store, genesis, b.hash);
  }

  /** The path of a head read as an overlay that ends at one of its ancestors. */
  lemma {:induction false} OldMapRewritten(store: Store, head: Hash, common: Block)
    requires Closed(store) && head in store && common.hash in store && store[common.hash] == common
    requires common.number <= store[head].number && AncestorAt(store, head, common.number) == common.hash
    ensures RewrittenTo(store, PathMap(store, head), store[head].number, common.hash)
  {
    forall n: nat | n <= common.number
      ensures AncestorAt(store, head, n) == AncestorAt(store, common.hash, n)
    {
      AncestorOfAncestor(store, head, common.number, n);
    }
  }

  lemma {:induction false} NothingAdded(deleted: seq<Tx>)
    ensures (set t | t in deleted && t !in []) == (set t | t in deleted)
  {
  }

  lemma {:induction false} OldIndexPruned(store: Store, genesis: Block, head: Hash, common: Block, deleted: seq<Tx>)
    requires WellFormed(store, genesis) && head in store && NoRepeat(store, head)
    requires common.number <= store[head].number && AncestorAt(store, head, common.number) == common.hash
    requires TxsAbove(store, head, common.number, deleted)
    ensures ReindexedTo(store, Index(store, head), deleted, [], common.hash)
  {
    IndexWithoutBranch(store, genesis, head, common.number, deleted);
    NothingAdded(deleted);
  }

  /** After the new branch has been written the map ends in the parent of the new head, or in the
      new head itself when that was already an ancestor of the old one. */
  lemma {:induction false} TopOfWalk(store: Store, newHead: Block, common: Block, top: Hash, newChain: seq<Block>)
    requires Closed(store) && newHead.hash in store && store[newHead.hash] == newHead
    requires WalkedTo(store, newHead.hash, common, newChain)
    requires top == AncestorAt(store, newHead.hash, if newChain == [] then newHead.number else newHead.number - 1)
    ensures top == newHead.hash || (newHead.number > 0 && top == newHead.parent)
    ensures store[top].number == if |newChain| > 1 then newChain[1].number else common.number
  {
    if newChain != [] {
      AncestorParent(store, newHead.hash, newHead.number);
    }
  }

  /** The map after a head write, and the head. */
  datatype HeadWrite = HeadWrite(canonical: map<nat, Hash>, head: Hash)

  /** A write on the way to `newHead`: the head is its ancestor at height `n`, and up to there the
      map is that head's path. */
  ghost predicate OnTheWay(store: Store, w: HeadWrite, oldNumber: nat, newHead: Hash, n: nat)
    requires Closed(store) && newHead in store
  {
    && n <= store[newHead].number && w.head == AncestorAt(store, newHead, n)
    && RewrittenTo(store, w.canonical, oldNumber, w.head)
  }

  /** The writes of a trail from index `base` on went up from height `from`, one height at a time. */
  ghost predicate TrailUp(store: Store, trail: seq<HeadWrite>, base: nat, oldNumber: nat, newHead: Hash, from: nat)
    requires Closed(store) && newHead in store
  {
    forall i {:trigger trail[i]} :: base <= i < |trail| ==>
      OnTheWay(store, trail[i], oldNumber, newHead, from + 1 + i - base)
  }

  /** The height at which two chains part. */
  ghost predicate ForkPoint(store: Store, oldHead: Hash, newHead: Hash, n: nat)
    requires Closed(store) && oldHead in store && newHead in store
  {
    && n <= store[oldHead].number && n <= store[newHead].number
    && AncestorAt(store, oldHead, n) == AncestorAt(store, newHead, n)
    && forall m: nat :: n < m <= store[oldHead].number && m <= store[newHead].number ==>
         AncestorAt(store, oldHead, m) != AncestorAt(store, newHead, m)
  }

  lemma {:induction false} TrimmedIsPath(store: Store, canonical: map<nat, Hash>, oldNumber: nat, top: Hash,
                                         doomed: set<nat>, end: nat)
    requires Closed(store) && top in store && RewrittenTo(store, canonical, oldNumber, top)
    requires end !in canonical && end > store[top].number
    requires forall n: nat :: n in doomed <==> store[top].number < n < end
    ensures canonical - doomed == PathMap(store, top)
  {
  }

  lemma {:induction false} UselessIsDifference(deleted: seq<Tx>, added: seq<Tx>, useless: seq<Tx>)
    requires useless == HashDifference(deleted, added)
    ensures (set t | t in useless) == (set t | t in deleted && t !in added)
  {
  }

  /** Another block is canonical at this height and has the same state root. */
  predicate Ghostly(headNumber: nat, canonical: map<nat, Hash>, blocks: Store, b: Block)
  {
    && b.number <= headNumber && b.number in canonical && canonical[b.number] != b.hash
    && canonical[b.number] in blocks && blocks[canonical[b.number]].root == b.root
  }

  ghost predicate NoGhost(headNumber: nat, canonical: map<nat, Hash>, blocks: Store, batch: seq<Block>)
  {
    forall i :: 0 <= i < |batch| ==> !Ghostly(headNumber, canonical, blocks, batch[i])
  }

  /** Whether a block is a shadow does not depend on blocks that are not canonical. */
  lemma {:induction false} NoGhostNext(headNumber: nat, canonical: map<nat, Hash>, before: Store, blocks: Store,
                                       batch: seq<Block>, i: nat)
    requires i < |batch| && NoGhost(headNumber, canonical, before, batch[..i]) && Extends(before, blocks)
    requires forall n :: n in canonical ==> canonical[n] in before
    requires !Ghostly(headNumber, canonical, blocks, batch[i])
    ensures NoGhost(headNumber, canonical, before, batch[..i + 1])
  {
    assert batch[..i + 1] == batch[..i] + [batch[i]];
  }

  predicate OnCanonical(canonical: map<nat, Hash>, b: Block)
  {
    b.number in canonical && canonical[b.number] == b.hash
  }

  /** The last of the first `n` blocks of a batch that is not canonical already, or else the first. */
  function LastSide(canonical: map<nat, Hash>, batch: seq<Block>, n: nat): Block
    requires batch != [] && n <= |batch|
  {
    if n == 0 then batch[0]
    else if OnCanonical(canonical, batch[n - 1]) then LastSide(canonical, batch, n - 1)
    else batch[n - 1]
  }

  /** All blocks behind it are canonical, and it is not unless all are. */
  lemma {:induction false} LastSideExact(canonical: map<nat, Hash>, batch: seq<Block>, n: nat) returns (k: nat)
    requires batch != [] && n <= |batch|
    ensures k < |batch| && LastSide(canonical, batch, n) == batch[k] && (0 < k ==> k < n)
    ensures forall j :: k < j < n ==> OnCanonical(canonical, batch[j])
    ensures k < n && OnCanonical(canonical, batch[k]) ==>
              k == 0 && forall j :: 0 <= j < n ==> OnCanonical(canonical, batch[j])
  {
    if n == 0 {
      k := 0;
    } else if OnCanonical(canonical, batch[n - 1]) {
      k := LastSideExact(canonical, batch, n - 1);
    } else {
      k := n - 1;
    }
  }

  class BlockChain {
    const genesis: Block
    const terminal: Option<nat>

    var blocks: Store
    var td: map<Hash, nat>
    var canonical: map<nat, Hash>
    var txLookup: map<Tx, nat>
    var headHeader: Hash
    var headSnap: Hash
    var headBlock: Hash
    ghost var trail: seq<HeadWrite>  // every head write so far

    /** The database is consistent, whatever the canonical map says. */
    ghost predicate StoreValid()
      reads this
    {
      && WellFormed(blocks, genesis)
      && TotalsCorrect(blocks, td)
      && headBlock in blocks
    }

    /** The canonical map is the path from genesis to the head, with nothing above it. */
    ghost predicate Valid()
      reads this
    {
      && StoreValid()
      && headHeader == headBlock
      && headSnap == headBlock
      && canonical == PathMap(blocks, headBlock)
    }

    ghost function Ledger(): L.Ledger
      reads this
    {
      L.Ledger(blocks, td, headBlock)
    }

    ghost predicate Indexed()
      reads this
      requires StoreValid()
    {
      txLookup == Index(blocks, headBlock)
    }

    constructor (genesis: Block, terminal: Option<nat>)
      requires genesis.hash != ZERO && genesis.number == 0 && genesis.parent == ZERO && genesis.txs == []
      ensures Valid() && Indexed()
      ensures this.genesis == genesis && this.terminal == terminal
      ensures blocks == map[genesis.hash := genesis] && headBlock == genesis.hash
    {
      this.genesis := genesis;
      this.terminal := terminal;
      blocks := map[genesis.hash := genesis];
      td := map[genesis.hash := genesis.difficulty];
      canonical := map[0 := genesis.hash];
      txLookup := map[];
      headHeader := genesis.hash;
      headSnap := genesis.hash;
      headBlock := genesis.hash;
      trail := [];
      new;
      assert forall h :: h in blocks ==> Placed(blocks, h);
    }

    /** Injects a block as the new head: one batch of markers, map entry and lookup entries. */
    method WriteHeadBlock(block: Block)
      modifies `canonical, `txLookup, `headHeader, `headSnap, `headBlock, `trail
      ensures canonical == old(canonical)[block.number := block.hash]
      ensures txLookup == old(txLookup) + Entries(block)
      ensures headHeader == headSnap == headBlock == block.hash
      ensures trail == old(trail) + [HeadWrite(canonical, headBlock)]
    {
      var entries := map t | t in block.txs :: block.number;
      headHeader := block.hash;
      headSnap := block.hash;
      canonical := canonical[block.number := block.hash];
      txLookup := txLookup + entries;
      headBlock := block.hash;
      trail := trail + [HeadWrite(canonical, headBlock)];
    }

    /** Writes the new branch as head, block by block from the bottom, except for its top block. */
    method WriteNewChain(newHead: Block, newChain: seq<Block>, ghost common: Block, ghost oldNumber: nat,
                         ghost deleted: seq<Tx>)
      returns (added: seq<Tx>, ghost top: Hash)
      requires Closed(blocks) && headBlock in blocks && newHead.hash in blocks && blocks[newHead.hash] == newHead
      requires WalkedTo(blocks, newHead.hash, common, newChain)
      requires RewrittenTo(blocks, canonical, oldNumber, common.hash)
      modifies `canonical, `txLookup, `headHeader, `headSnap, `headBlock, `trail
      ensures headBlock in blocks
      ensures top == AncestorAt(blocks, newHead.hash, if newChain == [] then newHead.number else newHead.number - 1)
      ensures RewrittenTo(blocks, canonical, oldNumber, top)
      ensures old(ReindexedTo(blocks, txLookup, deleted, [], common.hash)) ==>
                ReindexedTo(blocks, txLookup, deleted, added, top)
      ensures old(trail) <= trail && |trail| - |old(trail)| == if newChain == [] then 0 else |newChain| - 1
      ensures TrailUp(blocks, trail, |old(trail)|, oldNumber, newHead.hash, common.number)
    {
      added, top := [], common.hash;
      ghost var exact := ReindexedTo(blocks, txLookup, deleted, [], common.hash);
      var i := |newChain| - 1;
      while i >= 1
        invariant newChain != [] ==> 0 <= i < |newChain|
        invariant newChain == [] ==> i == -1
        invariant headBlock in blocks
        invariant top == AncestorAt(blocks, newHead.hash, newHead.number - i - 1)
        invariant RewrittenTo(blocks, canonical, oldNumber, top)
        invariant exact ==> ReindexedTo(blocks, txLookup, deleted, added, top)
        invariant old(trail) <= trail && |trail| == |old(trail)| + |newChain| - 1 - i
        invariant TrailUp(blocks, trail, |old(trail)|, oldNumber, newHead.hash, common.number)
      {
        var b := newChain[i];
        AncestorParent(blocks, newHead.hash, newHead.number - i);
        assert Placed(blocks, AncestorAt(blocks, newHead.hash, newHead.number - i));
        assert b.hash in blocks && blocks[b.hash] == b && b.number > 0 && b.parent == top;
        RewriteStep(blocks, canonical, oldNumber, b);
        if exact {
          ReindexStep(blocks, txLookup, deleted, added, b);
        }
        WriteHeadBlock(b);
        added := added + b.txs;
        top := b.hash;
        i := i - 1;
      }
    }

    /** Deletes, in one batch, the lookup entries of abandoned transactions and every canonical
        entry above `number`, reading upwards until the first missing one. */
    method DropStale(number: nat, deleted: seq<Tx>, added: seq<Tx>, ghost oldNumber: nat, ghost top: Hash)
      requires StoreValid() && top in blocks && blocks[top].number == number
      requires RewrittenTo(blocks, canonical, oldNumber, top)
      modifies `canonical, `txLookup
      ensures canonical == PathMap(blocks, top)
      ensures old(ReindexedTo(blocks, txLookup, deleted, added, top)) ==> txLookup == Index(blocks, top)
    {
      var useless := HashDifference(deleted, added);
      var doomed, end := EntriesAbove(canonical, number);
      TrimmedIsPath(blocks, canonical, oldNumber, top, doomed, end);
      UselessIsDifference(deleted, added, useless);
      txLookup := txLookup - (set t | t in useless);
      canonical := canonical - doomed;
    }

    /** Rewrites the canonical map from the current head towards `newHead`, leaving the write of
        `newHead` itself to the caller.  `top` is the block the map then ends in, and `fork` the
        height at which the chains part; from there one head write follows another up the new chain. */
    method Reorg(newHead: Block) returns (err: Option<Error>, ghost top: Hash, ghost fork: nat)
      requires Valid() && newHead.hash in blocks && blocks[newHead.hash] == newHead
      modifies `canonical, `txLookup, `headHeader, `headSnap, `headBlock, `trail
      ensures err == None
      ensures headBlock in blocks
      ensures top in blocks && (top == newHead.hash || (newHead.number > 0 && top == newHead.parent))
      ensures canonical == PathMap(blocks, top)
      ensures old(Indexed()) && NoRepeat(blocks, old(headBlock)) ==> txLookup == Index(blocks, top)
      ensures ForkPoint(blocks, old(headBlock), newHead.hash, fork)
      ensures old(trail) <= trail
      ensures |trail| - |old(trail)| == if newHead.number == fork then 0 else newHead.number - fork - 1
      ensures TrailUp(blocks, trail, |old(trail)|, blocks[old(headBlock)].number, newHead.hash, fork)
    {
      top, fork := newHead.hash, 0;
      assert Placed(blocks, headBlock);
      var oldBlock := Get(blocks, headBlock, blocks[headBlock].number);
      if oldBlock.None? {
        return Some(HeadMissing), top, fork;
      }
      var common, oldChain, newChain, deleted, added;
      err, common, oldChain, newChain, deleted := CommonAncestor(blocks, genesis, oldBlock.value, newHead);
      if err.Some? {
        return err, top, fork;
      }
      ghost var oldNumber := oldBlock.value.number;
      fork := common.number;
      OldMapRewritten(blocks, headBlock, common);
      if Indexed() && NoRepeat(blocks, headBlock) {
        OldIndexPruned(blocks, genesis, headBlock, common, deleted);
      }
      added, top := WriteNewChain(newHead, newChain, common, oldNumber, deleted);
      var number := if |newChain| > 1 then newChain[1].number else common.number;
      TopOfWalk(blocks, newHead, common, top, newChain);
      DropStale(number, deleted, added, oldNumber, top);
    }

    /** Makes a stored block the head, reorganising when it does not extend the current one. */
    method AdoptHead(block: Block) returns (err: Option<Error>)
      requires Valid() && block.hash in blocks && blocks[block.hash] == block
      modifies `canonical, `txLookup, `headHeader, `headSnap, `headBlock, `trail
      ensures err == None && Valid() && headBlock == block.hash
      ensures old(trail) < trail && trail[|trail| - 1] == HeadWrite(canonical, headBlock)
      ensures old(Indexed()) && NoRepeat(blocks, old(headBlock)) ==> Indexed()
    {
      ghost var top := headBlock;
      assert Placed(blocks, headBlock);
      if block.parent != headBlock {
        ghost var fork;
        err, top, fork := Reorg(block);
        if err.Some? {
          return err;
        }
      }
      assert Placed(blocks, block.hash);
      HeadWriteCompletes(blocks, genesis, top, block);
      WriteHeadBlock(block);
      err := None;
    }

    /** Updates the head with a block that is already stored. */
    method WriteKnownBlock(block: Block) returns (err: Option<Error>)
      requires Valid() && block.hash in blocks && blocks[block.hash] == block
      modifies `canonical, `txLookup, `headHeader, `headSnap, `headBlock, `trail
      ensures err == None && Valid() && headBlock == block.hash
      ensures old(trail) < trail && trail[|trail| - 1] == HeadWrite(canonical, headBlock)
      ensures old(Indexed()) && NoRepeat(blocks, old(headBlock)) ==> Indexed()
    {
      err := AdoptHead(block);
    }

    /** Makes the given block the head at the request of the consensus layer.  When its state is
        missing the ancestors are re-executed first, which may fail. */
    method SetCanonical(head: Block, hasState: bool, recovers: bool) returns (err: Option<Error>)
      requires Valid() && head.hash in blocks && blocks[head.hash] == head
      modifies `canonical, `txLookup, `headHeader, `headSnap, `headBlock, `trail
      ensures Valid()
      ensures err == if hasState || recovers then None else Some(StateUnrecoverable)
      ensures headBlock == if err == None then head.hash else old(headBlock)
      ensures err != None ==> canonical == old(canonical) && txLookup == old(txLookup)
      ensures old(Indexed()) && NoRepeat(blocks, old(headBlock)) ==> Indexed()
    {
      if !hasState && !recovers {
        return Some(StateUnrecoverable);
      }
      err := AdoptHead(head);
    }

    /** One batch that stores a block together with its total difficulty. */
    method PutBlock(block: Block, total: nat)
      requires Valid() && Fits(blocks, block)
      requires Get(blocks, block.parent, block.number - 1).Some? && total == td[block.parent] + block.difficulty
      modifies `blocks, `td
      ensures Valid() && Extends(old(blocks), blocks)
      ensures Ledger() == L.Store(old(Ledger()), block)
      ensures block.hash in blocks && blocks[block.hash] == block && td[block.hash] == total
      ensures Index(blocks, headBlock) == old(Index(blocks, headBlock))
    {
      ghost var stored := L.Store(Ledger(), block);
      L.StoreSound(Ledger(), genesis, block);
      PathMapStable(blocks, stored.blocks, headBlock);
      IndexStable(blocks, stored.blocks, headBlock);
      td := td[block.hash := total];
      blocks := blocks[block.hash := block];
      assert Ledger() == stored;
    }

    /** Stores a block with its total difficulty, then commits its state. */
    method WriteBlockWithState(block: Block, commits: bool) returns (err: Option<Error>)
      requires Valid() && Fits(blocks, block)
      modifies `blocks, `td
      ensures Valid() && Extends(old(blocks), blocks)
      ensures Ledger() == L.Store(old(Ledger()), block)
      ensures Index(blocks, headBlock) == old(Index(blocks, headBlock))
      ensures err == if L.ReadTd(old(blocks), old(td), block.parent, block.number - 1).None? then Some(UnknownAncestor)
                     else if !commits then Some(CommitFailed) else None
      ensures err == None ==> block.hash in blocks && blocks[block.hash] == block
    {
      var parentTd := L.ReadTd(blocks, td, block.parent, block.number - 1);
      if parentTd.None? {
        return Some(UnknownAncestor);
      }
      PutBlock(block, parentTd.value + block.difficulty);
      err := if commits then None else Some(CommitFailed);
    }

    /** Stores a block and makes it the head if the fork choice says so. */
    method WriteBlockAndSetHead(block: Block, settings: Settings, commits: bool)
      returns (status: Status, err: Option<Error>)
      requires Valid() && Fits(blocks, block) && settings.terminal == terminal
      modifies `blocks, `td, `canonical, `txLookup, `headHeader, `headSnap, `headBlock, `trail
      ensures Valid() && Extends(old(blocks), blocks)
      ensures Ledger() == L.Insert(old(Ledger()), L.Offer(block, settings, commits))
      ensures err == if L.ReadTd(old(blocks), old(td), block.parent, block.number - 1).None? then Some(UnknownAncestor)
                     else if !commits then Some(CommitFailed) else None
      ensures (status == Canon || status == Side) <==> err == None
      ensures err == None ==>
                (status == Canon <==> L.Verdict(blocks, td, old(headBlock), block, settings) == Decided(true))
      ensures status == Canon ==> headBlock == block.hash
      ensures status != Canon ==> headBlock == old(headBlock) && canonical == old(canonical)
      ensures old(Indexed() && NoRepeat(blocks, headBlock)) ==> Indexed()
    {
      ghost var before := blocks;
      err := WriteBlockWithState(block, commits);
      if err.Some? {
        return NonStat, err;
      }
      var verdict := L.Verdict(blocks, td, headBlock, block, settings);
      if verdict.MissingTd? {
        return NonStat, Some(MissingTotal);
      }
      if !verdict.reorg {
        return Side, None;
      }
      NoRepeatStable(before, blocks, headBlock);
      err := AdoptHead(block);
      status := if err.None? then Canon else NonStat;
    }

    /** One block of a side-chain import.  `accumulated` is the total of the previous block of the
        batch, if there was one; the result is the total of this block. */
    method SideBlock(block: Block, accumulated: Option<nat>, stopped: bool)
      returns (err: Option<Error>, total: Option<nat>, known: bool)
      requires Valid() && Fits(blocks, block)
      requires Get(blocks, block.parent, block.number - 1).Some?
      requires accumulated.Some? ==> accumulated.value == td[block.parent]
      modifies `blocks, `td
      ensures Valid() && Extends(old(blocks), blocks)
      ensures err == None ==> Ledger() == L.Store(old(Ledger()), block)
      ensures err == None ==> block.hash in blocks && blocks[block.hash] == block
      ensures err == None ==> total == Some(TotalDifficulty(blocks, block.hash))
      ensures err != None ==> Ledger() == old(Ledger())
      ensures err == if Ghostly(blocks[headBlock].number, canonical, old(blocks), block) then Some(GhostState)
                     else if stopped && block.hash !in old(blocks) then Some(Interrupted) else None
      ensures err == None ==> (known <==> OnCanonical(canonical, block))
    {
      err, total, known := None, accumulated, false;
      L.StoreSound(Ledger(), genesis, block);
      if block.number <= blocks[headBlock].number && block.number in canonical {
        var there := Get(blocks, canonical[block.number], block.number);
        if there.Some? && canonical[block.number] == block.hash {
          L.StoreAgain(Ledger(), genesis, block);
          return None, L.ReadTd(blocks, td, block.hash, block.number), true;
        }
        if there.Some? && there.value.root == block.root {
          return Some(GhostState), None, false;
        }
      }
      if total.None? {
        total := L.ReadTd(blocks, td, block.parent, block.number - 1);
      }
      total := Some(total.value + block.difficulty);
      if Get(blocks, block.hash, block.number).None? {
        if stopped {
          return Some(Interrupted), None, false;
        }
        PutBlock(block, total.value);
      } else {
        L.StoreAgain(Ledger(), genesis, block);
      }
    }

    /** The first `i` blocks of a side chain are stored, none of them a shadow; `total` is the total
        difficulty of the last of them, and `last` the last that was not canonical. */
    ghost predicate SideStored(before: Store, batch: seq<Block>, i: nat, total: Option<nat>, last: Block)
      reads this
      requires StoreValid() && batch != [] && i <= |batch|
    {
      && blocks == Joined(before, batch, i) && Extends(before, blocks)
      && headBlock in before && (forall n :: n in canonical ==> canonical[n] in before)
      && NoGhost(before[headBlock].number, canonical, before, batch[..i])
      && last == LastSide(canonical, batch, i)
      && (i == 0 ==> total == None)
      && (0 < i ==>
            && batch[i - 1].hash in blocks && total == Some(TotalDifficulty(blocks, batch[i - 1].hash))
            && last.hash in blocks && blocks[last.hash] == last)
    }

    method SideStep(batch: seq<Block>, i: nat, accumulated: Option<nat>, last: Block, stopped: bool,
                    ghost before: Store)
      returns (err: Option<Error>, total: Option<nat>, last': Block)
      requires Valid() && Importable(before, batch) && i < |batch| && SideStored(before, batch, i, accumulated, last)
      modifies `blocks, `td
      ensures Valid()
      ensures err == None ==> SideStored(before, batch, i + 1, total, last')
      ensures err != None ==> blocks == old(blocks)
      ensures err == None || (err == Some(Interrupted) && stopped) ||
                (err == Some(GhostState) && Ghostly(blocks[headBlock].number, canonical, blocks, batch[i]))
    {
      ImportableNext(before, batch, i);
      var known;
      err, total, known := SideBlock(batch[i], accumulated, stopped);
      last' := if err == None && !known then batch[i] else last;
      if err == None {
        NoGhostNext(old(blocks)[headBlock].number, canonical, before, old(blocks), batch, i);
      }
    }

    /** Writes the blocks of a side chain with total difficulties accumulated along the batch; the
        accumulator restarts at every block that is already canonical. */
    method StoreSideBlocks(batch: seq<Block>, stopAt: nat)
      returns (err: Option<Error>, lastBlock: Block, ghost done: nat)
      requires Valid() && Importable(blocks, batch)
      modifies `blocks, `td
      ensures Valid() && Extends(old(blocks), blocks)
      ensures done <= |batch| && blocks == Joined(old(blocks), batch, done) && (err == None ==> done == |batch|)
      ensures err == None ==>
                && lastBlock == LastSide(canonical, batch, |batch|)
                && lastBlock.hash in blocks && blocks[lastBlock.hash] == lastBlock
      ensures NoGhost(old(blocks)[headBlock].number, canonical, old(blocks), batch[..done])
      ensures err == None || (err == Some(Interrupted) && stopAt <= done < |batch|) ||
                (&& err == Some(GhostState) && done < |batch|
                 && Ghostly(blocks[headBlock].number, canonical, blocks, batch[done]))
    {
      err, lastBlock, done := None, batch[0], 0;
      var total: Option<nat> := None;
      for i := 0 to |batch|
        invariant err == None && done == i && Valid() && SideStored(old(blocks), batch, i, total, lastBlock)
      {
        err, total, lastBlock := SideStep(batch, i, total, lastBlock, i >= stopAt, old(blocks));
        if err.Some? {
          return err, lastBlock, i;
        }
        done := i + 1;
      }
    }

    /** Stores a batch whose first block sits on a block without state and asks the fork choice
        whether it wants the last block of it that was not canonical before. */
    method InsertSideChain(batch: seq<Block>, settings: Settings, stopAt: nat)
      returns (err: Option<Error>, verdict: Verdict, ghost done: nat)
      requires Valid() && Importable(blocks, batch)
      modifies `blocks, `td
      ensures Valid() && Extends(old(blocks), blocks)
      ensures Index(blocks, headBlock) == old(Index(blocks, headBlock))
      ensures done <= |batch| && blocks == Joined(old(blocks), batch, done) && (err == None ==> done == |batch|)
      ensures err == None ==>
                var last := LastSide(canonical, batch, |batch|);
                && last.hash in blocks && blocks[last.hash] == last
                && verdict == L.Verdict(blocks, td, headBlock, last, settings) && verdict.Decided?
      ensures NoGhost(old(blocks)[headBlock].number, canonical, old(blocks), batch[..done])
      ensures err == None || (err == Some(Interrupted) && stopAt <= done < |batch|) ||
                (&& err == Some(GhostState) && done < |batch|
                 && Ghostly(blocks[headBlock].number, canonical, blocks, batch[done]))
    {
      verdict := MissingTd;
      var lastBlock;
      err, lastBlock, done := StoreSideBlocks(batch, stopAt);
      IndexStable(old(blocks), blocks, headBlock);
      if err == None {
        verdict := L.Verdict(blocks, td, headBlock, lastBlock, settings);
      }
    }
  }

  /** A request to the chain; one that names an unknown block, or reuses a hash, is not made. */
  datatype Request =
    | Write(block: Block, preserve: Option<Block -> bool>, coin: bool, commits: bool)
    | Known(hash: Hash)
    | Canonical(hash: Hash, hasState: bool, recovers: bool)

  /** What a request makes of the ledger. */
  ghost function Outcome(l: L.Ledger, terminal: Option<nat>, request: Request): (r: L.Ledger)
    requires l.head in l.blocks
    ensures r.head in r.blocks
  {
    match request
    case Write(block, preserve, coin, commits) =>
      if Fits(l.blocks, block) then L.Insert(l, L.Offer(block, Settings(terminal, preserve, coin), commits)) else l
    case Known(hash) => if hash in l.blocks then l.(head := hash) else l
    case Canonical(hash, hasState, recovers) =>
      if hash in l.blocks && (hasState || recovers) then l.(head := hash) else l
  }

  ghost function Outcomes(l: L.Ledger, terminal: Option<nat>, requests: seq<Request>): (r: L.Ledger)
    requires l.head in l.blocks
    ensures r.head in r.blocks
  {
    if requests == [] then l
    else Outcome(Outcomes(l, terminal, requests[..|requests| - 1]), terminal, requests[|requests| - 1])
  }

  /** Without a terminal difficulty block writes alone never worsen the head, refused ones included. */
  lemma {:induction false} WritesNeverWorsen(l: L.Ledger, genesis: Block, requests: seq<Request>)
    requires L.Sound(l, genesis) && forall i :: 0 <= i < |requests| ==> requests[i].Write?
    ensures var r := Outcomes(l, None, requests); L.Sound(r, genesis) && L.HeadNoWorse(l, r, genesis)
    decreases |requests|
  {
    if requests != [] {
      var front, last := requests[..|requests| - 1], requests[|requests| - 1];
      WritesNeverWorsen(l, genesis, front);
      var mid := Outcomes(l, None, front);
      if Fits(mid.blocks, last.block) {
        L.InsertSound(mid, genesis, L.Offer(last.block, Settings(None, last.preserve, last.coin), last.commits));
      }
    }
  }

  /** Every run of head-changing requests makes of the ledger what the requests say, keeps the
      canonical map equal to the path of the head, and, if no transaction repeats within a chain of
      the resulting store, keeps the lookup index exactly the index of the canonical chain. */
  method Serve(chain: BlockChain, requests: seq<Request>)
    requires chain.Valid() && chain.Indexed()
    modifies chain
    ensures chain.Valid()
    ensures chain.Ledger() == Outcomes(old(chain.Ledger()), chain.terminal, requests)
    ensures chain.terminal.None? && (forall i :: 0 <= i < |requests| ==> requests[i].Write?) ==>
              L.HeadNoWorse(old(chain.Ledger()), chain.Ledger(), chain.genesis)
    ensures Extends(old(chain.blocks), chain.blocks)
    ensures NoRepeats(chain.blocks) ==>
              forall t, n: nat ::
                (t in chain.txLookup && chain.txLookup[t] == n) <==> InChain(chain.blocks, chain.headBlock, t, n)
  {
    for i := 0 to |requests|
      invariant chain.Valid() && Extends(old(chain.blocks), chain.blocks)
      invariant chain.Ledger() == Outcomes(old(chain.Ledger()), chain.terminal, requests[..i])
      invariant NoRepeats(chain.blocks) ==> chain.Indexed()
    {
      assert requests[..i + 1][..i] == requests[..i];
      ServeOne(chain, requests[i]);
    }
    assert requests[..|requests|] == requests;
    if chain.terminal.None? && forall i :: 0 <= i < |requests| ==> requests[i].Write? {
      WritesNeverWorsen(old(chain.Ledger()), chain.genesis, requests);
    }
    if NoRepeats(chain.blocks) {
      assert NoRepeat(chain.blocks, chain.headBlock);
      IndexExact(chain.blocks, chain.genesis, chain.headBlock);
    }
  }

  method ServeOne(chain: BlockChain, request: Request)
    requires chain.Valid()
    modifies chain
    ensures chain.Valid()
    ensures chain.Ledger() == Outcome(old(chain.Ledger()), chain.terminal, request)
    ensures Extends(old(chain.blocks), chain.blocks)
    ensures old(NoRepeats(chain.blocks) ==> chain.Indexed()) && NoRepeats(chain.blocks) ==> chain.Indexed()
  {
    ghost var before, head := chain.blocks, chain.headBlock;
    match request {
      case Write(block, preserve, coin, commits) =>
        if Fits(chain.blocks, block) {
          var status, err := chain.WriteBlockAndSetHead(block, Settings(chain.terminal, preserve, coin), commits);
        }
      case Known(hash) =>
        if hash in chain.blocks {
          assert Placed(chain.blocks, hash);
          var err := chain.WriteKnownBlock(chain.blocks[hash]);
        }
      case Canonical(hash, hasState, recovers) =>
        if hash in chain.blocks {
          assert Placed(chain.blocks, hash);
          var err := chain.SetCanonical(chain.blocks[hash], hasState, recovers);
        }
    }
    if NoRepeats(chain.blocks) {
      forall h | h in before
        ensures NoRepeat(before, h)
      {
        NoRepeatsShrinks(before, chain.blocks, h);
      }
    }
  }
}
