/**
 Blocks, the hash-keyed store that holds them, and ancestry inside the store.

 A hash is an opaque identifier and zero stands for the all-zero hash, which no
 block has.  A store is closed: the parent of every block above height zero is
 stored one height below it.  Everything a chain remembers about its head (the
 number-to-hash map, the total difficulty, the transaction index) is given here
 a definition that walks the ancestry of one block, independently of how the
 chain code arrives at it.
 */
module BlockTree {

  type Hash = nat
  type Tx = nat

  const ZERO: Hash := 0

  datatype Option<+T> = None | Some(value: T)

  datatype Block = Block(
    hash: Hash,
    parent: Hash,
    number: nat,
    difficulty: nat,
    root: Hash,
    time: nat,
    txs: seq<Tx>)

  type Store = map<Hash, Block>

  /** The block stored under `h` carries that hash and its parent is stored below it. */
  ghost predicate Placed(store: Store, h: Hash)
    requires h in store
  {
    && h != ZERO
    && store[h].hash == h
    && (store[h].number > 0 ==>
          store[h].parent in store && store[store[h].parent].number == store[h].number - 1)
  }

  ghost predicate Closed(store: Store)
  {
    forall h {:trigger Placed(store, h)} :: h in store ==> Placed(store, h)
  }

  /** A closed store whose only block at height zero is the genesis block. */
  ghost predicate WellFormed(store: Store, genesis: Block)
  {
    && Closed(store)
    && genesis.number == 0
    && genesis.parent == ZERO
    && genesis.txs == []
    && genesis.hash in store
    && store[genesis.hash] == genesis
    && forall h :: h in store && store[h].number == 0 ==> h == genesis.hash
  }

  /** A database read by hash and number: the number is part of the key. */
  function Get(store: Store, h: Hash, number: int): (r: Option<Block>)
    ensures r.Some? <==> h in store && store[h].number == number
    ensures r.Some? ==> r.value == store[h]
  {
    if h in store && store[h].number == number then Some(store[h]) else None
  }

  /** Content addressing: a block may join a store unless its hash is already taken by another. */
  predicate Fits(store: Store, b: Block)
  {
    && b.hash != ZERO
    && (b.hash in store ==> store[b.hash] == b)
  }

  // ----- ancestry

  /** The ancestor of `h` at height `n`, found by following parent links. */
  ghost function AncestorAt(store: Store, h: Hash, n: nat): (r: Hash)
    requires Closed(store) && h in store && n <= store[h].number
    ensures r in store && store[r].number == n
    decreases store[h].number
  {
    assert Placed(store, h);
    if store[h].number == n then h else AncestorAt(store, store[h].parent, n)
  }

  /** The number-to-hash map of the chain that ends in `h`. */
  ghost function PathMap(store: Store, h: Hash): (m: map<nat, Hash>)
    requires Closed(store) && h in store
  {
    map n: nat | n <= store[h].number :: AncestorAt(store, h, n)
  }

  lemma {:induction false} AncestorOfAncestor(store: Store, h: Hash, m: nat, n: nat)
    requires Closed(store) && h in store && n <= m <= store[h].number
    ensures AncestorAt(store, AncestorAt(store, h, m), n) == AncestorAt(store, h, n)
    decreases store[h].number
  {
    assert Placed(store, h);
    if store[h].number != m {
      AncestorOfAncestor(store, store[h].parent, m, n);
    }
  }

  lemma {:induction false} AncestorParent(store: Store, h: Hash, n: nat)
    requires Closed(store) && h in store && 0 < n <= store[h].number
    ensures store[AncestorAt(store, h, n)].parent == AncestorAt(store, h, n - 1)
    decreases store[h].number
  {
    assert Placed(store, h);
    if store[h].number != n {
      AncestorParent(store, store[h].parent, n);
    }
  }

  /** Every block of a well-formed store descends from the genesis block. */
  lemma {:induction false} DescendsFromGenesis(store: Store, genesis: Block, h: Hash)
    requires WellFormed(store, genesis) && h in store
    ensures AncestorAt(store, h, 0) == genesis.hash
  {
    var a := AncestorAt(store, h, 0);
    assert store[a].number == 0;
  }

  // ----- growing a store

  ghost predicate Extends(small: Store, big: Store)
  {
    forall h :: h in small ==> h in big && big[h] == small[h]
  }

  lemma {:induction false} AncestorStable(small: Store, big: Store, h: Hash, n: nat)
    requires Closed(small) && Closed(big) && Extends(small, big)
    requires h in small && n <= small[h].number
    ensures AncestorAt(big, h, n) == AncestorAt(small, h, n)
    decreases small[h].number
  {
    assert Placed(small, h);
    if small[h].number != n {
      AncestorStable(small, big, small[h].parent, n);
    }
  }

  lemma {:induction false} PathMapStable(small: Store, big: Store, h: Hash)
    requires Closed(small) && Closed(big) && Extends(small, big) && h in small
    ensures PathMap(big, h) == PathMap(small, h)
  {
    forall n: nat | n <= small[h].number
      ensures AncestorAt(big, h, n) == AncestorAt(small, h, n)
    {
      AncestorStable(small, big, h, n);
    }
  }

  /** Storing a block above a stored parent keeps the store well formed. */
  lemma {:induction false} InsertKeepsWellFormed(store: Store, genesis: Block, b: Block)
    requires WellFormed(store, genesis) && Fits(store, b)
    requires b.number > 0 && b.parent in store && store[b.parent].number == b.number - 1
    ensures WellFormed(store[b.hash := b], genesis)
    ensures Extends(store, store[b.hash := b])
  {
    var big := store[b.hash := b];
    forall h | h in big
      ensures Placed(big, h)
    {
      if h in store {
        assert Placed(store, h);
      }
    }
  }

  // ----- total difficulty

  /** The difficulty of a block plus that of all its ancestors. */
  ghost function TotalDifficulty(store: Store, h: Hash): nat
    requires Closed(store) && h in store
    decreases store[h].number
  {
    assert Placed(store, h);
    store[h].difficulty + if store[h].number == 0 then 0 else TotalDifficulty(store, store[h].parent)
  }

  lemma {:induction false} TotalDifficultyStable(small: Store, big: Store, h: Hash)
    requires Closed(small) && Closed(big) && Extends(small, big) && h in small
    ensures TotalDifficulty(big, h) == TotalDifficulty(small, h)
    decreases small[h].number
  {
    assert Placed(small, h);
    if small[h].number > 0 {
      TotalDifficultyStable(small, big, small[h].parent);
    }
  }

  /** The stored totals are exactly the sums along the ancestry, one for every stored block. */
  ghost predicate TotalsCorrect(store: Store, td: map<Hash, nat>)
    requires Closed(store)
  {
    && td.Keys == store.Keys
    && forall h {:trigger td[h]} {:trigger TotalDifficulty(store, h)} ::
         h in store ==> td[h] == TotalDifficulty(store, h)
  }

  lemma {:induction false} TotalsAfterInsert(store: Store, big: Store, td: map<Hash, nat>, b: Block)
    requires Closed(store) && Closed(big) && Extends(store, big) && big == store[b.hash := b]
    requires b.number > 0 && b.parent in store && TotalsCorrect(store, td)
    ensures TotalsCorrect(big, td[b.hash := td[b.parent] + b.difficulty])
  {
    var td' := td[b.hash := td[b.parent] + b.difficulty];
    TotalDifficultyStable(store, big, b.parent);
    forall h | h in big
      ensures td'[h] == TotalDifficulty(big, h)
    {
      if h in store {
        TotalDifficultyStable(store, big, h);
      }
    }
  }

  /** Writing a block with its parent's total plus its own difficulty keeps all totals correct. */
  lemma {:induction false} InsertKeepsTotals(store: Store, genesis: Block, td: map<Hash, nat>, b: Block)
    requires WellFormed(store, genesis) && Fits(store, b) && TotalsCorrect(store, td)
    requires b.number > 0 && b.parent in store && store[b.parent].number == b.number - 1
    ensures WellFormed(store[b.hash := b], genesis)
    ensures TotalsCorrect(store[b.hash := b], td[b.hash := td[b.parent] + b.difficulty])
  {
    InsertKeepsWellFormed(store, genesis, b);
    TotalsAfterInsert(store, store[b.hash := b], td, b);
  }

  // ----- transaction index

  /** The lookup entries one head write stores for a block. */
  ghost function Entries(b: Block): map<Tx, nat>
  {
    map t | t in b.txs :: b.number
  }

  /** The index left by writing every block of the chain of `h`, from genesis upwards. */
  ghost function Index(store: Store, h: Hash): map<Tx, nat>
    requires Closed(store) && h in store
    decreases store[h].number
  {
    assert Placed(store, h);
    if store[h].number == 0 then map[] else Index(store, store[h].parent) + Entries(store[h])
  }

  lemma {:induction false} IndexStable(small: Store, big: Store, h: Hash)
    requires Closed(small) && Closed(big) && Extends(small, big) && h in small
    ensures Index(big, h) == Index(small, h)
    decreases small[h].number
  {
    assert Placed(small, h);
    if small[h].number > 0 {
      IndexStable(small, big, small[h].parent);
    }
  }

  /** Transaction `t` is in the block at height `n` of the chain of `h`. */
  ghost predicate InChain(store: Store, h: Hash, t: Tx, n: nat)
    requires Closed(store) && h in store
  {
    n <= store[h].number && t in store[AncestorAt(store, h, n)].txs
  }

  /** No transaction occurs at two heights of the chain of `h`. */
  ghost predicate NoRepeat(store: Store, h: Hash)
    requires Closed(store) && h in store
  {
    forall t, m, n :: InChain(store, h, t, m) && InChain(store, h, t, n) ==> m == n
  }

  lemma {:induction false} IndexedIsInChain(store: Store, genesis: Block, h: Hash, t: Tx)
    requires WellFormed(store, genesis) && h in store && t in Index(store, h)
    ensures InChain(store, h, t, Index(store, h)[t])
    decreases store[h].number
  {
    assert Placed(store, h);
    if t !in store[h].txs {
      IndexedIsInChain(store, genesis, store[h].parent, t);
    }
  }

  lemma {:induction false} InChainIsIndexed(store: Store, genesis: Block, h: Hash, t: Tx, n: nat)
    requires WellFormed(store, genesis) && h in store && InChain(store, h, t, n)
    ensures t in Index(store, h)
    decreases store[h].number
  {
    assert Placed(store, h);
    if n < store[h].number {
      InChainIsIndexed(store, genesis, store[h].parent, t, n);
    }
  }

  /** Without repeats the index holds exactly the chain's transactions, each at its block's height. */
  lemma {:induction false} IndexExact(store: Store, genesis: Block, h: Hash)
    requires WellFormed(store, genesis) && h in store && NoRepeat(store, h)
    ensures forall t, n: nat ::
              (t in Index(store, h) && Index(store, h)[t] == n) <==> InChain(store, h, t, n)
  {
    forall t, n: nat
      ensures (t in Index(store, h) && Index(store, h)[t] == n) <==> InChain(store, h, t, n)
    {
      if t in Index(store, h) {
        IndexedIsInChain(store, genesis, h, t);
      }
      if InChain(store, h, t, n) {
        InChainIsIndexed(store, genesis, h, t, n);
      }
    }
  }

  /** Re-writing the top block of a chain leaves its index as it is. */
  lemma {:induction false} IndexIdempotent(store: Store, genesis: Block, h: Hash)
    requires WellFormed(store, genesis) && h in store
    ensures Index(store, h) + Entries(store[h]) == Index(store, h)
  {
    assert Placed(store, h);
  }

  lemma {:induction false} NoRepeatStable(small: Store, big: Store, h: Hash)
    requires Closed(small) && Closed(big) && Extends(small, big) && h in small
    ensures NoRepeat(small, h) <==> NoRepeat(big, h)
  {
    forall t, n: nat
      ensures InChain(small, h, t, n) <==> InChain(big, h, t, n)
    {
      if n <= small[h].number { AncestorStable(small, big, h, n); }
    }
  }

  /** No transaction occurs twice on any one chain of the store. */
  ghost predicate NoRepeats(store: Store)
    requires Closed(store)
  {
    forall h {:trigger NoRepeat(store, h)} :: h in store ==> NoRepeat(store, h)
  }

  lemma {:induction false} NoRepeatsShrinks(small: Store, big: Store, h: Hash)
    requires Closed(small) && Closed(big) && Extends(small, big) && NoRepeats(big) && h in small
    ensures NoRepeat(small, h)
  {
    NoRepeatStable(small, big, h);
    assert NoRepeat(big, h);
  }

  // ----- batches

  /** A validated batch: each block is the parent of the next, and hashes identify blocks. */
  ghost predicate Linked(store: Store, batch: seq<Block>)
  {
    && (forall i :: 0 < i < |batch| ==>
          batch[i].parent == batch[i - 1].hash && batch[i].number == batch[i - 1].number + 1)
    && (forall i :: 0 <= i < |batch| ==> Fits(store, batch[i]))
    && (forall i, j :: 0 <= i < j < |batch| ==> batch[i].hash != batch[j].hash)
  }

  /** A non-empty validated batch on a stored parent. */
  ghost predicate Importable(store: Store, batch: seq<Block>)
  {
    && batch != []
    && Get(store, batch[0].parent, batch[0].number - 1).Some?
    && Linked(store, batch)
  }

  /** The store after the first `i` blocks of a batch have joined it. */
  ghost function Joined(before: Store, batch: seq<Block>, i: nat): Store
    requires i <= |batch|
  {
    if i == 0 then before else Joined(before, batch, i - 1)[batch[i - 1].hash := batch[i - 1]]
  }

  lemma {:induction false} JoinedKeeps(before: Store, batch: seq<Block>, i: nat, h: Hash)
    requires i <= |batch|
    requires forall k :: 0 <= k < i ==> batch[k].hash != h
    ensures h in Joined(before, batch, i) <==> h in before
    ensures h in before ==> Joined(before, batch, i)[h] == before[h]
  {
    if i > 0 {
      JoinedKeeps(before, batch, i - 1, h);
    }
  }

  /** A batch that joined is wholly stored. */
  lemma {:induction false} JoinedHolds(before: Store, batch: seq<Block>, i: nat, k: nat)
    requires k < i <= |batch|
    requires forall i, j :: 0 <= i < j < |batch| ==> batch[i].hash != batch[j].hash
    ensures batch[k].hash in Joined(before, batch, i) && Joined(before, batch, i)[batch[k].hash] == batch[k]
  {
    if k < i - 1 {
      JoinedHolds(before, batch, i - 1, k);
    }
  }

  lemma {:induction false} ImportableNext(before: Store, batch: seq<Block>, i: nat)
    requires Importable(before, batch) && i < |batch|
    ensures Fits(Joined(before, batch, i), batch[i])
    ensures Get(Joined(before, batch, i), batch[i].parent, batch[i].number - 1).Some?
  {
    assert Fits(before, batch[i]);
    JoinedKeeps(before, batch, i, batch[i].hash);
    if i > 0 {
      JoinedHolds(before, batch, i, i - 1);
    }
  }

  // ----- number-to-hash maps

  /** Reading a number that has no entry yields the zero hash. */
  function ReadCanonical(canonical: map<nat, Hash>, n: nat): Hash
  {
    if n in canonical then canonical[n] else ZERO
  }

  /** Reads a number-to-hash map upwards from above `number` until the first missing entry. */
  method EntriesAbove(canonical: map<nat, Hash>, number: nat) returns (doomed: set<nat>, end: nat)
    ensures number < end && end !in canonical
    ensures forall n: nat :: n in doomed <==> number < n < end
    ensures forall n: nat :: number < n < end ==> n in canonical
  {
    doomed, end := {}, number + 1;
    while end in canonical
      invariant number < end
      invariant forall n: nat :: n in doomed <==> number < n < end
      invariant forall n: nat :: number < n < end ==> n in canonical
      decreases canonical.Keys - doomed
    {
      doomed := doomed + {end};
      end := end + 1;
    }
  }
}
