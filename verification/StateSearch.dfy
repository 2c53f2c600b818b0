/**
 The search for a head block whose state is available, at or below the block that carries a
 requested state root.
 */
module StateSearch {
  import opened BlockTree

  /** What is searched for: the states that are present, the state root requested, or ZERO, and the
      sync pivot. */
  datatype Query = Query(states: set<Hash>, root: Hash, pivot: Option<nat>)

  /** What remains of a store after everything above height `n` is gone. */
  ghost function UpTo(headers: Store, n: nat): Store
  {
    map h | h in headers && headers[h].number <= n :: headers[h]
  }

  lemma {:induction false} UpToWellFormed(headers: Store, genesis: Block, n: nat)
    requires WellFormed(headers, genesis)
    ensures WellFormed(UpTo(headers, n), genesis)
    ensures Extends(UpTo(headers, n), headers)
  {
    forall h | h in UpTo(headers, n)
      ensures Placed(UpTo(headers, n), h)
    {
      assert Placed(headers, h);
    }
  }

  ghost predicate StatefulAt(blocks: Store, q: Query, start: Hash, n: nat)
    requires Closed(blocks) && start in blocks && n <= blocks[start].number
  {
    blocks[AncestorAt(blocks, start, n)].root in q.states
  }

  /** The block at height `m` of the chain of `start` carries the requested root. */
  ghost predicate RootAt(blocks: Store, q: Query, start: Hash, m: nat)
    requires Closed(blocks) && start in blocks
  {
    m <= blocks[start].number && blocks[AncestorAt(blocks, start, m)].root == q.root
  }

  /** Height `n` lies at or below a block carrying the requested root; without a root, always. */
  ghost predicate Beyond(blocks: Store, q: Query, start: Hash, n: int)
    requires Closed(blocks) && start in blocks
  {
    q.root == ZERO || exists m: nat :: n <= m && RootAt(blocks, q, start, m)
  }

  /** The search may settle at height `n`. */
  ghost predicate Settles(blocks: Store, q: Query, start: Hash, n: nat)
    requires Closed(blocks) && start in blocks && n <= blocks[start].number
  {
    StatefulAt(blocks, q, start, n) && Beyond(blocks, q, start, n)
  }

  /** The search gives up at height `n`: no state there, and the sync pivot has been passed. */
  ghost predicate Cut(blocks: Store, q: Query, start: Hash, n: nat)
    requires Closed(blocks) && start in blocks && n <= blocks[start].number
  {
    !StatefulAt(blocks, q, start, n) && q.pivot.Some? && n <= q.pivot.value
  }

  /** `r` is the highest block of the chain of `start` where the search settles with no cut on the
      way down, or the genesis block if there is none. */
  ghost predicate Picked(blocks: Store, genesis: Block, q: Query, start: Hash, r: Block)
    requires Closed(blocks) && start in blocks
  {
    && r.number <= blocks[start].number
    && r.hash in blocks && blocks[r.hash] == r
    && r.hash == AncestorAt(blocks, start, r.number)
    && (r.number > 0 ==>
          && Settles(blocks, q, start, r.number)
          && forall m: nat :: r.number < m <= blocks[start].number ==>
               !Settles(blocks, q, start, m) && !Cut(blocks, q, start, m))
    && (r.number == 0 ==>
          && r == genesis
          && forall n: nat :: 0 < n <= blocks[start].number && Settles(blocks, q, start, n) ==>
            exists m: nat :: n < m <= blocks[start].number && Cut(blocks, q, start, m))
  }

  /** Without a pivot there is no cut, so the pick is the highest block that settles. */
  lemma {:induction false} PickedWithoutPivot(blocks: Store, genesis: Block, q: Query, start: Hash, r: Block)
    requires WellFormed(blocks, genesis) && start in blocks && q.pivot.None?
    requires Picked(blocks, genesis, q, start, r)
    ensures r.number > 0 ==> Settles(blocks, q, start, r.number)
    ensures forall m: nat :: r.number < m <= blocks[start].number ==> !Settles(blocks, q, start, m)
  {
  }

  lemma {:induction false} PickedUnique(blocks: Store, genesis: Block, q: Query, start: Hash, r: Block, s: Block)
    requires WellFormed(blocks, genesis) && start in blocks
    requires Picked(blocks, genesis, q, start, r) && Picked(blocks, genesis, q, start, s)
    ensures r == s
  {
  }

  lemma {:induction false} BeyondStep(blocks: Store, q: Query, start: Hash, n: nat)
    requires Closed(blocks) && start in blocks && n <= blocks[start].number
    ensures Beyond(blocks, q, start, n) <==>
              Beyond(blocks, q, start, n + 1) || blocks[AncestorAt(blocks, start, n)].root == q.root
  {
    if blocks[AncestorAt(blocks, start, n)].root == q.root {
      assert RootAt(blocks, q, start, n);
    }
  }

  ghost predicate HighestRoot(blocks: Store, q: Query, start: Hash, n: nat)
    requires Closed(blocks) && start in blocks
  {
    RootAt(blocks, q, start, n) && forall m: nat :: n < m ==> !RootAt(blocks, q, start, m)
  }

  /** The root number after a search: the highest height with the requested root, or what it was
      before if no block of the chain carries it. */
  ghost predicate RootFound(blocks: Store, q: Query, start: Hash, before: nat, after: nat)
    requires Closed(blocks) && start in blocks
  {
    if q.root != ZERO && Beyond(blocks, q, start, 0) then HighestRoot(blocks, q, start, after) else after == before
  }

  // ----- where the search falls off the chain

  /** The block `k` parent links below `b`, as far as bodies are stored. */
  ghost function Down(blocks: Store, b: Block, k: nat): Option<Block>
  {
    if k == 0 then Some(b)
    else
      var c := Down(blocks, b, k - 1);
      if c.None? then None else Get(blocks, c.value.parent, c.value.number - 1)
  }

  /** The search goes past the `j`-th block below the start: it does not carry the root, and either it
      has state or the pivot is still below it. */
  ghost predicate Passed(blocks: Store, q: Query, start: Block, j: nat)
  {
    && Down(blocks, start, j).Some?
    && var b := Down(blocks, start, j).value;
       b.root != q.root && (b.root in q.states || q.pivot.None? || b.number > q.pivot.value)
  }

  ghost predicate DanglesAt(blocks: Store, q: Query, start: Block, k: nat)
  {
    && (forall j: nat :: j <= k ==> Passed(blocks, q, start, j))
    && Down(blocks, start, k).Some?
    && var b := Down(blocks, start, k).value;
       b.number > 0 && b.root in q.states && Get(blocks, b.parent, b.number - 1).None?
  }

  /** Before any block with the requested root, and before any cut, the walk comes to a block above
      height zero that has state and whose parent's body is missing. */
  ghost predicate Dangles(blocks: Store, q: Query, start: Block)
  {
    q.root != ZERO && exists k: nat :: DanglesAt(blocks, q, start, k)
  }

  lemma {:induction false} DownStays(blocks: Store, b: Block, j: nat, k: nat)
    requires j <= k && Down(blocks, b, k).Some?
    ensures Down(blocks, b, j).Some?
    decreases k
  {
    if j < k {
      DownStays(blocks, b, j, k - 1);
    }
  }

  /** A block at which the search stops, or that carries the root, rules a fall out. */
  lemma {:induction false} Holds(blocks: Store, q: Query, start: Block, k: nat)
    requires Down(blocks, start, k).Some?
    requires var b := Down(blocks, start, k).value;
             || b.root == q.root || b.number == 0
             || (&& b.root !in q.states
                 && (Get(blocks, b.parent, b.number - 1).None? || (q.pivot.Some? && b.number <= q.pivot.value)))
    ensures !Dangles(blocks, q, start)
  {
    forall m: nat
      ensures !DanglesAt(blocks, q, start, m)
    {
      if DanglesAt(blocks, q, start, m) {
        assert Down(blocks, start, m + 1).None?;
        if m < k {
          DownStays(blocks, start, m + 1, k);
        } else {
          assert Passed(blocks, q, start, k) && Passed(blocks, q, start, m);
          if k < m {
            DownStays(blocks, start, k + 1, m);
          }
        }
        assert false;
      }
    }
  }

  // ----- what the search keeps on a closed store

  /** Nothing above height `n` settled or cut the search. */
  ghost predicate NothingAbove(blocks: Store, q: Query, start: Hash, n: nat)
    requires Closed(blocks) && start in blocks
  {
    forall m: nat :: n < m <= blocks[start].number ==> !Settles(blocks, q, start, m) && !Cut(blocks, q, start, m)
  }

  /** How far a search has come: the block it is at, whether it has seen the root, and the number of
      the block it saw it in, or `before`. */
  datatype Progress = Progress(block: Block, beyond: bool, before: nat, rootNumber: nat)

  /** The root has been looked for down to height `from`. */
  ghost predicate Searching(blocks: Store, q: Query, start: Hash, p: Progress, from: nat)
    requires Closed(blocks) && start in blocks
  {
    var b := p.block;
    && b.number <= blocks[start].number && b.hash == AncestorAt(blocks, start, b.number) && blocks[b.hash] == b
    && (p.beyond <==> Beyond(blocks, q, start, from))
    && (if q.root != ZERO && p.beyond then HighestRoot(blocks, q, start, p.rootNumber) else p.rootNumber == p.before)
    && NothingAbove(blocks, q, start, b.number)
  }

  function RootChecked(q: Query, p: Progress): Progress
  {
    if p.beyond || p.block.root != q.root then p else p.(beyond := true, rootNumber := p.block.number)
  }

  lemma {:induction false} CheckRoot(blocks: Store, q: Query, start: Hash, p: Progress)
    requires Closed(blocks) && start in blocks && Searching(blocks, q, start, p, p.block.number + 1)
    requires q.root == ZERO ==> p.beyond
    ensures Searching(blocks, q, start, RootChecked(q, p), p.block.number)
  {
    BeyondStep(blocks, q, start, p.block.number);
    if !p.beyond && p.block.root == q.root {
      assert RootAt(blocks, q, start, p.block.number);
    }
  }

  lemma {:induction false} SearchStep(blocks: Store, genesis: Block, q: Query, start: Hash, p: Progress)
    requires WellFormed(blocks, genesis) && start in blocks && Searching(blocks, q, start, p, p.block.number)
    requires 0 < p.block.number && !(p.block.root in q.states && p.beyond)
    requires p.block.root in q.states || q.pivot.None? || q.pivot.value < p.block.number
    ensures p.block.parent in blocks && blocks[p.block.parent].number == p.block.number - 1
    ensures Searching(blocks, q, start, p.(block := blocks[p.block.parent]), p.block.number)
  {
    var b := p.block;
    assert Placed(blocks, b.hash);
    AncestorParent(blocks, start, b.number);
    assert Placed(blocks, b.parent);
    forall m: nat | b.number - 1 < m <= blocks[start].number
      ensures !Settles(blocks, q, start, m) && !Cut(blocks, q, start, m)
    {
      assert m == b.number || b.number < m;
    }
  }

  lemma {:induction false} SearchCut(blocks: Store, genesis: Block, q: Query, start: Hash, p: Progress)
    requires WellFormed(blocks, genesis) && start in blocks && Searching(blocks, q, start, p, p.block.number)
    requires p.block.root !in q.states && (p.block.number == 0 || (q.pivot.Some? && p.block.number <= q.pivot.value))
    ensures Picked(blocks, genesis, q, start, genesis)
    ensures q.pivot.None? ==> RootFound(blocks, q, start, p.before, p.rootNumber)
  {
    DescendsFromGenesis(blocks, genesis, start);
    forall n: nat | 0 < n <= blocks[start].number && Settles(blocks, q, start, n)
      ensures exists m: nat :: n < m <= blocks[start].number && Cut(blocks, q, start, m)
    {
      assert n <= p.block.number;
      assert Cut(blocks, q, start, p.block.number);
    }
  }

  lemma {:induction false} SearchEnds(blocks: Store, genesis: Block, q: Query, start: Hash, p: Progress)
    requires WellFormed(blocks, genesis) && start in blocks && Searching(blocks, q, start, p, p.block.number)
    requires p.block.root in q.states && (p.beyond || p.block.number == 0)
    ensures Picked(blocks, genesis, q, start, p.block)
    ensures RootFound(blocks, q, start, p.before, p.rootNumber)
  {
  }

  /** Walks down from `start` to a block whose state is available, at or below the block carrying the
      root when one is requested.  `None` stands for the nil dereference that follows when a block
      body is missing below a block skipped for the sake of the root.  `rootNumber` is the number of
      the block found with the root, and otherwise stays what it was. */
  method FindStateful(blocks: Store, genesis: Block, q: Query, start: Block, before: nat)
    returns (found: Option<Block>, rootNumber: nat)
    requires genesis.number == 0 && genesis.hash in blocks && blocks[genesis.hash] == genesis
    requires start.hash in blocks && blocks[start.hash] == start
    requires forall h :: h in blocks ==> blocks[h].hash == h
    ensures found.None? <==> Dangles(blocks, q, start)
    ensures found.Some? ==> found.value.number <= start.number
    ensures WellFormed(UpTo(blocks, start.number), genesis) ==>
              var below := UpTo(blocks, start.number);
              && found.Some? && Picked(below, genesis, q, start.hash, found.value)
              && (rootNumber == before || HighestRoot(below, q, start.hash, rootNumber))
              && (q.pivot.None? ==> RootFound(below, q, start.hash, before, rootNumber))
  {
    rootNumber := before;
    var b := start;
    var beyondRoot := q.root == ZERO;
    ghost var below := UpTo(blocks, start.number);
    ghost var closed := WellFormed(below, genesis);
    ghost var k: nat := 0;
    while true
      invariant b.number <= start.number && b.hash in blocks && blocks[b.hash] == b
      invariant Down(blocks, start, k) == Some(b)
      invariant beyondRoot ==> !Dangles(blocks, q, start)
      invariant !beyondRoot ==> q.root != ZERO && forall j: nat :: j < k ==> Passed(blocks, q, start, j)
      invariant closed ==>
                  Searching(below, q, start.hash, Progress(b, beyondRoot, before, rootNumber), b.number + 1)
      decreases b.number
    {
      if closed {
        CheckRoot(below, q, start.hash, Progress(b, beyondRoot, before, rootNumber));
      }
      if q.root != ZERO && !beyondRoot && b.root == q.root {
        Holds(blocks, q, start, k);
        beyondRoot, rootNumber := true, b.number;
      }
      ghost var p := Progress(b, beyondRoot, before, rootNumber);
      if b.root !in q.states {
        if q.pivot.None? || b.number > q.pivot.value {
          var parent := Get(blocks, b.parent, b.number - 1);
          if parent.Some? {
            if closed {
              SearchStep(below, genesis, q, start.hash, p);
            }
            b, k := parent.value, k + 1;
            continue;
          }
        }
        Holds(blocks, q, start, k);
        if closed {
          assert Placed(below, b.hash);
          SearchCut(below, genesis, q, start.hash, p);
        }
        return Some(genesis), rootNumber;
      }
      if beyondRoot || b.number == 0 {
        if b.number == 0 {
          Holds(blocks, q, start, k);
        }
        if closed {
          SearchEnds(below, genesis, q, start.hash, p);
        }
        return Some(b), rootNumber;
      }
      if closed {
        SearchStep(below, genesis, q, start.hash, p);
      }
      var parent := Get(blocks, b.parent, b.number - 1);
      if parent.None? {
        assert DanglesAt(blocks, q, start, k);
        return None, rootNumber;
      }
      b, k := parent.value, k + 1;
    }
  }

  /** A search that falls: block 3 at height two has state but does not carry the root 9 asked for, and
      the body of its parent is missing. */
  lemma {:induction false} FallWitness()
    ensures var genesis, block := Block(1, ZERO, 0, 0, 5, 0, []), Block(3, 2, 2, 0, 6, 0, []);
            Dangles(map[1 := genesis, 3 := block], Query({5, 6}, 9, None), block)
  {
    var genesis, block := Block(1, ZERO, 0, 0, 5, 0, []), Block(3, 2, 2, 0, 6, 0, []);
    assert DanglesAt(map[1 := genesis, 3 := block], Query({5, 6}, 9, None), block, 0);
  }

  // ----- searching again from further down

  lemma {:induction false} RootAtStable(blocks: Store, genesis: Block, q: Query, start: Hash, m: nat)
    requires WellFormed(blocks, genesis) && start in blocks
    ensures var below := UpTo(blocks, blocks[start].number);
            WellFormed(below, genesis) && (RootAt(below, q, start, m) <==> RootAt(blocks, q, start, m))
  {
    UpToWellFormed(blocks, genesis, blocks[start].number);
    if m <= blocks[start].number {
      AncestorStable(UpTo(blocks, blocks[start].number), blocks, start, m);
    }
  }

  /** Blocks above the start do not matter to the search. */
  lemma {:induction false} HeightStable(blocks: Store, genesis: Block, q: Query, start: Hash, m: nat)
    requires WellFormed(blocks, genesis) && start in blocks && m <= blocks[start].number
    ensures var below := UpTo(blocks, blocks[start].number);
            && WellFormed(below, genesis)
            && (Settles(below, q, start, m) <==> Settles(blocks, q, start, m))
            && (Cut(below, q, start, m) <==> Cut(blocks, q, start, m))
  {
    var below := UpTo(blocks, blocks[start].number);
    UpToWellFormed(blocks, genesis, blocks[start].number);
    AncestorStable(below, blocks, start, m);
    forall k: nat
      ensures RootAt(below, q, start, k) <==> RootAt(blocks, q, start, k)
    {
      RootAtStable(blocks, genesis, q, start, k);
    }
  }

  lemma {:induction false} PickedStable(blocks: Store, genesis: Block, q: Query, start: Hash, r: Block)
    requires WellFormed(blocks, genesis) && start in blocks
    requires var below := UpTo(blocks, blocks[start].number);
             WellFormed(below, genesis) && Picked(below, genesis, q, start, r)
    ensures Picked(blocks, genesis, q, start, r)
  {
    var below := UpTo(blocks, blocks[start].number);
    AncestorStable(below, blocks, start, r.number);
    forall m: nat | m <= blocks[start].number
      ensures Settles(below, q, start, m) <==> Settles(blocks, q, start, m)
      ensures Cut(below, q, start, m) <==> Cut(blocks, q, start, m)
    {
      HeightStable(blocks, genesis, q, start, m);
    }
  }

  lemma {:induction false} RootFoundStable(blocks: Store, genesis: Block, q: Query, start: Hash, before: nat,
                                           after: nat)
    requires WellFormed(blocks, genesis) && start in blocks
    requires var below := UpTo(blocks, blocks[start].number);
             WellFormed(below, genesis) && RootFound(below, q, start, before, after)
    ensures RootFound(blocks, q, start, before, after)
  {
    forall k: nat
      ensures RootAt(UpTo(blocks, blocks[start].number), q, start, k) <==> RootAt(blocks, q, start, k)
    {
      RootAtStable(blocks, genesis, q, start, k);
    }
  }

  /** `r` is the highest block with state in the chain of `start`, or the genesis block if none has. */
  ghost predicate HighestStateful(blocks: Store, genesis: Block, q: Query, start: Hash, r: Block)
    requires Closed(blocks) && start in blocks
  {
    && r.number <= blocks[start].number && r.hash == AncestorAt(blocks, start, r.number) && blocks[r.hash] == r
    && (r.number > 0 ==> r.root in q.states) && (r.number == 0 ==> r == genesis)
    && forall m: nat :: r.number < m <= blocks[start].number ==> !StatefulAt(blocks, q, start, m)
  }

  /** Without root and pivot the pick is the highest block with state. */
  lemma {:induction false} PickedIsHighest(blocks: Store, genesis: Block, q: Query, start: Hash, r: Block)
    requires WellFormed(blocks, genesis) && start in blocks && q.root == ZERO && q.pivot.None?
    requires Picked(blocks, genesis, q, start, r)
    ensures HighestStateful(blocks, genesis, q, start, r)
  {
    forall m: nat | r.number < m <= blocks[start].number
      ensures !StatefulAt(blocks, q, start, m)
    {
      assert !Settles(blocks, q, start, m);
    }
  }

  /** Starting further down, but not below it, finds the same block. */
  lemma {:induction false} HighestFromBelow(blocks: Store, genesis: Block, q: Query, start: Hash, n: nat, r: Block)
    requires Closed(blocks) && start in blocks && HighestStateful(blocks, genesis, q, start, r)
    requires r.number <= n <= blocks[start].number
    ensures HighestStateful(blocks, genesis, q, AncestorAt(blocks, start, n), r)
  {
    AncestorOfAncestor(blocks, start, n, r.number);
    forall m: nat | r.number < m <= n
      ensures !StatefulAt(blocks, q, AncestorAt(blocks, start, n), m)
    {
      AncestorOfAncestor(blocks, start, n, m);
      assert !StatefulAt(blocks, q, start, m);
    }
  }

  /** A search for a root started at or below height `n`, below which no block carries it, ends at
      genesis whatever state there is. */
  lemma {:induction false} GivesUp(blocks: Store, genesis: Block, q: Query, start: Hash, n: nat, again: Block)
    requires WellFormed(blocks, genesis) && start in blocks && q.root != ZERO && n <= blocks[start].number
    requires forall m: nat :: m <= n ==> !RootAt(blocks, q, start, m)
    requires Picked(blocks, genesis, q, AncestorAt(blocks, start, n), again)
    ensures again == genesis
    ensures !Beyond(blocks, q, AncestorAt(blocks, start, n), 0)
  {
    forall m: nat | m <= n
      ensures !RootAt(blocks, q, AncestorAt(blocks, start, n), m)
    {
      AncestorOfAncestor(blocks, start, n, m);
      assert !RootAt(blocks, q, start, m);
    }
  }
}
