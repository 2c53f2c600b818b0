/**
 The header chain: headers with their total difficulties, the canonical number-to-hash map and
 the head header.  The least-recently-used caches are left out; reads go to the database.
 */
module HeaderChain {
  import opened BlockTree
  import opened ForkChoice
  import L = Ledger

  datatype Error = UnknownAncestor | Aborted | MissingTotal | MissingParent

  datatype Status = NonStat | Canon | Side

  /** Storing one more header of a batch: the totals stay right and so does the running total. */
  lemma {:induction false} JoinOne(before: Store, genesis: Block, td: map<Hash, nat>, batch: seq<Block>, i: nat)
    requires Importable(before, batch) && i < |batch|
    requires WellFormed(Joined(before, batch, i), genesis) && TotalsCorrect(Joined(before, batch, i), td)
    ensures batch[i].parent in td && batch[i].number > 0
    ensures var b := batch[i]; var store := Joined(before, batch, i + 1);
            && WellFormed(store, genesis)
            && TotalsCorrect(store, td[b.hash := td[b.parent] + b.difficulty])
            && TotalDifficulty(store, b.hash) == td[b.parent] + b.difficulty
            && (b.hash in Joined(before, batch, i) ==>
                  store == Joined(before, batch, i) && td[b.hash] == td[b.parent] + b.difficulty)
  {
    var b, store := batch[i], Joined(before, batch, i);
    ImportableNext(before, batch, i);
    InsertKeepsTotals(store, genesis, td, b);
    if b.hash in store {
      assert td[b.hash] == TotalDifficulty(store, b.hash);
      assert td[b.parent] == TotalDifficulty(store, b.parent);
    }
  }

  /** A header that was stored before its batch arrived had its batch predecessor stored too. */
  lemma {:induction false} KnownPrefix(before: Store, batch: seq<Block>, i: nat)
    requires Closed(before) && Linked(before, batch) && 0 < i < |batch| && batch[i].hash in before
    ensures batch[i - 1].hash in before
  {
    assert Fits(before, batch[i]);
    assert Placed(before, batch[i].hash);
  }

  /** Headers and totals with the first `i` headers of a batch written; `total` is that of the next
      header's parent. */
  ghost predicate Pending(before: Store, genesis: Block, headers: Store, td: map<Hash, nat>, batch: seq<Block>,
                          i: nat, total: nat)
    requires i <= |batch|
  {
    && headers == Joined(before, batch, i)
    && WellFormed(headers, genesis)
    && TotalsCorrect(headers, td)
    && (i < |batch| ==> batch[i].parent in td && total == td[batch[i].parent])
  }

  lemma {:induction false} UpdateInBatch<V>(a: map<Hash, V>, b: map<Hash, V>, h: Hash, v: V)
    ensures a + b[h := v] == (a + b)[h := v]
  {
  }

  lemma {:induction false} PendingNew(before: Store, genesis: Block, headers: Store, td: map<Hash, nat>,
                                      batch: seq<Block>, i: nat, total: nat)
    requires Importable(before, batch) && i < |batch|
    requires Pending(before, genesis, headers, td, batch, i, total)
    ensures var b := batch[i];
            Pending(before, genesis, headers[b.hash := b], td[b.hash := total + b.difficulty], batch, i + 1,
                    total + b.difficulty)
  {
    JoinOne(before, genesis, td, batch, i);
  }

  lemma {:induction false} PendingKnown(before: Store, genesis: Block, headers: Store, td: map<Hash, nat>,
                                        batch: seq<Block>, i: nat, total: nat)
    requires Importable(before, batch) && i < |batch| && batch[i].hash in headers
    requires Pending(before, genesis, headers, td, batch, i, total)
    ensures Pending(before, genesis, headers, td, batch, i + 1, total + batch[i].difficulty)
  {
    JoinOne(before, genesis, td, batch, i);
  }

  /** The same with the writes collected apart from the database. */
  ghost predicate Collected(headers: Store, td: map<Hash, nat>, genesis: Block, newHeaders: Store,
                            newTd: map<Hash, nat>, batch: seq<Block>, i: nat, total: nat)
    requires i <= |batch|
  {
    && Pending(headers, genesis, headers + newHeaders, td + newTd, batch, i, total)
    && newHeaders.Keys !! headers.Keys
  }

  lemma {:induction false} CollectNew(headers: Store, td: map<Hash, nat>, genesis: Block, newHeaders: Store,
                                      newTd: map<Hash, nat>, batch: seq<Block>, i: nat, total: nat)
    requires Importable(headers, batch) && i < |batch| && batch[i].hash !in headers
    requires Collected(headers, td, genesis, newHeaders, newTd, batch, i, total)
    ensures var b := batch[i]; var sum := total + b.difficulty;
            Collected(headers, td, genesis, newHeaders[b.hash := b], newTd[b.hash := sum], batch, i + 1, sum)
  {
    var b := batch[i];
    PendingNew(headers, genesis, headers + newHeaders, td + newTd, batch, i, total);
    UpdateInBatch(headers, newHeaders, b.hash, b);
    UpdateInBatch(td, newTd, b.hash, total + b.difficulty);
    CollectedFrom(headers, td, genesis, newHeaders[b.hash := b], newTd[b.hash := total + b.difficulty], batch, i + 1,
                  total + b.difficulty, (headers + newHeaders)[b.hash := b],
                  (td + newTd)[b.hash := total + b.difficulty]);
  }

  lemma {:induction false} CollectedFrom(headers: Store, td: map<Hash, nat>, genesis: Block, newHeaders: Store,
                                         newTd: map<Hash, nat>, batch: seq<Block>, i: nat, total: nat, all: Store,
                                         totals: map<Hash, nat>)
    requires i <= |batch| && Pending(headers, genesis, all, totals, batch, i, total)
    requires all == headers + newHeaders && totals == td + newTd && newHeaders.Keys !! headers.Keys
    ensures Collected(headers, td, genesis, newHeaders, newTd, batch, i, total)
  {
  }

  lemma {:induction false} CollectKnown(headers: Store, td: map<Hash, nat>, genesis: Block, newHeaders: Store,
                                        newTd: map<Hash, nat>, batch: seq<Block>, i: nat, total: nat)
    requires Importable(headers, batch) && i < |batch| && batch[i].hash in headers
    requires Collected(headers, td, genesis, newHeaders, newTd, batch, i, total)
    ensures Collected(headers, td, genesis, newHeaders, newTd, batch, i + 1, total + batch[i].difficulty)
  {
    PendingKnown(headers, genesis, headers + newHeaders, td + newTd, batch, i, total);
  }

  /** Before the first header nothing is collected. */
  lemma {:induction false} CollectStarts(headers: Store, td: map<Hash, nat>, genesis: Block, batch: seq<Block>)
    requires WellFormed(headers, genesis) && TotalsCorrect(headers, td) && Importable(headers, batch)
    ensures batch[0].parent in td && Collected(headers, td, genesis, map[], map[], batch, 0, td[batch[0].parent])
  {
    assert td + map[] == td && headers + map[] == headers;
  }

  lemma {:induction false} CollectEnds(headers: Store, newHeaders: Store)
    requires newHeaders.Keys !! headers.Keys
    ensures Extends(headers, headers + newHeaders)
  {
  }

  /** The first `i` headers of a batch are known up to `known`, and `last` tells about the last. */
  ghost predicate KnownUpTo(headers: Store, batch: seq<Block>, i: nat, known: nat, last: bool)
    requires i <= |batch|
  {
    && known <= i
    && (forall k :: 0 <= k < i ==> (batch[k].hash in headers <==> k < known))
    && (last <==> known == i)
  }

  lemma {:induction false} KnownStep(headers: Store, batch: seq<Block>, i: nat, known: nat, last: bool)
    requires Closed(headers) && Linked(headers, batch) && i < |batch| && KnownUpTo(headers, batch, i, known, last)
    ensures batch[i].hash in headers ==> last
    ensures var here := last && batch[i].hash in headers;
            KnownUpTo(headers, batch, i + 1, if here then known + 1 else known, here)
  {
    if 0 < i && batch[i].hash in headers {
      KnownPrefix(headers, batch, i);
    }
  }

  /** Collects the writes for a batch.  A header counts as known only while its predecessor was
      known, which in a closed database is the same as being stored. */
  method Collect(headers: Store, td: map<Hash, nat>, ghost genesis: Block, batch: seq<Block>, parentTd: nat)
    returns (newHeaders: Store, newTd: map<Hash, nat>, inserted: nat, ghost known: nat)
    requires WellFormed(headers, genesis) && TotalsCorrect(headers, td) && Importable(headers, batch)
    requires parentTd == td[batch[0].parent]
    ensures headers + newHeaders == Joined(headers, batch, |batch|)
    ensures WellFormed(headers + newHeaders, genesis) && TotalsCorrect(headers + newHeaders, td + newTd)
    ensures known <= |batch| && inserted == |batch| - known
    ensures forall i :: 0 <= i < |batch| ==> (batch[i].hash in headers <==> i < known)
    ensures Extends(headers, headers + newHeaders)
  {
    var total: nat := parentTd;
    var parentKnown := true;
    newHeaders, newTd, inserted, known := map[], map[], 0, 0;
    CollectStarts(headers, td, genesis, batch);
    for i := 0 to |batch|
      invariant Collected(headers, td, genesis, newHeaders, newTd, batch, i, total)
      invariant KnownUpTo(headers, batch, i, known, parentKnown) && inserted == i - known
    {
      var b := batch[i];
      KnownStep(headers, batch, i, known, parentKnown);
      var alreadyKnown := parentKnown && b.hash in headers;
      if alreadyKnown {
        CollectKnown(headers, td, genesis, newHeaders, newTd, batch, i, total);
        known := known + 1;
      } else {
        CollectNew(headers, td, genesis, newHeaders, newTd, batch, i, total);
      }
      total := total + b.difficulty;
      if !alreadyKnown {
        newTd := newTd[b.hash := total];
        newHeaders := newHeaders[b.hash := b];
        inserted := inserted + 1;
      }
      parentKnown := alreadyKnown;
    }
    CollectEnds(headers, newHeaders);
  }

  /** The batch is stored and linked, so its blocks are ancestors of its last block. */
  ghost predicate StoredBatch(headers: Store, batch: seq<Block>)
  {
    && batch != []
    && batch[0].number > 0
    && (forall i :: 0 <= i < |batch| ==> batch[i].hash in headers && headers[batch[i].hash] == batch[i])
    && (forall i :: 0 <= i < |batch| ==> batch[i].number == batch[0].number + i)
    && (forall i :: 0 < i < |batch| ==> batch[i].parent == batch[i - 1].hash)
  }

  lemma {:induction false} BatchAncestor(headers: Store, batch: seq<Block>, k: nat)
    requires Closed(headers) && StoredBatch(headers, batch) && k < |batch|
    ensures AncestorAt(headers, batch[|batch| - 1].hash, batch[k].number) == batch[k].hash
    decreases |batch| - k
  {
    var last := batch[|batch| - 1];
    if k + 1 < |batch| {
      BatchAncestor(headers, batch, k + 1);
      AncestorParent(headers, last.hash, batch[k + 1].number);
    }
  }

  /** Below a batch the path of its last header is the path of its first. */
  lemma {:induction false} BelowBatch(headers: Store, batch: seq<Block>, n: nat)
    requires Closed(headers) && StoredBatch(headers, batch) && n <= batch[0].number
    ensures AncestorAt(headers, batch[|batch| - 1].hash, n) == AncestorAt(headers, batch[0].hash, n)
  {
    BatchAncestor(headers, batch, 0);
    AncestorOfAncestor(headers, batch[|batch| - 1].hash, batch[0].number, n);
  }

  /** The canonical entries of a batch. */
  ghost predicate BatchEntries(batch: seq<Block>, count: nat, entries: map<nat, Hash>)
    requires 0 < |batch| && count <= |batch|
  {
    && (forall n: nat :: n in entries <==> batch[0].number <= n < batch[0].number + count)
    && (forall i :: 0 <= i < count ==> batch[0].number + i in entries && entries[batch[0].number + i] == batch[i].hash)
  }

  /** A map that is right below a batch and has nothing above it. */
  ghost predicate BaseFor(headers: Store, batch: seq<Block>, base: map<nat, Hash>)
    requires Closed(headers) && StoredBatch(headers, batch)
  {
    && (forall n: nat :: n < batch[0].number ==> n in base && base[n] == AncestorAt(headers, batch[0].hash, n))
    && (forall n: nat :: n in base ==> n <= batch[|batch| - 1].number)
  }

  lemma {:induction false} BaseExtended(headers: Store, batch: seq<Block>)
    requires Closed(headers) && StoredBatch(headers, batch) && batch[0].parent in headers
    ensures BaseFor(headers, batch, PathMap(headers, batch[0].parent))
  {
    assert Placed(headers, batch[0].hash);
  }

  lemma {:induction false} BasePatched(headers: Store, batch: seq<Block>, head: Hash, doomed: set<nat>, end: nat,
                                       patch: map<nat, Hash>)
    requires Closed(headers) && StoredBatch(headers, batch) && head in headers
    requires var canonical := PathMap(headers, head); var last := batch[|batch| - 1];
             && last.number < end && end !in canonical
             && (forall n: nat :: n in doomed <==> last.number < n < end)
             && (forall n: nat :: n <= batch[0].number ==>
                   n in canonical + patch && (canonical + patch)[n] == AncestorAt(headers, batch[0].hash, n))
             && (forall n: nat :: n in patch ==> n <= batch[0].number)
    ensures BaseFor(headers, batch, (PathMap(headers, head) - doomed) + patch)
  {
    var canonical := PathMap(headers, head);
    var base := (canonical - doomed) + patch;
    forall n: nat | n < batch[0].number
      ensures n in base && base[n] == AncestorAt(headers, batch[0].hash, n)
    {
      assert (canonical + patch)[n] == AncestorAt(headers, batch[0].hash, n);
    }
    forall n: nat | n in base
      ensures n <= batch[|batch| - 1].number
    {
      if n !in patch {
        assert n in canonical && n !in doomed;
      }
    }
  }

  /** The batch completes such a map to the path of the last header. */
  lemma {:induction false} Assembled(headers: Store, batch: seq<Block>, base: map<nat, Hash>, entries: map<nat, Hash>)
    requires Closed(headers) && StoredBatch(headers, batch) && BatchEntries(batch, |batch|, entries)
    requires BaseFor(headers, batch, base)
    ensures base + entries == PathMap(headers, batch[|batch| - 1].hash)
  {
    var last, m := batch[|batch| - 1], base + entries;
    forall n: nat | n <= last.number
      ensures n in m && m[n] == AncestorAt(headers, last.hash, n)
    {
      if n < batch[0].number {
        BelowBatch(headers, batch, n);
      } else {
        var i := n - batch[0].number;
        assert batch[i].number == n;
        BatchAncestor(headers, batch, i);
      }
    }
  }

  /** The entries of a batch, each hash taken from the parent field of the next header. */
  method CollectEntries(ghost headers: Store, batch: seq<Block>) returns (entries: map<nat, Hash>)
    requires StoredBatch(headers, batch)
    ensures BatchEntries(batch, |batch|, entries)
  {
    entries := map[];
    for i := 0 to |batch| - 1
      invariant BatchEntries(batch, i, entries)
    {
      entries := entries[batch[i].number := batch[i + 1].parent];
    }
    var last := batch[|batch| - 1];
    entries := entries[last.number := last.hash];
  }

  /** Walks back from `first` to where its chain joins the canonical map, collecting the entries
      that must be overwritten.  In a well-formed store the walk always finds the cross link. */
  method CrossLink(headers: Store, ghost genesis: Block, canonical: map<nat, Hash>, ghost head: Hash, first: Block)
    returns (err: Option<Error>, patch: map<nat, Hash>)
    requires WellFormed(headers, genesis) && head in headers && canonical == PathMap(headers, head)
    requires first.hash in headers && headers[first.hash] == first
    ensures err == None
    ensures forall n: nat :: n <= first.number ==>
              n in canonical + patch && (canonical + patch)[n] == AncestorAt(headers, first.hash, n)
    ensures forall n: nat :: n in patch ==> n <= first.number
  {
    var header, number, hash := first, first.number, first.hash;
    patch := map[];
    assert Placed(headers, first.hash);
    while ReadCanonical(canonical, number) != hash
      invariant hash in headers && headers[hash] == header && hash != ZERO && header.number == number <= first.number
      invariant AncestorAt(headers, first.hash, number) == hash
      invariant forall n: nat :: n in patch <==> number < n <= first.number
      invariant forall n: nat :: n in patch ==> patch[n] == AncestorAt(headers, first.hash, n)
      decreases number
    {
      patch := patch[number := hash];
      if number == 0 {
        DescendsFromGenesis(headers, genesis, head);
        DescendsFromGenesis(headers, genesis, hash);
        assert false;
      }
      AncestorParent(headers, first.hash, number);
      assert Placed(headers, hash);
      hash, number := header.parent, number - 1;
      assert Placed(headers, hash);
      var parent := Get(headers, hash, number);
      if parent.None? {
        return Some(MissingParent), patch;
      }
      header := parent.value;
    }
    JoinedBelow(headers, head, first.hash, number);
    err := None;
  }

  /** Two chains that share a block share everything below it. */
  lemma {:induction false} JoinedBelow(headers: Store, a: Hash, b: Hash, n: nat)
    requires Closed(headers) && a in headers && b in headers
    requires n <= headers[a].number && n <= headers[b].number
    requires AncestorAt(headers, a, n) == AncestorAt(headers, b, n)
    ensures forall m: nat :: m <= n ==> AncestorAt(headers, a, m) == AncestorAt(headers, b, m)
  {
    forall m: nat | m <= n
      ensures AncestorAt(headers, a, m) == AncestorAt(headers, b, m)
    {
      AncestorOfAncestor(headers, a, n, m);
      AncestorOfAncestor(headers, b, n, m);
    }
  }

  lemma {:induction false} StoredAfterJoin(before: Store, batch: seq<Block>)
    requires Importable(before, batch)
    ensures StoredBatch(Joined(before, batch, |batch|), batch)
  {
    forall i | 0 <= i < |batch|
      ensures batch[i].hash in Joined(before, batch, |batch|)
      ensures Joined(before, batch, |batch|)[batch[i].hash] == batch[i]
    {
      JoinedHolds(before, batch, |batch|, i);
    }
    forall i | 0 <= i < |batch|
      ensures batch[i].number == batch[0].number + i
    {
      Contiguous(before, batch, i);
    }
  }

  lemma {:induction false} Contiguous(before: Store, batch: seq<Block>, i: nat)
    requires Linked(before, batch) && i < |batch|
    ensures batch[i].number == batch[0].number + i
  {
    if i > 0 {
      Contiguous(before, batch, i - 1);
    }
  }

  function Min(a: nat, b: nat): nat
  {
    if a <= b then a else b
  }

  /** How many parent links separate `h` from the chain of `head`. */
  ghost function OffCanonical(headers: Store, genesis: Block, head: Hash, h: Hash): (r: nat)
    requires WellFormed(headers, genesis) && head in headers && h in headers
    ensures r <= headers[h].number
    decreases headers[h].number
  {
    assert Placed(headers, h);
    if ReadCanonical(PathMap(headers, head), headers[h].number) == h then 0
    else
      DescendsFromGenesis(headers, genesis, head);
      DescendsFromGenesis(headers, genesis, h);
      1 + OffCanonical(headers, genesis, head, headers[h].parent)
  }

  /** The state of an ancestor walk that has not met the canonical chain yet. */
  ghost predicate Walking(headers: Store, genesis: Block, head: Hash, start: Hash, h: Hash, n: nat, togo: nat,
                          ancestor: nat, budget: nat, left: nat)
    requires WellFormed(headers, genesis) && head in headers && start in headers
  {
    && togo <= ancestor <= headers[start].number
    && n == headers[start].number - (ancestor - togo)
    && h == AncestorAt(headers, start, n)
    && left <= budget && budget - left == ancestor - togo
    && OffCanonical(headers, genesis, head, start) == ancestor - togo + OffCanonical(headers, genesis, head, h)
  }

  lemma {:induction false} WalkingStep(headers: Store, genesis: Block, head: Hash, start: Hash, h: Hash, n: nat,
                                       togo: nat,
                                       ancestor: nat, budget: nat, left: nat)
    requires WellFormed(headers, genesis) && head in headers && start in headers
    requires Walking(headers, genesis, head, start, h, n, togo, ancestor, budget, left)
    requires togo > 0 && left > 0 && ReadCanonical(PathMap(headers, head), n) != h
    ensures Walking(headers, genesis, head, start, headers[h].parent, n - 1, togo - 1, ancestor, budget, left - 1)
  {
    AncestorParent(headers, start, n);
  }

  /** Jumping along the canonical map lands on the ancestor that parent links lead to. */
  lemma {:induction false} JumpIsAncestor(headers: Store, genesis: Block, head: Hash, start: Hash, h: Hash, n: nat,
                                          togo: nat,
                                          ancestor: nat, budget: nat, left: nat)
    requires WellFormed(headers, genesis) && head in headers && start in headers
    requires Walking(headers, genesis, head, start, h, n, togo, ancestor, budget, left)
    requires ReadCanonical(PathMap(headers, head), n) == h
    ensures n <= headers[head].number
    ensures PathMap(headers, head)[n - togo] == AncestorAt(headers, start, n - togo)
    ensures OffCanonical(headers, genesis, head, start) == ancestor - togo
  {
    assert Placed(headers, h);
    AncestorOfAncestor(headers, head, n, n - togo);
    AncestorOfAncestor(headers, start, n, n - togo);
  }

  /** The fork choice prefers a header to the current one. */
  ghost predicate Preferred(headers: Store, td: map<Hash, nat>, current: Hash, last: Block, settings: Settings)
    requires current in headers
  {
    L.Verdict(headers, td, current, last, settings) == Decided(true)
  }

  /** The fork choice prefers a header that is not canonical already. */
  ghost predicate Wanted(headers: Store, td: map<Hash, nat>, canonical: map<nat, Hash>, current: Hash, last: Block,
                         settings: Settings)
    requires current in headers
  {
    && Preferred(headers, td, current, last, settings)
    && !(ReadCanonical(canonical, last.number) == last.hash && last.number <= headers[current].number)
  }

  class HeaderChain {
    const genesis: Block

    var headers: Store
    var td: map<Hash, nat>
    var canonical: map<nat, Hash>
    var current: Hash

    ghost predicate StoreValid()
      reads this
    {
      && WellFormed(headers, genesis)
      && TotalsCorrect(headers, td)
      && current in headers
    }

    /** The canonical map is the ancestor path of the head header, with nothing above it. */
    ghost predicate Valid()
      reads this
    {
      && StoreValid()
      && canonical == PathMap(headers, current)
    }

    constructor (genesis: Block)
      requires genesis.hash != ZERO && genesis.number == 0 && genesis.parent == ZERO && genesis.txs == []
      ensures Valid() && this.genesis == genesis && headers == map[genesis.hash := genesis] && current == genesis.hash
    {
      this.genesis := genesis;
      headers := map[genesis.hash := genesis];
      td := map[genesis.hash := genesis.difficulty];
      canonical := map[0 := genesis.hash];
      current := genesis.hash;
      new;
      assert forall h :: h in headers ==> Placed(headers, h);
    }

    /** Stores a validated batch with its total difficulties in one database batch.  `known` is
        how many leading headers were stored already; the rest, and nothing else, is written. */
    method WriteHeaders(batch: seq<Block>, interrupted: bool)
      returns (inserted: nat, err: Option<Error>, ghost known: nat)
      requires Valid() && Linked(headers, batch)
      modifies `headers, `td
      ensures Valid() && Extends(old(headers), headers)
      ensures err == if batch == [] then None
                     else if L.ReadTd(old(headers), old(td), batch[0].parent, batch[0].number - 1).None?
                     then Some(UnknownAncestor)
                     else if interrupted then Some(Aborted) else None
      ensures err != None ==> headers == old(headers) && td == old(td)
      ensures err == None ==> headers == Joined(old(headers), batch, |batch|)
      ensures err == None ==> known <= |batch| && inserted == |batch| - known
      ensures err == None ==> forall i :: 0 <= i < |batch| ==> (batch[i].hash in old(headers) <==> i < known)
    {
      known := 0;
      if batch == [] {
        return 0, None, 0;
      }
      var parentTd := L.ReadTd(headers, td, batch[0].parent, batch[0].number - 1);
      if parentTd.None? {
        return 0, Some(UnknownAncestor), 0;
      }
      var newHeaders, newTd;
      newHeaders, newTd, inserted, known := Collect(headers, td, genesis, batch, parentTd.value);
      if interrupted {
        return 0, Some(Aborted), known;
      }
      ghost var before := headers;
      headers := headers + newHeaders;
      td := td + newTd;
      PathMapStable(before, headers, current);
      err := None;
    }

    /** Makes a stored batch canonical: drops the entries above its last header, overwrites stale
        ones below its first header down to the cross link, and writes the batch itself. */
    method Reorg(batch: seq<Block>) returns (err: Option<Error>)
      requires Valid() && (batch == [] || StoredBatch(headers, batch))
      modifies `canonical, `current
      ensures err == None && Valid()
      ensures batch == [] ==> canonical == old(canonical) && current == old(current)
      ensures batch != [] ==> current == batch[|batch| - 1].hash
    {
      if batch == [] {
        return None;
      }
      var first, last := batch[0], batch[|batch| - 1];
      var base := canonical;
      assert Placed(headers, first.hash);
      if first.parent != current {
        var doomed, end := EntriesAbove(canonical, last.number);
        var patch;
        err, patch := CrossLink(headers, genesis, canonical, current, first);
        if err.Some? {
          return err;
        }
        BasePatched(headers, batch, current, doomed, end, patch);
        base := (canonical - doomed) + patch;
      } else {
        BaseExtended(headers, batch);
      }
      var entries := CollectEntries(headers, batch);
      Assembled(headers, batch, base, entries);
      canonical := base + entries;
      current := last.hash;
      err := None;
    }

    /** Makes a stored batch canonical if it is wanted. */
    method ChooseHead(batch: seq<Block>, settings: Settings, inserted: nat) returns (status: Status, err: Option<Error>)
      requires Valid() && batch != [] && StoredBatch(headers, batch)
      modifies `canonical, `current
      ensures err == None && Valid()
      ensures status == Canon <==> Wanted(headers, td, old(canonical), old(current), batch[|batch| - 1], settings)
      ensures if status == Canon then current == batch[|batch| - 1].hash
              else canonical == old(canonical) && current == old(current)
      ensures status == Side <==>
                inserted != 0 && !Preferred(headers, td, old(current), batch[|batch| - 1], settings)
      ensures settings.terminal.None? ==>
                NoWorse(TotalDifficulty(headers, old(current)), headers[old(current)].number,
                        TotalDifficulty(headers, current), headers[current].number)
    {
      var last := batch[|batch| - 1];
      var verdict := L.Verdict(headers, td, current, last, settings);
      if verdict.MissingTd? {
        return NonStat, Some(MissingTotal);
      }
      if !verdict.reorg {
        return if inserted != 0 then Side else NonStat, None;
      }
      if ReadCanonical(canonical, last.number) == last.hash && last.number <= headers[current].number {
        return NonStat, None;
      }
      err := Reorg(batch);
      status := if err.None? then Canon else NonStat;
    }

    /** Stores a batch and makes it canonical if the fork choice prefers its last header and that
        header is not canonical already. */
    method WriteHeadersAndSetHead(batch: seq<Block>, settings: Settings, interrupted: bool)
      returns (status: Status, err: Option<Error>, ghost known: nat)
      requires Valid() && batch != [] && Linked(headers, batch)
      modifies this
      ensures Valid() && Extends(old(headers), headers)
      ensures err == if L.ReadTd(old(headers), old(td), batch[0].parent, batch[0].number - 1).None?
                     then Some(UnknownAncestor)
                     else if interrupted then Some(Aborted) else None
      ensures err == None ==> headers == Joined(old(headers), batch, |batch|)
      ensures err == None ==>
                known <= |batch| && forall i :: 0 <= i < |batch| ==> (batch[i].hash in old(headers) <==> i < known)
      ensures status == Canon ==>
                var last := batch[|batch| - 1].hash;
                last in headers && current == last && canonical == PathMap(headers, last)
      ensures status != Canon ==> canonical == old(canonical) && current == old(current)
      ensures err != None ==> status == NonStat && headers == old(headers) && td == old(td)
      ensures err == None ==>
                (status == Canon <==> Wanted(headers, td, old(canonical), old(current), batch[|batch| - 1], settings))
      ensures err == None ==>
                (status == Side <==>
                  known < |batch| && !Preferred(headers, td, old(current), batch[|batch| - 1], settings))
      ensures settings.terminal.None? ==>
                L.HeadNoWorse(old(L.Ledger(headers, td, current)), L.Ledger(headers, td, current), genesis)
    {
      var inserted;
      inserted, err, known := WriteHeaders(batch, interrupted);
      if err.Some? {
        return NonStat, err, known;
      }
      StoredAfterJoin(old(headers), batch);
      TotalDifficultyStable(old(headers), headers, current);
      status, err := ChooseHead(batch, settings, inserted);
    }

    /** The `ancestor`-th ancestor of a header, jumping along the canonical map as soon as the walk
        meets it; `budget` limits the number of headers visited before that. */
    method GetAncestor(hash: Hash, number: nat, ancestor: nat, budget: nat)
      returns (h: Hash, n: nat, left: nat)
      requires WellFormed(headers, genesis) && current in headers && canonical == PathMap(headers, current)
      ensures ancestor > number ==> h == ZERO && n == 0 && left == budget
      ensures ancestor == 0 ==> h == hash && n == number && left == budget
      ensures Get(headers, hash, number).Some? && 0 < ancestor <= number ==>
                var steps := Min(OffCanonical(headers, genesis, current, hash), ancestor);
                if ancestor == 1 then h == headers[hash].parent && n == number - 1 && left == budget
                else if steps <= budget then
                  h == AncestorAt(headers, hash, number - ancestor) && n == number - ancestor && left == budget - steps
                else h == ZERO && n == 0 && left == 0
      ensures Get(headers, hash, number).None? && hash != ZERO && 0 < ancestor ==> h == ZERO && n == 0
      // the zero hash passes for canonical above the head, where there is no entry to compare it with
      ensures hash == ZERO && 1 < ancestor <= number && number !in canonical ==>
                h == ReadCanonical(canonical, number - ancestor) && n == number - ancestor && left == budget
    {
      left := budget;
      if ancestor > number {
        return ZERO, 0, left;
      }
      if ancestor == 1 {
        var header := Get(headers, hash, number);
        if header.Some? {
          return header.value.parent, number - 1, left;
        }
        return ZERO, 0, left;
      }
      h, n := hash, number;
      var togo: nat := ancestor;
      ghost var stored := Get(headers, hash, number).Some?;
      while togo != 0
        invariant togo <= n && togo <= ancestor && n - togo == number - ancestor
        invariant !stored ==> h == hash && n == number && togo == ancestor && left == budget
        invariant stored ==> Walking(headers, genesis, current, hash, h, n, togo, ancestor, budget, left)
        decreases togo
      {
        if ReadCanonical(canonical, n) == h {
          if stored {
            JumpIsAncestor(headers, genesis, current, hash, h, n, togo, ancestor, budget, left);
          }
          return ReadCanonical(canonical, n - togo), n - togo, left;
        }
        if left == 0 {
          assert stored ==> OffCanonical(headers, genesis, current, h) > 0;
          return ZERO, 0, left;
        }
        left := left - 1;
        var header := Get(headers, h, n);
        if header.None? {
          return ZERO, 0, left;
        }
        WalkingStep(headers, genesis, current, hash, h, n, togo, ancestor, budget, left + 1);
        togo := togo - 1;
        h, n := header.value.parent, n - 1;
      }
    }
  }
}
