/** The lazily filled cache of ancestor hashes that block-hash lookups are served from. */
module HashCache {
  import opened BlockTree

  /** From a hash at height `m`, the hash at height `n`, one header read per step; zero if a header
      is missing. */
  ghost function WalkFrom(store: Store, hash: Hash, m: nat, n: nat): Hash
    requires n <= m
    decreases m
  {
    if m == n then hash
    else
      var header := Get(store, hash, m);
      if header.None? then ZERO else WalkFrom(store, header.value.parent, m - 1, n)
  }

  /** The uncached answer: zero unless the height lies below the reference header. */
  ghost function Answer(store: Store, reference: Block, n: nat): Hash
  {
    if reference.number <= n then ZERO else WalkFrom(store, reference.parent, reference.number - 1, n)
  }

  class HashFn {
    const store: Store
    const reference: Block
    var cache: seq<Hash>

    /** Entry `i` is where a walk from the reference header stands after `i` reads. */
    ghost predicate Valid()
      reads this
    {
      && |cache| <= reference.number
      && forall i :: 0 <= i < |cache| ==> Waypoint(cache[i], reference.number - 1 - i)
    }

    /** Every walk to height `m` or below passes through `hash` at height `m`. */
    ghost predicate Waypoint(hash: Hash, m: nat)
    {
      forall n: nat :: n <= m && n < reference.number ==> Answer(store, reference, n) == WalkFrom(store, hash, m, n)
    }

    lemma {:induction false} WaypointStep(hash: Hash, m: nat)
      requires Waypoint(hash, m) && 0 < m && Get(store, hash, m).Some?
      ensures Waypoint(store[hash].parent, m - 1)
    {
      forall n: nat | n <= m - 1 && n < reference.number
        ensures Answer(store, reference, n) == WalkFrom(store, store[hash].parent, m - 1, n)
      {
        assert Answer(store, reference, n) == WalkFrom(store, hash, m, n);
      }
    }

    constructor (store: Store, reference: Block)
      ensures Valid() && this.store == store && this.reference == reference
    {
      this.store, this.reference, cache := store, reference, [];
    }

    /** The block hash at height `n`: the answer of the uncached walk, whatever was asked before. */
    method Query(n: nat) returns (hash: Hash)
      requires Valid()
      modifies this
      ensures Valid() && old(cache) <= cache
      ensures hash == Answer(store, reference, n)
    {
      if reference.number <= n {
        return ZERO;
      }
      if |cache| == 0 {
        cache := cache + [reference.parent];
      }
      var index := reference.number - n - 1;
      if index < |cache| {
        assert Waypoint(cache[index], n);
        return cache[index];
      }
      var lastKnownHash := cache[|cache| - 1];
      var lastKnownNumber: nat := reference.number - |cache|;
      while true
        invariant Valid() && 0 < |cache| && old(cache) <= cache
        invariant n < lastKnownNumber == reference.number - |cache| && lastKnownHash == cache[|cache| - 1]
        invariant Waypoint(lastKnownHash, lastKnownNumber)
        decreases lastKnownNumber
      {
        var header := Get(store, lastKnownHash, lastKnownNumber);
        if header.None? {
          break;
        }
        WaypointStep(lastKnownHash, lastKnownNumber);
        cache := cache + [header.value.parent];
        lastKnownHash, lastKnownNumber := header.value.parent, header.value.number - 1;
        if n == lastKnownNumber {
          assert Answer(store, reference, n) == WalkFrom(store, lastKnownHash, n, n);
          return lastKnownHash;
        }
      }
      return ZERO;
    }
  }

  /** Any sequence of queries to one closure is answered as if nothing had been cached. */
  method QueryAll(store: Store, reference: Block, heights: seq<nat>) returns (hashes: seq<Hash>)
    ensures |hashes| == |heights|
    ensures forall i :: 0 <= i < |heights| ==> hashes[i] == Answer(store, reference, heights[i])
  {
    var f := new HashFn(store, reference);
    hashes := [];
    for i := 0 to |heights|
      invariant fresh(f) && f.Valid() && f.store == store && f.reference == reference
      invariant |hashes| == i && forall k :: 0 <= k < i ==> hashes[k] == Answer(store, reference, heights[k])
    {
      var hash := f.Query(heights[i]);
      hashes := hashes + [hash];
    }
  }

  /** In a closed store the answer below a stored reference is its ancestor at that height. */
  lemma {:induction false} AnswerIsAncestor(store: Store, reference: Block, n: nat)
    requires Closed(store) && reference.hash in store && store[reference.hash] == reference && n < reference.number
    ensures Answer(store, reference, n) == AncestorAt(store, reference.hash, n)
  {
    assert Placed(store, reference.hash);
    WalkIsAncestor(store, reference.parent, n);
  }

  lemma {:induction false} WalkIsAncestor(store: Store, h: Hash, n: nat)
    requires Closed(store) && h in store && n <= store[h].number
    ensures WalkFrom(store, h, store[h].number, n) == AncestorAt(store, h, n)
    decreases store[h].number
  {
    assert Placed(store, h);
    if n < store[h].number {
      WalkIsAncestor(store, store[h].parent, n);
    }
  }
}
