/**
 What a rewind does to the data, on values: the order of marker updates and deletions, what is cut
 from the ancient store at once and what is scheduled, and what is left in the end or in between.
 */
module RewindSteps {
  import opened BlockTree
  import opened StateSearch

  // ----- the order of marker updates and deletions

  /** What reaches the disk: the heights of the three head markers, or the removal of all data at
      some heights. */
  datatype Event =
    | Marked(header: nat, block: nat, snap: nat)
    | Dropped(heights: set<nat>)

  /** The markers after a journal that started from `first`. */
  ghost function Latest(first: Event, journal: seq<Event>): Event
    requires first.Marked?
    ensures Latest(first, journal).Marked?
  {
    if journal == [] then first
    else
      var e := journal[|journal| - 1];
      if e.Marked? then e else Latest(first, journal[..|journal| - 1])
  }

  ghost predicate Below(marks: Event, heights: set<nat>)
    requires marks.Marked?
  {
    forall n :: n in heights ==> marks.header < n && marks.block < n && marks.snap < n
  }

  /** Whenever a height is dropped all three markers already lie below it. */
  ghost predicate Orderly(first: Event, journal: seq<Event>)
    requires first.Marked?
  {
    journal == [] ||
    var rest, e := journal[..|journal| - 1], journal[|journal| - 1];
    Orderly(first, rest) && (e.Dropped? ==> Below(Latest(first, rest), e.heights))
  }

  lemma {:induction false} AppendEvent(first: Event, journal: seq<Event>, e: Event)
    requires first.Marked?
    ensures Latest(first, journal + [e]) == if e.Marked? then e else Latest(first, journal)
    ensures Orderly(first, journal + [e]) <==>
              Orderly(first, journal) && (e.Dropped? ==> Below(Latest(first, journal), e.heights))
  {
    assert (journal + [e])[..|journal|] == journal;
  }

  /** A journal that continues an earlier one in order and ends with the given markers. */
  ghost predicate OrderOk(first: Event, before: seq<Event>, journal: seq<Event>, marks: Event)
    requires first.Marked?
  {
    && before <= journal
    && Orderly(first, journal[|before|..])
    && Latest(first, journal[|before|..]) == marks
  }

  lemma {:induction false} OrderAppend(first: Event, before: seq<Event>, journal: seq<Event>, marks: Event, e: Event)
    requires first.Marked? && marks.Marked? && OrderOk(first, before, journal, marks)
    requires e.Dropped? ==> Below(marks, e.heights)
    ensures OrderOk(first, before, journal + [e], if e.Marked? then e else marks)
  {
    var n := |before|;
    AppendEvent(first, journal[n..], e);
    assert (journal + [e])[n..] == journal[n..] + [e];
  }

  // ----- what is on disk

  /** The database: all stored headers, frozen or not, which of them have a body, the canonical map,
      the height below which data lives in the ancient store, and the blocks the three markers name. */
  datatype Disk = Disk(headers: Store, bodies: set<Hash>, canonical: map<nat, Hash>, frozen: nat,
                       header: Block, block: Block, snap: Block)

  function Bodied(headers: Store, bodies: set<Hash>): Store
  {
    map h | h in headers && h in bodies :: headers[h]
  }

  function Blocks(d: Disk): Store
  {
    Bodied(d.headers, d.bodies)
  }

  function Marks(d: Disk): Event
  {
    Marked(d.header.number, d.block.number, d.snap.number)
  }

  /** Blocks are keyed by their hash and only the genesis block has height zero. */
  ghost predicate Keyed(headers: Store, genesis: Block)
  {
    && genesis.number == 0 && genesis.hash in headers && headers[genesis.hash] == genesis
    && (forall h :: h in headers ==> headers[h].hash == h)
    && (forall h :: h in headers && headers[h].number == 0 ==> h == genesis.hash)
  }

  /** What a rewind needs to run at all.  Headers may be missing, and there may be data of any kind
      above the head header. */
  ghost predicate UsableDisk(d: Disk, genesis: Block)
  {
    && Keyed(d.headers, genesis) && genesis.hash in d.bodies
    && d.header.hash in d.headers && d.headers[d.header.hash] == d.header
  }

  /** The ancient store keeps only canonical blocks. */
  ghost predicate FrozenCanonical(headers: Store, canonical: map<nat, Hash>, frozen: nat)
  {
    forall h :: h in headers && headers[h].number < frozen ==>
      headers[h].number in canonical && canonical[headers[h].number] == h
  }

  /** The canonical map is the path of the head header and the ancient store is part of it. */
  ghost predicate ValidDisk(d: Disk, genesis: Block)
  {
    && WellFormed(d.headers, genesis) && genesis.hash in d.bodies
    && d.header.hash in d.headers && d.headers[d.header.hash] == d.header
    && d.canonical == PathMap(d.headers, d.header.hash)
    && d.frozen <= d.header.number + 1
    && FrozenCanonical(d.headers, d.canonical, d.frozen)
  }

  lemma {:induction false} ValidIsUsable(d: Disk, genesis: Block)
    requires ValidDisk(d, genesis)
    ensures UsableDisk(d, genesis)
  {
    forall h | h in d.headers
      ensures d.headers[h].hash == h
    {
      assert Placed(d.headers, h);
    }
  }

  // ----- ranges of heights

  function Min(a: nat, b: nat): nat
  {
    if a <= b then a else b
  }

  function Max(a: nat, b: nat): nat
  {
    if a <= b then b else a
  }

  function Range(first: nat, end: nat): (heights: set<nat>)
    ensures forall n: nat :: n in heights <==> first <= n < end
    decreases end
  {
    if end <= first then {} else Range(first, end - 1) + {end - 1}
  }

  /** A store without the heights from `from` up to, but not including, `to`. */
  function Without(headers: Store, from: nat, to: nat): Store
  {
    map h | h in headers && !(from <= headers[h].number < to) :: headers[h]
  }

  function EntriesWithout(canonical: map<nat, Hash>, from: nat, to: nat): map<nat, Hash>
  {
    map n | n in canonical && !(from <= n < to) :: canonical[n]
  }

  ghost function EntriesUpTo(canonical: map<nat, Hash>, n: nat): map<nat, Hash>
  {
    map k | k in canonical && k <= n :: canonical[k]
  }

  function HashesIn(headers: Store, from: nat, to: nat): set<Hash>
  {
    set h | h in headers && from <= headers[h].number < to
  }

  /** The ancient store cut back to `frozen` heights. */
  function Truncated(d: Disk, frozen: nat): Disk
  {
    d.(headers := Without(d.headers, frozen, d.frozen),
       bodies := d.bodies - HashesIn(d.headers, frozen, d.frozen),
       canonical := EntriesWithout(d.canonical, frozen, d.frozen),
       frozen := frozen)
  }

  /** The hashes the key-value store lists at one height; the ancient store is not consulted. */
  function AllHashes(headers: Store, frozen: nat, n: nat): set<Hash>
  {
    if n < frozen then {} else set h | h in headers && headers[h].number == n
  }

  /** The first height from `n` up at which the key-value store lists nothing. */
  function FirstUnlisted(headers: Store, frozen: nat, n: nat): (end: nat)
    ensures n <= end && AllHashes(headers, frozen, end) == {}
    ensures forall m :: n <= m < end ==> AllHashes(headers, frozen, m) != {}
    decreases set h | h in headers && headers[h].number >= n
  {
    if AllHashes(headers, frozen, n) == {} then n
    else
      assert (set h | h in headers && headers[h].number >= n)
          == (set h | h in headers && headers[h].number >= n + 1) + AllHashes(headers, frozen, n);
      FirstUnlisted(headers, frozen, n + 1)
  }

  /** Everything listed right above height `num`, up to the first empty height. */
  method ListedAbove(headers: Store, frozen: nat, num: nat) returns (hashes: set<Hash>, heights: set<nat>)
    ensures var end := FirstUnlisted(headers, frozen, num + 1);
            && heights == Range(num + 1, end)
            && forall h :: h in hashes <==> h in headers && frozen <= headers[h].number && num < headers[h].number < end
  {
    hashes, heights := {}, {};
    var n := num + 1;
    while AllHashes(headers, frozen, n) != {}
      invariant num < n && FirstUnlisted(headers, frozen, n) == FirstUnlisted(headers, frozen, num + 1)
      invariant heights == Range(num + 1, n)
      invariant forall h :: h in hashes <==> h in headers && frozen <= headers[h].number && num < headers[h].number < n
      decreases set h | h in headers && headers[h].number >= n
    {
      var here := AllHashes(headers, frozen, n);
      assert (set h | h in headers && headers[h].number >= n)
          == (set h | h in headers && headers[h].number >= n + 1) + here;
      hashes, heights := hashes + here, heights + {n};
      n := n + 1;
    }
  }

  /** The height up to which the first round of a rewind sweeps: the first one unlisted above the head
      header, or the end of the ancient store if that reaches higher. */
  function SweepEnd(d: Disk): nat
  {
    FirstUnlisted(d.headers, d.frozen, d.header.number + 1)
  }

  function Cutoff(d: Disk): nat
  {
    Max(SweepEnd(d), d.frozen)
  }

  // ----- what every round of a rewind keeps

  /** Until the end of a rewind only the ancient store has been cut back. */
  ghost predicate DataOk(s: Disk, d: Disk)
  {
    && d.frozen <= s.frozen
    && d.headers == Without(s.headers, d.frozen, s.frozen)
    && d.bodies == s.bodies - HashesIn(s.headers, d.frozen, s.frozen)
    && d.canonical == EntriesWithout(s.canonical, d.frozen, s.frozen)
  }

  /** The ancient store reaches no higher than the lowest height dropped so far. */
  ghost predicate FrozenOk(s: Disk, d: Disk, low: nat, origin: bool)
  {
    if origin then d.frozen == s.frozen else d.frozen == Min(s.frozen, low)
  }

  /** What is scheduled for deletion: the heights from `low` up to the end of the sweep, and every
      header still there at one of them. */
  ghost predicate Doomed(s: Disk, headers: Store, hashes: set<Hash>, heights: set<nat>, low: nat, origin: bool)
  {
    && heights == (if origin then {} else Range(low, SweepEnd(s)))
    && (forall h :: h in hashes ==> h in s.headers && low <= s.headers[h].number < SweepEnd(s))
    && (origin ==> hashes == {})
    && (!origin ==> forall h :: h in headers && low <= headers[h].number < SweepEnd(s) ==> h in hashes)
  }

  /** The head header: stored, and right below `low` unless a gap sent it to genesis. */
  ghost predicate PlaceOk(s: Disk, genesis: Block, head: Block, low: nat)
  {
    && head.hash in s.headers && s.headers[head.hash] == head
    && head.number < low <= s.header.number + 1 && (low == head.number + 1 || head == genesis)
  }

  function ParentOrGenesis(headers: Store, genesis: Block, hdr: Block): Block
  {
    var parent := Get(headers, hdr.parent, hdr.number - 1);
    if parent.Some? then parent.value else genesis
  }

  /** What the first half of a round finds: the header, its parent and everything below as they were. */
  lemma {:induction false} StillThere(s: Disk, d: Disk, genesis: Block, hdr: Block, origin: bool)
    requires UsableDisk(s, genesis) && DataOk(s, d) && FrozenOk(s, d, hdr.number + 1, origin)
    requires PlaceOk(s, genesis, hdr, hdr.number + 1) && 0 < hdr.number && (origin ==> d.headers == s.headers)
    ensures Keyed(d.headers, genesis) && genesis.hash in d.bodies
    ensures hdr.hash in d.headers && d.headers[hdr.hash] == hdr
    ensures ParentOrGenesis(d.headers, genesis, hdr) == ParentOrGenesis(s.headers, genesis, hdr)
    ensures PlaceOk(s, genesis, ParentOrGenesis(d.headers, genesis, hdr), hdr.number)
  {
    if origin {
      assert d.headers == Without(s.headers, s.frozen, s.frozen) == s.headers;
    }
    assert hdr.number < d.frozen || s.frozen <= hdr.number;
    forall h | h in s.headers && s.headers[h].number <= hdr.number
      ensures h in d.headers
    {
    }
  }

  lemma {:induction false} BlocksBelow(s: Disk, d: Disk, n: nat)
    requires DataOk(s, d) && (n < d.frozen || d.frozen == s.frozen)
    ensures UpTo(Blocks(d), n) == UpTo(Blocks(s), n)
  {
  }

  /** Cutting the ancient store further back. */
  lemma {:induction false} TruncatedFurther(s: Disk, d: Disk, frozen: nat)
    requires DataOk(s, d) && frozen < d.frozen
    ensures DataOk(s, Truncated(d, frozen))
  {
    var t := Truncated(d, frozen);
    assert t.headers == Without(s.headers, frozen, s.frozen);
    assert t.canonical == EntriesWithout(s.canonical, frozen, s.frozen);
    assert t.bodies == s.bodies - HashesIn(s.headers, frozen, s.frozen);
  }

  /** What one round adds: everything listed at the height it leaves, or the header itself if nothing
      is, and in the first round everything listed above. */
  ghost predicate Scheduled(s: Disk, d: Disk, hdr: Block, hashes: set<Hash>, heights: set<nat>, origin: bool)
  {
    && heights == {hdr.number} + (if origin then Range(hdr.number + 1, SweepEnd(s)) else {})
    && (forall h :: h in hashes ==> h == hdr.hash || (h in d.headers && d.headers[h].number in heights))
    && (forall h :: h in d.headers && d.headers[h].number in heights && d.frozen <= d.headers[h].number ==> h in hashes)
  }

  /** Every header still there from the height left up to the end of the sweep is scheduled. */
  lemma {:induction false} DoomedCovers(s: Disk, d: Disk, d': Disk, hdr: Block,
                                        doomedHashes: set<Hash>, doomedHeights: set<nat>,
                                        hashes: set<Hash>, heights: set<nat>, origin: bool, h: Hash)
    requires Doomed(s, d.headers, doomedHashes, doomedHeights, hdr.number + 1, origin)
    requires Scheduled(s, d, hdr, hashes, heights, origin)
    requires d' == if hdr.number < d.frozen then Truncated(d, hdr.number) else d
    requires h in d'.headers && hdr.number <= d'.headers[h].number < SweepEnd(s)
    ensures h in doomedHashes + hashes
  {
    assert h in d.headers && d.headers[h] == d'.headers[h];
    if origin || d.headers[h].number == hdr.number {
      assert d.headers[h].number in heights;
    }
  }

  lemma {:induction false} DoomedStep(s: Disk, d: Disk, d': Disk, hdr: Block,
                                      doomedHashes: set<Hash>, doomedHeights: set<nat>,
                                      hashes: set<Hash>, heights: set<nat>, origin: bool)
    requires DataOk(s, d) && hdr.hash in s.headers && s.headers[hdr.hash] == hdr && hdr.number < SweepEnd(s)
    requires Doomed(s, d.headers, doomedHashes, doomedHeights, hdr.number + 1, origin)
    requires Scheduled(s, d, hdr, hashes, heights, origin)
    requires d' == if hdr.number < d.frozen then Truncated(d, hdr.number) else d
    ensures Doomed(s, d'.headers, doomedHashes + hashes, doomedHeights + heights, hdr.number, false)
  {
    assert doomedHeights + heights == Range(hdr.number, SweepEnd(s));
    forall h | h in d'.headers && hdr.number <= d'.headers[h].number < SweepEnd(s)
      ensures h in doomedHashes + hashes
    {
      DoomedCovers(s, d, d', hdr, doomedHashes, doomedHeights, hashes, heights, origin, h);
    }
  }

  // ----- what is left in the end

  lemma {:induction false} FlushedHeaders(s: Disk, d: Disk, hashes: set<Hash>, heights: set<nat>, low: nat)
    requires DataOk(s, d) && FrozenOk(s, d, low, false) && Doomed(s, d.headers, hashes, heights, low, false)
    requires low <= SweepEnd(s)
    ensures d.headers - hashes == Without(s.headers, low, Cutoff(s))
  {
  }

  lemma {:induction false} FlushedEntries(s: Disk, d: Disk, hashes: set<Hash>, heights: set<nat>, low: nat)
    requires DataOk(s, d) && FrozenOk(s, d, low, false) && Doomed(s, d.headers, hashes, heights, low, false)
    requires low <= SweepEnd(s)
    ensures d.canonical - heights == EntriesWithout(s.canonical, low, Cutoff(s))
  {
  }

  /** A rewind that made a round leaves everything below `low` and everything from the cutoff up. */
  lemma {:induction false} Flushed(s: Disk, d: Disk, hashes: set<Hash>, heights: set<nat>, low: nat)
    requires DataOk(s, d) && FrozenOk(s, d, low, false) && Doomed(s, d.headers, hashes, heights, low, false)
    requires low <= SweepEnd(s)
    ensures d.headers - hashes == Without(s.headers, low, Cutoff(s))
    ensures d.canonical - heights == EntriesWithout(s.canonical, low, Cutoff(s))
    ensures Bodied(d.headers - hashes, d.bodies - hashes) == Without(Blocks(s), low, Cutoff(s))
  {
    FlushedHeaders(s, d, hashes, heights, low);
    FlushedEntries(s, d, hashes, heights, low);
    FlushedBodies(s, d, hashes, low);
  }

  lemma {:induction false} FlushedBodies(s: Disk, d: Disk, hashes: set<Hash>, low: nat)
    requires d.headers - hashes == Without(s.headers, low, Cutoff(s))
    requires d.bodies == s.bodies - HashesIn(s.headers, d.frozen, s.frozen)
    requires d.headers == Without(s.headers, d.frozen, s.frozen)
    ensures Bodied(d.headers - hashes, d.bodies - hashes) == Without(Blocks(s), low, Cutoff(s))
  {
    var left := Bodied(d.headers - hashes, d.bodies - hashes);
    forall h
      ensures h in left <==> h in Without(Blocks(s), low, Cutoff(s))
    {
      assert h in d.headers - hashes <==> h in Without(s.headers, low, Cutoff(s));
    }
  }

  lemma {:induction false} NothingFlushed(s: Disk, d: Disk)
    requires DataOk(s, d) && d.frozen == s.frozen
    ensures d.headers == s.headers && d.canonical == s.canonical && d.bodies == s.bodies
  {
    assert Without(s.headers, s.frozen, s.frozen) == s.headers;
    assert EntriesWithout(s.canonical, s.frozen, s.frozen) == s.canonical;
    assert HashesIn(s.headers, s.frozen, s.frozen) == {};
  }

  ghost function HashesAt(headers: Store, n: nat): set<Hash>
  {
    set h | h in headers && headers[h].number == n
  }

  lemma {:induction false} AncestorListed(headers: Store, h: Hash, n: nat)
    requires Closed(headers) && h in headers && n <= headers[h].number
    ensures AncestorAt(headers, h, n) in HashesAt(headers, n)
  {
  }

  /** In a closed store an empty height has nothing above it. */
  lemma {:induction false} EmptyHeight(headers: Store, n: nat)
    requires Closed(headers) && HashesAt(headers, n) == {}
    ensures forall h :: h in headers ==> headers[h].number < n
  {
    forall h | h in headers
      ensures headers[h].number < n
    {
      if n <= headers[h].number {
        AncestorListed(headers, h, n);
        assert false;
      }
    }
  }

  /** On a closed store whose ancient part does not reach above the head the sweep covers everything. */
  lemma {:induction false} SweepAll(s: Disk)
    requires Closed(s.headers) && s.frozen <= s.header.number + 1
    ensures Cutoff(s) == SweepEnd(s)
    ensures forall h :: h in s.headers ==> s.headers[h].number < Cutoff(s)
  {
    var end := SweepEnd(s);
    assert HashesAt(s.headers, end) == AllHashes(s.headers, s.frozen, end);
    EmptyHeight(s.headers, end);
  }

  /** The path of a surviving block does not notice that the blocks above it are gone. */
  lemma {:induction false} PathAfterRewind(headers: Store, genesis: Block, head: Hash, top: Hash)
    requires WellFormed(headers, genesis) && head in headers && top in headers
    requires headers[head].number <= headers[top].number && AncestorAt(headers, top, headers[head].number) == head
    ensures var left := UpTo(headers, headers[head].number);
            && WellFormed(left, genesis) && head in left
            && forall n: nat :: n <= headers[head].number ==> PathMap(left, head)[n] == PathMap(headers, top)[n]
  {
    var left := UpTo(headers, headers[head].number);
    UpToWellFormed(headers, genesis, headers[head].number);
    PathMapStable(left, headers, head);
    forall n: nat | n <= headers[head].number
      ensures AncestorAt(headers, head, n) == AncestorAt(headers, top, n)
    {
      AncestorOfAncestor(headers, top, headers[head].number, n);
    }
  }

  /** A stored ancestor of the head header, or that header itself. */
  ghost predicate Ancestral(v: Disk, b: Block)
    requires Closed(v.headers) && v.header.hash in v.headers
  {
    && b.hash in v.headers && v.headers[b.hash] == b && b.number <= v.headers[v.header.hash].number
    && b.hash == AncestorAt(v.headers, v.header.hash, b.number)
  }

  /** A valid disk cut right above an ancestor of its head. */
  ghost predicate CutAt(v: Disk, d: Disk, genesis: Block)
    requires Closed(v.headers) && v.header.hash in v.headers
  {
    && Ancestral(v, d.header)
    && d.headers == UpTo(v.headers, d.header.number)
    && d.canonical == EntriesUpTo(v.canonical, d.header.number)
    && d.frozen <= v.frozen && d.frozen <= d.header.number + 1 && genesis.hash in d.bodies
  }

  lemma {:induction false} CutPath(v: Disk, d: Disk, genesis: Block)
    requires ValidDisk(v, genesis) && CutAt(v, d, genesis)
    ensures WellFormed(d.headers, genesis) && d.header.hash in d.headers
    ensures d.canonical == PathMap(d.headers, d.header.hash)
  {
    PathAfterRewind(v.headers, genesis, d.header.hash, v.header.hash);
  }

  /** What a rewind leaves of a valid chain is a valid chain. */
  lemma {:induction false} CutIsValid(v: Disk, d: Disk, genesis: Block)
    requires ValidDisk(v, genesis) && CutAt(v, d, genesis)
    ensures ValidDisk(d, genesis)
  {
    CutPath(v, d, genesis);
    forall h | h in d.headers && d.headers[h].number < d.frozen
      ensures d.headers[h].number in d.canonical && d.canonical[d.headers[h].number] == h
    {
      assert d.headers[h] == v.headers[h];
    }
  }

  // ----- a rewind that is cut short

  /** What a rewind of the disk `v` passes through before its deletions are flushed: the header is on
      the old path, nothing but the ancient store has been cut, and that to right above the header,
      or one height less when the markers have gone ahead. */
  ghost predicate Interrupted(v: Disk, d: Disk)
    requires Closed(v.headers) && v.header.hash in v.headers
  {
    && DataOk(v, d) && Ancestral(v, d.header)
    && (d.frozen == Min(v.frozen, d.header.number + 1) || d.frozen == Min(v.frozen, d.header.number + 2))
  }

  lemma {:induction false} InterruptedUsable(v: Disk, d: Disk, genesis: Block)
    requires ValidDisk(v, genesis) && Interrupted(v, d)
    ensures UsableDisk(d, genesis)
    ensures forall h :: h in v.headers && v.headers[h].number <= d.header.number ==> h in d.headers
  {
    ValidIsUsable(v, genesis);
    assert d.header.number < d.frozen || d.frozen == v.frozen;
    assert genesis.number < d.frozen || d.frozen == v.frozen;
  }

  /** If the interrupted rewind had not cut the ancient store, a new one sweeps everything. */
  lemma {:induction false} SweepAgain(v: Disk, d: Disk, genesis: Block)
    requires ValidDisk(v, genesis) && Interrupted(v, d) && v.frozen <= d.header.number + 1
    ensures forall h :: h in d.headers ==> d.headers[h].number < Cutoff(d)
    ensures forall n :: n in d.canonical ==> n < Cutoff(d)
  {
    assert d.frozen == v.frozen;
    NothingFlushed(v, d);
    SweepAll(d);
  }

  /** If it had, the new one finds nothing listed above the header and stops sweeping there. */
  lemma {:induction false} SweepStops(v: Disk, d: Disk, genesis: Block)
    requires ValidDisk(v, genesis) && Interrupted(v, d) && d.header.number + 1 < v.frozen
    ensures d.header.number < Cutoff(d) <= v.frozen
    ensures forall h :: h in v.headers && v.frozen <= v.headers[h].number ==> h in d.headers
    ensures forall h :: h in d.headers && Cutoff(d) <= d.headers[h].number ==> v.frozen <= d.headers[h].number
    ensures forall n :: n in d.canonical && Cutoff(d) <= n ==> v.frozen <= n
  {
    var n := d.header.number + 1;
    assert AllHashes(d.headers, d.frozen, n) == {};
    assert SweepEnd(d) == n;
  }

  ghost predicate AllFrozen(v: Disk)
  {
    forall h :: h in v.headers ==> v.headers[h].number < v.frozen
  }

  /** The disk after another rewind, with at least one round, of an interrupted one. */
  ghost predicate RewoundAgain(v: Disk, d: Disk, e: Disk, genesis: Block)
    requires Closed(v.headers) && v.header.hash in v.headers
  {
    && e.header.number < d.header.number && Ancestral(v, e.header)
    && e.headers == Without(d.headers, e.header.number + 1, Cutoff(d))
    && e.canonical == EntriesWithout(d.canonical, e.header.number + 1, Cutoff(d))
    && e.frozen == Min(d.frozen, e.header.number + 1) && genesis.hash in e.bodies
  }

  /** Below an interrupted head nothing is missing. */
  lemma {:induction false} StillBelow(v: Disk, d: Disk, genesis: Block, n: nat)
    requires ValidDisk(v, genesis) && Interrupted(v, d) && n < d.header.number
    ensures UpTo(d.headers, n) == UpTo(v.headers, n)
    ensures EntriesUpTo(d.canonical, n) == EntriesUpTo(v.canonical, n)
  {
    assert n < d.frozen || d.frozen == v.frozen;
  }

  lemma {:induction false} SweptHeaders(d: Disk, n: nat)
    requires forall h :: h in d.headers ==> d.headers[h].number < Cutoff(d)
    ensures Without(d.headers, n + 1, Cutoff(d)) == UpTo(d.headers, n)
  {
  }

  lemma {:induction false} SweptEntries(d: Disk, n: nat)
    requires forall k :: k in d.canonical ==> k < Cutoff(d)
    ensures EntriesWithout(d.canonical, n + 1, Cutoff(d)) == EntriesUpTo(d.canonical, n)
  {
  }

  lemma {:induction false} CutFrom(v: Disk, d: Disk, e: Disk, genesis: Block)
    requires Closed(v.headers) && v.header.hash in v.headers && RewoundAgain(v, d, e, genesis)
    requires UpTo(d.headers, e.header.number) == UpTo(v.headers, e.header.number)
    requires EntriesUpTo(d.canonical, e.header.number) == EntriesUpTo(v.canonical, e.header.number)
    requires d.frozen <= v.frozen
    requires Without(d.headers, e.header.number + 1, Cutoff(d)) == UpTo(d.headers, e.header.number)
    requires EntriesWithout(d.canonical, e.header.number + 1, Cutoff(d)) == EntriesUpTo(d.canonical, e.header.number)
    ensures CutAt(v, e, genesis)
  {
  }

  lemma {:induction false} SweptIsCut(v: Disk, d: Disk, e: Disk, genesis: Block)
    requires ValidDisk(v, genesis) && Interrupted(v, d) && RewoundAgain(v, d, e, genesis)
    requires forall h :: h in d.headers ==> d.headers[h].number < Cutoff(d)
    requires forall n :: n in d.canonical ==> n < Cutoff(d)
    ensures CutAt(v, e, genesis)
  {
    var n := e.header.number;
    StillBelow(v, d, genesis, n);
    SweptHeaders(d, n);
    SweptEntries(d, n);
    CutFrom(v, d, e, genesis);
  }

  /** Rewinding again after an interruption makes the chain valid if and only if the first rewind had
      not yet come down into the ancient store, or nothing lay above that store. */
  lemma {:induction false} RecoveredExactly(v: Disk, d: Disk, e: Disk, genesis: Block)
    requires ValidDisk(v, genesis) && Interrupted(v, d) && RewoundAgain(v, d, e, genesis)
    ensures ValidDisk(e, genesis) <==> v.frozen <= d.header.number + 1 || AllFrozen(v)
  {
    if v.frozen <= d.header.number + 1 {
      SweepAgain(v, d, genesis);
      SweptIsCut(v, d, e, genesis);
      CutIsValid(v, e, genesis);
    } else {
      SweepStops(v, d, genesis);
      if AllFrozen(v) {
        PathFrozen(v, genesis);
        SweptIsCut(v, d, e, genesis);
        CutIsValid(v, e, genesis);
      } else {
        var h :| h in v.headers && v.frozen <= v.headers[h].number;
        assert h in e.headers;
        assert HashesAt(e.headers, e.header.number + 1) == {};
        if ValidDisk(e, genesis) {
          EmptyHeight(e.headers, e.header.number + 1);
          assert false;
        }
      }
    }
  }

  lemma {:induction false} PathFrozen(v: Disk, genesis: Block)
    requires ValidDisk(v, genesis) && AllFrozen(v)
    ensures forall n :: n in v.canonical ==> n < v.frozen
  {
    forall n | n in v.canonical
      ensures n < v.frozen
    {
      assert v.headers[AncestorAt(v.headers, v.header.hash, n)].number == n;
    }
  }

  // ----- a recovery that fails

  const BLOCK_0 := Block(1, ZERO, 0, 0, 5, 0, [])
  const BLOCK_1 := Block(2, 1, 1, 0, 6, 0, [])
  const BLOCK_2 := Block(3, 2, 2, 0, 7, 0, [])
  const BLOCK_3 := Block(4, 3, 3, 0, 8, 0, [])

  /** Blocks 1 to 4, of which the lower three are frozen, with the markers still at the top. */
  const FOUR_BLOCKS := Disk(map[1 := BLOCK_0, 2 := BLOCK_1, 3 := BLOCK_2, 4 := BLOCK_3], {1, 2, 3, 4},
                            map[0 := 1, 1 := 2, 2 := 3, 3 := 4], 3, BLOCK_3, BLOCK_3, BLOCK_3)

  /** The markers have come down to block 2 and block 3 is cut from the ancient store. */
  const CUT_SHORT := Disk(map[1 := BLOCK_0, 2 := BLOCK_1, 4 := BLOCK_3], {1, 2, 4},
                          map[0 := 1, 1 := 2, 3 := 4], 2, BLOCK_1, BLOCK_1, BLOCK_1)

  lemma {:induction false} FourBlocksValid()
    ensures ValidDisk(FOUR_BLOCKS, BLOCK_0)
    ensures AncestorAt(FOUR_BLOCKS.headers, 4, 1) == 2
  {
    var headers := FOUR_BLOCKS.headers;
    assert Placed(headers, 1) && Placed(headers, 2) && Placed(headers, 3) && Placed(headers, 4);
    assert AncestorAt(headers, 4, 3) == 4;
    assert AncestorAt(headers, 4, 2) == AncestorAt(headers, 3, 2) == 3;
    assert AncestorAt(headers, 4, 1) == AncestorAt(headers, 3, 1) == AncestorAt(headers, 2, 1) == 2;
    assert AncestorAt(headers, 4, 0) == AncestorAt(headers, 3, 0) == AncestorAt(headers, 2, 0) == 1;
    assert FOUR_BLOCKS.canonical == PathMap(headers, 4);
  }

  /** A rewind cut short from which no later rewind recovers: block 4 stays for good. */
  lemma {:induction false} RecoveryFails(e: Disk)
    requires ValidDisk(FOUR_BLOCKS, BLOCK_0) && Interrupted(FOUR_BLOCKS, CUT_SHORT)
    requires RewoundAgain(FOUR_BLOCKS, CUT_SHORT, e, BLOCK_0)
    ensures !ValidDisk(e, BLOCK_0) && 4 in e.headers && 3 in e.canonical
  {
    assert 4 in FOUR_BLOCKS.headers && FOUR_BLOCKS.headers[4].number == 3;
    RecoveredExactly(FOUR_BLOCKS, CUT_SHORT, e, BLOCK_0);
    SweepStops(FOUR_BLOCKS, CUT_SHORT, BLOCK_0);
  }

  lemma {:induction false} CutShortIsInterrupted()
    ensures ValidDisk(FOUR_BLOCKS, BLOCK_0) && Interrupted(FOUR_BLOCKS, CUT_SHORT)
  {
    FourBlocksValid();
    assert CUT_SHORT.headers == Without(FOUR_BLOCKS.headers, 2, 3);
    assert CUT_SHORT.canonical == EntriesWithout(FOUR_BLOCKS.canonical, 2, 3);
    assert CUT_SHORT.bodies == FOUR_BLOCKS.bodies - HashesIn(FOUR_BLOCKS.headers, 2, 3);
  }
}
