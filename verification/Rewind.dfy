/**
 Rewinding the chain: the loop that moves the three head markers down and deletes everything above
 them.
 */
module Rewind {
  import opened BlockTree
  import opened StateSearch
  import opened RewindSteps
  import opened RewindCourse

  /** The chain when a rewind started, and what had been recorded by then. */
  datatype Start = Start(genesis: Block, disk: Disk, journal: seq<Event>, trace: seq<Disk>)

  /** Every disk recorded since the start is one that a rewind passes through, if the chain was valid. */
  ghost predicate TraceOk(s: Start, trace: seq<Disk>)
  {
    && s.trace <= trace
    && (ValidDisk(s.disk, s.genesis) ==>
          forall i {:trigger trace[i]} :: |s.trace| <= i < |trace| ==> Interrupted(s.disk, trace[i]))
  }

  /** The target in force is the planned one as long as no head block recorded since the start underran
      it, and otherwise the lowest height that one was forced to. */
  ghost predicate Forced(s: Start, plan: Plan, final: Target, trace: seq<Disk>)
  {
    var first := |s.trace|;
    if final == plan.target then forall i {:trigger trace[i]} :: first <= i < |trace| ==> !UnderranBy(s, plan, trace[i])
    else
      && final.time == 0
      && (exists i {:trigger trace[i]} :: first <= i < |trace| && UnderranBy(s, plan, trace[i]))
      && (exists i {:trigger trace[i]} :: first <= i < |trace| && trace[i].block.number == final.block)
      && (forall i {:trigger trace[i]} :: first <= i < |trace| && UnderranBy(s, plan, trace[i]) ==>
            final.block <= trace[i].block.number)
  }

  ghost predicate UnderranBy(s: Start, plan: Plan, d: Disk)
  {
    Underran(plan.target, d.block, s.disk.frozen, plan.query.pivot)
  }

  /** Recording another disk keeps that, whether the head block has moved or not. */
  lemma {:induction false} ForcedStep(s: Start, plan: Plan, final: Target, trace: seq<Disk>, d: Disk)
    requires s.trace <= trace && Forced(s, plan, final, trace)
    ensures Forced(s, plan, InForce(final, d.block, s.disk.frozen, plan.query.pivot), trace + [d])
  {
    var next := InForce(final, d.block, s.disk.frozen, plan.query.pivot);
    var more := trace + [d];
    assert forall i {:trigger more[i]} :: 0 <= i < |trace| ==> more[i] == trace[i];
    assert more[|trace|] == d;
    if final != plan.target {
      var i :| |s.trace| <= i < |trace| && UnderranBy(s, plan, trace[i]);
      assert UnderranBy(s, plan, more[i]);
      var j :| |s.trace| <= j < |trace| && trace[j].block.number == final.block;
      assert more[j].block.number == final.block;
    }
  }

  /** What holds between rounds. */
  ghost predicate Rewinding(s: Start, plan: Plan, d: Disk, way: Way, hashes: set<Hash>, heights: set<nat>)
  {
    && UsableDisk(s.disk, s.genesis)
    && DataOk(s.disk, d) && FrozenOk(s.disk, d, way.low, way.origin)
    && Doomed(s.disk, d.headers, hashes, heights, way.low, way.origin)
    && PlaceOk(s.disk, s.genesis, d.header, way.low)
    && (if way.origin then d == s.disk else d.block.number <= d.header.number && d.snap.number <= d.header.number)
    && Course(s.disk, s.genesis, plan, way, d.header, d.block)
  }

  lemma {:induction false} BeforeFirstRound(s: Start, plan: Plan)
    requires UsableDisk(s.disk, s.genesis)
    ensures Rewinding(s, plan, s.disk, Way(plan.target, s.disk.header.number + 1, 0, true), {}, {})
  {
    var d := s.disk;
    assert Without(d.headers, d.frozen, d.frozen) == d.headers;
    assert EntriesWithout(d.canonical, d.frozen, d.frozen) == d.canonical;
    assert HashesIn(d.headers, d.frozen, d.frozen) == {};
    CourseStarts(d, s.genesis, plan);
  }

  /** On a valid chain the disk is one that a rewind passes through, before and after its ancient store
      is cut. */
  lemma {:induction false} PassedThrough(s: Start, plan: Plan, d: Disk, way: Way)
    requires UsableDisk(s.disk, s.genesis) && ValidDisk(s.disk, s.genesis) && DataOk(s.disk, d)
    requires Course(s.disk, s.genesis, plan, way, d.header, d.block) && PlaceOk(s.disk, s.genesis, d.header, way.low)
    requires d.frozen == Min(s.disk.frozen, way.low) || d.frozen == Min(s.disk.frozen, way.low + 1)
    ensures Interrupted(s.disk, d)
  {
  }

  /** What was recorded since the start is in order. */
  ghost predicate RecordOk(s: Start, d: Disk, journal: seq<Event>, trace: seq<Disk>)
  {
    OrderOk(Marks(s.disk), s.journal, journal, Marks(d)) && TraceOk(s, trace)
  }

  lemma {:induction false} RecordStep(s: Start, d: Disk, d': Disk, journal: seq<Event>, trace: seq<Disk>, e: Event)
    requires RecordOk(s, d, journal, trace)
    requires if e.Marked? then e == Marks(d') else Marks(d') == Marks(d) && Below(Marks(d), e.heights)
    requires ValidDisk(s.disk, s.genesis) ==> Interrupted(s.disk, d')
    ensures RecordOk(s, d', journal + [e], trace + [d'])
  {
    OrderAppend(Marks(s.disk), s.journal, journal, Marks(d), e);
  }

  /** What the first half of a round may rely on. */
  lemma {:induction false} LowerReady(s: Start, plan: Plan, d: Disk, way: Way, hashes: set<Hash>, heights: set<nat>)
    requires Rewinding(s, plan, d, way, hashes, heights) && 0 < d.header.number
    ensures Keyed(d.headers, s.genesis) && s.genesis.hash in d.bodies && way.low == d.header.number + 1
    ensures var parent := ParentOrGenesis(d.headers, s.genesis, d.header);
            && parent == ParentOrGenesis(s.disk.headers, s.genesis, d.header)
            && PlaceOk(s.disk, s.genesis, parent, d.header.number)
            && UpTo(Blocks(d), parent.number) == UpTo(Blocks(s.disk), parent.number)
            && (WellFormed(Blocks(s.disk), s.genesis) ==> WellFormed(UpTo(Blocks(d), parent.number), s.genesis))
  {
    StillThere(s.disk, d, s.genesis, d.header, way.origin);
    var parent := ParentOrGenesis(d.headers, s.genesis, d.header);
    BlocksBelow(s.disk, d, parent.number);
    if WellFormed(Blocks(s.disk), s.genesis) {
      UpToWellFormed(Blocks(s.disk), s.genesis, parent.number);
    }
  }

  /** The state between the two halves of a round: the markers have left the header of `d` for those
      of `d'`. */
  ghost predicate Halfway(s: Start, plan: Plan, d: Disk, d': Disk, next: Way)
  {
    && d' == d.(header := d'.header, block := d'.block, snap := d'.snap)
    && next == Way(next.final, d.header.number, next.rootNumber, false)
    && PlaceOk(s.disk, s.genesis, d'.header, next.low)
    && d'.block.number <= d'.header.number && d'.snap.number <= d'.header.number
    && Course(s.disk, s.genesis, plan, next, d'.header, d'.block)
  }

  lemma {:induction false} LowerStep(s: Start, plan: Plan, d: Disk, d': Disk, way: Way, next: Way,
                                     hashes: set<Hash>, heights: set<nat>)
    requires Rewinding(s, plan, d, way, hashes, heights) && 0 < d.header.number && !Reached(way.final, d.header)
    requires d' == d.(header := ParentOrGenesis(d.headers, s.genesis, d.header), block := d'.block, snap := d'.snap)
    requires d'.block.number <= d'.header.number && d'.snap.number <= d'.header.number
    requires d'.header.hash in d.headers && d.headers[d'.header.hash] == d'.header
    requires BlockLowered(Blocks(d), s.genesis, plan.query, d'.header, d.block, d'.block,
                          way.rootNumber, next.rootNumber)
    requires var final := InForce(way.final, d'.block, s.disk.frozen, plan.query.pivot);
             next == Way(final, d.header.number, next.rootNumber, false)
    ensures Halfway(s, plan, d, d', next)
    ensures ValidDisk(s.disk, s.genesis) ==> Interrupted(s.disk, d')
  {
    LowerReady(s, plan, d, way, hashes, heights);
    CourseStep(s.disk, s.genesis, plan, Blocks(d), way, d.header, d'.header, d.block, d'.block, next.rootNumber);
    if ValidDisk(s.disk, s.genesis) {
      PassedThrough(s, plan, d', next);
    }
  }

  lemma {:induction false} DropStep(s: Start, plan: Plan, d: Disk, mid: Disk, d': Disk, way: Way, next: Way,
                                    doomedHashes: set<Hash>, doomedHeights: set<nat>,
                                    hashes: set<Hash>, heights: set<nat>)
    requires Rewinding(s, plan, d, way, doomedHashes, doomedHeights) && 0 < d.header.number
    requires Halfway(s, plan, d, mid, next) && Scheduled(s.disk, mid, d.header, hashes, heights, way.origin)
    requires d' == if d.header.number < mid.frozen then Truncated(mid, d.header.number) else mid
    ensures Rewinding(s, plan, d', next, doomedHashes + hashes, doomedHeights + heights)
    ensures ValidDisk(s.disk, s.genesis) ==> Interrupted(s.disk, d')
  {
    LowerReady(s, plan, d, way, doomedHashes, doomedHeights);
    DoomedStep(s.disk, mid, d', d.header, doomedHashes, doomedHeights, hashes, heights, way.origin);
    if d.header.number < mid.frozen {
      TruncatedFurther(s.disk, mid, d.header.number);
    }
    if ValidDisk(s.disk, s.genesis) {
      PassedThrough(s, plan, d', next);
    }
  }

  /** The data that a rewind down to `low` leaves. */
  ghost predicate DataLeft(s: Disk, d: Disk, genesis: Block, low: nat)
  {
    && d.headers == Without(s.headers, low, Cutoff(s))
    && d.canonical == EntriesWithout(s.canonical, low, Cutoff(s))
    && Blocks(d) == Without(Blocks(s), low, Cutoff(s))
    && d.frozen == Min(s.frozen, low) && genesis.hash in d.bodies
  }

  /** What a rewind that made at least one round leaves of the disk `s`.  The data below `way.low` is
      all there and so is whatever lay beyond the sweep; the rest is gone.  The head is within the
      target in force and came there as its course says.  An entry of the canonical map is left above
      the head exactly if a gap shows or one lay beyond the sweep; and what is left of a valid chain
      is a valid chain. */
  ghost predicate Rewound(s: Disk, d: Disk, genesis: Block, plan: Plan, way: Way)
  {
    && !way.origin && Reached(way.final, d.header) && Course(s, genesis, plan, way, d.header, d.block)
    && DataLeft(s, d, genesis, way.low)
    && d.block.number <= d.header.number && d.snap.number <= d.header.number
    && (NoEntryFrom(d.canonical, d.header.number + 1) <==>
          !GapShows(s, way.final) && NoEntryFrom(s.canonical, Cutoff(s)))
    && (ValidDisk(s, genesis) ==> ValidDisk(d, genesis))
  }

  ghost function WithoutData(d: Disk, hashes: set<Hash>, heights: set<nat>): Disk
  {
    d.(headers := d.headers - hashes, bodies := d.bodies - hashes, canonical := d.canonical - heights)
  }

  lemma {:induction false} NothingDropped(d: Disk)
    ensures WithoutData(d, {}, {}) == d
  {
    assert d.headers - {} == d.headers && d.canonical - {} == d.canonical && d.bodies - {} == d.bodies;
  }

  lemma {:induction false} RewoundIsCut(s: Disk, d: Disk, genesis: Block, plan: Plan, way: Way)
    requires ValidDisk(s, genesis) && !way.origin && Course(s, genesis, plan, way, d.header, d.block)
    requires d.header.hash in s.headers && s.headers[d.header.hash] == d.header
    requires DataLeft(s, d, genesis, way.low)
    ensures CutAt(s, d, genesis)
  {
    SweepAll(s);
    assert forall n :: n in s.canonical ==> n < Cutoff(s);
    SweptHeaders(s, d.header.number);
    SweptEntries(s, d.header.number);
  }

  lemma {:induction false} DataIsLeft(s: Start, plan: Plan, d: Disk, way: Way, hashes: set<Hash>, heights: set<nat>)
    requires Rewinding(s, plan, d, way, hashes, heights) && !way.origin
    ensures DataLeft(s.disk, WithoutData(d, hashes, heights), s.genesis, way.low)
  {
    Flushed(s.disk, d, hashes, heights, way.low);
    assert s.genesis.hash !in hashes;
    assert s.genesis.number < d.frozen || d.frozen == s.disk.frozen;
  }

  lemma {:induction false} Finished(s: Start, plan: Plan, d: Disk, way: Way, hashes: set<Hash>, heights: set<nat>)
    requires Rewinding(s, plan, d, way, hashes, heights) && !way.origin && Reached(way.final, d.header)
    ensures Rewound(s.disk, WithoutData(d, hashes, heights), s.genesis, plan, way)
  {
    var e := WithoutData(d, hashes, heights);
    DataIsLeft(s, plan, d, way, hashes, heights);
    LeftAbove(s.disk, s.genesis, way.final, d.header, way.low);
    if ValidDisk(s.disk, s.genesis) {
      RewoundIsCut(s.disk, e, s.genesis, plan, way);
      CutIsValid(s.disk, e, s.genesis);
    }
  }

  /** A head block that underran the ancient store has taken the header along. */
  lemma {:induction false} HeadTakenAlong(s: Start, plan: Plan, d: Disk, way: Way)
    requires Rewound(s.disk, d, s.genesis, plan, way) && d.block.number + 1 < s.disk.frozen
    requires plan.query.pivot.None? || d.block.number >= plan.query.pivot.value
    ensures d.header.number == d.block.number || (plan.target.time > 0 && d.block.time >= plan.target.time)
  {
  }

  /** A timestamp is the target as long as no head block was earlier. */
  lemma {:induction false} TimeKept(s: Start, plan: Plan, d: Disk, way: Way, trace: seq<Disk>)
    requires Rewound(s.disk, d, s.genesis, plan, way) && Forced(s, plan, way.final, trace) && plan.target.time > 0
    requires forall i :: |s.trace| <= i < |trace| ==> trace[i].block.time >= plan.target.time
    ensures d.header.time <= plan.target.time && way.final == plan.target
  {
  }

  /** A rewind of an interrupted rewind goes on along the old path. */
  lemma {:induction false} PathAgain(v: Disk, d: Disk, genesis: Block, final: Target, head: Block, low: nat)
    requires ValidDisk(v, genesis) && Interrupted(v, d) && Descended(d, genesis, final, head, low)
    ensures low == head.number + 1 && Ancestral(v, head)
  {
    InterruptedUsable(v, d, genesis);
    assert Extends(d.headers, v.headers);
    BottomIsZero(d.headers, v.headers, d.header);
    LeftIsAncestor(d.headers, v.headers, d.header, head, final);
    AncestorOfAncestor(v.headers, v.header.hash, d.header.number, head.number);
  }

  lemma {:induction false} AgainIs(v: Disk, d: Disk, e: Disk, genesis: Block, low: nat)
    requires Closed(v.headers) && v.header.hash in v.headers && Ancestral(v, e.header)
    requires DataLeft(d, e, genesis, low) && low == e.header.number + 1 <= d.header.number
    ensures RewoundAgain(v, d, e, genesis)
  {
  }

  class Chain {
    const genesis: Block

    var headers: Store            // all stored headers, frozen or not
    var bodies: set<Hash>         // which of them have a body
    var canonical: map<nat, Hash>
    var frozen: nat               // heights below this one live in the ancient store
    var headHeader: Block
    var headBlock: Block
    var headSnap: Block
    ghost var journal: seq<Event>
    ghost var trace: seq<Disk>    // the disk after every write that reached it

    ghost function Now(): Disk
      reads this
    {
      Disk(headers, bodies, canonical, frozen, headHeader, headBlock, headSnap)
    }

    ghost predicate Usable()
      reads this
    {
      UsableDisk(Now(), genesis)
    }

    ghost predicate Valid()
      reads this
    {
      ValidDisk(Now(), genesis)
    }

    ghost function Snapshot(): Start
      reads this
    {
      Start(genesis, Now(), journal, trace)
    }

    constructor (genesis: Block, headers: Store, bodies: set<Hash>, canonical: map<nat, Hash>, frozen: nat,
                 headHeader: Block, headBlock: Block, headSnap: Block)
      ensures this.genesis == genesis
      ensures Now() == Disk(headers, bodies, canonical, frozen, headHeader, headBlock, headSnap)
      ensures journal == [] && trace == []
    {
      this.genesis, this.headers, this.bodies, this.canonical := genesis, headers, bodies, canonical;
      this.frozen, this.headHeader, this.headBlock, this.headSnap := frozen, headHeader, headBlock, headSnap;
      journal, trace := [], [];
    }

    /** The callback that lowers the head block and the snap block to at most `target`. */
    method LowerHeads(target: Block, q: Query, frozenBefore: nat, rootBefore: nat)
      returns (crashed: bool, force: bool, rootNumber: nat)
      requires Keyed(headers, genesis) && genesis.hash in bodies
      requires target.hash in headers && headers[target.hash] == target
      modifies `headBlock, `headSnap
      ensures crashed <==>
                && target.number <= old(headBlock).number && target.hash in bodies
                && Dangles(Bodied(headers, bodies), q, target)
      ensures WellFormed(UpTo(Bodied(headers, bodies), target.number), genesis) ==> !crashed
      ensures !crashed ==>
                && headBlock.number <= target.number && headSnap.number <= target.number
                && force == (&& headBlock.number + 1 < frozenBefore
                             && (q.pivot.None? || headBlock.number >= q.pivot.value))
                && BlockLowered(Bodied(headers, bodies), genesis, q, target, old(headBlock), headBlock,
                                rootBefore, rootNumber)
                && headSnap == if target.number >= old(headSnap).number then old(headSnap)
                               else if target.hash in bodies then target else genesis
    {
      crashed, force, rootNumber := false, false, rootBefore;
      var blocks := Bodied(headers, bodies);
      if target.number <= headBlock.number {
        var there := Get(blocks, target.hash, target.number);
        if there.None? {
          headBlock := genesis;
        } else {
          var found;
          found, rootNumber := FindStateful(blocks, genesis, q, there.value, rootBefore);
          if found.None? {
            return true, false, rootNumber;
          }
          headBlock := found.value;
        }
      }
      if target.number < headSnap.number {
        var there := Get(blocks, target.hash, target.number);
        headSnap := if there.Some? then there.value else genesis;
      }
      force := headBlock.number + 1 < frozenBefore && (q.pivot.None? || headBlock.number >= q.pivot.value);
    }

    /** The first half of a round: lower all three markers to the parent and persist them. */
    method LowerMarkers(final: Target, q: Query, frozenBefore: nat, rootBefore: nat)
      returns (crashed: bool, next: Target, rootNumber: nat)
      requires Keyed(headers, genesis) && genesis.hash in bodies && headHeader.number > 0
      modifies `headHeader, `headBlock, `headSnap, `journal, `trace
      ensures var parent := ParentOrGenesis(headers, genesis, old(headHeader));
              && (q.root == ZERO || WellFormed(UpTo(Bodied(headers, bodies), parent.number), genesis) ==> !crashed)
              && (crashed ==> journal == old(journal) && trace == old(trace))
              && (!crashed ==>
                    && headHeader == parent && parent.hash in headers && headers[parent.hash] == parent
                    && headBlock.number <= parent.number && headSnap.number <= parent.number
                    && journal == old(journal) + [Marks(Now())] && trace == old(trace) + [Now()]
                    && BlockLowered(Bodied(headers, bodies), genesis, q, parent, old(headBlock), headBlock,
                                    rootBefore, rootNumber)
                    && next == InForce(final, headBlock, frozenBefore, q.pivot))
    {
      next := final;
      var parent := ParentOrGenesis(headers, genesis, headHeader);
      var force;
      crashed, force, rootNumber := LowerHeads(parent, q, frozenBefore, rootBefore);
      if crashed {
        return;
      }
      if force && (if final.time > 0 then headBlock.time < final.time else headBlock.number < final.block) {
        next := Target(headBlock.number, 0);
      }
      headHeader := parent;
      journal := journal + [Marks(Now())];
      trace := trace + [Now()];
    }

    /** Schedules the removal of one height.  If it is frozen the ancient store is cut back to it at
        once, and with it goes everything frozen above. */
    method DropHeight(hdr: Block) returns (hashes: set<Hash>)
      modifies `headers, `bodies, `canonical, `frozen, `journal, `trace
      ensures hashes == if AllHashes(old(headers), old(frozen), hdr.number) == {} then {hdr.hash}
                        else AllHashes(old(headers), old(frozen), hdr.number)
      ensures if hdr.number < old(frozen) then
                && Now() == Truncated(old(Now()), hdr.number)
                && journal == old(journal) + [Dropped(Range(hdr.number, old(frozen)))]
                && trace == old(trace) + [Now()]
              else unchanged(`headers, `canonical, `bodies, `frozen, `journal, `trace)
    {
      hashes := AllHashes(headers, frozen, hdr.number);
      if hashes == {} {
        hashes := {hdr.hash};
      }
      if hdr.number + 1 <= frozen {
        journal := journal + [Dropped(Range(hdr.number, frozen))];
        bodies := bodies - HashesIn(headers, hdr.number, frozen);
        headers := Without(headers, hdr.number, frozen);
        canonical := EntriesWithout(canonical, hdr.number, frozen);
        frozen := hdr.number;
        trace := trace + [Now()];
      }
    }

    /** The second half: schedule the removal of the height left behind and, in the first round, of
        everything listed above it. */
    method DropRound(hdr: Block, origin: bool, ghost s: Disk) returns (hashes: set<Hash>, heights: set<nat>)
      requires origin ==> headers == s.headers && frozen == s.frozen && hdr == s.header
      modifies `headers, `bodies, `canonical, `frozen, `journal, `trace
      ensures Scheduled(s, old(Now()), hdr, hashes, heights, origin)
      ensures if hdr.number < old(frozen) then
                && Now() == Truncated(old(Now()), hdr.number)
                && journal == old(journal) + [Dropped(Range(hdr.number, old(frozen)))]
                && trace == old(trace) + [Now()]
              else unchanged(`headers, `canonical, `bodies, `frozen, `journal, `trace)
    {
      hashes, heights := {}, {};
      if origin {
        hashes, heights := ListedAbove(headers, frozen, hdr.number);
      }
      var here := DropHeight(hdr);
      hashes, heights := hashes + here, heights + {hdr.number};
    }

    /** Lowering the markers keeps the record in order and the rewind on course. */
    method RoundLower(plan: Plan, way: Way, frozenBefore: nat, ghost s: Start, ghost hashes: set<Hash>,
                      ghost heights: set<nat>)
      returns (crashed: bool, next: Way)
      requires s.genesis == genesis && frozenBefore == s.disk.frozen && RecordOk(s, Now(), journal, trace)
      requires Rewinding(s, plan, Now(), way, hashes, heights) && Forced(s, plan, way.final, trace)
      requires 0 < headHeader.number && !Reached(way.final, headHeader)
      modifies `headHeader, `headBlock, `headSnap, `journal, `trace
      ensures plan.query.root == ZERO || WellFormed(Blocks(s.disk), genesis) ==> !crashed
      ensures crashed ==> journal == old(journal) && trace == old(trace)
      ensures !crashed ==> Halfway(s, plan, old(Now()), Now(), next) && RecordOk(s, Now(), journal, trace)
      ensures !crashed ==> Forced(s, plan, next.final, trace)
    {
      var num := headHeader.number;
      ghost var before := Now();
      next := way;
      LowerReady(s, plan, before, way, hashes, heights);
      var final, rootNumber;
      crashed, final, rootNumber := LowerMarkers(way.final, plan.query, frozenBefore, way.rootNumber);
      if !crashed {
        next := Way(final, num, rootNumber, false);
        LowerStep(s, plan, before, Now(), way, next, hashes, heights);
        RecordStep(s, before, Now(), old(journal), old(trace), Marks(Now()));
        ForcedStep(s, plan, way.final, old(trace), Now());
      }
    }

    /** Dropping a height that all markers have left keeps the rest of the data. */
    method RoundDrop(hdr: Block, way: Way, next: Way, ghost s: Start, ghost plan: Plan, ghost before: Disk,
                     ghost doomedHashes: set<Hash>, ghost doomedHeights: set<nat>)
      returns (hashes: set<Hash>, heights: set<nat>)
      requires s.genesis == genesis && RecordOk(s, Now(), journal, trace)
      requires Rewinding(s, plan, before, way, doomedHashes, doomedHeights) && 0 < hdr.number && hdr == before.header
      requires Halfway(s, plan, before, Now(), next) && Forced(s, plan, next.final, trace)
      modifies `headers, `bodies, `canonical, `frozen, `journal, `trace
      ensures Rewinding(s, plan, Now(), next, doomedHashes + hashes, doomedHeights + heights)
      ensures RecordOk(s, Now(), journal, trace) && headHeader == old(headHeader)
      ensures Forced(s, plan, next.final, trace)
    {
      ghost var mid := Now();
      hashes, heights := DropRound(hdr, way.origin, s.disk);
      DropStep(s, plan, before, mid, Now(), way, next, doomedHashes, doomedHeights, hashes, heights);
      if hdr.number < mid.frozen {
        RecordStep(s, mid, Now(), old(journal), old(trace), Dropped(Range(hdr.number, mid.frozen)));
        ForcedStep(s, plan, next.final, old(trace), Now());
      }
    }

    /** One round of a rewind: first the markers, then the data. */
    method Round(plan: Plan, way: Way, frozenBefore: nat, ghost s: Start, ghost doomedHashes: set<Hash>,
                 ghost doomedHeights: set<nat>)
      returns (crashed: bool, next: Way, hashes: set<Hash>, heights: set<nat>)
      requires s.genesis == genesis && frozenBefore == s.disk.frozen && RecordOk(s, Now(), journal, trace)
      requires Rewinding(s, plan, Now(), way, doomedHashes, doomedHeights) && Forced(s, plan, way.final, trace)
      requires 0 < headHeader.number && !Reached(way.final, headHeader)
      modifies this
      ensures plan.query.root == ZERO || WellFormed(Blocks(s.disk), genesis) ==> !crashed
      ensures crashed ==> journal == old(journal) && trace == old(trace)
      ensures !crashed ==>
                && Rewinding(s, plan, Now(), next, doomedHashes + hashes, doomedHeights + heights)
                && RecordOk(s, Now(), journal, trace) && Forced(s, plan, next.final, trace)
                && headHeader.number < old(headHeader).number && !next.origin
    {
      hashes, heights := {}, {};
      var hdr := headHeader;
      ghost var before := Now();
      crashed, next := RoundLower(plan, way, frozenBefore, s, doomedHashes, doomedHeights);
      if !crashed {
        hashes, heights := RoundDrop(hdr, way, next, s, plan, before, doomedHashes, doomedHeights);
      }
    }

    /** The rewind loop: round after round until the target in force is reached. */
    method Rounds(plan: Plan, ghost s: Start)
      returns (crashed: bool, way: Way, doomedHashes: set<Hash>, doomedHeights: set<nat>)
      requires s == Snapshot() && Usable()
      requires plan.target.time > 0 ==> genesis.time <= plan.target.time
      modifies this
      ensures plan.query.root == ZERO || WellFormed(Blocks(s.disk), genesis) ==> !crashed
      ensures crashed ==>
                && s.journal <= journal && Orderly(Marks(s.disk), journal[|s.journal|..])
                && TraceOk(s, trace)
      ensures !crashed ==>
                && Rewinding(s, plan, Now(), way, doomedHashes, doomedHeights) && RecordOk(s, Now(), journal, trace)
                && Reached(way.final, headHeader) && Forced(s, plan, way.final, trace)
      ensures !crashed ==> (way.origin <==> Reached(plan.target, s.disk.header))
    {
      var frozenBefore := frozen;
      crashed, doomedHashes, doomedHeights := false, {}, {};
      way := Way(plan.target, headHeader.number + 1, 0, true);
      BeforeFirstRound(s, plan);
      assert journal[|journal|..] == [];
      while !Reached(way.final, headHeader)
        invariant Rewinding(s, plan, Now(), way, doomedHashes, doomedHeights) && !crashed
        invariant RecordOk(s, Now(), journal, trace) && Forced(s, plan, way.final, trace)
        invariant !way.origin ==> !Reached(plan.target, s.disk.header)
        decreases headHeader.number
      {
        var hashes, heights;
        crashed, way, hashes, heights := Round(plan, way, frozenBefore, s, doomedHashes, doomedHeights);
        if crashed {
          return;
        }
        doomedHashes, doomedHeights := doomedHashes + hashes, doomedHeights + heights;
      }
    }

    /** Writes out the accumulated deletions. */
    method Flush(hashes: set<Hash>, heights: set<nat>, ghost s: Start)
      requires RecordOk(s, Now(), journal, trace) && Below(Marks(Now()), heights)
      modifies `headers, `bodies, `canonical, `journal, `trace
      ensures Now() == WithoutData(old(Now()), hashes, heights)
      ensures OrderOk(Marks(s.disk), s.journal, journal, Marks(Now())) && trace == old(trace) + [Now()]
    {
      OrderAppend(Marks(s.disk), s.journal, journal, Marks(Now()), Dropped(heights));
      headers, bodies, canonical := headers - hashes, bodies - hashes, canonical - heights;
      journal := journal + [Dropped(heights)];
      trace := trace + [Now()];
    }

    /** The loop and the final write. */
    method RoundsAndFlush(plan: Plan, ghost s: Start) returns (crashed: bool, way: Way)
      requires s == Snapshot() && Usable()
      requires plan.target.time > 0 ==> genesis.time <= plan.target.time
      modifies this
      ensures plan.query.root == ZERO || WellFormed(Blocks(s.disk), genesis) ==> !crashed
      ensures s.journal <= journal && Orderly(Marks(s.disk), journal[|s.journal|..])
      ensures s.trace <= trace
      ensures ValidDisk(s.disk, genesis) ==>
                forall i {:trigger trace[i]} :: |s.trace| <= i < |trace| && (crashed || i + 1 < |trace|) ==>
                  Interrupted(s.disk, trace[i])
      ensures !crashed ==>
                if Reached(plan.target, s.disk.header) then Now() == s.disk
                else
                  && headHeader.number < s.disk.header.number && Rewound(s.disk, Now(), genesis, plan, way)
                  && Forced(s, plan, way.final, trace)
    {
      var hashes, heights;
      crashed, way, hashes, heights := Rounds(plan, s);
      if crashed {
        return;
      }
      ghost var before := trace;
      if way.origin {
        NothingDropped(Now());
      } else {
        Finished(s, plan, Now(), way, hashes, heights);
      }
      Flush(hashes, heights, s);
      assert forall i {:trigger trace[i]} :: 0 <= i < |before| ==> trace[i] == before[i];
      if !way.origin {
        ForcedStep(s, plan, way.final, before, Now());
      }
    }

    /** Rewinds the chain as planned.  If the head header is within the target already nothing changes,
        whatever lies above it.  A head block below the ancient store takes the header down with it,
        unless it is below the pivot or, with a timestamp, late enough; and a timestamp stays the target
        while no head block was earlier.  Markers always reach the disk before the data above them goes,
        also if the search for state falls; and if the chain was valid, whatever is on disk before the
        last write is an interrupted rewind. */
    method SetHead(plan: Plan) returns (rejected: bool, crashed: bool, way: Way)
      requires Usable()
      modifies this
      ensures rejected <==> plan.target.time > 0 && genesis.time > plan.target.time
      ensures plan.query.root == ZERO || old(WellFormed(Blocks(Now()), genesis)) ==> !crashed
      ensures old(journal) <= journal && Orderly(old(Marks(Now())), journal[|old(journal)|..])
      ensures old(trace) <= trace
      ensures old(Valid()) ==>
                forall i {:trigger trace[i]} :: |old(trace)| <= i < |trace| && (crashed || i + 1 < |trace|) ==>
                  Interrupted(old(Now()), trace[i])
      ensures rejected ==> Now() == old(Now()) && trace == old(trace)
      ensures !rejected && !crashed ==>
                if Reached(plan.target, old(headHeader)) then Now() == old(Now())
                else headHeader.number < old(headHeader).number && Rewound(old(Now()), Now(), genesis, plan, way)
      ensures !rejected && !crashed && !Reached(plan.target, old(headHeader)) ==>
                Forced(old(Snapshot()), plan, way.final, trace)
      ensures && !rejected && !crashed && !Reached(plan.target, old(headHeader))
              && headBlock.number + 1 < old(frozen)
              && (plan.query.pivot.None? || headBlock.number >= plan.query.pivot.value) ==>
                || headHeader.number == headBlock.number
                || (plan.target.time > 0 && headBlock.time >= plan.target.time)
      ensures && !rejected && !crashed && !Reached(plan.target, old(headHeader)) && plan.target.time > 0
              && (forall i :: |old(trace)| <= i < |trace| ==> trace[i].block.time >= plan.target.time) ==>
                headHeader.time <= plan.target.time && way.final == plan.target
    {
      ghost var s := Snapshot();
      rejected, crashed, way := false, false, Way(plan.target, headHeader.number + 1, 0, true);
      if plan.target.time > 0 && genesis.time > plan.target.time {
        assert journal[|journal|..] == [];
        rejected := true;
        return;
      }
      crashed, way := RoundsAndFlush(plan, s);
      if !crashed && !Reached(plan.target, s.disk.header) {
        if headBlock.number + 1 < s.disk.frozen
           && (plan.query.pivot.None? || headBlock.number >= plan.query.pivot.value) {
          HeadTakenAlong(s, plan, Now(), way);
        }
        if plan.target.time > 0
           && forall i :: |s.trace| <= i < |trace| ==> trace[i].block.time >= plan.target.time {
          TimeKept(s, plan, Now(), way, trace);
        }
      }
    }

    /** Rewinding again after a rewind of the valid disk `v` was cut short: if at least one round is
        made, the chain is valid afterwards if and only if the first rewind had not yet come down into
        the ancient store, or nothing lay above that store. */
    method SetHeadAgain(plan: Plan, ghost v: Disk) returns (rejected: bool, crashed: bool, way: Way)
      requires ValidDisk(v, genesis) && Interrupted(v, Now())
      modifies this
      ensures !rejected && !crashed && !Reached(plan.target, old(headHeader)) ==>
                (Valid() <==> v.frozen <= old(headHeader).number + 1 || AllFrozen(v))
    {
      ghost var d := Now();
      InterruptedUsable(v, d, genesis);
      rejected, crashed, way := SetHead(plan);
      if !rejected && !crashed && !Reached(plan.target, d.header) {
        PathAgain(v, d, genesis, way.final, headHeader, way.low);
        AgainIs(v, d, Now(), genesis, way.low);
        RecoveredExactly(v, d, Now(), genesis);
      }
    }
  }

  /** A rewind to genesis of two headers with a gap between them: the head falls to genesis and the
      canonical entry in the gap stays. */
  method RewindAcrossGap(chain: Chain)
    requires chain.genesis == BLOCK_0
    requires chain.Now() == Disk(map[1 := BLOCK_0, 3 := BLOCK_2], {1}, map[0 := 1, 1 := 2, 2 := 3], 0,
                                 BLOCK_2, BLOCK_0, BLOCK_0)
    modifies chain
    ensures chain.headHeader == BLOCK_0 && 1 in chain.canonical
  {
    ghost var before := chain.Now();
    var rejected, crashed, way := chain.SetHead(Plan(Target(0, 0), Query({5}, ZERO, None)));
    assert 1 in before.canonical;
  }

  /** A rewind to where the head header is: nothing is done, and the entry above the head stays although
      no header is missing. */
  method RewindToHere(chain: Chain)
    requires chain.genesis == BLOCK_0
    requires chain.Now() == Disk(map[1 := BLOCK_0, 2 := BLOCK_1], {1, 2}, map[0 := 1, 1 := 2], 0,
                                 BLOCK_0, BLOCK_0, BLOCK_0)
    modifies chain
    ensures chain.headHeader == BLOCK_0 && 1 in chain.canonical
  {
    var rejected, crashed, way := chain.SetHead(Plan(Target(0, 0), Query({5}, ZERO, None)));
  }
}
