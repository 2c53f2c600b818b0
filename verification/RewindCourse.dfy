/**
 Where a rewind goes: the target in force, how the head header comes down, and where the head block
 ends.
 */
module RewindCourse {
  import opened BlockTree
  import opened StateSearch
  import opened RewindSteps

  /** Where a rewind is headed: a block number, or with a positive time a timestamp. */
  datatype Target = Target(block: nat, time: nat)

  /** What a rewind is asked for. */
  datatype Plan = Plan(target: Target, query: Query)

  predicate Reached(t: Target, header: Block)
  {
    if t.time > 0 then header.time <= t.time else header.number <= t.block
  }

  // ----- the target in force

  /** A head block that lies below the target and below the ancient store, but not below the pivot. */
  predicate Underran(target: Target, block: Block, frozenBefore: nat, pivot: Option<nat>)
  {
    && block.number + 1 < frozenBefore
    && (pivot.Some? ==> pivot.value <= block.number)
    && (target.time == 0 ==> block.number < target.block)
    && (target.time > 0 ==> block.time < target.time)
  }

  /** The target in force once the head block is `block`: a head block that underran both the target
      and the ancient store, but not the pivot, becomes the target. */
  function InForce(target: Target, block: Block, frozenBefore: nat, pivot: Option<nat>): (r: Target)
    ensures r == target <==> !Underran(target, block, frozenBefore, pivot)
    ensures r != target ==> r.time == 0 && r.block == block.number
    ensures !Underran(r, block, frozenBefore, pivot)
  {
    if && block.number + 1 < frozenBefore && (pivot.None? || block.number >= pivot.value)
       && (if target.time > 0 then block.time < target.time else block.number < target.block)
    then Target(block.number, 0) else target
  }

  /** `final` is `target`, or was lowered to a height that the ancient store had passed. */
  predicate Lowered(target: Target, final: Target, frozenBefore: nat, pivot: Option<nat>)
  {
    || final == target
    || (&& final.time == 0 && (target.time == 0 ==> final.block < target.block)
        && final.block + 1 < frozenBefore && (pivot.None? || final.block >= pivot.value))
  }

  // ----- the way down

  /** The lowest header that parent links lead to; above height zero, its parent is missing. */
  ghost function Bottom(headers: Store, b: Block): Block
    decreases b.number
  {
    if b.number == 0 then b
    else
      var parent := Get(headers, b.parent, b.number - 1);
      if parent.None? then b else Bottom(headers, parent.value)
  }

  /** Parent links lead to a header within the target. */
  ghost predicate Reaches(headers: Store, b: Block, target: Target)
    decreases b.number
  {
    || Reached(target, b)
    || (&& b.number > 0
        && var parent := Get(headers, b.parent, b.number - 1);
           parent.Some? && Reaches(headers, parent.value, target))
  }

  /** Parent links lead from `b` to `head`, and every header passed is beyond the target. */
  ghost predicate Left(headers: Store, b: Block, head: Block, target: Target)
    decreases b.number
  {
    || b == head
    || (&& b.number > 0 && !Reached(target, b)
        && var parent := Get(headers, b.parent, b.number - 1);
           parent.Some? && Left(headers, parent.value, head, target))
  }

  /** The headers passed do not change where the links end, nor whether they reach the target. */
  lemma {:induction false} LeftKeeps(headers: Store, b: Block, head: Block, target: Target)
    requires Left(headers, b, head, target)
    ensures Bottom(headers, b) == Bottom(headers, head)
    ensures Reaches(headers, b, target) <==> Reaches(headers, head, target)
    ensures head.number <= b.number
    decreases b.number
  {
    if b != head {
      LeftKeeps(headers, Get(headers, b.parent, b.number - 1).value, head, target);
    }
  }

  lemma {:induction false} LeftOneMore(headers: Store, b: Block, hdr: Block, head: Block, target: Target)
    requires Left(headers, b, hdr, target) && 0 < hdr.number && !Reached(target, hdr)
    requires Get(headers, hdr.parent, hdr.number - 1) == Some(head)
    ensures Left(headers, b, head, target)
    decreases b.number
  {
    if b != hdr {
      LeftOneMore(headers, Get(headers, b.parent, b.number - 1).value, hdr, head, target);
    }
  }

  /** A target no higher than the header reached is beyond reach of all headers passed as well. */
  lemma {:induction false} LeftLower(headers: Store, b: Block, head: Block, target: Target, lower: Target)
    requires Left(headers, b, head, target) && lower.time == 0 && lower.block <= head.number
    ensures Left(headers, b, head, lower)
    decreases b.number
  {
    if b != head {
      var parent := Get(headers, b.parent, b.number - 1).value;
      LeftKeeps(headers, parent, head, target);
      LeftLower(headers, parent, head, target, lower);
    }
  }

  /** In a closed store that holds the headers of another, links lead to ancestors. */
  lemma {:induction false} LeftIsAncestor(headers: Store, closed: Store, b: Block, head: Block, target: Target)
    requires Closed(closed) && Extends(headers, closed) && b.hash in closed && closed[b.hash] == b
    requires Left(headers, b, head, target)
    ensures head.number <= b.number && head.hash in closed && closed[head.hash] == head
    ensures head.hash == AncestorAt(closed, b.hash, head.number)
    decreases b.number
  {
    assert Placed(closed, b.hash);
    if b != head {
      var parent := Get(headers, b.parent, b.number - 1).value;
      assert Placed(closed, b.parent);
      LeftIsAncestor(headers, closed, parent, head, target);
    }
  }

  /** Where nothing is missing below, links lead to height zero. */
  lemma {:induction false} BottomIsZero(headers: Store, closed: Store, b: Block)
    requires Closed(closed) && b.hash in closed && closed[b.hash] == b && Extends(headers, closed)
    requires forall h :: h in closed && closed[h].number <= b.number ==> h in headers
    ensures Bottom(headers, b).number == 0
    decreases b.number
  {
    if b.number > 0 {
      assert Placed(closed, b.hash);
      assert Placed(closed, b.parent);
      BottomIsZero(headers, closed, headers[b.parent]);
    }
  }

  /** The head header came down by parent links past headers beyond the target in force, or fell to
      genesis from the lowest of them. */
  ghost predicate Descended(s: Disk, genesis: Block, final: Target, head: Block, low: nat)
  {
    || (low == head.number + 1 && Left(s.headers, s.header, head, final))
    || (&& head == genesis && 0 < low == Bottom(s.headers, s.header).number
        && !Reaches(s.headers, s.header, final))
  }

  lemma {:induction false} DescendedStep(s: Disk, genesis: Block, final: Target, hdr: Block, after: Block,
                                         pivot: Option<nat>)
    requires Keyed(s.headers, genesis) && 0 < hdr.number && Descended(s, genesis, final, hdr, hdr.number + 1)
    requires !Reached(final, hdr) && after.number <= ParentOrGenesis(s.headers, genesis, hdr).number
    ensures Descended(s, genesis, InForce(final, after, s.frozen, pivot), ParentOrGenesis(s.headers, genesis, hdr),
                      hdr.number)
  {
    var next := InForce(final, after, s.frozen, pivot);
    var parent := Get(s.headers, hdr.parent, hdr.number - 1);
    if parent.Some? {
      LeftOneMore(s.headers, s.header, hdr, parent.value, final);
      if next != final {
        LeftLower(s.headers, s.header, parent.value, final, next);
      }
    } else {
      if next != final {
        LeftLower(s.headers, s.header, hdr, final, next);
      }
      LeftKeeps(s.headers, s.header, hdr, next);
    }
  }

  // ----- no lower than asked

  /** In a closed store the head header is an ancestor of the old one. */
  ghost predicate OnPath(s: Disk, head: Block, low: nat)
    requires Closed(s.headers) && s.header.hash in s.headers
  {
    && low == head.number + 1 && head.number <= s.headers[s.header.hash].number
    && head.hash == AncestorAt(s.headers, s.header.hash, head.number)
  }

  lemma {:induction false} OnPathStep(s: Disk, genesis: Block, head: Block)
    requires UsableDisk(s, genesis) && Closed(s.headers) && OnPath(s, head, head.number + 1) && 0 < head.number
    requires head.hash in s.headers && s.headers[head.hash] == head
    ensures OnPath(s, ParentOrGenesis(s.headers, genesis, head), head.number)
  {
    assert Placed(s.headers, head.hash);
    AncestorParent(s.headers, s.header.hash, head.number);
    assert Placed(s.headers, head.parent);
  }

  /** A rewound head is no lower than `final` asks for: its child on the old path was still beyond it. */
  ghost predicate NoLower(headers: Store, top: Hash, final: Target, number: nat)
    requires Closed(headers) && top in headers
  {
    if final.time == 0 then final.block <= number
    else
      && number < headers[top].number
      && headers[AncestorAt(headers, top, number + 1)].time > final.time
  }

  /** Leaving a header beyond the target for its parent goes no lower than the target in force. */
  lemma {:induction false} NoLowerStep(s: Disk, genesis: Block, hdr: Block, head: Block, target: Target, block: Block,
                                       pivot: Option<nat>)
    requires UsableDisk(s, genesis) && Closed(s.headers)
    requires OnPath(s, hdr, hdr.number + 1) && OnPath(s, head, hdr.number)
    requires hdr.hash in s.headers && s.headers[hdr.hash] == hdr
    requires !Reached(target, hdr) && block.number <= head.number
    ensures NoLower(s.headers, s.header.hash, InForce(target, block, s.frozen, pivot), head.number)
  {
  }

  // ----- the head block

  /** What the callback makes of the head block and of the root number when the header goes down to
      `target`. */
  ghost predicate BlockLowered(blocks: Store, genesis: Block, q: Query, target: Block,
                               before: Block, after: Block, rootBefore: nat, rootNumber: nat)
    requires target.hash in blocks ==> blocks[target.hash] == target
  {
    && (target.number > before.number ==> after == before && rootNumber == rootBefore)
    && (target.number <= before.number ==> after.number <= target.number)
    && (target.number <= before.number && target.hash !in blocks ==> after == genesis && rootNumber == rootBefore)
    && (target.number <= before.number && target.hash in blocks && WellFormed(UpTo(blocks, target.number), genesis) ==>
          var below := UpTo(blocks, target.number);
          && Picked(below, genesis, q, target.hash, after)
          && (q.pivot.None? ==> RootFound(below, q, target.hash, rootBefore, rootNumber)))
  }

  /** Headers and bodies are complete, and the head block lies on the header chain. */
  ghost predicate Tidy(s: Disk, genesis: Block)
  {
    && WellFormed(s.headers, genesis) && WellFormed(Blocks(s), genesis)
    && s.header.hash in s.headers && s.headers[s.header.hash] == s.header
    && s.block.hash in Blocks(s) && Blocks(s)[s.block.hash] == s.block && s.block.number <= s.header.number
    && s.block.hash == AncestorAt(s.headers, s.header.hash, s.block.number)
  }

  /** The block of a tidy chain at a height up to the head block's. */
  ghost function PathHash(s: Disk, genesis: Block, n: nat): (h: Hash)
    requires Tidy(s, genesis) && n <= s.block.number
    ensures h in Blocks(s) && Blocks(s)[h].number == n
  {
    AncestorAt(Blocks(s), s.block.hash, n)
  }

  lemma {:induction false} PathHasBodies(s: Disk, genesis: Block, n: nat)
    requires Tidy(s, genesis) && n <= s.block.number
    ensures AncestorAt(s.headers, s.header.hash, n) == PathHash(s, genesis, n)
  {
    AncestorOfAncestor(s.headers, s.header.hash, s.block.number, n);
    AncestorStable(Blocks(s), s.headers, s.block.hash, n);
  }

  /** The height of the first search: the callback searches when the header comes down to the head
      block. */
  function FirstSearch(s: Disk): int
  {
    if s.block.number < s.header.number then s.block.number else s.header.number - 1
  }

  /** The head block and root number once the header is down at height `n`: those of the first search
      at its height, and below, those found for the height above unless the header has come down to
      that head block, in which case the search is made anew. */
  ghost predicate BlockAt(s: Disk, genesis: Block, q: Query, n: nat, r: Block, k: nat)
    requires Tidy(s, genesis) && n <= FirstSearch(s)
    decreases FirstSearch(s) - n
  {
    if n == FirstSearch(s) then SearchedFrom(s, genesis, q, n, r, 0, k)
    else
      exists r0, k0 :: BlockAt(s, genesis, q, n + 1, r0, k0) && NextBlock(s, genesis, q, n, r0, k0, r, k)
  }

  ghost predicate NextBlock(s: Disk, genesis: Block, q: Query, n: nat, r0: Block, k0: nat, r: Block, k: nat)
    requires Tidy(s, genesis) && n <= FirstSearch(s)
  {
    if n <= r0.number then SearchedFrom(s, genesis, q, n, r, k0, k) else r == r0 && k == k0
  }

  ghost predicate SearchedFrom(s: Disk, genesis: Block, q: Query, n: nat, r: Block, before: nat, after: nat)
    requires Tidy(s, genesis) && n <= FirstSearch(s)
  {
    var start := PathHash(s, genesis, n);
    && Picked(Blocks(s), genesis, q, start, r)
    && (q.pivot.None? ==> RootFound(Blocks(s), q, start, before, after))
  }

  /** The head block is where it was while the header is above it, and then goes where the searches
      take it. */
  ghost predicate Rests(s: Disk, genesis: Block, q: Query, head: Block, block: Block, rootNumber: nat)
    requires Tidy(s, genesis)
  {
    if s.block.number < head.number then block == s.block && rootNumber == 0
    else head.number <= FirstSearch(s) && BlockAt(s, genesis, q, head.number, block, rootNumber)
  }

  /** A search on what is left of a disk finds what a search on all of it would. */
  lemma {:induction false} SearchedThere(s: Disk, genesis: Block, q: Query, blocks: Store, head: Block,
                                         before: Block, after: Block, rootBefore: nat, rootNumber: nat)
    requires Tidy(s, genesis) && head.number <= FirstSearch(s) && head.hash == PathHash(s, genesis, head.number)
    requires Blocks(s)[head.hash] == head && (head.hash in blocks ==> blocks[head.hash] == head)
    requires UpTo(blocks, head.number) == UpTo(Blocks(s), head.number) && head.number <= before.number
    requires BlockLowered(blocks, genesis, q, head, before, after, rootBefore, rootNumber)
    ensures SearchedFrom(s, genesis, q, head.number, after, rootBefore, rootNumber)
  {
    assert head.hash in UpTo(Blocks(s), head.number);
    assert head.hash in blocks;
    UpToWellFormed(Blocks(s), genesis, head.number);
    PickedStable(Blocks(s), genesis, q, head.hash, after);
    if q.pivot.None? {
      RootFoundStable(Blocks(s), genesis, q, head.hash, rootBefore, rootNumber);
    }
  }

  lemma {:induction false} RestsStep(s: Disk, genesis: Block, q: Query, blocks: Store, hdr: Block, head: Block,
                                     before: Block, after: Block, rootBefore: nat, rootNumber: nat, origin: bool)
    requires Tidy(s, genesis) && OnPath(s, hdr, hdr.number + 1) && OnPath(s, head, hdr.number)
    requires head.hash in s.headers && s.headers[head.hash] == head
    requires if origin then hdr == s.header && before == s.block && rootBefore == 0
             else hdr.number < s.header.number && Rests(s, genesis, q, hdr, before, rootBefore)
    requires head.hash in blocks ==> blocks[head.hash] == head
    requires UpTo(blocks, head.number) == UpTo(Blocks(s), head.number)
    requires BlockLowered(blocks, genesis, q, head, before, after, rootBefore, rootNumber)
    ensures Rests(s, genesis, q, head, after, rootNumber)
  {
    var n := head.number;
    if n <= s.block.number {
      PathHasBodies(s, genesis, n);
      assert Blocks(s)[head.hash] == head;
      if n <= before.number {
        SearchedThere(s, genesis, q, blocks, head, before, after, rootBefore, rootNumber);
      }
      if n < FirstSearch(s) {
        assert BlockAt(s, genesis, q, n + 1, before, rootBefore);
        assert NextBlock(s, genesis, q, n, before, rootBefore, after, rootNumber);
      }
    }
  }

  // ----- what that means

  lemma {:induction false} SearchedOnce(s: Disk, genesis: Block, q: Query, n: nat, r: Block, r': Block,
                                        before: nat, k: nat, k': nat)
    requires Tidy(s, genesis) && n <= FirstSearch(s) && q.pivot.None?
    requires SearchedFrom(s, genesis, q, n, r, before, k) && SearchedFrom(s, genesis, q, n, r', before, k')
    ensures r == r' && k == k'
  {
    PickedUnique(Blocks(s), genesis, q, PathHash(s, genesis, n), r, r');
  }

  /** Without a pivot the head block and the root number are determined by the height of the header. */
  lemma {:induction false} BlockAtUnique(s: Disk, genesis: Block, q: Query, n: nat, r: Block, k: nat, r': Block,
                                         k': nat)
    requires Tidy(s, genesis) && n <= FirstSearch(s) && q.pivot.None?
    requires BlockAt(s, genesis, q, n, r, k) && BlockAt(s, genesis, q, n, r', k')
    ensures r == r' && k == k'
    decreases FirstSearch(s) - n
  {
    if n == FirstSearch(s) {
      SearchedOnce(s, genesis, q, n, r, r', 0, k, k');
    } else {
      var a, ka :| BlockAt(s, genesis, q, n + 1, a, ka) && NextBlock(s, genesis, q, n, a, ka, r, k);
      var b, kb :| BlockAt(s, genesis, q, n + 1, b, kb) && NextBlock(s, genesis, q, n, b, kb, r', k');
      BlockAtUnique(s, genesis, q, n + 1, a, ka, b, kb);
      if n <= a.number {
        SearchedOnce(s, genesis, q, n, r, r', ka, k, k');
      }
    }
  }

  /** Without root and pivot the head block is the highest block with state at or below the header. */
  lemma {:induction false} BlockIsHighest(s: Disk, genesis: Block, q: Query, n: nat, r: Block, k: nat)
    requires Tidy(s, genesis) && n <= FirstSearch(s) && q.pivot.None? && q.root == ZERO
    requires BlockAt(s, genesis, q, n, r, k)
    ensures HighestStateful(Blocks(s), genesis, q, PathHash(s, genesis, n), r) && k == 0
    decreases FirstSearch(s) - n
  {
    if n == FirstSearch(s) {
      PickedIsHighest(Blocks(s), genesis, q, PathHash(s, genesis, n), r);
    } else {
      var r0, k0 :| BlockAt(s, genesis, q, n + 1, r0, k0) && NextBlock(s, genesis, q, n, r0, k0, r, k);
      BlockIsHighest(s, genesis, q, n + 1, r0, k0);
      if n <= r0.number {
        PickedIsHighest(Blocks(s), genesis, q, PathHash(s, genesis, n), r);
      } else {
        AncestorOfAncestor(Blocks(s), s.block.hash, n + 1, n);
        HighestFromBelow(Blocks(s), genesis, q, PathHash(s, genesis, n + 1), n, r);
      }
    }
  }

  /** With a root the result of the first search stays while the header is above it, and so does the
      number of the block found with the root. */
  lemma {:induction false} FirstPickStays(s: Disk, genesis: Block, q: Query, n: nat, first: Block, kf: nat, r: Block,
                                          k: nat)
    requires Tidy(s, genesis) && q.pivot.None? && first.number < n <= FirstSearch(s)
    requires SearchedFrom(s, genesis, q, FirstSearch(s), first, 0, kf)
    requires BlockAt(s, genesis, q, n, r, k)
    ensures r == first && k == kf
    decreases FirstSearch(s) - n
  {
    if n == FirstSearch(s) {
      SearchedOnce(s, genesis, q, n, r, first, 0, k, kf);
    } else {
      var r0, k0 :| BlockAt(s, genesis, q, n + 1, r0, k0) && NextBlock(s, genesis, q, n, r0, k0, r, k);
      FirstPickStays(s, genesis, q, n + 1, first, kf, r0, k0);
    }
  }

  /** Once the header comes down to that result, and every block with the root lies above it, the head
      block is given up for genesis; the root number stays. */
  lemma {:induction false} RestartGivesUp(s: Disk, genesis: Block, q: Query, n: nat, first: Block, kf: nat, r: Block,
                                          k: nat)
    requires Tidy(s, genesis) && q.pivot.None? && q.root != ZERO && n <= first.number < FirstSearch(s)
    requires SearchedFrom(s, genesis, q, FirstSearch(s), first, 0, kf)
    requires forall m: nat :: m <= first.number ==> !RootAt(Blocks(s), q, s.block.hash, m)
    requires BlockAt(s, genesis, q, n, r, k)
    ensures r == genesis && k == kf
    decreases first.number - n
  {
    var r0, k0 :| BlockAt(s, genesis, q, n + 1, r0, k0) && NextBlock(s, genesis, q, n, r0, k0, r, k);
    if n == first.number {
      FirstPickStays(s, genesis, q, n + 1, first, kf, r0, k0);
    } else {
      RestartGivesUp(s, genesis, q, n + 1, first, kf, r0, k0);
    }
    if n <= r0.number {
      GivesUp(Blocks(s), genesis, q, s.block.hash, n, r);
    }
  }

  // ----- all of it

  /** Where a rewind is: the target in force, the lowest height left behind, the root number, and
      whether it has yet to make its first round. */
  datatype Way = Way(final: Target, low: nat, rootNumber: nat, origin: bool)

  /** How a rewind gets on: the target in force, how the head came down, that it went no lower than
      asked, and where the head block is. */
  ghost predicate Course(s: Disk, genesis: Block, plan: Plan, way: Way, head: Block, block: Block)
  {
    && Lowered(plan.target, way.final, s.frozen, plan.query.pivot)
    && (s.frozen == 0 ==> way.final == plan.target)
    && (plan.query.pivot.None? ==> way.final == plan.target || way.final == Target(block.number, 0))
    && (!way.origin ==> !Underran(way.final, block, s.frozen, plan.query.pivot))
    && (if way.origin then
          head == s.header && block == s.block && way == Way(plan.target, head.number + 1, 0, true)
        else head.number < s.header.number)
    && Descended(s, genesis, way.final, head, way.low)
    && (WellFormed(s.headers, genesis) && s.header.hash in s.headers ==>
          && OnPath(s, head, way.low)
          && (!way.origin ==> NoLower(s.headers, s.header.hash, way.final, head.number)))
    && (Tidy(s, genesis) && !way.origin ==> Rests(s, genesis, plan.query, head, block, way.rootNumber))
  }

  lemma {:induction false} CourseStarts(s: Disk, genesis: Block, plan: Plan)
    requires UsableDisk(s, genesis)
    ensures Course(s, genesis, plan, Way(plan.target, s.header.number + 1, 0, true), s.header, s.block)
  {
  }

  lemma {:induction false} CourseStep(s: Disk, genesis: Block, plan: Plan, blocks: Store, way: Way, hdr: Block,
                                      head: Block,
                                      before: Block, after: Block, rootNumber: nat)
    requires UsableDisk(s, genesis) && Course(s, genesis, plan, way, hdr, before) && way.low == hdr.number + 1
    requires hdr.hash in s.headers && s.headers[hdr.hash] == hdr && 0 < hdr.number && !Reached(way.final, hdr)
    requires head == ParentOrGenesis(s.headers, genesis, hdr) && head.hash in s.headers && s.headers[head.hash] == head
    requires head.hash in blocks ==> blocks[head.hash] == head
    requires UpTo(blocks, head.number) == UpTo(Blocks(s), head.number)
    requires BlockLowered(blocks, genesis, plan.query, head, before, after, way.rootNumber, rootNumber)
    requires after.number <= head.number
    ensures var final := InForce(way.final, after, s.frozen, plan.query.pivot);
            Course(s, genesis, plan, Way(final, hdr.number, rootNumber, false), head, after)
  {
    DescendedStep(s, genesis, way.final, hdr, after, plan.query.pivot);
    if WellFormed(s.headers, genesis) {
      OnPathStep(s, genesis, hdr);
      NoLowerStep(s, genesis, hdr, head, way.final, after, plan.query.pivot);
    }
    if Tidy(s, genesis) {
      RestsStep(s, genesis, plan.query, blocks, hdr, head, before, after, way.rootNumber, rootNumber, way.origin);
    }
  }

  // ----- what is left above the head

  ghost predicate NoEntryFrom(canonical: map<nat, Hash>, n: nat)
  {
    forall k :: k in canonical ==> k < n
  }

  ghost predicate NoEntryBetween(canonical: map<nat, Hash>, first: nat, end: nat)
  {
    forall k :: k in canonical ==> k < first || end <= k
  }

  /** Parent links from the old head break off above height zero, every header down to there is beyond
      the target in force, and the map has an entry below. */
  ghost predicate GapShows(s: Disk, final: Target)
  {
    var gap := Bottom(s.headers, s.header).number;
    gap > 0 && !Reaches(s.headers, s.header, final) && !NoEntryBetween(s.canonical, 1, gap)
  }

  /** After at least one round an entry is left above the head if and only if a gap shows or there was
      one at or above the height up to which the first round sweeps. */
  lemma {:induction false} LeftAbove(s: Disk, genesis: Block, final: Target, head: Block, low: nat)
    requires UsableDisk(s, genesis) && Descended(s, genesis, final, head, low) && Reached(final, head)
    requires head.number < low <= Cutoff(s)
    ensures NoEntryFrom(EntriesWithout(s.canonical, low, Cutoff(s)), head.number + 1) <==>
              !GapShows(s, final) && NoEntryFrom(s.canonical, Cutoff(s))
  {
    var left := EntriesWithout(s.canonical, low, Cutoff(s));
    assert NoEntryFrom(left, head.number + 1) <==>
             NoEntryBetween(s.canonical, head.number + 1, low) && NoEntryFrom(s.canonical, Cutoff(s)) by {
      forall k | k in s.canonical && (k < low || Cutoff(s) <= k)
        ensures k in left
      {
      }
    }
    if low == head.number + 1 && Left(s.headers, s.header, head, final) {
      LeftKeeps(s.headers, s.header, head, final);
    }
  }
}
