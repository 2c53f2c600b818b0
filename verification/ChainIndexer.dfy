/**
 The section indexer: a worker walks the canonical chain one section at a time with the lock
 released, while the chain may be reorganised under it, and commits the section's head behind an
 optimistic check.  Every locked region is one step; so is every database read of the worker.  The
 lock does not protect the chain database, so within a locked region too the chain may move between
 two reads.

 Headers are content addressed: `world` maps every hash that ever occurs to its header.  The
 canonical map and the set of headers present may change in any way between two steps.
 */
module ChainIndexer {
  import opened BlockTree

  datatype Config = Config(world: Store, size: nat, confirms: nat)

  /** The chain database as it is at one moment. */
  datatype ChainDb = ChainDb(canonical: map<nat, Hash>, present: set<Hash>)

  datatype Worker =
    | Idle
    | Resetting(section: nat, oldHead: Hash)
    | Reading(section: nat, oldHead: Hash, lastHead: Hash, number: nat)
    | Done(section: nat, oldHead: Hash, newHead: Option<Hash>)

  datatype State = State(db: ChainDb, stored: nat, known: nat, heads: map<nat, Hash>, worker: Worker)

  datatype Step =
    | ChainMoves(db: ChainDb)
    | NewHead(head: nat, reorg: bool)
    | Capture(moves: seq<ChainDb>)
    | Reset(succeeds: bool)
    | ReadHeader(processes: bool)
    | EndSection(commits: bool)
    | Finish(moves: seq<ChainDb>)
    | Sections(moves: seq<ChainDb>)

  ghost predicate ConfigOk(c: Config)
  {
    c.size > 0 && ZERO !in c.world && forall h :: h in c.world ==> c.world[h].hash == h
  }

  /** `to` is reached from `from` by exactly `k` parent links, all of them known. */
  ghost predicate Links(world: Store, from: Hash, to: Hash, k: nat)
    decreases k
  {
    if k == 0 then from == to else from in world && Links(world, world[from].parent, to, k - 1)
  }

  function Initial(db: ChainDb): State
  {
    State(db, 0, 0, map[], Idle)
  }

  function SectionHead(heads: map<nat, Hash>, section: int): Hash
  {
    if section >= 0 && section in heads then heads[section] else ZERO
  }

  /** The number of the last block of a section. */
  function End(c: Config, section: nat): nat
    requires c.size > 0
  {
    (section + 1) * c.size - 1
  }

  // ----- the steps as functions of the state

  function SetValid(s: State, sections: nat): State
  {
    s.(stored := sections, heads := map i | i in s.heads && !(sections <= i < s.stored) :: s.heads[i])
  }

  /** The chain database at the next read, if it has moved on. */
  function Moved(s: State, moves: seq<ChainDb>): State
  {
    if moves == [] then s else s.(db := moves[0])
  }

  function Later(moves: seq<ChainDb>): seq<ChainDb>
  {
    if moves == [] then [] else moves[1..]
  }

  /** Rolls back from the top until a section's head is canonical at the moment it is read; `moves`
      are the states of the chain database at the first reads. */
  function VerifyLast(c: Config, s: State, moves: seq<ChainDb>): State
    requires c.size > 0
    decreases s.stored
  {
    if s.stored == 0 then s
    else
      var t := Moved(s, moves);
      if Matches(c, t) then t else VerifyLast(c, SetValid(t, s.stored - 1), Later(moves))
  }

  /** The last stored head is the canonical hash at its end. */
  predicate Matches(c: Config, s: State)
    requires c.size > 0 && s.stored > 0
  {
    SectionHead(s.heads, s.stored - 1) == ReadCanonical(s.db.canonical, End(c, s.stored - 1))
  }

  function ApplyNewHead(c: Config, s: State, head: nat, reorg: bool): State
    requires c.size > 0
  {
    if reorg then
      var point := (head + 1) / c.size;
      var t := if point < s.known then s.(known := point) else s;
      if point < t.stored then SetValid(t, point) else t
    else if head >= c.confirms && (head + 1 - c.confirms) / c.size > s.known then
      s.(known := (head + 1 - c.confirms) / c.size)
    else s
  }

  function ApplyCapture(c: Config, s: State, moves: seq<ChainDb>): State
    requires c.size > 0
  {
    if s.known <= s.stored then s
    else
      var t := VerifyLast(c, s, moves);
      t.(worker := Resetting(t.stored, if t.stored > 0 then SectionHead(t.heads, t.stored - 1) else ZERO))
  }

  /** The backend is told to start a section; if it refuses, all sections are given up, without the
      lock. */
  function ApplyReset(c: Config, s: State, succeeds: bool): State
    requires s.worker.Resetting?
  {
    var w := s.worker;
    if succeeds then s.(worker := Reading(w.section, w.oldHead, w.oldHead, w.section * c.size))
    else SetValid(s, 0).(worker := Done(w.section, w.oldHead, None))
  }

  function ApplyRead(c: Config, s: State, processes: bool): State
    requires s.worker.Reading?
  {
    var w := s.worker;
    var hash := ReadCanonical(s.db.canonical, w.number);
    if hash == ZERO || hash !in s.db.present || Get(c.world, hash, w.number).None? then
      s.(worker := Done(w.section, w.oldHead, None))
    else if c.world[hash].parent != w.lastHead || !processes then
      s.(worker := Done(w.section, w.oldHead, None))
    else
      s.(worker := w.(lastHead := hash, number := w.number + 1))
  }

  function ApplyFinish(c: Config, s: State, moves: seq<ChainDb>): State
    requires c.size > 0 && s.worker.Done?
  {
    var w := s.worker;
    if w.newHead.Some? && (w.section == 0 || w.oldHead == SectionHead(s.heads, w.section - 1)) then
      SetValid(s.(heads := s.heads[w.section := w.newHead.value]), w.section + 1).(worker := Idle)
    else
      var t := VerifyLast(c, s, moves);
      t.(known := t.stored, worker := Idle)
  }

  /** One step; a step whose turn it is not changes nothing. */
  function Apply(c: Config, s: State, step: Step): State
    requires c.size > 0
  {
    match step
    case ChainMoves(db) => s.(db := db)
    case NewHead(head, reorg) => ApplyNewHead(c, s, head, reorg)
    case Capture(moves) => if s.worker.Idle? then ApplyCapture(c, s, moves) else s
    case Reset(succeeds) => if s.worker.Resetting? then ApplyReset(c, s, succeeds) else s
    case ReadHeader(processes) =>
      if s.worker.Reading? && s.worker.number < (s.worker.section + 1) * c.size then ApplyRead(c, s, processes) else s
    case EndSection(commits) =>
      if s.worker.Reading? && s.worker.number == (s.worker.section + 1) * c.size
      then s.(worker := Done(s.worker.section, s.worker.oldHead, if commits then Some(s.worker.lastHead) else None))
      else s
    case Finish(moves) => if s.worker.Done? then ApplyFinish(c, s, moves) else s
    case Sections(moves) => VerifyLast(c, s, moves)
  }

  function Run(c: Config, s: State, steps: seq<Step>): State
    requires c.size > 0
    decreases |steps|
  {
    if steps == [] then s else Run(c, Apply(c, s, steps[0]), steps[1..])
  }

  // ----- the invariant

  /** Below `stored`, and only there, a head is recorded; each is one section of parent links above
      the one before it, and the first is one section above the parent of genesis. */
  ghost predicate Chained(c: Config, stored: nat, heads: map<nat, Hash>)
  {
    && (forall i: nat :: i in heads <==> i < stored)
    && (forall i: nat {:trigger SectionOk(c, heads, i)} :: i < stored ==> SectionOk(c, heads, i))
  }

  ghost predicate SectionOk(c: Config, heads: map<nat, Hash>, i: nat)
  {
    i in heads && heads[i] != ZERO && Links(c.world, heads[i], SectionHead(heads, i - 1), c.size)
  }

  /** What the worker captured still matters only if nothing was rolled back since. */
  ghost predicate CaptureOk(stored: nat, heads: map<nat, Hash>, section: nat, oldHead: Hash)
  {
    && stored <= section
    && (section == 0 <==> oldHead == ZERO)
    && (stored == section ==> SectionHead(heads, section - 1) == oldHead)
  }

  ghost predicate WorkerOk(c: Config, s: State)
  {
    match s.worker
    case Idle => true
    case Resetting(section, oldHead) => CaptureOk(s.stored, s.heads, section, oldHead)
    case Reading(section, oldHead, lastHead, number) =>
      && CaptureOk(s.stored, s.heads, section, oldHead)
      && section * c.size <= number <= (section + 1) * c.size
      && Links(c.world, lastHead, oldHead, number - section * c.size)
      && (number > section * c.size ==> lastHead != ZERO)
    case Done(section, oldHead, newHead) =>
      newHead.Some? ==>
        && CaptureOk(s.stored, s.heads, section, oldHead)
        && newHead.value != ZERO
        && Links(c.world, newHead.value, oldHead, c.size)
  }

  ghost predicate Inv(c: Config, s: State)
  {
    Chained(c, s.stored, s.heads) && WorkerOk(c, s)
  }

  lemma {:induction false} RollbackKeepsInv(c: Config, s: State, sections: nat)
    requires Inv(c, s) && sections <= s.stored
    ensures Inv(c, SetValid(s, sections))
  {
    var t := SetValid(s, sections);
    forall i: nat | i < t.stored
      ensures SectionOk(c, t.heads, i)
    {
      assert SectionOk(c, s.heads, i);
      assert SectionHead(t.heads, i - 1) == SectionHead(s.heads, i - 1);
    }
  }

  /** After a verification the last stored head was canonical when it was read last. */
  lemma {:induction false} VerifyKeepsInv(c: Config, s: State, moves: seq<ChainDb>)
    requires ConfigOk(c) && Inv(c, s)
    ensures var t := VerifyLast(c, s, moves);
            && Inv(c, t) && t.stored <= s.stored
            && t == s.(db := t.db, stored := t.stored, heads := t.heads)
            && (t.stored > 0 ==> Matches(c, t))
    decreases s.stored
  {
    if s.stored > 0 && !Matches(c, Moved(s, moves)) {
      RollbackKeepsInv(c, Moved(s, moves), s.stored - 1);
      VerifyKeepsInv(c, SetValid(Moved(s, moves), s.stored - 1), Later(moves));
    }
  }

  /** While the chain stands still the verification gives up no section whose end is still canonical
      above the one it stops at. */
  lemma {:induction false} VerifyStopsHighest(c: Config, s: State, i: nat)
    requires c.size > 0 && VerifyLast(c, s, []).stored <= i < s.stored
    ensures SectionHead(s.heads, i) != ReadCanonical(s.db.canonical, End(c, i))
    decreases s.stored
  {
    if i < s.stored - 1 {
      VerifyStopsHighest(c, SetValid(s, s.stored - 1), i);
    }
  }

  lemma {:induction false} CaptureKeepsInv(c: Config, s: State, moves: seq<ChainDb>)
    requires ConfigOk(c) && Inv(c, s) && s.worker.Idle?
    ensures Inv(c, ApplyCapture(c, s, moves))
  {
    if s.known > s.stored {
      VerifyKeepsInv(c, s, moves);
      var t := VerifyLast(c, s, moves);
      assert t.stored > 0 ==> SectionOk(c, t.heads, t.stored - 1);
    }
  }

  lemma {:induction false} ResetKeepsInv(c: Config, s: State, succeeds: bool)
    requires ConfigOk(c) && Inv(c, s) && s.worker.Resetting?
    ensures Inv(c, ApplyReset(c, s, succeeds))
  {
    RollbackKeepsInv(c, s, 0);
  }

  lemma {:induction false} ReadKeepsInv(c: Config, s: State, processes: bool)
    requires ConfigOk(c) && Inv(c, s) && s.worker.Reading? && s.worker.number < (s.worker.section + 1) * c.size
    ensures Inv(c, ApplyRead(c, s, processes))
  {
  }

  /** A commit that passes the check finds nothing rolled back, so it extends the chain of heads. */
  lemma {:induction false} FinishKeepsInv(c: Config, s: State, moves: seq<ChainDb>)
    requires ConfigOk(c) && Inv(c, s) && s.worker.Done?
    ensures Inv(c, ApplyFinish(c, s, moves))
  {
    var w := s.worker;
    if w.newHead.Some? && (w.section == 0 || w.oldHead == SectionHead(s.heads, w.section - 1)) {
      assert s.stored == w.section;
      var t := ApplyFinish(c, s, moves);
      assert t.heads == s.heads[w.section := w.newHead.value];
      forall i: nat | i < t.stored
        ensures SectionOk(c, t.heads, i)
      {
        assert i < w.section ==> SectionOk(c, s.heads, i);
        assert SectionHead(t.heads, i - 1) == SectionHead(s.heads, i - 1);
      }
    } else {
      VerifyKeepsInv(c, s, moves);
    }
  }

  lemma {:induction false} NewHeadKeepsInv(c: Config, s: State, head: nat, reorg: bool)
    requires ConfigOk(c) && Inv(c, s)
    ensures Inv(c, ApplyNewHead(c, s, head, reorg))
  {
    var point := (head + 1) / c.size;
    var t := if point < s.known then s.(known := point) else s;
    if reorg && point < t.stored {
      RollbackKeepsInv(c, t, point);
    }
  }

  lemma {:induction false} StepKeepsInv(c: Config, s: State, step: Step)
    requires ConfigOk(c) && Inv(c, s)
    ensures Inv(c, Apply(c, s, step))
  {
    match step
    case ChainMoves(db) =>
    case NewHead(head, reorg) =>
      NewHeadKeepsInv(c, s, head, reorg);
    case Capture(moves) =>
      if s.worker.Idle? { CaptureKeepsInv(c, s, moves); }
    case Reset(succeeds) =>
      if s.worker.Resetting? { ResetKeepsInv(c, s, succeeds); }
    case ReadHeader(processes) =>
      if s.worker.Reading? && s.worker.number < (s.worker.section + 1) * c.size { ReadKeepsInv(c, s, processes); }
    case EndSection(commits) =>
      EndKeepsInv(c, s, commits);
    case Finish(moves) =>
      if s.worker.Done? { FinishKeepsInv(c, s, moves); }
    case Sections(moves) =>
      VerifyKeepsInv(c, s, moves);
  }

  lemma {:induction false} EndKeepsInv(c: Config, s: State, commits: bool)
    requires ConfigOk(c) && Inv(c, s)
    ensures Inv(c, Apply(c, s, EndSection(commits)))
  {
    if s.worker.Reading? && s.worker.number == (s.worker.section + 1) * c.size {
      assert s.worker.number - s.worker.section * c.size == c.size;
    }
  }

  /** Under every interleaving the stored heads stay one section of parent links apart. */
  lemma {:induction false} RunKeepsInv(c: Config, s: State, steps: seq<Step>)
    requires ConfigOk(c) && Inv(c, s)
    ensures Inv(c, Run(c, s, steps))
    decreases |steps|
  {
    if steps != [] {
      StepKeepsInv(c, s, steps[0]);
      RunKeepsInv(c, Apply(c, s, steps[0]), steps[1..]);
    }
  }

  // ----- how many sections are known

  /** The blocks up to `head` make `n` sections and `depth` more blocks. */
  ghost predicate Deep(c: Config, n: nat, depth: nat, head: nat)
  {
    n * c.size + depth <= head + 1
  }

  /** `after` is the largest of `before` and the counts of sections with `confirms` blocks on top. */
  ghost predicate Raised(c: Config, head: nat, before: nat, after: nat)
  {
    && before <= after
    && (before < after ==> after * c.size + c.confirms <= head + 1 < (after + 1) * c.size + c.confirms)
    && (forall n: nat :: Deep(c, n, c.confirms, head) ==> n <= after)
  }

  /** `after` is the largest count up to `before` of sections that end at `head` or below. */
  ghost predicate CutBack(c: Config, head: nat, before: nat, after: nat)
  {
    && after <= before && after * c.size <= head + 1
    && (forall n: nat :: n <= before && Deep(c, n, 0, head) ==> n <= after)
  }

  lemma {:induction false} LargestCount(size: nat, total: nat, n: nat)
    requires size > 0
    ensures (total / size) * size <= total < (total / size + 1) * size
    ensures n * size <= total <==> n <= total / size
  {
    assert total == total / size * size + total % size;
    CountFits(size, total, n, total / size);
  }

  lemma {:induction false} CountFits(size: nat, total: nat, n: nat, q: nat)
    requires q * size <= total < (q + 1) * size
    ensures n * size <= total <==> n <= q
  {
    if n > q {
      assert n * size >= (q + 1) * size;
    } else {
      assert n * size <= q * size;
    }
  }

  lemma {:induction false} PointIsCut(c: Config, head: nat, before: nat)
    requires c.size > 0
    ensures var point := (head + 1) / c.size; CutBack(c, head, before, if point < before then point else before)
  {
    LargestCount(c.size, head + 1, before);
    forall n: nat | Deep(c, n, 0, head)
      ensures n <= (head + 1) / c.size
    {
      LargestCount(c.size, head + 1, n);
    }
  }

  lemma {:induction false} CountIsRaised(c: Config, head: nat, before: nat)
    requires c.size > 0
    ensures Raised(c, head, before,
                   if head >= c.confirms && (head + 1 - c.confirms) / c.size > before
                   then (head + 1 - c.confirms) / c.size else before)
  {
    if head + 1 >= c.confirms {
      forall n: nat | Deep(c, n, c.confirms, head)
        ensures n <= (head + 1 - c.confirms) / c.size
      {
        LargestCount(c.size, head + 1 - c.confirms, n);
      }
      LargestCount(c.size, head + 1 - c.confirms, before);
    }
  }

  /** A head without a reorganisation makes known exactly the sections that are deep enough below it;
      a reorganisation gives up exactly the sections that end above the fork. */
  lemma {:induction false} NewHeadExact(c: Config, s: State, head: nat, reorg: bool)
    requires c.size > 0
    ensures var t := Apply(c, s, NewHead(head, reorg));
            && t.db == s.db && t.worker == s.worker
            && (!reorg ==> Raised(c, head, s.known, t.known) && t.stored == s.stored && t.heads == s.heads)
            && (reorg ==>
                  && CutBack(c, head, s.known, t.known) && CutBack(c, head, s.stored, t.stored)
                  && t.heads.Keys == (set i | i in s.heads && !(t.stored <= i < s.stored))
                  && (forall i :: i in t.heads ==> t.heads[i] == s.heads[i]))
  {
    if reorg {
      PointIsCut(c, head, s.known);
      PointIsCut(c, head, s.stored);
    } else {
      CountIsRaised(c, head, s.known);
    }
  }

  // ----- when the worker begins and gives up

  /** The worker begins a section only if it is known, on top of a head that was canonical when it was
      read last; otherwise nothing happens. */
  lemma {:induction false} CaptureVerifies(c: Config, s: State, moves: seq<ChainDb>)
    requires ConfigOk(c) && Inv(c, s) && s.worker.Idle?
    ensures var t := Apply(c, s, Capture(moves));
            if s.known <= s.stored then t == s
            else
              && t.known == s.known && t.stored <= s.stored && (t.stored > 0 ==> Matches(c, t))
              && t.worker == Resetting(t.stored, SectionHead(t.heads, t.stored - 1))
  {
    VerifyKeepsInv(c, s, moves);
  }

  /** A finished section is stored if and only if it was committed and the section below still has the
      head it was begun on.  Otherwise the stored sections are verified and no more are known than
      those, so the worker rests until the next head. */
  lemma {:induction false} FinishStoresOrRests(c: Config, s: State, moves: seq<ChainDb>)
    requires ConfigOk(c) && Inv(c, s) && s.worker.Done?
    ensures var t, w := Apply(c, s, Finish(moves)), s.worker;
            && t.worker == Idle
            && (if w.newHead.Some? && (w.section == 0 || w.oldHead == SectionHead(s.heads, w.section - 1)) then
                  && t.stored == w.section + 1 == s.stored + 1 && t.known == s.known && t.db == s.db
                  && SectionHead(t.heads, w.section) == w.newHead.value
                  && forall i: nat :: i < s.stored ==> SectionHead(t.heads, i) == SectionHead(s.heads, i)
                else
                  t.known == t.stored <= s.stored && (t.stored > 0 ==> Matches(c, t)))
  {
    VerifyKeepsInv(c, s, moves);
  }

  /** A backend that refuses to start a section costs all stored sections. */
  lemma {:induction false} RefusalGivesUpAll(c: Config, s: State)
    requires ConfigOk(c) && Inv(c, s) && s.worker.Resetting?
    ensures var t := Apply(c, s, Reset(false)); t.stored == 0 && t.heads == map[] && t.worker.newHead.None?
  {
  }

  // ----- what a caller of Sections may rely on

  lemma {:induction false} LinksUnique(world: Store, a: Hash, b: Hash, b': Hash, k: nat)
    requires Links(world, a, b, k) && Links(world, a, b', k)
    ensures b == b'
    decreases k
  {
    if k > 0 {
      LinksUnique(world, world[a].parent, b, b', k - 1);
    }
  }

  /** Every stored section's head is the canonical hash at its end. */
  ghost predicate HeadsCanonical(c: Config, s: State)
    requires c.size > 0
  {
    forall i: nat :: i < s.stored ==> SectionHead(s.heads, i) == ReadCanonical(s.db.canonical, End(c, i))
  }

  /** The canonical map's own entries at consecutive section ends are one section of links apart. */
  ghost predicate EndsLinked(c: Config, canonical: map<nat, Hash>, sections: nat)
    requires c.size > 0
  {
    forall i: nat {:trigger EndLinked(c, canonical, i)} :: 0 < i < sections ==> EndLinked(c, canonical, i)
  }

  ghost predicate EndLinked(c: Config, canonical: map<nat, Hash>, i: nat)
    requires c.size > 0 && i > 0
  {
    Links(c.world, ReadCanonical(canonical, End(c, i)), ReadCanonical(canonical, End(c, i - 1)), c.size)
  }

  lemma {:induction false} HeadsFromTop(c: Config, s: State, i: nat)
    requires ConfigOk(c) && Inv(c, s) && i < s.stored
    requires Matches(c, s)
    requires EndsLinked(c, s.db.canonical, s.stored)
    ensures SectionHead(s.heads, i) == ReadCanonical(s.db.canonical, End(c, i))
    decreases s.stored - i
  {
    if i + 1 < s.stored {
      HeadsFromTop(c, s, i + 1);
      assert SectionOk(c, s.heads, i + 1) && EndLinked(c, s.db.canonical, i + 1);
      LinksUnique(c.world, s.heads[i + 1], s.heads[i], ReadCanonical(s.db.canonical, End(c, i)), c.size);
    }
  }

  /** After any run ending in a call of Sections, however the chain moves meanwhile, all stored heads
      are canonical if and only if the canonical map is linked from section end to section end when
      Sections reads it last. */
  lemma {:induction false} SectionsExact(c: Config, s: State, steps: seq<Step>, moves: seq<ChainDb>)
    requires ConfigOk(c) && Inv(c, s)
    ensures var t := Apply(c, Run(c, s, steps), Sections(moves));
            HeadsCanonical(c, t) <==> EndsLinked(c, t.db.canonical, t.stored)
  {
    RunKeepsInv(c, s, steps);
    var r := Run(c, s, steps);
    VerifyKeepsInv(c, r, moves);
    var t := VerifyLast(c, r, moves);
    if EndsLinked(c, t.db.canonical, t.stored) {
      forall i: nat | i < t.stored
        ensures SectionHead(t.heads, i) == ReadCanonical(t.db.canonical, End(c, i))
      {
        HeadsFromTop(c, t, i);
      }
    }
    if HeadsCanonical(c, t) {
      forall i: nat | 0 < i < t.stored
        ensures EndLinked(c, t.db.canonical, i)
      {
        assert SectionOk(c, t.heads, i);
        assert SectionHead(t.heads, i) == ReadCanonical(t.db.canonical, End(c, i));
        assert SectionHead(t.heads, i - 1) == ReadCanonical(t.db.canonical, End(c, i - 1));
      }
    }
  }

  /** A canonical map between reorganisations: every entry is a known header whose parent is the
      entry below it. */
  ghost predicate LinkedMap(c: Config, canonical: map<nat, Hash>)
  {
    forall n: nat {:trigger LinkAt(c, canonical, n)} :: n in canonical ==> LinkAt(c, canonical, n)
  }

  ghost predicate LinkAt(c: Config, canonical: map<nat, Hash>, n: nat)
  {
    && n in canonical && canonical[n] in c.world
    && (n > 0 ==> n - 1 in canonical && c.world[canonical[n]].parent == canonical[n - 1])
  }

  lemma {:induction false} LinkedMapLinks(c: Config, canonical: map<nat, Hash>, n: nat, k: nat)
    requires LinkedMap(c, canonical) && n in canonical && k <= n
    ensures n - k in canonical && Links(c.world, canonical[n], canonical[n - k], k)
    decreases k
  {
    if k > 0 {
      assert LinkAt(c, canonical, n);
      LinkedMapLinks(c, canonical, n - 1, k - 1);
    }
  }

  /** Whenever the canonical map is linked at the last read of Sections, every stored section's head is
      the canonical hash at its end. */
  lemma {:induction false} SectionsCanonical(c: Config, s: State, steps: seq<Step>, moves: seq<ChainDb>)
    requires ConfigOk(c) && Inv(c, s)
    requires LinkedMap(c, Apply(c, Run(c, s, steps), Sections(moves)).db.canonical)
    ensures HeadsCanonical(c, Apply(c, Run(c, s, steps), Sections(moves)))
  {
    var r := Run(c, s, steps);
    RunKeepsInv(c, s, steps);
    VerifyKeepsInv(c, r, moves);
    SectionsExact(c, s, steps, moves);
    var t := VerifyLast(c, r, moves);
    var canonical := t.db.canonical;
    if t.stored > 0 {
      assert SectionOk(c, t.heads, t.stored - 1);
      assert End(c, t.stored - 1) in canonical;
      forall i: nat | 0 < i < t.stored
        ensures EndLinked(c, canonical, i)
      {
        EndBelow(c, i, t.stored - 1);
        LinkedMapLinks(c, canonical, End(c, t.stored - 1), End(c, t.stored - 1) - End(c, i));
        LinkedMapLinks(c, canonical, End(c, i), c.size);
      }
    }
  }

  lemma {:induction false} EndBelow(c: Config, i: nat, j: nat)
    requires c.size > 0 && i <= j
    ensures End(c, i) <= End(c, j)
    ensures i > 0 ==> End(c, i) - c.size == End(c, i - 1)
  {
    assert (i + 1) * c.size <= (j + 1) * c.size;
  }

  // ----- an undisturbed section is indexed

  /** The canonical chain holds every header of a section, each on top of the one before. */
  ghost predicate Readable(c: Config, db: ChainDb, section: nat)
  {
    forall n: nat {:trigger ReadableAt(c, db, n)} ::
      section * c.size <= n < (section + 1) * c.size ==> ReadableAt(c, db, n)
  }

  ghost predicate ReadableAt(c: Config, db: ChainDb, n: nat)
  {
    && n in db.canonical && db.canonical[n] != ZERO && db.canonical[n] in db.present
    && Get(c.world, db.canonical[n], n).Some?
    && c.world[db.canonical[n]].parent == Before(db, n)
  }

  /** The canonical hash right below height `n`. */
  function Before(db: ChainDb, n: nat): Hash
  {
    if n == 0 then ZERO else ReadCanonical(db.canonical, n - 1)
  }

  function Reads(k: nat): seq<Step>
  {
    if k == 0 then [] else [ReadHeader(true)] + Reads(k - 1)
  }

  lemma {:induction false} RunAppend(c: Config, s: State, a: seq<Step>, b: seq<Step>)
    requires c.size > 0
    ensures Run(c, s, a + b) == Run(c, Run(c, s, a), b)
    decreases |a|
  {
    if a == [] {
      assert a + b == b;
    } else {
      assert (a + b)[1..] == a[1..] + b;
      RunAppend(c, Apply(c, s, a[0]), a[1..], b);
    }
  }

  lemma {:induction false} ReadsAdvance(c: Config, s: State, k: nat)
    requires c.size > 0 && s.worker.Reading? && s.worker.number + k == (s.worker.section + 1) * c.size
    requires Readable(c, s.db, s.worker.section) && s.worker.section * c.size <= s.worker.number
    requires s.worker.lastHead == Before(s.db, s.worker.number)
    ensures var w := s.worker; var end := (w.section + 1) * c.size;
            Run(c, s, Reads(k)) == s.(worker := Reading(w.section, w.oldHead, Before(s.db, end), end))
    decreases k
  {
    if k > 0 {
      var t := Apply(c, s, ReadHeader(true));
      assert ReadableAt(c, s.db, s.worker.number);
      assert Reads(k)[0] == ReadHeader(true) && Reads(k)[1..] == Reads(k - 1);
      ReadsAdvance(c, t, k - 1);
    }
  }

  /** The steps of the worker for one section. */
  function Indexing(c: Config): seq<Step>
  {
    [Capture([]), Reset(true)] + Reads(c.size) + [EndSection(true), Finish([])]
  }

  function WithSection(c: Config, s: State): State
    requires c.size > 0
  {
    s.(stored := s.stored + 1, heads := s.heads[s.stored := ReadCanonical(s.db.canonical, End(c, s.stored))])
  }

  /** The worker about to read the next section, and having read it. */
  ghost function Starting(c: Config, s: State): State
  {
    var last := Before(s.db, s.stored * c.size);
    s.(worker := Reading(s.stored, last, last, s.stored * c.size))
  }

  ghost function HavingRead(c: Config, s: State): State
  {
    var end := (s.stored + 1) * c.size;
    s.(worker := Reading(s.stored, Before(s.db, s.stored * c.size), Before(s.db, end), end))
  }

  lemma {:induction false} UndisturbedStart(c: Config, s: State)
    requires ConfigOk(c) && Inv(c, s) && s.worker.Idle? && s.stored < s.known && VerifyLast(c, s, []) == s
    ensures Run(c, s, [Capture([]), Reset(true)]) == Starting(c, s)
  {
    RunTwo(c, s, Capture([]), Reset(true));
    LastIsBefore(c, s);
  }

  lemma {:induction false} UndisturbedEnd(c: Config, s: State)
    requires ConfigOk(c) && Inv(c, s) && s.worker.Idle? && VerifyLast(c, s, []) == s
    ensures Run(c, HavingRead(c, s), [EndSection(true), Finish([])]) == WithSection(c, s)
  {
    RunTwo(c, HavingRead(c, s), EndSection(true), Finish([]));
    LastIsBefore(c, s);
    assert End(c, s.stored) == (s.stored + 1) * c.size - 1;
    var t := Apply(c, Apply(c, HavingRead(c, s), EndSection(true)), Finish([]));
    assert t.heads == WithSection(c, s).heads;
  }

  lemma {:induction false} UndisturbedReads(c: Config, s: State)
    requires c.size > 0 && Readable(c, s.db, s.stored)
    ensures Run(c, Starting(c, s), Reads(c.size)) == HavingRead(c, s)
  {
    assert (s.stored + 1) * c.size == s.stored * c.size + c.size;
    ReadsAdvance(c, Starting(c, s), c.size);
  }

  lemma {:induction false} RunThree(c: Config, s: State, a: seq<Step>, b: seq<Step>, d: seq<Step>, s1: State, s2: State)
    requires c.size > 0 && Run(c, s, a) == s1 && Run(c, s1, b) == s2
    ensures Run(c, s, a + b + d) == Run(c, s2, d)
  {
    RunAppend(c, s, a + b, d);
    RunAppend(c, s, a, b);
  }

  /** A known section that the chain holds, processed without interference, is stored with the
      canonical hash at its end as its head. */
  lemma {:induction false} UndisturbedSectionStored(c: Config, s: State)
    requires ConfigOk(c) && Inv(c, s) && s.worker.Idle? && s.stored < s.known
    requires VerifyLast(c, s, []) == s && Readable(c, s.db, s.stored)
    ensures Run(c, s, Indexing(c)) == WithSection(c, s)
  {
    UndisturbedStart(c, s);
    UndisturbedReads(c, s);
    UndisturbedEnd(c, s);
    RunThree(c, s, [Capture([]), Reset(true)], Reads(c.size), [EndSection(true), Finish([])],
             Starting(c, s), HavingRead(c, s));
  }

  lemma {:induction false} RunTwo(c: Config, s: State, a: Step, b: Step)
    requires c.size > 0
    ensures Run(c, s, [a, b]) == Apply(c, Apply(c, s, a), b)
  {
    var t := Apply(c, s, a);
    assert [a, b][1..] == [b];
    assert Run(c, s, [a, b]) == Run(c, t, [b]);
    assert [b][1..] == [];
    assert Run(c, t, [b]) == Run(c, Apply(c, t, b), []);
  }

  /** The captured head is the canonical hash below the section. */
  lemma {:induction false} LastIsBefore(c: Config, s: State)
    requires ConfigOk(c) && Inv(c, s) && VerifyLast(c, s, []) == s
    ensures SectionHead(s.heads, s.stored - 1) == Before(s.db, s.stored * c.size)
  {
    VerifyKeepsInv(c, s, []);
    if s.stored > 0 {
      assert End(c, s.stored - 1) == s.stored * c.size - 1;
    }
  }

  // ----- a section that is no longer canonical

  const OLD_CHAIN := ChainDb(map[0 := 1, 1 := 2, 2 := 3], {1, 2, 3, 4})
  const HALFWAY := ChainDb(map[0 := 1, 1 := 4, 2 := 3], {1, 2, 3, 4})
  const SMALL := Config(map[1 := Block(1, ZERO, 0, 0, 0, 0, []), 2 := Block(2, 1, 1, 0, 0, 0, []),
                            3 := Block(3, 2, 2, 0, 0, 0, []), 4 := Block(4, 1, 1, 0, 0, 0, [])], 1, 0)

  /** The worker hears of block two and indexes three sections. */
  lemma {:induction false} ThreeStored(c: Config, s0: State) returns (steps: seq<Step>)
    requires c == SMALL && s0 == Initial(OLD_CHAIN)
    ensures Run(c, s0, steps) == State(OLD_CHAIN, 3, 3, map[0 := 1, 1 := 2, 2 := 3], Idle)
  {
    var work := Indexing(c);
    var s1 := Apply(c, s0, NewHead(2, false));
    steps := [NewHead(2, false)];
    assert Run(c, s0, steps) == s1 == State(OLD_CHAIN, 0, 3, map[], Idle);
    var s2 := NextSection(c, s1, 1);
    RunAppend(c, s0, steps, work);
    steps := steps + work;
    var s3 := NextSection(c, s2, 2);
    RunAppend(c, s0, steps, work);
    steps := steps + work;
    var s4 := NextSection(c, s3, 3);
    RunAppend(c, s0, steps, work);
    steps := steps + work;
  }

  lemma {:induction false} StaleSection(c: Config, s: State)
    requires c == SMALL && s == State(OLD_CHAIN, 3, 3, map[0 := 1, 1 := 2, 2 := 3], Idle)
    ensures var t := Apply(c, Run(c, s, [ChainMoves(HALFWAY)]), Sections([]));
            t.stored == 3 && SectionHead(t.heads, 1) == 2 && !HeadsCanonical(c, t)
  {
    var t := s.(db := HALFWAY);
    assert Run(c, s, [ChainMoves(HALFWAY)]) == t;
    assert SectionHead(t.heads, 1) == 2 && ReadCanonical(t.db.canonical, End(c, 1)) == 4;
  }

  /** With sections of one block, the worker indexes the old branch 1-2-3, and then the new branch 1-4
      is written up to height one.  The top head still matches, so Sections keeps all three sections,
      though block 2 is no longer canonical. */
  lemma {:induction false} SectionsDuringReorg(c: Config) returns (steps: seq<Step>)
    requires c == SMALL
    ensures ConfigOk(c)
    ensures var t := Apply(c, Run(c, Initial(OLD_CHAIN), steps), Sections([]));
            t.stored == 3 && SectionHead(t.heads, 1) == 2 && !HeadsCanonical(c, t)
  {
    var s0 := Initial(OLD_CHAIN);
    steps := ThreeStored(c, s0);
    StaleSection(c, Run(c, s0, steps));
    RunAppend(c, s0, steps, [ChainMoves(HALFWAY)]);
    steps := steps + [ChainMoves(HALFWAY)];
  }

  lemma {:induction false} NextSection(c: Config, s: State, hash: Hash) returns (t: State)
    requires c == SMALL && Inv(c, s) && s.db == OLD_CHAIN && s.worker == Idle && s.known == 3
    requires s.stored < 3 && hash == s.stored + 1 && (s.stored == 0 || s.heads[s.stored - 1] == s.stored)
    ensures t == State(OLD_CHAIN, s.stored + 1, 3, s.heads[s.stored := hash], Idle)
    ensures t == Run(c, s, Indexing(c)) && Inv(c, t)
  {
    assert ReadableAt(c, s.db, s.stored);
    UndisturbedSectionStored(c, s);
    t := WithSection(c, s);
    RunKeepsInv(c, s, Indexing(c));
  }

  // ----- the indexer as it runs

  /** The indexer object; each method is one locked region or one read of the worker, and does what
      the step function of the same name says. */
  class Indexer {
    const config: Config
    var db: ChainDb
    var stored: nat
    var known: nat
    var heads: map<nat, Hash>
    var worker: Worker

    ghost function Now(): State
      reads this
    {
      State(db, stored, known, heads, worker)
    }

    constructor (config: Config, db: ChainDb)
      requires ConfigOk(config)
      ensures this.config == config && Now() == Initial(db) && Inv(config, Now())
    {
      this.config, this.db, stored, known, heads, worker := config, db, 0, 0, map[], Idle;
    }

    /** Sets the number of valid sections, removing the heads of sections that are rolled back. */
    method SetValidSections(sections: nat)
      modifies `stored, `heads
      ensures Now() == SetValid(old(Now()), sections)
    {
      while stored > sections
        invariant stored <= old(stored)
        invariant stored < old(stored) ==> sections <= stored
        invariant heads == map i | i in old(heads) && !(stored <= i < old(stored)) :: old(heads)[i]
      {
        stored := stored - 1;
        heads := heads - {stored};
      }
      stored := sections;
    }

    /** Looks at the last stored section, and rolls it back unless it ends on the canonical chain. */
    method VerifyTop(moves: seq<ChainDb>) returns (valid: bool)
      requires config.size > 0 && stored > 0
      modifies `db, `stored, `heads
      ensures var t := Moved(old(Now()), moves);
              valid == Matches(config, t) && Now() == if valid then t else SetValid(t, t.stored - 1)
    {
      if moves != [] {
        db := moves[0];
      }
      assert End(config, stored - 1) == stored * config.size - 1;
      valid := SectionHead(heads, stored - 1) == ReadCanonical(db.canonical, stored * config.size - 1);
      if !valid {
        SetValidSections(stored - 1);
      }
    }

    /** Rolls back stored sections from the top until one ends on the canonical chain. */
    method VerifyLastHead(moves: seq<ChainDb>)
      requires config.size > 0
      modifies `db, `stored, `heads
      ensures Now() == VerifyLast(config, old(Now()), moves)
    {
      var later := moves;
      ghost var goal := VerifyLast(config, Now(), moves);
      while stored > 0
        invariant VerifyLast(config, Now(), later) == goal
        decreases stored
      {
        VerifyOnce(config, Now(), later);
        var valid := VerifyTop(later);
        if valid {
          return;
        }
        later := Later(later);
      }
    }

    method OnNewHead(head: nat, reorg: bool)
      requires config.size > 0
      modifies `stored, `known, `heads
      ensures Now() == Apply(config, old(Now()), NewHead(head, reorg))
      ensures !reorg ==> Raised(config, head, old(known), known)
      ensures reorg ==> CutBack(config, head, old(known), known) && CutBack(config, head, old(stored), stored)
      ensures forall i :: i in heads <==> i in old(heads) && !(stored <= i < old(stored))
    {
      NewHeadExact(config, Now(), head, reorg);
      if reorg {
        var point := (head + 1) / config.size;
        if point < known {
          known := point;
        }
        if point < stored {
          SetValidSections(point);
        }
        return;
      }
      if head >= config.confirms {
        var sections := (head + 1 - config.confirms) / config.size;
        if sections > known {
          known := sections;
        }
      }
    }

    /** The worker takes the lock, verifies, and captures section and previous head. */
    method OnCapture(moves: seq<ChainDb>)
      requires config.size > 0 && worker.Idle?
      modifies `db, `stored, `heads, `worker
      ensures Now() == Apply(config, old(Now()), Capture(moves))
    {
      if known > stored {
        VerifyKeepsRest(config, Now(), moves);
        VerifyLastHead(moves);
        worker := Resetting(stored, if stored > 0 then SectionHead(heads, stored - 1) else ZERO);
      }
    }

    /** Without the lock, the backend starts the section or all sections are given up. */
    method OnReset(succeeds: bool)
      requires config.size > 0 && worker.Resetting?
      modifies `stored, `heads, `worker
      ensures Now() == Apply(config, old(Now()), Reset(succeeds))
    {
      if succeeds {
        worker := Reading(worker.section, worker.oldHead, worker.oldHead, worker.section * config.size);
      } else {
        SetValidSections(0);
        worker := Done(worker.section, worker.oldHead, None);
      }
    }

    /** The worker reads one header without the lock. */
    method OnRead(processes: bool)
      requires config.size > 0 && worker.Reading? && worker.number < (worker.section + 1) * config.size
      modifies `worker
      ensures Now() == Apply(config, old(Now()), ReadHeader(processes))
    {
      var hash := ReadCanonical(db.canonical, worker.number);
      if hash == ZERO || hash !in db.present {
        worker := Done(worker.section, worker.oldHead, None);
        return;
      }
      var header := Get(config.world, hash, worker.number);
      if header.None? || header.value.parent != worker.lastHead || !processes {
        worker := Done(worker.section, worker.oldHead, None);
        return;
      }
      worker := worker.(lastHead := hash, number := worker.number + 1);
    }

    /** The worker has read the whole section and lets the backend commit its data. */
    method OnEnd(commits: bool)
      requires config.size > 0 && worker.Reading? && worker.number == (worker.section + 1) * config.size
      modifies `worker
      ensures Now() == Apply(config, old(Now()), EndSection(commits))
    {
      worker := Done(worker.section, worker.oldHead, if commits then Some(worker.lastHead) else None);
    }

    /** The worker takes the lock again and commits if the previous head is still in place. */
    method OnFinish(moves: seq<ChainDb>)
      requires config.size > 0 && worker.Done?
      modifies `db, `stored, `known, `heads, `worker
      ensures Now() == Apply(config, old(Now()), Finish(moves))
    {
      var w := worker;
      if w.newHead.Some? && (w.section == 0 || w.oldHead == SectionHead(heads, w.section - 1)) {
        heads := heads[w.section := w.newHead.value];
        SetValidSections(w.section + 1);
      } else {
        VerifyKeepsRest(config, Now(), moves);
        VerifyLastHead(moves);
        known := stored;
      }
      worker := Idle;
    }

    /** The number of valid sections and the head of the last one.  On a linked canonical map every
        stored head is canonical. */
    method OnSections(moves: seq<ChainDb>) returns (sections: nat, head: Hash)
      requires ConfigOk(config) && Inv(config, Now())
      modifies `db, `stored, `heads
      ensures Now() == Apply(config, old(Now()), Sections(moves)) && Inv(config, Now())
      ensures sections == stored <= old(stored) && head == SectionHead(heads, stored - 1)
      ensures HeadsCanonical(config, Now()) <==> EndsLinked(config, db.canonical, sections)
      ensures LinkedMap(config, db.canonical) ==> HeadsCanonical(config, Now())
    {
      ghost var before := Now();
      VerifyKeepsInv(config, before, moves);
      SectionsExact(config, before, [], moves);
      if LinkedMap(config, VerifyLast(config, before, moves).db.canonical) {
        SectionsCanonical(config, before, [], moves);
      }
      VerifyLastHead(moves);
      return stored, SectionHead(heads, stored - 1);
    }
  }

  lemma {:induction false} VerifyOnce(c: Config, s: State, moves: seq<ChainDb>)
    requires c.size > 0 && s.stored > 0
    ensures var t := Moved(s, moves);
            VerifyLast(c, s, moves)
            == if Matches(c, t) then t else VerifyLast(c, SetValid(t, s.stored - 1), Later(moves))
  {
  }

  /** A verification touches only the stored sections. */
  lemma {:induction false} VerifyKeepsRest(c: Config, s: State, moves: seq<ChainDb>)
    requires c.size > 0
    ensures var t := VerifyLast(c, s, moves); t == s.(db := t.db, stored := t.stored, heads := t.heads)
    decreases s.stored
  {
    if s.stored > 0 && !Matches(c, Moved(s, moves)) {
      VerifyKeepsRest(c, SetValid(Moved(s, moves), s.stored - 1), Later(moves));
    }
  }
}
