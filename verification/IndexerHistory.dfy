/**
 What stands behind the sections of the indexer after every run: a head announced deep enough above
 them, and a backend that has processed and committed them.
 */
module IndexerHistory {
  import opened BlockTree
  import opened ChainIndexer

  // ----- how a section became known

  /** There are `n` sections with `confirms` blocks on top up to a head that was announced. */
  ghost predicate Backed(c: Config, announced: set<nat>, n: nat)
  {
    n > 0 ==> exists h :: h in announced && Deep(c, n, c.confirms, h)
  }

  /** So it is with the sections known, those stored and the one being indexed. */
  ghost predicate AllBacked(c: Config, announced: set<nat>, s: State)
  {
    && Backed(c, announced, s.known) && Backed(c, announced, s.stored)
    && (!s.worker.Idle? ==> Backed(c, announced, s.worker.section + 1))
  }

  /** The heads announced by some steps without a reorganisation. */
  function Announced(steps: seq<Step>): set<nat>
  {
    set i | 0 <= i < |steps| && steps[i].NewHead? && !steps[i].reorg :: steps[i].head
  }

  lemma {:induction false} BackedBelow(c: Config, announced: set<nat>, more: set<nat>, n: nat, m: nat)
    requires Backed(c, announced, n) && m <= n && announced <= more
    ensures Backed(c, more, m)
  {
    if m > 0 {
      var h :| h in announced && Deep(c, n, c.confirms, h);
      assert m * c.size <= n * c.size;
      assert Deep(c, m, c.confirms, h);
    }
  }

  lemma {:induction false} StepKeepsBacked(c: Config, s: State, step: Step, announced: set<nat>)
    requires ConfigOk(c) && Inv(c, s) && AllBacked(c, announced, s)
    ensures AllBacked(c, announced + Announced([step]), Apply(c, s, step))
  {
    var t := Apply(c, s, step);
    var more := announced + Announced([step]);
    forall n, m: nat | Backed(c, announced, n) && m <= n
      ensures Backed(c, more, m)
    {
      BackedBelow(c, announced, more, n, m);
    }
    match step {
      case NewHead(head, reorg) =>
        NewHeadExact(c, s, head, reorg);
        if t.known > s.known {
          assert [step][0].head in Announced([step]);
          assert Deep(c, t.known, c.confirms, head);
        }
      case Capture(moves) =>
        VerifyKeepsRest(c, s, moves);
        VerifyKeepsInv(c, s, moves);
      case Finish(moves) =>
        VerifyKeepsRest(c, s, moves);
        VerifyKeepsInv(c, s, moves);
      case Sections(moves) =>
        VerifyKeepsRest(c, s, moves);
        VerifyKeepsInv(c, s, moves);
      case _ =>
    }
  }

  lemma {:induction false} RunKeepsBacked(c: Config, s: State, steps: seq<Step>, announced: set<nat>)
    requires ConfigOk(c) && Inv(c, s) && AllBacked(c, announced, s)
    ensures AllBacked(c, announced + Announced(steps), Run(c, s, steps))
    decreases |steps|
  {
    if steps == [] {
      assert announced + Announced(steps) == announced;
    } else {
      StepKeepsInv(c, s, steps[0]);
      StepKeepsBacked(c, s, steps[0], announced);
      RunKeepsBacked(c, Apply(c, s, steps[0]), steps[1..], announced + Announced([steps[0]]));
      AnnouncedFirst(steps);
      assert announced + Announced([steps[0]]) + Announced(steps[1..]) == announced + Announced(steps);
    }
  }

  lemma {:induction false} AnnouncedFirst(steps: seq<Step>)
    requires steps != []
    ensures Announced(steps) == Announced([steps[0]]) + Announced(steps[1..])
  {
    assert forall i :: 0 < i < |steps| ==> steps[i] == steps[1..][i - 1];
    assert [steps[0]][0] == steps[0];
  }

  /** After every run from the start, every section known, stored or being indexed ends at least
      `confirms` blocks below a head announced in that run. */
  lemma {:induction false} SectionsConfirmed(c: Config, db: ChainDb, steps: seq<Step>, section: nat)
    requires ConfigOk(c)
    requires var t := Run(c, Initial(db), steps);
             section < t.known || section < t.stored || (!t.worker.Idle? && section == t.worker.section)
    ensures exists h :: NewHead(h, false) in steps && End(c, section) + c.confirms <= h
  {
    var t := Run(c, Initial(db), steps);
    RunKeepsBacked(c, Initial(db), steps, {});
    assert {} + Announced(steps) == Announced(steps);
    var n := if section < t.known then t.known else if section < t.stored then t.stored else section + 1;
    BackedBelow(c, Announced(steps), Announced(steps), n, section + 1);
    var h :| h in Announced(steps) && Deep(c, section + 1, c.confirms, h);
    var i :| 0 <= i < |steps| && steps[i].NewHead? && !steps[i].reorg && steps[i].head == h;
    assert steps[i] == NewHead(h, false);
  }

  // ----- what happened to a stored section

  /** The header that a step has the backend process, if it does: the canonical one at the height the
      worker is at, present at that moment and a child of the one before. */
  ghost function ProcessedBy(c: Config, s: State, step: Step): set<Hash>
  {
    if step == ReadHeader(true) && s.worker.Reading? && s.worker.number < (s.worker.section + 1) * c.size then
      set h | h in s.db.present && Continues(c, s, h)
    else {}
  }

  ghost predicate Continues(c: Config, s: State, h: Hash)
    requires s.worker.Reading?
  {
    && s.worker.number in s.db.canonical && s.db.canonical[s.worker.number] == h
    && h in c.world && c.world[h].number == s.worker.number && c.world[h].parent == s.worker.lastHead
  }

  /** The section head that a step has the backend commit, if it does. */
  ghost function CommittedBy(c: Config, s: State, step: Step): set<Hash>
  {
    if step == EndSection(true) && s.worker.Reading? && s.worker.number == (s.worker.section + 1) * c.size
    then {s.worker.lastHead} else {}
  }

  /** What the backend has done in the course of a run. */
  datatype Log = Log(processed: set<Hash>, committed: set<Hash>)

  ghost function Logging(c: Config, s: State, steps: seq<Step>, log: Log): Log
    requires c.size > 0
    decreases |steps|
  {
    if steps == [] then log
    else Logging(c, Apply(c, s, steps[0]), steps[1..], LogStep(c, s, steps[0], log))
  }

  ghost function LogStep(c: Config, s: State, step: Step, log: Log): Log
  {
    Log(log.processed + ProcessedBy(c, s, step), log.committed + CommittedBy(c, s, step))
  }

  /** The `k` headers from `h` down by parent links have been processed. */
  ghost predicate AllProcessed(world: Store, processed: set<Hash>, h: Hash, k: nat)
    decreases k
  {
    k > 0 ==> h in processed && h in world && AllProcessed(world, processed, world[h].parent, k - 1)
  }

  lemma {:induction false} ProcessedStays(world: Store, processed: set<Hash>, more: set<Hash>, h: Hash, k: nat)
    requires AllProcessed(world, processed, h, k) && processed <= more
    ensures AllProcessed(world, more, h, k)
    decreases k
  {
    if k > 0 {
      ProcessedStays(world, processed, more, world[h].parent, k - 1);
    }
  }

  ghost predicate SectionLogged(c: Config, log: Log, head: Hash)
  {
    AllProcessed(c.world, log.processed, head, c.size) && head in log.committed
  }

  ghost predicate WorkerLogged(c: Config, log: Log, w: Worker)
  {
    match w
    case Idle => true
    case Resetting(_, _) => true
    case Reading(section, oldHead, lastHead, number) =>
      section * c.size <= number && AllProcessed(c.world, log.processed, lastHead, number - section * c.size)
    case Done(section, oldHead, newHead) => newHead.Some? ==> SectionLogged(c, log, newHead.value)
  }

  ghost predicate Logged(c: Config, log: Log, s: State)
  {
    && (forall i :: i in s.heads ==> SectionLogged(c, log, s.heads[i]))
    && WorkerLogged(c, log, s.worker)
  }

  lemma {:induction false} LoggedStays(c: Config, s: State, log: Log, more: Log)
    requires Logged(c, log, s) && log.processed <= more.processed && log.committed <= more.committed
    ensures Logged(c, more, s)
  {
    forall h, k: nat | AllProcessed(c.world, log.processed, h, k)
      ensures AllProcessed(c.world, more.processed, h, k)
    {
      ProcessedStays(c.world, log.processed, more.processed, h, k);
    }
  }

  /** A verification keeps the heads of the sections it keeps. */
  lemma {:induction false} VerifyKeepsHeads(c: Config, s: State, moves: seq<ChainDb>)
    requires c.size > 0
    ensures var t := VerifyLast(c, s, moves); forall i :: i in t.heads ==> i in s.heads && t.heads[i] == s.heads[i]
    decreases s.stored
  {
    if s.stored > 0 && !Matches(c, Moved(s, moves)) {
      VerifyKeepsHeads(c, SetValid(Moved(s, moves), s.stored - 1), Later(moves));
    }
  }

  lemma {:induction false} ReadKeepsLogged(c: Config, s: State, processes: bool, log: Log)
    requires ConfigOk(c) && Logged(c, log, s) && s.worker.Reading?
    requires s.worker.number < (s.worker.section + 1) * c.size
    ensures Logged(c, LogStep(c, s, ReadHeader(processes), log), ApplyRead(c, s, processes))
  {
    LoggedStays(c, s, log, LogStep(c, s, ReadHeader(processes), log));
  }

  lemma {:induction false} EndKeepsLogged(c: Config, s: State, commits: bool, log: Log)
    requires ConfigOk(c) && Inv(c, s) && Logged(c, log, s)
    ensures Logged(c, LogStep(c, s, EndSection(commits), log), Apply(c, s, EndSection(commits)))
  {
    LoggedStays(c, s, log, LogStep(c, s, EndSection(commits), log));
    if s.worker.Reading? && s.worker.number == (s.worker.section + 1) * c.size {
      assert s.worker.number - s.worker.section * c.size == c.size;
    }
  }

  lemma {:induction false} StepKeepsLogged(c: Config, s: State, step: Step, log: Log)
    requires ConfigOk(c) && Inv(c, s) && Logged(c, log, s)
    ensures Logged(c, LogStep(c, s, step, log), Apply(c, s, step))
  {
    LoggedStays(c, s, log, LogStep(c, s, step, log));
    match step {
      case ReadHeader(processes) =>
        if s.worker.Reading? && s.worker.number < (s.worker.section + 1) * c.size {
          ReadKeepsLogged(c, s, processes, log);
        }
      case EndSection(commits) =>
        EndKeepsLogged(c, s, commits, log);
      case Capture(moves) =>
        VerifyKeepsHeads(c, s, moves);
        VerifyKeepsRest(c, s, moves);
      case Finish(moves) =>
        VerifyKeepsHeads(c, s, moves);
        VerifyKeepsRest(c, s, moves);
      case Sections(moves) =>
        VerifyKeepsHeads(c, s, moves);
        VerifyKeepsRest(c, s, moves);
      case _ =>
    }
  }

  lemma {:induction false} RunKeepsLogged(c: Config, s: State, steps: seq<Step>, log: Log)
    requires ConfigOk(c) && Inv(c, s) && Logged(c, log, s)
    ensures Logged(c, Logging(c, s, steps, log), Run(c, s, steps))
    decreases |steps|
  {
    if steps != [] {
      StepKeepsInv(c, s, steps[0]);
      StepKeepsLogged(c, s, steps[0], log);
      RunKeepsLogged(c, Apply(c, s, steps[0]), steps[1..], LogStep(c, s, steps[0], log));
    }
  }

  /** After every run from the start the backend has committed every stored section, and has processed
      every header of it, each while that header was canonical and present. */
  lemma {:induction false} SectionsProcessed(c: Config, db: ChainDb, steps: seq<Step>, section: nat)
    requires ConfigOk(c) && section < Run(c, Initial(db), steps).stored
    ensures var t, log := Run(c, Initial(db), steps), Logging(c, Initial(db), steps, Log({}, {}));
            && section in t.heads && t.heads[section] in log.committed
            && AllProcessed(c.world, log.processed, t.heads[section], c.size)
  {
    RunKeepsInv(c, Initial(db), steps);
    RunKeepsLogged(c, Initial(db), steps, Log({}, {}));
    var t := Run(c, Initial(db), steps);
    assert SectionOk(c, t.heads, section);
  }
}
