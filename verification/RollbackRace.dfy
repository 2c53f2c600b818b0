/**
 When the indexer's backend refuses to start a section the worker rolls all sections back without
 taking the lock, so that rollback can overlap one that a reorganisation makes under the lock.
 Here the two run statement by statement in any order.

 The free rollback always asks for zero sections.  The locked one asks for `target` sections and
 runs only if more are stored when it looks.
 */
module RollbackRace {
  import opened BlockTree

  const TWO_64: nat := 0x1_0000_0000_0000_0000

  /** The count in the index database, the count in memory, and the recorded section heads. */
  datatype Memory = Memory(persisted: nat, stored: nat, heads: map<nat, Hash>)

  /** The statement a rollback executes next: look whether there is anything to do, put the count
      into the database, test the loop, count down, read the count again, delete the head of that
      section, and write the final count. */
  datatype Pc = Checking | Putting | Testing | Counting | Reading | Deleting(section: nat) | Assigning | Through

  datatype State = State(memory: Memory, free: Pc, locked: Pc)

  /** One statement of a rollback.  The count is an unsigned 64-bit number and wraps around. */
  function Advance(m: Memory, target: nat, pc: Pc): (Memory, Pc)
  {
    match pc
    case Checking => (m, if m.stored > target then Putting else Through)
    case Putting => (m.(persisted := target), Testing)
    case Testing => (m, if m.stored > target then Counting else Assigning)
    case Counting => (m.(stored := if m.stored == 0 then TWO_64 - 1 else m.stored - 1), Reading)
    case Reading => (m, Deleting(m.stored))
    case Deleting(section) => (m.(heads := m.heads - {section}), Testing)
    case Assigning => (m.(stored := target), Through)
    case Through => (m, Through)
  }

  /** The free rollback advances, or the locked one. */
  function Step(s: State, target: nat, free: bool): State
  {
    if free then
      var (m, pc) := Advance(s.memory, 0, s.free);
      State(m, pc, s.locked)
    else
      var (m, pc) := Advance(s.memory, target, s.locked);
      State(m, s.free, pc)
  }

  function Run(s: State, target: nat, schedule: seq<bool>): State
    decreases |schedule|
  {
    if schedule == [] then s else Step(Run(s, target, schedule[..|schedule| - 1]), target, schedule[|schedule| - 1])
  }

  function Start(m: Memory): State
  {
    State(m, Putting, Checking)
  }

  predicate Finished(s: State)
  {
    s.free == Through && s.locked == Through
  }

  /** Both counts agree, and a head is recorded for exactly the stored sections. */
  ghost predicate Consistent(m: Memory)
  {
    m.persisted == m.stored < TWO_64 && HeadsBelow(m.heads, m.stored)
  }

  ghost predicate HeadsBelow(heads: map<nat, Hash>, n: nat)
  {
    forall i: nat :: i in heads <==> i < n
  }

  /** Whatever the schedule, a run that finishes leaves the index consistent. */
  ghost predicate AlwaysConsistent(m: Memory, target: nat)
  {
    forall schedule: seq<bool> :: Finished(Run(Start(m), target, schedule)) ==>
      Consistent(Run(Start(m), target, schedule).memory)
  }

  lemma {:induction false} RunOne(s: State, target: nat, schedule: seq<bool>, free: bool)
    ensures Run(s, target, schedule + [free]) == Step(Run(s, target, schedule), target, free)
  {
    assert (schedule + [free])[..|schedule|] == schedule;
  }

  lemma {:induction false} RunAppend(s: State, target: nat, first: seq<bool>, second: seq<bool>)
    ensures Run(s, target, first + second) == Run(Run(s, target, first), target, second)
    decreases |second|
  {
    if second == [] {
      assert first + second == first;
    } else {
      var front, last := second[..|second| - 1], second[|second| - 1];
      calc {
        Run(s, target, first + second);
        { assert first + second == (first + front) + [last]; }
        Run(s, target, (first + front) + [last]);
        { RunOne(s, target, first + front, last); }
        Step(Run(s, target, first + front), target, last);
        { RunAppend(s, target, first, front); }
        Step(Run(Run(s, target, first), target, front), target, last);
        { RunOne(Run(s, target, first), target, front, last); assert second == front + [last]; }
        Run(Run(s, target, first), target, second);
      }
    }
  }

  // ----- one rollback on its own

  /** A rollback to `target` that nobody interferes with and that started on `before`. */
  ghost predicate Alone(before: Memory, m: Memory, target: nat, pc: Pc)
  {
    match pc
    case Checking => m == before
    case Putting => m == before
    case Testing => m.persisted == target && target <= m.stored <= before.stored && HeadsBelow(m.heads, m.stored)
    case Counting => m.persisted == target && target < m.stored <= before.stored && HeadsBelow(m.heads, m.stored)
    case Reading => m.persisted == target && target <= m.stored < before.stored && HeadsBelow(m.heads, m.stored + 1)
    case Deleting(section) =>
      && m.persisted == target && section == m.stored
      && target <= m.stored < before.stored && HeadsBelow(m.heads, m.stored + 1)
    case Assigning => m.persisted == target && m.stored == target <= before.stored && HeadsBelow(m.heads, m.stored)
    case Through => Consistent(m) && m.stored == if target < before.stored then target else before.stored
  }

  ghost predicate MayRun(before: Memory, target: nat, pc: Pc)
  {
    pc == Checking || pc == Through || target <= before.stored
  }

  lemma {:induction false} AloneStep(before: Memory, m: Memory, target: nat, pc: Pc)
    requires Consistent(before) && Alone(before, m, target, pc) && MayRun(before, target, pc)
    ensures var (m', pc') := Advance(m, target, pc); Alone(before, m', target, pc') && MayRun(before, target, pc')
  {
  }

  function PcOf(s: State, free: bool): Pc
  {
    if free then s.free else s.locked
  }

  function Goal(target: nat, free: bool): nat
  {
    if free then 0 else target
  }

  function Turns(n: nat, free: bool): (turns: seq<bool>)
    ensures |turns| == n
  {
    if n == 0 then [] else Turns(n - 1, free) + [free]
  }

  lemma {:induction false} OtherWaits(s: State, target: nat, free: bool, n: nat)
    ensures PcOf(Run(s, target, Turns(n, free)), !free) == PcOf(s, !free)
  {
    if n > 0 {
      OtherWaits(s, target, free, n - 1);
      RunOne(s, target, Turns(n - 1, free), free);
    }
  }

  lemma {:induction false} SoloRun(before: Memory, s: State, target: nat, free: bool, n: nat)
    requires Consistent(before)
    requires Alone(before, s.memory, Goal(target, free), PcOf(s, free))
    requires MayRun(before, Goal(target, free), PcOf(s, free))
    ensures var t := Run(s, target, Turns(n, free));
            && Alone(before, t.memory, Goal(target, free), PcOf(t, free))
            && MayRun(before, Goal(target, free), PcOf(t, free))
  {
    if n > 0 {
      SoloRun(before, s, target, free, n - 1);
      var t := Run(s, target, Turns(n - 1, free));
      RunOne(s, target, Turns(n - 1, free), free);
      AloneStep(before, t.memory, Goal(target, free), PcOf(t, free));
    }
  }

  /** Under the lock one rollback would run after the other, and in either order no section would be
      left and nothing would be recorded for any. */
  lemma {:induction false} SerialConsistent(m: Memory, target: nat, freeFirst: bool, k: nat, n: nat)
    requires Consistent(m)
    ensures var t := Run(Start(m), target, Turns(k, freeFirst) + Turns(n, !freeFirst));
            Finished(t) ==> Consistent(t.memory) && t.memory.stored == 0
  {
    var s := Start(m);
    var mid := Run(s, target, Turns(k, freeFirst));
    RunAppend(s, target, Turns(k, freeFirst), Turns(n, !freeFirst));
    SoloRun(m, s, target, freeFirst, k);
    OtherWaits(s, target, freeFirst, k);
    OtherWaits(mid, target, !freeFirst, n);
    if PcOf(mid, freeFirst) == Through {
      SoloRun(mid.memory, mid, target, !freeFirst, n);
    }
  }

  // ----- when every schedule ends well

  /** Nothing is left to do for the locked rollback: only the free one runs. */
  lemma {:induction false} IdleLock(m: Memory, target: nat, schedule: seq<bool>)
    requires Consistent(m) && m.stored <= target
    ensures var t := Run(Start(m), target, schedule);
            && (t.locked == Checking || t.locked == Through)
            && t.free != Checking && Alone(m, t.memory, 0, t.free) && t.memory.stored <= m.stored
    decreases |schedule|
  {
    if schedule != [] {
      var front := schedule[..|schedule| - 1];
      IdleLock(m, target, front);
      var t := Run(Start(m), target, front);
      AloneStep(m, t.memory, 0, t.free);
    }
  }

  /** With one section and both rollbacks asking for none: while its head is recorded, either nobody
      has left the loop, or the count is zero and somebody is about to read it, or somebody is about
      to delete that head. */
  ghost predicate OneSection(s: State)
  {
    && (forall i: nat :: i in s.memory.heads ==> i == 0)
    && (0 in s.memory.heads ==>
          || s.free == Deleting(0) || s.locked == Deleting(0)
          || (s.memory.stored == 0 && (s.free == Reading || s.locked == Reading))
          || (s.memory.stored > 0 && !Left(s.free) && !Left(s.locked)))
    && s.free != Checking && (s.free == Putting || s.memory.persisted == 0)
    && (s.locked == Checking || s.locked == Through || s.memory.persisted == 0 || s.free == Putting)
    && (Finished(s) ==> s.memory.stored == 0)
  }

  predicate Left(pc: Pc)
  {
    pc == Assigning || pc == Through
  }

  lemma {:induction false} OneSectionStep(s: State, free: bool)
    requires OneSection(s)
    ensures OneSection(Step(s, 0, free))
  {
  }

  lemma {:induction false} OneSectionRun(m: Memory, schedule: seq<bool>)
    requires Consistent(m) && m.stored == 1
    ensures OneSection(Run(Start(m), 0, schedule))
    decreases |schedule|
  {
    if schedule != [] {
      OneSectionRun(m, schedule[..|schedule| - 1]);
      OneSectionStep(Run(Start(m), 0, schedule[..|schedule| - 1]), schedule[|schedule| - 1]);
    }
  }

  // ----- schedules that end badly

  lemma {:induction false} RunTurns(s: State, target: nat, free: bool, n: nat)
    ensures Run(s, target, Turns(n + 1, free)) == Step(Run(s, target, Turns(n, free)), target, free)
  {
    RunOne(s, target, Turns(n, free), free);
  }

  function With(s: State, m: Memory, free: bool, pc: Pc): State
  {
    if free then State(m, pc, s.locked) else State(m, s.free, pc)
  }

  function AfterLoop(s: State, free: bool): State
    requires s.memory.stored > 0
  {
    var m := s.memory;
    With(s, m.(stored := m.stored - 1, heads := m.heads - {m.stored - 1}), free, Testing)
  }

  /** One pass through the loop body. */
  lemma {:induction false} LoopOnce(s: State, target: nat, free: bool)
    requires PcOf(s, free) == Testing && Goal(target, free) < s.memory.stored
    ensures Run(s, target, Turns(4, free)) == AfterLoop(s, free)
  {
    var m := s.memory;
    var counted := m.(stored := m.stored - 1);
    RunTurns(s, target, free, 0);
    assert Run(s, target, Turns(1, free)) == With(s, m, free, Counting);
    RunTurns(s, target, free, 1);
    assert Run(s, target, Turns(2, free)) == With(s, counted, free, Reading);
    RunTurns(s, target, free, 2);
    assert Run(s, target, Turns(3, free)) == With(s, counted, free, Deleting(m.stored - 1));
    RunTurns(s, target, free, 3);
  }

  lemma {:induction false} LeaveLoop(s: State, target: nat, free: bool)
    requires PcOf(s, free) == Testing && s.memory.stored <= Goal(target, free)
    ensures Run(s, target, Turns(2, free)) == With(s, s.memory.(stored := Goal(target, free)), free, Through)
  {
    RunTurns(s, target, free, 0);
    assert Run(s, target, Turns(1, free)) == With(s, s.memory, free, Assigning);
    RunTurns(s, target, free, 1);
  }

  lemma {:induction false} LoopThen(s: State, target: nat, free: bool, turns: seq<bool>)
    requires PcOf(s, free) == Testing && Goal(target, free) < s.memory.stored
    ensures Run(s, target, Turns(4, free) + turns) == Run(AfterLoop(s, free), target, turns)
  {
    RunAppend(s, target, Turns(4, free), turns);
    LoopOnce(s, target, free);
  }

  /** A rollback took off everything between its goal and the count and finished; heads above the
      count stayed. */
  ghost predicate RolledBack(s: State, t: State, goal: nat, free: bool)
  {
    && t == With(s, t.memory, free, Through)
    && t.memory.persisted == s.memory.persisted && t.memory.stored == goal
    && forall i: nat :: i in t.memory.heads <==> i in s.memory.heads && !(goal <= i < s.memory.stored)
  }

  lemma {:induction false} RolledBackStep(s: State, t: State, goal: nat, free: bool)
    requires goal < s.memory.stored && RolledBack(AfterLoop(s, free), t, goal, free)
    ensures RolledBack(s, t, goal, free)
  {
  }

  lemma {:induction false} FinishAlone(s: State, target: nat, free: bool) returns (turns: seq<bool>, t: State)
    requires PcOf(s, free) == Testing
    ensures t == Run(s, target, turns) && RolledBack(s, t, Goal(target, free), free)
    decreases s.memory.stored
  {
    if s.memory.stored <= Goal(target, free) {
      turns, t := Turns(2, free), With(s, s.memory.(stored := Goal(target, free)), free, Through);
      LeaveLoop(s, target, free);
    } else {
      turns, t := FinishAlone(AfterLoop(s, free), target, free);
      LoopThen(s, target, free, turns);
      turns := Turns(4, free) + turns;
      RolledBackStep(s, t, Goal(target, free), free);
    }
  }

  /** The locked rollback looks, the free one runs from start to end, and the locked one goes on: it
      counts sections whose heads are gone. */
  lemma {:induction false} LookTooEarly(m: Memory, target: nat) returns (schedule: seq<bool>)
    requires Consistent(m) && 0 < target < m.stored
    ensures var t := Run(Start(m), target, schedule);
            Finished(t) && t.memory.stored == target && t.memory.heads == map[]
  {
    var s := Start(m);
    schedule := [false, true];
    RunOne(s, target, [], false);
    RunOne(s, target, [false], true);
    assert [] + [false] == [false] && [false] + [true] == schedule;
    var s2 := Run(s, target, schedule);
    assert s2 == State(m.(persisted := 0), Testing, Putting);
    var turns, s3 := FinishAlone(s2, target, true);
    RunAppend(s, target, schedule, turns);
    schedule := schedule + turns;
    RunOne(s, target, schedule, false);
    schedule := schedule + [false];
    var s4 := Run(s, target, schedule);
    assert s4 == State(s3.memory.(persisted := target), Through, Testing);
    var rest, s5 := FinishAlone(s4, target, false);
    RunAppend(s, target, schedule, rest);
    schedule := schedule + rest;
    assert s5.memory.heads == map[];
  }

  /** Both count down between one test and the next: the head of the top section is passed over. */
  lemma {:induction false} SkipTop(m: Memory, target: nat) returns (schedule: seq<bool>)
    requires Consistent(m) && target < m.stored && 2 <= m.stored
    ensures var t := Run(Start(m), target, schedule);
            Finished(t) && t.memory.stored == 0 && m.stored - 1 in t.memory.heads
  {
    var s := Start(m);
    schedule := Opening();
    Opened(m, target);
    var s1 := Run(s, target, schedule);
    var turns, s2 := FinishAlone(s1, target, false);
    RunAppend(s, target, schedule, turns);
    schedule := schedule + turns;
    var rest, s3 := FinishAlone(s2, target, true);
    RunAppend(s, target, schedule, rest);
    schedule := schedule + rest;
  }

  /** Both start, both pass the test, both count down, both read the count and delete. */
  function Opening(): seq<bool>
  {
    [false, false, true] + [true, false] + [true, false] + [true, false] + [true, false]
  }

  lemma {:induction false} Both(s: State, target: nat, schedule: seq<bool>)
    ensures Run(s, target, schedule + [true, false])
         == Step(Step(Run(s, target, schedule), target, true), target, false)
  {
    calc {
      Run(s, target, schedule + [true, false]);
      { assert schedule + [true, false] == (schedule + [true]) + [false]; }
      Run(s, target, (schedule + [true]) + [false]);
      { RunOne(s, target, schedule + [true], false); }
      Step(Run(s, target, schedule + [true]), target, false);
      { RunOne(s, target, schedule, true); }
      Step(Step(Run(s, target, schedule), target, true), target, false);
    }
  }

  lemma {:induction false} Opened(m: Memory, target: nat)
    requires Consistent(m) && target < m.stored && 2 <= m.stored
    ensures var t := Run(Start(m), target, Opening());
            && t.free == Testing && t.locked == Testing && t.memory.stored == m.stored - 2
            && t.memory.heads == m.heads - {m.stored - 2}
  {
    var s := Start(m);
    Opening3(m, target);
    var p := [false, false, true];
    var started := m.(persisted := 0);
    assert Run(s, target, p) == State(started, Testing, Testing);
    Both(s, target, p);
    var p1 := p + [true, false];
    assert Run(s, target, p1) == State(started, Counting, Counting);
    Both(s, target, p1);
    var p2 := p1 + [true, false];
    var counted := started.(stored := m.stored - 2);
    assert Run(s, target, p2) == State(counted, Reading, Reading);
    Both(s, target, p2);
    var p3 := p2 + [true, false];
    assert Run(s, target, p3) == State(counted, Deleting(m.stored - 2), Deleting(m.stored - 2));
    Both(s, target, p3);
    assert m.heads - {m.stored - 2} - {m.stored - 2} == m.heads - {m.stored - 2};
  }

  /** The overlap is harmless, whatever the schedule, if and only if the locked rollback has nothing to
      do, or there is one section only and both ask for none. */
  lemma {:induction false} OverlapExact(m: Memory, target: nat)
    requires Consistent(m)
    ensures AlwaysConsistent(m, target) <==> m.stored <= target || (target == 0 && m.stored == 1)
  {
    var s := Start(m);
    if m.stored <= target || (target == 0 && m.stored == 1) {
      forall schedule: seq<bool> | Finished(Run(s, target, schedule))
        ensures Consistent(Run(s, target, schedule).memory)
      {
        if m.stored <= target {
          IdleLock(m, target, schedule);
        } else {
          OneSectionRun(m, schedule);
        }
      }
    } else if target > 0 {
      var schedule := LookTooEarly(m, target);
      assert 0 !in Run(s, target, schedule).memory.heads;
    } else {
      var schedule := SkipTop(m, target);
      assert m.stored - 1 in Run(s, target, schedule).memory.heads;
    }
  }

  // ----- what a verification can repair

  function Head(heads: map<nat, Hash>, section: nat): Hash
  {
    if section in heads then heads[section] else ZERO
  }

  /** A verification of the stored sections: from the top, sections are given up until one has the
      canonical hash at its end for its head. */
  function Verified(stored: nat, heads: map<nat, Hash>, ends: nat -> Hash): (nat, map<nat, Hash>)
    decreases stored
  {
    if stored == 0 || Head(heads, stored - 1) == ends(stored - 1) then (stored, heads)
    else Verified(stored - 1, heads - {stored - 1}, ends)
  }

  ghost predicate AllRecorded(stored: nat, heads: map<nat, Hash>)
  {
    forall i: nat :: i < stored ==> i in heads
  }

  lemma {:induction false} VerifiedKeeps(stored: nat, heads: map<nat, Hash>, ends: nat -> Hash)
    ensures Verified(stored, heads, ends).0 <= stored
    ensures AllRecorded(stored, heads) ==> AllRecorded(Verified(stored, heads, ends).0, Verified(stored, heads, ends).1)
    decreases stored
  {
    if !(stored == 0 || Head(heads, stored - 1) == ends(stored - 1)) {
      VerifiedKeeps(stored - 1, heads - {stored - 1}, ends);
    }
  }

  /** A verification leaves a head recorded for every section counted. */
  ghost predicate Repaired(m: Memory, ends: nat -> Hash)
  {
    AllRecorded(Verified(m.stored, m.heads, ends).0, Verified(m.stored, m.heads, ends).1)
  }

  /** There is a canonical hash at every section end. */
  ghost predicate HasEnds(ends: nat -> Hash)
  {
    forall i: nat :: ends(i) != ZERO
  }

  /** However the rollbacks overlap, and whatever the canonical hashes at the section ends are, a
      verification afterwards repairs the index. */
  ghost predicate AlwaysRepaired(m: Memory, target: nat)
  {
    forall schedule: seq<bool>, ends: nat -> Hash :: HasEnds(ends) && Finished(Run(Start(m), target, schedule)) ==>
      Repaired(Run(Start(m), target, schedule).memory, ends)
  }

  /** Once both are through the count is that of one of them. */
  lemma {:induction false} FinalCount(m: Memory, target: nat, schedule: seq<bool>)
    ensures var t := Run(Start(m), target, schedule);
            && (t.free == Through && t.locked == Checking ==> t.memory.stored == 0)
            && (Finished(t) ==> t.memory.stored == 0 || t.memory.stored == target)
    decreases |schedule|
  {
    if schedule != [] {
      FinalCount(m, target, schedule[..|schedule| - 1]);
    }
  }

  lemma {:induction false} HeadsShrink(s: State, target: nat, schedule: seq<bool>)
    ensures var heads := Run(s, target, schedule).memory.heads;
            forall i :: i in heads ==> i in s.memory.heads && heads[i] == s.memory.heads[i]
    decreases |schedule|
  {
    if schedule != [] {
      HeadsShrink(s, target, schedule[..|schedule| - 1]);
    }
  }

  /** The locked rollback alone, down to one section above its target. */
  lemma {:induction false} RollDown(s: State, target: nat) returns (turns: seq<bool>, t: State)
    requires s.locked == Testing && target < s.memory.stored
    ensures t == Run(s, target, turns) && t.free == s.free && t.locked == Testing && t.memory.stored == target + 1
    ensures forall i :: i in s.memory.heads && i <= target ==> i in t.memory.heads
    decreases s.memory.stored
  {
    if s.memory.stored == target + 1 {
      turns, t := [], s;
    } else {
      turns, t := RollDown(AfterLoop(s, false), target);
      LoopThen(s, target, false, turns);
      turns := Turns(4, false) + turns;
    }
  }

  function Squeezed(m: Memory, target: nat): State
    requires 2 <= target
  {
    State(m.(stored := target - 2, heads := m.heads - {target} - {target - 2}), Testing, Testing)
  }

  /** One section above the target the locked rollback passes its test, the free one takes that section
      and counts on, the locked one counts as well, and both delete the head two below the target. */
  lemma {:induction false} Squeeze(s: State, target: nat) returns (schedule: seq<bool>)
    requires s.free == Testing && s.locked == Testing && s.memory.stored == target + 1 && 2 <= target
    ensures Run(s, target, schedule) == Squeezed(s.memory, target)
  {
    var m := s.memory;
    var s1 := State(m, Testing, Counting);
    RunOne(s, target, [], false);
    schedule := [] + [false];
    LoopOnce(s1, target, true);
    RunAppend(s, target, schedule, Turns(4, true));
    schedule := schedule + Turns(4, true);
    var taken := m.(stored := target, heads := m.heads - {target});
    assert Run(s, target, schedule) == State(taken, Testing, Counting);
    RunOne(s, target, schedule, true);
    schedule := schedule + [true];
    assert Run(s, target, schedule) == State(taken, Counting, Counting);
    schedule := CountTwice(s, target, schedule, taken);
  }

  lemma {:induction false} CountTwice(s: State, target: nat, before: seq<bool>, m: Memory) returns (schedule: seq<bool>)
    requires Run(s, target, before) == State(m, Counting, Counting) && 2 <= m.stored
    ensures Run(s, target, schedule)
         == State(m.(stored := m.stored - 2, heads := m.heads - {m.stored - 2}), Testing, Testing)
  {
    var n := m.stored - 2;
    Both(s, target, before);
    schedule := before + [true, false];
    assert Run(s, target, schedule) == State(m.(stored := n), Reading, Reading);
    Both(s, target, schedule);
    schedule := schedule + [true, false];
    assert Run(s, target, schedule) == State(m.(stored := n), Deleting(n), Deleting(n));
    Both(s, target, schedule);
    schedule := schedule + [true, false];
    assert m.heads - {n} - {n} == m.heads - {n};
  }

  /** A schedule after which the target is counted and its top section is recorded, but not its first. */
  lemma {:induction false} LeaveHole(m: Memory, target: nat) returns (schedule: seq<bool>)
    requires Consistent(m) && 2 <= target < m.stored
    ensures var t := Run(Start(m), target, schedule);
            Finished(t) && t.memory.stored == target && target - 1 in t.memory.heads && 0 !in t.memory.heads
  {
    var s := Start(m);
    var p := [false, false, true];
    Opening3(m, target);
    var s1 := State(m.(persisted := 0), Testing, Testing);
    var down, s2 := RollDown(s1, target);
    RunAppend(s, target, p, down);
    var squeeze := Squeeze(s2, target);
    RunAppend(s, target, p + down, squeeze);
    schedule := p + down + squeeze;
    var s3 := Run(s2, target, squeeze);
    RunOne(s, target, schedule, false);
    schedule := schedule + [false];
    var s4 := State(s3.memory, Testing, Assigning);
    assert Run(s, target, schedule) == s4;
    var rest, s5 := FinishAlone(s4, target, true);
    RunAppend(s, target, schedule, rest);
    schedule := schedule + rest;
    RunOne(s, target, schedule, false);
    schedule := schedule + [false];
    assert Run(s, target, schedule) == State(s5.memory.(stored := target), Through, Through);
  }

  /** Both are about to test. */
  lemma {:induction false} Opening3(m: Memory, target: nat)
    requires target < m.stored
    ensures Run(Start(m), target, [false, false, true]) == State(m.(persisted := 0), Testing, Testing)
  {
    var s := Start(m);
    RunOne(s, target, [], false);
    RunOne(s, target, [false], false);
    RunOne(s, target, [false, false], true);
    assert [] + [false] == [false] && [false] + [false] == [false, false];
    assert [false, false] + [true] == [false, false, true];
  }

  /** A verification repairs every overlap if and only if the locked rollback has nothing to do or asks
      for at most one section. */
  lemma {:induction false} RepairExact(m: Memory, target: nat)
    requires Consistent(m) && forall i :: i in m.heads ==> m.heads[i] != ZERO
    ensures AlwaysRepaired(m, target) <==> m.stored <= target || target <= 1
  {
    var s := Start(m);
    if m.stored <= target || target <= 1 {
      forall schedule: seq<bool>, ends: nat -> Hash | HasEnds(ends) && Finished(Run(s, target, schedule))
        ensures Repaired(Run(s, target, schedule).memory, ends)
      {
        var t := Run(s, target, schedule).memory;
        VerifiedKeeps(t.stored, t.heads, ends);
        if m.stored <= target {
          IdleLock(m, target, schedule);
        } else {
          FinalCount(m, target, schedule);
        }
      }
    } else {
      var schedule := LeaveHole(m, target);
      var t := Run(s, target, schedule).memory;
      HeadsShrink(s, target, schedule);
      var ends: nat -> Hash := i => if i in m.heads then m.heads[i] else 1;
      assert HasEnds(ends);
      assert Verified(t.stored, t.heads, ends) == (t.stored, t.heads);
      assert !Repaired(t, ends);
    }
  }
}
