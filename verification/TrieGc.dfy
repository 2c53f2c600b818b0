/**
 The bookkeeping that keeps recent state tries alive on a non-archive node: every block write
 takes a reference on its state root and queues the root under its block number; roots that fall
 more than TRIES_IN_MEMORY blocks behind are popped, oldest first, and their reference dropped.

 The trie database counts a reference only for a root it holds in memory ("dirty"); asking for one
 on a root that was already flushed is ignored.
 */
module TrieGc {
  import opened BlockTree

  const TRIES_IN_MEMORY: nat := 128

  datatype Entry = Entry(root: Hash, number: nat)

  /** One block write as far as the collector is concerned. */
  datatype Write = Write(root: Hash, number: nat, dirty: bool)

  /** The roots of the queued entries, each as often as it is queued. */
  ghost function Roots(queue: multiset<Entry>): multiset<Hash>
    decreases |queue|
  {
    if queue == multiset{} then multiset{}
    else var e :| e in queue; Roots(queue - multiset{e}) + multiset{e.root}
  }

  lemma {:induction false} RootsWithout(queue: multiset<Entry>, e: Entry)
    requires e in queue
    ensures Roots(queue) == Roots(queue - multiset{e}) + multiset{e.root}
    decreases |queue|
  {
    var f :| f in queue && Roots(queue) == Roots(queue - multiset{f}) + multiset{f.root};
    if f != e {
      SwapRemovals(queue, e, f);
      RootsWithout(queue - multiset{f}, e);
      RootsWithout(queue - multiset{e}, f);
    }
  }

  lemma {:induction false} SwapRemovals(queue: multiset<Entry>, e: Entry, f: Entry)
    requires e in queue && f in queue && e != f
    ensures queue - multiset{f} - multiset{e} == queue - multiset{e} - multiset{f}
    ensures e in queue - multiset{f} && f in queue - multiset{e}
    ensures |queue - multiset{e}| < |queue| && |queue - multiset{f}| < |queue|
  {
  }

  lemma {:induction false} MoveOne(queue: multiset<Entry>, released: multiset<Entry>, e: Entry)
    requires e in queue
    ensures (queue - multiset{e}) + (released + multiset{e}) == queue + released
    ensures |queue - multiset{e}| == |queue| - 1
  {
  }

  lemma {:induction false} PutBack(queue: multiset<Entry>, e: Entry)
    requires e in queue
    ensures (queue - multiset{e}) + multiset{e} == queue
  {
  }

  predicate IsOldest(queue: multiset<Entry>, e: Entry)
  {
    e in queue && forall f :: f in queue ==> e.number <= f.number
  }

  lemma {:induction false} OldestExists(queue: multiset<Entry>) returns (e: Entry)
    requires queue != multiset{}
    ensures IsOldest(queue, e)
    decreases |queue|
  {
    e :| e in queue;
    var rest := queue - multiset{e};
    if rest != multiset{} {
      var f := OldestExists(rest);
      if f.number < e.number {
        e := f;
      }
    }
  }

  // ----- the collector as a value

  /** The queue, and the references held on each root. */
  datatype State = State(queue: multiset<Entry>, references: multiset<Hash>)

  const EMPTY := State(multiset{}, multiset{})

  /** Every reference held has an entry in the queue that will drop it. */
  ghost predicate Covered(s: State)
  {
    s.references <= Roots(s.queue)
  }

  /** Each root is referenced exactly as often as it is queued. */
  ghost predicate Balanced(s: State)
  {
    s.references == Roots(s.queue)
  }

  /** What popping `released` and dropping its references makes of `s`; a reference that is not held
      cannot be dropped. */
  ghost predicate Dropped(s: State, released: multiset<Entry>, t: State)
  {
    t.queue + released == s.queue && t.references == s.references - Roots(released)
  }

  ghost function Enqueued(s: State, w: Write): State
  {
    State(s.queue + multiset{Entry(w.root, w.number)},
          if w.dirty then s.references + multiset{w.root} else s.references)
  }

  /** One block write: its root is queued, and referenced if it is in memory, and exactly the roots
      queued at least TRIES_IN_MEMORY blocks below are released. */
  ghost predicate Written(s: State, w: Write, t: State)
  {
    var released := Enqueued(s, w).queue - t.queue;
    && Dropped(Enqueued(s, w), released, t)
    && (w.number <= TRIES_IN_MEMORY ==> released == multiset{})
    && (forall e :: e in released ==> e.number + TRIES_IN_MEMORY <= w.number)
    && (w.number > TRIES_IN_MEMORY ==> forall e :: e in t.queue ==> w.number < e.number + TRIES_IN_MEMORY)
  }

  lemma {:induction false} RootsOfSum(a: multiset<Entry>, b: multiset<Entry>)
    ensures Roots(a + b) == Roots(a) + Roots(b)
    decreases |b|
  {
    if b == multiset{} {
      assert a + b == a;
    } else {
      var e :| e in b;
      var rest := b - multiset{e};
      SumWithout(a, b, e);
      RootsOfSum(a, rest);
      RootsWithout(b, e);
      RootsWithout(a + b, e);
      Reorder(Roots(a), Roots(rest), multiset{e.root});
    }
  }

  lemma {:induction false} SumWithout(a: multiset<Entry>, b: multiset<Entry>, e: Entry)
    requires e in b
    ensures e in a + b && (a + b) - multiset{e} == a + (b - multiset{e}) && |b - multiset{e}| < |b|
  {
  }

  lemma {:induction false} Reorder(a: multiset<Hash>, b: multiset<Hash>, c: multiset<Hash>)
    ensures (a + b) + c == a + (b + c)
  {
  }

  lemma {:induction false} RootsOfOne(e: Entry)
    ensures Roots(multiset{e}) == multiset{e.root}
  {
    RootsWithout(multiset{e}, e);
    assert multiset{e} - multiset{e} == multiset{};
  }

  /** Dropping one more entry. */
  lemma {:induction false} DropOne(s: State, released: multiset<Entry>, t: State, e: Entry)
    requires Dropped(s, released, t) && e in t.queue
    ensures Dropped(s, released + multiset{e}, State(t.queue - multiset{e}, t.references - multiset{e.root}))
  {
    RootsOfSum(released, multiset{e});
    RootsOfOne(e);
    MoveOne(t.queue, released, e);
    MinusSum(s.references, Roots(released), multiset{e.root});
  }

  lemma {:induction false} MinusSum(a: multiset<Hash>, b: multiset<Hash>, c: multiset<Hash>)
    ensures a - (b + c) == a - b - c
  {
  }

  /** References against the roots of what is kept and of what is released. */
  lemma {:induction false} Difference(references: multiset<Hash>, kept: multiset<Hash>, released: multiset<Hash>)
    ensures references <= kept + released ==> references - released <= kept
    ensures references == kept + released ==> references - released == kept
  {
  }

  lemma {:induction false} OneShort(references: multiset<Hash>, kept: multiset<Hash>, released: multiset<Hash>,
                                    root: Hash)
    requires references + multiset{root} == kept + released && root in kept
    ensures references - released != kept
  {
    assert (references + multiset{root})[root] == (kept + released)[root];
    assert (references - released)[root] < kept[root];
  }

  /** One write keeps the references covered, and keeps them balanced exactly if the root was in memory. */
  lemma {:induction false} WrittenKeeps(s: State, w: Write, t: State)
    requires Written(s, w, t)
    ensures Covered(s) ==> Covered(t)
    ensures Balanced(s) ==> (Balanced(t) <==> w.dirty)
  {
    var e := Entry(w.root, w.number);
    var released := Enqueued(s, w).queue - t.queue;
    RootsOfSum(s.queue, multiset{e});
    RootsOfOne(e);
    RootsOfSum(t.queue, released);
    Difference(Enqueued(s, w).references, Roots(t.queue), Roots(released));
    if Balanced(s) && !w.dirty {
      assert e !in released;
      assert e in t.queue + released;
      RootsWithout(t.queue, e);
      OneShort(s.references, Roots(t.queue), Roots(released), w.root);
    }
  }

  lemma {:induction false} AllDropped(s: State, t: State)
    requires Dropped(s, s.queue, t) && t.queue == multiset{}
    ensures Covered(s) ==> t == EMPTY
  {
    Difference(s.references, multiset{}, Roots(s.queue));
    assert multiset{} + Roots(s.queue) == Roots(s.queue);
  }

  // ----- every run

  ghost predicate IsRun(states: seq<State>, writes: seq<Write>)
  {
    && |states| == |writes| + 1 && states[0] == EMPTY
    && forall i {:trigger WrittenAt(states, writes, i)} :: 0 <= i < |writes| ==> WrittenAt(states, writes, i)
  }

  ghost predicate WrittenAt(states: seq<State>, writes: seq<Write>, i: nat)
    requires i < |writes| && i + 1 < |states|
  {
    Written(states[i], writes[i], states[i + 1])
  }

  /** One step of a run, in terms of the balance alone. */
  lemma {:induction false} RunStep(states: seq<State>, writes: seq<Write>, i: nat)
    requires IsRun(states, writes) && i < |writes|
    ensures Covered(states[i]) ==> Covered(states[i + 1])
    ensures Balanced(states[i]) ==> (Balanced(states[i + 1]) <==> writes[i].dirty)
  {
    assert WrittenAt(states, writes, i);
    WrittenKeeps(states[i], writes[i], states[i + 1]);
  }

  lemma {:induction false} RunExtend(states: seq<State>, writes: seq<Write>, w: Write, t: State)
    requires IsRun(states, writes) && Written(states[|writes|], w, t)
    ensures IsRun(states + [t], writes + [w])
  {
    var states', writes' := states + [t], writes + [w];
    forall i | 0 <= i < |writes'|
      ensures WrittenAt(states', writes', i)
    {
      if i < |writes| {
        assert WrittenAt(states, writes, i);
        assert states'[i] == states[i] && states'[i + 1] == states[i + 1] && writes'[i] == writes[i];
      }
    }
  }

  lemma {:induction false} RunCovered(states: seq<State>, writes: seq<Write>, n: nat)
    requires IsRun(states, writes) && n < |states|
    ensures Covered(states[n])
    ensures (forall i :: 0 <= i < n ==> writes[i].dirty) ==> Balanced(states[n])
  {
    if n == 0 {
      assert states[0] == EMPTY;
    } else {
      var i := n - 1;
      RunCovered(states, writes, i);
      RunStep(states, writes, i);
      assert i + 1 == n;
    }
  }

  /** Over every run of block writes the references never exceed the queue; they equal it in every
      state if and only if every root was in memory when it was written; and dropping what is queued
      at the end drops every reference. */
  lemma {:induction false} RunBalancedExactly(states: seq<State>, writes: seq<Write>)
    requires IsRun(states, writes)
    ensures forall n :: 0 <= n < |states| ==> Covered(states[n])
    ensures (forall n :: 0 <= n < |states| ==> Balanced(states[n])) <==>
              (forall i :: 0 <= i < |writes| ==> writes[i].dirty)
    ensures Dropped(states[|writes|], states[|writes|].queue, EMPTY)
  {
    forall n | 0 <= n < |states|
      ensures Covered(states[n])
      ensures (forall i :: 0 <= i < n ==> writes[i].dirty) ==> Balanced(states[n])
    {
      RunCovered(states, writes, n);
    }
    if forall n :: 0 <= n < |states| ==> Balanced(states[n]) {
      forall i | 0 <= i < |writes|
        ensures writes[i].dirty
      {
        assert Balanced(states[i]) && Balanced(states[i + 1]);
        RunStep(states, writes, i);
      }
    }
    Difference(states[|writes|].references, multiset{}, Roots(states[|writes|].queue));
    assert multiset{} + Roots(states[|writes|].queue) == Roots(states[|writes|].queue);
  }

  lemma {:induction false} StaysQueued(s: State, w: Write, t: State, e: Entry)
    requires Written(s, w, t) && e in Enqueued(s, w).queue
    requires w.number <= TRIES_IN_MEMORY || w.number < e.number + TRIES_IN_MEMORY
    ensures e in t.queue
  {
    var released := Enqueued(s, w).queue - t.queue;
    assert e !in released;
    assert (t.queue + released)[e] > 0;
  }

  lemma {:induction false} RecentQueued(states: seq<State>, writes: seq<Write>, i: nat, n: nat)
    requires IsRun(states, writes) && i < n < |states|
    requires forall j :: i <= j < n ==>
               writes[j].number <= TRIES_IN_MEMORY || writes[j].number < writes[i].number + TRIES_IN_MEMORY
    ensures Entry(writes[i].root, writes[i].number) in states[n].queue
    decreases n
  {
    var e, k := Entry(writes[i].root, writes[i].number), n - 1;
    assert WrittenAt(states, writes, k);
    if i < k {
      RecentQueued(states, writes, i, k);
    }
    assert k + 1 == n;
    StaysQueued(states[k], writes[k], states[n], e);
  }

  /** A state stays alive: from write `i` on, as long as no block is written TRIES_IN_MEMORY or more above
      it, its root is queued, and referenced if every root was in memory when it was written. */
  lemma {:induction false} RecentAlive(states: seq<State>, writes: seq<Write>, i: nat, n: nat)
    requires IsRun(states, writes) && i < n < |states|
    requires forall j :: i <= j < n ==>
               writes[j].number <= TRIES_IN_MEMORY || writes[j].number < writes[i].number + TRIES_IN_MEMORY
    ensures Entry(writes[i].root, writes[i].number) in states[n].queue
    ensures (forall j :: 0 <= j < n ==> writes[j].dirty) ==> writes[i].root in states[n].references
  {
    RecentQueued(states, writes, i, n);
    RunCovered(states, writes, n);
    RootsWithout(states[n].queue, Entry(writes[i].root, writes[i].number));
  }

  /** What is queued and what is referenced is determined by the writes. */
  lemma {:induction false} RunDetermined(states: seq<State>, states': seq<State>, writes: seq<Write>, n: nat)
    requires IsRun(states, writes) && IsRun(states', writes) && n < |states|
    ensures states[n] == states'[n]
  {
    if n > 0 {
      var i := n - 1;
      RunDetermined(states, states', writes, i);
      assert WrittenAt(states, writes, i) && WrittenAt(states', writes, i);
      NextDetermined(states, states', writes, i);
    }
  }

  lemma {:induction false} NextDetermined(states: seq<State>, states': seq<State>, writes: seq<Write>, i: nat)
    requires i < |writes| && i + 1 < |states| && i + 1 < |states'|
    requires WrittenAt(states, writes, i) && WrittenAt(states', writes, i) && states[i] == states'[i]
    ensures states[i + 1] == states'[i + 1]
  {
    WrittenDetermined(states[i], writes[i], states[i + 1], states'[i + 1]);
  }

  lemma {:induction false} WrittenDetermined(s: State, w: Write, t: State, t': State)
    requires Written(s, w, t) && Written(s, w, t')
    ensures t == t'
  {
    var q := Enqueued(s, w).queue;
    if w.number > TRIES_IN_MEMORY {
      forall e
        ensures t.queue[e] == t'.queue[e]
      {
        assert (t.queue + (q - t.queue))[e] == q[e] && (t'.queue + (q - t'.queue))[e] == q[e];
        assert e in t.queue ==> e !in q - t'.queue;
        assert e in t'.queue ==> e !in q - t.queue;
      }
      assert t.queue == t'.queue;
    } else {
      assert t.queue == t.queue + multiset{} && t'.queue == t'.queue + multiset{};
    }
  }

  class Collector {
    var queue: multiset<Entry>
    var references: multiset<Hash>

    ghost function Now(): State
      reads this
    {
      State(queue, references)
    }

    constructor ()
      ensures Now() == EMPTY
    {
      queue, references := multiset{}, multiset{};
    }

    /** Removes an entry with the lowest block number; which one is up to the heap. */
    method Pop() returns (e: Entry)
      requires queue != multiset{}
      modifies `queue
      ensures IsOldest(old(queue), e)
      ensures queue == old(queue) - multiset{e}
    {
      ghost var o := OldestExists(queue);
      e :| e in queue && IsOldest(queue, e);
      queue := queue - multiset{e};
    }

    method Push(e: Entry)
      modifies `queue
      ensures queue == old(queue) + multiset{e}
    {
      queue := queue + multiset{e};
    }

    /** The collector's part of writing a block and its state. */
    method WriteState(w: Write)
      modifies this
      ensures Written(old(Now()), w, Now())
    {
      if w.dirty {
        references := references + multiset{w.root};
      }
      Push(Entry(w.root, w.number));
      ghost var before := Now();
      if w.number > TRIES_IN_MEMORY {
        ghost var released := Release(w.number - TRIES_IN_MEMORY);
        assert before.queue - queue == released;
      }
    }

    /** Pops the oldest entry and pushes it back if it lies above `chosen`. */
    method PopUpTo(chosen: nat) returns (popped: Option<Entry>)
      requires queue != multiset{}
      modifies `queue
      ensures popped.None? ==> queue == old(queue) && forall e :: e in queue ==> chosen < e.number
      ensures popped.Some? ==>
                && popped.value in old(queue) && popped.value.number <= chosen
                && queue == old(queue) - multiset{popped.value}
    {
      var e := Pop();
      if e.number > chosen {
        PutBack(old(queue), e);
        Push(e);
        return None;
      }
      popped := Some(e);
    }

    /** Pops and dereferences everything up to height `chosen`, oldest first. */
    method Release(chosen: nat) returns (ghost released: multiset<Entry>)
      modifies this
      ensures Dropped(old(Now()), released, Now())
      ensures forall e :: e in released ==> e.number <= chosen
      ensures forall e :: e in queue ==> chosen < e.number
    {
      released := multiset{};
      assert references - Roots(released) == references;
      while queue != multiset{}
        invariant Dropped(old(Now()), released, Now())
        invariant forall e :: e in released ==> e.number <= chosen
        decreases |queue|
      {
        ghost var before := Now();
        var popped := PopUpTo(chosen);
        if popped.None? {
          return;
        }
        var e := popped.value;
        DropOne(old(Now()), released, before, e);
        MoveOne(before.queue, released, e);
        references := references - multiset{e.root};
        released := released + multiset{e};
      }
    }

    /** Releases everything that is left, on shutdown. */
    method Drain()
      modifies this
      ensures Dropped(old(Now()), old(queue), Now()) && queue == multiset{}
      ensures old(Covered(Now())) ==> Now() == EMPTY
    {
      ghost var released := multiset{};
      assert references - Roots(released) == references;
      while queue != multiset{}
        invariant Dropped(old(Now()), released, Now())
        decreases |queue|
      {
        ghost var before := Now();
        var e := Pop();
        DropOne(old(Now()), released, before, e);
        MoveOne(before.queue, released, e);
        references := references - multiset{e.root};
        released := released + multiset{e};
      }
      assert queue + released == released;
      AllDropped(old(Now()), Now());
    }
  }

  /** The collector after a run of block writes; `states` are those it passed through. */
  method WriteAll(writes: seq<Write>) returns (gc: Collector, ghost states: seq<State>)
    ensures fresh(gc) && IsRun(states, writes) && gc.Now() == states[|writes|]
  {
    gc := new Collector();
    states := [EMPTY];
    for i := 0 to |writes|
      invariant fresh(gc) && IsRun(states, writes[..i]) && gc.Now() == states[i]
    {
      gc.WriteState(writes[i]);
      RunExtend(states, writes[..i], writes[i], gc.Now());
      assert writes[..i] + [writes[i]] == writes[..i + 1];
      states := states + [gc.Now()];
    }
    assert writes[..|writes|] == writes;
  }
}
