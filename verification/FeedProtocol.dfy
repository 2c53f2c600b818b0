/**
 Every interleaving of Subscribe, Unsubscribe and Send on one feed.  A step is one region under the
 inbox mutex, one case served, or one removal handled; the send lock is held while a send is on.
 */
module FeedProtocol {
  import opened CaseList

  /** Leaving: not found in the inbox, now waiting to hand its removal to a send or to get the lock. */
  datatype Status = Live | Leaving | Gone

  datatype Sub = Sub(chan: Chan, status: Status)

  datatype Sending = Off | On(active: nat, present: seq<Case>, delivered: seq<Case>, removed: seq<Case>, nsent: nat)

  datatype State = State(subs: map<nat, Sub>, inbox: seq<Case>, cases: seq<Case>, send: Sending)

  datatype Step =
    | Subscribe(id: nat, chan: Chan)
    | Unsubscribe(id: nat)
    | BeginSend
    | RejectSend
    | Serve(index: nat)
    | RemoveInSend(id: nat)
    | RemoveIdle(id: nat)
    | EndSend

  predicate Has(s: State, id: nat, status: Status)
  {
    id in s.subs && s.subs[id].status == status
  }

  function SetStatus(s: State, id: nat, status: Status): State
    requires id in s.subs
  {
    s.(subs := s.subs[id := s.subs[id].(status := status)])
  }

  predicate Enabled(s: State, step: Step)
  {
    match step
    case Subscribe(id, chan) => id !in s.subs
    case Unsubscribe(id) => Has(s, id, Live)
    case BeginSend => s.send.Off?
    case RejectSend => s.send.Off?
    case Serve(index) => s.send.On? && index < s.send.active <= |s.cases|
    case RemoveInSend(id) => Has(s, id, Leaving) && s.send.On? && s.send.active > 0
    case RemoveIdle(id) => Has(s, id, Leaving) && s.send.Off?
    case EndSend => s.send.On? && s.send.active == 0
  }

  /** The find that precedes a delete succeeds; otherwise the delete would index with -1. */
  predicate Safe(s: State, step: Step)
  {
    (step.RemoveInSend? || step.RemoveIdle?) && step.id in s.subs ==> Find(s.cases, s.subs[step.id].chan) >= 0
  }

  function Apply(s: State, step: Step): State
    requires Enabled(s, step) && Safe(s, step)
  {
    match step
    case Subscribe(id, chan) =>
      s.(subs := s.subs[id := Sub(chan, Live)], inbox := s.inbox + [Case(chan, id)])
    case Unsubscribe(id) =>
      var i := Find(s.inbox, s.subs[id].chan);
      if i >= 0 then SetStatus(s.(inbox := DeleteAt(s.inbox, i)), id, Gone) else SetStatus(s, id, Leaving)
    case BeginSend =>
      var all := s.cases + s.inbox;
      s.(cases := all, inbox := [], send := On(|all|, all, [], [], 0))
    case RejectSend =>
      s.(cases := s.cases + s.inbox, inbox := [])
    case Serve(index) =>
      s.(cases := Deactivate(s.cases, s.send.active, index),
         send := s.send.(active := s.send.active - 1, delivered := s.send.delivered + [s.cases[index]],
                         nsent := s.send.nsent + 1))
    case RemoveInSend(id) =>
      var i := Find(s.cases, s.subs[id].chan);
      SetStatus(s.(cases := DeleteAt(s.cases, i),
                   send := s.send.(active := if i < s.send.active then s.send.active - 1 else s.send.active,
                                   removed := s.send.removed + [s.cases[i]])), id, Gone)
    case RemoveIdle(id) =>
      var i := Find(s.cases, s.subs[id].chan);
      SetStatus(s.(cases := DeleteAt(s.cases, i)), id, Gone)
    case EndSend =>
      s.(send := Off)
  }

  // ----- the invariant

  ghost function Entries(cs: seq<Case>, c: Chan): set<Case>
  {
    set e | e in cs && e.chan == c
  }

  /** Subscriptions of a channel that have not been taken out yet. */
  ghost function Holders(s: State, c: Chan): set<nat>
  {
    set id | id in s.subs && s.subs[id].chan == c && s.subs[id].status != Gone
  }

  ghost function Pending(s: State, c: Chan): set<nat>
  {
    set id | id in s.subs && s.subs[id].chan == c && s.subs[id].status == Leaving
  }

  /** One entry per subscription, neither lost nor duplicated; and every pending removal has an entry
      among the cases, not merely in the inbox. */
  ghost predicate Balanced(s: State, c: Chan)
  {
    && |Entries(s.inbox, c)| + |Entries(s.cases, c)| == |Holders(s, c)|
    && |Pending(s, c)| <= |Entries(s.cases, c)|
  }

  ghost predicate ListsOk(s: State)
  {
    && NoDup(s.inbox) && NoDup(s.cases)
    && (forall e :: e in s.inbox ==> e !in s.cases)
    && (forall e :: e in s.inbox || e in s.cases ==> e.id in s.subs)
  }

  ghost predicate SendOk(s: State)
  {
    s.send.On? ==>
      && SendInv(s.send.present, s.cases, s.send.active, s.send.delivered, s.send.removed)
      && s.send.nsent == |s.send.delivered|
  }

  ghost predicate Inv(s: State)
  {
    && ListsOk(s) && SendOk(s)
    && (forall c {:trigger Balanced(s, c)} :: Balanced(s, c))
  }

  const INIT := State(map[], [], [], Off)

  lemma {:induction false} InitInv()
    ensures Inv(INIT)
  {
    forall c
      ensures Balanced(INIT, c)
    {
      assert Entries([], c) == {} && Holders(INIT, c) == {} && Pending(INIT, c) == {};
    }
  }

  // ----- each pending removal has a matching entry

  lemma {:induction false} PendingHasEntry(s: State, id: nat)
    requires Inv(s) && Has(s, id, Leaving)
    ensures Find(s.cases, s.subs[id].chan) >= 0
  {
    var c := s.subs[id].chan;
    assert Balanced(s, c);
    assert id in Pending(s, c);
    assert |Entries(s.cases, c)| > 0;
    var e :| e in Entries(s.cases, c);
    var k :| 0 <= k < |s.cases| && s.cases[k] == e;
  }

  /** The find before each delete never returns -1. */
  lemma {:induction false} EnabledIsSafe(s: State, step: Step)
    requires Inv(s) && Enabled(s, step)
    ensures Safe(s, step)
  {
    if step.RemoveInSend? || step.RemoveIdle? {
      PendingHasEntry(s, step.id);
    }
  }

  // ----- every step keeps the invariant

  lemma {:induction false} EntriesOfDelete(cs: seq<Case>, i: nat, c: Chan)
    requires i < |cs| && NoDup(cs)
    ensures Entries(DeleteAt(cs, i), c) == Entries(cs, c) - {cs[i]}
    ensures |Entries(DeleteAt(cs, i), c)| == |Entries(cs, c)| - if cs[i].chan == c then 1 else 0
  {
    DeleteKeeps(cs, i);
    assert Entries(DeleteAt(cs, i), c) == Entries(cs, c) - {cs[i]};
    if cs[i].chan == c {
      assert cs[i] in Entries(cs, c);
    }
  }

  lemma {:induction false} EntriesOfAppend(a: seq<Case>, b: seq<Case>, c: Chan)
    requires forall e :: e in a ==> e !in b
    ensures |Entries(a + b, c)| == |Entries(a, c)| + |Entries(b, c)|
  {
    assert Entries(a + b, c) == Entries(a, c) + Entries(b, c);
  }

  lemma {:induction false} AppendNoDup(a: seq<Case>, b: seq<Case>)
    requires NoDup(a) && NoDup(b) && forall e :: e in a ==> e !in b
    ensures NoDup(a + b)
  {
    forall i, j | 0 <= i < j < |a + b|
      ensures (a + b)[i] != (a + b)[j]
    {
      if i < |a| <= j {
        assert a[i] in a && b[j - |a|] in b;
      }
    }
  }

  /** A change of one subscription's status, seen from every channel. */
  lemma {:induction false} StatusChange(s: State, id: nat, status: Status, c: Chan)
    requires id in s.subs && s.subs[id].status != Gone
    ensures var t := SetStatus(s, id, status); var mine := s.subs[id].chan == c;
            && |Holders(t, c)| == |Holders(s, c)| - (if mine && status == Gone then 1 else 0)
            && |Pending(t, c)| == |Pending(s, c)| - (if mine && s.subs[id].status == Leaving then 1 else 0)
                                  + (if mine && status == Leaving then 1 else 0)
  {
    HoldersAfter(s, id, status, c);
    PendingAfter(s, id, status, c);
  }

  lemma {:induction false} HoldersAfter(s: State, id: nat, status: Status, c: Chan)
    requires id in s.subs && s.subs[id].status != Gone
    ensures |Holders(SetStatus(s, id, status), c)|
         == |Holders(s, c)| - if s.subs[id].chan == c && status == Gone then 1 else 0
  {
    var t := SetStatus(s, id, status);
    if s.subs[id].chan == c && status == Gone {
      assert Holders(t, c) == Holders(s, c) - {id};
      assert id in Holders(s, c);
    } else {
      assert Holders(t, c) == Holders(s, c);
    }
  }

  lemma {:induction false} PendingAfter(s: State, id: nat, status: Status, c: Chan)
    requires id in s.subs
    ensures |Pending(SetStatus(s, id, status), c)| == |Pending(s, c)|
              - (if s.subs[id].chan == c && s.subs[id].status == Leaving then 1 else 0)
              + (if s.subs[id].chan == c && status == Leaving then 1 else 0)
  {
    var p, q := Pending(s, c), Pending(SetStatus(s, id, status), c);
    if s.subs[id].chan != c || (status == Leaving <==> s.subs[id].status == Leaving) {
      assert q == p;
    } else if status == Leaving {
      assert id !in p && q == p + {id};
    } else {
      assert id in p && q == p - {id};
    }
  }

  lemma {:induction false} SubscribeKeepsInv(s: State, id: nat, chan: Chan)
    requires Inv(s) && id !in s.subs
    ensures Inv(Apply(s, Subscribe(id, chan)))
  {
    var t := Apply(s, Subscribe(id, chan));
    var e := Case(chan, id);
    assert forall f :: f in s.inbox || f in s.cases ==> f != e;
    AppendNoDup(s.inbox, [e]);
    forall c
      ensures Balanced(t, c)
    {
      assert Balanced(s, c);
      EntriesOfAppend(s.inbox, [e], c);
      NewHolder(s, id, chan, c);
      assert Entries([e], c) == if c == chan then {e} else {};
    }
  }

  lemma {:induction false} NewHolder(s: State, id: nat, chan: Chan, c: Chan)
    requires id !in s.subs
    ensures var t := s.(subs := s.subs[id := Sub(chan, Live)], inbox := s.inbox + [Case(chan, id)]);
            |Holders(t, c)| == |Holders(s, c)| + (if c == chan then 1 else 0) && Pending(t, c) == Pending(s, c)
  {
    var t := s.(subs := s.subs[id := Sub(chan, Live)], inbox := s.inbox + [Case(chan, id)]);
    assert id !in Holders(s, c);
    assert Holders(t, c) == if c == chan then Holders(s, c) + {id} else Holders(s, c);
    assert Pending(t, c) == Pending(s, c);
  }

  lemma {:induction false} UnsubscribeKeepsInv(s: State, id: nat)
    requires Inv(s) && Has(s, id, Live)
    ensures Inv(Apply(s, Unsubscribe(id)))
  {
    var t := Apply(s, Unsubscribe(id));
    var ch := s.subs[id].chan;
    var i := Find(s.inbox, ch);
    if i >= 0 {
      DeleteKeeps(s.inbox, i);
    }
    forall c
      ensures Balanced(t, c)
    {
      assert Balanced(s, c);
      if i >= 0 {
        EntriesOfDelete(s.inbox, i, c);
        StatusChange(s.(inbox := DeleteAt(s.inbox, i)), id, Gone, c);
        assert Holders(s.(inbox := DeleteAt(s.inbox, i)), c) == Holders(s, c);
        assert Pending(s.(inbox := DeleteAt(s.inbox, i)), c) == Pending(s, c);
      } else {
        StatusChange(s, id, Leaving, c);
        if c == ch {
          assert Entries(s.inbox, c) == {};
          SubsetSize(Pending(t, c), Holders(t, c));
        }
      }
    }
  }

  lemma {:induction false} SubsetSize(a: set<nat>, b: set<nat>)
    requires a <= b
    ensures |a| <= |b|
  {
    assert b == a + (b - a);
  }

  lemma {:induction false} AbsorbKeepsInv(s: State, send: Sending)
    requires Inv(s) && s.send.Off?
    requires send == Off || send == On(|s.cases + s.inbox|, s.cases + s.inbox, [], [], 0)
    ensures Inv(s.(cases := s.cases + s.inbox, inbox := [], send := send))
  {
    var t := s.(cases := s.cases + s.inbox, inbox := [], send := send);
    AppendNoDup(s.cases, s.inbox);
    SendStarts(t.cases);
    forall c
      ensures Balanced(t, c)
    {
      assert Balanced(s, c);
      EntriesOfAppend(s.cases, s.inbox, c);
      assert Entries([], c) == {};
      assert Holders(t, c) == Holders(s, c) && Pending(t, c) == Pending(s, c);
    }
  }

  lemma {:induction false} ServeKeepsInv(s: State, index: nat)
    requires Inv(s) && Enabled(s, Serve(index))
    ensures Inv(Apply(s, Serve(index)))
  {
    var t := Apply(s, Serve(index));
    DeactivateKeeps(s.cases, s.send.active, index);
    DeliverStep(s.send.present, s.cases, s.send.active, s.send.delivered, s.send.removed, index);
    forall c
      ensures Balanced(t, c)
    {
      assert Balanced(s, c);
      assert Entries(t.cases, c) == Entries(s.cases, c);
      assert Holders(t, c) == Holders(s, c) && Pending(t, c) == Pending(s, c);
    }
  }

  /** Taking a leaving subscription out of the cases, with or without a send in progress. */
  lemma {:induction false} RemoveKeepsInv(s: State, id: nat, step: Step)
    requires Inv(s) && (step == RemoveInSend(id) || step == RemoveIdle(id)) && Enabled(s, step) && Safe(s, step)
    ensures Inv(Apply(s, step))
  {
    var t := Apply(s, step);
    var i := Find(s.cases, s.subs[id].chan);
    DeleteKeeps(s.cases, i);
    if s.send.On? {
      RemoveStep(s.send.present, s.cases, s.send.active, s.send.delivered, s.send.removed, i);
    }
    var u := t.(subs := s.subs);
    forall c
      ensures Balanced(t, c)
    {
      assert Balanced(s, c);
      EntriesOfDelete(s.cases, i, c);
      StatusChange(u, id, Gone, c);
      assert Holders(u, c) == Holders(s, c) && Pending(u, c) == Pending(s, c);
    }
  }

  lemma {:induction false} StepKeepsInv(s: State, step: Step)
    requires Inv(s) && Enabled(s, step)
    ensures Safe(s, step) && Inv(Apply(s, step))
  {
    EnabledIsSafe(s, step);
    match step
    case Subscribe(id, chan) => SubscribeKeepsInv(s, id, chan);
    case Unsubscribe(id) => UnsubscribeKeepsInv(s, id);
    case BeginSend => AbsorbKeepsInv(s, On(|s.cases + s.inbox|, s.cases + s.inbox, [], [], 0));
    case RejectSend => AbsorbKeepsInv(s, Off);
    case Serve(index) => ServeKeepsInv(s, index);
    case RemoveInSend(id) => RemoveKeepsInv(s, id, step);
    case RemoveIdle(id) => RemoveKeepsInv(s, id, step);
    case EndSend =>
      forall c
        ensures Balanced(s.(send := Off), c)
      {
        assert Balanced(s, c);
        assert Holders(s.(send := Off), c) == Holders(s, c) && Pending(s.(send := Off), c) == Pending(s, c);
      }
  }

  /** A run is a sequence of states, each made from the one before by an enabled and safe step. */
  ghost predicate IsRun(states: seq<State>, steps: seq<Step>)
  {
    && |states| == |steps| + 1
    && states[0] == INIT
    && forall i :: 0 <= i < |steps| ==>
         Enabled(states[i], steps[i]) && (Safe(states[i], steps[i]) ==> states[i + 1] == Apply(states[i], steps[i]))
  }

  /** Over every interleaving the invariant holds in every state, so no delete ever indexes with -1. */
  lemma {:induction false} RunIsSafe(states: seq<State>, steps: seq<Step>, n: nat)
    requires IsRun(states, steps) && n < |states|
    ensures Inv(states[n])
    ensures n < |steps| ==> Safe(states[n], steps[n])
  {
    if n == 0 {
      InitInv();
    } else {
      RunIsSafe(states, steps, n - 1);
      StepKeepsInv(states[n - 1], steps[n - 1]);
    }
    if n < |steps| {
      EnabledIsSafe(states[n], steps[n]);
    }
  }

  // ----- what one send does

  /** When a send begins, even one that is rejected, the inbox is emptied into the cases: there is one
      case for every subscription of a channel that has not been taken out by then. */
  lemma {:induction false} SendBegins(states: seq<State>, steps: seq<Step>, n: nat, c: Chan)
    requires IsRun(states, steps) && n < |steps| && (steps[n] == BeginSend || steps[n] == RejectSend)
    ensures var s := states[n + 1];
            && s.inbox == [] && |Entries(s.cases, c)| == |Holders(states[n], c)|
            && (steps[n] == BeginSend <==> s.send.On?)
            && (s.send.On? ==> s.send.present == s.cases && s.send.active == |s.cases| && s.send.nsent == 0)
  {
    RunIsSafe(states, steps, n);
    RunIsSafe(states, steps, n + 1);
    var s, t := states[n], states[n + 1];
    assert t == Apply(s, steps[n]);
    assert Balanced(t, c);
    assert Entries(t.inbox, c) == {} && Holders(t, c) == Holders(s, c);
  }

  /** The cases of a channel that a send still has to serve. */
  ghost function Waiting(s: State, c: Chan): set<Case>
    requires s.send.On? && s.send.active <= |s.cases|
  {
    Entries(s.cases[..s.send.active], c)
  }

  /** The step hands the value to channel `c`. */
  predicate Delivers(s: State, step: Step, c: Chan)
  {
    step.Serve? && step.index < |s.cases| && s.cases[step.index].chan == c
  }

  /** The step takes out a subscription of channel `c` that has not got the value yet. */
  predicate Withdraws(s: State, step: Step, c: Chan)
  {
    && step.RemoveInSend? && step.id in s.subs && s.subs[step.id].chan == c
    && s.send.On? && Find(s.cases, c) < s.send.active
  }

  /** How often channel `c` gets the value from step `m` on up to step `n`. */
  ghost function Received(states: seq<State>, steps: seq<Step>, c: Chan, m: nat, n: nat): nat
    requires n <= |steps| < |states|
  {
    if n <= m then 0
    else Received(states, steps, c, m, n - 1) + if Delivers(states[n - 1], steps[n - 1], c) then 1 else 0
  }

  /** How many subscriptions of channel `c` are taken out unserved from step `m` on up to step `n`. */
  ghost function Withdrawn(states: seq<State>, steps: seq<Step>, c: Chan, m: nat, n: nat): nat
    requires n <= |steps| < |states|
  {
    if n <= m then 0
    else Withdrawn(states, steps, c, m, n - 1) + if Withdraws(states[n - 1], steps[n - 1], c) then 1 else 0
  }

  ghost function Serves(steps: seq<Step>, m: nat, n: nat): nat
    requires n <= |steps|
  {
    if n <= m then 0 else Serves(steps, m, n - 1) + if steps[n - 1].Serve? then 1 else 0
  }

  /** No send ends between step `m` and step `n`. */
  predicate Unended(steps: seq<Step>, m: nat, n: nat)
    requires n <= |steps|
  {
    forall k :: m < k < n ==> steps[k] != EndSend
  }

  lemma {:induction false} WaitingAfterServe(s: State, index: nat, c: Chan)
    requires Inv(s) && Enabled(s, Serve(index))
    ensures var t := Apply(s, Serve(index));
            && t.send.active <= |t.cases|
            && |Waiting(s, c)| == |Waiting(t, c)| + if Delivers(s, Serve(index), c) then 1 else 0
  {
    WaitingWithout(s.cases, s.send.active, index, Apply(s, Serve(index)).cases, c);
  }

  lemma {:induction false} WaitingAfterRemove(s: State, id: nat, c: Chan)
    requires Inv(s) && Enabled(s, RemoveInSend(id)) && Safe(s, RemoveInSend(id))
    ensures var t := Apply(s, RemoveInSend(id));
            && t.send.active <= |t.cases|
            && |Waiting(s, c)| == |Waiting(t, c)| + if Withdraws(s, RemoveInSend(id), c) then 1 else 0
  {
    var i := Find(s.cases, s.subs[id].chan);
    var after := DeleteAt(s.cases, i);
    if i < s.send.active {
      WaitingWithout(s.cases, s.send.active, i, after, c);
    } else {
      assert after[..s.send.active] == s.cases[..s.send.active];
    }
  }

  lemma {:induction false} WaitingAfter(s: State, step: Step, c: Chan)
    requires Inv(s) && s.send.On? && Enabled(s, step) && Safe(s, step) && step != EndSend
    ensures var t := Apply(s, step);
            && t.send.On? && t.send.active <= |t.cases|
            && t.send.nsent == s.send.nsent + (if step.Serve? then 1 else 0)
            && |Waiting(s, c)| == |Waiting(t, c)| + (if Delivers(s, step, c) then 1 else 0)
                                  + (if Withdraws(s, step, c) then 1 else 0)
  {
    if step.Serve? {
      WaitingAfterServe(s, step.index, c);
    } else if step.RemoveInSend? {
      WaitingAfterRemove(s, step.id, c);
    }
  }

  /** Serving or deleting a case of the active prefix takes that case alone out of it. */
  lemma {:induction false} WaitingWithout(cs: seq<Case>, active: nat, i: nat, after: seq<Case>, c: Chan)
    requires i < active <= |cs| && NoDup(cs) && (after == Deactivate(cs, active, i) || after == DeleteAt(cs, i))
    ensures active - 1 <= |after|
    ensures |Entries(cs[..active], c)| == |Entries(after[..active - 1], c)| + (if cs[i].chan == c then 1 else 0)
  {
    var front, rest := cs[..active], after[..active - 1];
    assert NoDup(front) && front[i] == cs[i];
    DeleteKeeps(front, i);
    forall e
      ensures e in rest <==> e in DeleteAt(front, i)
    {
      if e in front && e != front[i] {
        var k :| 0 <= k < active && front[k] == e;
        assert if after == DeleteAt(cs, i) then rest[if k < i then k else k - 1] == e
               else rest[if k == active - 1 then i else k] == e;
      }
    }
    assert Entries(rest, c) == Entries(DeleteAt(front, i), c);
    EntriesOfDelete(front, i, c);
  }

  /** As long as a send is on, every subscription held when it began has got the value, was taken out
      before, or has a case waiting. */
  lemma {:induction false} SendCounts(states: seq<State>, steps: seq<Step>, c: Chan, m: nat, n: nat)
    requires IsRun(states, steps) && m < n <= |steps| && steps[m] == BeginSend && Unended(steps, m, n)
    ensures var s := states[n];
            && s.send.On? && s.send.active <= |s.cases| && s.send.nsent == Serves(steps, m, n)
            && Received(states, steps, c, m, n) + Withdrawn(states, steps, c, m, n) + |Waiting(s, c)|
               == |Holders(states[m], c)|
    decreases n
  {
    if n == m + 1 {
      SendBegins(states, steps, m, c);
      assert states[n].cases[..|states[n].cases|] == states[n].cases;
    } else {
      SendCounts(states, steps, c, m, n - 1);
      RunIsSafe(states, steps, n - 1);
      WaitingAfter(states[n - 1], steps[n - 1], c);
    }
  }

  /** A send that is on began, and has not ended since. */
  lemma {:induction false} SendBegan(states: seq<State>, steps: seq<Step>, n: nat) returns (m: nat)
    requires IsRun(states, steps) && n < |states| && states[n].send.On?
    ensures m < n && steps[m] == BeginSend && Unended(steps, m, n)
  {
    RunIsSafe(states, steps, n - 1);
    if steps[n - 1] == BeginSend {
      m := n - 1;
    } else {
      m := SendBegan(states, steps, n - 1);
    }
  }

  /** A send hands the value to each channel once for every subscription held when it began and not
      taken out before its turn; the count returned is the number of deliveries, and no case gets the
      value twice. */
  lemma {:induction false} SendDelivers(states: seq<State>, steps: seq<Step>, c: Chan, n: nat) returns (m: nat)
    requires IsRun(states, steps) && n < |steps| && steps[n] == EndSend
    ensures m < n && steps[m] == BeginSend && Unended(steps, m, n)
    ensures Received(states, steps, c, m, n) == |Holders(states[m], c)| - Withdrawn(states, steps, c, m, n)
    ensures states[n].send.nsent == Serves(steps, m, n)
    ensures var s := states[n];
            ServedAll(s.send.present, s.cases, s.send.delivered, s.send.removed) && s.send.nsent == |s.send.delivered|
  {
    m := SendBegan(states, steps, n);
    SendCounts(states, steps, c, m, n);
    RunIsSafe(states, steps, n);
    var s := states[n];
    assert Waiting(s, c) == {};
    SendEnds(s.send.present, s.cases, s.send.delivered, s.send.removed);
  }

  /** In every state the feed holds exactly one entry for each subscription of a channel that has not
      been taken out yet. */
  lemma {:induction false} NoSubscriptionLost(states: seq<State>, steps: seq<Step>, n: nat, c: Chan)
    requires IsRun(states, steps) && n < |states|
    ensures var s := states[n];
            && |Entries(s.inbox, c)| + |Entries(s.cases, c)| == |Holders(s, c)|
            && NoDup(s.inbox + s.cases)
  {
    RunIsSafe(states, steps, n);
    assert Balanced(states[n], c);
    AppendNoDup(states[n].inbox, states[n].cases);
  }
}
