/**
 One send on an event feed, on the array it works on.  The active cases are always the prefix of the
 array that has not been served: serving a case swaps it behind the prefix, and a removal shifts the
 rest of the array down over the removed case.

 Which channels accept a value, and what the blocking select returns, is up to the environment.
 */
module Feed {
  import opened CaseList

  /** What a blocking select comes back with: a removal request, or some active case. */
  datatype Pick = Receive(ch: Chan) | Ready(index: nat)

  /** The environment: the outcome of the k-th attempt to send, and of the k-th select. */
  datatype Environment = Environment(accepts: nat -> bool, select: nat -> Pick)

  function Request(pick: Pick): seq<Chan>
  {
    if pick.Receive? then [pick.ch] else []
  }

  /** The channels asked to be removed by the first `n` selects, in order. */
  function Requested(select: nat -> Pick, n: nat): seq<Chan>
  {
    if n == 0 then [] else Requested(select, n - 1) + Request(select(n - 1))
  }

  function Chans(cs: seq<Case>): seq<Chan>
  {
    if cs == [] then [] else Chans(cs[..|cs| - 1]) + [cs[|cs| - 1].chan]
  }

  class Feed {
    var sendCases: array<Case>
    var count: nat
    var inbox: seq<Case>
    var received: multiset<Case>  // how many values each subscription has got

    ghost predicate Valid()
      reads this
    {
      count <= sendCases.Length
    }

    ghost function Cases(): seq<Case>
      requires Valid()
      reads this, sendCases
    {
      sendCases[..count]
    }

    constructor ()
      ensures Valid() && Cases() == [] && inbox == [] && received == multiset{} && fresh(sendCases)
    {
      sendCases := new Case[0];
      count, inbox, received := 0, [], multiset{};
    }

    method Subscribe(c: Case)
      modifies `inbox
      ensures inbox == old(inbox) + [c]
    {
      inbox := inbox + [c];
    }

    /** The index of the first case with a channel, by a linear scan. */
    method FindIndex(ch: Chan) returns (r: int)
      requires Valid()
      ensures r == Find(Cases(), ch)
    {
      for i := 0 to count
        invariant forall k :: 0 <= k < i ==> Cases()[k].chan != ch
      {
        if sendCases[i].chan == ch {
          return i;
        }
      }
      return -1;
    }

    /** Removes a case by shifting the rest of the array down. */
    method Delete(index: nat)
      requires Valid() && index < count
      modifies `count, sendCases
      ensures Valid() && Cases() == DeleteAt(old(Cases()), index)
    {
      var j := index;
      while j + 1 < count
        invariant index <= j < count == old(count) <= sendCases.Length
        invariant forall k :: 0 <= k < index ==> sendCases[k] == old(sendCases[k])
        invariant forall k :: index <= k < j ==> sendCases[k] == old(sendCases[k + 1])
        invariant forall k :: j < k < count ==> sendCases[k] == old(sendCases[k])
      {
        sendCases[j] := sendCases[j + 1];
        j := j + 1;
      }
      count := count - 1;
    }

    /** Moves a case behind the active prefix. */
    method MoveBehind(active: nat, i: nat)
      requires Valid() && i < active <= count
      modifies sendCases
      ensures Cases() == Deactivate(old(Cases()), active, i)
    {
      sendCases[i], sendCases[active - 1] := sendCases[active - 1], sendCases[i];
    }

    /** Appends the inbox to the list of cases. */
    method Absorb()
      requires Valid()
      modifies `sendCases, `count, `inbox
      ensures Valid() && Cases() == old(Cases()) + old(inbox) && inbox == [] && fresh(sendCases)
    {
      var old', total := sendCases, count + |inbox|;
      var grown := new Case[total](i requires 0 <= i < total reads this, old' =>
        if i < count && i < old'.Length then old'[i]
        else if count <= i < count + |inbox| then inbox[i - count] else Case(0, 0));
      sendCases, count, inbox := grown, total, [];
    }

    /** Hands the value to the subscription of case `i` and moves the case behind the active prefix. */
    method Deliver(active: nat, i: nat)
      requires Valid() && i < active <= count
      modifies `received, sendCases
      ensures received == old(received) + multiset{old(Cases())[i]}
      ensures Cases() == Deactivate(old(Cases()), active, i)
    {
      received := received + multiset{sendCases[i]};
      MoveBehind(active, i);
    }

    /** Takes out the case of a removal request; `found` is false if there is none. */
    method Remove(ch: Chan, active: nat) returns (found: bool, index: nat)
      requires Valid() && active <= count
      modifies `count, sendCases
      ensures Valid() && found == (Find(old(Cases()), ch) >= 0)
      ensures !found ==> Cases() == old(Cases())
      ensures found ==> index == Find(old(Cases()), ch) && Cases() == DeleteAt(old(Cases()), index)
    {
      found, index := false, 0;
      var i := FindIndex(ch);
      if i >= 0 {
        found, index := true, i;
        Delete(i);
      }
    }

    /** What holds between the steps of a send: the invariant of the case list, and what the
        subscriptions have got since it started. */
    ghost predicate Sending(present: seq<Case>, active: nat, delivered: seq<Case>, removed: seq<Case>,
                            before: multiset<Case>, nsent: nat)
      reads this, sendCases
    {
      && Valid() && inbox == [] && SendInv(present, Cases(), active, delivered, removed)
      && received == before + multiset(delivered) && nsent == |delivered|
    }

    method SendOne(active: nat, i: nat, nsent: nat, ghost present: seq<Case>, ghost delivered: seq<Case>,
                   ghost removed: seq<Case>,
                   ghost before: multiset<Case>)
      returns (n: nat, ghost delivered': seq<Case>)
      requires Sending(present, active, delivered, removed, before, nsent) && i < active
      modifies `received, sendCases
      ensures Sending(present, active - 1, delivered', removed, before, n)
    {
      DeliverStep(present, Cases(), active, delivered, removed, i);
      n, delivered' := nsent + 1, delivered + [Cases()[i]];
      assert multiset(delivered') == multiset(delivered) + multiset{Cases()[i]};
      Deliver(active, i);
    }

    /** Tries every active case once without blocking. */
    method TryAll(accepts: nat -> bool, attempts: nat, active: nat, nsent: nat,
                  ghost present: seq<Case>, ghost delivered: seq<Case>, ghost removed: seq<Case>,
                  ghost before: multiset<Case>)
      returns (attempts': nat, active': nat, n: nat, ghost delivered': seq<Case>)
      requires Sending(present, active, delivered, removed, before, nsent)
      modifies `received, sendCases
      ensures Sending(present, active', delivered', removed, before, n) && active' <= active
    {
      attempts', active', n, delivered' := attempts, active, nsent, delivered;
      var i := 0;
      while i < active'
        invariant Sending(present, active', delivered', removed, before, n) && active' <= active
        decreases (active' as int) - i
      {
        if accepts(attempts') {
          n, delivered' := SendOne(active', i, n, present, delivered', removed, before);
          active' := active' - 1;
        } else {
          i := i + 1;
        }
        attempts' := attempts' + 1;
      }
    }

    /** Serves a removal request; `found` is false if no case has the channel. */
    method Withdraw(ch: Chan, active: nat, ghost nsent: nat, ghost present: seq<Case>, ghost delivered: seq<Case>,
                    ghost removed: seq<Case>, ghost before: multiset<Case>)
      returns (found: bool, active': nat, ghost removed': seq<Case>)
      requires Sending(present, active, delivered, removed, before, nsent)
      modifies `count, sendCases
      ensures found == (Find(old(Cases()), ch) >= 0)
      ensures Sending(present, active', delivered, removed', before, nsent)
      ensures !found ==> Cases() == old(Cases()) && removed' == removed
      ensures found ==> Chans(removed') == Chans(removed) + [ch] && count < old(count) && active' <= active
    {
      active', removed' := active, removed;
      ghost var cases := Cases();
      var index;
      found, index := Remove(ch, active);
      if found {
        RemoveStep(present, cases, active, delivered, removed, index);
        removed' := removed + [cases[index]];
        assert removed'[..|removed|] == removed;
        active' := if index < active then active - 1 else active;
      }
    }

    /** Acts on what a select came back with; `found` is false if a channel to be removed has no case. */
    method Selected(pick: Pick, active: nat, nsent: nat, ghost present: seq<Case>, ghost delivered: seq<Case>,
                    ghost removed: seq<Case>, ghost before: multiset<Case>)
      returns (found: bool, active': nat, n: nat, ghost delivered': seq<Case>, ghost removed': seq<Case>)
      requires Sending(present, active, delivered, removed, before, nsent) && 0 < active
      modifies `received, `count, sendCases
      ensures found <==> pick.Ready? || Find(old(Cases()), pick.ch) >= 0
      ensures Sending(present, active', delivered', removed', before, n)
      ensures found ==> Chans(removed') == Chans(removed) + Request(pick) && count + active' < old(count) + active
      ensures !found ==> Cases() == old(Cases()) && removed' == removed
    {
      found, active', n, delivered', removed' := true, active, nsent, delivered, removed;
      match pick
      case Receive(ch) =>
        found, active', removed' := Withdraw(ch, active, nsent, present, delivered, removed, before);
      case Ready(index) =>
        n, delivered' := SendOne(active, index % active, nsent, present, delivered, removed, before);
        active' := active - 1;
    }

    /** The send proper, once the inbox is absorbed: try all, then wait for a case or a removal, until
        no active case is left. */
    method SendLoop(env: Environment)
      returns (nsent: nat, panicked: bool, ghost selects: nat, ghost delivered: seq<Case>, ghost removed: seq<Case>,
               ghost left: nat)
      requires Valid() && inbox == [] && NoDup(Cases())
      modifies `received, `count, sendCases
      ensures Sending(old(Cases()), left, delivered, removed, old(received), nsent)
      ensures !panicked ==> left == 0
      ensures Chans(removed) == Requested(env.select, selects)
      ensures panicked ==> env.select(selects).Receive? && Find(Cases(), env.select(selects).ch) == -1
    {
      ghost var present, before := Cases(), received;
      var active, attempts, made := count, 0, 0;
      nsent, panicked, selects, delivered, removed, left := 0, false, 0, [], [], count;
      SendStarts(present);
      while true
        invariant Sending(present, active, delivered, removed, before, nsent) && made == selects && !panicked
        invariant Chans(removed) == Requested(env.select, selects)
        decreases count + active
      {
        attempts, active, nsent, delivered :=
          TryAll(env.accepts, attempts, active, nsent, present, delivered, removed, before);
        left := active;
        if active == 0 {
          return;
        }
        var found;
        found, active, nsent, delivered, removed :=
          Selected(env.select(made), active, nsent, present, delivered, removed, before);
        left := active;
        if !found {
          panicked := true;
          return;
        }
        made, selects := made + 1, selects + 1;
      }
    }

    /** Sends to every case: each case present at the start and not removed on request meanwhile gets
        the value exactly once, and the count returned is the number of deliveries.  Cases are removed
        for exactly the removal requests among the `selects` selects made, in order; a request for a
        channel that is not in the list panics. */
    method Send(env: Environment)
      returns (nsent: nat, panicked: bool, ghost selects: nat, ghost delivered: seq<Case>, ghost removed: seq<Case>)
      requires Valid() && NoDup(Cases() + inbox)
      modifies this, sendCases
      ensures Valid() && inbox == []
      ensures received == old(received) + multiset(delivered) && nsent == |delivered|
      ensures Chans(removed) == Requested(env.select, selects)
      ensures !panicked ==> ServedAll(old(Cases() + inbox), Cases(), delivered, removed)
      ensures !panicked ==> forall c :: c in Cases() ==> received[c] == old(received)[c] + 1
      ensures forall c :: c !in old(Cases() + inbox) ==> received[c] == old(received)[c]
      ensures panicked ==> env.select(selects).Receive? && Find(Cases(), env.select(selects).ch) == -1
    {
      Absorb();
      ghost var present, left := Cases(), 0;
      nsent, panicked, selects, delivered, removed, left := SendLoop(env);
      CountDelivered(old(received), delivered, received);
      if !panicked {
        SendEnds(present, Cases(), delivered, removed);
      }
    }
  }

  lemma {:induction false} CountDelivered(before: multiset<Case>, delivered: seq<Case>, after: multiset<Case>)
    requires NoDup(delivered) && after == before + multiset(delivered)
    ensures forall c :: after[c] == before[c] + if c in delivered then 1 else 0
  {
    forall c
      ensures after[c] == before[c] + if c in delivered then 1 else 0
    {
      CountOnce(delivered, c);
    }
  }
}
