/**
 Select-case lists of an event feed.  The case that receives removal requests sits at index zero of
 the original list and is left out here, so index k stands for index k + 1.

 A case is identified by the subscription that created it, but the feed itself only ever compares
 channels; one channel may be subscribed several times.
 */
module CaseList {

  type Chan = nat

  datatype Case = Case(chan: Chan, id: nat)

  ghost predicate NoDup(cs: seq<Case>)
  {
    forall i, j :: 0 <= i < j < |cs| ==> cs[i] != cs[j]
  }

  /** The index of the first case with the given channel, or -1. */
  function Find(cs: seq<Case>, ch: Chan): (r: int)
    ensures -1 <= r < |cs|
    ensures r >= 0 ==> cs[r].chan == ch && forall i :: 0 <= i < r ==> cs[i].chan != ch
    ensures r == -1 <==> forall i :: 0 <= i < |cs| ==> cs[i].chan != ch
  {
    if cs == [] then -1
    else if cs[0].chan == ch then 0
    else
      var r := Find(cs[1..], ch);
      assert forall i :: 0 < i < |cs| ==> cs[i] == cs[1..][i - 1];
      if r == -1 then -1 else r + 1
  }

  function DeleteAt(cs: seq<Case>, i: nat): seq<Case>
    requires i < |cs|
  {
    cs[..i] + cs[i + 1..]
  }

  /** Swaps case `i` with the last of the first `active` cases. */
  function Deactivate(cs: seq<Case>, active: nat, i: nat): seq<Case>
    requires i < active <= |cs|
  {
    cs[i := cs[active - 1]][active - 1 := cs[i]]
  }

  lemma {:induction false} DeleteKeeps(cs: seq<Case>, i: nat)
    requires i < |cs| && NoDup(cs)
    ensures NoDup(DeleteAt(cs, i))
    ensures forall e :: e in DeleteAt(cs, i) <==> e in cs && e != cs[i]
  {
    var r := DeleteAt(cs, i);
    assert forall k :: 0 <= k < |r| ==> r[k] == cs[if k < i then k else k + 1];
    forall e
      ensures e in r <==> e in cs && e != cs[i]
    {
      if e in cs && e != cs[i] {
        var k :| 0 <= k < |cs| && cs[k] == e;
        assert r[if k < i then k else k - 1] == e;
      }
    }
  }

  lemma {:induction false} DeactivateKeeps(cs: seq<Case>, active: nat, i: nat)
    requires i < active <= |cs| && NoDup(cs)
    ensures NoDup(Deactivate(cs, active, i))
    ensures forall e :: e in Deactivate(cs, active, i) <==> e in cs
  {
    var r := Deactivate(cs, active, i);
    forall e
      ensures e in r <==> e in cs
    {
      if e in cs {
        var k :| 0 <= k < |cs| && cs[k] == e;
        assert r[if k == i then active - 1 else if k == active - 1 then i else k] == e;
      }
    }
  }

  // ----- the invariant of one send

  /** `present` are the cases at the start of a send, of which the first `active` in `cases` are still
      to be served.  Exactly the others have been delivered to, each once; and what is no longer
      in `cases` was removed on request. */
  ghost predicate SendInv(present: seq<Case>, cases: seq<Case>, active: nat, delivered: seq<Case>, removed: seq<Case>)
  {
    && active <= |cases|
    && NoDup(cases) && NoDup(delivered) && NoDup(removed)
    && (forall e :: e in present <==> e in cases || e in removed)
    && (forall e :: e in removed ==> e !in cases)
    && (forall e :: e in delivered ==> e in present)
    && (forall k :: 0 <= k < |cases| ==> (cases[k] in delivered <==> active <= k))
  }

  lemma {:induction false} SendStarts(cases: seq<Case>)
    requires NoDup(cases)
    ensures SendInv(cases, cases, |cases|, [], [])
  {
  }

  lemma {:induction false} DeliverStep(present: seq<Case>, cases: seq<Case>, active: nat, delivered: seq<Case>,
                                       removed: seq<Case>, i: nat)
    requires SendInv(present, cases, active, delivered, removed) && i < active
    ensures SendInv(present, Deactivate(cases, active, i), active - 1, delivered + [cases[i]], removed)
  {
    DeactivateKeeps(cases, active, i);
    var r, d := Deactivate(cases, active, i), delivered + [cases[i]];
    forall k | 0 <= k < |r|
      ensures r[k] in d <==> active - 1 <= k
    {
      var j := if k == i then active - 1 else if k == active - 1 then i else k;
      assert r[k] == cases[j];
      assert r[k] in d <==> cases[j] in delivered || cases[j] == cases[i];
    }
  }

  /** Removing a case keeps the invariant; the active prefix shrinks if the case was still in it. */
  lemma {:induction false} RemoveStep(present: seq<Case>, cases: seq<Case>, active: nat, delivered: seq<Case>,
                                      removed: seq<Case>, i: nat)
    requires SendInv(present, cases, active, delivered, removed) && i < |cases|
    ensures SendInv(present, DeleteAt(cases, i), if i < active then active - 1 else active, delivered,
                    removed + [cases[i]])
  {
    DeleteKeeps(cases, i);
    assert cases[i] in cases;
    var r := DeleteAt(cases, i);
    forall k | 0 <= k < |r|
      ensures r[k] in delivered <==> (if i < active then active - 1 else active) <= k
    {
      assert r[k] == cases[if k < i then k else k + 1];
    }
  }

  lemma {:induction false} CountOnce(cs: seq<Case>, c: Case)
    requires NoDup(cs)
    ensures multiset(cs)[c] == if c in cs then 1 else 0
    decreases |cs|
  {
    if cs != [] {
      var front, last := cs[..|cs| - 1], cs[|cs| - 1];
      assert cs == front + [last];
      CountOnce(front, c);
    }
  }

  /** When no active case is left, every case that is still there got the value exactly once. */
  ghost predicate ServedAll(present: seq<Case>, cases: seq<Case>, delivered: seq<Case>, removed: seq<Case>)
  {
    && NoDup(cases) && NoDup(delivered) && NoDup(removed)
    && (forall e :: e in cases <==> e in present && e !in removed)
    && (forall e :: e in present && e !in removed ==> e in delivered)
    && (forall e :: e in delivered || e in removed ==> e in present)
  }

  lemma {:induction false} SendEnds(present: seq<Case>, cases: seq<Case>, delivered: seq<Case>, removed: seq<Case>)
    requires SendInv(present, cases, 0, delivered, removed)
    ensures ServedAll(present, cases, delivered, removed)
  {
    forall e | e in present && e !in removed
      ensures e in delivered
    {
      var k :| 0 <= k < |cases| && cases[k] == e;
    }
  }
}
