/** Removing a stream does not disturb the order in which the others are visited. */
module StreamRounds {
  import opened Lists
  import opened StreamsMap

  function Without(ids: seq<nat>, id: nat): seq<nat> {
    if ids == [] then [] else (if ids[0] == id then [] else [ids[0]]) + Without(ids[1..], id)
  }

  lemma {:induction false} WithoutNone(a: seq<nat>, id: nat)
    requires id !in a
    ensures Without(a, id) == a
  {
    if a != [] {
      WithoutNone(a[1..], id);
    }
  }

  /** `x` occurs once, between `a` and `b`. */
  lemma {:induction false} WithoutOne(a: seq<nat>, x: nat, b: seq<nat>)
    requires x !in a && x !in b
    ensures Without(a + [x] + b, x) == a + b
  {
    var all := a + [x] + b;
    if a == [] {
      assert all[1..] == b;
      WithoutNone(b, x);
    } else {
      assert all[1..] == a[1..] + [x] + b;
      WithoutOne(a[1..], x, b);
      assert a + b == [a[0]] + (a[1..] + b);
    }
  }

  /** The list without its element `i`. */
  function Cut(ids: seq<nat>, i: nat): seq<nat>
    requires i < |ids|
  {
    ids[..i] + ids[i + 1..]
  }

  /** A round that starts at `k` is the list turned by `k`; past the end it is the whole list. */
  function Turned(ids: seq<nat>, k: nat): seq<nat>
    requires k <= |ids|
  {
    ids[k..] + ids[..k]
  }

  lemma TurnedPastEnd(ids: seq<nat>)
    ensures Turned(ids, |ids|) == Turned(ids, 0)
  {
  }

  lemma RotationAt(ids: seq<nat>, start: nat)
    requires start <= |ids|
    ensures Rotated(ids, start) == Turned(ids, start)
  {
    if ids == [] {
      return;
    }
    RotatedIsRotation(ids, start);
    if start == |ids| {
      RemainderIs(start, |ids|, 1, 0);
      TurnedPastEnd(ids);
    } else {
      RemainderIs(start, |ids|, 0, start);
    }
  }

  /** Stream `i` is removed at or after the place where the round starts. */
  lemma RemovedAfter(ids: seq<nat>, k: nat, i: nat)
    requires k <= i < |ids| && NoDups(ids)
    ensures Without(Turned(ids, k), ids[i]) == ids[k..i] + (ids[i + 1..] + ids[..k])
  {
    assert Turned(ids, k) == ids[k..i] + [ids[i]] + (ids[i + 1..] + ids[..k]);
    WithoutOne(ids[k..i], ids[i], ids[i + 1..] + ids[..k]);
  }

  lemma CutAfter(ids: seq<nat>, k: nat, i: nat)
    requires k <= i < |ids|
    ensures Turned(Cut(ids, i), k) == ids[k..i] + (ids[i + 1..] + ids[..k])
  {
    assert Cut(ids, i)[k..] == ids[k..i] + ids[i + 1..];
    assert Cut(ids, i)[..k] == ids[..k];
  }

  /** Stream `i` is removed before it. */
  lemma RemovedBefore(ids: seq<nat>, k: nat, i: nat)
    requires i < k <= |ids| && NoDups(ids)
    ensures Without(Turned(ids, k), ids[i]) == (ids[k..] + ids[..i]) + ids[i + 1..k]
  {
    assert Turned(ids, k) == (ids[k..] + ids[..i]) + [ids[i]] + ids[i + 1..k];
    WithoutOne(ids[k..] + ids[..i], ids[i], ids[i + 1..k]);
  }

  lemma CutBefore(ids: seq<nat>, k: nat, i: nat)
    requires i < k <= |ids|
    ensures Turned(Cut(ids, i), k - 1) == (ids[k..] + ids[..i]) + ids[i + 1..k]
  {
    assert Cut(ids, i)[k - 1..] == ids[k..];
    assert Cut(ids, i)[..k - 1] == ids[..i] + ids[i + 1..k];
  }

  function IndexWithout(start: nat, i: nat): nat {
    if i < start then start - 1 else start
  }

  /** The list and the index that `RemoveStream` leaves give the same round as before, without
      the removed stream. */
  lemma RemovalKeepsRound(ids: seq<nat>, start: nat, i: nat)
    requires i < |ids| && start <= |ids| && NoDups(ids)
    ensures Rotated(Cut(ids, i), IndexWithout(start, i)) == Without(Rotated(ids, start), ids[i])
  {
    RotationAt(ids, start);
    if i < start {
      RotationAt(Cut(ids, i), start - 1);
      RemovedBefore(ids, start, i);
      CutBefore(ids, start, i);
    } else {
      RotationAt(Cut(ids, i), start);
      RemovedAfter(ids, start, i);
      CutAfter(ids, start, i);
    }
  }

  lemma RemoveIs(s: State, id: nat)
    requires OpenOk(s) && id in s.live
    ensures
      var i := Find(s.open, id);
      var s' := AfterRemove(s, id).0;
      && i < |s.open| && s.open[i] == id
      && s'.open == Cut(s.open, i)
      && s'.index == IndexWithout(s.index, i) && s'.indexSend == IndexWithout(s.indexSend, i)
  {
    assert id in s.open;
  }

  /** Removing a stream leaves the next round, and the next round of sending, as it was for all
      others. */
  lemma RemoveKeepsRounds(s: State, id: nat)
    requires OpenOk(s) && id in s.live && s.index <= |s.open| && s.indexSend <= |s.open|
    ensures
      var s' := AfterRemove(s, id).0;
      && Rotated(s'.open, s'.index) == Without(Rotated(s.open, s.index), id)
      && Rotated(s'.open, s'.indexSend) == Without(Rotated(s.open, s.indexSend), id)
      && s'.index <= |s'.open| && s'.indexSend <= |s'.open|
  {
    var i := Find(s.open, id);
    RemoveIs(s, id);
    RemovalKeepsRound(s.open, s.index, i);
    RemovalKeepsRound(s.open, s.indexSend, i);
  }
}
