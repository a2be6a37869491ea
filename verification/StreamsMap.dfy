/** The streams of a connection: which ids are open, how the peer's ids are opened in order,
    and the round-robin order in which streams are visited. */
module StreamsMap {
  import opened Lists
  import opened Options

  const MAX_NEW_STREAM_ID_DELTA: nat := 4 * 100

  /** Streams opened by the client have odd ids and those of the server even ones.
      `incoming` and `outgoing` count the odd and the even streams. */
  datatype State = State(
    server: bool,
    live: set<nat>,
    open: seq<nat>,
    index: nat,
    indexSend: nat,
    next: nat,
    highest: nat,
    outgoing: int,
    incoming: int)

  datatype Limits = Limits(maxIncoming: nat, maxOutgoing: nat)

  /** `Closed` stands for the nil stream that is returned for an id that was closed. */
  datatype Got = Got(id: nat) | Closed | InvalidStreamID | TooManyOpenStreams | NoSuchStream

  function Initial(server: bool): State {
    State(server, {}, [], 0, 0, if server then 2 else 1, 0, 0, 0)
  }

  predicate IsOwn(s: State, id: nat) {
    s.server <==> id % 2 == 0
  }

  // ---------------------------------------------------------------------------
  // Opening and removing
  // ---------------------------------------------------------------------------

  function Counted(s: State, id: nat, d: int): State {
    if id % 2 == 0 then s.(outgoing := s.outgoing + d) else s.(incoming := s.incoming + d)
  }

  function Put(s: State, id: nat): State {
    if id in s.live then s else s.(live := s.live + {id}, open := s.open + [id])
  }

  function AfterOpen(s: State, l: Limits): (State, Got) {
    if s.outgoing >= l.maxOutgoing then (s, TooManyOpenStreams)
    else
      var s1 := if s.server then s.(outgoing := s.outgoing + 1) else s.(incoming := s.incoming + 1);
      (Put(s1.(next := s.next + 2), s.next), Got(s.next))
  }

  function AfterOpenRemote(s: State, l: Limits, id: nat): (State, Got) {
    if s.incoming >= l.maxIncoming then (s, TooManyOpenStreams)
    else if id + MAX_NEW_STREAM_ID_DELTA < s.highest then (s, InvalidStreamID)
    else
      var s1 := if s.server then s.(incoming := s.incoming + 1) else s.(outgoing := s.outgoing + 1);
      (Put(s1.(highest := if id > s.highest then id else s.highest), id), Got(id))
  }

  /** The first id that the peer has not opened yet. */
  function NextRemote(s: State): nat {
    if s.server && s.highest == 0 then 1 else s.highest + 2
  }

  /** Opens `sid`, `sid` + 2 and so on up to `id`, until one fails. */
  function AfterOpenUpTo(s: State, l: Limits, sid: nat, id: nat): (State, Got)
    decreases id - sid
  {
    if sid > id then (s, if id in s.live then Got(id) else Closed)
    else
      var (s1, got) := AfterOpenRemote(s, l, sid);
      if !got.Got? then (s1, got) else AfterOpenUpTo(s1, l, sid + 2, id)
  }

  function AfterGetOrOpen(s: State, l: Limits, id: nat): (State, Got) {
    if id in s.live then (s, Got(id))
    else if IsOwn(s, id) then (s, if id <= s.next then Closed else InvalidStreamID)
    else if id <= s.highest then (s, Closed)
    else AfterOpenUpTo(s, l, NextRemote(s), id)
  }

  /** The place of `id` in `ids`, or their number. */
  function Find(ids: seq<nat>, id: nat): (i: nat)
    ensures i <= |ids| && id !in ids[..i]
    ensures i < |ids| ==> ids[i] == id
    ensures i == |ids| ==> id !in ids
  {
    if ids == [] || ids[0] == id then 0 else 1 + Find(ids[1..], id)
  }

  function AfterRemove(s: State, id: nat): (State, Got) {
    if id !in s.live then (s, NoSuchStream)
    else
      var s1 := Counted(s, id, -1);
      var i := Find(s.open, id);
      if i == |s.open| then (s1.(live := s.live - {id}), Got(id))
      else
        (s1.(live := s.live - {id},
             open := s.open[..i] + s.open[i + 1..],
             index := if i < s.index then s.index - 1 else s.index,
             indexSend := if i < s.indexSend then s.indexSend - 1 else s.indexSend),
         Got(id))
  }

  // ---------------------------------------------------------------------------
  // Visiting
  // ---------------------------------------------------------------------------

  predicate IsSpecial(id: nat) {
    id == 1 || id == 3
  }

  function Special(live: set<nat>): seq<nat> {
    (if 1 in live then [1] else []) + (if 3 in live then [3] else [])
  }

  function Others(ids: seq<nat>): seq<nat> {
    if ids == [] then [] else (if IsSpecial(ids[0]) then [] else [ids[0]]) + Others(ids[1..])
  }

  /** The list, read from position `start` on and around its end. */
  function Rotated(ids: seq<nat>, start: nat): (r: seq<nat>)
    ensures |r| == |ids|
  {
    seq(|ids|, i requires 0 <= i < |ids| => ids[(i + start) % |ids|])
  }

  /** The order of a round: streams 1 and 3 first. */
  function Order(s: State): seq<nat> {
    Special(s.live) + Others(Rotated(s.open, s.index))
  }

  lemma {:induction false} OthersOnce(ids: seq<nat>)
    requires NoDups(ids)
    ensures NoDups(Others(ids))
    ensures forall id :: id in Others(ids) <==> id in ids && !IsSpecial(id)
  {
    if ids != [] {
      OthersOnce(ids[1..]);
    }
  }

  lemma RotatedIndex(i: nat, start: nat, n: nat)
    requires i < n
    ensures
      var k := start % n;
      (i + start) % n == if i + k < n then i + k else i + k - n
  {
    var k, q := start % n, start / n;
    assert start == q * n + k;
    if i + k < n {
      assert i + start == q * n + (i + k);
      RemainderIs(i + start, n, q, i + k);
    } else {
      assert i + start == (q + 1) * n + (i + k - n);
      RemainderIs(i + start, n, q + 1, i + k - n);
    }
  }

  lemma AtLeastOneTimes(d: int, n: nat)
    requires d >= 1
    ensures d * n >= n
  {
  }

  lemma Difference(q: int, q': int, n: int)
    ensures q * n - q' * n == (q - q') * n
  {
  }

  lemma RemainderIs(x: nat, n: nat, q: nat, r: nat)
    requires r < n && x == q * n + r
    ensures x % n == r
  {
    var q', r' := x / n, x % n;
    assert x == q' * n + r';
    Difference(q, q', n);
    if q > q' {
      AtLeastOneTimes(q - q', n);
    } else if q < q' {
      AtLeastOneTimes(q' - q, n);
      Difference(q', q, n);
    }
  }

  lemma RotatedIsRotation(ids: seq<nat>, start: nat)
    requires ids != []
    ensures
      var k := start % |ids|;
      Rotated(ids, start) == ids[k..] + ids[..k]
  {
    var k := start % |ids|;
    forall i | 0 <= i < |ids|
      ensures Rotated(ids, start)[i] == (ids[k..] + ids[..k])[i]
    {
      RotatedIndex(i, start, |ids|);
    }
  }

  /** The index after a round that visited `k` streams other than 1 and 3. */
  function Moved(start: nat, k: nat, n: nat): nat
    requires k > 0 ==> n > 0
  {
    if k == 0 then start else (start + k) % n
  }

  lemma MovedOneMore(start: nat, k: nat, n: nat)
    requires n > 0
    ensures Moved(start, k + 1, n) == (Moved(start, k, n) + 1) % n
  {
    if k > 0 {
      RemainderOfSum(start + k, 1, n);
    }
  }

  lemma RemainderOfSum(a: nat, b: nat, n: nat)
    requires n > 0
    ensures (a % n + b) % n == (a + b) % n
  {
    var q, q', r := a / n, (a % n + b) / n, (a % n + b) % n;
    assert a == q * n + a % n;
    assert a % n + b == q' * n + r;
    assert q * n + q' * n == (q + q') * n;
    RemainderIs(a + b, n, q + q', r);
  }

  /** The next round goes on `k` places later, where `k` streams were visited; these are the
      next ones in the list if none of those passed over was 1 or 3. */
  lemma NextRoundGoesOn(ids: seq<nat>, start: nat, k: nat)
    requires ids != [] && k <= |ids|
    ensures Rotated(ids, Moved(start, k, |ids|)) == Rotated(ids, start)[k..] + Rotated(ids, start)[..k]
  {
    var r, r' := Rotated(ids, start), Rotated(ids, Moved(start, k, |ids|));
    forall i | 0 <= i < |ids|
      ensures r'[i] == (r[k..] + r[..k])[i]
    {
      PlaceAfter(start, k, |ids|, i);
    }
  }

  lemma PlaceAfter(start: nat, k: nat, n: nat, i: nat)
    requires i < n
    ensures (i + Moved(start, k, n)) % n == ((if i + k < n then i + k else i + k - n) + start) % n
  {
    if k > 0 {
      RemainderOfSum(start + k, i, n);
    }
    if i + k >= n {
      RemainderOfMore(i + k - n + start, n);
    }
  }

  lemma RemainderOfMore(a: nat, n: nat)
    requires n > 0
    ensures (a + n) % n == a % n
  {
    RemainderIs(a + n, n, a / n + 1, a % n);
  }

  lemma RotationKeepsOnce(ids: seq<nat>, k: nat)
    requires k <= |ids| && NoDups(ids)
    ensures NoDups(ids[k..] + ids[..k])
    ensures forall id :: id in ids[k..] + ids[..k] <==> id in ids
  {
    assert ids == ids[..k] + ids[k..];
  }

  lemma RotatedKeepsOnce(ids: seq<nat>, start: nat)
    requires NoDups(ids)
    ensures NoDups(Rotated(ids, start))
    ensures forall id :: id in Rotated(ids, start) <==> id in ids
  {
    if ids != [] {
      RotatedIsRotation(ids, start);
      RotationKeepsOnce(ids, start % |ids|);
    }
  }

  /** The list of open streams lists exactly the live ones, each once. */
  ghost predicate OpenOk(s: State) {
    NoDups(s.open) && Elements(s.open) == s.live
  }

  lemma JoinedOnce(special: seq<nat>, others: seq<nat>, all: set<nat>)
    requires NoDups(special) && NoDups(others)
    requires forall id :: id in special <==> id in all && IsSpecial(id)
    requires forall id :: id in others <==> id in all && !IsSpecial(id)
    ensures NoDups(special + others) && Elements(special + others) == all
  {
    assert forall i | 0 <= i < |special| :: special[i] in special;
    assert forall i | 0 <= i < |others| :: others[i] in others;
    assert forall id :: id in special + others <==> id in special || id in others;
  }

  /** A whole round visits every live stream exactly once. */
  lemma RoundVisitsAllOnce(s: State)
    requires OpenOk(s)
    ensures NoDups(Order(s)) && Elements(Order(s)) == s.live
  {
    RotatedKeepsOnce(s.open, s.index);
    OthersOnce(Rotated(s.open, s.index));
    assert forall id :: id in s.live <==> id in s.open;
    JoinedOnce(Special(s.live), Others(Rotated(s.open, s.index)), s.live);
  }

  // ---------------------------------------------------------------------------
  // Runs
  // ---------------------------------------------------------------------------

  datatype Step = OpenStream | GetOrOpen(id: nat) | Remove(id: nat) | MoveIndex(index: nat, indexSend: nat)

  /** A connection with its history: the ids that the peer has opened, in the order in which
      they were put into the list of open streams, and the ids that were removed. */
  datatype System = System(s: State, peer: seq<nat>, removed: set<nat>)

  function Appended(before: seq<nat>, after: seq<nat>): seq<nat> {
    if |before| <= |after| then after[|before|..] else []
  }

  /** Rounds move the indices, here to any value. */
  ghost predicate Next(l: Limits, x: System, step: Step, x': System) {
    match step
    case OpenStream => x' == x.(s := AfterOpen(x.s, l).0)
    case GetOrOpen(id) =>
      && x'.s == AfterGetOrOpen(x.s, l, id).0
      && x' == x.(s := x'.s, peer := x.peer + Appended(x.s.open, x'.s.open))
    case Remove(id) =>
      && x'.s == AfterRemove(x.s, id).0
      && x' == x.(s := x'.s, removed := x.removed + (x.s.live - x'.s.live))
    case MoveIndex(i, j) => x' == x.(s := x.s.(index := i, indexSend := j))
  }

  ghost predicate IsRun(server: bool, l: Limits, run: seq<System>, steps: seq<Step>) {
    && |run| == |steps| + 1
    && run[0] == System(Initial(server), [], {})
    && forall i | 0 <= i < |steps| :: Next(l, run[i], steps[i], run[i + 1])
  }

  /** The first `n` ids of the peer. */
  function PeerIds(server: bool, n: nat): (r: seq<nat>)
    ensures |r| == n
    ensures forall i | 0 <= i < n :: r[i] == (if server then 1 else 2) + 2 * i
  {
    if n == 0 then [] else PeerIds(server, n - 1) + [(if server then 1 else 2) + 2 * (n - 1)]
  }

  function WithParity(ids: set<nat>, parity: nat): set<nat> {
    set id | id in ids && id % 2 == parity
  }

  ghost predicate CountersOk(s: State) {
    && s.outgoing == |WithParity(s.live, 0)|
    && s.incoming == |WithParity(s.live, 1)|
  }

  /** Ids that were handed out: our own below `next`, the peer's up to `highest`. */
  predicate Issued(s: State, id: nat) {
    0 < id && if IsOwn(s, id) then id < s.next else id <= s.highest
  }

  ghost predicate IdsOk(x: System) {
    && IsOwn(x.s, x.s.next) && x.s.next > 0
    && x.peer == PeerIds(x.s.server, |x.peer|)
    && x.s.highest == (if x.peer == [] then 0 else x.peer[|x.peer| - 1])
    && (forall id | id in x.s.live :: Issued(x.s, id))
    && (forall id | id in x.removed :: Issued(x.s, id) && id !in x.s.live)
    && (forall id | id in x.peer :: id in x.s.live || id in x.removed)
    && OwnOk(x)
  }

  /** Every id that we have opened is live or was removed. */
  ghost predicate OwnOk(x: System) {
    forall id: nat | 0 < id < x.s.next && IsOwn(x.s, id) :: id in x.s.live || id in x.removed
  }

  ghost predicate Inv(x: System) {
    OpenOk(x.s) && CountersOk(x.s) && IdsOk(x)
  }

  lemma OneMoreOpen(s: State, id: nat)
    requires OpenOk(s) && id !in s.live
    ensures Put(s, id).open == s.open + [id] && OpenOk(Put(s, id))
  {
    assert id !in s.open;
    assert Elements(s.open + [id]) == s.live + {id};
  }

  lemma OneMoreCounted(live: set<nat>, id: nat, parity: nat)
    requires id !in live && parity < 2
    ensures |WithParity(live + {id}, parity)| == |WithParity(live, parity)| + if id % 2 == parity then 1 else 0
  {
    if id % 2 == parity {
      assert WithParity(live + {id}, parity) == WithParity(live, parity) + {id};
    } else {
      assert WithParity(live + {id}, parity) == WithParity(live, parity);
    }
  }

  lemma OneLessCounted(live: set<nat>, id: nat, parity: nat)
    requires id in live && parity < 2
    ensures |WithParity(live - {id}, parity)| == |WithParity(live, parity)| - if id % 2 == parity then 1 else 0
  {
    OneMoreCounted(live - {id}, id, parity);
    assert live - {id} + {id} == live;
  }

  lemma OpenKeepsIds(l: Limits, x: System)
    requires IdsOk(x) && x.s.outgoing < l.maxOutgoing
    ensures x.s.next !in x.s.live && IdsOk(x.(s := AfterOpen(x.s, l).0))
  {
    assert x.s.next !in x.s.live;
  }

  lemma OpenKeepsInv(l: Limits, x: System)
    requires Inv(x)
    ensures Inv(x.(s := AfterOpen(x.s, l).0))
  {
    if x.s.outgoing < l.maxOutgoing {
      OpenKeepsIds(l, x);
      OneMoreOpen(x.s, x.s.next);
      OneMoreCounted(x.s.live, x.s.next, 0);
      OneMoreCounted(x.s.live, x.s.next, 1);
    }
  }

  lemma NextRemoteIsNew(x: System)
    requires IdsOk(x)
    ensures
      var id := NextRemote(x.s);
      && !IsOwn(x.s, id) && id > x.s.highest
      && !Issued(x.s, id) && id !in x.s.live
      && x.peer + [id] == PeerIds(x.s.server, |x.peer| + 1)
  {
    if x.peer != [] {
      assert x.peer[|x.peer| - 1] == (if x.s.server then 1 else 2) + 2 * (|x.peer| - 1);
    }
  }

  lemma NextRemoteIsLeast(x: System, id: nat)
    requires IdsOk(x) && !IsOwn(x.s, id)
    ensures id > x.s.highest <==> NextRemote(x.s) <= id
  {
    if x.peer != [] {
      assert x.peer[|x.peer| - 1] == (if x.s.server then 1 else 2) + 2 * (|x.peer| - 1);
    }
  }

  /** Opening the peer's next id succeeds unless there are too many streams. */
  lemma OpenRemoteKeepsInv(l: Limits, x: System)
    requires Inv(x)
    ensures
      var id := NextRemote(x.s);
      var (s', got) := AfterOpenRemote(x.s, l, id);
      if x.s.incoming >= l.maxIncoming then got == TooManyOpenStreams && s' == x.s
      else
        && got == Got(id) && id in s'.live
        && s'.open == x.s.open + [id]
        && s'.server == x.s.server
        && NextRemote(s') == id + 2 && s'.highest == id && s'.live == x.s.live + {id}
        && Inv(x.(s := s', peer := x.peer + [id]))
  {
    var id := NextRemote(x.s);
    NextRemoteIsNew(x);
    if x.s.incoming < l.maxIncoming {
      OneMoreOpen(x.s, id);
      OneMoreCounted(x.s.live, id, 0);
      OneMoreCounted(x.s.live, id, 1);
    }
  }

  /** A server refuses an id if the ids up to it are too many together with the peer's live
      streams. A client counts its own streams instead, and none of the new ones. */
  predicate Refused(s: State, l: Limits, id: nat) {
    var sid := NextRemote(s);
    sid <= id && s.incoming + (if s.server then (id - sid) / 2 + 1 else 1) > l.maxIncoming
  }

  lemma FirstIsNotRefused(l: Limits, x: System, id: nat)
    requires IdsOk(x) && !IsOwn(x.s, id) && NextRemote(x.s) <= id && x.s.incoming < l.maxIncoming
    ensures Refused(x.s, l, id) <==> Refused(AfterOpenRemote(x.s, l, NextRemote(x.s)).0, l, id)
  {
    NextRemoteIsNew(x);
  }

  /** What opening the peer's ids up to `id` does to a connection that is in order. */
  ghost predicate OpensUpTo(l: Limits, x: System, id: nat, s': State, got: Got) {
    && x.s.open <= s'.open
    && Inv(x.(s := s', peer := x.peer + Appended(x.s.open, s'.open)))
    && s'.server == x.s.server
    && (got == Got(id) <==> id in s'.live)
    && got == (if Refused(x.s, l, id) then TooManyOpenStreams else Got(id))
    && (Refused(x.s, l, id) ==> s'.incoming >= l.maxIncoming)
  }

  lemma OpensOneMore(l: Limits, x: System, sid: nat, s1: State, id: nat, s': State, got: Got)
    requires s1.open == x.s.open + [sid] && s1.server == x.s.server
    requires OpensUpTo(l, x.(s := s1, peer := x.peer + [sid]), id, s', got)
    requires Refused(x.s, l, id) <==> Refused(s1, l, id)
    ensures OpensUpTo(l, x, id, s', got)
  {
    assert x.peer + Appended(x.s.open, s'.open) == x.peer + [sid] + Appended(s1.open, s'.open);
  }

  lemma OpensNone(l: Limits, x: System, id: nat, got: Got)
    requires Inv(x)
    requires id in x.s.live <==> !Refused(x.s, l, id)
    requires got == if id in x.s.live then Got(id) else TooManyOpenStreams
    requires Refused(x.s, l, id) ==> x.s.incoming >= l.maxIncoming
    ensures OpensUpTo(l, x, id, x.s, got)
  {
    assert x.peer + Appended(x.s.open, x.s.open) == x.peer;
  }

  lemma {:induction false} OpenUpToKeepsInv(l: Limits, x: System, sid: nat, id: nat, r: (State, Got))
    requires Inv(x) && !IsOwn(x.s, id) && sid == NextRemote(x.s)
    requires id in x.s.live <==> id <= x.s.highest
    requires r == AfterOpenUpTo(x.s, l, sid, id)
    ensures OpensUpTo(l, x, id, r.0, r.1)
    decreases id - sid
  {
    NextRemoteIsLeast(x, id);
    if sid > id {
      assert r == (x.s, Got(id));
      OpensNone(l, x, id, Got(id));
    } else if x.s.incoming >= l.maxIncoming {
      assert r == (x.s, TooManyOpenStreams);
      OpensNone(l, x, id, TooManyOpenStreams);
    } else {
      OpenRemoteKeepsInv(l, x);
      var s1 := AfterOpenRemote(x.s, l, sid).0;
      assert r == AfterOpenUpTo(s1, l, sid + 2, id);
      OpenUpToKeepsInv(l, x.(s := s1, peer := x.peer + [sid]), sid + 2, id, r);
      FirstIsNotRefused(l, x, id);
      OpensOneMore(l, x, sid, s1, id, r.0, r.1);
    }
  }

  /** What `GetOrOpenStream` answers on a connection that is in order. The own id that is
      opened next counts as closed. A peer's id is never refused for being far behind. */
  ghost predicate GetOk(l: Limits, x: System, id: nat, s': State, got: Got) {
    if id in x.s.live then got == Got(id) && s' == x.s
    else if id in x.removed || id == 0 || id == x.s.next then got == Closed && s' == x.s
    else if IsOwn(x.s, id) then got == InvalidStreamID && s' == x.s
    else OpensUpTo(l, x, id, s', got)
  }

  lemma PeerHasOpened(x: System, id: nat)
    requires IdsOk(x) && !IsOwn(x.s, id)
    ensures id in x.peer <==> 0 < id <= x.s.highest
  {
    if 0 < id <= x.s.highest {
      var i := (id - if x.s.server then 1 else 2) / 2;
      assert x.peer[|x.peer| - 1] == (if x.s.server then 1 else 2) + 2 * (|x.peer| - 1);
      assert x.peer[i] == id;
    }
    if id in x.peer {
      var i :| 0 <= i < |x.peer| && x.peer[i] == id;
    }
  }

  lemma GetOrOpenKeepsInv(l: Limits, x: System, id: nat)
    requires Inv(x)
    ensures
      var (s', got) := AfterGetOrOpen(x.s, l, id);
      && GetOk(l, x, id, s', got)
      && Inv(x.(s := s', peer := x.peer + Appended(x.s.open, s'.open)))
  {
    assert x.s.open[|x.s.open|..] == [] && x.peer + [] == x.peer;
    if !IsOwn(x.s, id) {
      PeerHasOpened(x, id);
      if id !in x.s.live && id > x.s.highest {
        OpenUpToKeepsInv(l, x, NextRemote(x.s), id, AfterGetOrOpen(x.s, l, id));
      }
    }
  }

  lemma CutOut(ids: seq<nat>, i: nat)
    requires NoDups(ids) && i < |ids|
    ensures NoDups(ids[..i] + ids[i + 1..])
    ensures Elements(ids[..i] + ids[i + 1..]) == Elements(ids) - {ids[i]}
  {
    var cut := ids[..i] + ids[i + 1..];
    assert ids == ids[..i] + [ids[i]] + ids[i + 1..];
    forall id
      ensures id in cut <==> id in ids && id != ids[i]
    {
    }
  }

  lemma RemoveKeepsCounters(s: State, id: nat)
    requires CountersOk(s)
    ensures CountersOk(AfterRemove(s, id).0)
  {
    if id in s.live {
      OneLessCounted(s.live, id, 0);
      OneLessCounted(s.live, id, 1);
    }
  }

  lemma RemoveKeepsOpen(s: State, id: nat)
    requires OpenOk(s)
    ensures OpenOk(AfterRemove(s, id).0)
  {
    if id in s.live {
      assert id in s.open;
      CutOut(s.open, Find(s.open, id));
    }
  }

  lemma RemoveKeepsInv(x: System, id: nat)
    requires Inv(x)
    ensures
      var s' := AfterRemove(x.s, id).0;
      Inv(x.(s := s', removed := x.removed + (x.s.live - s'.live)))
  {
    RemoveKeepsCounters(x.s, id);
    RemoveKeepsOpen(x.s, id);
  }

  /** What every step keeps. */
  ghost predicate IsKept(x: System, x': System) {
    Inv(x') && x'.s.server == x.s.server && x.removed <= x'.removed
  }

  lemma UpToKeepsSide(s: State, l: Limits, id: nat)
    ensures AfterGetOrOpen(s, l, id).0.server == s.server
  {
    UpToKeepsServer(s, l, NextRemote(s), id);
  }

  lemma {:induction false} UpToKeepsServer(s: State, l: Limits, sid: nat, id: nat)
    ensures AfterOpenUpTo(s, l, sid, id).0.server == s.server
    decreases id - sid
  {
    if sid <= id {
      var (s1, got) := AfterOpenRemote(s, l, sid);
      if got.Got? {
        UpToKeepsServer(s1, l, sid + 2, id);
      }
    }
  }

  lemma GetOrOpenIsKept(l: Limits, x: System, id: nat, x': System)
    requires Inv(x) && Next(l, x, GetOrOpen(id), x')
    ensures IsKept(x, x')
  {
    GetOrOpenKeepsInv(l, x, id);
    UpToKeepsSide(x.s, l, id);
  }

  lemma RemoveIsKept(l: Limits, x: System, id: nat, x': System)
    requires Inv(x) && Next(l, x, Remove(id), x')
    ensures IsKept(x, x')
  {
    RemoveKeepsInv(x, id);
  }

  lemma OpenIsKept(l: Limits, x: System, x': System)
    requires Inv(x) && Next(l, x, OpenStream, x')
    ensures IsKept(x, x')
  {
    OpenKeepsInv(l, x);
  }

  lemma NextKeepsInv(l: Limits, x: System, step: Step, x': System)
    requires Inv(x) && Next(l, x, step, x')
    ensures IsKept(x, x')
  {
    match step
    case OpenStream => OpenIsKept(l, x, x');
    case GetOrOpen(id) => GetOrOpenIsKept(l, x, id, x');
    case Remove(id) => RemoveIsKept(l, x, id, x');
    case MoveIndex(_, _) =>
  }

  lemma {:induction false} RunInv(server: bool, l: Limits, run: seq<System>, steps: seq<Step>, i: nat)
    requires IsRun(server, l, run, steps) && i < |run|
    ensures Inv(run[i]) && run[i].s.server == server
  {
    if i > 0 {
      RunInv(server, l, run, steps, i - 1);
      NextKeepsInv(l, run[i - 1], steps[i - 1], run[i]);
    }
  }

  // ---------------------------------------------------------------------------
  // Main results
  // ---------------------------------------------------------------------------

  /** In every run, the peer's ids are opened one after the other, without a hole. */
  lemma PeerIdsOpenInOrder(server: bool, l: Limits, run: seq<System>, steps: seq<Step>, i: nat)
    requires IsRun(server, l, run, steps) && i < |run|
    ensures
      var x := run[i];
      && x.peer == PeerIds(server, |x.peer|)
      && x.s.highest == (if x.peer == [] then 0 else x.peer[|x.peer| - 1])
      && forall id | id in x.peer :: id in x.s.live || id in x.removed
  {
    RunInv(server, l, run, steps, i);
  }

  lemma {:induction false} RemovedGrows(server: bool, l: Limits, run: seq<System>, steps: seq<Step>, i: nat, j: nat)
    requires IsRun(server, l, run, steps) && i <= j < |run|
    ensures run[i].removed <= run[j].removed
  {
    if i < j {
      RemovedGrows(server, l, run, steps, i, j - 1);
      assert Next(l, run[j - 1], steps[j - 1], run[j]);
    }
  }

  /** A removed stream never becomes live again. */
  lemma RemovedStaysRemoved(server: bool, l: Limits, run: seq<System>, steps: seq<Step>, i: nat, j: nat, id: nat)
    requires IsRun(server, l, run, steps) && i <= j < |run| && id in run[i].removed
    ensures id !in run[j].s.live
  {
    RemovedGrows(server, l, run, steps, i, j);
    RunInv(server, l, run, steps, j);
  }

  /** In every run, the list and the counters agree with the set of live streams, and a
      round visits each of these once. */
  lemma ListAndCountersAgree(server: bool, l: Limits, run: seq<System>, steps: seq<Step>, i: nat)
    requires IsRun(server, l, run, steps) && i < |run|
    ensures
      var s := run[i].s;
      && NoDups(s.open) && Elements(s.open) == s.live
      && s.outgoing == |WithParity(s.live, 0)| && s.incoming == |WithParity(s.live, 1)|
      && NoDups(Order(s)) && Elements(Order(s)) == s.live
  {
    RunInv(server, l, run, steps, i);
    RoundVisitsAllOnce(run[i].s);
  }

  /** In every run, a peer's id is opened unless it is refused; in particular the test for ids
      that are far behind never fails. */
  lemma AnswersAreRight(server: bool, l: Limits, run: seq<System>, steps: seq<Step>, i: nat, id: nat)
    requires IsRun(server, l, run, steps) && i < |run|
    ensures
      var (s', got) := AfterGetOrOpen(run[i].s, l, id);
      GetOk(l, run[i], id, s', got)
  {
    RunInv(server, l, run, steps, i);
    GetOrOpenKeepsInv(l, run[i], id);
  }

  /** In every run, an id is reported closed exactly if it was removed, or is 0, or is the own
      id that has not been opened yet and is the next to be. */
  lemma ClosedIsExact(server: bool, l: Limits, run: seq<System>, steps: seq<Step>, i: nat, id: nat)
    requires IsRun(server, l, run, steps) && i < |run|
    ensures AfterGetOrOpen(run[i].s, l, id).1 == Closed
       <==> id in run[i].removed || id == 0 || id == run[i].s.next
    ensures run[i].s.next !in run[i].s.live && run[i].s.next !in run[i].removed
  {
    RunInv(server, l, run, steps, i);
    AnswersAreRight(server, l, run, steps, i, id);
  }

  lemma {:induction false} UpToKeepsLimit(s: State, l: Limits, sid: nat, id: nat)
    requires s.server && s.incoming <= l.maxIncoming
    ensures
      var s' := AfterOpenUpTo(s, l, sid, id).0;
      s'.server && s'.incoming <= l.maxIncoming && s'.outgoing == s.outgoing
    decreases id - sid
  {
    if sid <= id {
      var (s1, got) := AfterOpenRemote(s, l, sid);
      if got.Got? {
        UpToKeepsLimit(s1, l, sid + 2, id);
      }
    }
  }

  /** A server keeps to both limits. */
  lemma {:induction false} ServerKeepsLimits(l: Limits, run: seq<System>, steps: seq<Step>, i: nat)
    requires IsRun(true, l, run, steps) && i < |run|
    ensures run[i].s.incoming <= l.maxIncoming && run[i].s.outgoing <= l.maxOutgoing
  {
    if i > 0 {
      ServerKeepsLimits(l, run, steps, i - 1);
      RunInv(true, l, run, steps, i - 1);
      assert Next(l, run[i - 1], steps[i - 1], run[i]);
      if steps[i - 1].GetOrOpen? {
        UpToKeepsLimit(run[i - 1].s, l, NextRemote(run[i - 1].s), steps[i - 1].id);
      }
    }
  }

  /** In every run, a server refuses a new id of the peer exactly if opening all ids up to it
      would exceed the limit, and a client exactly if it has as many streams of its own. Both
      refuse to open a stream of their own exactly if there are as many even streams as
      allowed, which are the server's own but not the client's. */
  lemma RefusalsAreExact(server: bool, l: Limits, run: seq<System>, steps: seq<Step>, i: nat, id: nat)
    requires IsRun(server, l, run, steps) && i < |run|
    ensures
      var x := run[i];
      var odd, even := |WithParity(x.s.live, 1)|, |WithParity(x.s.live, 0)|;
      && (!IsOwn(x.s, id) && id > 0 && id !in x.peer
          ==> (AfterGetOrOpen(x.s, l, id).1 == TooManyOpenStreams
               <==> if server then odd + (id + 1) / 2 - |x.peer| > l.maxIncoming else odd >= l.maxIncoming))
      && (AfterOpen(x.s, l).1 == TooManyOpenStreams <==> even >= l.maxOutgoing)
  {
    RunInv(server, l, run, steps, i);
    AnswersAreRight(server, l, run, steps, i, id);
    var x := run[i];
    if !IsOwn(x.s, id) && id > 0 && id !in x.peer {
      PeerHasOpened(x, id);
      NextRemoteIsLeast(x, id);
      NextRemoteIsNew(x);
      assert (x.peer + [NextRemote(x.s)])[|x.peer|] == (if server then 1 else 2) + 2 * |x.peer|;
    }
  }

  /** In all runs the peer's live streams keep to their limit. */
  ghost predicate PeerIsLimited(server: bool, l: Limits) {
    forall run: seq<System>, steps, i: nat | IsRun(server, l, run, steps) && i < |run| ::
      |WithParity(run[i].s.live, if server then 1 else 0)| <= l.maxIncoming
  }

  /** In all runs our own live streams keep to their limit. */
  ghost predicate OwnIsLimited(server: bool, l: Limits) {
    forall run: seq<System>, steps, i: nat | IsRun(server, l, run, steps) && i < |run| ::
      |WithParity(run[i].s.live, if server then 0 else 1)| <= l.maxOutgoing
  }

  lemma {:induction false} UpToCounts(s: State, l: Limits, sid: nat, id: nat)
    requires !s.server && s.incoming < l.maxIncoming && s.highest < sid
    ensures AfterOpenUpTo(s, l, sid, id).0.outgoing == s.outgoing + if sid <= id then (id - sid) / 2 + 1 else 0
    decreases id - sid
  {
    if sid <= id {
      UpToCounts(AfterOpenRemote(s, l, sid).0, l, sid + 2, id);
    }
  }

  /** A client with a limit opens any number of the server's streams. */
  lemma ClientOpensAny(l: Limits, n: nat) returns (run: seq<System>, steps: seq<Step>)
    requires l.maxIncoming > 0
    ensures IsRun(false, l, run, steps) && |run| == 2 && |WithParity(run[1].s.live, 0)| == n
  {
    var x := System(Initial(false), [], {});
    var s' := AfterGetOrOpen(x.s, l, 2 * n).0;
    run := [x, x.(s := s', peer := x.peer + Appended(x.s.open, s'.open))];
    steps := [GetOrOpen(2 * n)];
    assert Next(l, run[0], steps[0], run[1]);
    UpToCounts(x.s, l, 2, 2 * n);
    RunInv(false, l, run, steps, 1);
  }

  lemma {:induction false} ClientWithoutPeers(l: Limits, run: seq<System>, steps: seq<Step>, i: nat)
    requires IsRun(false, l, run, steps) && i < |run| && l.maxIncoming == 0
    ensures run[i].peer == [] && WithParity(run[i].s.live, 0) == {}
  {
    RunInv(false, l, run, steps, i);
    if i > 0 {
      ClientWithoutPeers(l, run, steps, i - 1);
      RunInv(false, l, run, steps, i - 1);
      assert Next(l, run[i - 1], steps[i - 1], run[i]);
    }
  }

  /** The peer's streams keep to their limit in all runs exactly on a server, or if there may
      be none at all. */
  lemma PeerIsLimitedOnServer(server: bool, l: Limits)
    ensures PeerIsLimited(server, l) <==> server || l.maxIncoming == 0
  {
    if !server && l.maxIncoming > 0 {
      var run, steps := ClientOpensAny(l, l.maxIncoming + 1);
      assert |WithParity(run[1].s.live, 0)| > l.maxIncoming;
    } else {
      forall run: seq<System>, steps, i: nat | IsRun(server, l, run, steps) && i < |run|
        ensures |WithParity(run[i].s.live, if server then 1 else 0)| <= l.maxIncoming
      {
        RunInv(server, l, run, steps, i);
        if server {
          ServerKeepsLimits(l, run, steps, i);
        } else {
          ClientWithoutPeers(l, run, steps, i);
        }
      }
    }
  }

  /** A client that opens `n` streams. */
  function Opened(l: Limits, n: nat): System {
    if n == 0 then System(Initial(false), [], {})
    else var x := Opened(l, n - 1); x.(s := AfterOpen(x.s, l).0)
  }

  lemma {:induction false} OpenedCounts(l: Limits, n: nat)
    requires l.maxOutgoing > 0
    ensures var s := Opened(l, n).s; !s.server && s.outgoing == 0 && s.incoming == n
  {
    if n > 0 {
      OpenedCounts(l, n - 1);
    }
  }

  lemma ClientOpensOwn(l: Limits, n: nat) returns (run: seq<System>, steps: seq<Step>)
    requires l.maxOutgoing > 0
    ensures IsRun(false, l, run, steps) && |run| == n + 1 && |WithParity(run[n].s.live, 1)| == n
  {
    run := seq(n + 1, k requires 0 <= k => Opened(l, k));
    steps := seq(n, _ => OpenStream);
    forall k | 0 <= k < n
      ensures Next(l, run[k], steps[k], run[k + 1])
    {
      assert run[k + 1] == Opened(l, k + 1);
    }
    RunInv(false, l, run, steps, n);
    OpenedCounts(l, n);
  }

  lemma {:induction false} ClientWithoutOwn(l: Limits, run: seq<System>, steps: seq<Step>, i: nat)
    requires IsRun(false, l, run, steps) && i < |run| && l.maxOutgoing == 0
    ensures run[i].s.next == 1 && WithParity(run[i].s.live, 1) == {}
  {
    RunInv(false, l, run, steps, i);
    if i > 0 {
      ClientWithoutOwn(l, run, steps, i - 1);
      RunInv(false, l, run, steps, i - 1);
      var s := run[i - 1].s;
      assert Next(l, run[i - 1], steps[i - 1], run[i]);
      if steps[i - 1].GetOrOpen? {
        UpToKeepsNext(s, l, NextRemote(s), steps[i - 1].id);
      }
    }
  }

  lemma {:induction false} UpToKeepsNext(s: State, l: Limits, sid: nat, id: nat)
    ensures AfterOpenUpTo(s, l, sid, id).0.next == s.next
    decreases id - sid
  {
    if sid <= id {
      var (s1, got) := AfterOpenRemote(s, l, sid);
      if got.Got? {
        UpToKeepsNext(s1, l, sid + 2, id);
      }
    }
  }

  /** Our own streams keep to their limit in all runs exactly on a server, or if there may be
      none at all. */
  lemma OwnIsLimitedOnServer(server: bool, l: Limits)
    ensures OwnIsLimited(server, l) <==> server || l.maxOutgoing == 0
  {
    if !server && l.maxOutgoing > 0 {
      var run, steps := ClientOpensOwn(l, l.maxOutgoing + 1);
      assert |WithParity(run[l.maxOutgoing + 1].s.live, 1)| > l.maxOutgoing;
    } else {
      forall run: seq<System>, steps, i: nat | IsRun(server, l, run, steps) && i < |run|
        ensures |WithParity(run[i].s.live, if server then 0 else 1)| <= l.maxOutgoing
      {
        RunInv(server, l, run, steps, i);
        if server {
          ServerKeepsLimits(l, run, steps, i);
        } else {
          ClientWithoutOwn(l, run, steps, i);
        }
      }
    }
  }

  // ---------------------------------------------------------------------------
  // The program
  // ---------------------------------------------------------------------------

  lemma {:induction false} OthersSnoc(ids: seq<nat>, id: nat)
    ensures Others(ids + [id]) == Others(ids) + if IsSpecial(id) then [] else [id]
  {
    if ids != [] {
      assert (ids + [id])[1..] == ids[1..] + [id];
      OthersSnoc(ids[1..], id);
    }
  }

  lemma {:induction false} OthersPrefix(ids: seq<nat>, i: nat)
    requires i <= |ids|
    ensures Others(ids[..i]) <= Others(ids)
    decreases |ids| - i
  {
    if i == |ids| {
      assert ids[..i] == ids;
    } else {
      OthersPrefix(ids, i + 1);
      assert ids[..i + 1] == ids[..i] + [ids[i]];
      OthersSnoc(ids[..i], ids[i]);
    }
  }

  lemma {:induction false} SizeOfElements(ids: seq<nat>)
    requires NoDups(ids)
    ensures |Elements(ids)| == |ids|
  {
    if ids != [] {
      SizeOfElements(ids[1..]);
      assert ids[0] !in ids[1..];
      assert Elements(ids) == Elements(ids[1..]) + {ids[0]};
    }
  }

  /** Each of the visits let the round go on. */
  ghost predicate AllGoOn(fn: (seq<nat>, nat) -> bool, visited: seq<nat>) {
    forall k | 0 <= k < |visited| :: fn(visited[..k], visited[k])
  }

  /** The round visits streams in order; it ends when all are visited or when it is told to. */
  ghost predicate Visits(fn: (seq<nat>, nat) -> bool, order: seq<nat>, visited: seq<nat>) {
    && visited <= order
    && (AllGoOn(fn, visited) ==> visited == order)
    && (visited != [] ==> AllGoOn(fn, visited[..|visited| - 1]))
  }

  lemma GoesOnOneMore(fn: (seq<nat>, nat) -> bool, visited: seq<nat>, id: nat)
    requires AllGoOn(fn, visited)
    ensures AllGoOn(fn, visited + [id]) <==> fn(visited, id)
    ensures (visited + [id])[..|visited|] == visited
  {
    var more := visited + [id];
    assert more[..|visited|] == visited;
    forall k | 0 <= k < |visited|
      ensures fn(more[..k], more[k])
    {
      assert more[..k] == visited[..k];
    }
  }

  lemma VisitsAll(fn: (seq<nat>, nat) -> bool, visited: seq<nat>)
    requires AllGoOn(fn, visited)
    ensures Visits(fn, visited, visited)
  {
    if visited != [] {
      var most := visited[..|visited| - 1];
      assert forall k | 0 <= k < |most| :: most[..k] == visited[..k];
    }
  }

  lemma VisitsSome(fn: (seq<nat>, nat) -> bool, visited: seq<nat>, id: nat, order: seq<nat>)
    requires AllGoOn(fn, visited) && !fn(visited, id) && visited + [id] <= order
    ensures Visits(fn, order, visited + [id])
  {
    GoesOnOneMore(fn, visited, id);
  }

  lemma JoinNext(before: seq<nat>, a: seq<nat>, x: seq<nat>, all: seq<nat>)
    requires a + x <= all
    ensures before + (a + x) == before + a + x
    ensures before + a + x <= before + all
  {
    var tail := all[|a + x|..];
    assert all == a + x + tail;
    assert before + all == before + a + x + tail;
  }

  lemma OneMoreOther(ids: seq<nat>, i: nat)
    requires i < |ids|
    ensures Others(ids[..i + 1]) == Others(ids[..i]) + if IsSpecial(ids[i]) then [] else [ids[i]]
  {
    assert ids[..i + 1] == ids[..i] + [ids[i]];
    OthersSnoc(ids[..i], ids[i]);
  }

  lemma NextOther(before: seq<nat>, ids: seq<nat>, i: nat, next: seq<nat>)
    requires i < |ids| && next == if IsSpecial(ids[i]) then [] else [ids[i]]
    ensures before + Others(ids[..i + 1]) == before + Others(ids[..i]) + next
    ensures before + Others(ids[..i]) + next <= before + Others(ids)
  {
    OneMoreOther(ids, i);
    OthersPrefix(ids, i + 1);
    JoinNext(before, Others(ids[..i]), next, Others(ids));
  }

  /** A round over `n` streams has moved the index by one for each visit other than to 1 and 3. */
  predicate HasMoved(start: nat, visited: seq<nat>, n: nat, index: nat) {
    (n == 0 ==> Others(visited) == []) && index == Moved(start, |Others(visited)|, n)
  }

  lemma MovesOne(start: nat, visited: seq<nat>, id: nat, n: nat, index: nat)
    requires n > 0 && HasMoved(start, visited, n, index) && !IsSpecial(id)
    ensures HasMoved(start, visited + [id], n, (index + 1) % n)
  {
    OthersSnoc(visited, id);
    MovedOneMore(start, |Others(visited)|, n);
  }

  /** The state of a round after `i` places of the rotated list. */
  ghost predicate Midway(fn: (seq<nat>, nat) -> bool, before: seq<nat>, ids: seq<nat>, i: nat, visited: seq<nat>,
    start: nat, index: nat)
    requires i <= |ids|
  {
    && AllGoOn(fn, visited) && visited == before + Others(ids[..i])
    && HasMoved(start, visited, |ids|, index)
  }

  /** The round has ended. */
  ghost predicate IsDone(fn: (seq<nat>, nat) -> bool, before: seq<nat>, ids: seq<nat>, visited: seq<nat>,
    start: nat, index: nat)
  {
    Visits(fn, before + Others(ids), visited) && HasMoved(start, visited, |ids|, index)
  }

  lemma RoundStarts(fn: (seq<nat>, nat) -> bool, before: seq<nat>, ids: seq<nat>, start: nat)
    requires AllGoOn(fn, before) && Others(before) == []
    ensures Midway(fn, before, ids, 0, before, start, start)
  {
    assert ids[..0] == [] && before + [] == before;
  }

  lemma PassOne(fn: (seq<nat>, nat) -> bool, before: seq<nat>, ids: seq<nat>, i: nat, visited: seq<nat>,
    start: nat, index: nat)
    requires i < |ids| && Midway(fn, before, ids, i, visited, start, index) && IsSpecial(ids[i])
    ensures Midway(fn, before, ids, i + 1, visited, start, index)
  {
    NextOther(before, ids, i, []);
  }

  lemma VisitOne(fn: (seq<nat>, nat) -> bool, before: seq<nat>, ids: seq<nat>, i: nat, visited: seq<nat>,
    start: nat, index: nat)
    requires i < |ids| && Midway(fn, before, ids, i, visited, start, index) && !IsSpecial(ids[i])
    ensures
      var visited', index' := visited + [ids[i]], (index + 1) % |ids|;
      if fn(visited, ids[i]) then Midway(fn, before, ids, i + 1, visited', start, index')
      else IsDone(fn, before, ids, visited', start, index')
  {
    NextOther(before, ids, i, [ids[i]]);
    GoesOnOneMore(fn, visited, ids[i]);
    MovesOne(start, visited, ids[i], |ids|, index);
    if !fn(visited, ids[i]) {
      VisitsSome(fn, visited, ids[i], before + Others(ids));
    }
  }

  lemma RoundEnds(fn: (seq<nat>, nat) -> bool, before: seq<nat>, ids: seq<nat>, visited: seq<nat>,
    start: nat, index: nat)
    requires Midway(fn, before, ids, |ids|, visited, start, index)
    ensures IsDone(fn, before, ids, visited, start, index)
  {
    assert ids[..|ids|] == ids;
    VisitsAll(fn, visited);
  }

  class Streams {
    const server: bool
    var streams: set<nat>
    var openStreams: seq<nat>
    var roundRobinIndex: nat
    var roundRobinIndexSend: nat
    var nextStream: nat
    var highestStreamOpenedByPeer: nat
    var numOutgoingStreams: int
    var numIncomingStreams: int

    function View(): State
      reads this
    {
      State(server, streams, openStreams, roundRobinIndex, roundRobinIndexSend,
            nextStream, highestStreamOpenedByPeer, numOutgoingStreams, numIncomingStreams)
    }

    constructor (server: bool)
      ensures View() == Initial(server)
    {
      this.server, streams, openStreams := server, {}, [];
      roundRobinIndex, roundRobinIndexSend := 0, 0;
      nextStream, highestStreamOpenedByPeer := if server then 2 else 1, 0;
      numOutgoingStreams, numIncomingStreams := 0, 0;
    }

    /** False if there is such a stream already. */
    method PutStream(id: nat) returns (ok: bool)
      modifies this`streams, this`openStreams
      ensures View() == Put(old(View()), id)
      ensures ok <==> id !in old(streams)
    {
      if id in streams {
        return false;
      }
      streams := streams + {id};
      openStreams := openStreams + [id];
      return true;
    }

    method OpenStreamImpl(l: Limits) returns (got: Got)
      modifies this
      ensures (View(), got) == AfterOpen(old(View()), l)
    {
      var id := nextStream;
      if numOutgoingStreams >= l.maxOutgoing {
        return TooManyOpenStreams;
      }
      if server {
        numOutgoingStreams := numOutgoingStreams + 1;
      } else {
        numIncomingStreams := numIncomingStreams + 1;
      }
      nextStream := nextStream + 2;
      var _ := PutStream(id);
      return Got(id);
    }

    method OpenRemoteStream(l: Limits, id: nat) returns (got: Got)
      modifies this
      ensures (View(), got) == AfterOpenRemote(old(View()), l, id)
    {
      if numIncomingStreams >= l.maxIncoming {
        return TooManyOpenStreams;
      }
      if id + MAX_NEW_STREAM_ID_DELTA < highestStreamOpenedByPeer {
        return InvalidStreamID;
      }
      if server {
        numIncomingStreams := numIncomingStreams + 1;
      } else {
        numOutgoingStreams := numOutgoingStreams + 1;
      }
      if id > highestStreamOpenedByPeer {
        highestStreamOpenedByPeer := id;
      }
      var _ := PutStream(id);
      return Got(id);
    }

    method GetOrOpenStream(l: Limits, id: nat) returns (got: Got)
      modifies this
      ensures (View(), got) == AfterGetOrOpen(old(View()), l, id)
    {
      if id in streams {
        return Got(id);
      }
      if server {
        if id % 2 == 0 {
          return if id <= nextStream then Closed else InvalidStreamID;
        }
        if id <= highestStreamOpenedByPeer {
          return Closed;
        }
      } else {
        if id % 2 == 1 {
          return if id <= nextStream then Closed else InvalidStreamID;
        }
        if id <= highestStreamOpenedByPeer {
          return Closed;
        }
      }
      ghost var all := AfterOpenUpTo(View(), l, NextRemote(View()), id);
      var sid := highestStreamOpenedByPeer + 2;
      if sid == 2 && server {
        sid := 1;
      }
      while sid <= id
        invariant AfterOpenUpTo(View(), l, sid, id) == all
        decreases id + 2 - sid
      {
        got := OpenRemoteStream(l, sid);
        if !got.Got? {
          return;
        }
        sid := sid + 2;
      }
      return if id in streams then Got(id) else Closed;
    }

    method RemoveStream(id: nat) returns (got: Got)
      modifies this
      ensures (View(), got) == AfterRemove(old(View()), id)
    {
      if id !in streams {
        return NoSuchStream;
      }
      if id % 2 == 0 {
        numOutgoingStreams := numOutgoingStreams - 1;
      } else {
        numIncomingStreams := numIncomingStreams - 1;
      }
      var i := FindOpen(id);
      if i < |openStreams| {
        openStreams := openStreams[..i] + openStreams[i + 1..];
        if i < roundRobinIndex {
          roundRobinIndex := roundRobinIndex - 1;
        }
        if i < roundRobinIndexSend {
          roundRobinIndexSend := roundRobinIndexSend - 1;
        }
      }
      streams := streams - {id};
      return Got(id);
    }

    method FindOpen(id: nat) returns (i: nat)
      ensures i == Find(openStreams, id)
    {
      i := 0;
      while i < |openStreams| && openStreams[i] != id
        invariant i <= |openStreams| && id !in openStreams[..i]
      {
        i := i + 1;
      }
    }

    /** Calls `fn`, which sees the streams visited before, until it returns false. */
    method RoundRobinIterate(fn: (seq<nat>, nat) -> bool) returns (visited: seq<nat>)
      requires OpenOk(View())
      modifies this`roundRobinIndex
      ensures Visits(fn, Order(old(View())), visited)
      ensures HasMoved(old(roundRobinIndex), visited, |streams|, roundRobinIndex)
    {
      var go;
      visited, go := VisitSpecial(fn);
      SizeOfElements(openStreams);
      if go {
        visited := VisitOthers(fn, visited);
      }
    }

    /** Streams 1 and 3, as far as they are open. */
    method VisitSpecial(fn: (seq<nat>, nat) -> bool) returns (visited: seq<nat>, go: bool)
      ensures Visits(fn, Special(streams), visited)
      ensures go <==> AllGoOn(fn, visited)
      ensures Others(visited) == []
    {
      visited, go := [], true;
      if 1 in streams {
        GoesOnOneMore(fn, visited, 1);
        OthersSnoc(visited, 1);
        go := fn(visited, 1);
        visited := visited + [1];
        if !go {
          return;
        }
      }
      if 3 in streams {
        GoesOnOneMore(fn, visited, 3);
        OthersSnoc(visited, 3);
        go := fn(visited, 3);
        visited := visited + [3];
      }
    }

    method VisitOthers(fn: (seq<nat>, nat) -> bool, before: seq<nat>) returns (visited: seq<nat>)
      requires OpenOk(View()) && AllGoOn(fn, before) && Others(before) == []
      modifies this`roundRobinIndex
      ensures
        var start := old(roundRobinIndex);
        IsDone(fn, before, Rotated(openStreams, start), visited, start, roundRobinIndex)
    {
      visited := before;
      SizeOfElements(openStreams);
      var numStreams, startIndex := |streams|, roundRobinIndex;
      ghost var rotated := Rotated(openStreams, startIndex);
      RoundStarts(fn, before, rotated, startIndex);
      for i := 0 to numStreams
        invariant Midway(fn, before, rotated, i, visited, startIndex, roundRobinIndex)
      {
        var streamID := openStreams[(i + startIndex) % numStreams];
        if streamID == 1 || streamID == 3 {
          PassOne(fn, before, rotated, i, visited, startIndex, roundRobinIndex);
          continue;
        }
        VisitOne(fn, before, rotated, i, visited, startIndex, roundRobinIndex);
        var go := fn(visited, streamID);
        roundRobinIndex := (roundRobinIndex + 1) % numStreams;
        if !go {
          return visited + [streamID];
        }
        visited := visited + [streamID];
      }
      RoundEnds(fn, before, rotated, visited, startIndex, roundRobinIndex);
    }
  }
}
