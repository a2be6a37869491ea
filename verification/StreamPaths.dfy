/** Which streams are sent on which paths. The answer is kept in four places: by stream, by
    path, in the volumes of the stream and in the number of streams of the path. */
module StreamPaths {
  import opened Lists
  import opened Words

  /** `paths` is indexed by stream, `streams` and `number` by path. A path has an entry in
      `volumes[sid]` when stream `sid` has a volume on it. */
  datatype State = State(
    paths: map<nat, seq<nat>>,
    streams: map<nat, seq<nat>>,
    volumes: map<nat, map<nat, real>>,
    number: map<nat, nat>)

  const EMPTY := State(map[], map[], map[], map[])

  /** The crypto stream and the header stream do not count. */
  predicate IsSpecial(sid: nat) {
    sid == 1 || sid == 3
  }

  function Of(m: map<nat, seq<nat>>, key: nat): seq<nat> {
    if key in m then m[key] else []
  }

  function VolumesOf(s: State, sid: nat): map<nat, real> {
    if sid in s.volumes then s.volumes[sid] else map[]
  }

  function NumberOf(s: State, pid: nat): nat {
    if pid in s.number then s.number[pid] else 0
  }

  /** The streams that count. */
  function Count(sids: seq<nat>): nat {
    if sids == [] then 0 else (if IsSpecial(sids[0]) then 0 else 1) + Count(sids[1..])
  }

  /** A path that the index lists for a stream has a volume there, and lists the stream. */
  predicate IsLinked(s: State, sid: nat, pid: nat) {
    && (pid in Of(s.paths, sid) <==> pid in VolumesOf(s, sid))
    && (pid in Of(s.paths, sid) ==> sid in Of(s.streams, pid))
  }

  ghost predicate StreamsOk(s: State) {
    && (forall sid | sid in s.paths :: s.paths[sid] != [] && NoDups(s.paths[sid]))
    && (forall sid, pid :: IsLinked(s, sid, pid))
  }

  predicate ListsOnly(s: State, pid: nat) {
    forall sid | sid in Of(s.streams, pid) :: pid in Of(s.paths, sid)
  }

  /** A path lists no other streams, each once, and its number counts them, less `lost`. */
  ghost predicate PathOk(s: State, pid: nat, lost: nat) {
    && NoDups(Of(s.streams, pid))
    && ListsOnly(s, pid)
    && NumberOf(s, pid) == Uint64(Count(Of(s.streams, pid)) - lost)
  }

  /** The four places agree. */
  ghost predicate Inv(s: State) {
    StreamsOk(s) && forall pid :: PathOk(s, pid, 0)
  }

  // ---------------------------------------------------------------------------
  // The index by stream
  // ---------------------------------------------------------------------------

  function Added(m: map<nat, seq<nat>>, sid: nat, pid: nat): map<nat, seq<nat>> {
    if pid in Of(m, sid) then m else m[sid := Of(m, sid) + [pid]]
  }

  function Filtered(ids: seq<nat>, id: nat): seq<nat> {
    if ids == [] then [] else (if ids[0] == id then [] else [ids[0]]) + Filtered(ids[1..], id)
  }

  function WithEntry(m: map<nat, seq<nat>>, sid: nat, pids: seq<nat>): map<nat, seq<nat>> {
    if pids == [] then m - {sid} else m[sid := pids]
  }

  lemma OneMoreOnce(x: nat, ids: seq<nat>)
    requires NoDups(ids) && x !in ids
    ensures NoDups([x] + ids)
  {
  }

  lemma {:induction false} FilteredIsRest(ids: seq<nat>, id: nat)
    requires NoDups(ids)
    ensures NoDups(Filtered(ids, id))
    ensures forall x :: x in Filtered(ids, id) <==> x in ids && x != id
  {
    if ids != [] {
      FilteredIsRest(ids[1..], id);
      assert ids[0] !in ids[1..];
      OneMoreOnce(ids[0], Filtered(ids[1..], id));
    }
  }

  /** The paths in `done` have been looked at; those that stay are the first `j` values. */
  ghost predicate Deleting(all: seq<nat>, pid: nat, done: seq<nat>, values: seq<nat>, j: nat) {
    j <= |values| && NoDups(all) && all == done + values[j..] && values[..j] == Filtered(done, pid)
  }

  lemma DeletingGoesOn(all: seq<nat>, pid: nat, done: seq<nat>, values: seq<nat>, j: nat)
    requires Deleting(all, pid, done, values, j) && j < |values|
    ensures
      var x := values[j];
      && x !in Filtered(done, pid)
      && Filtered(done + [x], pid) == (if x == pid then Filtered(done, pid) else Filtered(done, pid) + [x])
      && (if x == pid then Deleting(all, pid, done + [x], values[..j] + values[j + 1..], j)
          else Deleting(all, pid, done + [x], values, j + 1))
  {
    var x := values[j];
    FilteredSnoc(done, x, pid);
    assert values[j..] == [x] + values[j + 1..];
    assert all == done + [x] + values[j + 1..];
    assert forall i | 0 <= i < |done| :: done[i] == all[i] != all[|done|] == x;
    FilteredIsPart(done, pid);
    var cut := values[..j] + values[j + 1..];
    assert cut[..j] == values[..j] && cut[j..] == values[j + 1..];
    assert values[..j + 1] == values[..j] + [x];
  }

  lemma {:induction false} FilteredIsPart(ids: seq<nat>, id: nat)
    ensures forall x | x in Filtered(ids, id) :: x in ids
  {
    if ids != [] {
      FilteredIsPart(ids[1..], id);
    }
  }

  lemma DeletingEnds(all: seq<nat>, pid: nat, done: seq<nat>, values: seq<nat>)
    requires Deleting(all, pid, done, values, |values|)
    ensures done == all && values == Filtered(all, pid)
  {
    assert values[..|values|] == values && values[|values|..] == [] && done + [] == done;
  }

  lemma EntryGrows(rest: map<nat, seq<nat>>, sid: nat, pids: seq<nat>, pid: nat)
    requires sid !in rest && pid !in pids
    ensures Added(WithEntry(rest, sid, pids), sid, pid) == WithEntry(rest, sid, pids + [pid])
  {
    assert [] + [pid] == [pid];
  }

  lemma EntryAt(m: map<nat, seq<nat>>, sid: nat, pids: seq<nat>)
    ensures forall sid' :: Of(WithEntry(m, sid, pids), sid') == if sid' == sid then pids else Of(m, sid')
    ensures pids != [] && pids == Of(m, sid) ==> WithEntry(m, sid, pids) == m
  {
  }

  lemma SameEntry(m: map<nat, seq<nat>>, sid: nat, pids: seq<nat>)
    ensures WithEntry(m - {sid}, sid, pids) == WithEntry(m, sid, pids)
  {
  }

  class StreamToPath {
    var entries: map<nat, seq<nat>>

    constructor ()
      ensures entries == map[]
    {
      entries := map[];
    }

    method Find(sid: nat, pid: nat) returns (found: bool)
      ensures found <==> pid in Of(entries, sid)
    {
      var values := Of(entries, sid);
      for i := 0 to |values|
        invariant pid !in values[..i]
      {
        if values[i] == pid {
          return true;
        }
      }
      assert values[..|values|] == values;
      return false;
    }

    method Add(sid: nat, pid: nat)
      modifies this
      ensures entries == Added(old(entries), sid, pid)
    {
      if |Of(entries, sid)| == 0 {
        assert Of(entries, sid) + [pid] == [pid];
        entries := entries[sid := [pid]];
      } else {
        var dup := Find(sid, pid);
        if !dup {
          entries := entries[sid := entries[sid] + [pid]];
        }
      }
    }

    /** Deletes one path of a stream; the others keep their order. False if there is none. */
    method DeleteOne(sid: nat, pid: nat) returns (ok: bool)
      requires NoDups(Of(entries, sid))
      modifies this
      ensures Of(old(entries), sid) != [] ==>
        entries == WithEntry(old(entries), sid, Filtered(Of(old(entries), sid), pid))
      ensures Of(old(entries), sid) == [] ==> entries == old(entries)
      ensures ok <==> pid in Of(old(entries), sid)
    {
      var values := Of(entries, sid);
      if |values| == 0 {
        return false;
      }
      entries := entries - {sid};
      ok := AddAllBut(sid, values, pid);
      SameEntry(old(entries), sid, Filtered(values, pid));
    }

    /** Deletes `pid` from the list in place and adds the other paths back. */
    method AddAllBut(sid: nat, pids: seq<nat>, pid: nat) returns (ok: bool)
      requires sid !in entries && NoDups(pids)
      modifies this
      ensures entries == WithEntry(old(entries), sid, Filtered(pids, pid))
      ensures ok <==> pid in pids
    {
      ok := false;
      var values, j := pids, 0;
      ghost var done := [];
      while j < |values|
        invariant Deleting(pids, pid, done, values, j)
        invariant entries == WithEntry(old(entries), sid, Filtered(done, pid))
        invariant ok <==> pid in done
        decreases |values| - j
      {
        var x := values[j];
        DeletingGoesOn(pids, pid, done, values, j);
        if x == pid {
          values := values[..j] + values[j + 1..];
          ok := true;
        } else {
          EntryGrows(old(entries), sid, Filtered(done, pid), x);
          Add(sid, x);
          j := j + 1;
        }
        done := done + [x];
      }
      DeletingEnds(pids, pid, done, values);
    }

    method Delete(sid: nat) returns (ok: bool)
      modifies this
      ensures ok <==> Of(old(entries), sid) != []
      ensures entries == if ok then old(entries) - {sid} else old(entries)
    {
      if |Of(entries, sid)| == 0 {
        return false;
      }
      entries := entries - {sid};
      return true;
    }
  }

  lemma {:induction false} FilteredSnoc(ids: seq<nat>, x: nat, id: nat)
    ensures Filtered(ids + [x], id) == Filtered(ids, id) + if x == id then [] else [x]
  {
    if ids != [] {
      assert (ids + [x])[1..] == ids[1..] + [x];
      FilteredSnoc(ids[1..], x, id);
    }
  }

  // ---------------------------------------------------------------------------
  // Assigning a stream to paths
  // ---------------------------------------------------------------------------

  function AssignedOne(s: State, sid: nat, pid: nat): State {
    State(Added(s.paths, sid, pid),
          s.streams[pid := Of(s.streams, pid) + [sid]],
          s.volumes[sid := VolumesOf(s, sid)[pid := 0.0]],
          if IsSpecial(sid) then s.number else s.number[pid := Uint64(NumberOf(s, pid) + 1)])
  }

  function Assigned(s: State, sid: nat, pids: seq<nat>): State {
    if pids == [] then s
    else AssignedOne(Assigned(s, sid, pids[..|pids| - 1]), sid, pids[|pids| - 1])
  }

  lemma {:induction false} CountSnoc(sids: seq<nat>, sid: nat)
    ensures Count(sids + [sid]) == Count(sids) + if IsSpecial(sid) then 0 else 1
  {
    if sids == [] {
      assert sids + [sid] == [sid];
    } else {
      assert (sids + [sid])[1..] == sids[1..] + [sid];
      CountSnoc(sids[1..], sid);
    }
  }

  lemma AssignOneLinks(s: State, sid: nat, pid: nat, sid': nat, pid': nat)
    requires IsLinked(s, sid', pid') && IsLinked(s, sid, pid')
    ensures IsLinked(AssignedOne(s, sid, pid), sid', pid')
  {
  }

  lemma AssignOneKeepsStreams(s: State, sid: nat, pid: nat)
    requires StreamsOk(s)
    ensures StreamsOk(AssignedOne(s, sid, pid))
  {
    forall sid', pid'
      ensures IsLinked(AssignedOne(s, sid, pid), sid', pid')
    {
      AssignOneLinks(s, sid, pid, sid', pid');
    }
  }

  lemma AssignOneKeepsPath(s: State, sid: nat, pid: nat, pid': nat, lost: nat)
    requires PathOk(s, pid', lost) && pid !in Of(s.paths, sid)
    ensures PathOk(AssignedOne(s, sid, pid), pid', lost)
  {
    if pid' == pid {
      CountSnoc(Of(s.streams, pid), sid);
      assert sid !in Of(s.streams, pid);
    }
  }

  /** A stream that was on no path is then on the given ones, in this order. */
  lemma {:induction false} AssignKeepsStreams(s: State, sid: nat, pids: seq<nat>, r: State)
    requires StreamsOk(s) && sid !in s.paths && NoDups(pids) && r == Assigned(s, sid, pids)
    ensures StreamsOk(r) && Of(r.paths, sid) == pids
  {
    if pids != [] {
      var n := |pids| - 1;
      AssignKeepsStreams(s, sid, pids[..n], Assigned(s, sid, pids[..n]));
      AssignOneKeepsStreams(Assigned(s, sid, pids[..n]), sid, pids[n]);
      assert pids[n] !in pids[..n];
      assert pids == pids[..n] + [pids[n]];
    }
  }

  /** No path is harmed by this. */
  lemma {:induction false} AssignKeepsPath(s: State, sid: nat, pids: seq<nat>, r: State, pid: nat, lost: nat)
    requires StreamsOk(s) && sid !in s.paths && NoDups(pids) && r == Assigned(s, sid, pids)
    requires PathOk(s, pid, lost)
    ensures PathOk(r, pid, lost)
  {
    if pids != [] {
      var n := |pids| - 1;
      var most := Assigned(s, sid, pids[..n]);
      AssignKeepsStreams(s, sid, pids[..n], most);
      AssignKeepsPath(s, sid, pids[..n], most, pid, lost);
      assert pids[n] !in pids[..n];
      AssignOneKeepsPath(most, sid, pids[n], pid, lost);
    }
  }

  // ---------------------------------------------------------------------------
  // Forgetting a stream
  // ---------------------------------------------------------------------------

  function WithoutFirst(ids: seq<nat>, id: nat): seq<nat> {
    if ids == [] then [] else if ids[0] == id then ids[1..] else [ids[0]] + WithoutFirst(ids[1..], id)
  }

  lemma {:induction false} WithoutFirstKeepsOthers(ids: seq<nat>, id: nat, x: nat)
    requires x != id
    ensures x in WithoutFirst(ids, id) <==> x in ids
  {
    if ids != [] && ids[0] != id {
      WithoutFirstKeepsOthers(ids[1..], id, x);
    }
  }

  lemma {:induction false} WithoutFirstIsRest(ids: seq<nat>, id: nat)
    requires NoDups(ids)
    ensures NoDups(WithoutFirst(ids, id))
    ensures forall x :: x in WithoutFirst(ids, id) <==> x in ids && x != id
    ensures Count(WithoutFirst(ids, id)) == Count(ids) - if id in ids && !IsSpecial(id) then 1 else 0
  {
    if ids != [] {
      WithoutFirstIsRest(ids[1..], id);
      assert ids[0] !in ids[1..];
      if ids[0] != id {
        OneMoreOnce(ids[0], WithoutFirst(ids[1..], id));
        assert WithoutFirst(ids, id)[1..] == WithoutFirst(ids[1..], id);
      }
    }
  }

  function UnassignedOne(s: State, sid: nat, pid: nat): State {
    s.(streams := s.streams[pid := WithoutFirst(Of(s.streams, pid), sid)],
       number := s.number[pid := Uint64(NumberOf(s, pid) - 1)])
  }

  function Unassigned(s: State, sid: nat, pids: seq<nat>): State {
    if pids == [] then s
    else UnassignedOne(Unassigned(s, sid, pids[..|pids| - 1]), sid, pids[|pids| - 1])
  }

  function Forgotten(s: State, sid: nat): State {
    Unassigned(s.(paths := s.paths - {sid}, volumes := s.volumes - {sid}), sid, Of(s.paths, sid))
  }

  /** `s'` is `s` with the stream `sid` taken out of path `pid` if `on`. */
  predicate UnassignedOn(s: State, sid: nat, on: bool, pid: nat, s': State) {
    && s'.paths == s.paths && s'.volumes == s.volumes
    && Of(s'.streams, pid) == (if on then WithoutFirst(Of(s.streams, pid), sid) else Of(s.streams, pid))
    && NumberOf(s', pid) == (if on then Uint64(NumberOf(s, pid) - 1) else NumberOf(s, pid))
  }

  lemma UnassignOneMore(s: State, sid: nat, on: bool, pid: nat, s1: State, pid': nat)
    requires UnassignedOn(s, sid, on, pid, s1) && !(on && pid == pid')
    ensures UnassignedOn(s, sid, on || pid == pid', pid, UnassignedOne(s1, sid, pid'))
  {
  }

  lemma {:induction false} UnassignedAt(s: State, sid: nat, pids: seq<nat>, pid: nat, s': State)
    requires NoDups(pids) && s' == Unassigned(s, sid, pids)
    ensures UnassignedOn(s, sid, pid in pids, pid, s')
  {
    if pids != [] {
      var n := |pids| - 1;
      var s1 := Unassigned(s, sid, pids[..n]);
      UnassignedAt(s, sid, pids[..n], pid, s1);
      assert pids == pids[..n] + [pids[n]] && pids[n] !in pids[..n];
      UnassignOneMore(s, sid, pid in pids[..n], pid, s1, pids[n]);
    }
  }

  /** What is left of stream `sid`, and what of path `pid`. */
  lemma ForgottenAt(s: State, sid: nat, pid: nat)
    requires StreamsOk(s)
    ensures
      var s' := Forgotten(s, sid);
      var on := pid in Of(s.paths, sid);
      && s'.paths == s.paths - {sid} && s'.volumes == s.volumes - {sid}
      && Of(s'.streams, pid) == (if on then WithoutFirst(Of(s.streams, pid), sid) else Of(s.streams, pid))
      && NumberOf(s', pid) == (if on then Uint64(NumberOf(s, pid) - 1) else NumberOf(s, pid))
  {
    assert NoDups(Of(s.paths, sid));
    var s1 := s.(paths := s.paths - {sid}, volumes := s.volumes - {sid});
    UnassignedAt(s1, sid, Of(s.paths, sid), pid, Forgotten(s, sid));
  }

  lemma ForgetLinks(s: State, sid: nat, sid': nat, pid: nat)
    requires StreamsOk(s)
    ensures IsLinked(Forgotten(s, sid), sid', pid)
  {
    ForgottenAt(s, sid, pid);
    assert IsLinked(s, sid', pid);
    if sid' != sid {
      WithoutFirstKeepsOthers(Of(s.streams, pid), sid, sid');
    }
  }

  lemma ForgetKeepsStreams(s: State, sid: nat)
    requires StreamsOk(s)
    ensures StreamsOk(Forgotten(s, sid)) && sid !in Forgotten(s, sid).paths
  {
    ForgottenAt(s, sid, 0);
    forall sid', pid
      ensures IsLinked(Forgotten(s, sid), sid', pid)
    {
      ForgetLinks(s, sid, sid', pid);
    }
  }

  /** The number of a path drops for every stream that was on it, also for one that did not
      count, and such a one is lost. */
  lemma ForgetKeepsPath(s: State, sid: nat, pid: nat, lost: nat)
    requires StreamsOk(s) && PathOk(s, pid, lost)
    ensures PathOk(Forgotten(s, sid), pid, lost + if IsSpecial(sid) && pid in Of(s.paths, sid) then 1 else 0)
  {
    ForgottenAt(s, sid, pid);
    assert IsLinked(s, sid, pid);
    WithoutFirstIsRest(Of(s.streams, pid), sid);
  }

  /** A finished stream leaves no trace, unless it is one that does not count and was on a
      path: the path's number is then one too small, or huge. */
  lemma ForgetKeepsInv(s: State, sid: nat)
    requires Inv(s)
    ensures Inv(Forgotten(s, sid)) <==> !IsSpecial(sid) || sid !in s.paths
  {
    ForgetKeepsStreams(s, sid);
    if IsSpecial(sid) && sid in s.paths {
      var pid := s.paths[sid][0];
      assert PathOk(s, pid, 0);
      ForgetKeepsPath(s, sid, pid, 0);
      assert !PathOk(Forgotten(s, sid), pid, 0);
    } else {
      forall pid
        ensures PathOk(Forgotten(s, sid), pid, 0)
      {
        assert PathOk(s, pid, 0);
        ForgetKeepsPath(s, sid, pid, 0);
      }
    }
  }

  /** The header stream finishes on the only path: the path has no stream and its number is
      the largest there is. */
  lemma HeaderStreamExample()
    ensures
      var s := Assigned(EMPTY.(streams := map[0 := []]), 3, [0]);
      Of(Forgotten(s, 3).streams, 0) == [] && NumberOf(Forgotten(s, 3), 0) == TWO_64 - 1
  {
    var s0 := EMPTY.(streams := map[0 := []]);
    var s := Assigned(s0, 3, [0]);
    assert [0][..0] == [] && Assigned(s0, 3, []) == s0;
    assert s == AssignedOne(s0, 3, 0);
    assert Of(s.paths, 3) == [0] && Of(s.streams, 0) == [3];
    AssignKeepsStreams(s0, 3, [0], s);
    ForgottenAt(s, 3, 0);
  }

  // ---------------------------------------------------------------------------
  // Closing a path
  // ---------------------------------------------------------------------------

  function UnlinkedOne(s: State, pid: nat, sid: nat): (State, bool) {
    var s1 := s.(paths := WithEntry(s.paths, sid, Filtered(Of(s.paths, sid), pid)));
    if pid !in Of(s.paths, sid) then (s, false)
    else if pid !in VolumesOf(s, sid) then (s1, false)
    else (s1.(volumes := s.volumes[sid := s.volumes[sid] - {pid}]), true)
  }

  /** Takes the path from one stream after the other, until one does not have it. */
  function Unlinked(s: State, pid: nat, sids: seq<nat>): (State, bool) {
    if sids == [] then (s, true)
    else
      var (s1, ok) := Unlinked(s, pid, sids[..|sids| - 1]);
      if ok then UnlinkedOne(s1, pid, sids[|sids| - 1]) else (s1, false)
  }

  /** The path's own list is not changed. */
  function Closed(s: State, pid: nat): (State, bool) {
    var (s1, ok) := Unlinked(s, pid, Of(s.streams, pid));
    if ok then (s1.(number := s1.number - {pid}), true) else (s1, false)
  }

  lemma UnlinkOneKeepsStreams(s: State, pid: nat, sid: nat)
    requires StreamsOk(s) && pid in Of(s.paths, sid)
    ensures
      var (s', ok) := UnlinkedOne(s, pid, sid);
      && ok && StreamsOk(s') && s'.streams == s.streams && s'.number == s.number
      && Of(s'.paths, sid) == Filtered(Of(s.paths, sid), pid)
      && forall sid' | sid' != sid :: Of(s'.paths, sid') == Of(s.paths, sid')
  {
    var s' := UnlinkedOne(s, pid, sid).0;
    assert IsLinked(s, sid, pid) && NoDups(Of(s.paths, sid));
    FilteredIsRest(Of(s.paths, sid), pid);
    forall sid', pid'
      ensures IsLinked(s', sid', pid')
    {
      assert IsLinked(s, sid', pid');
    }
  }

  /** Streams in `sids` lose the path `pid` and nothing else changes. */
  ghost predicate TakenFrom(s: State, pid: nat, sids: seq<nat>, s': State) {
    && StreamsOk(s') && s'.streams == s.streams && s'.number == s.number
    && forall sid ::
         Of(s'.paths, sid) == if sid in sids then Filtered(Of(s.paths, sid), pid) else Of(s.paths, sid)
  }

  lemma TakenOneMore(s: State, pid: nat, sids: seq<nat>, n: nat, most: State)
    requires n < |sids| && NoDups(sids) && pid in Of(s.paths, sids[n])
    requires TakenFrom(s, pid, sids[..n], most)
    ensures
      var r := UnlinkedOne(most, pid, sids[n]);
      r.1 && TakenFrom(s, pid, sids[..n + 1], r.0)
  {
    assert sids[n] !in sids[..n];
    UnlinkOneKeepsStreams(most, pid, sids[n]);
    assert sids[..n + 1] == sids[..n] + [sids[n]];
  }

  lemma {:induction false} UnlinkTakes(s: State, pid: nat, sids: seq<nat>, n: nat, r: (State, bool))
    requires TakenFrom(s, pid, [], s) && NoDups(sids) && n <= |sids| && r == Unlinked(s, pid, sids[..n])
    requires forall i | 0 <= i < |sids| :: pid in Of(s.paths, sids[i])
    ensures r.1 && TakenFrom(s, pid, sids[..n], r.0)
  {
    if n == 0 {
      assert sids[..n] == [];
    } else {
      assert sids[..n][..n - 1] == sids[..n - 1];
      var most := Unlinked(s, pid, sids[..n - 1]);
      UnlinkTakes(s, pid, sids, n - 1, most);
      TakenOneMore(s, pid, sids, n - 1, most.0);
    }
  }

  lemma UnlinkTakesAll(s: State, pid: nat)
    requires StreamsOk(s) && NoDups(Of(s.streams, pid)) && ListsOnly(s, pid)
    ensures
      var (s', ok) := Unlinked(s, pid, Of(s.streams, pid));
      ok && TakenFrom(s, pid, Of(s.streams, pid), s')
  {
    var sids := Of(s.streams, pid);
    assert sids[..|sids|] == sids;
    UnlinkTakes(s, pid, sids, |sids|, Unlinked(s, pid, sids));
  }

  lemma StillOn(s: State, pid: nat, s': State, sids: seq<nat>, sid: nat, pid': nat)
    requires NoDups(Of(s.paths, sid)) && TakenFrom(s, pid, sids, s') && pid' != pid && pid' in Of(s.paths, sid)
    ensures pid' in Of(s'.paths, sid)
  {
    FilteredIsRest(Of(s.paths, sid), pid);
  }

  /** Closing a path that is in order never fails. No stream is then on the path, its number
      is gone and its own list is stale. */
  lemma CloseTakes(s: State, pid: nat, lost: nat)
    requires StreamsOk(s) && PathOk(s, pid, lost)
    ensures
      var (s', ok) := Closed(s, pid);
      && ok && StreamsOk(s') && NumberOf(s', pid) == 0 && s'.streams == s.streams
      && forall sid :: pid !in Of(s'.paths, sid) && pid !in VolumesOf(s', sid)
  {
    var r := Unlinked(s, pid, Of(s.streams, pid));
    UnlinkTakesAll(s, pid);
    var s' := Closed(s, pid).0;
    forall sid, pid'
      ensures IsLinked(s', sid, pid')
    {
      assert IsLinked(r.0, sid, pid');
    }
    forall sid
      ensures pid !in Of(s'.paths, sid) && pid !in VolumesOf(s', sid)
    {
      assert IsLinked(s, sid, pid) && IsLinked(s', sid, pid) && NoDups(Of(s.paths, sid));
      FilteredIsRest(Of(s.paths, sid), pid);
    }
  }

  /** The other paths are not harmed. */
  lemma CloseKeepsPath(s: State, pid: nat, lost: nat, pid': nat, lost': nat)
    requires StreamsOk(s) && PathOk(s, pid, lost) && PathOk(s, pid', lost') && pid' != pid
    ensures PathOk(Closed(s, pid).0, pid', lost')
  {
    var r := Unlinked(s, pid, Of(s.streams, pid));
    UnlinkTakesAll(s, pid);
    forall sid | sid in Of(s.streams, pid')
      ensures pid' in Of(r.0.paths, sid)
    {
      StillOn(s, pid, r.0, Of(s.streams, pid), sid, pid');
    }
  }

  /** The four places still agree exactly if the path had no stream. */
  lemma CloseKeepsInv(s: State, pid: nat)
    requires Inv(s)
    ensures Inv(Closed(s, pid).0) <==> Of(s.streams, pid) == []
  {
    var s' := Closed(s, pid).0;
    assert PathOk(s, pid, 0);
    CloseTakes(s, pid, 0);
    forall pid' | pid' != pid
      ensures PathOk(s', pid', 0)
    {
      assert PathOk(s, pid', 0);
      CloseKeepsPath(s, pid, 0, pid', 0);
    }
    if Of(s.streams, pid) != [] {
      assert Of(s'.streams, pid)[0] in Of(s'.streams, pid);
      assert !PathOk(s', pid, 0);
    } else {
      assert PathOk(s', pid, 0);
    }
  }

  /** Stream 5 was on path 0, which still lists it when closed. */
  lemma ClosedPathExample()
    ensures
      var s := AssignedOne(EMPTY.(streams := map[0 := []]), 5, 0);
      var (s', ok) := Closed(s, 0);
      ok && Of(s'.streams, 0) == [5] && Of(s'.paths, 5) == []
  {
    var s0 := EMPTY.(streams := map[0 := []]);
    var s := AssignedOne(s0, 5, 0);
    assert Of(s.paths, 5) == [0] && Of(s.streams, 0) == [5] && 0 in VolumesOf(s, 5);
    assert [5][..0] == [] && Unlinked(s, 0, []) == (s, true);
    assert Filtered([0], 0) == [];
  }

  // ---------------------------------------------------------------------------
  // Runs
  // ---------------------------------------------------------------------------

  datatype Step = OpenPath(pid: nat) | Assign(sid: nat, pids: seq<nat>) | Finish(sid: nat) | Close(pid: nat)

  /** `lost` says how many streams that do not count have finished on a path. */
  datatype System = System(s: State, closed: set<nat>, lost: map<nat, nat>)

  function LostOf(x: System, pid: nat): nat {
    if pid in x.lost then x.lost[pid] else 0
  }

  function WithLost(x: System, sid: nat): map<nat, nat> {
    map pid | pid in x.lost.Keys + Elements(Of(x.s.paths, sid)) ::
      LostOf(x, pid) + if IsSpecial(sid) && pid in Of(x.s.paths, sid) then 1 else 0
  }

  /** Streams are assigned when they are on no path, to different paths that may be closed. */
  ghost predicate Next(x: System, step: Step, x': System) {
    match step
    case OpenPath(pid) => pid !in x.s.streams && x' == x.(s := x.s.(streams := x.s.streams[pid := []]))
    case Assign(sid, pids) =>
      && sid !in x.s.paths && NoDups(pids) && (forall pid | pid in pids :: pid in x.s.streams)
      && x' == x.(s := Assigned(x.s, sid, pids))
    case Finish(sid) => x' == x.(s := Forgotten(x.s, sid), lost := WithLost(x, sid))
    case Close(pid) =>
      if pid !in x.s.streams || pid in x.closed then x' == x
      else x' == x.(s := Closed(x.s, pid).0, closed := x.closed + {pid})
  }

  ghost predicate IsRun(run: seq<System>, steps: seq<Step>) {
    && |run| == |steps| + 1
    && run[0] == System(EMPTY, {}, map[])
    && forall i | 0 <= i < |steps| :: Next(run[i], steps[i], run[i + 1])
  }

  ghost predicate SystemOk(x: System) {
    StreamsOk(x.s) && forall pid | pid !in x.closed :: PathOk(x.s, pid, LostOf(x, pid))
  }

  lemma OpenKeepsOk(x: System, pid: nat)
    requires SystemOk(x) && pid !in x.s.streams
    ensures SystemOk(x.(s := x.s.(streams := x.s.streams[pid := []])))
  {
    var s' := x.s.(streams := x.s.streams[pid := []]);
    forall sid, p
      ensures IsLinked(s', sid, p)
    {
      assert IsLinked(x.s, sid, p);
    }
    forall p | p !in x.closed
      ensures PathOk(s', p, LostOf(x, p))
    {
      assert PathOk(x.s, p, LostOf(x, p));
      assert Of(s'.streams, p) == Of(x.s.streams, p);
    }
  }

  lemma AssignKeepsOk(x: System, sid: nat, pids: seq<nat>)
    requires SystemOk(x) && sid !in x.s.paths && NoDups(pids)
    ensures SystemOk(x.(s := Assigned(x.s, sid, pids)))
  {
    var s' := Assigned(x.s, sid, pids);
    AssignKeepsStreams(x.s, sid, pids, s');
    forall pid | pid !in x.closed
      ensures PathOk(s', pid, LostOf(x, pid))
    {
      AssignKeepsPath(x.s, sid, pids, s', pid, LostOf(x, pid));
    }
  }

  lemma FinishKeepsOk(x: System, sid: nat)
    requires SystemOk(x)
    ensures SystemOk(x.(s := Forgotten(x.s, sid), lost := WithLost(x, sid)))
  {
    ForgetKeepsStreams(x.s, sid);
    forall pid | pid !in x.closed
      ensures PathOk(Forgotten(x.s, sid), pid, LostOf(x.(lost := WithLost(x, sid)), pid))
    {
      ForgetKeepsPath(x.s, sid, pid, LostOf(x, pid));
    }
  }

  lemma CloseKeepsOk(x: System, pid: nat)
    requires SystemOk(x) && pid !in x.closed
    ensures SystemOk(x.(s := Closed(x.s, pid).0, closed := x.closed + {pid}))
  {
    CloseTakes(x.s, pid, LostOf(x, pid));
    forall p | p !in x.closed + {pid}
      ensures PathOk(Closed(x.s, pid).0, p, LostOf(x, p))
    {
      CloseKeepsPath(x.s, pid, LostOf(x, pid), p, LostOf(x, p));
    }
  }

  lemma {:induction false} RunIsOk(run: seq<System>, steps: seq<Step>, i: nat)
    requires IsRun(run, steps) && i < |run|
    ensures SystemOk(run[i])
  {
    if i > 0 {
      RunIsOk(run, steps, i - 1);
      assert Next(run[i - 1], steps[i - 1], run[i]);
      match steps[i - 1]
      case OpenPath(pid) => OpenKeepsOk(run[i - 1], pid);
      case Assign(sid, pids) => AssignKeepsOk(run[i - 1], sid, pids);
      case Finish(sid) => FinishKeepsOk(run[i - 1], sid);
      case Close(pid) =>
        if pid in run[i - 1].s.streams && pid !in run[i - 1].closed {
          CloseKeepsOk(run[i - 1], pid);
        }
    }
  }

  /** In every run, a stream's list of paths and its volumes agree, and for a path that is not
      closed, its own list agrees with both. */
  lemma IndicesAgree(run: seq<System>, steps: seq<Step>, i: nat, sid: nat, pid: nat)
    requires IsRun(run, steps) && i < |run|
    ensures
      var x := run[i];
      && NoDups(Of(x.s.paths, sid))
      && (pid in Of(x.s.paths, sid) <==> pid in VolumesOf(x.s, sid))
      && (pid in Of(x.s.paths, sid) ==> sid in Of(x.s.streams, pid))
      && (pid !in x.closed ==>
            NoDups(Of(x.s.streams, pid)) && (pid in Of(x.s.paths, sid) <==> sid in Of(x.s.streams, pid)))
  {
    RunIsOk(run, steps, i);
    var x := run[i];
    assert IsLinked(x.s, sid, pid);
    if pid !in x.closed {
      assert PathOk(x.s, pid, LostOf(x, pid));
    }
  }

  lemma LossShows(n: nat, lost: nat)
    ensures Uint64(n - lost) == Uint64(n) <==> lost % TWO_64 == 0
  {
  }

  /** In every run, the number of a path that is not closed counts its streams exactly if no
      stream that does not count has finished on it, or 2^64 of them. */
  lemma NumbersAgree(run: seq<System>, steps: seq<Step>, i: nat, pid: nat)
    requires IsRun(run, steps) && i < |run| && pid !in run[i].closed
    ensures
      var x := run[i];
      NumberOf(x.s, pid) == Uint64(Count(Of(x.s.streams, pid))) <==> LostOf(x, pid) % TWO_64 == 0
  {
    RunIsOk(run, steps, i);
    var x := run[i];
    assert PathOk(x.s, pid, LostOf(x, pid));
    LossShows(Count(Of(x.s.streams, pid)), LostOf(x, pid));
  }

  /** In every run, closing a path succeeds, and takes it from all streams. */
  lemma ClosingSucceeds(run: seq<System>, steps: seq<Step>, i: nat, pid: nat)
    requires IsRun(run, steps) && i < |run| && pid !in run[i].closed
    ensures
      var (s', ok) := Closed(run[i].s, pid);
      && ok && s'.streams == run[i].s.streams && NumberOf(s', pid) == 0
      && forall sid :: pid !in Of(s'.paths, sid) && pid !in VolumesOf(s', sid)
  {
    RunIsOk(run, steps, i);
    CloseTakes(run[i].s, pid, LostOf(run[i], pid));
  }

  // ---------------------------------------------------------------------------
  // The program
  // ---------------------------------------------------------------------------

  /** The session's part in this: its index by stream, its paths' lists, its streams'
      volumes and the scheduler's numbers. */
  class Session {
    const streamToPath: StreamToPath
    var streamIDs: map<nat, seq<nat>>
    var pathVolume: map<nat, map<nat, real>>
    var numstreams: map<nat, nat>
    var closedPaths: set<nat>

    function View(): State
      reads this, streamToPath
    {
      State(streamToPath.entries, streamIDs, pathVolume, numstreams)
    }

    constructor ()
      ensures View() == EMPTY && closedPaths == {} && fresh(streamToPath)
    {
      streamToPath := new StreamToPath();
      streamIDs, pathVolume, numstreams, closedPaths := map[], map[], map[], {};
    }

    /** Assigns a stream that has no path yet to the selected ones. */
    method AssignPath(sid: nat, selected: seq<nat>)
      requires forall pid | pid in selected :: pid in streamIDs
      modifies this, streamToPath
      ensures View() == if sid in old(streamToPath.entries) then old(View()) else Assigned(old(View()), sid, selected)
    {
      if sid in streamToPath.entries {
        return;
      }
      for i := 0 to |selected|
        invariant View() == Assigned(old(View()), sid, selected[..i])
      {
        AssignOne(sid, selected[i]);
        assert selected[..i + 1][..i] == selected[..i];
      }
      assert selected[..|selected|] == selected;
    }

    method AssignOne(sid: nat, pid: nat)
      modifies this, streamToPath
      ensures View() == AssignedOne(old(View()), sid, pid)
    {
      streamToPath.Add(sid, pid);
      var volumes := if sid in pathVolume then pathVolume[sid] else map[];
      pathVolume := pathVolume[sid := volumes[pid := 0.0]];
      streamIDs := streamIDs[pid := Of(streamIDs, pid) + [sid]];
      if !IsSpecial(sid) {
        numstreams := numstreams[pid := Uint64((if pid in numstreams then numstreams[pid] else 0) + 1)];
      }
    }

    /** Forgets a stream that has finished. */
    method CollectStream(sid: nat)
      modifies this, streamToPath
      ensures (sid in old(streamToPath.entries) ==> old(streamToPath.entries)[sid] != []) ==>
        View() == Forgotten(old(View()), sid)
    {
      var pthIDs := Of(streamToPath.entries, sid);
      var _ := streamToPath.Delete(sid);
      assert sid !in old(streamToPath.entries) ==> streamToPath.entries == old(streamToPath.entries) - {sid};
      pathVolume := pathVolume - {sid};
      ghost var s := View();
      for j := 0 to |pthIDs|
        invariant View() == Unassigned(s, sid, pthIDs[..j])
      {
        var pid := pthIDs[j];
        var rest := RemoveFirst(Of(streamIDs, pid), sid);
        streamIDs := streamIDs[pid := rest];
        var number: int := if pid in numstreams then numstreams[pid] else 0;
        numstreams := numstreams[pid := Uint64(number - 1)];
        assert pthIDs[..j + 1][..j] == pthIDs[..j];
      }
      assert pthIDs[..|pthIDs|] == pthIDs;
    }

    /** Closes a path once. False if the path is unknown or a stream on it does not have it. */
    method ClosePath(pid: nat) returns (ok: bool)
      requires forall sid :: NoDups(Of(streamToPath.entries, sid))
      modifies this, streamToPath
      ensures pid !in old(streamIDs) || pid in old(closedPaths) ==>
        ok == (pid in old(streamIDs)) && View() == old(View()) && closedPaths == old(closedPaths)
      ensures pid in old(streamIDs) && pid !in old(closedPaths) ==>
        (View(), ok) == Closed(old(View()), pid) && closedPaths == old(closedPaths) + {pid}
    {
      if pid !in streamIDs {
        return false;
      }
      if pid in closedPaths {
        return true;
      }
      closedPaths := closedPaths + {pid};
      var sids := streamIDs[pid];
      for i := 0 to |sids|
        invariant forall sid :: NoDups(Of(streamToPath.entries, sid))
        invariant (View(), true) == Unlinked(old(View()), pid, sids[..i])
        invariant closedPaths == old(closedPaths) + {pid} && streamIDs == old(streamIDs)
      {
        ok := UnlinkOne(pid, sids[i]);
        UnlinkedPrefix(old(View()), pid, sids, i);
        if !ok {
          return;
        }
      }
      assert sids[..|sids|] == sids;
      numstreams := numstreams - {pid};
      return true;
    }

    method UnlinkOne(pid: nat, sid: nat) returns (ok: bool)
      requires forall sid :: NoDups(Of(streamToPath.entries, sid))
      modifies this`pathVolume, streamToPath
      ensures (View(), ok) == UnlinkedOne(old(View()), pid, sid)
      ensures forall sid :: NoDups(Of(streamToPath.entries, sid))
    {
      FilteredIsRest(Of(streamToPath.entries, sid), pid);
      FilteredOfOthers(Of(streamToPath.entries, sid), pid);
      EntryAt(streamToPath.entries, sid, Filtered(Of(streamToPath.entries, sid), pid));
      ok := streamToPath.DeleteOne(sid, pid);
      if !ok {
        return;
      }
      if sid !in pathVolume || pid !in pathVolume[sid] {
        return false;
      }
      pathVolume := pathVolume[sid := pathVolume[sid] - {pid}];
    }
  }

  /** A list without `id` is not changed. */
  lemma {:induction false} FilteredOfOthers(ids: seq<nat>, id: nat)
    ensures id !in ids ==> Filtered(ids, id) == ids
  {
    if ids != [] {
      FilteredOfOthers(ids[1..], id);
    }
  }

  /** An error ends the loop. */
  lemma {:induction false} UnlinkedPrefix(s: State, pid: nat, sids: seq<nat>, i: nat)
    requires i < |sids|
    ensures
      var (s1, ok) := Unlinked(s, pid, sids[..i]);
      var next := if ok then UnlinkedOne(s1, pid, sids[i]) else (s1, false);
      && Unlinked(s, pid, sids[..i + 1]) == next
      && (!next.1 ==> Unlinked(s, pid, sids) == next)
    decreases |sids| - i
  {
    assert sids[..i + 1][..i] == sids[..i];
    if i + 1 == |sids| {
      assert sids[..i + 1] == sids;
    } else {
      UnlinkedPrefix(s, pid, sids, i + 1);
    }
  }

  /** Cuts the first occurrence out of a list. */
  method RemoveFirst(ids: seq<nat>, id: nat) returns (rest: seq<nat>)
    ensures rest == WithoutFirst(ids, id)
  {
    for i := 0 to |ids|
      invariant id !in ids[..i]
      invariant WithoutFirst(ids, id) == ids[..i] + WithoutFirst(ids[i..], id)
    {
      assert ids[i..][1..] == ids[i + 1..];
      if ids[i] == id {
        return ids[..i] + ids[i + 1..];
      }
      assert ids[..i + 1] == ids[..i] + [ids[i]];
    }
    assert ids[..|ids|] == ids && ids[|ids|..] == [];
    return ids;
  }
}
