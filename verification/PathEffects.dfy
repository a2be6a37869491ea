/** What putting a stream on paths changes, path by path and stream by stream. */
module PathEffects {
  import opened Lists
  import opened Words
  import opened StreamPaths

  /** What `s'` holds of path `pid` if stream `sid` was put on it, or was not (`on`). A volume
      starts at zero. */
  predicate PathEffect(s: State, sid: nat, on: bool, pid: nat, s': State) {
    && Of(s'.streams, pid) == Of(s.streams, pid) + (if on then [sid] else [])
    && NumberOf(s', pid) == (if on && !IsSpecial(sid) then Uint64(NumberOf(s, pid) + 1) else NumberOf(s, pid))
    && (if on then pid in VolumesOf(s', sid) && VolumesOf(s', sid)[pid] == 0.0
        else && (pid in VolumesOf(s', sid) <==> pid in VolumesOf(s, sid))
             && (pid in VolumesOf(s, sid) ==> VolumesOf(s', sid)[pid] == VolumesOf(s, sid)[pid]))
  }

  /** Other streams are not concerned. */
  predicate OthersStay(s: State, sid: nat, other: nat, s': State) {
    other != sid ==> Of(s'.paths, other) == Of(s.paths, other) && VolumesOf(s', other) == VolumesOf(s, other)
  }

  lemma OneMoreOn(s: State, sid: nat, on: bool, pid: nat, s1: State, pid': nat)
    requires PathEffect(s, sid, on, pid, s1) && !(on && pid == pid')
    ensures PathEffect(s, sid, on || pid == pid', pid, AssignedOne(s1, sid, pid'))
  {
  }

  lemma OneMoreStays(s: State, sid: nat, other: nat, s1: State, pid: nat)
    requires OthersStay(s, sid, other, s1)
    ensures OthersStay(s, sid, other, AssignedOne(s1, sid, pid))
  {
  }

  lemma AssignStep(s: State, sid: nat, pids: seq<nat>, n: nat)
    requires |pids| == n + 1
    ensures Assigned(s, sid, pids) == AssignedOne(Assigned(s, sid, pids[..n]), sid, pids[n])
  {
  }

  lemma LastOnce(pids: seq<nat>, n: nat, pid: nat)
    requires NoDups(pids) && |pids| == n + 1
    ensures pid in pids <==> pid in pids[..n] || pid == pids[n]
    ensures NoDups(pids[..n]) && pids[n] !in pids[..n]
  {
    assert pids == pids[..n] + [pids[n]];
  }

  lemma {:induction false} AssignHasEffect(s: State, sid: nat, pids: seq<nat>, pid: nat, other: nat, s': State)
    requires NoDups(pids) && s' == Assigned(s, sid, pids)
    ensures PathEffect(s, sid, pid in pids, pid, s') && OthersStay(s, sid, other, s')
  {
    if pids != [] {
      var n := |pids| - 1;
      var s1 := Assigned(s, sid, pids[..n]);
      LastOnce(pids, n, pid);
      AssignHasEffect(s, sid, pids[..n], pid, other, s1);
      AssignStep(s, sid, pids, n);
      OneMoreOn(s, sid, pid in pids[..n], pid, s1, pids[n]);
      OneMoreStays(s, sid, other, s1, pids[n]);
    }
  }
}
