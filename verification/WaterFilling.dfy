/** The path scheduler's split of a stream over several paths. Bandwidths and one-way delays
    are real numbers; a path that carries volume v finishes at its delay plus v divided by its
    bandwidth. The paths come in ascending order of delay, as the library sort leaves them. */
module WaterFilling {
  datatype Path = Path(bdw: real, owd: real)

  ghost predicate PathsOk(paths: seq<Path>) {
    && (forall k | 0 <= k < |paths| :: paths[k].bdw > 0.0)
    && (forall j, k | 0 <= j <= k < |paths| :: paths[j].owd <= paths[k].owd)
  }

  function Sum(v: seq<real>): real {
    if v == [] then 0.0 else Sum(v[..|v| - 1]) + v[|v| - 1]
  }

  /** The bandwidth of the first `m` paths. */
  function Bandwidth(paths: seq<Path>, m: nat): real
    requires m <= |paths|
  {
    if m == 0 then 0.0 else Bandwidth(paths, m - 1) + paths[m - 1].bdw
  }

  /** What the first `m` paths carry until time `t`, if all their delays are over by then. */
  function Capacity(paths: seq<Path>, m: nat, t: real): real
    requires m <= |paths|
  {
    if m == 0 then 0.0 else Capacity(paths, m - 1, t) + paths[m - 1].bdw * (t - paths[m - 1].owd)
  }

  function Finish(p: Path, x: real): real
    requires p.bdw > 0.0
  {
    p.owd + x / p.bdw
  }

  /** `v` is a way to split `total`. */
  ghost predicate IsSplit(paths: seq<Path>, v: seq<real>, total: real) {
    && |v| == |paths|
    && (forall k | 0 <= k < |v| :: v[k] >= 0.0)
    && Sum(v) == total
  }

  /** Every path that carries something is done by time `t`. */
  ghost predicate FinishesBy(paths: seq<Path>, v: seq<real>, t: real)
    requires PathsOk(paths) && |v| == |paths|
  {
    forall k | 0 <= k < |v| && v[k] > 0.0 :: Finish(paths[k], v[k]) <= t
  }

  /** No other split of the same volume is done earlier. */
  ghost predicate Optimal(paths: seq<Path>, v: seq<real>)
    requires PathsOk(paths) && |v| == |paths|
  {
    forall w, t | IsSplit(paths, w, Sum(v)) && FinishesBy(paths, w, t) :: FinishesBy(paths, v, t)
  }

  /** The paths are filled up to the common finish time `t`; later ones are not used. */
  ghost predicate FilledTo(paths: seq<Path>, v: seq<real>, t: real) {
    && |v| == |paths|
    && forall k | 0 <= k < |v| :: v[k] == Load(paths[k], t)
  }

  /** What a path carries if it finishes at `t`, or nothing if its delay is not over by then. */
  function Load(p: Path, t: real): real {
    if p.owd < t then p.bdw * (t - p.owd) else 0.0
  }

  // ---------------------------------------------------------------------------
  // A common finish time is optimal
  // ---------------------------------------------------------------------------

  lemma {:induction false} SumCompare(a: seq<real>, b: seq<real>)
    requires |a| == |b| && forall k | 0 <= k < |a| :: a[k] <= b[k]
    ensures Sum(a) <= Sum(b)
    ensures (exists k | 0 <= k < |a| :: a[k] < b[k]) ==> Sum(a) < Sum(b)
  {
    if a != [] {
      SumCompare(a[..|a| - 1], b[..|b| - 1]);
      if k :| 0 <= k < |a| && a[k] < b[k] {
        if k < |a| - 1 {
          assert a[..|a| - 1][k] < b[..|b| - 1][k];
        }
      }
    }
  }

  lemma MulDiv(x: real, b: real)
    requires b > 0.0
    ensures b * (x / b) == x && (x / b) * b == x && b * x / b == x
  {
  }

  lemma MulLe(b: real, x: real, y: real)
    requires b > 0.0
    ensures x <= y <==> b * x <= b * y
  {
  }

  lemma FinishIsLevel(p: Path, t: real)
    requires p.bdw > 0.0
    ensures Finish(p, p.bdw * (t - p.owd)) == t
  {
    MulDiv(t - p.owd, p.bdw);
  }

  /** A path that is done by `t` carries no more than it can until `t`. */
  lemma FinishLimits(p: Path, x: real, t: real)
    requires p.bdw > 0.0
    ensures Finish(p, x) <= t <==> x <= p.bdw * (t - p.owd)
  {
    MulDiv(x, p.bdw);
    MulLe(p.bdw, x / p.bdw, t - p.owd);
  }

  lemma FilledFinishes(paths: seq<Path>, v: seq<real>, t: real, k: nat)
    requires PathsOk(paths) && FilledTo(paths, v, t) && k < |v|
    ensures v[k] > 0.0 <==> paths[k].owd < t
    ensures v[k] > 0.0 ==> Finish(paths[k], v[k]) == t
    ensures v[k] >= 0.0
  {
    FinishIsLevel(paths[k], t);
    if paths[k].owd < t {
      MulLe(paths[k].bdw, 0.0, t - paths[k].owd);
      assert paths[k].bdw * (t - paths[k].owd) > 0.0;
    }
  }

  /** Filling the paths to a common finish time is optimal. */
  lemma FilledIsOptimal(paths: seq<Path>, v: seq<real>, t: real)
    requires PathsOk(paths) && FilledTo(paths, v, t)
    ensures Optimal(paths, v)
  {
    forall w, u | IsSplit(paths, w, Sum(v)) && FinishesBy(paths, w, u)
      ensures FinishesBy(paths, v, u)
    {
      if !FinishesBy(paths, v, u) {
        EarlierCarriesLess(paths, v, t, w, u);
      }
    }
  }

  lemma PathCarriesLess(p: Path, x: real, t: real, y: real, u: real)
    requires p.bdw > 0.0 && u < t
    requires x == Load(p, t)
    requires y > 0.0 ==> Finish(p, y) <= u
    ensures y <= x && (x > 0.0 ==> y < x)
  {
    if p.owd < t {
      MulPos(p.bdw, t - p.owd);
    }
    if y > 0.0 {
      FinishLimits(p, y, u);
      MulLe(p.bdw, t - p.owd, u - p.owd);
      MulLe(p.bdw, u - p.owd, 0.0);
    }
  }

  lemma MulNonNeg(b: real, x: real)
    requires b >= 0.0 && x >= 0.0
    ensures b * x >= 0.0
  {
  }

  lemma MulPos(b: real, x: real)
    requires b > 0.0 && x > 0.0
    ensures b * x > 0.0
  {
  }

  lemma AllCarryLess(paths: seq<Path>, v: seq<real>, t: real, w: seq<real>, u: real)
    requires PathsOk(paths) && FilledTo(paths, v, t) && u < t
    requires |w| == |paths| && FinishesBy(paths, w, u)
    ensures forall k | 0 <= k < |v| :: w[k] <= v[k] && (v[k] > 0.0 ==> w[k] < v[k])
  {
    forall k | 0 <= k < |v|
      ensures w[k] <= v[k] && (v[k] > 0.0 ==> w[k] < v[k])
    {
      PathCarriesLess(paths[k], v[k], t, w[k], u);
    }
  }

  lemma EarlierCarriesLess(paths: seq<Path>, v: seq<real>, t: real, w: seq<real>, u: real)
    requires PathsOk(paths) && FilledTo(paths, v, t)
    requires |w| == |paths| && FinishesBy(paths, w, u) && !FinishesBy(paths, v, u)
    ensures Sum(w) < Sum(v)
  {
    var j :| 0 <= j < |v| && v[j] > 0.0 && Finish(paths[j], v[j]) > u;
    FilledFinishes(paths, v, t, j);
    AllCarryLess(paths, v, t, w, u);
    SumCompare(w, v);
  }

  // ---------------------------------------------------------------------------
  // The algorithm's stages
  // ---------------------------------------------------------------------------

  /** `w` is `v` with each of the first `m` paths working for the time `d` longer. */
  ghost predicate IsLonger(paths: seq<Path>, v: seq<real>, m: nat, d: real, w: seq<real>) {
    && |w| == |v| == |paths|
    && forall k | 0 <= k < |w| :: w[k] == if k < m then v[k] + d * paths[k].bdw else v[k]
  }

  /** How much the first `m` paths carry in time `d`. */
  function Carried(paths: seq<Path>, m: nat, d: real): real
    requires m <= |paths|
  {
    d * Bandwidth(paths, m)
  }

  lemma CarriedGrows(paths: seq<Path>, m: nat, d: real)
    requires 0 < m <= |paths|
    ensures Carried(paths, m, d) == Carried(paths, m - 1, d) + d * paths[m - 1].bdw
  {
    Distribute(d, Bandwidth(paths, m - 1), paths[m - 1].bdw);
  }

  lemma {:induction false} LongerAddsUp(paths: seq<Path>, v: seq<real>, m: nat, d: real, w: seq<real>, j: nat)
    requires IsLonger(paths, v, m, d, w) && m <= |v| && j <= |v|
    ensures j <= m ==> Sum(w[..j]) == Sum(v[..j]) + Carried(paths, j, d)
    ensures m <= j ==> Sum(w[..j]) == Sum(v[..j]) + Carried(paths, m, d)
  {
    if j > 0 {
      LongerAddsUp(paths, v, m, d, w, j - 1);
      assert w[..j][..j - 1] == w[..j - 1];
      assert v[..j][..j - 1] == v[..j - 1];
      if j <= m {
        CarriedGrows(paths, j, d);
      }
    }
  }

  lemma LongerSum(paths: seq<Path>, v: seq<real>, m: nat, d: real, w: seq<real>)
    requires IsLonger(paths, v, m, d, w) && m <= |v|
    ensures Sum(w) == Sum(v) + Carried(paths, m, d)
  {
    LongerAddsUp(paths, v, m, d, w, |v|);
    SumOfAll(w);
    SumOfAll(v);
  }

  lemma SumOfAll(v: seq<real>)
    ensures Sum(v[..|v|]) == Sum(v)
  {
    assert v[..|v|] == v;
  }

  lemma Distribute(d: real, a: real, b: real)
    ensures d * (a + b) == d * a + d * b
  {
  }

  lemma Commutes(a: real, b: real)
    ensures a * b == b * a
  {
  }

  lemma {:induction false} BandwidthIsPositive(paths: seq<Path>, m: nat)
    requires PathsOk(paths) && m <= |paths|
    ensures Bandwidth(paths, m) >= 0.0 && (m > 0 ==> Bandwidth(paths, m) > 0.0)
  {
    if m > 0 {
      BandwidthIsPositive(paths, m - 1);
    }
  }

  /** The first `i + 1` paths would all finish at the delay of path `i`; the others are unused. */
  ghost predicate IsStage(paths: seq<Path>, i: nat, v: seq<real>)
    requires i < |paths|
  {
    && |v| == |paths|
    && forall k | 0 <= k < |v| :: v[k] == if k <= i then paths[k].bdw * (paths[i].owd - paths[k].owd) else 0.0
  }

  /** The volume that stage `i` takes. */
  function StageVolume(paths: seq<Path>, i: nat): real
    requires i < |paths|
  {
    Capacity(paths, i + 1, paths[i].owd)
  }

  /** One stage follows from the one before: the first paths work through the gap. */
  lemma NextStage(paths: seq<Path>, i: nat, v: seq<real>, w: seq<real>)
    requires i + 1 < |paths| && IsStage(paths, i, v)
    requires IsLonger(paths, v, i + 1, paths[i + 1].owd - paths[i].owd, w)
    ensures IsStage(paths, i + 1, w)
  {
    var d := paths[i + 1].owd - paths[i].owd;
    forall k | 0 <= k < |w|
      ensures w[k] == if k <= i + 1 then paths[k].bdw * (paths[i + 1].owd - paths[k].owd) else 0.0
    {
      Distribute(paths[k].bdw, paths[i].owd - paths[k].owd, d);
      Commutes(d, paths[k].bdw);
      assert paths[i].owd - paths[k].owd + d == paths[i + 1].owd - paths[k].owd;
      assert paths[i + 1].bdw * 0.0 == 0.0;
    }
  }

  lemma {:induction false} CapacityGrows(paths: seq<Path>, m: nat, t: real, d: real)
    requires m <= |paths|
    ensures Capacity(paths, m, t + d) == Capacity(paths, m, t) + d * Bandwidth(paths, m)
  {
    if m > 0 {
      CapacityGrows(paths, m - 1, t, d);
      var p := paths[m - 1];
      Distribute(p.bdw, t - p.owd, d);
      assert t - p.owd + d == t + d - p.owd;
      Commutes(d, p.bdw);
      Distribute(d, Bandwidth(paths, m - 1), p.bdw);
    }
  }

  lemma StageVolumeGrows(paths: seq<Path>, i: nat)
    requires i + 1 < |paths|
    ensures StageVolume(paths, i + 1)
            == StageVolume(paths, i) + Carried(paths, i + 1, paths[i + 1].owd - paths[i].owd)
  {
    CapacityGrows(paths, i + 1, paths[i].owd, paths[i + 1].owd - paths[i].owd);
    assert paths[i].owd + (paths[i + 1].owd - paths[i].owd) == paths[i + 1].owd;
    assert paths[i + 1].bdw * 0.0 == 0.0;
  }

  lemma NextStageTakesMore(paths: seq<Path>, i: nat)
    requires PathsOk(paths) && i + 1 < |paths|
    ensures StageVolume(paths, i) <= StageVolume(paths, i + 1)
  {
    StageVolumeGrows(paths, i);
    BandwidthIsPositive(paths, i + 1);
    MulLe(Bandwidth(paths, i + 1), 0.0, paths[i + 1].owd - paths[i].owd);
    Commutes(paths[i + 1].owd - paths[i].owd, Bandwidth(paths, i + 1));
  }

  /** The stage at which the walk over the paths stops: the first that is followed by an equal
      delay, or the last. */
  function LastStage(paths: seq<Path>, i: nat): (t: nat)
    requires i < |paths|
    ensures i <= t < |paths|
    decreases |paths| - i
  {
    if i + 1 == |paths| || paths[i].owd == paths[i + 1].owd then i else LastStage(paths, i + 1)
  }

  lemma {:induction false} LaterStagesTakeMore(paths: seq<Path>, i: nat)
    requires PathsOk(paths) && i < |paths|
    ensures StageVolume(paths, i) <= StageVolume(paths, LastStage(paths, i))
    decreases |paths| - i
  {
    if i + 1 < |paths| && paths[i].owd != paths[i + 1].owd {
      NextStageTakesMore(paths, i);
      LaterStagesTakeMore(paths, i + 1);
    }
  }

  /** Volume is left when the walk stops at two equal delays, although there are paths with
      larger ones. */
  ghost predicate SpillsOver(paths: seq<Path>, volume: real)
    requires paths != []
  {
    var t := LastStage(paths, 0);
    paths[t].owd < paths[|paths| - 1].owd && StageVolume(paths, t) < volume
  }

  /** Working for `d` longer after stage `i`, but not beyond the next delay, fills the paths to
      a common finish time. */
  lemma StageIsFilled(paths: seq<Path>, i: nat, v: seq<real>, m: nat, d: real, w: seq<real>)
    requires PathsOk(paths) && i < |paths| && IsStage(paths, i, v) && d >= 0.0
    requires IsLonger(paths, v, m, d, w) && i < m <= |paths|
    requires forall k | i < k < m :: paths[k].owd == paths[i].owd
    requires forall k | m <= k < |paths| :: paths[i].owd + d <= paths[k].owd
    ensures FilledTo(paths, w, paths[i].owd + d)
  {
    var t := paths[i].owd + d;
    forall k | 0 <= k < |w|
      ensures w[k] == Load(paths[k], t)
    {
      var p := paths[k];
      if k < m {
        Distribute(p.bdw, paths[i].owd - p.owd, d);
        Commutes(d, p.bdw);
        assert paths[i].owd - p.owd + d == t - p.owd;
        assert k > i ==> paths[i].owd - p.owd == 0.0;
        assert p.bdw * 0.0 == 0.0;
      }
    }
  }

  // ---------------------------------------------------------------------------
  // Spilling over is not optimal
  // ---------------------------------------------------------------------------

  lemma {:induction false} SumUpdate(v: seq<real>, k: nat, x: real)
    requires k < |v|
    ensures Sum(v[k := x]) == Sum(v) - v[k] + x
  {
    if k < |v| - 1 {
      SumUpdate(v[..|v| - 1], k, x);
      assert v[k := x][..|v| - 1] == v[..|v| - 1][k := x];
    } else {
      assert v[k := x][..|v| - 1] == v[..|v| - 1];
    }
  }

  /** A time `eps`, at most `d`, small enough that a path of bandwidth `b` can take over the load
      `eps * r` and still gain `eps` on the gap. */
  lemma SmallShift(gap: real, r: real, b: real, d: real) returns (eps: real)
    requires gap > 0.0 && r >= 0.0 && b > 0.0 && d > 0.0
    ensures 0.0 < eps <= d
    ensures eps * r <= b * (gap - eps)
  {
    var q := gap * b / (b + r);
    MulDiv(gap * b, b + r);
    assert q * (b + r) == gap * b;
    MulPos(gap, b);
    assert q > 0.0;
    eps := if q <= d then q else d;
    MulLe(b + r, eps, q);
    Distribute(eps, b, r);
    Distribute(b, gap - eps, eps);
  }

  /** How long path `k` has worked when stage `t` is reached. */
  function StageTime(paths: seq<Path>, t: nat, k: nat): real
    requires t < |paths| && k < |paths|
  {
    if k <= t then paths[t].owd - paths[k].owd else 0.0
  }

  /** The split that results when volume is left at stage `t` and all paths share it. */
  ghost predicate IsSpilled(paths: seq<Path>, t: nat, d: real, w: seq<real>)
    requires t < |paths|
  {
    && |w| == |paths|
    && forall k | 0 <= k < |w| :: w[k] == paths[k].bdw * (StageTime(paths, t, k) + d)
  }

  /** `w` is `v` with the paths from `m` on working for the time `eps` less. */
  ghost predicate IsShorter(paths: seq<Path>, v: seq<real>, m: nat, eps: real, w: seq<real>) {
    && |w| == |v| == |paths|
    && forall k | 0 <= k < |w| :: w[k] == if k < m then v[k] else v[k] - eps * paths[k].bdw
  }

  lemma {:induction false} ShorterAddsUp(paths: seq<Path>, v: seq<real>, m: nat, eps: real, w: seq<real>, j: nat)
    requires IsShorter(paths, v, m, eps, w) && m <= |v| && j <= |v|
    ensures j <= m ==> Sum(w[..j]) == Sum(v[..j])
    ensures m <= j ==> Sum(w[..j]) == Sum(v[..j]) - (Carried(paths, j, eps) - Carried(paths, m, eps))
  {
    if j > 0 {
      ShorterAddsUp(paths, v, m, eps, w, j - 1);
      assert w[..j][..j - 1] == w[..j - 1];
      assert v[..j][..j - 1] == v[..j - 1];
      if j > m {
        CarriedGrows(paths, j, eps);
      }
    }
  }

  lemma ShorterSum(paths: seq<Path>, v: seq<real>, m: nat, eps: real, w: seq<real>)
    requires IsShorter(paths, v, m, eps, w) && m <= |v|
    ensures Sum(w) == Sum(v) - (Carried(paths, |v|, eps) - Carried(paths, m, eps))
  {
    ShorterAddsUp(paths, v, m, eps, w, |v|);
    SumOfAll(w);
    SumOfAll(v);
  }

  lemma MoveBack(shorter: seq<real>, total: real, moved: real)
    requires shorter != [] && Sum(shorter) == total - moved
    ensures Sum(shorter[0 := shorter[0] + moved]) == total
  {
    SumUpdate(shorter, 0, shorter[0] + moved);
  }

  /** A path behind `t` that works `eps` less is done `eps` earlier. */
  lemma TailIsEarlier(p: Path, d: real, eps: real, end: real, x: real)
    requires p.bdw > 0.0 && 0.0 <= eps <= d && p.owd + d - eps <= end
    requires x == p.bdw * (0.0 + d) - eps * p.bdw
    ensures x >= 0.0 && Finish(p, x) <= end
  {
    Commutes(eps, p.bdw);
    Distribute(p.bdw, d, -eps);
    assert x == p.bdw * (d - eps);
    MulNonNeg(p.bdw, d - eps);
    MulLe(p.bdw, d - eps, end - p.owd);
    FinishLimits(p, x, end);
  }

  /** A path up to `t` has room for what fits into the rest of the gap. */
  lemma HeadIsEarlier(p: Path, worked: real, room: real, end: real, moved: real, x: real)
    requires p.bdw > 0.0 && worked >= 0.0 && 0.0 <= moved <= p.bdw * room
    requires p.owd + worked + room == end
    requires x == p.bdw * worked + moved
    ensures x >= 0.0 && Finish(p, x) <= end
  {
    Distribute(p.bdw, worked, room);
    assert worked + room == end - p.owd;
    MulNonNeg(p.bdw, worked);
    FinishLimits(p, x, end);
  }

  /** The load of path `k` in the shifted split. */
  function ShiftedLoad(paths: seq<Path>, t: nat, d: real, eps: real, moved: real, k: nat): real
    requires t < |paths| && k < |paths|
  {
    if k == 0 then paths[0].bdw * (StageTime(paths, t, 0) + d) + moved
    else if k <= t then paths[k].bdw * (StageTime(paths, t, k) + d)
    else paths[k].bdw * (0.0 + d) - eps * paths[k].bdw
  }

  lemma ShiftedFinishes(paths: seq<Path>, t: nat, d: real, eps: real, moved: real, room: real, k: nat, x: real)
    requires PathsOk(paths) && t < |paths| && k < |paths|
    requires 0.0 <= eps <= d && 0.0 <= room == paths[|paths| - 1].owd - paths[t].owd - eps
    requires 0.0 <= moved <= paths[0].bdw * room
    requires x == ShiftedLoad(paths, t, d, eps, moved, k)
    ensures x >= 0.0 && Finish(paths[k], x) <= paths[|paths| - 1].owd + d - eps
  {
    var p, end := paths[k], paths[|paths| - 1].owd + d - eps;
    if k > t {
      assert p.owd <= paths[|paths| - 1].owd;
      TailIsEarlier(p, d, eps, end, x);
    } else if k == 0 {
      HeadIsEarlier(p, StageTime(paths, t, 0) + d, room, end, moved, x);
    } else {
      MulNonNeg(p.bdw, room);
      HeadIsEarlier(p, StageTime(paths, t, k) + d, room, end, 0.0, x);
    }
  }

  ghost predicate IsShifted(paths: seq<Path>, t: nat, d: real, eps: real, moved: real, u: seq<real>)
    requires t < |paths|
  {
    |u| == |paths| && forall k | 0 <= k < |u| :: u[k] == ShiftedLoad(paths, t, d, eps, moved, k)
  }

  lemma ShiftKeepsSum(paths: seq<Path>, t: nat, d: real, w: seq<real>, eps: real, moved: real) returns (u: seq<real>)
    requires t < |paths| && IsSpilled(paths, t, d, w)
    requires moved == Carried(paths, |paths|, eps) - Carried(paths, t + 1, eps)
    ensures IsShifted(paths, t, d, eps, moved, u) && Sum(u) == Sum(w)
  {
    var n := |paths|;
    var shorter := seq(n, k requires 0 <= k < n => if k < t + 1 then w[k] else w[k] - eps * paths[k].bdw);
    ShorterSum(paths, w, t + 1, eps, shorter);
    MoveBack(shorter, Sum(w), moved);
    u := shorter[0 := shorter[0] + moved];
  }

  lemma MovedLoad(paths: seq<Path>, m: nat, eps: real)
    requires PathsOk(paths) && m <= |paths| && eps >= 0.0
    ensures Bandwidth(paths, m) <= Bandwidth(paths, |paths|)
    ensures Carried(paths, |paths|, eps) - Carried(paths, m, eps)
            == eps * (Bandwidth(paths, |paths|) - Bandwidth(paths, m)) >= 0.0
  {
    BandwidthGrows(paths, m, |paths|);
    MinusDistributes(eps, Bandwidth(paths, |paths|), Bandwidth(paths, m));
    MulNonNeg(eps, Bandwidth(paths, |paths|) - Bandwidth(paths, m));
  }

  lemma MinusDistributes(a: real, b: real, c: real)
    ensures a * (b - c) == a * b - a * c
  {
  }

  lemma {:induction false} BandwidthGrows(paths: seq<Path>, m: nat, n: nat)
    requires PathsOk(paths) && m <= n <= |paths|
    ensures Bandwidth(paths, m) <= Bandwidth(paths, n)
    decreases n - m
  {
    if m < n {
      BandwidthGrows(paths, m, n - 1);
    }
  }

  lemma ShiftedIsBetter(paths: seq<Path>, t: nat, d: real, eps: real, moved: real, room: real, u: seq<real>)
    requires PathsOk(paths) && t < |paths|
    requires 0.0 <= eps <= d && 0.0 <= room == paths[|paths| - 1].owd - paths[t].owd - eps
    requires 0.0 <= moved <= paths[0].bdw * room
    requires IsShifted(paths, t, d, eps, moved, u)
    ensures IsSplit(paths, u, Sum(u)) && FinishesBy(paths, u, paths[|paths| - 1].owd + d - eps)
  {
    forall k | 0 <= k < |u|
      ensures u[k] >= 0.0 && Finish(paths[k], u[k]) <= paths[|paths| - 1].owd + d - eps
    {
      ShiftedFinishes(paths, t, d, eps, moved, room, k, u[k]);
    }
  }

  lemma SpilledIsLate(paths: seq<Path>, t: nat, d: real, w: seq<real>, end: real)
    requires PathsOk(paths) && t + 1 < |paths| && d > 0.0 && IsSpilled(paths, t, d, w)
    requires end < paths[|paths| - 1].owd + d
    ensures !FinishesBy(paths, w, end)
  {
    var k := |paths| - 1;
    var p := paths[k];
    MulPos(p.bdw, d);
    assert w[k] == p.bdw * (0.0 + d);
    MulLe(p.bdw, d, end - p.owd);
    FinishLimits(p, w[k], end);
    assert w[k] > 0.0 && Finish(paths[k], w[k]) > end;
  }

  /** Sharing what is left with paths of larger delay is not optimal. */
  lemma SpilledIsNotOptimal(paths: seq<Path>, t: nat, d: real, w: seq<real>)
    requires PathsOk(paths) && t < |paths| && d > 0.0 && IsSpilled(paths, t, d, w)
    requires paths[t].owd < paths[|paths| - 1].owd
    ensures !Optimal(paths, w)
  {
    var gap := paths[|paths| - 1].owd - paths[t].owd;
    MovedLoad(paths, t + 1, 0.0);
    var eps := SmallShift(gap, Bandwidth(paths, |paths|) - Bandwidth(paths, t + 1), paths[0].bdw, d);
    MovedLoad(paths, t + 1, eps);
    var moved := Carried(paths, |paths|, eps) - Carried(paths, t + 1, eps);
    MulLe(paths[0].bdw, gap - eps, 0.0);
    var u := ShiftKeepsSum(paths, t, d, w, eps, moved);
    ShiftedIsBetter(paths, t, d, eps, moved, gap - eps, u);
    SpilledIsLate(paths, t, d, w, paths[|paths| - 1].owd + d - eps);
  }

  // ---------------------------------------------------------------------------
  // The algorithm
  // ---------------------------------------------------------------------------

  /** The bandwidth of the paths up to `i`, summed from the last to the first. */
  method BandwidthUpTo(paths: seq<Path>, i: nat) returns (sum: real)
    requires i < |paths|
    ensures sum == Bandwidth(paths, i + 1)
  {
    sum := 0.0;
    var k: int := i;
    while k >= 0
      invariant -1 <= k <= i
      invariant sum + Bandwidth(paths, k + 1) == Bandwidth(paths, i + 1)
    {
      sum := sum + paths[k].bdw;
      k := k - 1;
    }
  }

  lemma {:induction false} CarriedIsMonotone(paths: seq<Path>, m: nat, n: nat, d: real)
    requires PathsOk(paths) && m <= n <= |paths| && d >= 0.0
    ensures Carried(paths, m, d) <= Carried(paths, n, d)
  {
    BandwidthGrows(paths, m, n);
  }

  lemma ProportionalStep(volume: real, b: real, sum: real)
    requires sum > 0.0
    ensures volume * b / sum == (volume / sum) * b
  {
    MulDiv(volume, sum);
    MulDiv(volume / sum * b, sum);
    assert volume * b == (volume / sum * b) * sum;
    MulDiv(volume * b, sum);
  }

  /** The paths above `k`, of the first `m`, have worked for the time `d`. */
  ghost predicate LongerAbove(paths: seq<Path>, v: seq<real>, k: int, m: nat, d: real, w: seq<real>) {
    && |w| == |v| == |paths|
    && forall j | 0 <= j < |w| :: w[j] == if k < j < m then v[j] + d * paths[j].bdw else v[j]
  }

  lemma OneMoreAbove(paths: seq<Path>, v: seq<real>, k: nat, m: nat, d: real, w: seq<real>, step: real)
    requires k < m <= |paths| && LongerAbove(paths, v, k, m, d, w) && step == d * paths[k].bdw
    ensures LongerAbove(paths, v, k - 1, m, d, w[k := w[k] + step])
  {
  }

  /** The paths from `k` on, of the first `m`, have got their shares. */
  ghost predicate Sharing(paths: seq<Path>, v: seq<real>, k: nat, m: nat, d: real, w: seq<real>, shared: real)
    requires k <= m <= |paths|
  {
    LongerAbove(paths, v, k - 1, m, d, w) && shared == Carried(paths, m, d) - Carried(paths, k, d)
  }

  lemma ShareOne(paths: seq<Path>, v: seq<real>, k: nat, m: nat, d: real, w: seq<real>, shared: real, step: real)
    requires k < m <= |paths| && Sharing(paths, v, k + 1, m, d, w, shared) && step == d * paths[k].bdw
    ensures Sharing(paths, v, k, m, d, w[k := w[k] + step], shared + step)
  {
    CarriedGrows(paths, k + 1, d);
    OneMoreAbove(paths, v, k, m, d, w, step);
  }

  lemma AllShared(paths: seq<Path>, v: seq<real>, m: nat, volume: real, w: seq<real>, shared: real)
    requires m <= |paths| && Bandwidth(paths, m) > 0.0
    requires Sharing(paths, v, 0, m, volume / Bandwidth(paths, m), w, shared)
    ensures IsLonger(paths, v, m, volume / Bandwidth(paths, m), w) && shared == volume
  {
    MulDiv(volume, Bandwidth(paths, m));
  }

  lemma GapClosed(paths: seq<Path>, v: seq<real>, m: nat, d: real, w: seq<real>, worked: real)
    requires m <= |paths| && Sharing(paths, v, 0, m, d, w, worked)
    ensures IsLonger(paths, v, m, d, w) && worked == Carried(paths, m, d)
  {
  }

  /** The paths up to `i` work through the gap to the next delay. The volume suffices, so the
      loop does not stop early. */
  method CloseGap(paths: seq<Path>, i: nat, owdGap: real, v: seq<real>, volume: real)
    returns (v': seq<real>, rest: real)
    requires PathsOk(paths) && i < |paths| == |v| && owdGap > 0.0
    requires volume > Carried(paths, i + 1, owdGap)
    ensures IsLonger(paths, v, i + 1, owdGap, v')
    ensures rest == volume - Carried(paths, i + 1, owdGap)
  {
    v', rest := v, volume;
    var k: int := i;
    while k >= 0
      invariant -1 <= k <= i && |v'| == |v|
      invariant Sharing(paths, v, k + 1, i + 1, owdGap, v', volume - rest)
    {
      var proportionStep := owdGap * paths[k].bdw;
      ShareOne(paths, v, k, i + 1, owdGap, v', volume - rest, proportionStep);
      CarriedIsMonotone(paths, 0, k, owdGap);
      v' := v'[k := v'[k] + proportionStep];
      rest := rest - proportionStep;
      if rest <= 0.0 {
        break;
      }
      k := k - 1;
    }
    GapClosed(paths, v, i + 1, owdGap, v', volume - rest);
  }

  /** The first `m` paths share the volume in proportion to their bandwidths. */
  method ShareOut(paths: seq<Path>, m: nat, bdwSum: real, v: seq<real>, volume: real)
    returns (v': seq<real>, shared: real)
    requires PathsOk(paths) && 0 < m <= |paths| == |v|
    requires bdwSum == Bandwidth(paths, m) && bdwSum > 0.0
    ensures IsLonger(paths, v, m, volume / bdwSum, v')
    ensures shared == volume
  {
    v', shared := v, 0.0;
    ghost var d := volume / bdwSum;
    for k := m downto 0
      invariant |v'| == |paths| && Sharing(paths, v, k, m, d, v', shared)
    {
      var proportionStep := volume * paths[k].bdw / bdwSum;
      ProportionalStep(volume, paths[k].bdw, bdwSum);
      ShareOne(paths, v, k, m, d, v', shared, proportionStep);
      v' := v'[k := v'[k] + proportionStep];
      shared := shared + proportionStep;
    }
    AllShared(paths, v, m, volume, v', shared);
  }

  /** What is claimed of a split: it is one, and it is optimal, with one common finish time,
      exactly when nothing spills over. */
  ghost predicate Outcome(paths: seq<Path>, total: real, w: seq<real>)
    requires PathsOk(paths) && paths != []
  {
    && IsSplit(paths, w, total)
    && (Optimal(paths, w) <==> !SpillsOver(paths, total))
    && ((exists t :: FilledTo(paths, w, t)) <==> !SpillsOver(paths, total))
  }

  lemma FilledOutcome(paths: seq<Path>, total: real, w: seq<real>, t: real)
    requires PathsOk(paths) && paths != [] && FilledTo(paths, w, t)
    requires Sum(w) == total && !SpillsOver(paths, total)
    ensures Outcome(paths, total, w)
  {
    FilledIsOptimal(paths, w, t);
    forall k | 0 <= k < |w|
      ensures w[k] >= 0.0
    {
      FilledFinishes(paths, w, t, k);
    }
  }

  lemma QuotientIsBetween(volume: real, b: real, gap: real)
    requires b > 0.0 && 0.0 <= volume <= gap * b
    ensures 0.0 <= volume / b <= gap
  {
    MulDiv(volume, b);
    MulLe(b, volume / b, gap);
    MulLe(b, 0.0, volume / b);
  }

  /** Between two different delays the volume runs out. */
  lemma ExhaustedOutcome(paths: seq<Path>, i: nat, v: seq<real>, volume: real, total: real, w: seq<real>)
    requires PathsOk(paths) && i + 1 < |paths| && IsStage(paths, i, v)
    requires paths[i].owd < paths[i + 1].owd && LastStage(paths, i) == LastStage(paths, 0)
    requires 0.0 <= volume <= Carried(paths, i + 1, paths[i + 1].owd - paths[i].owd)
    requires volume == total - StageVolume(paths, i) && Sum(w) == total
    requires Bandwidth(paths, i + 1) > 0.0 && IsLonger(paths, v, i + 1, volume / Bandwidth(paths, i + 1), w)
    ensures Outcome(paths, total, w)
  {
    var d := volume / Bandwidth(paths, i + 1);
    QuotientIsBetween(volume, Bandwidth(paths, i + 1), paths[i + 1].owd - paths[i].owd);
    assert forall k | i + 1 <= k < |paths| :: paths[i + 1].owd <= paths[k].owd;
    StageIsFilled(paths, i, v, i + 1, d, w);
    StageVolumeGrows(paths, i);
    LaterStagesTakeMore(paths, i + 1);
    FilledOutcome(paths, total, w, paths[i].owd + d);
  }

  /** All paths share what is left after the last stage. */
  lemma SharedOutcome(paths: seq<Path>, v: seq<real>, d: real, total: real, w: seq<real>)
    requires PathsOk(paths) && paths != [] && d > 0.0
    requires IsStage(paths, LastStage(paths, 0), v) && IsLonger(paths, v, |paths|, d, w)
    requires Sum(w) == total > StageVolume(paths, LastStage(paths, 0))
    ensures Outcome(paths, total, w)
  {
    var t := LastStage(paths, 0);
    if SpillsOver(paths, total) {
      LongerIsSpilled(paths, t, v, d, w);
      SpilledIsNotOptimal(paths, t, d, w);
      forall u
        ensures !FilledTo(paths, w, u)
      {
        if FilledTo(paths, w, u) {
          FilledIsOptimal(paths, w, u);
        }
      }
      SpilledIsSplit(paths, t, d, w);
    } else {
      assert forall k | t < k < |paths| :: paths[t].owd <= paths[k].owd <= paths[|paths| - 1].owd;
      StageIsFilled(paths, t, v, |paths|, d, w);
      FilledOutcome(paths, total, w, paths[t].owd + d);
    }
  }

  lemma LongerIsSpilled(paths: seq<Path>, t: nat, v: seq<real>, d: real, w: seq<real>)
    requires t < |paths| && IsStage(paths, t, v) && IsLonger(paths, v, |paths|, d, w)
    ensures IsSpilled(paths, t, d, w)
  {
    forall k | 0 <= k < |w|
      ensures w[k] == paths[k].bdw * (StageTime(paths, t, k) + d)
    {
      Distribute(paths[k].bdw, StageTime(paths, t, k), d);
      Commutes(d, paths[k].bdw);
      assert paths[k].bdw * 0.0 == 0.0;
    }
  }

  lemma SpilledIsSplit(paths: seq<Path>, t: nat, d: real, w: seq<real>)
    requires PathsOk(paths) && t < |paths| && d >= 0.0 && IsSpilled(paths, t, d, w)
    ensures IsSplit(paths, w, Sum(w))
  {
    forall k | 0 <= k < |w|
      ensures w[k] >= 0.0
    {
      MulNonNeg(paths[k].bdw, StageTime(paths, t, k) + d);
    }
  }

  /** Nothing is left after the last stage, which happens only if there was nothing at all. */
  lemma NothingOutcome(paths: seq<Path>, v: seq<real>, total: real)
    requires PathsOk(paths) && paths != []
    requires IsStage(paths, LastStage(paths, 0), v) && Sum(v) == total == StageVolume(paths, LastStage(paths, 0))
    ensures Outcome(paths, total, v)
  {
    var t := LastStage(paths, 0);
    assert forall k | 0 <= k < |paths| :: k <= t ==> paths[k].owd <= paths[t].owd;
    forall k | 0 <= k < |v|
      ensures v[k] == Load(paths[k], paths[t].owd)
    {
      assert paths[k].bdw * 0.0 == 0.0;
    }
    FilledOutcome(paths, total, v, paths[t].owd);
  }

  lemma FirstStage(paths: seq<Path>, v: seq<real>)
    requires paths != [] && |v| == |paths| && forall k | 0 <= k < |v| :: v[k] == 0.0
    ensures IsStage(paths, 0, v) && StageVolume(paths, 0) == 0.0 && Sum(v) == 0.0
  {
    assert paths[0].bdw * 0.0 == 0.0;
    assert Capacity(paths, 0, paths[0].owd) == 0.0;
    assert Capacity(paths, 1, paths[0].owd) == 0.0 + paths[0].bdw * (paths[0].owd - paths[0].owd);
    ZerosAddUp(v);
  }

  lemma {:induction false} ZerosAddUp(v: seq<real>)
    requires forall k | 0 <= k < |v| :: v[k] == 0.0
    ensures Sum(v) == 0.0
  {
    if v != [] {
      ZerosAddUp(v[..|v| - 1]);
    }
  }

  /** The state of the walk at path `i`. */
  ghost predicate AtStage(paths: seq<Path>, total: real, i: nat, v: seq<real>, volume: real) {
    && i < |paths|
    && IsStage(paths, i, v) && LastStage(paths, i) == LastStage(paths, 0)
    && volume == total - StageVolume(paths, i) >= 0.0
    && Sum(v) == StageVolume(paths, i)
  }

  /** There is enough volume to close the gap to the next delay. */
  method Advance(paths: seq<Path>, ghost total: real, i: nat, owdGap: real, v: seq<real>, volume: real)
    returns (v': seq<real>, rest: real)
    requires PathsOk(paths) && i + 1 < |paths| && AtStage(paths, total, i, v, volume)
    requires owdGap == paths[i + 1].owd - paths[i].owd > 0.0 && volume > Carried(paths, i + 1, owdGap)
    ensures AtStage(paths, total, i + 1, v', rest)
  {
    v', rest := CloseGap(paths, i, owdGap, v, volume);
    NextStage(paths, i, v, v');
    LongerSum(paths, v, i + 1, owdGap, v');
    StageVolumeGrows(paths, i);
  }

  /** The volume ends before the next delay. */
  method Exhaust(paths: seq<Path>, ghost total: real, i: nat, bdwSum: real, v: seq<real>, volume: real)
    returns (v': seq<real>)
    requires PathsOk(paths) && i + 1 < |paths| && AtStage(paths, total, i, v, volume)
    requires bdwSum == Bandwidth(paths, i + 1) > 0.0 && paths[i].owd < paths[i + 1].owd
    requires volume <= Carried(paths, i + 1, paths[i + 1].owd - paths[i].owd)
    ensures Outcome(paths, total, v')
  {
    var cutted;
    v', cutted := ShareOut(paths, i + 1, bdwSum, v, volume);
    LongerSum(paths, v, i + 1, volume / bdwSum, v');
    MulDiv(volume, bdwSum);
    ExhaustedOutcome(paths, i, v, volume, total, v');
  }

  /** All paths share the rest in proportion to their bandwidths. */
  method ShareRest(paths: seq<Path>, ghost total: real, v: seq<real>, volume: real) returns (v': seq<real>)
    requires PathsOk(paths) && paths != [] && volume > 0.0
    requires AtStage(paths, total, LastStage(paths, 0), v, volume)
    ensures Outcome(paths, total, v')
  {
    var all := BandwidthUpTo(paths, |paths| - 1);
    BandwidthIsPositive(paths, |paths|);
    var shared;
    v', shared := ShareOut(paths, |paths|, all, v, volume);
    LongerSum(paths, v, |paths|, volume / all, v');
    MulDiv(volume, all);
    MulLe(all, volume / all, 0.0);
    SharedOutcome(paths, v, volume / all, total, v');
  }

  /** Splits `total`, in bits, over the paths. */
  method ChoosePaths(paths: seq<Path>, total: real) returns (pathsVolume: seq<real>)
    requires PathsOk(paths) && paths != [] && total >= 0.0
    ensures Outcome(paths, total, pathsVolume)
  {
    var volume := total;
    pathsVolume := seq(|paths|, _ => 0.0);
    FirstStage(paths, pathsVolume);
    var i := 0;
    while i < |paths| - 1
      invariant AtStage(paths, total, i, pathsVolume, volume)
      decreases |paths| - i
    {
      var bdwSum := BandwidthUpTo(paths, i);
      BandwidthIsPositive(paths, i + 1);
      var owdGap := paths[i + 1].owd - paths[i].owd;
      if owdGap == 0.0 {
        break;
      }
      assert paths[i].owd <= paths[i + 1].owd;
      if volume > owdGap * bdwSum {
        pathsVolume, volume := Advance(paths, total, i, owdGap, pathsVolume, volume);
      } else {
        pathsVolume := Exhaust(paths, total, i, bdwSum, pathsVolume, volume);
        return;
      }
      i := i + 1;
    }
    if volume > 0.0 {
      pathsVolume := ShareRest(paths, total, pathsVolume, volume);
    } else {
      NothingOutcome(paths, pathsVolume, total);
    }
  }

  /** Paths with pairwise different delays, or at most two paths, never spill over. */
  lemma DistinctDelaysDoNotSpill(paths: seq<Path>, total: real)
    requires PathsOk(paths) && paths != []
    requires |paths| <= 2 || forall j, k | 0 <= j < k < |paths| :: paths[j].owd < paths[k].owd
    ensures !SpillsOver(paths, total)
  {
    if |paths| > 2 {
      WalkReachesLast(paths, 0);
    }
  }

  lemma {:induction false} WalkReachesLast(paths: seq<Path>, i: nat)
    requires i < |paths| && forall j, k | 0 <= j < k < |paths| :: paths[j].owd < paths[k].owd
    ensures LastStage(paths, i) == |paths| - 1
    decreases |paths| - i
  {
    if i + 1 < |paths| {
      WalkReachesLast(paths, i + 1);
    }
  }

  /** It does happen: with delays 0, 0 and 1 and enough volume, the third path is given a share
      although the first two could do its work earlier. */
  lemma SpillExample()
    ensures
      var paths := [Path(1.0, 0.0), Path(1.0, 0.0), Path(1.0, 1.0)];
      PathsOk(paths) && SpillsOver(paths, 3.0)
  {
    var paths := [Path(1.0, 0.0), Path(1.0, 0.0), Path(1.0, 1.0)];
    FirstStage(paths, [0.0, 0.0, 0.0]);
    assert LastStage(paths, 0) == 0;
  }
}
