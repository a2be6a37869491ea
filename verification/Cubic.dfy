/** CUBIC: after a loss the congestion window follows a cubic curve back to where it was and
    beyond. Times are in microseconds, and the curve's in 2^10 fractions of a second. */
module Cubic {
  import opened Numbers
  import opened Options
  import opened Words

  const TWO_40: nat := 0x100_0000_0000
  const WINDOW_SCALE: nat := 410
  const CUBE_FACTOR: nat := TWO_40 / WINDOW_SCALE
  const MAX_INTERVAL: int := 30_000

  // ---------------------------------------------------------------------------
  // The curve
  // ---------------------------------------------------------------------------

  function Cube(x: int): int {
    x * x * x
  }

  lemma CubeGrows(x: int, y: int)
    requires 0 <= x <= y
    ensures 0 <= Cube(x) <= Cube(y)
  {
    ProductGrows(x, y, x, y);
    ProductGrows(x * x, y * y, x, y);
  }

  lemma ProductGrows(a: int, b: int, c: int, d: int)
    requires 0 <= a <= b && 0 <= c <= d
    ensures 0 <= a * c <= b * d
  {
    assert a * c <= b * c;
    assert b * c <= b * d;
  }

  /** The largest number, from `r` on, whose cube is at most `n`. */
  function RootFrom(n: nat, r: nat): (root: nat)
    requires Cube(r) <= n
    ensures Cube(root) <= n < Cube(root + 1)
    decreases n - r
  {
    if Cube(r + 1) > n then r else CubeIsLarge(r + 1); RootFrom(n, r + 1)
  }

  lemma CubeIsLarge(r: nat)
    ensures r <= Cube(r)
  {
    if r > 0 {
      ProductGrows(1, r, 1, r);
      ProductGrows(1, r * r, r, r);
    }
  }

  /** The exact cube root, rounded down. */
  function CubeRoot(n: nat): (root: nat)
    ensures Cube(root) <= n < Cube(root + 1)
  {
    RootFrom(n, 0)
  }

  /** How far the curve is from its origin point `offset` time units away. */
  function Delta(offset: nat): nat {
    CubeGrows(0, offset);
    WINDOW_SCALE * Cube(offset) / TWO_40
  }

  function Curve(origin: int, k: nat, t: int): int {
    if t > k then origin + Delta(t - k) else origin - Delta(k - t)
  }

  /** The time the curve takes from window `start` to the origin point. The product wraps. */
  function TimeToOrigin(origin: nat, start: nat): nat
    requires start <= origin
  {
    CubeRoot(Uint64(CUBE_FACTOR * (origin - start)))
  }

  lemma DeltaGrows(x: nat, y: nat)
    requires x <= y
    ensures Delta(x) <= Delta(y)
  {
    CubeGrows(x, y);
  }

  /** The target never decreases with time. */
  lemma CurveGrows(origin: int, k: nat, t: int, t': int)
    requires t <= t'
    ensures Curve(origin, k, t) <= Curve(origin, k, t')
  {
    if t > k {
      DeltaGrows(t - k, t' - k);
    } else if t' <= k {
      DeltaGrows(k - t', k - t);
    }
  }

  lemma WayIsLongEnough(distance: nat)
    ensures Delta(CubeRoot(Uint64(CUBE_FACTOR * distance))) <= distance
  {
    var k := CubeRoot(Uint64(CUBE_FACTOR * distance));
    CubeGrows(0, k);
    assert Uint64(CUBE_FACTOR * distance) <= CUBE_FACTOR * distance;
    ScalesBack(Cube(k), distance);
  }

  lemma ScalesBack(cube: nat, distance: nat)
    requires cube <= CUBE_FACTOR * distance
    ensures WINDOW_SCALE * cube / TWO_40 <= distance
  {
    assert CUBE_FACTOR == 2_681_735_677;
  }

  /** From the start of the epoch on, the target is never below the window at that time. */
  lemma CurveStaysAboveStart(origin: nat, start: nat, t: int)
    requires start <= origin && t >= 0
    ensures Curve(origin, TimeToOrigin(origin, start), t) >= start
  {
    var k := TimeToOrigin(origin, start);
    WayIsLongEnough(origin - start);
    CurveGrows(origin, k, 0, t);
  }

  /** The largest offset at which the curve is at most `room` away from its origin point. */
  function Reach(room: nat): nat {
    CubeRoot(((room + 1) * TWO_40 - 1) / WINDOW_SCALE)
  }

  lemma DeltaIsWithin(offset: nat, room: nat)
    ensures Delta(offset) <= room <==> offset <= Reach(room)
  {
    var n := ((room + 1) * TWO_40 - 1) / WINDOW_SCALE;
    CubeGrows(0, offset);
    if offset <= CubeRoot(n) {
      CubeGrows(offset, CubeRoot(n));
    } else {
      CubeGrows(CubeRoot(n) + 1, offset);
    }
  }

  /** The curve is at least `start` exactly up to a certain time before its origin point. */
  lemma CurveIsAtLeast(origin: nat, start: nat, k: nat, t: int)
    requires start <= origin
    ensures Curve(origin, k, t) >= start <==> k - t <= Reach(origin - start)
  {
    if t <= k {
      DeltaIsWithin(k - t, origin - start);
    }
  }

  lemma CurveIsBelow(origin: nat, limit: nat, k: nat, t: int)
    requires origin <= limit
    ensures Curve(origin, k, t) <= limit <==> t - k <= Reach(limit - origin)
  {
    if t > k {
      DeltaIsWithin(t - k, limit - origin);
    }
  }

  /** That time is not before the start of the epoch. */
  lemma StartIsInReach(origin: nat, start: nat)
    requires start <= origin
    ensures TimeToOrigin(origin, start) <= Reach(origin - start)
  {
    WayIsLongEnough(origin - start);
    DeltaIsWithin(TimeToOrigin(origin, start), origin - start);
  }

  // ---------------------------------------------------------------------------
  // The curve in 64-bit arithmetic
  // ---------------------------------------------------------------------------

  /** How often the scaled cube of `offset` passes the range of a signed 64-bit number. */
  function Overflows(offset: nat): nat {
    CubeGrows(0, offset);
    (WINDOW_SCALE * Cube(offset) + TWO_64 / 2) / TWO_64
  }

  function MachineDelta(offset: nat): int {
    Int64(WINDOW_SCALE * Cube(offset)) / TWO_40
  }

  function MachineCurve(origin: nat, k: nat, t: int): nat {
    Uint64(if t > k then origin + MachineDelta(t - k) else origin - MachineDelta(k - t))
  }

  lemma MachineDeltaIs(offset: nat)
    ensures MachineDelta(offset) == Delta(offset) - Overflows(offset) * 0x100_0000
  {
    CubeGrows(0, offset);
    ShiftedOverflow(WINDOW_SCALE * Cube(offset));
  }

  lemma ShiftedOverflow(x: nat)
    ensures Int64(x) / TWO_40 == x / TWO_40 - (x + TWO_64 / 2) / TWO_64 * 0x100_0000
  {
    var m := (x + TWO_64 / 2) / TWO_64;
    assert Int64(x) == x - m * TWO_64;
    assert m * TWO_64 == (m * 0x100_0000) * TWO_40;
  }

  /** The product fits a signed 64-bit number for 282294 time units, about four and a half
      minutes, and no longer. */
  lemma ProductFits(offset: nat)
    ensures Overflows(offset) == 0 <==> offset <= 282_294
  {
    assert WINDOW_SCALE * Cube(282_294) < TWO_64 / 2 <= WINDOW_SCALE * Cube(282_295);
    CubeGrows(0, offset);
    if offset <= 282_294 {
      CubeGrows(offset, 282_294);
    } else {
      CubeGrows(282_295, offset);
    }
  }

  function Distance(k: nat, t: int): nat {
    if t > k then t - k else k - t
  }

  /** The machine computes the curve exactly when the curve's value is an unsigned 64-bit
      number and the overflows of the product cancel out, as they do when there are none. */
  lemma MachineIsExact(origin: nat, k: nat, t: int)
    ensures MachineCurve(origin, k, t) == Curve(origin, k, t)
       <==> 0 <= Curve(origin, k, t) < TWO_64 && Overflows(Distance(k, t)) % TWO_40 == 0
  {
    MachineDeltaIs(Distance(k, t));
    ShiftIsHarmless(Curve(origin, k, t), Overflows(Distance(k, t)), t > k);
  }

  lemma ShiftIsHarmless(c: int, m: nat, after: bool)
    ensures Uint64(if after then c - m * 0x100_0000 else c + m * 0x100_0000) == c
       <==> 0 <= c < TWO_64 && m % TWO_40 == 0
  {
    if m % TWO_40 == 0 {
      assert m * 0x100_0000 == (m / TWO_40) * TWO_64;
    }
  }

  // ---------------------------------------------------------------------------
  // The estimate of a TCP window
  // ---------------------------------------------------------------------------

  /** The factors for `n` emulated connections. */
  function Beta(n: nat): (r: real)
    requires n > 0
    ensures 0.0 < r < 1.0
  {
    var x := n as real;
    QuotientInside(x - 1.0 + 0.7, x, (x - 1.0 + 0.7) / x);
    (x - 1.0 + 0.7) / x
  }

  function Alpha(n: nat): (r: real)
    requires n > 0
    ensures r > 0.0
  {
    var x := n as real;
    ProductIsPositive(x, 1.0 - Beta(n));
    QuotientPositive(3.0 * x * x * (1.0 - Beta(n)), 1.0 + Beta(n));
    3.0 * x * x * (1.0 - Beta(n)) / (1.0 + Beta(n))
  }

  lemma ProductIsPositive(x: real, y: real)
    requires x > 0.0 && y > 0.0
    ensures 3.0 * x * x * y > 0.0
  {
  }

  lemma QuotientInside(a: real, b: real, q: real)
    requires 0.0 < a < b && q * b == a
    ensures 0.0 < q < 1.0
  {
    if q >= 1.0 {
      TimesAtMost(1.0, q, b);
    }
    if q <= 0.0 {
      TimesAtMost(q, 0.0, b);
    }
  }

  lemma TimesAtMost(x: real, y: real, b: real)
    requires x <= y && b > 0.0
    ensures x * b <= y * b
  {
  }

  lemma QuotientPositive(a: real, b: real)
    requires 0.0 < a && 0.0 < b
    ensures a / b > 0.0
  {
  }

  /** ACKs that it takes to let the estimated window grow by one. */
  function Required(estimated: nat, alpha: real): nat
    requires alpha > 0.0
  {
    QuotientNonNegative(estimated as real, alpha);
    (estimated as real / alpha).Floor
  }

  lemma QuotientNonNegative(a: real, b: real)
    requires 0.0 <= a && 0.0 < b
    ensures a / b >= 0.0
  {
  }

  /** A bound for the estimate: while ACKs suffice, it has not been reached. */
  function Bound(acked: nat, alpha: real): int {
    (alpha * (acked as real + 1.0)).Floor + 1
  }

  lemma BelowBound(acked: nat, estimated: nat, alpha: real)
    requires alpha > 0.0 && acked >= Required(estimated, alpha)
    ensures estimated < Bound(acked, alpha)
  {
    var q := estimated as real / alpha;
    assert q < acked as real + 1.0;
    assert estimated as real == q * alpha;
    TimesLess(q, acked as real + 1.0, alpha);
  }

  lemma TimesLess(a: real, b: real, c: real)
    requires a < b && c > 0.0
    ensures a * c < b * c
  {
  }

  lemma BoundGrows(acked: nat, acked': nat, alpha: real)
    requires acked <= acked' && alpha > 0.0
    ensures Bound(acked, alpha) <= Bound(acked', alpha)
  {
    if acked < acked' {
      TimesLess(acked as real + 1.0, acked' as real + 1.0, alpha);
    }
  }

  /** ACKs are used up for growth of the estimate until they no longer suffice. */
  function Estimated(acked: nat, estimated: nat, alpha: real): (r: (nat, nat))
    requires alpha > 0.0
    ensures estimated <= r.1 && r.0 <= acked && r.0 < Required(r.1, alpha)
    decreases Bound(acked, alpha) - estimated
  {
    var required := Required(estimated, alpha);
    if acked < required then (acked, estimated)
    else
      BelowBound(acked, estimated, alpha);
      BoundGrows(acked - required, acked, alpha);
      Estimated(acked - required, estimated + 1, alpha)
  }

  // ---------------------------------------------------------------------------
  // The program
  // ---------------------------------------------------------------------------

  datatype State = State(
    epoch: Option<int>,
    appLimited: Option<int>,
    lastUpdate: Option<int>,
    lastWindow: nat,
    lastMax: nat,
    acked: nat,
    estimated: nat,
    origin: nat,
    timeToOrigin: nat,
    lastTarget: nat)

  const INITIAL := State(None, None, None, 0, 0, 0, 0, 0, 0, 0)

  /** Division that rounds towards zero. */
  function Quotient(a: int, b: nat): int
    requires b > 0
  {
    if a >= 0 then a / b else -(-a / b)
  }

  function Elapsed(epoch: int, delayMin: int, now: int): int {
    Quotient((now + delayMin - epoch) * 1024, 1_000_000)
  }

  /** The window was updated a moment ago. */
  predicate IsRecent(s: State, window: nat, now: int) {
    s.lastWindow == window && s.lastUpdate.Some? && now - s.lastUpdate.value <= MAX_INTERVAL
  }

  /** The first ACK after a loss starts an epoch; otherwise the epoch is moved by the time in
      which the application had nothing to send. */
  function WithEpoch(s: State, window: nat, now: int): (r: State)
    ensures r.epoch.Some?
  {
    if s.epoch.None? then
      var s1 := s.(epoch := Some(now), acked := 1, estimated := window);
      if s.lastMax <= window then s1.(timeToOrigin := 0, origin := window)
      else s1.(timeToOrigin := TimeToOrigin(s.lastMax, window), origin := s.lastMax)
    else if s.appLimited.None? then s
    else s.(epoch := Some(s.epoch.value + (now - s.appLimited.value)), appLimited := None)
  }

  function WithTarget(s: State, delayMin: int, now: int, alpha: real): (State, nat)
    requires s.epoch.Some? && alpha > 0.0
  {
    var target := MachineCurve(s.origin, s.timeToOrigin, Elapsed(s.epoch.value, delayMin, now));
    var (acked, estimated) := Estimated(s.acked, s.estimated, alpha);
    (s.(acked := acked, estimated := estimated, lastTarget := target), Max(target, estimated))
  }

  function AfterAck(s: State, window: nat, delayMin: int, now: int, alpha: real): (State, nat)
    requires alpha > 0.0
  {
    var s1 := s.(acked := s.acked + 1);
    if IsRecent(s, window, now) then (s1, Max(s.lastTarget, s.estimated))
    else WithTarget(WithEpoch(s1.(lastWindow := window, lastUpdate := Some(now)), window, now), delayMin, now, alpha)
  }

  function Scaled(window: nat, factor: real): nat
    requires factor > 0.0
  {
    assert window as real * factor >= 0.0;
    (window as real * factor).Floor
  }

  lemma ScaledIsSmaller(window: nat, factor: real)
    requires 0.0 < factor < 1.0
    ensures Scaled(window, factor) <= window && (window > 0 ==> Scaled(window, factor) < window)
  {
    if window > 0 {
      TimesLess(factor, 1.0, window as real);
      FloorIsLess(factor * window as real, window);
    }
  }

  lemma FloorIsLess(x: real, n: int)
    requires x < n as real
    ensures x.Floor < n
  {
  }

  function AfterLoss(s: State, window: nat, n: nat): (State, nat)
    requires n > 0
  {
    (s.(lastMax := if window < s.lastMax then Scaled(window, 0.85) else window, epoch := None),
     Scaled(window, Beta(n)))
  }

  /** A loss shrinks the window. The curve is aimed at the window before the loss, or lower
      if the loss came before the last maximum was reached again. */
  lemma LossShrinks(s: State, window: nat, n: nat)
    requires n > 0
    ensures
      var (s', r) := AfterLoss(s, window, n);
      && (window > 0 ==> r < window)
      && s'.lastMax <= window
      && (0 < window < s.lastMax ==> s'.lastMax < window)
  {
    ScaledIsSmaller(window, Beta(n));
    ScaledIsSmaller(window, 0.85);
  }

  function AfterAppLimited(s: State, now: int): State {
    if s.appLimited.None? then s.(appLimited := Some(now)) else s
  }

  // ---------------------------------------------------------------------------
  // Runs
  // ---------------------------------------------------------------------------

  datatype Step =
    | Ack(window: nat, delayMin: int, now: int)
    | Loss(window: nat)
    | AppLimited(now: int)

  /** `start` is the window at the start of the current epoch and `result` the window that
      the last call returned. */
  datatype System = System(s: State, start: nat, result: nat)

  /** The state in which the curve is evaluated. */
  function AtCurve(s: State, window: nat, now: int): (r: State)
    ensures r.epoch.Some?
  {
    WithEpoch(s.(acked := s.acked + 1, lastWindow := window, lastUpdate := Some(now)), window, now)
  }

  /** Windows are unsigned 64-bit numbers. Nothing is assumed of the clock or of the delays. */
  ghost predicate Next(n: nat, x: System, step: Step, x': System)
    requires n > 0
  {
    match step
    case Ack(window, delayMin, now) =>
      && window < TWO_64
      && (x'.s, x'.result) == AfterAck(x.s, window, delayMin, now, Alpha(n))
      && x'.start == if !IsRecent(x.s, window, now) && x.s.epoch.None? then window else x.start
    case Loss(window) =>
      && window < TWO_64
      && (x'.s, x'.result) == AfterLoss(x.s, window, n) && x'.start == x.start
    case AppLimited(now) => x' == x.(s := AfterAppLimited(x.s, now))
  }

  ghost predicate IsRun(n: nat, run: seq<System>, steps: seq<Step>)
    requires n > 0
  {
    && |run| == |steps| + 1
    && run[0].s == INITIAL
    && forall i | 0 <= i < |steps| :: Next(n, run[i], steps[i], run[i + 1])
  }

  /** The curve leads from the epoch's start window to its origin point. */
  predicate CurveOk(s: State, start: nat) {
    start <= s.origin < TWO_64 && s.timeToOrigin == TimeToOrigin(s.origin, start) && start <= s.estimated
  }

  predicate Inv(x: System) {
    (x.s.epoch.Some? ==> CurveOk(x.s, x.start)) && x.s.lastMax < TWO_64
  }

  lemma EpochIsOk(x: System, window: nat, now: int)
    requires Inv(x) && window < TWO_64
    ensures CurveOk(AtCurve(x.s, window, now), if x.s.epoch.None? then window else x.start)
  {
    RootOfZero();
  }

  lemma RootOfZero()
    ensures CubeRoot(0) == 0
  {
    CubeIsLarge(CubeRoot(0));
  }

  lemma NextKeepsInv(n: nat, x: System, step: Step, x': System)
    requires n > 0 && Inv(x) && Next(n, x, step, x')
    ensures Inv(x')
  {
    match step
    case Ack(window, delayMin, now) =>
      if !IsRecent(x.s, window, now) {
        EpochIsOk(x, window, now);
      }
    case Loss(window) => LossShrinks(x.s, window, n);
    case AppLimited(_) =>
  }

  lemma {:induction false} RunInv(n: nat, run: seq<System>, steps: seq<Step>, i: nat)
    requires n > 0 && IsRun(n, run, steps) && i < |run|
    ensures Inv(run[i])
  {
    if i > 0 {
      RunInv(n, run, steps, i - 1);
      NextKeepsInv(n, run[i - 1], steps[i - 1], run[i]);
    }
  }

  /** At time `t` the curve lies between `start` and the largest 64-bit number and the product
      does not overflow, or overflows so often that it does not matter. */
  predicate IsClean(origin: nat, start: nat, k: nat, t: int)
    requires start <= origin < TWO_64
  {
    && k - t <= Reach(origin - start)
    && t - k <= Reach(TWO_64 - 1 - origin)
    && Overflows(Distance(k, t)) % TWO_40 == 0
  }

  lemma CleanIsExact(origin: nat, start: nat, k: nat, t: int)
    requires start <= origin < TWO_64
    ensures MachineCurve(origin, k, t) == Curve(origin, k, t) >= start <==> IsClean(origin, start, k, t)
  {
    MachineIsExact(origin, k, t);
    CurveIsAtLeast(origin, start, k, t);
    CurveIsBelow(origin, TWO_64 - 1, k, t);
  }

  lemma EpochOfRunIsOk(n: nat, run: seq<System>, steps: seq<Step>, i: nat)
    requires n > 0 && IsRun(n, run, steps) && i < |steps| && steps[i].Ack?
    requires !IsRecent(run[i].s, steps[i].window, steps[i].now)
    ensures CurveOk(AtCurve(run[i].s, steps[i].window, steps[i].now), run[i + 1].start)
  {
    RunInv(n, run, steps, i);
    assert Next(n, run[i], steps[i], run[i + 1]);
    EpochIsOk(run[i], steps[i].window, steps[i].now);
  }

  /** In every run, an ACK that evaluates the curve gets the curve's value, and no less than
      the window at the start of the epoch, exactly if its time is clean. */
  lemma TargetsFollowCurve(n: nat, run: seq<System>, steps: seq<Step>, i: nat)
    requires n > 0 && IsRun(n, run, steps) && i < |steps| && steps[i].Ack?
    requires !IsRecent(run[i].s, steps[i].window, steps[i].now)
    ensures
      var s, start := AtCurve(run[i].s, steps[i].window, steps[i].now), run[i + 1].start;
      var t := Elapsed(s.epoch.value, steps[i].delayMin, steps[i].now);
      && start <= s.origin < TWO_64
      && (run[i + 1].s.lastTarget == Curve(s.origin, s.timeToOrigin, t) >= start
          <==> IsClean(s.origin, start, s.timeToOrigin, t))
  {
    var s, start := AtCurve(run[i].s, steps[i].window, steps[i].now), run[i + 1].start;
    EpochOfRunIsOk(n, run, steps, i);
    assert Next(n, run[i], steps[i], run[i + 1]);
    CleanIsExact(s.origin, start, s.timeToOrigin, Elapsed(s.epoch.value, steps[i].delayMin, steps[i].now));
  }

  /** From the start of the epoch on, for four and a half minutes before and after the origin
      point, every time is clean, unless the window is close to the largest 64-bit number. */
  lemma TimelyIsClean(origin: nat, start: nat, t: int)
    requires start <= origin < TWO_64 / 2 && t >= 0
    requires Distance(TimeToOrigin(origin, start), t) <= 282_294
    ensures IsClean(origin, start, TimeToOrigin(origin, start), t)
  {
    var k := TimeToOrigin(origin, start);
    StartIsInReach(origin, start);
    ProductFits(Distance(k, t));
    ProductFits(0);
    if t > k {
      DeltaIsWithin(t - k, TWO_64 - 1 - origin);
    }
  }

  /** The clock has not gone back to before the epoch, and neither had it when the application
      had nothing more to send. */
  predicate IsTimely(s: State, delayMin: int, now: int) {
    && delayMin >= 0
    && (s.epoch.Some? ==> s.epoch.value <= if s.appLimited.Some? then s.appLimited.value else now)
  }

  lemma NotBeforeEpoch(s: State, window: nat, delayMin: int, now: int)
    requires IsTimely(s, delayMin, now)
    ensures Elapsed(AtCurve(s, window, now).epoch.value, delayMin, now) >= 0
  {
  }

  /** In every run, timely ACKs follow the curve for four and a half minutes. */
  lemma TimelyAcksFollowCurve(n: nat, run: seq<System>, steps: seq<Step>, i: nat)
    requires n > 0 && IsRun(n, run, steps) && i < |steps| && steps[i].Ack?
    requires !IsRecent(run[i].s, steps[i].window, steps[i].now)
    requires IsTimely(run[i].s, steps[i].delayMin, steps[i].now)
    ensures
      var s := AtCurve(run[i].s, steps[i].window, steps[i].now);
      var t := Elapsed(s.epoch.value, steps[i].delayMin, steps[i].now);
      s.origin < TWO_64 / 2 && Distance(s.timeToOrigin, t) <= 282_294
      ==> run[i + 1].s.lastTarget == Curve(s.origin, s.timeToOrigin, t) >= run[i + 1].start
  {
    var s := AtCurve(run[i].s, steps[i].window, steps[i].now);
    var t := Elapsed(s.epoch.value, steps[i].delayMin, steps[i].now);
    if s.origin < TWO_64 / 2 && Distance(s.timeToOrigin, t) <= 282_294 {
      TargetsFollowCurve(n, run, steps, i);
      NotBeforeEpoch(run[i].s, steps[i].window, steps[i].delayMin, steps[i].now);
      EpochOfRunIsOk(n, run, steps, i);
      TimelyIsClean(s.origin, run[i + 1].start, t);
    }
  }

  /** In every run, an ACK within an epoch returns at least the window at its start, because
      the estimate of a TCP window starts there and only grows. */
  lemma AcksStayAboveStart(n: nat, run: seq<System>, steps: seq<Step>, i: nat)
    requires n > 0 && IsRun(n, run, steps) && i < |steps| && steps[i].Ack?
    ensures run[i + 1].s.epoch.Some? ==> run[i + 1].result >= run[i + 1].start
  {
    RunInv(n, run, steps, i);
    assert Next(n, run[i], steps[i], run[i + 1]);
    if !IsRecent(run[i].s, steps[i].window, steps[i].now) {
      EpochIsOk(run[i], steps[i].window, steps[i].now);
    }
  }

  /** A time that is too early: an application that was limited before the epoch moves the
      epoch into the future, the curve is far below zero there, and the target is huge. */
  lemma LateEpochExample(alpha: real)
    requires alpha > 0.0
    ensures
      var s1 := AfterAppLimited(INITIAL, 0);
      var s2 := AfterAck(s1, 10, 0, 200_000_000, alpha).0;
      var s3 := AfterAck(s2, 11, 0, 201_000_000, alpha).0;
      && s2.lastTarget == 10 && s3.lastTarget > TWO_64 / 2
      && s3.epoch.value > 201_000_000
      && Curve(s3.origin, s3.timeToOrigin, Elapsed(s3.epoch.value, 0, 201_000_000)) < 0
  {
    RootOfZero();
    var s1 := AfterAppLimited(INITIAL, 0);
    var s2 := AfterAck(s1, 10, 0, 200_000_000, alpha).0;
    assert Elapsed(200_000_000, 0, 200_000_000) == 0;
    assert Delta(0) == 0 && MachineDelta(0) == 0;
    assert Elapsed(401_000_000, 0, 201_000_000) == -204_800;
    assert Cube(204_800) == 8_589_934_592_000_000;
    assert Delta(204_800) == 3_203_125 == MachineDelta(204_800);
  }

  /** A time that is too late: five minutes after the start of an epoch the product overflows,
      and the target is huge although the curve is not. */
  lemma LongEpochExample(alpha: real)
    requires alpha > 0.0
    ensures
      var s1 := AfterAck(INITIAL, 10, 0, 0, alpha).0;
      var s2 := AfterAck(s1, 11, 0, 300_000_000, alpha).0;
      && s1.lastTarget == 10 && s2.lastTarget > TWO_64 / 2
      && 10 < Curve(s2.origin, s2.timeToOrigin, Elapsed(s2.epoch.value, 0, 300_000_000)) < TWO_64 / 2
  {
    var s1 := AfterAck(INITIAL, 10, 0, 0, alpha).0;
    FirstEpoch(0, alpha);
    LateAck(s1, alpha);
  }

  lemma FirstEpoch(now: int, alpha: real)
    requires alpha > 0.0
    ensures
      var s1 := AfterAck(INITIAL, 10, 0, now, alpha).0;
      && s1.lastTarget == s1.origin == s1.lastWindow == 10
      && s1.epoch == Some(now) && s1.timeToOrigin == 0 && s1.appLimited == None
  {
    RootOfZero();
    assert Elapsed(now, 0, now) == 0;
    assert MachineDelta(0) == 0;
  }

  lemma LateAck(s: State, alpha: real)
    requires alpha > 0.0
    requires s.origin == s.lastWindow == 10 && s.epoch == Some(0) && s.timeToOrigin == 0 && s.appLimited == None
    ensures
      var s2 := AfterAck(s, 11, 0, 300_000_000, alpha).0;
      && s2.lastTarget > TWO_64 / 2 && s2.epoch.Some?
      && 10 < Curve(s2.origin, s2.timeToOrigin, Elapsed(s2.epoch.value, 0, 300_000_000)) < TWO_64 / 2
  {
    assert Elapsed(0, 0, 300_000_000) == 307_200;
    FiveMinutes();
  }

  lemma FiveMinutes()
    ensures Delta(307_200) == 10_810_546 && MachineDelta(307_200) == -5_966_670
  {
    assert Cube(307_200) == 28_991_029_248_000_000;
    assert Int64(WINDOW_SCALE * Cube(307_200)) == 11_886_321_991_680_000_000 - TWO_64;
  }

  class CubicObject {
    const numConnections: nat
    var epoch: Option<int>
    var appLimitedStartTime: Option<int>
    var lastUpdateTime: Option<int>
    var lastCongestionWindow: nat
    var lastMaxCongestionWindow: nat
    var ackedPacketsCount: nat
    var estimatedTCPcongestionWindow: nat
    var originPointCongestionWindow: nat
    var timeToOriginPoint: nat
    var lastTargetCongestionWindow: nat

    function View(): State
      reads this
    {
      State(epoch, appLimitedStartTime, lastUpdateTime, lastCongestionWindow, lastMaxCongestionWindow,
            ackedPacketsCount, estimatedTCPcongestionWindow, originPointCongestionWindow,
            timeToOriginPoint, lastTargetCongestionWindow)
    }

    constructor (n: nat)
      ensures View() == INITIAL && numConnections == n
    {
      numConnections := n;
      epoch, appLimitedStartTime, lastUpdateTime := None, None, None;
      lastCongestionWindow, lastMaxCongestionWindow, ackedPacketsCount := 0, 0, 0;
      estimatedTCPcongestionWindow, originPointCongestionWindow := 0, 0;
      timeToOriginPoint, lastTargetCongestionWindow := 0, 0;
    }

    method OnApplicationLimited(now: int)
      modifies this`appLimitedStartTime
      ensures View() == AfterAppLimited(old(View()), now)
    {
      if appLimitedStartTime.None? {
        appLimitedStartTime := Some(now);
      }
    }

    method CongestionWindowAfterPacketLoss(window: nat) returns (r: nat)
      requires numConnections > 0
      modifies this`lastMaxCongestionWindow, this`epoch
      ensures (View(), r) == AfterLoss(old(View()), window, numConnections)
      ensures window > 0 ==> r < window
    {
      LossShrinks(View(), window, numConnections);
      if window < lastMaxCongestionWindow {
        lastMaxCongestionWindow := Scaled(window, 0.85);
      } else {
        lastMaxCongestionWindow := window;
      }
      epoch := None;
      r := Scaled(window, Beta(numConnections));
    }

    method CongestionWindowAfterAck(window: nat, delayMin: int, now: int) returns (r: nat)
      requires numConnections > 0
      modifies this
      ensures (View(), r) == AfterAck(old(View()), window, delayMin, now, Alpha(numConnections))
    {
      ackedPacketsCount := ackedPacketsCount + 1;
      if lastCongestionWindow == window && lastUpdateTime.Some? && now - lastUpdateTime.value <= MAX_INTERVAL {
        return Max(lastTargetCongestionWindow, estimatedTCPcongestionWindow);
      }
      lastCongestionWindow, lastUpdateTime := window, Some(now);
      var start := StartEpoch(window, now);
      r := Retarget(start, delayMin, now);
    }

    method Retarget(start: int, delayMin: int, now: int) returns (r: nat)
      requires numConnections > 0 && epoch == Some(start)
      modifies this
      ensures (View(), r) == WithTarget(old(View()), delayMin, now, Alpha(numConnections))
    {
      var target := Target(Elapsed(start, delayMin, now));
      UpdateEstimate();
      lastTargetCongestionWindow := target;
      return if target < estimatedTCPcongestionWindow then estimatedTCPcongestionWindow else target;
    }

    /** The curve's value in 64-bit arithmetic. */
    method Target(elapsed: int) returns (target: nat)
      ensures target == MachineCurve(originPointCongestionWindow, timeToOriginPoint, elapsed)
    {
      var offset := timeToOriginPoint - elapsed;
      if offset < 0 {
        offset := -offset;
      }
      var deltaCongestionWindow := Int64(WINDOW_SCALE * Cube(offset)) / TWO_40;
      if elapsed > timeToOriginPoint {
        target := Uint64(originPointCongestionWindow + deltaCongestionWindow);
      } else {
        target := Uint64(originPointCongestionWindow - deltaCongestionWindow);
      }
    }

    method StartEpoch(window: nat, now: int) returns (start: int)
      modifies this
      ensures View() == WithEpoch(old(View()), window, now) && epoch == Some(start)
    {
      if epoch.None? {
        epoch := Some(now);
        ackedPacketsCount := 1;
        estimatedTCPcongestionWindow := window;
        if lastMaxCongestionWindow <= window {
          timeToOriginPoint := 0;
          originPointCongestionWindow := window;
        } else {
          timeToOriginPoint := CubeRoot(Uint64(CUBE_FACTOR * (lastMaxCongestionWindow - window)));
          originPointCongestionWindow := lastMaxCongestionWindow;
        }
      } else if appLimitedStartTime.Some? {
        epoch := Some(epoch.value + (now - appLimitedStartTime.value));
        appLimitedStartTime := None;
      }
      start := epoch.value;
    }

    /** The loop ends, because the estimate outgrows what the ACKs allow. */
    method UpdateEstimate()
      requires numConnections > 0
      modifies this`ackedPacketsCount, this`estimatedTCPcongestionWindow
      ensures (ackedPacketsCount, estimatedTCPcongestionWindow)
           == Estimated(old(ackedPacketsCount), old(estimatedTCPcongestionWindow), Alpha(numConnections))
    {
      var alpha := Alpha(numConnections);
      ghost var all := Estimated(ackedPacketsCount, estimatedTCPcongestionWindow, alpha);
      while true
        invariant Estimated(ackedPacketsCount, estimatedTCPcongestionWindow, alpha) == all
        decreases Bound(ackedPacketsCount, alpha) - estimatedTCPcongestionWindow
      {
        var required := Required(estimatedTCPcongestionWindow, alpha);
        if ackedPacketsCount < required {
          break;
        }
        BelowBound(ackedPacketsCount, estimatedTCPcongestionWindow, alpha);
        BoundGrows(ackedPacketsCount - required, ackedPacketsCount, alpha);
        ackedPacketsCount := ackedPacketsCount - required;
        estimatedTCPcongestionWindow := estimatedTCPcongestionWindow + 1;
      }
    }
  }
}
