/** What CUBIC's window is: the larger of the curve and the estimate of a TCP window, a share of
    the window after a loss, and a curve that stands still while the application is limited. */
module CubicEffects {
  import opened Numbers
  import opened Options
  import opened Words
  import opened Cubic

  // ---------------------------------------------------------------------------
  // ACKs
  // ---------------------------------------------------------------------------

  /** In every run, an ACK returns the larger of the target and the estimate of that time,
      whether they were computed anew or not. */
  lemma ResultIsLarger(n: nat, run: seq<System>, steps: seq<Step>, i: nat)
    requires n > 0 && IsRun(n, run, steps) && i < |steps| && steps[i].Ack?
    ensures
      var x := run[i + 1];
      && x.result >= x.s.lastTarget && x.result >= x.s.estimated
      && (x.result == x.s.lastTarget || x.result == x.s.estimated)
  {
    assert Next(n, run[i], steps[i], run[i + 1]);
  }

  /** In every run, a timely ACK returns at least the curve's value for four and a half minutes. */
  lemma TimelyAcksReturnCurve(n: nat, run: seq<System>, steps: seq<Step>, i: nat)
    requires n > 0 && IsRun(n, run, steps) && i < |steps| && steps[i].Ack?
    requires !IsRecent(run[i].s, steps[i].window, steps[i].now)
    requires IsTimely(run[i].s, steps[i].delayMin, steps[i].now)
    ensures
      var s := AtCurve(run[i].s, steps[i].window, steps[i].now);
      var t := Elapsed(s.epoch.value, steps[i].delayMin, steps[i].now);
      s.origin < TWO_64 / 2 && Distance(s.timeToOrigin, t) <= 282_294
      ==> run[i + 1].result >= Curve(s.origin, s.timeToOrigin, t) >= run[i + 1].start
  {
    TimelyAcksFollowCurve(n, run, steps, i);
    ResultIsLarger(n, run, steps, i);
  }

  /** The first ACK of an epoch aims the curve at the larger of the window and the last
      maximum, at the present. After that the curve stands still while the application is
      limited: as much time lies behind the epoch as did when the limitation began. */
  lemma EpochIs(s: State, window: nat, now: int)
    ensures
      var s' := AtCurve(s, window, now);
      if s.epoch.None? then
        && s'.epoch == Some(now) && s'.origin == Max(window, s.lastMax)
        && s'.timeToOrigin == TimeToOrigin(s'.origin, window)
        && s'.estimated == window && s'.acked == 1 && s'.appLimited == s.appLimited
      else
        && now - s'.epoch.value == (if s.appLimited.Some? then s.appLimited.value else now) - s.epoch.value
        && s'.appLimited == None
        && s'.origin == s.origin && s'.timeToOrigin == s.timeToOrigin
        && s'.estimated == s.estimated && s'.acked == s.acked + 1
  {
    RootOfZero();
  }

  /** The window is computed anew unless it is the same as 30 milliseconds ago or less. */
  lemma UpdatesAreSpaced(s: State, window: nat, delayMin: int, now: int, alpha: real)
    requires alpha > 0.0
    ensures
      var s' := AfterAck(s, window, delayMin, now, alpha).0;
      if s.lastUpdate.Some? && window == s.lastWindow && now <= s.lastUpdate.value + 30_000
      then s' == s.(acked := s.acked + 1)
      else s'.lastUpdate == Some(now) && s'.lastWindow == window && s'.epoch.Some?
  {
  }

  /** The start of a limited period is kept until the next ACK. */
  lemma AppLimitedIs(s: State, now: int)
    ensures AfterAppLimited(s, now) == s.(appLimited := Some(if s.appLimited.Some? then s.appLimited.value else now))
  {
  }

  // ---------------------------------------------------------------------------
  // The curve
  // ---------------------------------------------------------------------------

  /** The time since the epoch and one round trip, in fractions of 1024 of a second. */
  lemma ElapsedIs(epoch: int, delayMin: int, now: int)
    requires now + delayMin >= epoch
    ensures
      var t := Elapsed(epoch, delayMin, now);
      t * 1_000_000 <= (now + delayMin - epoch) * 1024 < (t + 1) * 1_000_000
  {
  }

  /** Before the origin point the curve is below it and after it above, by 410 times the cube
      of the distance in time, in units of 2^40 and rounded down. */
  lemma CurveIs(origin: int, k: nat, t: int)
    ensures
      var y, x := Curve(origin, k, t), t - k;
      if x >= 0 then TWO_40 * (y - origin) <= 410 * (x * x * x) < TWO_40 * (y - origin + 1)
      else TWO_40 * (origin - y) <= 410 * (-x * -x * -x) < TWO_40 * (origin - y + 1)
  {
    var x: nat := if t > k then t - k else k - t;
    assert Cube(x) == x * x * x;
    CubeGrows(0, x);
    DividedBy(410 * Cube(x), TWO_40);
  }

  lemma DividedBy(a: nat, b: nat)
    requires b > 0
    ensures b * (a / b) <= a < b * (a / b + 1)
  {
    assert a == b * (a / b) + a % b;
    assert b * (a / b + 1) == b * (a / b) + b;
  }

  // ---------------------------------------------------------------------------
  // The estimate
  // ---------------------------------------------------------------------------

  /** Growth by one takes as many ACKs as the estimate is multiples of `alpha`. */
  lemma RequiredIs(estimated: nat, alpha: real)
    requires alpha > 0.0
    ensures
      var k := Required(estimated, alpha);
      k as real * alpha <= estimated as real < (k as real + 1.0) * alpha
  {
    var q, k := estimated as real / alpha, Required(estimated, alpha);
    assert k as real <= q < k as real + 1.0;
    TimesAtMost(k as real, q, alpha);
    TimesLess(q, k as real + 1.0, alpha);
  }

  /** The ACKs that growth from `from` to `to` takes. */
  function Cost(from: nat, to: nat, alpha: real): nat
    requires alpha > 0.0
    decreases if from < to then to - from else 0
  {
    if from >= to then 0 else Required(from, alpha) + Cost(from + 1, to, alpha)
  }

  /** All ACKs are used for growth but those that do not suffice for another step. */
  lemma {:induction false} EstimateIsExact(acked: nat, estimated: nat, alpha: real)
    requires alpha > 0.0
    ensures
      var (acked', estimated') := Estimated(acked, estimated, alpha);
      && acked == acked' + Cost(estimated, estimated', alpha)
      && acked' < Required(estimated', alpha)
    decreases Bound(acked, alpha) - estimated
  {
    var required := Required(estimated, alpha);
    if acked >= required {
      BelowBound(acked, estimated, alpha);
      BoundGrows(acked - required, acked, alpha);
      EstimateIsExact(acked - required, estimated + 1, alpha);
    }
  }

  /** The growth factor of `n` emulated connections, which lose the part `1 - f` at a loss. */
  lemma AlphaIs(n: nat, f: real)
    requires n > 0 && f * n as real == n as real - 0.3
    ensures Alpha(n) * (1.0 + f) == 3.0 * n as real * n as real * (1.0 - f)
  {
    var x := n as real;
    assert Beta(n) * x == x - 0.3;
    SameFactor(f, Beta(n), x);
    QuotientTimes(3.0 * x * x * (1.0 - f), 1.0 + f);
  }

  lemma QuotientTimes(a: real, b: real)
    requires b > 0.0
    ensures a / b * b == a
  {
  }

  // ---------------------------------------------------------------------------
  // The way to the origin point
  // ---------------------------------------------------------------------------

  /** The time to the origin point is the cube root of the scaled distance, rounded down, and
      the curve is at the origin point then. */
  lemma TimeIsExact(origin: nat, start: nat, k: nat)
    requires start <= origin && 2_681_735_677 * (origin - start) < TWO_64
    ensures k == TimeToOrigin(origin, start) <==> Cube(k) <= 2_681_735_677 * (origin - start) < Cube(k + 1)
    ensures Curve(origin, k, k) == origin
  {
    assert CUBE_FACTOR == 2_681_735_677;
    var n, root := CUBE_FACTOR * (origin - start), TimeToOrigin(origin, start);
    assert Uint64(n) == n;
    if k < root {
      CubeGrows(k + 1, root);
    } else if k > root {
      CubeGrows(root + 1, k);
    }
  }

  // ---------------------------------------------------------------------------
  // Losses
  // ---------------------------------------------------------------------------

  /** `r` is the part `f` of `window`, rounded down. */
  predicate IsPart(r: nat, window: nat, f: real) {
    r as real <= window as real * f < r as real + 1.0
  }

  /** With `n` emulated connections a loss leaves `(n - 0.3) / n` of the window. The curve is
      aimed at the window before the loss, or at 85 percent of it if the last maximum was not
      reached. The epoch ends. */
  lemma LossIsExact(s: State, window: nat, n: nat, f: real)
    requires n > 0 && f * n as real == n as real - 0.3
    ensures
      var (s', r) := AfterLoss(s, window, n);
      && IsPart(r, window, f)
      && (if window < s.lastMax then IsPart(s'.lastMax, window, 0.85) else s'.lastMax == window)
      && s' == s.(lastMax := s'.lastMax, epoch := None)
  {
    var x := n as real;
    assert Beta(n) * x == x - 0.3;
    SameFactor(f, Beta(n), x);
  }

  lemma SameFactor(a: real, b: real, x: real)
    requires x > 0.0 && a * x == b * x
    ensures a == b
  {
  }
}
