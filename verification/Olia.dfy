/** OLIA, the coupled congestion control of several paths: windows grow with a term that is
    common to all paths and a correction, epsilon, that moves traffic between paths. */
module Olia {
  import opened Numbers
  import opened Lists
  import opened Words
  import opened Champions
  import Cubic

  const SCALE: nat := 1024
  const MIN_WINDOW: nat := 2

  /** One path's sender. `rtt` is the smoothed round-trip time, and the three loss counters
      are the bytes acknowledged up to the last but one loss, up to the last one and now. */
  datatype Sender = Sender(
    cwnd: nat, ssthresh: nat, maxWindow: nat,
    rtt: nat,
    loss1: nat, loss2: nat, loss3: nat,
    epsilonNum: int, epsilonDen: nat,
    count: int)

  type Senders = map<nat, Sender>

  function Minus(a: nat, b: nat): nat {
    if a >= b then a - b else 0
  }

  /** Bytes between losses, smoothed. */
  function Bytes(s: Sender): nat {
    Max(Minus(s.loss3, s.loss2), Minus(s.loss2, s.loss1))
  }

  // ---------------------------------------------------------------------------
  // Epsilon
  // ---------------------------------------------------------------------------

  /** Bytes and squared round-trip time of a path. */
  datatype Best = Best(bytes: nat, rtt2: nat)

  function Squared(s: Sender): nat {
    s.rtt * s.rtt
  }

  function Quality(s: Sender): Best {
    Best(Bytes(s), Squared(s))
  }

  /** `a` has at least as many bytes per squared round-trip time as `b`. */
  predicate AtLeast(a: Best, b: Best) {
    a.bytes * b.rtt2 >= b.bytes * a.rtt2
  }

  /** The comparison in 64-bit arithmetic. The square need not be reduced before the product
      is (`SquareMayWait`). */
  predicate AsGood(s: Sender, best: Best) {
    Int64(Bytes(s) * best.rtt2) >= Int64(best.bytes * Squared(s))
  }

  ghost predicate IsMaxWindow(ss: Senders, m: nat) {
    && (forall id | id in ss :: ss[id].cwnd <= m)
    && (ss == map[] || exists id | id in ss :: ss[id].cwnd == m)
  }

  /** Paths with the largest window. */
  function Largest(ss: Senders, m: nat): set<nat> {
    set id | id in ss && ss[id].cwnd == m
  }

  /** Best paths that do not have the largest window. */
  function Deprived(ss: Senders, m: nat, best: Best): set<nat> {
    set id | id in ss && ss[id].cwnd < m && AsGood(ss[id], best)
  }

  /** The correction of a path, as numerator and denominator. */
  function Epsilon(ss: Senders, m: nat, best: Best, id: nat): (int, nat)
    requires id in ss
  {
    var deprived, largest := Deprived(ss, m, best), Largest(ss, m);
    if deprived == {} then (0, 1)
    else if id in deprived then (1, |ss| * |deprived|)
    else if id in largest then (-1, |ss| * |largest|)
    else (0, 1)
  }

  function WithEpsilon(s: Sender, e: (int, nat)): Sender {
    s.(epsilonNum := e.0, epsilonDen := e.1)
  }

  function WithEpsilons(ss: Senders, m: nat, best: Best): Senders {
    map id | id in ss :: WithEpsilon(ss[id], Epsilon(ss, m, best, id))
  }

  /** The signed fractions of the paths in `ids`, added up. */
  function Sum(ss: Senders, ids: seq<nat>): real
    requires forall id | id in ids :: id in ss && ss[id].epsilonDen > 0
  {
    if ids == [] then 0.0
    else Sum(ss, ids[..|ids| - 1]) + Fraction(ss[ids[|ids| - 1]])
  }

  function Fraction(s: Sender): real
    requires s.epsilonDen > 0
  {
    s.epsilonNum as real / s.epsilonDen as real
  }

  /** `ids` lists every path once. */
  ghost predicate Enumerates(ids: seq<nat>, all: set<nat>) {
    NoDups(ids) && Elements(ids) == all
  }

  function CountIn(ids: seq<nat>, of_: set<nat>): nat {
    if ids == [] then 0 else CountIn(ids[..|ids| - 1], of_) + if ids[|ids| - 1] in of_ then 1 else 0
  }

  lemma OneMoreElement(of_: set<nat>, all: set<nat>, x: nat)
    requires x !in all
    ensures |of_ * (all + {x})| == |of_ * all| + if x in of_ then 1 else 0
  {
    if x in of_ {
      assert of_ * (all + {x}) == of_ * all + {x};
    } else {
      assert of_ * (all + {x}) == of_ * all;
    }
  }

  lemma {:induction false} CountInIsSize(ids: seq<nat>, of_: set<nat>)
    requires NoDups(ids)
    ensures CountIn(ids, of_) == |of_ * Elements(ids)|
  {
    if ids != [] {
      var n := |ids| - 1;
      CountInIsSize(ids[..n], of_);
      assert Elements(ids) == Elements(ids[..n]) + {ids[n]} by {
        assert ids == ids[..n] + [ids[n]];
      }
      OneMoreElement(of_, Elements(ids[..n]), ids[n]);
    }
  }

  /** The share of a path: `u` up, `v` down or nothing. */
  function Share(id: nat, up: set<nat>, down: set<nat>, u: real, v: real): real {
    if id in up then u else if id in down then -v else 0.0
  }

  function Times(n: nat, x: real): real {
    if n == 0 then 0.0 else Times(n - 1, x) + x
  }

  lemma {:induction false} TimesIsProduct(n: nat, x: real)
    ensures Times(n, x) == n as real * x
  {
    if n > 0 {
      TimesIsProduct(n - 1, x);
    }
  }

  lemma {:induction false} SumOfShares(ss: Senders, ids: seq<nat>, up: set<nat>, down: set<nat>, u: real, v: real)
    requires up !! down
    requires forall id | id in ids :: id in ss && ss[id].epsilonDen > 0 && Fraction(ss[id]) == Share(id, up, down, u, v)
    ensures Sum(ss, ids) == Times(CountIn(ids, up), u) - Times(CountIn(ids, down), v)
  {
    if ids != [] {
      var n := |ids| - 1;
      SumOfShares(ss, ids[..n], up, down, u, v);
      assert ids[n] in ids;
    }
  }

  /** `k` shares of one `n` times `k`-th are one `n`-th. */
  lemma SharesAddUp(k: nat, n: nat)
    requires k > 0 && n > 0
    ensures n * k > 0 && k as real * (1.0 / (n * k) as real) == 1.0 / n as real
  {
    assert (n * k) as real == n as real * k as real;
    CancelFactor(k as real, n as real);
  }

  lemma CancelFactor(k: real, n: real)
    requires k > 0.0 && n > 0.0
    ensures n * k > 0.0 && k * (1.0 / (n * k)) == 1.0 / n
  {
    var x := 1.0 / (n * k);
    assert x * (n * k) == 1.0;
    assert (k * x) * n == x * (n * k);
    QuotientIs(k * x, n);
  }

  lemma QuotientIs(y: real, n: real)
    requires n > 0.0 && y * n == 1.0
    ensures y == 1.0 / n
  {
  }

  lemma EpsilonIsShare(ss: Senders, m: nat, best: Best, id: nat)
    requires id in ss && Deprived(ss, m, best) != {} && Largest(ss, m) != {}
    ensures
      var up, down := Deprived(ss, m, best), Largest(ss, m);
      var s := WithEpsilons(ss, m, best)[id];
      && |ss| > 0 && |ss| * |up| > 0 && |ss| * |down| > 0
      && s.epsilonDen > 0
      && Fraction(s) == Share(id, up, down, 1.0 / (|ss| * |up|) as real, 1.0 / (|ss| * |down|) as real)
  {
    var up, down := Deprived(ss, m, best), Largest(ss, m);
    assert |ss| > 0 && |up| > 0 && |down| > 0;
    SharesAddUp(|up|, |ss|);
    SharesAddUp(|down|, |ss|);
    Negated((|ss| * |down|) as real);
  }

  lemma Negated(x: real)
    requires x > 0.0
    ensures -1.0 / x == -(1.0 / x)
  {
  }

  /** Every sender gets its share of `1 / n` up or down. */
  ghost predicate Shared(ss: Senders, ids: seq<nat>, up: set<nat>, down: set<nat>, n: nat)
    requires n * |up| > 0 && n * |down| > 0
  {
    forall id | id in ids ::
      && id in ss && ss[id].epsilonDen > 0
      && Fraction(ss[id]) == Share(id, up, down, 1.0 / (n * |up|) as real, 1.0 / (n * |down|) as real)
  }

  lemma SharesCancel(ss: Senders, ids: seq<nat>, up: set<nat>, down: set<nat>, n: nat)
    requires Enumerates(ids, ss.Keys)
    requires n > 0 && up != {} && down != {} && n * |up| > 0 && n * |down| > 0
    requires up !! down && up <= ss.Keys && down <= ss.Keys
    requires Shared(ss, ids, up, down, n)
    ensures Sum(ss, ids) == 0.0
  {
    var u, v := 1.0 / (n * |up|) as real, 1.0 / (n * |down|) as real;
    SumOfShares(ss, ids, up, down, u, v);
    AllCounted(ids, up, u, n);
    AllCounted(ids, down, v, n);
  }

  lemma EpsilonsAreShared(ss: Senders, m: nat, best: Best, ids: seq<nat>)
    requires Enumerates(ids, ss.Keys) && Deprived(ss, m, best) != {} && Largest(ss, m) != {}
    ensures
      var up, down := Deprived(ss, m, best), Largest(ss, m);
      && |ss| > 0 && |ss| * |up| > 0 && |ss| * |down| > 0
      && Shared(WithEpsilons(ss, m, best), ids, up, down, |ss|)
  {
    var some :| some in Deprived(ss, m, best);
    EpsilonIsShare(ss, m, best, some);
    forall id | id in ids
      ensures id in ss
    {
      assert id in Elements(ids);
    }
    forall id | id in ids
      ensures
        var up, down := Deprived(ss, m, best), Largest(ss, m);
        var ss' := WithEpsilons(ss, m, best);
        && id in ss' && ss'[id].epsilonDen > 0
        && Fraction(ss'[id]) == Share(id, up, down, 1.0 / (|ss| * |up|) as real, 1.0 / (|ss| * |down|) as real)
    {
      EpsilonIsShare(ss, m, best, id);
    }
  }

  lemma NothingToShare(ss: Senders, m: nat, best: Best, ids: seq<nat>)
    requires Enumerates(ids, ss.Keys) && Deprived(ss, m, best) == {}
    ensures forall id | id in ids :: id in ss
    ensures Sum(WithEpsilons(ss, m, best), ids) == 0.0
  {
    forall id | id in ids
      ensures id in ss
    {
      assert id in Elements(ids);
    }
    SumOfShares(WithEpsilons(ss, m, best), ids, {}, {}, 0.0, 0.0);
    NoneIn(ids);
  }

  /** The corrections of all paths cancel out, and their denominators are positive. */
  lemma EpsilonsCancel(ss: Senders, m: nat, best: Best, ids: seq<nat>)
    requires IsMaxWindow(ss, m) && Enumerates(ids, ss.Keys)
    ensures
      var ss' := WithEpsilons(ss, m, best);
      && (forall id | id in ids :: id in ss' && ss'[id].epsilonDen > 0)
      && Sum(ss', ids) == 0.0
  {
    if Deprived(ss, m, best) == {} {
      NothingToShare(ss, m, best, ids);
    } else {
      var some :| some in Deprived(ss, m, best);
      var largest :| largest in ss && ss[largest].cwnd == m;
      assert largest in Largest(ss, m);
      EpsilonsAreShared(ss, m, best, ids);
      SharesCancel(WithEpsilons(ss, m, best), ids, Deprived(ss, m, best), Largest(ss, m), |ss|);
    }
  }

  lemma {:induction false} NoneIn(ids: seq<nat>)
    ensures CountIn(ids, {}) == 0
  {
    if ids != [] {
      NoneIn(ids[..|ids| - 1]);
    }
  }

  lemma AllCounted(ids: seq<nat>, of_: set<nat>, u: real, n: nat)
    requires NoDups(ids)
    requires of_ != {} && of_ <= Elements(ids) && n > 0 && n * |of_| > 0 && u == 1.0 / (n * |of_|) as real
    ensures Times(CountIn(ids, of_), u) == 1.0 / n as real
  {
    CountInIsSize(ids, of_);
    assert of_ * Elements(ids) == of_;
    TimesIsProduct(|of_|, u);
    SharesAddUp(|of_|, n);
  }

  // ---------------------------------------------------------------------------
  // The best paths
  // ---------------------------------------------------------------------------

  predicate IsBlank(b: Best) {
    b.bytes == 0 && b.rtt2 == 0
  }

  lemma AtLeastIsTransitive(a: Best, b: Best, c: Best)
    requires AtLeast(a, b) && AtLeast(b, c) && !IsBlank(b)
    ensures AtLeast(a, c)
  {
    if b.rtt2 == 0 {
      ZeroFactor(b.bytes, a.rtt2);
    } else {
      assert (a.bytes * b.rtt2) * c.rtt2 >= (b.bytes * a.rtt2) * c.rtt2;
      assert (b.bytes * c.rtt2) * a.rtt2 >= (c.bytes * b.rtt2) * a.rtt2;
      assert (a.bytes * c.rtt2) * b.rtt2 >= (c.bytes * a.rtt2) * b.rtt2;
      CancelCommon(a.bytes * c.rtt2, c.bytes * a.rtt2, b.rtt2);
    }
  }

  lemma ZeroFactor(a: nat, b: nat)
    requires a > 0 && a * b <= 0
    ensures b == 0
  {
  }

  lemma CancelCommon(x: int, y: int, k: nat)
    requires k > 0 && x * k >= y * k
    ensures x >= y
  {
  }

  /** No path lacks both a round-trip time and bytes between losses, as a new one does. */
  ghost predicate NoneBlank(ss: Senders) {
    forall id | id in ss :: !IsBlank(Quality(ss[id]))
  }

  /** The products that are compared fit a signed 64-bit number. */
  ghost predicate Fits(ss: Senders) {
    forall i, j | i in ss && j in ss :: Bytes(ss[i]) * Squared(ss[j]) < TWO_64 / 2
  }

  /** `best` is the quality of one of the paths and no path is better. */
  ghost predicate IsBest(ss: Senders, best: Best) {
    && (forall id | id in ss :: AtLeast(best, Quality(ss[id])))
    && (ss == map[] || exists id | id in ss :: best == Quality(ss[id]))
  }

  /** What the loop finds that looks at the paths in this order. */
  function BestInOrder(ss: Senders, ids: seq<nat>): (best: Best)
    requires forall id | id in ids :: id in ss
  {
    if ids == [] then Best(0, 0)
    else
      var n := |ids| - 1;
      var best, s := BestInOrder(ss, ids[..n]), ss[ids[n]];
      if AsGood(s, best) then Quality(s) else best
  }

  lemma SquareMayWait(bytes: nat, rtt2: nat)
    ensures Int64(bytes * Int64(rtt2)) == Int64(bytes * rtt2)
  {
    var w := (rtt2 + TWO_64 / 2) / TWO_64;
    assert Int64(rtt2) == rtt2 - w * TWO_64;
    assert bytes * Int64(rtt2) == bytes * rtt2 - (bytes * w) * TWO_64;
    MultipleIsLost(bytes * rtt2, bytes * w);
  }

  lemma MultipleIsLost(x: int, k: int)
    ensures Int64(x - k * TWO_64) == Int64(x)
  {
  }

  lemma PairIsExact(s: Sender, t: Sender)
    requires Bytes(s) * Squared(t) < TWO_64 / 2 && Bytes(t) * Squared(s) < TWO_64 / 2
    ensures AsGood(s, Quality(t)) <==> AtLeast(Quality(s), Quality(t))
  {
    SmallIsExact(Bytes(s) * Squared(t), Bytes(t) * Squared(s));
  }

  lemma SmallIsExact(x: nat, y: nat)
    requires x < TWO_64 / 2 && y < TWO_64 / 2
    ensures Int64(x) >= Int64(y) <==> x >= y
  {
  }

  ghost predicate BestInEveryOrder(ss: Senders) {
    forall ids | Enumerates(ids, ss.Keys) && (forall id | id in ids :: id in ss) :: IsBest(ss, BestInOrder(ss, ids))
  }

  ghost predicate AllEqual(ss: Senders) {
    forall i, j | i in ss && j in ss :: AtLeast(Quality(ss[i]), Quality(ss[j]))
  }

  /** No path is better than `id`. */
  ghost predicate IsTop(ss: Senders, id: nat) {
    id in ss && forall other | other in ss :: AtLeast(Quality(ss[id]), Quality(ss[other]))
  }

  /** The comparison of paths, as the loop makes it. */
  function Takes(ss: Senders): Relation {
    (i, j) => i in ss && j in ss && AsGood(ss[i], Quality(ss[j]))
  }

  /** Path `id` leads to every other path by a chain of comparisons. */
  ghost predicate CanWin(ss: Senders, id: nat) {
    ReachesAll(Takes(ss), ss.Keys, id)
  }

  lemma {:induction false} BestIsWinner(ss: Senders, ids: seq<nat>)
    requires ids != [] && forall id | id in ids :: id in ss
    ensures BestInOrder(ss, ids) == Quality(ss[Winner(Takes(ss), ids)])
  {
    var n := |ids| - 1;
    if n == 0 {
      assert ids[..n] == [];
    } else {
      BestIsWinner(ss, ids[..n]);
    }
  }

  lemma TakesIsTotal(ss: Senders)
    ensures IsTotal(Takes(ss), ss.Keys)
  {
    forall i, j | i in ss.Keys && j in ss.Keys
      ensures Takes(ss)(i, j) || Takes(ss)(j, i)
    {
      OneIsAsGood(ss[i], ss[j]);
    }
  }

  lemma OneIsAsGood(s: Sender, t: Sender)
    ensures AsGood(s, Quality(t)) || AsGood(t, Quality(s))
  {
  }

  /** The loop finds the quality of a path that can win. */
  lemma WinnerIsFound(ss: Senders, ids: seq<nat>) returns (w: nat)
    requires ss != map[] && Enumerates(ids, ss.Keys) && forall id | id in ids :: id in ss
    ensures CanWin(ss, w) && BestInOrder(ss, ids) == Quality(ss[w])
  {
    var some :| some in ss.Keys;
    assert ids != [] by {
      assert some in Elements(ids);
    }
    w := Winner(Takes(ss), ids);
    BestIsWinner(ss, ids);
    TakesIsTotal(ss);
    WinnerReachesAll(Takes(ss), ss.Keys, ids);
  }

  /** And it finds each of them in some order. */
  lemma WinnerHasOrder(ss: Senders, w: nat) returns (ids: seq<nat>)
    requires CanWin(ss, w)
    ensures Enumerates(ids, ss.Keys) && forall id | id in ids :: id in ss
    ensures BestInOrder(ss, ids) == Quality(ss[w])
  {
    ids := ReacherWins(Takes(ss), ss.Keys, w);
    assert forall id :: id in ids <==> id in Elements(ids);
    BestIsWinner(ss, ids);
  }

  /** The loop finds a best path in every order exactly if no path is better than one that can
      win, whatever overflows. */
  lemma BestIffWinnersAre(ss: Senders)
    ensures BestInEveryOrder(ss) <==> forall w | CanWin(ss, w) :: IsTop(ss, w)
  {
    if BestInEveryOrder(ss) {
      forall w | CanWin(ss, w)
        ensures IsTop(ss, w)
      {
        var ids := WinnerHasOrder(ss, w);
      }
    } else {
      var ids :| Enumerates(ids, ss.Keys) && (forall id | id in ids :: id in ss) && !IsBest(ss, BestInOrder(ss, ids));
      var w := WinnerIsFound(ss, ids);
      assert !IsTop(ss, w);
    }
  }

  /** In every order, the paths that count as best are exactly those that none is better than. */
  ghost predicate TopInEveryOrder(ss: Senders) {
    forall ids, id | Enumerates(ids, ss.Keys) && (forall i | i in ids :: i in ss) && id in ss ::
      AsGood(ss[id], BestInOrder(ss, ids)) <==> IsTop(ss, id)
  }

  /** This holds exactly if it holds of all paths that can win. */
  lemma TopIffWinnersTell(ss: Senders)
    ensures TopInEveryOrder(ss)
       <==> forall w, id | CanWin(ss, w) && id in ss :: AsGood(ss[id], Quality(ss[w])) <==> IsTop(ss, id)
  {
    if TopInEveryOrder(ss) {
      forall w, id | CanWin(ss, w) && id in ss
        ensures AsGood(ss[id], Quality(ss[w])) <==> IsTop(ss, id)
      {
        var ids := WinnerHasOrder(ss, w);
      }
    } else {
      var ids, id :| Enumerates(ids, ss.Keys) && (forall i | i in ids :: i in ss) && id in ss
                     && (AsGood(ss[id], BestInOrder(ss, ids)) <==> !IsTop(ss, id));
      var w := WinnerIsFound(ss, ids);
    }
  }

  lemma BlankIsAsGood(s: Sender, blank: Sender)
    requires IsBlank(Quality(blank))
    ensures AsGood(s, Quality(blank)) && AsGood(blank, Quality(s))
  {
    assert Bytes(s) * 0 == 0 && 0 * Squared(s) == 0;
  }

  /** Next to a blank path every path can win. */
  lemma AllWinNextToBlank(ss: Senders, blank: nat, id: nat)
    requires blank in ss && IsBlank(Quality(ss[blank])) && id in ss
    ensures CanWin(ss, id)
  {
    var g := Takes(ss);
    BlankIsAsGood(ss[id], ss[blank]);
    forall j | j in ss.Keys
      ensures Reaches(g, ss.Keys, id, j)
    {
      BlankIsAsGood(ss[j], ss[blank]);
      ReachesSelf(g, ss.Keys, j);
      ReachesOn(g, ss.Keys, blank, j, j);
      ReachesOn(g, ss.Keys, id, blank, j);
    }
  }

  lemma {:induction false} ChainsAreOrdered(ss: Senders, chain: seq<nat>)
    requires NoneBlank(ss) && Fits(ss) && IsChain(Takes(ss), ss.Keys, chain)
    ensures AtLeast(Quality(ss[chain[0]]), Quality(ss[chain[|chain| - 1]]))
  {
    if |chain| > 1 {
      var n := |chain| - 1;
      ChainsAreOrdered(ss, chain[..n]);
      assert Takes(ss)(chain[n - 1], chain[n]);
      PairIsExact(ss[chain[n - 1]], ss[chain[n]]);
      AtLeastIsTransitive(Quality(ss[chain[0]]), Quality(ss[chain[n - 1]]), Quality(ss[chain[n]]));
    }
  }

  lemma WinnersAreTop(ss: Senders, w: nat)
    requires NoneBlank(ss) && Fits(ss) && CanWin(ss, w)
    ensures IsTop(ss, w)
  {
    forall other | other in ss
      ensures AtLeast(Quality(ss[w]), Quality(ss[other]))
    {
      assert Reaches(Takes(ss), ss.Keys, w, other);
      var chain :| IsChain(Takes(ss), ss.Keys, chain) && Links(chain, w, other);
      ChainsAreOrdered(ss, chain);
    }
  }

  /** With a blank path, the loop finds a best path in every order exactly if all paths are
      equally good. */
  lemma BestNextToBlank(ss: Senders, blank: nat)
    requires blank in ss && IsBlank(Quality(ss[blank]))
    ensures BestInEveryOrder(ss) <==> AllEqual(ss)
  {
    BestIffWinnersAre(ss);
    if AllEqual(ss) {
      assert forall w | CanWin(ss, w) :: IsTop(ss, w);
    } else {
      var i, j :| i in ss && j in ss && !AtLeast(Quality(ss[i]), Quality(ss[j]));
      AllWinNextToBlank(ss, blank, i);
      assert !IsTop(ss, i);
    }
  }

  /** Where products fit, it does exactly if no path is blank, or all are equally good. */
  lemma BestUnlessBlank(ss: Senders)
    requires Fits(ss)
    ensures BestInEveryOrder(ss) <==> NoneBlank(ss) || AllEqual(ss)
  {
    if NoneBlank(ss) {
      forall w | CanWin(ss, w)
        ensures IsTop(ss, w)
      {
        WinnersAreTop(ss, w);
      }
      BestIffWinnersAre(ss);
    } else {
      var blank :| blank in ss && IsBlank(Quality(ss[blank]));
      BestNextToBlank(ss, blank);
    }
  }

  /** A sender with this round-trip time and these bytes between losses. */
  function Fresh(rtt: nat, bytes: nat): Sender {
    Sender(1, 0, 2, rtt, 0, 0, bytes, 0, 1, 0)
  }

  /** A blank path hides that the first path is ten times as good as the last. */
  lemma BlankExample()
    ensures
      var ss := map[0 := Fresh(1, 10), 1 := Fresh(0, 0), 2 := Fresh(1, 1)];
      BestInOrder(ss, [0, 1, 2]) == Best(1, 1) && !AtLeast(Best(1, 1), Quality(ss[0]))
  {
    var ss := map[0 := Fresh(1, 10), 1 := Fresh(0, 0), 2 := Fresh(1, 1)];
    assert [0, 1, 2][..2] == [0, 1] && [0, 1][..1] == [0];
    assert AsGood(ss[1], BestInOrder(ss, [0]));
    assert BestInOrder(ss, [0, 1]) == Best(0, 0);
  }

  /** With 50 milliseconds, 4000 bytes lose against 3000 in either order. */
  lemma WrapExample()
    ensures
      var ss := map[0 := Fresh(50_000_000, 4000), 1 := Fresh(50_000_000, 3000)];
      && BestInOrder(ss, [0, 1]) == BestInOrder(ss, [1, 0]) == Quality(ss[1])
      && NoneBlank(ss) && !AtLeast(Quality(ss[1]), Quality(ss[0]))
  {
    var ss := map[0 := Fresh(50_000_000, 4000), 1 := Fresh(50_000_000, 3000)];
    assert Squared(ss[0]) == Squared(ss[1]) == 2_500_000_000_000_000;
    assert [0, 1][..1] == [0] && [1, 0][..1] == [1] && [0][..0] == [] && [1][..0] == [];
    assert BestInOrder(ss, [0]) == Quality(ss[0]);
    assert BestInOrder(ss, [1]) == Quality(ss[1]);
    assert Int64(10_000_000_000_000_000_000) < 0 <= Int64(7_500_000_000_000_000_000);
  }

  /** Where products fit and no path is blank, the paths that count as best are exactly those
      that none is better than. */
  lemma AsGoodIsBest(ss: Senders)
    requires NoneBlank(ss) && Fits(ss)
    ensures TopInEveryOrder(ss)
  {
    TopIffWinnersTell(ss);
    forall w, id | CanWin(ss, w) && id in ss
      ensures AsGood(ss[id], Quality(ss[w])) <==> IsTop(ss, id)
    {
      WinnersAreTop(ss, w);
      PairIsExact(ss[id], ss[w]);
      if AsGood(ss[id], Quality(ss[w])) {
        forall other | other in ss
          ensures AtLeast(Quality(ss[id]), Quality(ss[other]))
        {
          AtLeastIsTransitive(Quality(ss[id]), Quality(ss[w]), Quality(ss[other]));
        }
      }
    }
  }

  // ---------------------------------------------------------------------------
  // The rate
  // ---------------------------------------------------------------------------

  /** What a path adds to the rate of a path with round-trip time `rtt`. */
  function Term(s: Sender, rtt: nat): nat {
    if s.rtt == 0 then 0 else Uint64(Uint64(s.cwnd * SCALE) * rtt) / s.rtt
  }

  ghost function Terms(ss: Senders, ids: set<nat>, rtt: nat): nat
    requires ids <= ss.Keys
  {
    if ids == {} then 0
    else
      var id :| id in ids;
      Term(ss[id], rtt) + Terms(ss, ids - {id}, rtt)
  }

  ghost function Rate(ss: Senders, rtt: nat): nat {
    var sum := Uint64(1 + Terms(ss, ss.Keys, rtt));
    Uint64(sum * sum)
  }

  lemma {:induction false} TermsWithout(ss: Senders, ids: set<nat>, rtt: nat, id: nat)
    requires ids <= ss.Keys && id in ids
    ensures Terms(ss, ids, rtt) == Term(ss[id], rtt) + Terms(ss, ids - {id}, rtt)
    decreases |ids|
  {
    var other :| other in ids && Terms(ss, ids, rtt) == Term(ss[other], rtt) + Terms(ss, ids - {other}, rtt);
    if other != id {
      TermsWithout(ss, ids - {other}, rtt, id);
      TermsWithout(ss, ids - {id}, rtt, other);
      assert ids - {other} - {id} == ids - {id} - {other};
    }
  }

  lemma {:induction false} TermsAreSame(ss: Senders, ss': Senders, ids: set<nat>, rtt: nat)
    requires ids <= ss.Keys && ids <= ss'.Keys
    requires forall id | id in ids :: Term(ss[id], rtt) == Term(ss'[id], rtt)
    ensures Terms(ss, ids, rtt) == Terms(ss', ids, rtt)
    decreases |ids|
  {
    if ids != {} {
      var id :| id in ids;
      TermsWithout(ss, ids, rtt, id);
      TermsWithout(ss', ids, rtt, id);
      TermsAreSame(ss, ss', ids - {id}, rtt);
    }
  }

  lemma EpsilonsKeepRate(ss: Senders, m: nat, best: Best, rtt: nat)
    ensures Rate(WithEpsilons(ss, m, best), rtt) == Rate(ss, rtt)
  {
    var ss' := WithEpsilons(ss, m, best);
    assert ss'.Keys == ss.Keys;
    TermsAreSame(ss, ss', ss.Keys, rtt);
  }

  // ---------------------------------------------------------------------------
  // Windows
  // ---------------------------------------------------------------------------

  /** The term that all paths have in common, and the common denominator. */
  function Common(s: Sender): nat {
    Uint64(s.epsilonDen * Uint64(s.cwnd * SCALE) * Uint64(s.cwnd * SCALE))
  }

  function Denominator(s: Sender, rate: nat): (r: nat)
    ensures r > 0
  {
    var den := Uint64(s.epsilonDen * s.cwnd * rate);
    if den == 0 then 1 else den
  }

  function Scaled(x: nat, den: nat): int
    requires den > 0
  {
    Int64(Uint64(x * SCALE) / den)
  }

  function Increment(s: Sender, rate: nat): int {
    var common, den := Common(s), Denominator(s, rate);
    if s.epsilonNum == -1 then
      if common < rate then -Scaled(rate - common, den) else Scaled(common - rate, den)
    else Scaled(Uint64(s.epsilonNum * rate + common), den)
  }

  /** The window changes when the counter of fractions reaches one packet. */
  function AfterAck(s: Sender, rate: nat): Sender {
    var count := Int64(s.count + Increment(s, rate));
    if count >= SCALE - 1 then s.(cwnd := Min(s.maxWindow, s.cwnd + 1), count := 0)
    else if count <= 1 - SCALE then s.(cwnd := Min(s.maxWindow, Max(1, Minus(s.cwnd, 1))), count := 0)
    else s.(cwnd := Min(s.maxWindow, s.cwnd), count := count)
  }

  function AfterIncrease(ss: Senders, id: nat, limited: bool, m: nat, best: Best, rate: nat): Senders
    requires id in ss
  {
    var s := ss[id];
    if !limited || s.cwnd >= s.maxWindow then ss
    else if s.cwnd < s.ssthresh then ss[id := s.(cwnd := s.cwnd + 1)]
    else
      var ss' := WithEpsilons(ss, m, best);
      ss'[id := AfterAck(ss'[id], rate)]
  }

  /** A window's share that is left after a loss, for `n` emulated connections. */
  function Reduced(cwnd: nat, n: nat): nat
    requires n > 0
  {
    Cubic.Scaled(cwnd, Cubic.Beta(n))
  }

  function AfterLoss(s: Sender, n: nat, largeReduction: bool): Sender
    requires n > 0
  {
    var cwnd := if largeReduction && s.cwnd < s.ssthresh then Minus(s.cwnd, 1) else Reduced(s.cwnd, n);
    s.(loss1 := s.loss2, loss2 := s.loss3, cwnd := Max(cwnd, MIN_WINDOW), ssthresh := Max(cwnd, MIN_WINDOW))
  }

  /** Another loss of a cutback that ended slow start, with large reduction: the threshold
      follows the window even if the window is not cut. */
  function AfterLostAgain(s: Sender, cut: bool): Sender {
    var w := if cut then Max(Minus(s.cwnd, 1), MIN_WINDOW) else s.cwnd;
    s.(cwnd := w, ssthresh := w)
  }

  function AfterTimeout(s: Sender): Sender {
    s.(loss1 := 0, loss2 := 0, loss3 := 0, epsilonNum := 0, epsilonDen := 1, count := 0,
       ssthresh := s.cwnd / 2, cwnd := MIN_WINDOW)
  }

  predicate Ok(s: Sender) {
    && 1 <= s.cwnd <= s.maxWindow && MIN_WINDOW <= s.maxWindow
    && 1 - SCALE < s.count < SCALE - 1
    && s.loss1 <= s.loss2 <= s.loss3
    && -1 <= s.epsilonNum <= 1 && s.epsilonDen > 0
  }

  ghost predicate AllOk(ss: Senders) {
    forall id | id in ss :: Ok(ss[id])
  }

  /** An ACK moves the window by at most one packet, within its bounds, and leaves less than
      one packet in the counter. */
  lemma AckMovesByOne(s: Sender, rate: nat)
    requires Ok(s)
    ensures
      var s' := AfterAck(s, rate);
      Ok(s') && -1 <= s'.cwnd - s.cwnd <= 1
  {
  }

  lemma ReducedIsSmaller(cwnd: nat, n: nat)
    requires n > 0
    ensures Reduced(cwnd, n) <= cwnd
  {
    ProductAtMost(cwnd as real, Cubic.Beta(n));
  }

  lemma ProductAtMost(x: real, f: real)
    requires x >= 0.0 && f <= 1.0
    ensures x * f <= x
  {
  }

  lemma LossKeepsOk(s: Sender, n: nat, largeReduction: bool)
    requires Ok(s) && n > 0
    ensures Ok(AfterLoss(s, n, largeReduction)) && AfterLoss(s, n, largeReduction).cwnd <= Max(s.cwnd, MIN_WINDOW)
  {
    ReducedIsSmaller(s.cwnd, n);
  }

  lemma EpsilonKeepsOk(ss: Senders, m: nat, best: Best, id: nat)
    requires IsMaxWindow(ss, m) && id in ss && Ok(ss[id])
    ensures Ok(WithEpsilons(ss, m, best)[id])
  {
    var up, down := Deprived(ss, m, best), Largest(ss, m);
    if up != {} && (id in up || id in down) {
      assert |up| > 0 && |ss| > 0;
      ProductIsPositive(|ss|, |up|);
      ProductIsPositive(|ss|, |down|);
    }
  }

  lemma ProductIsPositive(a: nat, b: nat)
    ensures a > 0 && b > 0 ==> a * b > 0
  {
  }

  /** An ACK on one path keeps all senders in order and moves one window by at most one. */
  lemma IncreaseKeepsOk(ss: Senders, id: nat, limited: bool, m: nat, best: Best, rate: nat)
    requires AllOk(ss) && id in ss && IsMaxWindow(ss, m)
    ensures
      var ss' := AfterIncrease(ss, id, limited, m, best, rate);
      && AllOk(ss') && ss'.Keys == ss.Keys
      && (forall i | i in ss && i != id :: ss'[i].cwnd == ss[i].cwnd)
      && -1 <= ss'[id].cwnd - ss[id].cwnd <= 1
  {
    var s := ss[id];
    if limited && s.cwnd < s.maxWindow && s.cwnd >= s.ssthresh {
      forall i | i in ss
        ensures Ok(WithEpsilons(ss, m, best)[i])
      {
        EpsilonKeepsOk(ss, m, best, i);
      }
      AckMovesByOne(WithEpsilons(ss, m, best)[id], rate);
    }
  }

  // ---------------------------------------------------------------------------
  // Runs
  // ---------------------------------------------------------------------------

  /** Whether a sender is in recovery, is limited by its window, or sees a loss that belongs
      to an earlier cutback depends on packet numbers, which are not modelled: the steps may
      take any of these. `best` and `rate` are any values. */
  datatype Step =
    | Acked(id: nat, bytes: nat, recovering: bool, limited: bool, best: Best, rate: nat)
    | Lost(id: nat, n: nat, largeReduction: bool)
    | LostAgain(id: nat, reducing: bool, cut: bool)
    | TimedOut(id: nat)

  function WithAcked(ss: Senders, id: nat, bytes: nat): Senders
    requires id in ss
  {
    ss[id := ss[id].(loss3 := ss[id].loss3 + bytes)]
  }

  ghost predicate Next(ss: Senders, step: Step, ss': Senders) {
    && step.id in ss
    && match step
       case Acked(id, bytes, recovering, limited, best, rate) =>
         if recovering then ss' == ss
         else
           exists m :: IsMaxWindow(WithAcked(ss, id, bytes), m)
                       && ss' == AfterIncrease(WithAcked(ss, id, bytes), id, limited, m, best, rate)
       case Lost(id, n, large) => n > 0 && ss' == ss[id := AfterLoss(ss[id], n, large)]
       case LostAgain(id, reducing, cut) => ss' == if reducing then ss[id := AfterLostAgain(ss[id], cut)] else ss
       case TimedOut(id) => ss' == ss[id := AfterTimeout(ss[id])]
  }

  lemma NextKeepsOk(ss: Senders, step: Step, ss': Senders)
    requires AllOk(ss) && Next(ss, step, ss')
    ensures AllOk(ss')
  {
    match step
    case Acked(id, bytes, recovering, limited, best, rate) =>
      if !recovering {
        var m :| IsMaxWindow(WithAcked(ss, id, bytes), m)
                 && ss' == AfterIncrease(WithAcked(ss, id, bytes), id, limited, m, best, rate);
        IncreaseKeepsOk(WithAcked(ss, id, bytes), id, limited, m, best, rate);
      }
    case Lost(id, n, large) => LossKeepsOk(ss[id], n, large);
    case LostAgain(id, reducing, cut) =>
    case TimedOut(id) =>
  }

  ghost predicate IsRun(run: seq<Senders>, steps: seq<Step>) {
    && |run| == |steps| + 1
    && AllOk(run[0])
    && forall i | 0 <= i < |steps| :: Next(run[i], steps[i], run[i + 1])
  }

  /** In every run, all windows stay between one packet and their maximum and all counters
      below one packet. */
  lemma {:induction false} WindowsStayInBounds(run: seq<Senders>, steps: seq<Step>, i: nat)
    requires IsRun(run, steps) && i < |run|
    ensures AllOk(run[i])
  {
    if i > 0 {
      WindowsStayInBounds(run, steps, i - 1);
      NextKeepsOk(run[i - 1], steps[i - 1], run[i]);
    }
  }

  // ---------------------------------------------------------------------------
  // The program
  // ---------------------------------------------------------------------------

  lemma OneMoreInSet(all: set<nat>, todo: set<nat>, id: nat, count: nat)
    requires id in todo && count == |all - todo| % 256
    ensures |all - (todo - {id})| % 256 == if id in all then (count + 1) % 256 else count
  {
    if id in all {
      assert all - (todo - {id}) == all - todo + {id};
    } else {
      assert all - (todo - {id}) == all - todo;
    }
  }

  predicate IsEpsilon(s: Sender, m: nat, best: Best, n: nat, largest: nat, deprived: nat, num: int, den: nat) {
    if deprived == 0 then num == 0 && den == 1
    else if s.cwnd < m && AsGood(s, best) then num == 1 && den == n * deprived
    else if s.cwnd == m then num == -1 && den == n * largest
    else num == 0 && den == 1
  }

  lemma EpsilonIsRight(ss: Senders, id: nat, m: nat, best: Best, largest: nat, deprived: nat, num: int, den: nat)
    requires id in ss && AreCounts(ss, m, best, largest, deprived)
    requires IsEpsilon(ss[id], m, best, |ss|, largest, deprived, num, den)
    ensures WithEpsilons(ss, m, best)[id] == ss[id].(epsilonNum := num, epsilonDen := den)
  {
    if Deprived(ss, m, best) != {} {
      assert |Deprived(ss, m, best)| > 0;
    }
  }

  /** The counts as far as they matter. */
  ghost predicate AreCounts(ss: Senders, m: nat, best: Best, largest: nat, deprived: nat) {
    && deprived == |Deprived(ss, m, best)|
    && (deprived > 0 ==> largest == |Largest(ss, m)|)
  }

  /** Counters of eight bits are enough for the paths, whose ids have eight bits. */
  lemma BytesAreEnough(ss: Senders, m: nat, best: Best)
    requires IsMaxWindow(ss, m) && |ss| <= 256
    ensures AreCounts(ss, m, best, |Largest(ss, m)| % 256, |Deprived(ss, m, best)| % 256)
  {
    if Deprived(ss, m, best) != {} {
      var some :| some in Deprived(ss, m, best);
      var top :| top in ss && ss[top].cwnd == m;
      SmallerSet(Deprived(ss, m, best), ss.Keys, top);
      SmallerSet(Largest(ss, m), ss.Keys, some);
    }
  }

  lemma SmallerSet(part: set<nat>, all: set<nat>, x: nat)
    requires part <= all && x in all && x !in part && |all| <= 256
    ensures |part| % 256 == |part|
  {
    PartIsSmaller(part, all - {x});
  }

  lemma {:induction false} PartIsSmaller(part: set<nat>, all: set<nat>)
    requires part <= all
    ensures |part| <= |all|
  {
    if part != {} {
      var x :| x in part;
      PartIsSmaller(part - {x}, all - {x});
    }
  }

  /** The counts of the paths that are not in `todo`. */
  ghost predicate Counts(ss: Senders, m: nat, best: Best, todo: set<nat>, largest: nat, deprived: nat) {
    largest == |Largest(ss, m) - todo| % 256 && deprived == |Deprived(ss, m, best) - todo| % 256
  }

  lemma CountOne(ss: Senders, m: nat, best: Best, todo: set<nat>, largest: nat, deprived: nat, id: nat)
    requires IsMaxWindow(ss, m) && id in todo && id in ss && Counts(ss, m, best, todo, largest, deprived)
    ensures Counts(ss, m, best, todo - {id},
                   if ss[id].cwnd == m then (largest + 1) % 256 else largest,
                   if ss[id].cwnd != m && AsGood(ss[id], best) then (deprived + 1) % 256 else deprived)
  {
    OneMoreInSet(Largest(ss, m), todo, id, largest);
    OneMoreInSet(Deprived(ss, m, best), todo, id, deprived);
  }

  lemma NoneCounted(ss: Senders, m: nat, best: Best)
    ensures Counts(ss, m, best, ss.Keys, 0, 0)
  {
    assert Largest(ss, m) - ss.Keys == {} && Deprived(ss, m, best) - ss.Keys == {};
  }

  lemma AllCountsAreRight(ss: Senders, m: nat, best: Best, largest: nat, deprived: nat)
    requires IsMaxWindow(ss, m) && |ss| <= 256 && Counts(ss, m, best, {}, largest, deprived)
    ensures AreCounts(ss, m, best, largest, deprived)
  {
    assert Largest(ss, m) - {} == Largest(ss, m) && Deprived(ss, m, best) - {} == Deprived(ss, m, best);
    BytesAreEnough(ss, m, best);
  }

  method GetMaxCwnd(ss: Senders) returns (m: nat)
    ensures IsMaxWindow(ss, m)
  {
    m := 0;
    var todo := ss.Keys;
    while todo != {}
      invariant todo <= ss.Keys
      invariant forall id | id in ss && id !in todo :: ss[id].cwnd <= m
      invariant m == 0 || exists id | id in ss :: ss[id].cwnd == m
      decreases |todo|
    {
      var id :| id in todo;
      m := Max(m, ss[id].cwnd);
      todo := todo - {id};
    }
    if m == 0 && ss != map[] {
      var id :| id in ss;
      assert ss[id].cwnd == m;
    }
  }

  lemma OrderGrows(ss: Senders, ids: seq<nat>, todo: set<nat>, id: nat)
    requires id in todo && todo <= ss.Keys && NoDups(ids) && Elements(ids) == ss.Keys - todo
    requires forall i | i in ids :: i in ss
    ensures NoDups(ids + [id]) && Elements(ids + [id]) == ss.Keys - (todo - {id})
    ensures BestInOrder(ss, ids + [id]) ==
      if AsGood(ss[id], BestInOrder(ss, ids)) then Quality(ss[id]) else BestInOrder(ss, ids)
  {
    assert id !in Elements(ids);
    assert (ids + [id])[..|ids|] == ids;
    assert Elements(ids + [id]) == Elements(ids) + {id};
  }

  lemma FoundIsBest(ss: Senders, ids: seq<nat>)
    requires Enumerates(ids, ss.Keys) && forall id | id in ids :: id in ss
    ensures (forall w | CanWin(ss, w) :: IsTop(ss, w)) ==> IsBest(ss, BestInOrder(ss, ids))
    ensures AllEqual(ss) || (NoneBlank(ss) && Fits(ss)) ==> IsBest(ss, BestInOrder(ss, ids))
  {
    BestIffWinnersAre(ss);
    assert AllEqual(ss) ==> forall w | CanWin(ss, w) :: IsTop(ss, w);
    if Fits(ss) {
      BestUnlessBlank(ss);
    }
  }

  /** The best path in the order in which the map is iterated. */
  method GetBest(ss: Senders) returns (best: Best, ghost ids: seq<nat>)
    ensures Enumerates(ids, ss.Keys) && (forall id | id in ids :: id in ss) && best == BestInOrder(ss, ids)
    ensures (forall w | CanWin(ss, w) :: IsTop(ss, w)) ==> IsBest(ss, best)
    ensures AllEqual(ss) || (NoneBlank(ss) && Fits(ss)) ==> IsBest(ss, best)
  {
    best, ids := Best(0, 0), [];
    var todo := ss.Keys;
    while todo != {}
      invariant todo <= ss.Keys && NoDups(ids) && Elements(ids) == ss.Keys - todo
      invariant (forall id | id in ids :: id in ss) && best == BestInOrder(ss, ids)
      decreases |todo|
    {
      var id :| id in todo;
      OrderGrows(ss, ids, todo, id);
      if AsGood(ss[id], best) {
        best := Quality(ss[id]);
      }
      ids, todo := ids + [id], todo - {id};
    }
    FoundIsBest(ss, ids);
  }

  method CountPaths(ss: Senders, m: nat, best: Best) returns (largest: nat, deprived: nat)
    requires IsMaxWindow(ss, m) && |ss| <= 256
    ensures AreCounts(ss, m, best, largest, deprived)
  {
    largest, deprived := 0, 0;
    var todo := ss.Keys;
    NoneCounted(ss, m, best);
    while todo != {}
      invariant todo <= ss.Keys && Counts(ss, m, best, todo, largest, deprived)
      decreases |todo|
    {
      var id :| id in todo;
      CountOne(ss, m, best, todo, largest, deprived, id);
      if ss[id].cwnd == m {
        largest := (largest + 1) % 256;
      } else if AsGood(ss[id], best) {
        deprived := (deprived + 1) % 256;
      }
      todo := todo - {id};
    }
    AllCountsAreRight(ss, m, best, largest, deprived);
  }

  predicate SumsTo(rate: nat, rest: nat, all: nat) {
    Uint64(rate + rest) == Uint64(1 + all) && rate < TWO_64
  }

  lemma SumsOneMore(rate: nat, term: nat, rest: nat, all: nat)
    requires SumsTo(rate, term + rest, all)
    ensures SumsTo(Uint64(rate + term), rest, all) && Uint64(rate) == rate
  {
  }

  lemma SquareIsRate(ss: Senders, rtt: nat, sum: nat)
    requires SumsTo(sum, 0, Terms(ss, ss.Keys, rtt))
    ensures Uint64(sum * sum) == Rate(ss, rtt)
  {
    assert Uint64(sum) == sum;
  }

  method TermOf(s: Sender, rtt: nat) returns (term: nat)
    requires s.rtt != 0
    ensures term == Term(s, rtt)
  {
    var scaledNum := Uint64(Uint64(s.cwnd * SCALE) * rtt);
    term := scaledNum / s.rtt;
  }

  /** The square of the windows of all paths, each weighted by the round-trip times. */
  method GetRate(ss: Senders, rtt: nat) returns (rate: nat)
    ensures rate == Rate(ss, rtt)
  {
    rate := 1;
    var todo := ss.Keys;
    while todo != {}
      invariant todo <= ss.Keys && SumsTo(rate, Terms(ss, todo, rtt), Terms(ss, ss.Keys, rtt))
      decreases |todo|
    {
      var id :| id in todo;
      TermsWithout(ss, todo, rtt, id);
      SumsOneMore(rate, Term(ss[id], rtt), Terms(ss, todo - {id}, rtt), Terms(ss, ss.Keys, rtt));
      if ss[id].rtt != 0 {
        var term := TermOf(ss[id], rtt);
        rate := Uint64(rate + term);
      }
      todo := todo - {id};
    }
    SquareIsRate(ss, rtt, rate);
    rate := Uint64(rate * rate);
  }

  method EpsilonOf(s: Sender, m: nat, best: Best, n: nat, largest: nat, deprived: nat) returns (num: int, den: nat)
    ensures IsEpsilon(s, m, best, n, largest, deprived, num, den)
  {
    if deprived == 0 {
      return 0, 1;
    }
    if s.cwnd < m && AsGood(s, best) {
      return 1, n * deprived;
    }
    if s.cwnd == m {
      return -1, n * largest;
    }
    return 0, 1;
  }

  /** The window after an ACK, and what is left in the counter of fractions. */
  method CongestionWindowAfterAck(s: Sender, rate: nat) returns (newWindow: nat, count: int)
    requires s.cwnd > 0
    ensures s.(cwnd := Min(s.maxWindow, newWindow), count := count) == AfterAck(s, rate)
  {
    newWindow, count := s.cwnd, s.count;
    var incDen := Denominator(s, rate);
    var common := Common(s);
    if s.epsilonNum == -1 {
      if common < rate {
        count := Int64(count - Scaled(rate - common, incDen));
      } else {
        count := Int64(count + Scaled(common - rate, incDen));
      }
    } else {
      count := Int64(count + Scaled(Uint64(s.epsilonNum * rate + common), incDen));
    }
    if count >= SCALE - 1 {
      newWindow, count := newWindow + 1, 0;
    } else if count <= 1 - SCALE {
      newWindow, count := Max(1, newWindow - 1), 0;
    }
  }

  class OliaSenders {
    var senders: Senders

    constructor (ss: Senders)
      ensures senders == ss
    {
      senders := ss;
    }

    /** Sets the correction of every path. */
    method GetEpsilon() returns (m: nat, best: Best, ghost ids: seq<nat>)
      requires |senders| <= 256
      modifies this
      ensures IsMaxWindow(old(senders), m)
      ensures Enumerates(ids, old(senders).Keys) && forall id | id in ids :: id in old(senders)
      ensures best == BestInOrder(old(senders), ids)
      ensures NoneBlank(old(senders)) && Fits(old(senders)) ==> IsBest(old(senders), best)
      ensures senders == WithEpsilons(old(senders), m, best)
    {
      m := GetMaxCwnd(senders);
      best, ids := GetBest(senders);
      var largest, deprived := CountPaths(senders, m, best);
      SetEpsilons(m, best, largest, deprived);
    }

    method SetEpsilons(m: nat, best: Best, largest: nat, deprived: nat)
      requires AreCounts(senders, m, best, largest, deprived)
      modifies this
      ensures senders == WithEpsilons(old(senders), m, best)
    {
      ghost var ss := senders;
      ghost var ss' := WithEpsilons(ss, m, best);
      var todo, n := senders.Keys, |senders|;
      while todo != {}
        invariant todo <= senders.Keys == ss.Keys
        invariant forall id | id in ss :: senders[id] == if id in todo then ss[id] else ss'[id]
        decreases |todo|
      {
        var id :| id in todo;
        var s := senders[id];
        var num, den := EpsilonOf(s, m, best, n, largest, deprived);
        EpsilonIsRight(ss, id, m, best, largest, deprived, num, den);
        senders := senders[id := s.(epsilonNum := num, epsilonDen := den)];
        todo := todo - {id};
      }
    }

    /** Slow start adds a packet; otherwise the corrections of all paths are set first. */
    method MaybeIncreaseCwnd(id: nat, limited: bool) returns (m: nat, best: Best)
      requires id in senders && senders[id].cwnd > 0 && |senders| <= 256
      modifies this
      ensures
        var s := old(senders)[id];
        limited && s.ssthresh <= s.cwnd < s.maxWindow ==> IsMaxWindow(old(senders), m)
      ensures
        senders == AfterIncrease(old(senders), id, limited, m, best, Rate(old(senders), old(senders)[id].rtt))
    {
      m, best := 0, Best(0, 0);
      var s := senders[id];
      if !limited || s.cwnd >= s.maxWindow {
        return;
      }
      if s.cwnd < s.ssthresh {
        senders := senders[id := s.(cwnd := s.cwnd + 1)];
        return;
      }
      ghost var ids;
      m, best, ids := GetEpsilon();
      EpsilonsKeepRate(old(senders), m, best, s.rtt);
      var rate := GetRate(senders, s.rtt);
      var newWindow, count := CongestionWindowAfterAck(senders[id], rate);
      senders := senders[id := senders[id].(cwnd := Min(s.maxWindow, newWindow), count := count)];
    }
  }
}
