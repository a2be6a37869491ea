/** What OLIA is for: traffic moves from the paths with the largest windows to the best ones,
    windows grow and shrink as the increments say, and the rate adds up all paths. */
module OliaEffects {
  import opened Numbers
  import opened Lists
  import opened Words
  import opened Olia
  import Cubic
  import CubicEffects

  // ---------------------------------------------------------------------------
  // ACKs
  // ---------------------------------------------------------------------------

  /** The square of the scaled window, times the denominator of epsilon. */
  function Square(s: Sender): nat {
    s.epsilonDen * (s.cwnd * 1024) * (s.cwnd * 1024)
  }

  function Divisor(s: Sender, rate: nat): nat {
    s.epsilonDen * s.cwnd * rate
  }

  const TWO_62: int := 0x4000_0000_0000_0000

  predicate FitInWords(cwnd: nat, count: int, rate: nat, square: int, divisor: int) {
    && 0 < divisor < TWO_64
    && cwnd * 1024 < TWO_64
    && (rate + square) * 1024 < TWO_62
    && -TWO_62 < count < TWO_62
  }

  /** All products of an ACK fit their 64-bit types. */
  predicate FitsAck(s: Sender, rate: nat) {
    FitInWords(s.cwnd, s.count, rate, Square(s), Divisor(s, rate))
  }

  /** What an ACK adds to the counter, in fractions of 1024. */
  function Added(s: Sender, rate: nat): int
    requires Divisor(s, rate) > 0
  {
    if s.epsilonNum != -1 then Over(s.epsilonNum, rate, Square(s)) * 1024 / Divisor(s, rate)
    else if Square(s) < rate then -((rate - Square(s)) * 1024 / Divisor(s, rate))
    else (Square(s) - rate) * 1024 / Divisor(s, rate)
  }

  function Over(num: int, rate: nat, square: nat): int {
    num * rate + square
  }

  lemma CommonIs(s: Sender)
    requires s.cwnd * 1024 < TWO_64 && Square(s) < TWO_64
    ensures Common(s) == Square(s)
  {
    ProductStays(s.epsilonDen, s.cwnd * 1024);
  }

  lemma ProductStays(den: nat, w: nat)
    requires w < TWO_64 && den * w * w < TWO_64
    ensures den * w * w >= 0 && Uint64(den * Uint64(w) * Uint64(w)) == den * w * w
  {
    assert Uint64(w) == w;
  }

  lemma ScaledIs(x: nat, den: nat)
    requires den > 0 && x * 1024 < TWO_64 / 2
    ensures Scaled(x, den) == x * 1024 / den && 0 <= Scaled(x, den) <= x * 1024
  {
    QuotientStays(x * 1024, den);
  }

  lemma QuotientStays(y: nat, den: nat)
    requires den > 0 && y < TWO_64 / 2
    ensures Int64(Uint64(y) / den) == y / den && 0 <= y / den <= y
  {
    assert Uint64(y) == y;
    QuotientIsSmaller(y, den);
    SmallFits(y / den);
  }

  lemma SmallFits(x: int)
    requires 0 <= x < TWO_64 / 2
    ensures Int64(x) == x
  {
  }

  lemma QuotientIsSmaller(x: nat, den: nat)
    requires den > 0
    ensures 0 <= x / den <= x
  {
    var q, r := x / den, x % den;
    assert x == q * den + r;
    AtLeastOnce(q, den);
  }

  lemma AtLeastOnce(q: int, den: int)
    requires den > 0
    ensures q >= 0 ==> q <= q * den
    ensures q < 0 ==> q * den <= -den
  {
  }

  lemma IncrementIs(s: Sender, rate: nat)
    requires FitsAck(s, rate) && -1 <= s.epsilonNum <= 1
    ensures Increment(s, rate) == Added(s, rate) && -TWO_62 < Added(s, rate) < TWO_62
  {
    CommonIs(s);
    assert Denominator(s, rate) == Divisor(s, rate);
    if s.epsilonNum == -1 {
      ScaledIs(if Square(s) < rate then rate - Square(s) else Square(s) - rate, Divisor(s, rate));
    } else {
      NumeratorIs(s.epsilonNum, rate, Square(s));
      ScaledIs(Over(s.epsilonNum, rate, Square(s)), Divisor(s, rate));
    }
  }

  lemma NumeratorIs(num: int, rate: nat, square: nat)
    requires 0 <= num <= 1 && rate + square < TWO_64
    ensures 0 <= Over(num, rate, square) <= rate + square && Uint64(num * rate + square) == Over(num, rate, square)
  {
    assert num * rate == if num == 0 then 0 else rate;
  }

  /** Where products fit, a full positive counter raises the window by one packet, up to its
      maximum, a full negative one lowers it by one, down to one packet, and both empty the
      counter. */
  lemma AckIsExact(s: Sender, rate: nat)
    requires Ok(s) && FitsAck(s, rate)
    ensures
      var s', total := AfterAck(s, rate), s.count + Added(s, rate);
      && s' == s.(cwnd := s'.cwnd, count := s'.count)
      && s'.cwnd == (if total >= 1023 && s.cwnd < s.maxWindow then s.cwnd + 1
                     else if total <= -1023 && s.cwnd > 1 then s.cwnd - 1 else s.cwnd)
      && s'.count == (if -1023 < total < 1023 then total else 0)
  {
    IncrementIs(s, rate);
    SmallStays(s.count, Added(s, rate));
  }

  lemma SmallStays(a: int, b: int)
    requires -TWO_62 < a < TWO_62 && -TWO_62 < b < TWO_62
    ensures Int64(a + b) == a + b
  {
  }

  lemma QuotientIsPositive(x: nat, den: nat)
    requires den > 0
    ensures x / den >= 0
  {
  }

  /** Where products fit, the window is lowered only with a negative epsilon, and only if the
      square of the scaled window is below the rate. */
  lemma LoweredOnlyIfNegative(s: Sender, rate: nat)
    requires Ok(s) && FitsAck(s, rate) && AfterAck(s, rate).cwnd < s.cwnd
    ensures s.epsilonNum == -1 && Square(s) < rate
  {
    AckIsExact(s, rate);
    if s.epsilonNum != -1 {
      NumeratorIs(s.epsilonNum, rate, Square(s));
      QuotientIsPositive(Over(s.epsilonNum, rate, Square(s)) * 1024, Divisor(s, rate));
    } else if Square(s) >= rate {
      QuotientIsPositive((Square(s) - rate) * 1024, Divisor(s, rate));
    }
  }

  /** On a single path with window 10 an ACK adds a tenth of a packet. */
  lemma SinglePathExample(s: Sender)
    requires s.cwnd == 10 && s.maxWindow == 100 && s.epsilonNum == 0 && s.epsilonDen == 1 && s.count == 1000
    ensures Added(s, 104_878_081) == 102 && AfterAck(s, 104_878_081).cwnd == 11
  {
    assert Square(s) == 104_857_600 && Divisor(s, 104_878_081) == 1_048_780_810;
    IncrementIs(s, 104_878_081);
  }

  // ---------------------------------------------------------------------------
  // Epsilon
  // ---------------------------------------------------------------------------

  /** Best paths whose windows are not the largest. */
  function Gainers(ss: Senders, m: nat, best: Best): set<nat> {
    set id | id in ss && ss[id].cwnd < m && AsGood(ss[id], best)
  }

  function Losers(ss: Senders, m: nat): set<nat> {
    set id | id in ss && ss[id].cwnd == m
  }

  /** Epsilon is positive exactly for the best paths that do not have the largest window,
      negative for the largest ones if there is such a path, and zero for all others; each side
      shares one `n`-th equally. */
  lemma EpsilonMovesTraffic(ss: Senders, m: nat, best: Best, id: nat)
    requires IsMaxWindow(ss, m) && id in ss
    ensures
      var s, gainers, losers := WithEpsilons(ss, m, best)[id], Gainers(ss, m, best), Losers(ss, m);
      && s.epsilonNum == (if id in gainers then 1 else if id in losers && gainers != {} then -1 else 0)
      && s.epsilonDen == (if id in gainers then |ss| * |gainers|
                          else if id in losers && gainers != {} then |ss| * |losers| else 1)
      && s == ss[id].(epsilonNum := s.epsilonNum, epsilonDen := s.epsilonDen)
  {
    assert Gainers(ss, m, best) == Deprived(ss, m, best);
    assert Losers(ss, m) == Largest(ss, m);
  }

  // ---------------------------------------------------------------------------
  // The rate
  // ---------------------------------------------------------------------------

  /** The windows of the paths, weighted by round-trip times. */
  function Weighted(ss: Senders, ids: seq<nat>, rtt: nat): nat
    requires forall id | id in ids :: id in ss
  {
    if ids == [] then 0
    else
      var s := ss[ids[0]];
      Weighted(ss, ids[1..], rtt) + if s.rtt > 0 then s.cwnd * 1024 * rtt / s.rtt else 0
  }

  /** The scaled windows times `rtt` fit. */
  ghost predicate WindowsFit(ss: Senders, rtt: nat) {
    forall id | id in ss :: ss[id].cwnd * 1024 < TWO_64 && ss[id].cwnd * 1024 * rtt < TWO_64
  }

  lemma TermIs(s: Sender, rtt: nat)
    requires s.cwnd * 1024 < TWO_64 && s.cwnd * 1024 * rtt < TWO_64
    ensures Term(s, rtt) == if s.rtt > 0 then s.cwnd * 1024 * rtt / s.rtt else 0
  {
    WeightStays(s.cwnd * 1024, rtt);
  }

  lemma WeightStays(w: nat, rtt: nat)
    requires w < TWO_64 && w * rtt < TWO_64
    ensures w * rtt >= 0 && Uint64(Uint64(w) * rtt) == w * rtt
  {
    assert Uint64(w) == w;
  }

  lemma {:induction false} TermsAreWeighted(ss: Senders, ids: seq<nat>, rtt: nat)
    requires NoDups(ids) && (forall id | id in ids :: id in ss) && WindowsFit(ss, rtt)
    ensures Elements(ids) <= ss.Keys && Terms(ss, Elements(ids), rtt) == Weighted(ss, ids, rtt)
  {
    if ids == [] {
      assert Elements(ids) == {};
    } else {
      TermsAreWeighted(ss, ids[1..], rtt);
      assert ids[0] !in ids[1..];
      assert Elements(ids) - {ids[0]} == Elements(ids[1..]);
      TermsWithout(ss, Elements(ids), rtt, ids[0]);
      TermIs(ss[ids[0]], rtt);
    }
  }

  /** Where products fit, the rate is the square of one more than the weighted windows of all
      paths, in whatever order these are listed. */
  lemma RateIsExact(ss: Senders, ids: seq<nat>, rtt: nat)
    requires Enumerates(ids, ss.Keys) && (forall id | id in ids :: id in ss) && WindowsFit(ss, rtt)
    ensures
      var sum := 1 + Weighted(ss, ids, rtt);
      sum * sum < TWO_64 ==> Rate(ss, rtt) == sum * sum
  {
    TermsAreWeighted(ss, ids, rtt);
    RootFits(1 + Weighted(ss, ids, rtt));
  }

  lemma RootFits(sum: nat)
    requires sum > 0
    ensures sum * sum < TWO_64 ==> Uint64(sum) == sum && Uint64(sum * sum) == sum * sum
  {
    assert sum <= sum * sum;
  }

  // ---------------------------------------------------------------------------
  // Windows
  // ---------------------------------------------------------------------------

  /** In slow start an ACK adds a packet, and a window that is not used or is at its maximum
      stays; otherwise the corrections of all paths are set and the path's counter is moved. */
  lemma IncreaseIs(ss: Senders, id: nat, limited: bool, m: nat, best: Best, rate: nat)
    requires id in ss
    ensures
      var s, ss' := ss[id], AfterIncrease(ss, id, limited, m, best, rate);
      if !limited || s.cwnd >= s.maxWindow then ss' == ss
      else if s.cwnd < s.ssthresh then ss' == ss[id := s.(cwnd := s.cwnd + 1)]
      else
        && ss'.Keys == ss.Keys
        && ss'[id] == AfterAck(WithEpsilons(ss, m, best)[id], rate)
        && forall other | other in ss && other != id :: ss'[other] == WithEpsilons(ss, m, best)[other]
  {
  }

  /** A loss leaves `(n - 0.3) / n` of the window, or with large reduction in slow start one
      packet less, but at least two; the threshold follows and the loss counters move on. */
  lemma LossIs(s: Sender, n: nat, largeReduction: bool, f: real) returns (left: nat)
    requires n > 0 && f * n as real == n as real - 0.3
    ensures
      if largeReduction && s.cwnd < s.ssthresh then left == (if s.cwnd > 0 then s.cwnd - 1 else 0)
      else CubicEffects.IsPart(left, s.cwnd, f)
    ensures
      AfterLoss(s, n, largeReduction)
      == s.(cwnd := Max(left, 2), ssthresh := Max(left, 2), loss1 := s.loss2, loss2 := s.loss3)
  {
    left := if largeReduction && s.cwnd < s.ssthresh then Minus(s.cwnd, 1) else Reduced(s.cwnd, n);
    var x := n as real;
    assert Cubic.Beta(n) * x == x - 0.3;
    CubicEffects.SameFactor(f, Cubic.Beta(n), x);
  }

  /** The bytes between losses are the larger of those since the last loss and of those between
      the last two. */
  lemma BytesAre(s: Sender)
    requires Ok(s)
    ensures Bytes(s) >= s.loss3 - s.loss2 && Bytes(s) >= s.loss2 - s.loss1
    ensures Bytes(s) == s.loss3 - s.loss2 || Bytes(s) == s.loss2 - s.loss1
  {
  }

  /** With large reduction each further loss of a cutback takes a packet, down to two. */
  lemma LostAgainIs(s: Sender, cut: bool)
    requires s.cwnd > 0
    ensures
      var s' := AfterLostAgain(s, cut);
      && s'.cwnd == s'.ssthresh == (if !cut then s.cwnd else if s.cwnd > 2 then s.cwnd - 1 else 2)
      && s' == s.(cwnd := s'.cwnd, ssthresh := s'.cwnd)
  {
  }

  /** A timeout starts over: the smallest window, half the old one as threshold, no losses
      remembered and no correction. */
  lemma TimeoutIs(s: Sender)
    ensures
      var s' := AfterTimeout(s);
      && s'.cwnd == 2 && s'.ssthresh == s.cwnd / 2 && s'.loss1 == s'.loss2 == s'.loss3 == 0
      && s'.epsilonNum == 0 && s'.epsilonDen == 1 && s'.count == 0
      && s'.maxWindow == s.maxWindow && s'.rtt == s.rtt
  {
  }
}
