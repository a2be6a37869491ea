/** The packet numbers received on a path, kept as a list of ranges. The list refines a set
    of numbers, and it is the only canonical list for that set. */
module ReceivedHistory {
  const MAX_TRACKED_RANGES: nat := 2500

  /** Closed range of packet numbers. */
  datatype Range = Range(start: nat, end: nat)

  predicate Within(r: Range, p: nat) {
    r.start <= p <= r.end
  }

  ghost predicate Contains(ranges: seq<Range>, p: nat) {
    exists i | 0 <= i < |ranges| :: Within(ranges[i], p)
  }

  /** Ranges are non-empty, ascending and separated by at least one missing number. */
  ghost predicate Canonical(ranges: seq<Range>) {
    && (forall i | 0 <= i < |ranges| :: ranges[i].start <= ranges[i].end)
    && (forall i, j | 0 <= i < j < |ranges| :: ranges[i].end + 1 < ranges[j].start)
  }

  ghost predicate Adds(ranges: seq<Range>, p: nat, ranges': seq<Range>) {
    && Canonical(ranges')
    && forall x: nat :: Contains(ranges', x) <==> Contains(ranges, x) || x == p
  }

  ghost predicate DeletesUpTo(ranges: seq<Range>, p: nat, ranges': seq<Range>) {
    && Canonical(ranges')
    && forall x: nat :: Contains(ranges', x) <==> Contains(ranges, x) && x > p
  }

  lemma ContainsConcat(a: seq<Range>, b: seq<Range>, x: nat)
    ensures Contains(a + b, x) <==> Contains(a, x) || Contains(b, x)
  {
    if Contains(a, x) {
      var i :| 0 <= i < |a| && Within(a[i], x);
      assert Within((a + b)[i], x);
    }
    if Contains(b, x) {
      var i :| 0 <= i < |b| && Within(b[i], x);
      assert Within((a + b)[|a| + i], x);
    }
  }

  lemma ContainsSingle(r: Range, x: nat)
    ensures Contains([r], x) <==> Within(r, x)
  {
    assert [r][0] == r;
  }

  /** Replacing ranges [lo, hi) by the single range `r`, which adds `p` to them. */
  lemma ReplaceAdds(ranges: seq<Range>, lo: nat, hi: nat, r: Range, p: nat)
    requires Canonical(ranges) && lo <= hi <= |ranges|
    requires r.start <= r.end
    requires lo == 0 || ranges[lo - 1].end + 1 < r.start
    requires hi == |ranges| || r.end + 1 < ranges[hi].start
    requires forall x: nat :: Within(r, x) <==> Contains(ranges[lo..hi], x) || x == p
    ensures Adds(ranges, p, ranges[..lo] + [r] + ranges[hi..])
  {
    ReplacedIsCanonical(ranges, lo, hi, r);
    forall x: nat
      ensures Contains(ranges[..lo] + [r] + ranges[hi..], x) <==> Contains(ranges, x) || x == p
    {
      assert ranges == ranges[..lo] + ranges[lo..hi] + ranges[hi..];
      ContainsConcat(ranges[..lo] + ranges[lo..hi], ranges[hi..], x);
      ContainsConcat(ranges[..lo], ranges[lo..hi], x);
      ContainsConcat(ranges[..lo] + [r], ranges[hi..], x);
      ContainsConcat(ranges[..lo], [r], x);
      ContainsSingle(r, x);
    }
  }

  /** Two lists of which the first ends before the second begins. */
  lemma CanonicalConcat(a: seq<Range>, b: seq<Range>)
    requires Canonical(a) && Canonical(b)
    requires a == [] || b == [] || a[|a| - 1].end + 1 < b[0].start
    ensures Canonical(a + b)
  {
    forall i, j | 0 <= i < j < |a + b|
      ensures (a + b)[i].end + 1 < (a + b)[j].start
    {
      if i < |a| <= j {
        InOrder(a, b, i, j - |a|);
      }
    }
  }

  lemma InOrder(a: seq<Range>, b: seq<Range>, i: nat, j: nat)
    requires Canonical(a) && Canonical(b) && i < |a| && j < |b| && a[|a| - 1].end + 1 < b[0].start
    ensures a[i].end + 1 < b[j].start
  {
    assert i == |a| - 1 || a[i].end + 1 < a[|a| - 1].start;
    assert j == 0 || b[0].end + 1 < b[j].start;
  }

  lemma PartsAreCanonical(ranges: seq<Range>, k: nat)
    requires Canonical(ranges) && k <= |ranges|
    ensures Canonical(ranges[..k]) && Canonical(ranges[k..])
  {
  }

  lemma ReplacedIsCanonical(ranges: seq<Range>, lo: nat, hi: nat, r: Range)
    requires Canonical(ranges) && lo <= hi <= |ranges|
    requires r.start <= r.end
    requires lo == 0 || ranges[lo - 1].end + 1 < r.start
    requires hi == |ranges| || r.end + 1 < ranges[hi].start
    ensures Canonical(ranges[..lo] + [r] + ranges[hi..])
  {
    PartsAreCanonical(ranges, lo);
    PartsAreCanonical(ranges, hi);
    CanonicalConcat(ranges[..lo], [r]);
    CanonicalConcat(ranges[..lo] + [r], ranges[hi..]);
  }

  lemma ContainsPair(a: Range, b: Range, x: nat)
    ensures Contains([a, b], x) <==> Within(a, x) || Within(b, x)
  {
    assert [a, b] == [a] + [b];
    ContainsConcat([a], [b], x);
    ContainsSingle(a, x);
    ContainsSingle(b, x);
  }

  lemma NotEmpty(ranges: seq<Range>)
    requires Canonical(ranges) && ranges != []
    ensures Contains(ranges, ranges[0].start)
    ensures Contains(ranges, ranges[|ranges| - 1].end)
  {
    assert Within(ranges[0], ranges[0].start);
    assert Within(ranges[|ranges| - 1], ranges[|ranges| - 1].end);
  }

  /** Two canonical lists for the same numbers are equal. */
  lemma {:induction false} CanonicalIsUnique(a: seq<Range>, b: seq<Range>)
    requires Canonical(a) && Canonical(b)
    requires forall x: nat :: Contains(a, x) <==> Contains(b, x)
    ensures a == b
    decreases |a|
  {
    if a == [] {
      if b != [] {
        NotEmpty(b);
      }
    } else {
      assert Within(a[0], a[0].start) && Contains(b, a[0].start);
      assert Within(b[0], b[0].start) && Contains(a, b[0].start);
      assert a[0].start == b[0].start;
      FirstRangesAgree(a, b);
      FirstRangesAgree(b, a);
      forall x: nat
        ensures Contains(a[1..], x) <==> Contains(b[1..], x)
      {
        assert a == [a[0]] + a[1..] && b == [b[0]] + b[1..];
        ContainsConcat([a[0]], a[1..], x);
        ContainsConcat([b[0]], b[1..], x);
        ContainsSingle(a[0], x);
        ContainsSingle(b[0], x);
      }
      CanonicalIsUnique(a[1..], b[1..]);
    }
  }

  lemma FirstRangesAgree(a: seq<Range>, b: seq<Range>)
    requires Canonical(a) && Canonical(b) && a != [] && b != []
    requires forall x: nat :: Contains(a, x) <==> Contains(b, x)
    requires a[0].start == b[0].start
    ensures a[0].end <= b[0].end
  {
    if b[0].end < a[0].end {
      var x := b[0].end + 1;
      assert Within(a[0], x);
      assert Contains(a, x);
    }
  }

  /** Dropping the ranges that end at or before `p`, and the part of the next one. */
  lemma DropDeletes(ranges: seq<Range>, k: nat, rest: seq<Range>, p: nat)
    requires Canonical(ranges) && k <= |ranges|
    requires forall i | 0 <= i < k :: ranges[i].end <= p
    requires k < |ranges| ==> p < ranges[k].end
    requires rest == ranges[k..]
             || (k < |ranges| && ranges[k].start <= p && rest == [Range(p + 1, ranges[k].end)] + ranges[k + 1..])
    requires k < |ranges| && rest == ranges[k..] ==> p < ranges[k].start
    ensures DeletesUpTo(ranges, p, rest)
  {
    PartsAreCanonical(ranges, k);
    if k < |ranges| && ranges[k].start <= p {
      PartsAreCanonical(ranges, k + 1);
      CanonicalConcat([Range(p + 1, ranges[k].end)], ranges[k + 1..]);
    }
    forall x: nat
      ensures Contains(rest, x) <==> Contains(ranges, x) && x > p
    {
      DropKeeps(ranges, k, rest, p, x);
    }
  }

  /** The numbers above `p` stay. */
  lemma DropKeeps(ranges: seq<Range>, k: nat, rest: seq<Range>, p: nat, x: nat)
    requires Canonical(ranges) && k <= |ranges|
    requires forall i | 0 <= i < k :: ranges[i].end <= p
    requires k < |ranges| ==> p < ranges[k].end
    requires if k < |ranges| && ranges[k].start <= p then rest == [Range(p + 1, ranges[k].end)] + ranges[k + 1..]
             else rest == ranges[k..]
    ensures Contains(rest, x) <==> Contains(ranges, x) && x > p
  {
    assert ranges == ranges[..k] + ranges[k..];
    ContainsConcat(ranges[..k], ranges[k..], x);
    NoneContains(ranges[..k], p, x);
    if k < |ranges| && ranges[k].start <= p {
      assert ranges[k..] == [ranges[k]] + ranges[k + 1..];
      ContainsConcat([ranges[k]], ranges[k + 1..], x);
      ContainsConcat([Range(p + 1, ranges[k].end)], ranges[k + 1..], x);
      ContainsSingle(ranges[k], x);
      ContainsSingle(Range(p + 1, ranges[k].end), x);
      AllAbove(ranges[k + 1..], p, x);
    } else {
      AllAbove(ranges[k..], p, x);
    }
  }

  lemma NoneContains(ranges: seq<Range>, p: nat, x: nat)
    requires forall i | 0 <= i < |ranges| :: ranges[i].end <= p
    ensures Contains(ranges, x) ==> x <= p
  {
  }

  lemma AllAbove(ranges: seq<Range>, p: nat, x: nat)
    requires forall i | 0 <= i < |ranges| :: p < ranges[i].start
    ensures Contains(ranges, x) ==> x > p
  {
  }

  /** A number that touches no range becomes one of its own. */
  lemma InsertAdds(ranges: seq<Range>, k: nat, p: nat)
    requires Canonical(ranges) && k <= |ranges|
    requires k > 0 ==> ranges[k - 1].end + 1 < p
    requires k < |ranges| ==> p + 1 < ranges[k].start
    ensures Adds(ranges, p, ranges[..k] + [Range(p, p)] + ranges[k..])
  {
    assert ranges[k..k] == [];
    ReplaceAdds(ranges, k, k, Range(p, p), p);
  }

  /** Range `i`, grown by `p`, joins the range before it. */
  lemma JoinAdds(ranges: seq<Range>, i: nat, grown: Range, joined: Range, p: nat)
    requires Canonical(ranges) && 0 < i < |ranges| && (i + 1 < |ranges| ==> grown.end + 1 < ranges[i + 1].start)
    requires GrowsBy(ranges[i], p, grown) && ranges[i - 1].end + 1 == grown.start
    requires joined == Range(ranges[i - 1].start, grown.end)
    ensures Adds(ranges, p, ranges[..i - 1] + [joined] + ranges[i + 1..])
  {
    assert ranges[i - 1..i + 1] == [ranges[i - 1], ranges[i]];
    forall x: nat
      ensures Within(joined, x) <==> Contains(ranges[i - 1..i + 1], x) || x == p
    {
      ContainsPair(ranges[i - 1], ranges[i], x);
    }
    ReplaceAdds(ranges, i - 1, i + 1, joined, p);
  }

  lemma GrowAdds(ranges: seq<Range>, i: nat, grown: Range, p: nat)
    requires Canonical(ranges) && i < |ranges| && (i + 1 < |ranges| ==> grown.end + 1 < ranges[i + 1].start)
    requires GrowsBy(ranges[i], p, grown) && (i > 0 ==> ranges[i - 1].end + 1 < grown.start)
    ensures Adds(ranges, p, ranges[..i] + [grown] + ranges[i + 1..])
  {
    assert ranges[i..i + 1] == [ranges[i]];
    forall x: nat
      ensures Within(grown, x) <==> Contains(ranges[i..i + 1], x) || x == p
    {
      ContainsSingle(ranges[i], x);
    }
    ReplaceAdds(ranges, i, i + 1, grown, p);
  }

  /** `grown` is `r` with `p` at one end. */
  predicate GrowsBy(r: Range, p: nat, grown: Range) {
    && r.start <= r.end
    && ((r.end + 1 == p && grown == Range(r.start, p)) || (r.start == p + 1 && grown == Range(p, r.end)))
  }

  class ReceivedPacketHistory {
    var ranges: seq<Range>

    constructor ()
      ensures ranges == []
    {
      ranges := [];
    }

    /** Registers packet number `p`. The walk starts at the highest range. */
    method ReceivedPacket(p: nat) returns (ok: bool)
      requires Canonical(ranges)
      modifies this
      ensures ok <==> |old(ranges)| < MAX_TRACKED_RANGES
      ensures if ok then Adds(old(ranges), p, ranges) else ranges == old(ranges)
    {
      if |ranges| >= MAX_TRACKED_RANGES {
        return false;
      }
      ok := true;
      var i := |ranges|;
      while i > 0
        invariant 0 <= i <= |ranges|
        invariant ranges == old(ranges)
        invariant i < |ranges| ==> p + 1 < ranges[i].start
      {
        i := i - 1;
        var el := ranges[i];
        if Within(el, p) {
          return;
        }
        if el.end + 1 == p || el.start == p + 1 {
          ExtendRange(i, p);
          return;
        }
        if p > el.end {
          InsertAdds(ranges, i + 1, p);
          ranges := ranges[..i + 1] + [Range(p, p)] + ranges[i + 1..];
          return;
        }
      }
      InsertAdds(ranges, 0, p);
      ranges := [Range(p, p)] + ranges;
      assert ranges == old(ranges)[..0] + [Range(p, p)] + old(ranges)[0..];
    }

    /** Range `i` grows by one number and joins the range before it if they now touch. */
    method ExtendRange(i: nat, p: nat)
      requires Canonical(ranges) && i < |ranges|
      requires ranges[i].end + 1 == p || ranges[i].start == p + 1
      requires i + 1 < |ranges| ==> p + 1 < ranges[i + 1].start
      modifies this
      ensures Adds(old(ranges), p, ranges)
    {
      var el := ranges[i];
      var grown := if el.end + 1 == p then Range(el.start, p) else Range(p, el.end);
      if i > 0 && ranges[i - 1].end + 1 == grown.start {
        var joined := Range(ranges[i - 1].start, grown.end);
        JoinAdds(ranges, i, grown, joined, p);
        ranges := ranges[..i - 1] + [joined] + ranges[i + 1..];
      } else {
        GrowAdds(ranges, i, grown, p);
        ranges := ranges[..i] + [grown] + ranges[i + 1..];
      }
    }

    /** Deletes all numbers up to and including `p`. */
    method DeleteUpTo(p: nat)
      requires Canonical(ranges)
      modifies this
      ensures DeletesUpTo(old(ranges), p, ranges)
    {
      ghost var k := 0;
      while |ranges| > 0
        invariant k <= |old(ranges)| && ranges == old(ranges)[k..]
        invariant forall i | 0 <= i < k :: old(ranges)[i].end <= p
      {
        var el := ranges[0];
        if el.start <= p < el.end {
          ranges := [Range(p + 1, el.end)] + ranges[1..];
          DropDeletes(old(ranges), k, ranges, p);
          return;
        } else if el.end <= p {
          ranges := ranges[1..];
          k := k + 1;
        } else {
          break;
        }
      }
      DropDeletes(old(ranges), k, ranges, p);
    }

    /** The highest range, which is zero to zero if nothing was received. */
    function GetHighestAckRange(): Range
      reads this
    {
      if |ranges| > 0 then ranges[|ranges| - 1] else Range(0, 0)
    }
  }

  // ---------------------------------------------------------------------------
  // Runs
  // ---------------------------------------------------------------------------

  datatype Op = Insert(p: nat) | Delete(p: nat)

  ghost predicate Applies(ranges: seq<Range>, op: Op, ranges': seq<Range>) {
    match op
    case Insert(p) => Adds(ranges, p, ranges')
    case Delete(p) => DeletesUpTo(ranges, p, ranges')
  }

  ghost predicate IsRun(run: seq<seq<Range>>, ops: seq<Op>) {
    && |run| == |ops| + 1
    && run[0] == []
    && forall i | 0 <= i < |ops| :: Applies(run[i], ops[i], run[i + 1])
  }

  /** What the operations do to a set of numbers. */
  predicate Member(ops: seq<Op>, x: nat) {
    if ops == [] then false
    else
      var before := Member(ops[..|ops| - 1], x);
      match ops[|ops| - 1]
      case Insert(p) => before || x == p
      case Delete(p) => before && x > p
  }

  /** After any mix of insertions and deletions the ranges are the canonical list of the
      set that the same operations produce. */
  lemma {:induction false} HistoryRefinesSet(run: seq<seq<Range>>, ops: seq<Op>, i: nat)
    requires IsRun(run, ops) && i < |run|
    ensures Canonical(run[i])
    ensures forall x: nat :: Contains(run[i], x) <==> Member(ops[..i], x)
  {
    if i > 0 {
      HistoryRefinesSet(run, ops, i - 1);
      assert Applies(run[i - 1], ops[i - 1], run[i]);
      assert ops[..i][..i - 1] == ops[..i - 1];
    }
  }

  /** The ranges depend on the operations only through that set. */
  lemma HistoryIsDetermined(run: seq<seq<Range>>, ops: seq<Op>, run': seq<seq<Range>>, ops': seq<Op>)
    requires IsRun(run, ops) && IsRun(run', ops')
    requires forall x: nat :: Member(ops, x) <==> Member(ops', x)
    ensures run[|ops|] == run'[|ops'|]
  {
    HistoryRefinesSet(run, ops, |ops|);
    HistoryRefinesSet(run', ops', |ops'|);
    assert ops[..|ops|] == ops && ops'[..|ops'|] == ops';
    CanonicalIsUnique(run[|ops|], run'[|ops'|]);
  }
}
