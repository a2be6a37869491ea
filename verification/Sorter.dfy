/** Reassembly of a byte stream from frames that arrive in any order.

    The receiver keeps a list of gaps, the byte ranges it has not received, and a
    map from offsets to queued frames. `Valid` says how the two fit together;
    `Pushed` says what one `Push` does to the set of received bytes. */
module Sorter {
  import opened Frames
  import opened Options

  const MAX_SORTER_GAPS: nat := 2500

  /** Half-open byte range. */
  datatype Interval = Interval(start: nat, end: nat)

  datatype State = State(queue: map<nat, Frame>, readPos: nat, gaps: seq<Interval>)

  datatype Result = Ok | EmptyData | Duplicate | NoGapFound | NoEndGapFound | TooManyGaps

  // ---------------------------------------------------------------------------
  // Gaps
  // ---------------------------------------------------------------------------

  /** Byte `x` has not been received. */
  ghost predicate Missing(gaps: seq<Interval>, x: nat) {
    exists i | 0 <= i < |gaps| :: gaps[i].start <= x < gaps[i].end
  }

  ghost predicate Covered(gaps: seq<Interval>, lo: nat, hi: nat) {
    forall x | lo <= x < hi :: !Missing(gaps, x)
  }

  /** Gaps are non-empty, ascending, never adjacent, and the last one is unbounded. */
  ghost predicate GapsOk(gaps: seq<Interval>) {
    && |gaps| > 0
    && gaps[|gaps| - 1].end == MAX_BYTE_COUNT
    && Spaced(gaps)
  }

  ghost predicate Spaced(gaps: seq<Interval>) {
    && (forall i | 0 <= i < |gaps| :: gaps[i].start < gaps[i].end)
    && (forall i, j | 0 <= i < j < |gaps| :: gaps[i].end < gaps[j].start)
  }

  /** The gaps left when [start, end) is filled, where `start` lies in gap `g` and
      the last byte before `end` in gap `e`. */
  function Fill(gaps: seq<Interval>, g: nat, e: nat, start: nat, end: nat): seq<Interval>
    requires g <= e < |gaps|
  {
    gaps[..g] + Between(gaps[g].start, start) + Between(end, gaps[e].end) + gaps[e + 1..]
  }

  /** The gap from `a` to `b`, if there is one. */
  function Between(a: nat, b: nat): seq<Interval> {
    if a < b then [Interval(a, b)] else []
  }

  ghost predicate Fits(gaps: seq<Interval>, g: nat, e: nat, start: nat, end: nat) {
    && GapsOk(gaps)
    && g <= e < |gaps|
    && gaps[g].start <= start < gaps[g].end
    && gaps[e].start < end <= gaps[e].end
    && start < end < MAX_BYTE_COUNT
  }

  ghost predicate EndBy(gaps: seq<Interval>, x: int) {
    forall i | 0 <= i < |gaps| :: gaps[i].end <= x
  }

  ghost predicate StartFrom(gaps: seq<Interval>, x: int) {
    forall i | 0 <= i < |gaps| :: x <= gaps[i].start
  }

  /** All of `a` lies up to `x` and all of `b` from `y` on. */
  lemma SpacedConcat(a: seq<Interval>, b: seq<Interval>, x: int, y: int)
    requires Spaced(a) && Spaced(b) && x < y && EndBy(a, x) && StartFrom(b, y)
    ensures Spaced(a + b)
  {
    forall i, j | 0 <= i < j < |a + b|
      ensures (a + b)[i].end < (a + b)[j].start
    {
      if i < |a| <= j {
        assert (a + b)[i] == a[i] && (a + b)[j] == b[j - |a|];
      }
    }
  }

  lemma EndConcat(a: seq<Interval>, b: seq<Interval>, x: int)
    requires EndBy(a, x) && EndBy(b, x)
    ensures EndBy(a + b, x)
  {
  }

  lemma EndLater(a: seq<Interval>, x: int, y: int)
    requires EndBy(a, x) && x <= y
    ensures EndBy(a, y)
  {
  }

  lemma GapsBefore(gaps: seq<Interval>, g: nat)
    requires Spaced(gaps) && g < |gaps|
    ensures Spaced(gaps[..g]) && EndBy(gaps[..g], gaps[g].start - 1)
  {
  }

  lemma GapsAfter(gaps: seq<Interval>, e: nat)
    requires Spaced(gaps) && e < |gaps|
    ensures Spaced(gaps[e + 1..]) && StartFrom(gaps[e + 1..], gaps[e].end + 1)
  {
  }

  /** The gaps before `g` and what is left of gap `g`. */
  lemma LeftOfFill(gaps: seq<Interval>, g: nat, start: nat)
    requires Spaced(gaps) && g < |gaps| && gaps[g].start <= start
    ensures
      var left := gaps[..g] + Between(gaps[g].start, start);
      Spaced(left) && EndBy(left, start)
  {
    var pre, left := gaps[..g], Between(gaps[g].start, start);
    GapsBefore(gaps, g);
    SpacedConcat(pre, left, gaps[g].start - 1, gaps[g].start);
    EndLater(pre, gaps[g].start - 1, start);
    EndConcat(pre, left, start);
  }

  lemma FillIsSpaced(gaps: seq<Interval>, g: nat, e: nat, start: nat, end: nat)
    requires Fits(gaps, g, e, start, end)
    ensures Spaced(Fill(gaps, g, e, start, end))
  {
    var left, right := gaps[..g] + Between(gaps[g].start, start), Between(end, gaps[e].end);
    LeftOfFill(gaps, g, start);
    SpacedConcat(left, right, start, end);
    EndLater(left, start, gaps[e].end);
    EndConcat(left, right, gaps[e].end);
    GapsAfter(gaps, e);
    SpacedConcat(left + right, gaps[e + 1..], gaps[e].end, gaps[e].end + 1);
  }

  lemma FillKeepsGapsOk(gaps: seq<Interval>, g: nat, e: nat, start: nat, end: nat)
    requires Fits(gaps, g, e, start, end)
    ensures GapsOk(Fill(gaps, g, e, start, end))
  {
    FillIsSpaced(gaps, g, e, start, end);
    var fill := Fill(gaps, g, e, start, end);
    if e + 1 < |gaps| {
      assert fill[|fill| - 1] == gaps[|gaps| - 1];
    } else {
      assert fill[|fill| - 1] == Interval(end, MAX_BYTE_COUNT);
    }
  }

  lemma MissingInConcat(a: seq<Interval>, b: seq<Interval>, x: nat)
    ensures Missing(a + b, x) <==> Missing(a, x) || Missing(b, x)
  {
    if Missing(b, x) {
      var i :| 0 <= i < |b| && b[i].start <= x < b[i].end;
      assert (a + b)[|a| + i] == b[i];
    }
    if Missing(a, x) {
      var i :| 0 <= i < |a| && a[i].start <= x < a[i].end;
      assert (a + b)[i] == a[i];
    }
  }

  lemma MissingInMiddle(gaps: seq<Interval>, g: nat, e: nat, start: nat, end: nat, x: nat)
    requires Fits(gaps, g, e, start, end)
    ensures Missing(gaps[g..e + 1], x) && !(start <= x < end)
            <==> gaps[g].start <= x < start || end <= x < gaps[e].end
  {
    var mid := gaps[g..e + 1];
    assert mid[0] == gaps[g] && mid[e - g] == gaps[e];
    assert forall i | 0 <= i < |mid| :: mid[i] == gaps[g + i];
  }

  lemma MissingInFill(gaps: seq<Interval>, g: nat, e: nat, start: nat, end: nat, x: nat)
    requires g <= e < |gaps|
    ensures Missing(Fill(gaps, g, e, start, end), x)
            <==> || Missing(gaps[..g], x)
                 || gaps[g].start <= x < start
                 || end <= x < gaps[e].end
                 || Missing(gaps[e + 1..], x)
  {
    var left, right := Between(gaps[g].start, start), Between(end, gaps[e].end);
    MissingInConcat(gaps[..g] + left + right, gaps[e + 1..], x);
    MissingInConcat(gaps[..g] + left, right, x);
    MissingInConcat(gaps[..g], left, x);
    assert gaps[g].start <= x < start ==> left[0].start <= x < left[0].end;
    assert end <= x < gaps[e].end ==> right[0].start <= x < right[0].end;
  }

  lemma MissingOutside(gaps: seq<Interval>, g: nat, e: nat, start: nat, end: nat, x: nat)
    requires Fits(gaps, g, e, start, end)
    ensures Missing(gaps[..g], x) ==> x < start
    ensures Missing(gaps[e + 1..], x) ==> end <= x
  {
    if Missing(gaps[..g], x) {
      var i :| 0 <= i < g && gaps[i].start <= x < gaps[i].end;
    }
    if Missing(gaps[e + 1..], x) {
      var post := gaps[e + 1..];
      var i :| 0 <= i < |post| && post[i].start <= x < post[i].end;
      assert post[i] == gaps[e + 1 + i];
    }
  }

  lemma MissingInThree(a: seq<Interval>, b: seq<Interval>, c: seq<Interval>, x: nat)
    ensures Missing(a + b + c, x) <==> Missing(a, x) || Missing(b, x) || Missing(c, x)
  {
    MissingInConcat(a + b, c, x);
    MissingInConcat(a, b, x);
  }

  lemma FillRemovesRange(gaps: seq<Interval>, g: nat, e: nat, start: nat, end: nat, x: nat)
    requires Fits(gaps, g, e, start, end)
    ensures Missing(Fill(gaps, g, e, start, end), x) <==> Missing(gaps, x) && !(start <= x < end)
  {
    MissingInFill(gaps, g, e, start, end, x);
    assert gaps == gaps[..g] + gaps[g..e + 1] + gaps[e + 1..];
    MissingInThree(gaps[..g], gaps[g..e + 1], gaps[e + 1..], x);
    MissingInMiddle(gaps, g, e, start, end, x);
    MissingOutside(gaps, g, e, start, end, x);
  }

  // ---------------------------------------------------------------------------
  // Queued frames
  // ---------------------------------------------------------------------------

  /** Queued frames follow each other without hole or overlap from `lo` to `hi`. */
  predicate Chain(queue: map<nat, Frame>, lo: nat, hi: nat)
    decreases hi - lo
  {
    if lo >= hi then lo == hi
    else
      && lo in queue
      && 0 < |queue[lo].data|
      && Chain(queue, lo + |queue[lo].data|, hi)
  }

  /** Where the received run before gap `i` begins; the first one has been read up
      to the read position. */
  function RunStart(readPos: nat, gaps: seq<Interval>, i: nat): nat
    requires i < |gaps|
  {
    if i == 0 then readPos else gaps[i - 1].end
  }

  /** Every received run is chained. */
  ghost predicate RunsOk(queue: map<nat, Frame>, readPos: nat, gaps: seq<Interval>) {
    forall i {:trigger RunStart(readPos, gaps, i)} | 0 <= i < |gaps| ::
      Chain(queue, RunStart(readPos, gaps, i), gaps[i].start)
  }

  /** Frames sit at their own offset and hold received bytes only. */
  ghost predicate FramesOk(queue: map<nat, Frame>, gaps: seq<Interval>) {
    forall k | k in queue ::
      queue[k].offset == k && Covered(gaps, k, queue[k].End())
  }

  ghost predicate Valid(s: State) {
    && GapsOk(s.gaps)
    && RunsOk(s.queue, s.readPos, s.gaps)
    && FramesOk(s.queue, s.gaps)
  }

  lemma ChainBounds(queue: map<nat, Frame>, lo: nat, hi: nat)
    requires Chain(queue, lo, hi)
    ensures lo <= hi
  {
  }

  lemma {:induction false} ChainDependsOnRange(q: map<nat, Frame>, r: map<nat, Frame>, lo: nat, hi: nat)
    requires Chain(q, lo, hi)
    requires forall k | lo <= k < hi && k in q :: k in r && r[k].data == q[k].data
    ensures Chain(r, lo, hi)
    decreases hi - lo
  {
    if lo < hi {
      ChainDependsOnRange(q, r, lo + |q[lo].data|, hi);
    }
  }

  lemma {:induction false} ChainAppend(queue: map<nat, Frame>, lo: nat, mid: nat, hi: nat)
    requires Chain(queue, lo, mid) && Chain(queue, mid, hi)
    ensures Chain(queue, lo, hi)
    decreases mid - lo
  {
    ChainBounds(queue, mid, hi);
    if lo < mid {
      ChainBounds(queue, lo + |queue[lo].data|, mid);
      ChainAppend(queue, lo + |queue[lo].data|, mid, hi);
    }
  }

  /** The queue after a frame for [start, end) is stored: the first frame of every
      run that the new frame swallows is dropped. */
  ghost predicate Stored(queue: map<nat, Frame>, gaps: seq<Interval>, g: nat, e: nat, f: Frame, queue': map<nat, Frame>)
    requires g <= e < |gaps|
  {
    && f.offset in queue' && queue'[f.offset] == f
    && (forall k | k in queue' && k != f.offset :: k in queue && queue'[k] == queue[k])
    && (forall k | k in queue && k != f.offset :: k in queue' || exists i | g <= i < e :: k == gaps[i].end)
  }

  /** A run that the fill does not touch stays chained. */
  lemma OldRunStays(s: State, g: nat, e: nat, f: Frame, queue': map<nat, Frame>, lo: nat, hi: nat)
    requires Fits(s.gaps, g, e, f.offset, f.End())
    requires Stored(s.queue, s.gaps, g, e, f, queue')
    requires Chain(s.queue, lo, hi)
    requires hi <= s.gaps[g].start || s.gaps[e].end <= lo
    ensures Chain(queue', lo, hi)
  {
    ChainDependsOnRange(s.queue, queue', lo, hi);
  }

  /** The run that contains the new frame is chained through it. */
  lemma NewRunIsChained(s: State, g: nat, e: nat, f: Frame, queue': map<nat, Frame>, lo: nat, hi: nat)
    requires Fits(s.gaps, g, e, f.offset, f.End())
    requires Stored(s.queue, s.gaps, g, e, f, queue')
    requires lo == f.offset || (f.offset == s.gaps[g].start && Chain(s.queue, lo, f.offset))
    requires hi == f.End() || (f.End() == s.gaps[e].end && Chain(s.queue, f.End(), hi))
    ensures Chain(queue', lo, hi)
  {
    if lo != f.offset {
      OldRunStays(s, g, e, f, queue', lo, f.offset);
    }
    if hi != f.End() {
      OldRunStays(s, g, e, f, queue', f.End(), hi);
    }
    ChainBounds(queue', f.End(), hi);
    assert Chain(queue', f.offset, hi);
    ChainAppend(queue', lo, f.offset, hi);
  }

  function LeftPieces(gaps: seq<Interval>, g: nat, start: nat): nat
    requires g < |gaps|
  {
    if gaps[g].start < start then 1 else 0
  }

  function RightPieces(gaps: seq<Interval>, e: nat, end: nat): nat
    requires e < |gaps|
  {
    if end < gaps[e].end then 1 else 0
  }

  /** The runs before, around and after the filled range, in terms of the gaps before. */
  lemma RunBefore(readPos: nat, gaps: seq<Interval>, g: nat, e: nat, start: nat, end: nat, i: nat)
    requires Fits(gaps, g, e, start, end)
    requires i < g + LeftPieces(gaps, g, start)
    ensures
      var filled := Fill(gaps, g, e, start, end);
      i < |filled| && filled[i].start == gaps[i].start && RunStart(readPos, filled, i) == RunStart(readPos, gaps, i)
  {
  }

  lemma RunAround(readPos: nat, gaps: seq<Interval>, g: nat, e: nat, start: nat, end: nat)
    requires Fits(gaps, g, e, start, end)
    ensures
      var filled, i := Fill(gaps, g, e, start, end), g + LeftPieces(gaps, g, start);
      && i < |filled|
      && RunStart(readPos, filled, i) == (if gaps[g].start < start then start else RunStart(readPos, gaps, g))
      && (if end < gaps[e].end then filled[i].start == end else e + 1 < |gaps| && filled[i].start == gaps[e + 1].start)
  {
  }

  lemma RunAfter(readPos: nat, gaps: seq<Interval>, g: nat, e: nat, start: nat, end: nat, i: nat)
    requires Fits(gaps, g, e, start, end)
    requires g + LeftPieces(gaps, g, start) < i < |Fill(gaps, g, e, start, end)|
    ensures
      var filled := Fill(gaps, g, e, start, end);
      var k := i - (g + LeftPieces(gaps, g, start) + RightPieces(gaps, e, end)) + e + 1;
      e < k < |gaps| && filled[i] == gaps[k] && RunStart(readPos, filled, i) == RunStart(readPos, gaps, k)
  {
  }

  lemma RunOutsideStays(s: State, g: nat, e: nat, f: Frame, queue': map<nat, Frame>, i: nat)
    requires RunsOk(s.queue, s.readPos, s.gaps)
    requires Fits(s.gaps, g, e, f.offset, f.End())
    requires Stored(s.queue, s.gaps, g, e, f, queue')
    requires i <= g || e < i < |s.gaps|
    ensures Chain(queue', RunStart(s.readPos, s.gaps, i), s.gaps[i].start)
  {
    assert i < g ==> s.gaps[i].end < s.gaps[g].start;
    assert e + 1 < i ==> s.gaps[e].end < s.gaps[i - 1].start;
    OldRunStays(s, g, e, f, queue', RunStart(s.readPos, s.gaps, i), s.gaps[i].start);
  }

  lemma RunAroundIsChained(s: State, g: nat, e: nat, f: Frame, queue': map<nat, Frame>)
    requires RunsOk(s.queue, s.readPos, s.gaps)
    requires Fits(s.gaps, g, e, f.offset, f.End())
    requires Stored(s.queue, s.gaps, g, e, f, queue')
    ensures
      var lo := if s.gaps[g].start < f.offset then f.offset else RunStart(s.readPos, s.gaps, g);
      && (f.End() < s.gaps[e].end ==> Chain(queue', lo, f.End()))
      && (f.End() == s.gaps[e].end ==> e + 1 < |s.gaps| && Chain(queue', lo, s.gaps[e + 1].start))
  {
    var lo := if s.gaps[g].start < f.offset then f.offset else RunStart(s.readPos, s.gaps, g);
    assert Chain(s.queue, RunStart(s.readPos, s.gaps, g), s.gaps[g].start);
    if f.End() == s.gaps[e].end {
      assert Chain(s.queue, RunStart(s.readPos, s.gaps, e + 1), s.gaps[e + 1].start);
      NewRunIsChained(s, g, e, f, queue', lo, s.gaps[e + 1].start);
    } else {
      NewRunIsChained(s, g, e, f, queue', lo, f.End());
    }
  }

  lemma FilledRunIsChained(queue: map<nat, Frame>, readPos: nat, gaps: seq<Interval>, g: nat, e: nat, start: nat, end: nat, i: nat)
    requires Fits(gaps, g, e, start, end)
    requires forall j {:trigger RunStart(readPos, gaps, j)} | 0 <= j < |gaps| && (j <= g || e < j) ::
        Chain(queue, RunStart(readPos, gaps, j), gaps[j].start)
    requires
      var lo := if gaps[g].start < start then start else RunStart(readPos, gaps, g);
      && (end < gaps[e].end ==> Chain(queue, lo, end))
      && (end == gaps[e].end ==> e + 1 < |gaps| && Chain(queue, lo, gaps[e + 1].start))
    requires i < |Fill(gaps, g, e, start, end)|
    ensures
      var filled := Fill(gaps, g, e, start, end);
      Chain(queue, RunStart(readPos, filled, i), filled[i].start)
  {
    if i < g + LeftPieces(gaps, g, start) {
      RunBefore(readPos, gaps, g, e, start, end, i);
    } else if i == g + LeftPieces(gaps, g, start) {
      RunAround(readPos, gaps, g, e, start, end);
    } else {
      RunAfter(readPos, gaps, g, e, start, end, i);
    }
  }

  lemma FillKeepsRuns(s: State, g: nat, e: nat, f: Frame, queue': map<nat, Frame>)
    requires RunsOk(s.queue, s.readPos, s.gaps)
    requires Fits(s.gaps, g, e, f.offset, f.End())
    requires Stored(s.queue, s.gaps, g, e, f, queue')
    ensures RunsOk(queue', s.readPos, Fill(s.gaps, g, e, f.offset, f.End()))
  {
    var filled := Fill(s.gaps, g, e, f.offset, f.End());
    RunAroundIsChained(s, g, e, f, queue');
    forall j | 0 <= j < |s.gaps| && (j <= g || e < j)
      ensures Chain(queue', RunStart(s.readPos, s.gaps, j), s.gaps[j].start)
    {
      RunOutsideStays(s, g, e, f, queue', j);
    }
    forall i | 0 <= i < |filled|
      ensures Chain(queue', RunStart(s.readPos, filled, i), filled[i].start)
    {
      FilledRunIsChained(queue', s.readPos, s.gaps, g, e, f.offset, f.End(), i);
    }
  }

  lemma StoringKeepsFrames(s: State, g: nat, e: nat, f: Frame, queue': map<nat, Frame>)
    requires FramesOk(s.queue, s.gaps)
    requires Fits(s.gaps, g, e, f.offset, f.End())
    requires Stored(s.queue, s.gaps, g, e, f, queue')
    ensures FramesOk(queue', Fill(s.gaps, g, e, f.offset, f.End()))
  {
    forall x: nat
      ensures Missing(Fill(s.gaps, g, e, f.offset, f.End()), x)
              <==> Missing(s.gaps, x) && !(f.offset <= x < f.End())
    {
      FillRemovesRange(s.gaps, g, e, f.offset, f.End(), x);
    }
  }

  // ---------------------------------------------------------------------------
  // What one call does
  // ---------------------------------------------------------------------------

  const INITIAL: State := State(map[], 0, [Interval(0, MAX_BYTE_COUNT)])

  /** Exactly the bytes of `f` are added to the received ones. */
  ghost predicate Receives(gaps: seq<Interval>, f: Frame, gaps': seq<Interval>) {
    forall x: nat :: Missing(gaps', x) <==> Missing(gaps, x) && !(f.offset <= x < f.End())
  }

  /** Every queued frame was queued before or is a non-empty piece of `f`, which keeps
      the FIN of `f` even if the end of `f` was cut off. */
  ghost predicate FromQueueOr(queue: map<nat, Frame>, f: Frame, queue': map<nat, Frame>) {
    forall k | k in queue' ::
      || (k in queue && queue'[k] == queue[k])
      || (IsSlice(queue'[k], f) && queue'[k].data != [] && queue'[k].fin == f.fin)
  }

  /** The frames of the run that is being read stay as they are. */
  ghost predicate KeepsFirstRun(s: State, s': State)
    requires |s.gaps| > 0
  {
    forall k | k in s.queue && k < s.gaps[0].start :: k in s'.queue && s'.queue[k] == s.queue[k]
  }

  /** The effect of pushing a frame with data. */
  ghost predicate Pushed(s: State, f: Frame, r: Result, s': State)
    requires |s.gaps| > 0
  {
    if f.End() == MAX_BYTE_COUNT then r == NoEndGapFound
    else if Covered(s.gaps, f.offset, f.End()) then r == Duplicate && s' == s
    else
      && r == (if |s'.gaps| > MAX_SORTER_GAPS then TooManyGaps else Ok)
      && s'.readPos == s.readPos
      && GapsOk(s'.gaps)
      && Receives(s.gaps, f, s'.gaps)
      && (r == Ok ==> Valid(s') && FromQueueOr(s.queue, f, s'.queue) && KeepsFirstRun(s, s'))
  }

  /** The effect of pushing any frame. */
  ghost predicate PushSpec(s: State, f: Frame, r: Result, s': State)
    requires |s.gaps| > 0
  {
    if f.data != [] then Pushed(s, f, r, s')
    else if f.fin then r == Ok && s' == s.(queue := s.queue[f.offset := f])
    else r == EmptyData && s' == s
  }

  /** The frame to read next. It has data exactly when the next byte has been received. */
  function Head(s: State): (frame: Option<Frame>)
    requires Valid(s)
    ensures frame.Some? && frame.value.data != [] <==> !Missing(s.gaps, s.readPos)
    ensures frame.Some? ==> frame.value.offset == s.readPos
  {
    HeadHoldsNextByte(s);
    if s.readPos in s.queue then Some(s.queue[s.readPos]) else None
  }

  function AfterPop(s: State): State
    requires Valid(s)
  {
    match Head(s)
    case None => s
    case Some(frame) => s.(readPos := s.readPos + |frame.data|, queue := s.queue - {frame.offset})
  }

  lemma HeadHoldsNextByte(s: State)
    requires Valid(s)
    ensures (s.readPos in s.queue && s.queue[s.readPos].data != []) <==> !Missing(s.gaps, s.readPos)
  {
    assert Chain(s.queue, RunStart(s.readPos, s.gaps, 0), s.gaps[0].start);
    ChainBounds(s.queue, s.readPos, s.gaps[0].start);
    if s.readPos == s.gaps[0].start {
      assert Missing(s.gaps, s.readPos);
    } else {
      assert forall i | 0 < i < |s.gaps| :: s.gaps[0].end < s.gaps[i].start;
    }
  }

  lemma PopKeepsValid(s: State)
    requires Valid(s)
    ensures Valid(AfterPop(s))
  {
    if s.readPos in s.queue {
      var s' := AfterPop(s);
      assert Chain(s.queue, RunStart(s.readPos, s.gaps, 0), s.gaps[0].start);
      ChainBounds(s.queue, s.readPos, s.gaps[0].start);
      forall i | 0 <= i < |s.gaps|
        ensures Chain(s'.queue, RunStart(s'.readPos, s.gaps, i), s.gaps[i].start)
      {
        assert Chain(s.queue, RunStart(s.readPos, s.gaps, i), s.gaps[i].start);
        HeadHoldsNextByte(s);
        assert i > 0 ==> s.gaps[0].start < RunStart(s.readPos, s.gaps, i);
        ChainDependsOnRange(s.queue, s'.queue, RunStart(s'.readPos, s.gaps, i), s.gaps[i].start);
      }
    }
  }

  /** A frame on the chain from `lo` to `hi` starts at `k`. */
  predicate OnChain(queue: map<nat, Frame>, lo: nat, hi: nat, k: nat)
    requires Chain(queue, lo, hi)
    decreases hi - lo
  {
    lo < hi && (k == lo || OnChain(queue, lo + |queue[lo].data|, hi, k))
  }

  lemma {:induction false} ReplacingOnChain(queue: map<nat, Frame>, lo: nat, hi: nat, f: Frame)
    requires Chain(queue, lo, hi) && f.data == []
    ensures Chain(queue[f.offset := f], lo, hi) <==> !OnChain(queue, lo, hi, f.offset)
    decreases hi - lo
  {
    if lo < hi {
      ReplacingOnChain(queue, lo + |queue[lo].data|, hi, f);
    }
  }

  /** An empty FIN frame replaces whatever is queued at its offset. That is harmless
      exactly when no frame on a received run starts there. */
  lemma EmptyFinKeepsValid(s: State, f: Frame)
    requires Valid(s) && f.data == []
    ensures Valid(s.(queue := s.queue[f.offset := f]))
            <==> forall i {:trigger RunStart(s.readPos, s.gaps, i)} | 0 <= i < |s.gaps| ::
                   !OnChain(s.queue, RunStart(s.readPos, s.gaps, i), s.gaps[i].start, f.offset)
  {
    var queue' := s.queue[f.offset := f];
    assert FramesOk(queue', s.gaps);
    forall i | 0 <= i < |s.gaps|
      ensures Chain(queue', RunStart(s.readPos, s.gaps, i), s.gaps[i].start)
              <==> !OnChain(s.queue, RunStart(s.readPos, s.gaps, i), s.gaps[i].start, f.offset)
    {
      ReplacingOnChain(s.queue, RunStart(s.readPos, s.gaps, i), s.gaps[i].start, f);
    }
  }

  /** After an empty FIN the head has data exactly if the next byte has been received and the
      FIN is not at the read position. */
  lemma EmptyFinAtHead(s: State, f: Frame)
    requires Valid(s) && f.data == []
    ensures
      var queue' := s.queue[f.offset := f];
      (s.readPos in queue' && queue'[s.readPos].data != []) <==> !Missing(s.gaps, s.readPos) && f.offset != s.readPos
  {
    HeadHoldsNextByte(s);
  }

  /** It is not always harmless: an empty FIN at offset 0 hides the data queued there, and the
      head has no data although the next byte has been received. */
  lemma EmptyFinCanHideData()
    ensures
      var data, fin := Frame(5, 0, [7], false, true), Frame(5, 0, [], true, true);
      var s := State(map[0 := data], 0, [Interval(1, MAX_BYTE_COUNT)]);
      var s' := s.(queue := s.queue[0 := fin]);
      && Valid(s) && !Valid(s')
      && !Missing(s'.gaps, s'.readPos) && s'.readPos in s'.queue && s'.queue[s'.readPos].data == []
  {
    var data, fin := Frame(5, 0, [7], false, true), Frame(5, 0, [], true, true);
    var s := State(map[0 := data], 0, [Interval(1, MAX_BYTE_COUNT)]);
    assert Chain(s.queue, 1, 1);
    assert Valid(s) by {
      assert RunStart(s.readPos, s.gaps, 0) == 0;
    }
    EmptyFinKeepsValid(s, fin);
    assert OnChain(s.queue, RunStart(s.readPos, s.gaps, 0), s.gaps[0].start, 0);
  }

  lemma LastByteIsMissing(gaps: seq<Interval>, lo: nat, hi: nat)
    requires GapsOk(gaps) && lo < hi <= MAX_BYTE_COUNT
    ensures Covered(gaps, lo, hi) ==> hi < MAX_BYTE_COUNT
  {
    assert Missing(gaps, MAX_BYTE_COUNT - 1);
  }

  /** A frame never starts at the end of a gap once the known prefix is cut off,
      because the byte there was received with a frame that starts there. */
  lemma NotAtEndOfGap(s: State, f: Frame, start: nat, g: nat)
    requires Valid(s)
    requires g < |s.gaps| && start <= s.gaps[g].end && start < MAX_BYTE_COUNT
    requires start == if f.offset in s.queue then s.queue[f.offset].End() else f.offset
    ensures start < s.gaps[g].end
  {
    if start == s.gaps[g].end {
      assert Chain(s.queue, RunStart(s.readPos, s.gaps, g + 1), s.gaps[g + 1].start);
      assert Missing(s.gaps, start - 1);
    }
  }

  lemma RunIsCovered(gaps: seq<Interval>, e: nat, hi: nat)
    requires GapsOk(gaps)
    requires e + 1 < |gaps| && hi <= gaps[e + 1].start
    ensures Covered(gaps, gaps[e].end, hi)
  {
    assert forall i | 0 <= i < e :: gaps[i].end < gaps[e].start;
    assert forall i | e + 1 < i < |gaps| :: gaps[e + 1].end < gaps[i].start;
  }

  lemma FillReceives(gaps: seq<Interval>, g: nat, e: nat, f: Frame, piece: Frame)
    requires Fits(gaps, g, e, piece.offset, piece.End())
    requires IsSlice(piece, f)
    requires Covered(gaps, f.offset, piece.offset) && Covered(gaps, piece.End(), f.End())
    ensures !Covered(gaps, f.offset, f.End())
    ensures Receives(gaps, f, Fill(gaps, g, e, piece.offset, piece.End()))
  {
    assert Missing(gaps, piece.offset);
    forall x: nat
      ensures Missing(Fill(gaps, g, e, piece.offset, piece.End()), x)
              <==> Missing(gaps, x) && !(f.offset <= x < f.End())
    {
      FillRemovesRange(gaps, g, e, piece.offset, piece.End(), x);
    }
  }

  lemma StoreIsValid(s: State, g: nat, e: nat, piece: Frame, queue': map<nat, Frame>)
    requires Valid(s)
    requires Fits(s.gaps, g, e, piece.offset, piece.End())
    requires Stored(s.queue, s.gaps, g, e, piece, queue')
    ensures Valid(State(queue', s.readPos, Fill(s.gaps, g, e, piece.offset, piece.End())))
  {
    FillKeepsGapsOk(s.gaps, g, e, piece.offset, piece.End());
    FillKeepsRuns(s, g, e, piece, queue');
    StoringKeepsFrames(s, g, e, piece, queue');
  }

  lemma PieceIsPushed(s: State, f: Frame, g: nat, e: nat, piece: Frame, r: Result, s': State)
    requires Valid(s)
    requires Fits(s.gaps, g, e, piece.offset, piece.End())
    requires IsSlice(piece, f) && piece.fin == f.fin && f.data != [] && f.End() < MAX_BYTE_COUNT
    requires Covered(s.gaps, f.offset, piece.offset) && Covered(s.gaps, piece.End(), f.End())
    requires s'.gaps == Fill(s.gaps, g, e, piece.offset, piece.End()) && s'.readPos == s.readPos
    requires r == if |s'.gaps| > MAX_SORTER_GAPS then TooManyGaps else Ok
    requires r == Ok ==>
               s'.queue == (s.queue - (set i | g <= i < e :: s.gaps[i].end))[piece.offset := piece]
    ensures Pushed(s, f, r, s')
  {
    FillKeepsGapsOk(s.gaps, g, e, piece.offset, piece.End());
    FillReceives(s.gaps, g, e, f, piece);
    if r == Ok {
      StoreIsValid(s, g, e, piece, s'.queue);
      assert forall i | 0 <= i < |s.gaps| :: s.gaps[0].start < s.gaps[i].end;
    }
  }

  lemma CoveredUpToGap(gaps: seq<Interval>, g: nat, lo: nat, start: nat)
    requires GapsOk(gaps) && g < |gaps| && start <= gaps[g].start && Covered(gaps, lo, start)
    requires forall i | 0 <= i < g :: gaps[i].end < start
    ensures Covered(gaps, lo, gaps[g].start)
  {
    assert forall i | g < i < |gaps| :: gaps[g].start < gaps[i].start;
  }

  lemma RegroupGaps(was: seq<Interval>, g: nat, e: nat, gone: bool, gaps: seq<Interval>)
    requires g <= e < |was| && gaps == was[..g + 1] + was[if gone then e + 1 else e..]
    ensures gaps == was[..g] + [was[g]] + (if gone then was[e + 1..] else [was[e]] + was[e + 1..]) && gaps[g] == was[g]
  {
    assert was[..g + 1] == was[..g] + [was[g]];
    assert was[e..] == [was[e]] + was[e + 1..];
  }

  class StreamFrameSorter {
    var queuedFrames: map<nat, Frame>
    var readPosition: nat
    var gaps: seq<Interval>

    function View(): State
      reads this
    {
      State(queuedFrames, readPosition, gaps)
    }

    constructor ()
      ensures View() == INITIAL && Valid(View())
    {
      queuedFrames, readPosition := map[], 0;
      gaps := [Interval(0, MAX_BYTE_COUNT)];
    }

    /** The first gap that the range [start, end) reaches, or none when every byte
        of the range has been received. `exhausted` reports the end of the list. */
    method FindGap(start: nat, end: nat) returns (g: nat, duplicate: bool, exhausted: bool)
      requires GapsOk(gaps)
      requires start < end <= MAX_BYTE_COUNT
      ensures !exhausted
      ensures duplicate ==> Covered(gaps, start, end)
      ensures !duplicate ==> g < |gaps| && gaps[g].start < end && start <= gaps[g].end
      ensures !duplicate ==> forall i | 0 <= i < g :: gaps[i].end < start
    {
      g, duplicate, exhausted := 0, false, false;
      while g < |gaps|
        invariant g <= |gaps|
        invariant forall i | 0 <= i < g :: gaps[i].end < start
      {
        if end <= gaps[g].start {
          assert forall i | g < i < |gaps| :: gaps[g].start < gaps[i].start;
          return g, true, false;
        }
        if gaps[g].start < end && start <= gaps[g].end {
          return;
        }
        g := g + 1;
      }
      exhausted := true;
    }

    /** Walks from gap `g` to the last gap that starts before `end`, dropping the gaps
        in between and the first queued frame of every run in between. A gap that ends
        at or before `end` is also taken off the list, unless it is `g` itself. */
    method WalkToEndGap(g: nat, end: nat) returns (ok: bool, endGap: Interval, same: bool, ghost e: nat)
      requires g < |gaps| && gaps[g].start < end <= MAX_BYTE_COUNT
      requires gaps[|gaps| - 1].end == MAX_BYTE_COUNT
      requires forall i | 0 <= i < |gaps| :: gaps[i].start < gaps[i].end <= MAX_BYTE_COUNT
      modifies this`gaps, this`queuedFrames
      ensures ok <==> end < MAX_BYTE_COUNT
      ensures ok ==> g <= e < |old(gaps)| && endGap == old(gaps)[e] && (same <==> e == g)
      ensures ok ==> endGap.start < end
      ensures ok ==> end < endGap.end || (e + 1 < |old(gaps)| && end <= old(gaps)[e + 1].start)
      ensures ok ==> gaps == old(gaps)[..g + 1] + old(gaps)[if same || endGap.end <= end then e + 1 else e..]
      ensures ok ==> queuedFrames == old(queuedFrames) - (set i | g <= i < e :: old(gaps)[i].end)
    {
      ghost var was := gaps;
      e, endGap, same, ok := g, gaps[g], true, true;
      while endGap.end <= end
        invariant ok && g <= e < |was| && endGap == was[e] && (same <==> e == g)
        invariant endGap.start < end
        invariant gaps == was[..g + 1] + was[if same then e + 1 else e..]
        invariant queuedFrames == old(queuedFrames) - (set i | g <= i < e :: was[i].end)
        decreases |was| - e
      {
        var n := if same then g + 1 else g + 2;
        if n == |gaps| {
          ok := false;
          return;
        }
        var next := gaps[n];
        assert next == was[e + 1];
        if !same {
          gaps := gaps[..g + 1] + gaps[g + 2..];
        }
        if end <= next.start {
          break;
        }
        queuedFrames := queuedFrames - {endGap.end};
        endGap, same, e := next, false, e + 1;
      }
    }

    /** Shrinks, removes or splits the gaps at both ends of the filled range. */
    method CloseGap(g: nat, endGap: Interval, same: bool, start: nat, end: nat,
                    ghost pre: seq<Interval>, ghost post: seq<Interval>)
      requires |pre| == g < |gaps|
      requires gaps == pre + [gaps[g]] + if same || endGap.end <= end then post else [endGap] + post
      requires gaps[g].start <= start < gaps[g].end && end <= endGap.end
      requires if same then endGap == gaps[g] else gaps[g].end < end
      modifies this`gaps
      ensures gaps == pre + Between(old(gaps)[g].start, start) + Between(end, endGap.end) + post
    {
      var gap := gaps[g];
      if start == gap.start {
        if end >= gap.end {
          gaps := gaps[..g] + gaps[g + 1..];
        }
        if end < endGap.end {
          assert gaps == pre + [endGap] + post;
          gaps := gaps[g := Interval(end, endGap.end)];
        }
      } else if end == endGap.end {
        gaps := gaps[g := Interval(gap.start, start)];
      } else {
        CutMiddle(g, endGap, same, start, end, pre, post);
      }
    }

    /** The case in which something is left of the gap at both ends. */
    method CutMiddle(g: nat, endGap: Interval, same: bool, start: nat, end: nat,
                     ghost pre: seq<Interval>, ghost post: seq<Interval>)
      requires |pre| == g < |gaps|
      requires gaps == pre + [gaps[g]] + if same then post else [endGap] + post
      requires same ==> endGap == gaps[g]
      modifies this`gaps
      ensures gaps == pre + [Interval(old(gaps)[g].start, start), Interval(end, endGap.end)] + post
    {
      var gap := gaps[g];
      if same {
        gaps := gaps[..g] + [Interval(gap.start, start), Interval(end, gap.end)] + gaps[g + 1..];
      } else {
        gaps := gaps[g := Interval(gap.start, start)];
        gaps := gaps[g + 1 := Interval(end, endGap.end)];
      }
    }

    method Push(frame: Frame) returns (r: Result)
      requires Valid(View())
      requires frame.End() <= MAX_BYTE_COUNT
      modifies this
      ensures PushSpec(old(View()), frame, r, View())
    {
      if frame.data == [] {
        if frame.fin {
          queuedFrames := queuedFrames[frame.offset := frame];
          return Ok;
        }
        return EmptyData;
      }
      LastByteIsMissing(gaps, frame.offset, frame.End());
      var start, data := frame.offset, frame.data;
      if start in queuedFrames {
        var known := |queuedFrames[start].data|;
        if |data| <= known {
          return Duplicate;
        }
        start, data := start + known, data[known..];
      }
      assert Covered(gaps, frame.offset, start);
      r := PushUnknown(frame, start, data);
    }

    /** The rest of `Push`, once the prefix known from a queued frame is cut off. */
    method PushUnknown(frame: Frame, start: nat, data: seq<Byte>) returns (r: Result)
      requires Valid(View())
      requires frame.End() <= MAX_BYTE_COUNT && data != []
      requires start == if frame.offset in queuedFrames then queuedFrames[frame.offset].End() else frame.offset
      requires IsSlice(frame.(offset := start, data := data), frame)
      requires start + |data| == frame.End()
      requires Covered(gaps, frame.offset, start)
      modifies this
      ensures Pushed(old(View()), frame, r, View())
    {
      LastByteIsMissing(gaps, frame.offset, frame.End());
      var g, duplicate, exhausted := FindGap(start, frame.End());
      if duplicate {
        return Duplicate;
      }
      if exhausted {
        return NoGapFound;
      }
      NotAtEndOfGap(View(), frame, start, g);
      r := PushAtGap(frame, g, start, data);
    }

    /** The rest of `Push`, once the gap `g` of the first missing byte is known. */
    method PushAtGap(frame: Frame, g: nat, start: nat, data: seq<Byte>) returns (r: Result)
      requires Valid(View())
      requires g < |gaps| && gaps[g].start < frame.End() && start < gaps[g].end
      requires forall i | 0 <= i < g :: gaps[i].end < start
      requires frame.End() <= MAX_BYTE_COUNT && start + |data| == frame.End() && data != []
      requires IsSlice(frame.(offset := start, data := data), frame)
      requires Covered(gaps, frame.offset, start)
      modifies this
      ensures Pushed(old(View()), frame, r, View())
    {
      var start', data' := CutToGap(frame, g, start, data);
      r := PushFromGap(frame, g, start', data');
    }

    /** Cuts off what lies before gap `g`. */
    method CutToGap(frame: Frame, g: nat, start: nat, data: seq<Byte>) returns (start': nat, data': seq<Byte>)
      requires GapsOk(gaps) && g < |gaps| && gaps[g].start < start + |data| && start < gaps[g].end
      requires forall i | 0 <= i < g :: gaps[i].end < start
      requires IsSlice(frame.(offset := start, data := data), frame) && Covered(gaps, frame.offset, start) && data != []
      ensures gaps[g].start <= start' < gaps[g].end && start' + |data'| == start + |data| && data' != []
      ensures IsSlice(frame.(offset := start', data := data'), frame) && Covered(gaps, frame.offset, start')
    {
      start', data' := start, data;
      if start < gaps[g].start {
        CoveredUpToGap(gaps, g, frame.offset, start);
        var add := gaps[g].start - start;
        PieceIsSlice(frame, start, data, add, |data|);
        start', data' := start + add, data[add..];
      }
    }

    /** Cuts off the received tail of a frame that starts at `start`, in gap `g`, and
        takes the rest, up to `end`, out of the gaps. */
    method FillGaps(g: nat, start: nat, data: seq<Byte>)
      returns (ok: bool, end: nat, data': seq<Byte>, ghost e: nat)
      requires GapsOk(gaps)
      requires g < |gaps| && gaps[g].start <= start < gaps[g].end
      requires data != [] && start + |data| <= MAX_BYTE_COUNT
      modifies this`gaps, this`queuedFrames
      ensures ok <==> start + |data| < MAX_BYTE_COUNT
      ensures ok ==> Fits(old(gaps), g, e, start, end) && gaps == Fill(old(gaps), g, e, start, end)
      ensures ok ==> end <= start + |data| && data' == data[..end - start]
      ensures ok ==> Covered(old(gaps), end, start + |data|)
      ensures ok ==> queuedFrames == old(queuedFrames) - (set i | g <= i < e :: old(gaps)[i].end)
    {
      end, data' := start + |data|, data;
      var endGap, same;
      ok, endGap, same, e := WalkToEndGap(g, end);
      if !ok {
        return;
      }
      if end > endGap.end {
        RunIsCovered(old(gaps), e, end);
        var cutLen := end - endGap.end;
        end, data' := end - cutLen, data[..|data| - cutLen];
      }
      assert !same ==> old(gaps)[g].end < endGap.start;
      ghost var pre, post := old(gaps)[..g], old(gaps)[e + 1..];
      RegroupGaps(old(gaps), g, e, same || endGap.end <= end, gaps);
      CloseGap(g, endGap, same, start, end, pre, post);
    }

    /** The rest of `Push`, once the first missing byte is known to be `start`, in gap `g`. */
    method PushFromGap(frame: Frame, g: nat, start: nat, data: seq<Byte>) returns (r: Result)
      requires Valid(View())
      requires g < |gaps| && gaps[g].start <= start < gaps[g].end
      requires frame.End() <= MAX_BYTE_COUNT && start + |data| == frame.End() && data != []
      requires IsSlice(frame.(offset := start, data := data), frame)
      requires Covered(gaps, frame.offset, start)
      modifies this
      ensures Pushed(old(View()), frame, r, View())
    {
      var ok, end, data', e := FillGaps(g, start, data);
      if !ok {
        return NoEndGapFound;
      }
      var piece := frame.(offset := start, data := data');
      PieceIsSlice(frame, start, data, 0, |data'|);
      assert piece.End() == end && data' == data[0..|data'|];
      if |gaps| > MAX_SORTER_GAPS {
        r := TooManyGaps;
      } else {
        queuedFrames := queuedFrames[start := piece];
        r := Ok;
      }
      PieceIsPushed(old(View()), frame, g, e, piece, r, View());
    }

    /** Removes the frame at the read position and moves past it. */
    method Pop() returns (frame: Option<Frame>)
      requires Valid(View())
      modifies this
      ensures frame == Head(old(View()))
      ensures View() == AfterPop(old(View()))
      ensures Valid(View())
    {
      PopKeepsValid(View());
      frame := Head(View());
      if frame.Some? {
        readPosition := readPosition + |frame.value.data|;
        queuedFrames := queuedFrames - {frame.value.offset};
      }
    }
  }
}
