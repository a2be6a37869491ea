/** ACK and CLOSE_PATH frames as far as acknowledgement is concerned. */
module AckFrames {
  import opened ReceivedHistory

  /** With more than one range, `ranges` lists them all, the highest first; otherwise it is
      empty and the one range goes from `lowest` to `largest`. */
  datatype AckFrame = AckFrame(largest: nat, lowest: nat, ranges: seq<Range>)

  /** The frame acknowledges packet `p`. */
  predicate Acks(f: AckFrame, p: nat) {
    && f.lowest <= p <= f.largest
    && (f.ranges != [] ==> exists i | 0 <= i < |f.ranges| :: Within(f.ranges[i], p))
  }

  /** The consistency that a parsed frame has. */
  ghost predicate WellFormed(f: AckFrame) {
    && f.lowest <= f.largest
    && (f.ranges != [] ==>
          && 2 <= |f.ranges|
          && f.ranges[0].end == f.largest
          && f.ranges[|f.ranges| - 1].start == f.lowest)
    && (forall i | 0 <= i < |f.ranges| :: f.ranges[i].start <= f.ranges[i].end)
    && (forall i, j | 0 <= i < j < |f.ranges| :: f.ranges[j].end + 1 < f.ranges[i].start)
  }

  function Reversed(ranges: seq<Range>): seq<Range> {
    seq(|ranges|, i requires 0 <= i < |ranges| => ranges[|ranges| - 1 - i])
  }

  /** The frame for a list of received ranges. */
  function FrameFor(ranges: seq<Range>): AckFrame
    requires ranges != []
  {
    AckFrame(ranges[|ranges| - 1].end, ranges[0].start, if |ranges| > 1 then Reversed(ranges) else [])
  }

  /** It is well-formed and acknowledges exactly the received numbers. */
  lemma FrameForIsExact(ranges: seq<Range>)
    requires Canonical(ranges) && ranges != []
    ensures WellFormed(FrameFor(ranges))
    ensures forall p: nat :: Acks(FrameFor(ranges), p) <==> Contains(ranges, p)
  {
    var f := FrameFor(ranges);
    var n := |ranges|;
    forall p: nat
      ensures Acks(f, p) <==> Contains(ranges, p)
    {
      if Contains(ranges, p) {
        var i :| 0 <= i < n && Within(ranges[i], p);
        assert i > 0 ==> ranges[0].end + 1 < ranges[i].start;
        assert i < n - 1 ==> ranges[i].end + 1 < ranges[n - 1].start;
        if n > 1 { assert Within(f.ranges[n - 1 - i], p); }
      }
      if Acks(f, p) {
        if n > 1 {
          var i :| 0 <= i < n && Within(f.ranges[i], p);
          assert Within(ranges[n - 1 - i], p);
        } else {
          assert Within(ranges[0], p);
        }
      }
    }
  }

  /** A long frame may be cut when it is written: the lowest ranges are left out. */
  function Truncated(f: AckFrame, k: nat): AckFrame {
    if 2 <= k < |f.ranges| then AckFrame(f.largest, f.ranges[k - 1].start, f.ranges[..k]) else f
  }

  /** It acknowledges nothing new, and all from the last range on that is written. */
  lemma TruncatedAcksLess(f: AckFrame, k: nat)
    requires WellFormed(f)
    ensures WellFormed(Truncated(f, k)) && Truncated(f, k).largest == f.largest
    ensures forall p: nat ::
      Acks(Truncated(f, k), p) <==> Acks(f, p) && (2 <= k < |f.ranges| ==> f.ranges[k - 1].start <= p)
  {
    if 2 <= k < |f.ranges| {
      forall p: nat
        ensures Acks(Truncated(f, k), p) <==> Acks(f, p) && f.ranges[k - 1].start <= p
      {
        TruncatedAt(f, k, p);
      }
    }
  }

  lemma TruncatedAt(f: AckFrame, k: nat, p: nat)
    requires WellFormed(f) && 2 <= k < |f.ranges|
    ensures Acks(Truncated(f, k), p) <==> Acks(f, p) && f.ranges[k - 1].start <= p
  {
    var t := Truncated(f, k);
    assert f.ranges[|f.ranges| - 1].end + 1 < f.ranges[k - 1].start;
    if Acks(t, p) {
      var i :| 0 <= i < |t.ranges| && Within(t.ranges[i], p);
      assert Within(f.ranges[i], p);
    }
    if Acks(f, p) && f.ranges[k - 1].start <= p {
      var i :| 0 <= i < |f.ranges| && Within(f.ranges[i], p);
      assert i < k;
      assert Within(t.ranges[i], p);
    }
  }
}
