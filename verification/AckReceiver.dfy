/** The receiving side of acknowledgement: which packets are recorded, when an ACK is due
    and what it says. */
module AckReceiver {
  import opened Options
  import opened ReceivedHistory
  import opened AckFrames

  const ACK_SEND_DELAY: int := 25
  const MAX_PACKETS_BEFORE_ACK: nat := 20
  const RETRANSMITTABLE_PACKETS_BEFORE_ACK: nat := 2

  /** `before39` says that the version is older than 39; times are in milliseconds. */
  datatype Receiver = Receiver(
    before39: bool,
    largestObserved: nat,
    lowerLimit: nat,
    ranges: seq<Range>,
    sinceAck: nat,
    retransmittableSinceAck: nat,
    ackQueued: bool,
    alarm: Option<int>,
    lastAck: Option<AckFrame>)

  datatype Result = Ok | InvalidPacketNumber | TooManyRanges

  function Initial(before39: bool): Receiver {
    Receiver(before39, 0, 0, [], 0, 0, false, None, None)
  }

  function Highest(ranges: seq<Range>): Range {
    if ranges == [] then Range(0, 0) else ranges[|ranges| - 1]
  }

  /** Whether the packet `p`, just recorded, makes an ACK due at once. */
  predicate AckAtOnce(r: Receiver, p: nat, instigate: bool) {
    || r.ackQueued
    || r.lastAck.None?
    || (r.before39 && r.sinceAck + 1 >= MAX_PACKETS_BEFORE_ACK)
    || p < r.lastAck.value.largest
    || Highest(r.ranges).start > r.lastAck.value.largest
    || (instigate && r.retransmittableSinceAck + 1 >= RETRANSMITTABLE_PACKETS_BEFORE_ACK)
  }

  function WithAckQueued(r: Receiver, p: nat, instigate: bool, now: int): Receiver {
    var atOnce := AckAtOnce(r, p, instigate);
    r.(sinceAck := r.sinceAck + 1,
       retransmittableSinceAck := r.retransmittableSinceAck + if instigate then 1 else 0,
       ackQueued := atOnce,
       alarm := if atOnce then None
                else if instigate && r.alarm.None? then Some(now + ACK_SEND_DELAY) else r.alarm)
  }

  function Observed(r: Receiver, p: nat): Receiver {
    if p > r.largestObserved then r.(largestObserved := p) else r
  }

  /** What `ReceivedPacket` does. */
  ghost predicate ReceiveSpec(r: Receiver, p: nat, instigate: bool, now: int, res: Result, r': Receiver) {
    if p == 0 then res == InvalidPacketNumber && r' == r
    else if p <= r.lowerLimit then res == Ok && r' == Observed(r, p)
    else if |r.ranges| >= MAX_TRACKED_RANGES then res == TooManyRanges && r' == Observed(r, p)
    else
      && res == Ok
      && Adds(r.ranges, p, r'.ranges)
      && r' == WithAckQueued(Observed(r, p).(ranges := r'.ranges), p, instigate, now)
  }

  ghost predicate LimitSpec(r: Receiver, p: nat, r': Receiver) {
    DeletesUpTo(r.ranges, p, r'.ranges) && r' == r.(lowerLimit := p, ranges := r'.ranges)
  }

  predicate AckDue(r: Receiver, now: int) {
    r.ackQueued || (r.alarm.Some? && r.alarm.value <= now)
  }

  function AfterAck(r: Receiver, f: AckFrame): Receiver {
    r.(lastAck := Some(f), alarm := None, ackQueued := false, sinceAck := 0, retransmittableSinceAck := 0)
  }

  /** The largest number observed is recorded, so that an ACK that is due has a range. */
  ghost predicate ReceiverOk(r: Receiver) {
    && Canonical(r.ranges)
    && (forall x: nat | Contains(r.ranges, x) :: x <= r.largestObserved)
    && (if r.largestObserved == 0 then r.ranges == [] && r.lowerLimit == 0 && !r.ackQueued && r.alarm.None?
        else r.lowerLimit < r.largestObserved && Contains(r.ranges, r.largestObserved))
  }

  lemma ReceiveKeepsOk(r: Receiver, p: nat, instigate: bool, now: int, r': Receiver)
    requires ReceiverOk(r) && ReceiveSpec(r, p, instigate, now, Ok, r')
    ensures ReceiverOk(r')
  {
  }

  /** Limits from STOP_WAITING frames are harmless exactly as long as they stay below the
      largest number observed. */
  lemma LimitKeepsOk(r: Receiver, p: nat, r': Receiver)
    requires ReceiverOk(r) && r.largestObserved > 0 && LimitSpec(r, p, r')
    ensures ReceiverOk(r') <==> p < r.largestObserved
  {
  }

  /** A limit at the largest number observed leaves nothing to acknowledge. */
  lemma HighLimitExample()
    ensures
      var r := Initial(false).(largestObserved := 3, ranges := [Range(3, 3)], ackQueued := true);
      var r' := r.(lowerLimit := 3, ranges := []);
      ReceiverOk(r) && LimitSpec(r, 3, r') && !ReceiverOk(r')
  {
    var r := Initial(false).(largestObserved := 3, ranges := [Range(3, 3)], ackQueued := true);
    assert Within(r.ranges[0], 3);
  }

  lemma LastEndIsLargest(r: Receiver)
    requires ReceiverOk(r) && r.largestObserved > 0
    ensures r.ranges != [] && r.ranges[|r.ranges| - 1].end == r.largestObserved
  {
    NotEmpty(r.ranges);
    var i :| 0 <= i < |r.ranges| && Within(r.ranges[i], r.largestObserved);
  }

  // ---------------------------------------------------------------------------
  // Limits that are lowered
  // ---------------------------------------------------------------------------

  datatype Step = Receive(p: nat, instigate: bool, now: int, res: Result) | Limit(p: nat) | Ack(f: AckFrame)

  ghost predicate Next(r: Receiver, step: Step, r': Receiver) {
    match step
    case Receive(p, instigate, now, res) => ReceiveSpec(r, p, instigate, now, res, r')
    case Limit(p) => LimitSpec(r, p, r')
    case Ack(f) => r' == AfterAck(r, f)
  }

  ghost predicate IsRun(run: seq<Receiver>, steps: seq<Step>) {
    |run| == |steps| + 1 && forall i | 0 <= i < |steps| :: Next(run[i], steps[i], run[i + 1])
  }

  /** Step `k` records `x`, which is beyond the limit of that time. */
  predicate Records(run: seq<Receiver>, steps: seq<Step>, k: nat, x: nat)
    requires |run| == |steps| + 1 && k < |steps|
  {
    steps[k].Receive? && steps[k].p == x && steps[k].res.Ok? && run[k].lowerLimit < x
  }

  /** No limit of the steps from `k` up to `i` reaches `x`. */
  predicate IsKept(steps: seq<Step>, k: nat, i: nat, x: nat)
    requires i <= |steps|
  {
    forall l | k <= l < i && steps[l].Limit? :: steps[l].p < x
  }

  ghost predicate RecordedSince(run: seq<Receiver>, steps: seq<Step>, j: nat, i: nat, x: nat)
    requires |run| == |steps| + 1 && i <= |steps|
  {
    exists k | j < k < i :: Records(run, steps, k, x) && IsKept(steps, k, i, x)
  }

  lemma OneStepMore(run: seq<Receiver>, steps: seq<Step>, j: nat, i: nat, x: nat)
    requires IsRun(run, steps) && j < i < |steps| && x > 0
    requires Contains(run[i].ranges, x) <==> RecordedSince(run, steps, j, i, x)
    ensures Contains(run[i + 1].ranges, x) <==> RecordedSince(run, steps, j, i + 1, x)
  {
    assert Next(run[i], steps[i], run[i + 1]);
    if Records(run, steps, i, x) {
      assert IsKept(steps, i, i + 1, x);
    } else if !(steps[i].Limit? && x <= steps[i].p) {
      forall k | j < k < i
        ensures IsKept(steps, k, i + 1, x) <==> IsKept(steps, k, i, x)
      {
      }
    }
  }

  /** In every run, a number up to the limit of step `j` is recorded later on exactly if it was
      received again while a lower limit was in force, and no limit has reached it since. */
  lemma {:induction false} OldLimitIsForgotten(run: seq<Receiver>, steps: seq<Step>, j: nat, i: nat, x: nat)
    requires IsRun(run, steps) && j < i < |run| && steps[j].Limit? && 0 < x <= steps[j].p
    ensures Contains(run[i].ranges, x) <==> RecordedSince(run, steps, j, i, x)
  {
    if i == j + 1 {
      assert Next(run[j], steps[j], run[i]);
    } else {
      OldLimitIsForgotten(run, steps, j, i - 1, x);
      OneStepMore(run, steps, j, i - 1, x);
    }
  }

  /** Limits that are not lowered are kept to. */
  lemma LimitsAreKept(run: seq<Receiver>, steps: seq<Step>, j: nat, i: nat, x: nat)
    requires IsRun(run, steps) && j < i < |run| && steps[j].Limit? && 0 < x <= steps[j].p
    requires forall k | j < k < i :: steps[j].p <= run[k].lowerLimit
    ensures !Contains(run[i].ranges, x)
  {
    OldLimitIsForgotten(run, steps, j, i, x);
  }

  /** Packet 4 is recorded although the limit was 5, because a late frame set it to 2. */
  lemma LateLimitExample()
    ensures
      var r := Initial(false).(largestObserved := 6, ranges := [Range(6, 6)], ackQueued := true);
      var r1, r2 := r.(lowerLimit := 5), r.(lowerLimit := 2);
      var r3 := WithAckQueued(r2.(ranges := [Range(4, 4), Range(6, 6)]), 4, true, 0);
      && IsRun([r, r1, r2, r3], [Limit(5), Limit(2), Receive(4, true, 0, Ok)])
      && Contains(r3.ranges, 4)
  {
    var r := Initial(false).(largestObserved := 6, ranges := [Range(6, 6)], ackQueued := true);
    var r1, r2 := r.(lowerLimit := 5), r.(lowerLimit := 2);
    var after := [Range(4, 4), Range(6, 6)];
    forall x: nat
      ensures Contains(r.ranges, x) <==> x == 6
      ensures Contains(after, x) <==> x == 4 || x == 6
    {
      ContainsSingle(Range(6, 6), x);
      ContainsPair(Range(4, 4), Range(6, 6), x);
    }
    assert Adds(r2.ranges, 4, after);
    var r3 := WithAckQueued(r2.(ranges := after), 4, true, 0);
    assert Next(r, Limit(5), r1) && Next(r1, Limit(2), r2) && Next(r2, Receive(4, true, 0, Ok), r3);
  }

  class ReceivedPacketHandler {
    const before39: bool
    var largestObserved: nat
    var lowerLimit: nat
    const packetHistory: ReceivedPacketHistory
    var packetsReceivedSinceLastAck: nat
    var retransmittablePacketsReceivedSinceLastAck: nat
    var ackQueued: bool
    var ackAlarm: Option<int>
    var lastAck: Option<AckFrame>

    function View(): Receiver
      reads this, packetHistory
    {
      Receiver(before39, largestObserved, lowerLimit, packetHistory.ranges, packetsReceivedSinceLastAck,
               retransmittablePacketsReceivedSinceLastAck, ackQueued, ackAlarm, lastAck)
    }

    constructor (before39: bool)
      ensures View() == Initial(before39) && ReceiverOk(View())
      ensures fresh(packetHistory)
    {
      this.before39 := before39;
      largestObserved, lowerLimit := 0, 0;
      packetHistory := new ReceivedPacketHistory();
      packetsReceivedSinceLastAck, retransmittablePacketsReceivedSinceLastAck := 0, 0;
      ackQueued, ackAlarm, lastAck := false, None, None;
    }

    method ReceivedPacket(p: nat, shouldInstigateAck: bool, now: int) returns (res: Result)
      requires Canonical(packetHistory.ranges)
      modifies this, packetHistory
      ensures ReceiveSpec(old(View()), p, shouldInstigateAck, now, res, View())
    {
      if p == 0 {
        return InvalidPacketNumber;
      }
      if p > largestObserved {
        largestObserved := p;
      }
      if p <= lowerLimit {
        return Ok;
      }
      var ok := packetHistory.ReceivedPacket(p);
      if !ok {
        return TooManyRanges;
      }
      MaybeQueueAck(p, shouldInstigateAck, now);
      return Ok;
    }

    method SetLowerLimit(p: nat)
      requires Canonical(packetHistory.ranges)
      modifies this`lowerLimit, packetHistory
      ensures LimitSpec(old(View()), p, View())
    {
      lowerLimit := p;
      packetHistory.DeleteUpTo(p);
    }

    method MaybeQueueAck(p: nat, shouldInstigateAck: bool, now: int)
      modifies this
      ensures View() == WithAckQueued(old(View()), p, shouldInstigateAck, now)
    {
      packetsReceivedSinceLastAck := packetsReceivedSinceLastAck + 1;
      if shouldInstigateAck {
        retransmittablePacketsReceivedSinceLastAck := retransmittablePacketsReceivedSinceLastAck + 1;
      }
      if lastAck.None? {
        ackQueued := true;
      }
      if before39 {
        if packetsReceivedSinceLastAck >= MAX_PACKETS_BEFORE_ACK {
          ackQueued := true;
        }
      }
      if lastAck.Some? && p < lastAck.value.largest {
        ackQueued := true;
      }
      if lastAck.Some? && packetHistory.GetHighestAckRange().start > lastAck.value.largest {
        ackQueued := true;
      }
      if !ackQueued && shouldInstigateAck {
        if retransmittablePacketsReceivedSinceLastAck >= RETRANSMITTABLE_PACKETS_BEFORE_ACK {
          ackQueued := true;
        } else if ackAlarm.None? {
          ackAlarm := Some(now + ACK_SEND_DELAY);
        }
      }
      if ackQueued {
        ackAlarm := None;
      }
    }

    /** The ACK frame that is due, if any. It acknowledges exactly the recorded numbers. */
    method GetAckFrame(now: int) returns (ack: Option<AckFrame>)
      requires ReceiverOk(View())
      modifies this
      ensures ReceiverOk(View())
      ensures ack.Some? <==> AckDue(old(View()), now)
      ensures ack.None? ==> View() == old(View())
      ensures ack.Some? ==>
                && packetHistory.ranges != [] && ack.value == FrameFor(packetHistory.ranges)
                && WellFormed(ack.value)
                && ack.value.largest == largestObserved
                && (forall p: nat :: Acks(ack.value, p) <==> Contains(packetHistory.ranges, p))
                && View() == AfterAck(old(View()), ack.value)
    {
      if !ackQueued && (ackAlarm.None? || ackAlarm.value > now) {
        return None;
      }
      LastEndIsLargest(View());
      FrameForIsExact(packetHistory.ranges);
      var ackRanges := Reversed(packetHistory.ranges);
      var frame := AckFrame(largestObserved, ackRanges[|ackRanges| - 1].start, []);
      if |ackRanges| > 1 {
        frame := frame.(ranges := ackRanges);
      }
      lastAck, ackAlarm, ackQueued := Some(frame), None, false;
      packetsReceivedSinceLastAck, retransmittablePacketsReceivedSinceLastAck := 0, 0;
      ack := Some(frame);
    }
  }
}
