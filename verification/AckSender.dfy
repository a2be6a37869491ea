/** The sending side of acknowledgement: the history of packets in flight, what an ACK or a
    CLOSE_PATH takes out of it, and what loss detection and alarms move to the
    retransmission queue. */
module AckSender {
  import opened Numbers
  import opened Options
  import opened AckFrames
  import opened ReceivedHistory

  const MAX_TRACKED_SENT_PACKETS: nat := 5000
  const MAX_TRACKED_SKIPPED_PACKETS: nat := 10
  const MAX_TAIL_LOSS_PROBES: nat := 2

  datatype Packet = Packet(number: nat, length: nat, sendTime: int)

  datatype Sender = Sender(
    lastSent: nat,
    skipped: seq<nat>,
    largestAcked: nat,
    largestWithAck: nat,
    history: seq<Packet>,
    queue: seq<Packet>,
    bytesInFlight: int,
    rtoCount: nat,
    tlpCount: nat,
    lossTime: Option<int>,
    nextLeastUnacked: nat,
    largestLeastUnackedSent: nat,
    lastStopWaiting: Option<nat>)

  const INITIAL := Sender(0, [], 0, 0, [], [], 0, 0, 0, None, 0, 0, None)

  datatype SendResult = Sent | NumberNotIncreasing | TooManyTracked

  datatype AckResult = Handled | UnsentPacket | DuplicateAck | SkippedPacket | WrongPacket

  // ---------------------------------------------------------------------------
  // Selecting packets
  // ---------------------------------------------------------------------------

  datatype Test =
    | AckedBy(frame: AckFrame)
    | Overdue(largest: nat, now: int, delay: int)
    | UpTo(largest: nat)
    | Number(n: nat)
    | Everything

  predicate Holds(t: Test, p: Packet) {
    match t
    case AckedBy(frame) => Acks(frame, p.number)
    case Overdue(largest, now, delay) => p.number <= largest && now - p.sendTime > delay
    case UpTo(largest) => p.number <= largest
    case Number(n) => p.number == n
    case Everything => true
  }

  /** The packets for which the test holds, in order. */
  function Part(h: seq<Packet>, t: Test): seq<Packet> {
    if h == [] then []
    else Part(h[..|h| - 1], t) + (if Holds(t, h[|h| - 1]) then [h[|h| - 1]] else [])
  }

  /** The other packets, in order. */
  function Rest(h: seq<Packet>, t: Test): seq<Packet> {
    if h == [] then []
    else Rest(h[..|h| - 1], t) + (if Holds(t, h[|h| - 1]) then [] else [h[|h| - 1]])
  }

  function SumLen(h: seq<Packet>): nat {
    if h == [] then 0 else SumLen(h[..|h| - 1]) + h[|h| - 1].length
  }

  ghost predicate Ascending(h: seq<Packet>) {
    forall i, j | 0 <= i < j < |h| :: h[i].number < h[j].number
  }

  lemma PartSnoc(h: seq<Packet>, x: Packet, t: Test)
    ensures Part(h + [x], t) == if Holds(t, x) then Part(h, t) + [x] else Part(h, t)
    ensures Rest(h + [x], t) == if Holds(t, x) then Rest(h, t) else Rest(h, t) + [x]
  {
    assert (h + [x])[..|h|] == h;
  }

  lemma SumLenSnoc(h: seq<Packet>, x: Packet)
    ensures SumLen(h + [x]) == SumLen(h) + x.length
  {
    assert (h + [x])[..|h|] == h;
  }

  lemma AscendingSnoc(h: seq<Packet>, x: Packet)
    ensures Ascending(h + [x]) <==> Ascending(h) && forall p | p in h :: p.number < x.number
  {
    var hx := h + [x];
    if Ascending(hx) {
      assert forall i | 0 <= i < |h| :: hx[i] == h[i];
      assert forall i | 0 <= i < |h| :: hx[i].number < hx[|h|].number;
    }
  }

  lemma {:induction false} PartIsExact(h: seq<Packet>, t: Test)
    ensures forall p :: p in Part(h, t) <==> p in h && Holds(t, p)
    ensures forall p :: p in Rest(h, t) <==> p in h && !Holds(t, p)
  {
    if h != [] {
      PartIsExact(h[..|h| - 1], t);
      assert h == h[..|h| - 1] + [h[|h| - 1]];
    }
  }

  lemma {:induction false} PartsAreAscending(h: seq<Packet>, t: Test)
    requires Ascending(h)
    ensures Ascending(Part(h, t)) && Ascending(Rest(h, t))
  {
    if h != [] {
      var init, last := h[..|h| - 1], h[|h| - 1];
      assert h == init + [last];
      AscendingSnoc(init, last);
      PartsAreAscending(init, t);
      PartIsExact(init, t);
      PartSnoc(init, last, t);
      AscendingSnoc(Part(init, t), last);
      AscendingSnoc(Rest(init, t), last);
    }
  }

  lemma {:induction false} LengthsAddUp(h: seq<Packet>, t: Test)
    ensures SumLen(Part(h, t)) + SumLen(Rest(h, t)) == SumLen(h)
  {
    if h != [] {
      var init, last := h[..|h| - 1], h[|h| - 1];
      assert h == init + [last];
      LengthsAddUp(init, t);
      PartSnoc(init, last, t);
      SumLenSnoc(Part(init, t), last);
      SumLenSnoc(Rest(init, t), last);
    }
  }

  /** The history once the packets `ps` have been removed one after the other. */
  function Without(h: seq<Packet>, ps: seq<Packet>): seq<Packet> {
    if ps == [] then h else Rest(Without(h, ps[..|ps| - 1]), Number(ps[|ps| - 1].number))
  }

  lemma WithoutSnoc(h: seq<Packet>, ps: seq<Packet>, p: Packet)
    ensures Without(h, ps + [p]) == Rest(Without(h, ps), Number(p.number))
  {
    assert (ps + [p])[..|ps|] == ps;
  }

  lemma {:induction false} RestIsAll(h: seq<Packet>, t: Test)
    requires forall p | p in h :: !Holds(t, p)
    ensures Rest(h, t) == h
  {
    if h != [] {
      RestIsAll(h[..|h| - 1], t);
    }
  }

  lemma {:induction false} WithoutOlder(h: seq<Packet>, x: Packet, ps: seq<Packet>)
    requires forall p | p in ps :: p.number != x.number
    ensures Without(h + [x], ps) == Without(h, ps) + [x]
  {
    if ps != [] {
      WithoutOlder(h, x, ps[..|ps| - 1]);
      PartSnoc(Without(h, ps[..|ps| - 1]), x, Number(ps[|ps| - 1].number));
    }
  }

  lemma LastIsRemoved(h: seq<Packet>, last: Packet)
    requires forall p | p in h :: p.number != last.number
    ensures Rest(h + [last], Number(last.number)) == h
  {
    PartSnoc(h, last, Number(last.number));
    RestIsAll(h, Number(last.number));
  }

  /** Removing the selected packets one after the other leaves exactly the others. */
  lemma {:induction false} WithoutPart(h: seq<Packet>, t: Test)
    requires Ascending(h)
    ensures Without(h, Part(h, t)) == Rest(h, t)
  {
    if h != [] {
      var init, last := h[..|h| - 1], h[|h| - 1];
      assert h == init + [last];
      AscendingSnoc(init, last);
      WithoutPart(init, t);
      PartIsExact(init, t);
      WithoutOlder(init, last, Part(init, t));
      PartSnoc(init, last, t);
      if Holds(t, last) {
        WithoutSnoc(h, Part(init, t), last);
        LastIsRemoved(Rest(init, t), last);
      }
    }
  }

  // ---------------------------------------------------------------------------
  // The merge of the ascending history with the descending ranges
  // ---------------------------------------------------------------------------

  /** With `idx` ranges, counted from the lowest, left behind because they end before `p`,
      the frame acknowledges `p` exactly when the next range contains it. */
  lemma MergeStep(f: AckFrame, idx: nat, p: nat)
    requires WellFormed(f) && idx < |f.ranges| && f.lowest <= p <= f.largest
    requires forall j | |f.ranges| - idx <= j < |f.ranges| :: f.ranges[j].end < p
    requires p <= f.ranges[|f.ranges| - 1 - idx].end || idx == |f.ranges| - 1
    ensures p <= f.ranges[|f.ranges| - 1 - idx].end
    ensures Acks(f, p) <==> f.ranges[|f.ranges| - 1 - idx].start <= p
  {
    var k := |f.ranges| - 1 - idx;
    if f.ranges[k].start <= p {
      assert Within(f.ranges[k], p);
    } else {
      assert forall j | 0 <= j < k :: f.ranges[k].end + 1 < f.ranges[j].start;
    }
  }

  /** The first `idx` ranges, counted from the lowest, end before `p`. */
  ghost predicate Behind(f: AckFrame, idx: nat, p: nat) {
    f.ranges != [] ==>
      idx < |f.ranges| && forall j | |f.ranges| - idx <= j < |f.ranges| :: f.ranges[j].end < p
  }

  /** Moves on, from the lowest ranges to the highest, to one that does not end before `p`. */
  method AdvanceTo(f: AckFrame, from: nat, p: nat) returns (idx: nat)
    requires WellFormed(f) && f.ranges != [] && Behind(f, from, p) && f.lowest <= p <= f.largest
    ensures Behind(f, idx, p) && p <= f.ranges[|f.ranges| - 1 - idx].end
    ensures Acks(f, p) <==> f.ranges[|f.ranges| - 1 - idx].start <= p
  {
    idx := from;
    while p > f.ranges[|f.ranges| - 1 - idx].end && idx < |f.ranges| - 1
      invariant Behind(f, idx, p)
      decreases |f.ranges| - idx
    {
      idx := idx + 1;
    }
    MergeStep(f, idx, p);
  }

  /** Looks one packet up in the ranges; the wrong one is never reported. */
  method CheckPacket(f: AckFrame, from: nat, p: nat) returns (idx: nat, isAcked: bool, bug: bool)
    requires WellFormed(f) && Behind(f, from, p) && p <= f.largest
    ensures Behind(f, idx, p) && !bug
    ensures isAcked <==> Acks(f, p)
  {
    idx, isAcked, bug := from, false, false;
    if p < f.lowest {
      return;
    }
    if f.ranges == [] {
      return idx, true, false;
    }
    idx := AdvanceTo(f, from, p);
    var range := f.ranges[|f.ranges| - 1 - idx];
    if p >= range.start {
      if p > range.end {
        return idx, false, true;
      }
      isAcked := true;
    }
  }

  lemma BehindGrows(f: AckFrame, idx: nat, p: nat, p': nat)
    requires Behind(f, idx, p) && p <= p'
    ensures Behind(f, idx, p')
  {
  }

  /** One pass over the history and the ranges finds exactly the acknowledged packets, and
      never reports a wrong one. */
  method DetermineNewlyAcked(history: seq<Packet>, f: AckFrame) returns (acked: seq<Packet>, bug: bool)
    requires Ascending(history) && WellFormed(f)
    ensures !bug && acked == Part(history, AckedBy(f))
  {
    acked, bug := [], false;
    var idx := 0;
    for i := 0 to |history|
      invariant !bug && acked == Part(history[..i], AckedBy(f))
      invariant i < |history| ==> Behind(f, idx, history[i].number)
    {
      var p := history[i];
      assert history[..i + 1] == history[..i] + [p];
      PartSnoc(history[..i], p, AckedBy(f));
      if p.number > f.largest {
        NoneAfter(history, i, AckedBy(f), f.largest);
        return;
      }
      var isAcked;
      idx, isAcked, bug := CheckPacket(f, idx, p.number);
      if bug {
        return [], true;
      }
      if isAcked {
        acked := acked + [p];
      }
      if i + 1 < |history| {
        BehindGrows(f, idx, p.number, history[i + 1].number);
      }
    }
    assert history[..|history|] == history;
  }

  /** The test holds for numbers up to `largest` only. */
  predicate Bounded(t: Test, largest: nat) {
    match t
    case AckedBy(frame) => frame.largest == largest
    case Overdue(n, _, _) => n == largest
    case UpTo(n) => n == largest
    case Number(n) => n == largest
    case Everything => false
  }

  lemma {:induction false} NoneAfter(h: seq<Packet>, i: nat, t: Test, largest: nat)
    requires Ascending(h) && Bounded(t, largest) && i < |h| && h[i].number > largest
    ensures Part(h, t) == Part(h[..i], t)
    decreases |h|
  {
    var init, last := h[..|h| - 1], h[|h| - 1];
    assert h == init + [last];
    PartSnoc(init, last, t);
    if i < |init| {
      NoneAfter(init, i, t, largest);
      assert init[..i] == h[..i];
    }
  }

  // ---------------------------------------------------------------------------
  // What one call does
  // ---------------------------------------------------------------------------

  /** The next least unacked number once `ps` are queued for retransmission. */
  function RaisedBy(next: nat, ps: seq<Packet>): nat {
    if ps == [] then next else Max(RaisedBy(next, ps[..|ps| - 1]), ps[|ps| - 1].number + 1)
  }

  /** The selected packets move from the history to the retransmission queue. */
  function Requeue(s: Sender, t: Test): Sender {
    var ps := Part(s.history, t);
    s.(history := Rest(s.history, t),
       queue := s.queue + ps,
       bytesInFlight := s.bytesInFlight - SumLen(ps),
       nextLeastUnacked := RaisedBy(s.nextLeastUnacked, ps))
  }

  /** The acknowledged packets leave the history; one is enough to reset the alarms. */
  function Acknowledge(s: Sender, f: AckFrame): Sender {
    var ps := Part(s.history, AckedBy(f));
    s.(history := Rest(s.history, AckedBy(f)),
       bytesInFlight := s.bytesInFlight - SumLen(ps),
       rtoCount := if ps == [] then s.rtoCount else 0,
       tlpCount := if ps == [] then s.tlpCount else 0)
  }

  /** When the first packet that is not overdue yet will be. */
  function NextLoss(h: seq<Packet>, largest: nat, now: int, delay: int): Option<int> {
    if h == [] then None
    else
      var last := h[|h| - 1];
      var before := NextLoss(h[..|h| - 1], largest, now, delay);
      if before.Some? || last.number > largest || now - last.sendTime > delay then before
      else Some(now + (delay - (now - last.sendTime)))
  }

  function DetectLost(s: Sender, now: int, delay: int): Sender {
    Requeue(s, Overdue(s.largestAcked, now, delay)).(lossTime := NextLoss(s.history, s.largestAcked, now, delay))
  }

  function LargestInOrderAcked(s: Sender): int {
    if s.history != [] then s.history[0].number - 1 else s.largestAcked
  }

  /** One more than the last index that holds a number up to `limit`. */
  function DeleteIndex(skipped: seq<nat>, limit: int): (i: nat)
    ensures i <= |skipped|
  {
    if skipped == [] then 0
    else if skipped[|skipped| - 1] <= limit then |skipped|
    else DeleteIndex(skipped[..|skipped| - 1], limit)
  }

  function CollectSkipped(s: Sender): Sender {
    s.(skipped := s.skipped[DeleteIndex(s.skipped, LargestInOrderAcked(s))..])
  }

  /** Numbers `from` up to `to` join the skipped ones, of which the latest are kept. */
  function SkippedAfter(skipped: seq<nat>, from: nat, to: nat): seq<nat>
    decreases to - from
  {
    if from >= to then skipped
    else
      var more := skipped + [from];
      SkippedAfter(if |more| > MAX_TRACKED_SKIPPED_PACKETS then more[1..] else more, from + 1, to)
  }

  function AfterSend(s: Sender, p: Packet, retransmittable: bool): (Sender, SendResult) {
    if p.number <= s.lastSent then (s, NumberNotIncreasing)
    else if |s.queue| + |s.history| + 1 > MAX_TRACKED_SENT_PACKETS then (s, TooManyTracked)
    else
      var s1 := s.(skipped := SkippedAfter(s.skipped, s.lastSent + 1, p.number), lastSent := p.number);
      (if retransmittable then s1.(history := s1.history + [p], bytesInFlight := s1.bytesInFlight + p.length) else s1,
       Sent)
  }

  predicate AcksSkipped(s: Sender, f: AckFrame) {
    exists n | n in s.skipped :: Acks(f, n)
  }

  function WithStopWaiting(s: Sender, f: AckFrame): Sender {
    if f.largest >= s.nextLeastUnacked then s.(nextLeastUnacked := f.largest + 1) else s
  }

  /** The work of an ACK that is not rejected. */
  function Process(s: Sender, f: AckFrame, now: int, delay: int): Sender {
    WithStopWaiting(CollectSkipped(DetectLost(Acknowledge(s, f), now, delay)), f)
  }

  /** ACK frame `f` arrives in packet `carrier`; `delay` is the time after which a packet
      that was overtaken counts as lost. */
  function AfterAck(s: Sender, f: AckFrame, carrier: nat, now: int, delay: int): (Sender, AckResult) {
    if f.largest > s.lastSent then (s, UnsentPacket)
    else if carrier <= s.largestWithAck then (s, DuplicateAck)
    else
      var s1 := s.(largestWithAck := carrier);
      if f.largest <= LargestInOrderAcked(s1) then (s1, Handled)
      else
        var s2 := s1.(largestAcked := f.largest);
        if AcksSkipped(s2, f) then (s2, SkippedPacket)
        else (Process(s2, f, now, delay), Handled)
  }

  /** CLOSE_PATH frame `f` arrives: what it does not acknowledge is lost, as far as the
      largest acknowledged number reaches. */
  function AfterClosePath(s: Sender, f: AckFrame, carrier: nat): (Sender, AckResult) {
    if f.largest > s.lastSent then (s, UnsentPacket)
    else if carrier <= s.largestWithAck then (s, DuplicateAck)
    else
      var s1 := s.(largestWithAck := carrier);
      if AcksSkipped(s1, f) then (s1, SkippedPacket)
      else (CollectSkipped(InflightLost(Acknowledge(s1, f))), Handled)
  }

  function InflightLost(s: Sender): Sender {
    Requeue(s, UpTo(s.largestAcked))
  }

  function OldestLost(s: Sender): Sender {
    if s.history == [] then s else Requeue(s, Number(s.history[0].number))
  }

  /** The alarm: time-based loss, a tail loss probe or a retransmission timeout, which takes
      everything if the path has failed and the two oldest packets otherwise. */
  function AfterAlarm(s: Sender, now: int, delay: int, failed: bool): Sender {
    if s.history == [] then s
    else if s.lossTime.Some? then DetectLost(s, now, delay)
    else if s.tlpCount < MAX_TAIL_LOSS_PROBES then
      Requeue(s, Number(s.history[|s.history| - 1].number)).(tlpCount := s.tlpCount + 1)
    else
      (if failed then Requeue(s, Everything) else OldestLost(OldestLost(s))).(rtoCount := s.rtoCount + 1)
  }

  function AfterDequeue(s: Sender): (Sender, Option<Packet>) {
    if s.queue == [] then (s, None) else (s.(queue := s.queue[1..]), Some(s.queue[0]))
  }

  /** The STOP_WAITING frame to send, if any. */
  function AfterStopWaiting(s: Sender, force: bool): (Sender, Option<nat>) {
    if s.nextLeastUnacked > s.largestLeastUnackedSent then
      (s.(largestLeastUnackedSent := s.nextLeastUnacked, lastStopWaiting := Some(s.nextLeastUnacked)),
       Some(s.nextLeastUnacked))
    else if !force then (s, None)
    else if s.lastStopWaiting.None? && s.largestLeastUnackedSent > 0 then
      (s.(lastStopWaiting := Some(s.nextLeastUnacked)), Some(s.nextLeastUnacked))
    else (s, s.lastStopWaiting)
  }

  /** The history is ascending and its lengths add up to the bytes in flight. */
  ghost predicate SenderOk(s: Sender) {
    && Ascending(s.history)
    && s.bytesInFlight == SumLen(s.history)
    && NumbersUpTo(s.history, s.lastSent)
  }

  ghost predicate NumbersUpTo(h: seq<Packet>, last: nat) {
    forall p | p in h :: 0 < p.number <= last
  }

  lemma RestKeepsOk(h: seq<Packet>, t: Test, last: nat)
    requires Ascending(h) && NumbersUpTo(h, last)
    ensures Ascending(Rest(h, t)) && NumbersUpTo(Rest(h, t), last)
    ensures SumLen(h) - SumLen(Part(h, t)) == SumLen(Rest(h, t))
  {
    PartsAreAscending(h, t);
    LengthsAddUp(h, t);
    PartIsExact(h, t);
  }

  lemma RequeueKeepsOk(s: Sender, t: Test)
    requires SenderOk(s)
    ensures SenderOk(Requeue(s, t))
  {
    RestKeepsOk(s.history, t, s.lastSent);
  }

  lemma AcknowledgeKeepsOk(s: Sender, f: AckFrame)
    requires SenderOk(s)
    ensures SenderOk(Acknowledge(s, f))
  {
    RestKeepsOk(s.history, AckedBy(f), s.lastSent);
  }

  lemma SendKeepsOk(s: Sender, p: Packet, retransmittable: bool)
    requires SenderOk(s)
    ensures SenderOk(AfterSend(s, p, retransmittable).0)
  {
    AscendingSnoc(s.history, p);
    SumLenSnoc(s.history, p);
  }

  lemma DetectLostKeepsOk(s: Sender, now: int, delay: int)
    requires SenderOk(s)
    ensures SenderOk(DetectLost(s, now, delay))
  {
    RequeueKeepsOk(s, Overdue(s.largestAcked, now, delay));
  }

  lemma CollectKeepsOk(s: Sender, f: AckFrame)
    requires SenderOk(s)
    ensures SenderOk(CollectSkipped(s)) && SenderOk(WithStopWaiting(CollectSkipped(s), f))
  {
  }

  lemma ProcessKeepsOk(s: Sender, f: AckFrame, now: int, delay: int)
    requires SenderOk(s)
    ensures SenderOk(Process(s, f, now, delay))
  {
    AcknowledgeKeepsOk(s, f);
    DetectLostKeepsOk(Acknowledge(s, f), now, delay);
    CollectKeepsOk(DetectLost(Acknowledge(s, f), now, delay), f);
  }

  lemma AckKeepsOk(s: Sender, f: AckFrame, carrier: nat, now: int, delay: int)
    requires SenderOk(s)
    ensures SenderOk(AfterAck(s, f, carrier, now, delay).0)
  {
    ProcessKeepsOk(s.(largestWithAck := carrier, largestAcked := f.largest), f, now, delay);
  }

  lemma ClosePathKeepsOk(s: Sender, f: AckFrame, carrier: nat)
    requires SenderOk(s)
    ensures SenderOk(AfterClosePath(s, f, carrier).0)
  {
    var s1 := s.(largestWithAck := carrier);
    AcknowledgeKeepsOk(s1, f);
    RequeueKeepsOk(Acknowledge(s1, f), UpTo(s1.largestAcked));
  }

  /** A CLOSE_PATH leaves those packets in flight that it does not acknowledge and that are
      beyond the largest number acknowledged so far, which it does not raise. */
  lemma ClosePathLeaves(s: Sender, f: AckFrame, carrier: nat)
    requires AfterClosePath(s, f, carrier).1 == Handled
    ensures
      var s' := AfterClosePath(s, f, carrier).0;
      && s'.largestAcked == s.largestAcked
      && (forall p :: p in s'.history <==> p in s.history && !Acks(f, p.number) && p.number > s.largestAcked)
      && (s'.history == [] <==> forall p | p in s.history :: Acks(f, p.number) || p.number <= s.largestAcked)
  {
    var rest := Rest(s.history, AckedBy(f));
    var left := Rest(rest, UpTo(s.largestAcked));
    PartIsExact(s.history, AckedBy(f));
    PartIsExact(rest, UpTo(s.largestAcked));
    assert AfterClosePath(s, f, carrier).0.history == left;
    if left != [] {
      assert left[0] in left;
    }
  }

  /** The first of two packets stays in flight after a CLOSE_PATH that acknowledges the second. */
  lemma ClosePathExample()
    ensures
      var first, second := Packet(1, 100, 0), Packet(2, 100, 0);
      var s := INITIAL.(lastSent := 2, history := [first, second], bytesInFlight := 200);
      var (s', r) := AfterClosePath(s, AckFrame(2, 2, []), 1);
      r == Handled && first in s'.history
  {
    var first, second := Packet(1, 100, 0), Packet(2, 100, 0);
    var s := INITIAL.(lastSent := 2, history := [first, second], bytesInFlight := 200);
    ClosePathLeaves(s, AckFrame(2, 2, []), 1);
    assert first in s.history;
  }

  lemma OldestLostKeepsOk(s: Sender)
    requires SenderOk(s)
    ensures SenderOk(OldestLost(s))
  {
    if s.history != [] {
      RequeueKeepsOk(s, Number(s.history[0].number));
    }
  }

  lemma AlarmKeepsOk(s: Sender, now: int, delay: int, failed: bool)
    requires SenderOk(s)
    ensures SenderOk(AfterAlarm(s, now, delay, failed))
  {
    if s.history == [] {
    } else if s.lossTime.Some? {
      DetectLostKeepsOk(s, now, delay);
    } else if s.tlpCount < MAX_TAIL_LOSS_PROBES {
      RequeueKeepsOk(s, Number(s.history[|s.history| - 1].number));
    } else if failed {
      RequeueKeepsOk(s, Everything);
    } else {
      OldestLostKeepsOk(s);
      OldestLostKeepsOk(OldestLost(s));
    }
  }
}
