/** One path with an honest peer: packets and ACKs may be lost, reordered and duplicated. */
module AckProtocol {
  import opened Options
  import opened AckFrames
  import opened AckSender
  import opened AckReceiver
  import History = ReceivedHistory

  /** A packet on the wire; `stop` is the least unacked number of its STOP_WAITING frame. */
  datatype Wire = Wire(number: nat, stop: Option<nat>)

  /** `packets` and `acks` hold everything that was ever sent in the two directions. `recorded`
      are the numbers that the receiver has ever put into its history. `tracked` are all
      retransmittable packets that were sent, `acked` those dropped as acknowledged, `dequeued`
      those taken from the retransmission queue. */
  datatype System = System(
    snd: Sender, rcv: Receiver,
    packets: set<Wire>, acks: set<AckFrame>, recorded: set<nat>,
    tracked: set<Packet>, acked: set<Packet>, dequeued: set<Packet>)

  datatype Step =
    | Send(packet: Packet, retransmittable: bool, stop: Option<bool>)
    | Deliver(wire: Wire, instigate: bool, now: int)
    | MakeAck(now: int)
    | MakeClosePath
    | GetAck(frame: AckFrame, cut: nat, carrier: nat, now: int, delay: int)
    | GetClosePath(frame: AckFrame, cut: nat, carrier: nat)
    | Alarm(now: int, delay: int, failed: bool)
    | LoseInflight
    | Dequeue

  function InitialSystem(before39: bool): System {
    System(AckSender.INITIAL, Initial(before39), {}, {}, {}, {}, {}, {})
  }

  function Elems(h: seq<Packet>): set<Packet> {
    set p | p in h
  }

  // ---------------------------------------------------------------------------
  // Steps
  // ---------------------------------------------------------------------------

  /** A STOP_WAITING frame is asked for first, if `stop` says so. */
  function Asked(s: Sender, stop: Option<bool>): (Sender, Option<nat>) {
    match stop
    case None => (s, None)
    case Some(force) => AfterStopWaiting(s, force)
  }

  function Sends(s: System, p: Packet, retransmittable: bool, stop: Option<bool>): System {
    var (s1, least) := Asked(s.snd, stop);
    var (s2, r) := AfterSend(s1, p, retransmittable);
    if r.Sent? then
      s.(snd := s2, packets := s.packets + {Wire(p.number, least)},
         tracked := if retransmittable then s.tracked + {p} else s.tracked)
    else s.(snd := s2)
  }

  /** The packet number is recorded first, then the frames of the packet are handled. A
      receiver that tracks too many ranges closes the connection, which ends the run. */
  ghost predicate Delivers(s: System, w: Wire, instigate: bool, now: int, s': System) {
    && w in s.packets
    && (exists r :: Handles(s.rcv, w, instigate, now, r, s'.rcv))
    && s' == s.(rcv := s'.rcv,
                recorded := if w.number > s.rcv.lowerLimit then s.recorded + {w.number} else s.recorded)
  }

  ghost predicate Handles(before: Receiver, w: Wire, instigate: bool, now: int, r: Receiver, after: Receiver) {
    && ReceiveSpec(before, w.number, instigate, now, Ok, r)
    && match w.stop
       case None => after == r
       case Some(leastUnacked) => leastUnacked > 0 && LimitSpec(r, leastUnacked - 1, after)
  }

  ghost predicate MakesAck(s: System, now: int, s': System) {
    && AckDue(s.rcv, now) && s.rcv.ranges != []
    && s' == s.(rcv := AckReceiver.AfterAck(s.rcv, FrameFor(s.rcv.ranges)), acks := s.acks + {FrameFor(s.rcv.ranges)})
  }

  ghost predicate MakesClosePath(s: System, s': System) {
    s.rcv.ranges != [] && s' == s.(acks := s.acks + {FrameFor(s.rcv.ranges)})
  }

  /** The frame is neither rejected nor ignored. */
  predicate ProcessesAck(s: Sender, f: AckFrame, carrier: nat) {
    && f.largest <= s.lastSent
    && carrier > s.largestWithAck
    && f.largest > LargestInOrderAcked(s)
    && !AcksSkipped(s, f)
  }

  predicate ProcessesClosePath(s: Sender, f: AckFrame, carrier: nat) {
    && f.largest <= s.lastSent
    && carrier > s.largestWithAck
    && !AcksSkipped(s, f)
  }

  /** The acknowledged packets that are in the history are dropped. */
  function GetsAck(s: System, f: AckFrame, carrier: nat, now: int, delay: int): System {
    s.(snd := AckSender.AfterAck(s.snd, f, carrier, now, delay).0,
       acked := s.acked + if ProcessesAck(s.snd, f, carrier) then Elems(Part(s.snd.history, AckedBy(f))) else {})
  }

  function GetsClosePath(s: System, f: AckFrame, carrier: nat): System {
    s.(snd := AfterClosePath(s.snd, f, carrier).0,
       acked := s.acked + if ProcessesClosePath(s.snd, f, carrier) then Elems(Part(s.snd.history, AckedBy(f))) else {})
  }

  function Dequeues(s: System): System {
    var (snd', p) := AfterDequeue(s.snd);
    s.(snd := snd', dequeued := if p.Some? then s.dequeued + {p.value} else s.dequeued)
  }

  ghost predicate Next(s: System, step: Step, s': System) {
    match step
    case Send(p, retransmittable, stop) => s' == Sends(s, p, retransmittable, stop)
    case Deliver(w, instigate, now) => Delivers(s, w, instigate, now, s')
    case MakeAck(now) => MakesAck(s, now, s')
    case MakeClosePath => MakesClosePath(s, s')
    case GetAck(f, cut, carrier, now, delay) => f in s.acks && s' == GetsAck(s, Truncated(f, cut), carrier, now, delay)
    case GetClosePath(f, cut, carrier) => f in s.acks && s' == GetsClosePath(s, Truncated(f, cut), carrier)
    case Alarm(now, delay, failed) => s' == s.(snd := AfterAlarm(s.snd, now, delay, failed))
    case LoseInflight => s' == s.(snd := InflightLost(s.snd))
    case Dequeue => s' == Dequeues(s)
  }

  ghost predicate IsRun(before39: bool, run: seq<System>, steps: seq<Step>) {
    && |run| == |steps| + 1
    && run[0] == InitialSystem(before39)
    && forall i | 0 <= i < |steps| :: Next(run[i], steps[i], run[i + 1])
  }

  // ---------------------------------------------------------------------------
  // Invariant
  // ---------------------------------------------------------------------------

  ghost predicate WasSent(packets: set<Wire>, n: nat) {
    exists w | w in packets :: w.number == n
  }

  /** Sent numbers go up to `lastSent`, and a STOP_WAITING frame never asks to give up its own
      packet. */
  ghost predicate PacketsOk(packets: set<Wire>, lastSent: nat) {
    forall w | w in packets ::
      && 0 < w.number <= lastSent
      && (w.stop.Some? ==> 0 < w.stop.value <= w.number)
  }

  ghost predicate StopWaitingOk(s: Sender) {
    && s.nextLeastUnacked <= s.lastSent + 1
    && s.largestLeastUnackedSent <= s.nextLeastUnacked
    && (s.lastStopWaiting.Some? ==> 0 < s.lastStopWaiting.value <= s.nextLeastUnacked)
  }

  ghost predicate SkippedOk(skipped: seq<nat>, packets: set<Wire>, lastSent: nat) {
    forall n | n in skipped :: n <= lastSent && !WasSent(packets, n)
  }

  /** The receiver records only packets that were sent, and acknowledges only recorded ones. */
  ghost predicate RecordedOk(s: System) {
    && (forall n | n in s.recorded :: WasSent(s.packets, n))
    && (forall x: nat | History.Contains(s.rcv.ranges, x) :: x in s.recorded)
    && (forall f | f in s.acks :: FrameOk(f, s.recorded))
  }

  ghost predicate FrameOk(f: AckFrame, recorded: set<nat>) {
    && WellFormed(f)
    && f.largest in recorded
    && forall x: nat | Acks(f, x) :: x in recorded
  }

  /** Every retransmittable packet is in exactly one place. */
  ghost predicate Accounted(history: seq<Packet>, queue: seq<Packet>, tracked: set<Packet>, acked: set<Packet>, dequeued: set<Packet>) {
    && tracked == Elems(history) + acked + Elems(queue) + dequeued
    && Elems(history) !! acked !! Elems(queue) !! dequeued
    && forall i, j | 0 <= i < j < |queue| :: queue[i] != queue[j]
  }

  ghost predicate Inv(s: System) {
    && SenderOk(s.snd)
    && StopWaitingOk(s.snd)
    && ReceiverOk(s.rcv)
    && PacketsOk(s.packets, s.snd.lastSent)
    && SkippedOk(s.snd.skipped, s.packets, s.snd.lastSent)
    && RecordedOk(s)
    && Accounted(s.snd.history, s.snd.queue, s.tracked, s.acked, s.dequeued)
    && (forall p | p in s.tracked :: p.number <= s.snd.lastSent)
    && (forall p | p in s.acked :: p.number in s.recorded)
  }

  // Accounting ---------------------------------------------------------------

  lemma ElemsOfParts(h: seq<Packet>, t: Test)
    requires Ascending(h)
    ensures Elems(Part(h, t)) + Elems(Rest(h, t)) == Elems(h)
    ensures Elems(Part(h, t)) !! Elems(Rest(h, t))
    ensures forall i, j | 0 <= i < j < |Part(h, t)| :: Part(h, t)[i] != Part(h, t)[j]
  {
    PartIsExact(h, t);
    PartsAreAscending(h, t);
  }

  lemma RequeueAccounts(s: Sender, t: Test, tracked: set<Packet>, acked: set<Packet>, dequeued: set<Packet>)
    requires Ascending(s.history) && Accounted(s.history, s.queue, tracked, acked, dequeued)
    ensures Accounted(Requeue(s, t).history, Requeue(s, t).queue, tracked, acked, dequeued)
  {
    ElemsOfParts(s.history, t);
    JoinQueues(s.queue, Part(s.history, t));
  }

  lemma JoinQueues(a: seq<Packet>, b: seq<Packet>)
    requires Elems(a) !! Elems(b)
    requires forall i, j | 0 <= i < j < |a| :: a[i] != a[j]
    requires forall i, j | 0 <= i < j < |b| :: b[i] != b[j]
    ensures Elems(a + b) == Elems(a) + Elems(b)
    ensures forall i, j | 0 <= i < j < |a + b| :: (a + b)[i] != (a + b)[j]
  {
    forall i, j | 0 <= i < j < |a + b|
      ensures (a + b)[i] != (a + b)[j]
    {
      if i < |a| <= j {
        assert a[i] in Elems(a) && b[j - |a|] in Elems(b);
      }
    }
  }

  lemma AckAccounts(s: Sender, f: AckFrame, tracked: set<Packet>, acked: set<Packet>, dequeued: set<Packet>)
    requires Ascending(s.history) && Accounted(s.history, s.queue, tracked, acked, dequeued)
    ensures Accounted(Rest(s.history, AckedBy(f)), s.queue, tracked, acked + Elems(Part(s.history, AckedBy(f))), dequeued)
  {
    ElemsOfParts(s.history, AckedBy(f));
  }

  // STOP_WAITING -------------------------------------------------------------

  lemma {:induction false} RaisedByIsBounded(next: nat, ps: seq<Packet>, last: nat)
    requires next <= last + 1 && forall p | p in ps :: p.number <= last
    ensures next <= RaisedBy(next, ps) <= last + 1
  {
    if ps != [] {
      RaisedByIsBounded(next, ps[..|ps| - 1], last);
    }
  }

  lemma RequeueKeepsStopWaiting(s: Sender, t: Test)
    requires SenderOk(s) && StopWaitingOk(s)
    ensures StopWaitingOk(Requeue(s, t))
  {
    PartIsExact(s.history, t);
    RaisedByIsBounded(s.nextLeastUnacked, Part(s.history, t), s.lastSent);
  }

  lemma AskedIsOk(s: Sender, stop: Option<bool>)
    requires SenderOk(s) && StopWaitingOk(s)
    ensures
      var (s1, least) := Asked(s, stop);
      && SenderOk(s1) && StopWaitingOk(s1)
      && s1 == s.(largestLeastUnackedSent := s1.largestLeastUnackedSent, lastStopWaiting := s1.lastStopWaiting)
      && (least.Some? ==> 0 < least.value <= s.lastSent + 1)
  {
  }

  // Sending ------------------------------------------------------------------

  lemma {:induction false} SkippedAreNew(skipped: seq<nat>, from: nat, until: nat)
    ensures forall n | n in SkippedAfter(skipped, from, until) :: n in skipped || from <= n < until
    decreases until - from
  {
    if from < until {
      var more := skipped + [from];
      SkippedAreNew(if |more| > MAX_TRACKED_SKIPPED_PACKETS then more[1..] else more, from + 1, until);
    }
  }

  lemma SendKeepsSkipped(s: Sender, packets: set<Wire>, w: Wire)
    requires PacketsOk(packets, s.lastSent) && SkippedOk(s.skipped, packets, s.lastSent) && w.number > s.lastSent
    ensures SkippedOk(SkippedAfter(s.skipped, s.lastSent + 1, w.number), packets + {w}, w.number)
  {
    SkippedAreNew(s.skipped, s.lastSent + 1, w.number);
  }

  lemma NewPacketIsAccounted(history: seq<Packet>, p: Packet, queue: seq<Packet>, tracked: set<Packet>, acked: set<Packet>, dequeued: set<Packet>)
    requires Accounted(history, queue, tracked, acked, dequeued) && p !in tracked
    ensures Accounted(history + [p], queue, tracked + {p}, acked, dequeued)
  {
    assert Elems(history + [p]) == Elems(history) + {p};
  }

  lemma MoreIsSent(packets: set<Wire>, w: Wire)
    ensures forall n | WasSent(packets, n) :: WasSent(packets + {w}, n)
  {
    forall n | WasSent(packets, n)
      ensures WasSent(packets + {w}, n)
    {
      var v :| v in packets && v.number == n;
      assert v in packets + {w};
    }
  }

  lemma SendKeepsRecorded(s: System, w: Wire, s': System)
    requires RecordedOk(s)
    requires s'.packets == s.packets + {w} && s'.rcv == s.rcv && s'.acks == s.acks && s'.recorded == s.recorded
    ensures RecordedOk(s')
  {
    MoreIsSent(s.packets, w);
  }

  /** The part of a send that concerns the sender: its STOP_WAITING frame does not ask for more
      than the packet itself. */
  lemma SentIsOk(s: Sender, packets: set<Wire>, p: Packet, retransmittable: bool, stop: Option<bool>)
    requires SenderOk(s) && StopWaitingOk(s)
    requires PacketsOk(packets, s.lastSent) && SkippedOk(s.skipped, packets, s.lastSent)
    requires AfterSend(Asked(s, stop).0, p, retransmittable).1.Sent?
    ensures
      var (s1, least) := Asked(s, stop);
      var s2 := AfterSend(s1, p, retransmittable).0;
      var packets' := packets + {Wire(p.number, least)};
      && SenderOk(s2) && StopWaitingOk(s2) && s2.lastSent == p.number > s.lastSent
      && PacketsOk(packets', p.number)
      && SkippedOk(s2.skipped, packets', p.number)
      && s2.queue == s.queue && s2.history == if retransmittable then s.history + [p] else s.history
  {
    AskedIsOk(s, stop);
    var (s1, least) := Asked(s, stop);
    SendKeepsOk(s1, p, retransmittable);
    SendKeepsSkipped(s1, packets, Wire(p.number, least));
  }

  lemma SendKeepsInv(s: System, p: Packet, retransmittable: bool, stop: Option<bool>)
    requires Inv(s)
    ensures Inv(Sends(s, p, retransmittable, stop))
  {
    var (s1, least) := Asked(s.snd, stop);
    if AfterSend(s1, p, retransmittable).1.Sent? {
      var s' := Sends(s, p, retransmittable, stop);
      SentIsOk(s.snd, s.packets, p, retransmittable, stop);
      SendKeepsRecorded(s, Wire(p.number, least), s');
      if retransmittable {
        NewPacketIsAccounted(s.snd.history, p, s.snd.queue, s.tracked, s.acked, s.dequeued);
      }
    } else {
      AskedIsOk(s.snd, stop);
    }
  }

  // Receiving ----------------------------------------------------------------

  lemma DeliverKeepsInv(s: System, w: Wire, instigate: bool, now: int, s': System)
    requires Inv(s) && Delivers(s, w, instigate, now, s')
    ensures Inv(s')
  {
    HandlingKeepsOk(s.packets, s.snd.lastSent, s.rcv, w, instigate, now, s'.rcv);
  }

  lemma HandlingKeepsOk(packets: set<Wire>, lastSent: nat, rcv: Receiver, w: Wire, instigate: bool, now: int, rcv': Receiver)
    requires ReceiverOk(rcv) && w in packets && PacketsOk(packets, lastSent)
    requires exists r :: Handles(rcv, w, instigate, now, r, rcv')
    ensures ReceiverOk(rcv')
  {
    var r :| Handles(rcv, w, instigate, now, r, rcv');
    ReceiveKeepsOk(rcv, w.number, instigate, now, r);
    if w.stop.Some? {
      LimitKeepsOk(r, w.stop.value - 1, rcv');
    }
  }

  lemma FrameForIsOk(s: System)
    requires Inv(s) && s.rcv.ranges != []
    ensures FrameOk(FrameFor(s.rcv.ranges), s.recorded)
  {
    FrameForIsExact(s.rcv.ranges);
    History.NotEmpty(s.rcv.ranges);
  }

  lemma MakeAckKeepsInv(s: System, now: int, s': System)
    requires Inv(s) && MakesAck(s, now, s')
    ensures Inv(s')
  {
    FrameForIsOk(s);
  }

  lemma MakeClosePathKeepsInv(s: System, s': System)
    requires Inv(s) && MakesClosePath(s, s')
    ensures Inv(s')
  {
    FrameForIsOk(s);
  }

  // Acknowledging, losing and retransmitting ---------------------------------

  ghost predicate SenderStep(s: System, snd': Sender, acked': set<Packet>, dequeued': set<Packet>) {
    && SenderOk(snd') && StopWaitingOk(snd')
    && snd'.lastSent == s.snd.lastSent
    && (forall n | n in snd'.skipped :: n in s.snd.skipped)
    && Accounted(snd'.history, snd'.queue, s.tracked, acked', dequeued')
    && (forall p | p in acked' :: p.number in s.recorded)
  }

  lemma SenderStepKeepsInv(s: System, snd': Sender, acked': set<Packet>, dequeued': set<Packet>)
    requires Inv(s) && SenderStep(s, snd', acked', dequeued')
    ensures Inv(s.(snd := snd', acked := acked', dequeued := dequeued'))
  {
  }

  lemma RequeueIsStep(s: System, snd: Sender, acked: set<Packet>, t: Test)
    requires SenderStep(s, snd, acked, s.dequeued)
    ensures SenderStep(s, Requeue(snd, t), acked, s.dequeued)
  {
    RequeueKeepsOk(snd, t);
    RequeueKeepsStopWaiting(snd, t);
    RequeueAccounts(snd, t, s.tracked, acked, s.dequeued);
  }

  /** What a frame acknowledges was recorded by the receiver. */
  lemma AcknowledgeIsStep(s: System, snd: Sender, f: AckFrame)
    requires SenderStep(s, snd, s.acked, s.dequeued) && FrameOk(f, s.recorded)
    ensures SenderStep(s, Acknowledge(snd, f), s.acked + Elems(Part(snd.history, AckedBy(f))), s.dequeued)
  {
    AcknowledgeKeepsOk(snd, f);
    AckAccounts(snd, f, s.tracked, s.acked, s.dequeued);
    PartIsExact(snd.history, AckedBy(f));
  }

  lemma CollectIsStep(s: System, snd: Sender, acked: set<Packet>)
    requires SenderStep(s, snd, acked, s.dequeued)
    ensures SenderStep(s, CollectSkipped(snd), acked, s.dequeued)
  {
  }

  lemma ProcessIsStep(s: System, snd: Sender, f: AckFrame, now: int, delay: int)
    requires SenderStep(s, snd, s.acked, s.dequeued) && FrameOk(f, s.recorded) && f.largest <= snd.lastSent
    ensures SenderStep(s, Process(snd, f, now, delay), s.acked + Elems(Part(snd.history, AckedBy(f))), s.dequeued)
  {
    var acked := s.acked + Elems(Part(snd.history, AckedBy(f)));
    var s1 := Acknowledge(snd, f);
    AcknowledgeIsStep(s, snd, f);
    RequeueIsStep(s, s1, acked, Overdue(s1.largestAcked, now, delay));
    var s2 := DetectLost(s1, now, delay);
    assert SenderStep(s, s2, acked, s.dequeued);
    CollectIsStep(s, s2, acked);
  }

  /** No honest ACK covers a number that was not sent. */
  lemma HonestFrame(s: System, f: AckFrame)
    requires Inv(s) && FrameOk(f, s.recorded)
    ensures f.largest <= s.snd.lastSent && !AcksSkipped(s.snd, f)
  {
    assert WasSent(s.packets, f.largest);
  }

  lemma CutFrameIsOk(s: System, f: AckFrame, cut: nat)
    requires RecordedOk(s) && f in s.acks
    ensures FrameOk(Truncated(f, cut), s.recorded)
  {
    TruncatedAcksLess(f, cut);
  }

  lemma GetAckKeepsInv(s: System, f: AckFrame, carrier: nat, now: int, delay: int)
    requires Inv(s) && FrameOk(f, s.recorded)
    ensures Inv(GetsAck(s, f, carrier, now, delay))
    ensures AckSender.AfterAck(s.snd, f, carrier, now, delay).1 in {Handled, DuplicateAck}
  {
    HonestFrame(s, f);
    if ProcessesAck(s.snd, f, carrier) {
      var s2 := s.snd.(largestWithAck := carrier, largestAcked := f.largest);
      ProcessedAckIs(s.snd, f, carrier, now, delay);
      ProcessedAckKeepsInv(s, s2, f, now, delay, Process(s2, f, now, delay));
    } else {
      var s1 := s.snd.(largestWithAck := carrier);
      assert SenderStep(s, s1, s.acked, s.dequeued);
      SenderStepKeepsInv(s, s1, s.acked, s.dequeued);
      assert s.acked + {} == s.acked;
    }
  }

  lemma ProcessedAckIs(s: Sender, f: AckFrame, carrier: nat, now: int, delay: int)
    requires ProcessesAck(s, f, carrier)
    ensures AckSender.AfterAck(s, f, carrier, now, delay)
         == (Process(s.(largestWithAck := carrier, largestAcked := f.largest), f, now, delay), Handled)
  {
  }

  lemma ProcessedAckKeepsInv(s: System, s2: Sender, f: AckFrame, now: int, delay: int, snd': Sender)
    requires Inv(s) && FrameOk(f, s.recorded) && f.largest <= s.snd.lastSent
    requires s2 == s.snd.(largestWithAck := s2.largestWithAck, largestAcked := s2.largestAcked)
    requires snd' == Process(s2, f, now, delay)
    ensures Inv(s.(snd := snd', acked := s.acked + Elems(Part(s.snd.history, AckedBy(f)))))
  {
    assert SenderStep(s, s2, s.acked, s.dequeued);
    ProcessIsStep(s, s2, f, now, delay);
    SenderStepKeepsInv(s, snd', s.acked + Elems(Part(s.snd.history, AckedBy(f))), s.dequeued);
  }

  lemma GetClosePathKeepsInv(s: System, f: AckFrame, carrier: nat)
    requires Inv(s) && FrameOk(f, s.recorded)
    ensures Inv(GetsClosePath(s, f, carrier))
    ensures AfterClosePath(s.snd, f, carrier).1 in {Handled, DuplicateAck}
  {
    HonestFrame(s, f);
    if ProcessesClosePath(s.snd, f, carrier) {
      var s1 := s.snd.(largestWithAck := carrier);
      var acked := s.acked + Elems(Part(s.snd.history, AckedBy(f)));
      assert SenderStep(s, s1, s.acked, s.dequeued);
      AcknowledgeIsStep(s, s1, f);
      var s2 := Acknowledge(s1, f);
      RequeueIsStep(s, s2, acked, UpTo(s2.largestAcked));
      CollectIsStep(s, InflightLost(s2), acked);
      SenderStepKeepsInv(s, CollectSkipped(InflightLost(s2)), acked, s.dequeued);
    } else {
      assert s.acked + {} == s.acked;
    }
  }

  lemma OldestLostIsStep(s: System, snd: Sender)
    requires SenderStep(s, snd, s.acked, s.dequeued)
    ensures SenderStep(s, OldestLost(snd), s.acked, s.dequeued)
  {
    if snd.history != [] {
      RequeueIsStep(s, snd, s.acked, Number(snd.history[0].number));
    }
  }

  lemma AlarmKeepsInv(s: System, now: int, delay: int, failed: bool)
    requires Inv(s)
    ensures Inv(s.(snd := AfterAlarm(s.snd, now, delay, failed)))
  {
    var snd := s.snd;
    assert SenderStep(s, snd, s.acked, s.dequeued);
    if snd.history == [] {
    } else if snd.lossTime.Some? {
      RequeueIsStep(s, snd, s.acked, Overdue(snd.largestAcked, now, delay));
    } else if snd.tlpCount < MAX_TAIL_LOSS_PROBES {
      RequeueIsStep(s, snd, s.acked, Number(snd.history[|snd.history| - 1].number));
    } else if failed {
      RequeueIsStep(s, snd, s.acked, Everything);
    } else {
      OldestLostIsStep(s, snd);
      OldestLostIsStep(s, OldestLost(snd));
    }
    SenderStepKeepsInv(s, AfterAlarm(snd, now, delay, failed), s.acked, s.dequeued);
  }

  lemma DequeueKeepsInv(s: System)
    requires Inv(s)
    ensures Inv(Dequeues(s))
  {
    var q := s.snd.queue;
    if q != [] {
      assert q == [q[0]] + q[1..];
      assert Elems(q) == {q[0]} + Elems(q[1..]);
      assert q[0] !in Elems(q[1..]);
      SenderStepKeepsInv(s, AfterDequeue(s.snd).0, s.acked, s.dequeued + {q[0]});
    }
  }

  lemma NextKeepsInv(s: System, step: Step, s': System)
    requires Inv(s) && Next(s, step, s')
    ensures Inv(s')
  {
    match step
    case Send(p, retransmittable, stop) => SendKeepsInv(s, p, retransmittable, stop);
    case Deliver(w, instigate, now) => DeliverKeepsInv(s, w, instigate, now, s');
    case MakeAck(now) => MakeAckKeepsInv(s, now, s');
    case MakeClosePath => MakeClosePathKeepsInv(s, s');
    case GetAck(f, cut, carrier, now, delay) =>
      CutFrameIsOk(s, f, cut);
      GetAckKeepsInv(s, Truncated(f, cut), carrier, now, delay);
    case GetClosePath(f, cut, carrier) =>
      CutFrameIsOk(s, f, cut);
      GetClosePathKeepsInv(s, Truncated(f, cut), carrier);
    case Alarm(now, delay, failed) => AlarmKeepsInv(s, now, delay, failed);
    case LoseInflight =>
      RequeueIsStep(s, s.snd, s.acked, UpTo(s.snd.largestAcked));
      SenderStepKeepsInv(s, InflightLost(s.snd), s.acked, s.dequeued);
    case Dequeue => DequeueKeepsInv(s);
  }

  lemma {:induction false} RunInv(before39: bool, run: seq<System>, steps: seq<Step>, i: nat)
    requires IsRun(before39, run, steps) && i < |run|
    ensures Inv(run[i])
  {
    if i > 0 {
      RunInv(before39, run, steps, i - 1);
      NextKeepsInv(run[i - 1], steps[i - 1], run[i]);
    }
  }

  // ---------------------------------------------------------------------------
  // Main results
  // ---------------------------------------------------------------------------

  /** In every run, every packet that the sender dropped as acknowledged was recorded by the
      peer. */
  lemma AckedWereRecorded(before39: bool, run: seq<System>, steps: seq<Step>, i: nat)
    requires IsRun(before39, run, steps) && i < |run|
    ensures forall p | p in run[i].acked :: p.number in run[i].recorded
  {
    RunInv(before39, run, steps, i);
  }

  /** In every run, ACK and CLOSE_PATH frames are handled or recognised as duplicates: there is
      no ACK for an unsent or a skipped packet. */
  lemma NoAckErrors(before39: bool, run: seq<System>, steps: seq<Step>, i: nat)
    requires IsRun(before39, run, steps) && i < |steps|
    ensures
      match steps[i]
      case GetAck(f, cut, carrier, now, delay) =>
        AckSender.AfterAck(run[i].snd, Truncated(f, cut), carrier, now, delay).1 in {Handled, DuplicateAck}
      case GetClosePath(f, cut, carrier) =>
        AfterClosePath(run[i].snd, Truncated(f, cut), carrier).1 in {Handled, DuplicateAck}
      case _ => true
  {
    RunInv(before39, run, steps, i);
    assert Next(run[i], steps[i], run[i + 1]);
    match steps[i] {
      case GetAck(f, cut, carrier, now, delay) =>
        CutFrameIsOk(run[i], f, cut);
        GetAckKeepsInv(run[i], Truncated(f, cut), carrier, now, delay);
      case GetClosePath(f, cut, carrier) =>
        CutFrameIsOk(run[i], f, cut);
        GetClosePathKeepsInv(run[i], Truncated(f, cut), carrier);
      case _ =>
    }
  }

  /** In every run, a STOP_WAITING frame names a number from one up to the number of the packet
      that carries it, so the receiver keeps its largest observed packet, and whenever an ACK is
      due there is a range for it and it acknowledges exactly what is recorded. */
  lemma DueAckIsExact(before39: bool, run: seq<System>, steps: seq<Step>, i: nat, now: int)
    requires IsRun(before39, run, steps) && i < |run|
    ensures forall w | w in run[i].packets && w.stop.Some? :: 1 <= w.stop.value <= w.number
    ensures run[i].rcv.largestObserved > 0 ==> History.Contains(run[i].rcv.ranges, run[i].rcv.largestObserved)
    ensures AckDue(run[i].rcv, now) ==>
              && run[i].rcv.ranges != []
              && FrameFor(run[i].rcv.ranges).largest == run[i].rcv.largestObserved
              && forall p: nat :: Acks(FrameFor(run[i].rcv.ranges), p) <==> History.Contains(run[i].rcv.ranges, p)
  {
    RunInv(before39, run, steps, i);
    if AckDue(run[i].rcv, now) {
      LastEndIsLargest(run[i].rcv);
      FrameForIsExact(run[i].rcv.ranges);
    }
  }

  /** In every run, the bytes in flight are the lengths in the strictly ascending history, and
      every retransmittable packet is in exactly one of the history, the acknowledged, the queued
      and the dequeued packets. */
  lemma PacketsAreAccountedFor(before39: bool, run: seq<System>, steps: seq<Step>, i: nat)
    requires IsRun(before39, run, steps) && i < |run|
    ensures
      var s := run[i];
      && Ascending(s.snd.history)
      && s.snd.bytesInFlight == SumLen(s.snd.history)
      && s.tracked == Elems(s.snd.history) + s.acked + Elems(s.snd.queue) + s.dequeued
      && Elems(s.snd.history) !! s.acked !! Elems(s.snd.queue) !! s.dequeued
      && forall i, j | 0 <= i < j < |s.snd.queue| :: s.snd.queue[i] != s.snd.queue[j]
  {
    RunInv(before39, run, steps, i);
  }
}
