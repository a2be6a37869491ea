/** The sent-packet handler as an object: its loops and list surgery carry out the functions
    of `AckSender`. */
module SentPacketHandlers {
  import opened Numbers
  import opened Options
  import opened AckFrames
  import opened AckSender
  import AckEffects

  lemma {:induction false} SumLenOfPrefix(ps: seq<Packet>, i: nat)
    requires i < |ps|
    ensures SumLen(ps[..i]) + ps[i].length == SumLen(ps[..i + 1]) <= SumLen(ps)
    decreases |ps|
  {
    assert ps[..i + 1][..i] == ps[..i];
    if i + 1 < |ps| {
      SumLenOfPrefix(ps[..|ps| - 1], i);
      assert ps[..|ps| - 1][..i + 1] == ps[..i + 1];
      assert ps[..|ps| - 1][..i] == ps[..i];
    } else {
      assert ps[..i + 1] == ps;
    }
  }

  /** The selected packets weigh no more than the bytes in flight. */
  lemma PartFitsInFlight(s: Sender, t: Test, i: nat)
    requires SenderOk(s) && i < |Part(s.history, t)|
    ensures
      var ps := Part(s.history, t);
      SumLen(ps[..i]) + ps[i].length == SumLen(ps[..i + 1]) <= s.bytesInFlight
  {
    SumLenOfPrefix(Part(s.history, t), i);
    LengthsAddUp(s.history, t);
  }

  /** The state while the packets of `ps` are being acknowledged. */
  function SomeAcked(s: Sender, ps: seq<Packet>): Sender {
    s.(history := Without(s.history, ps),
       bytesInFlight := s.bytesInFlight - SumLen(ps),
       rtoCount := if ps == [] then s.rtoCount else 0,
       tlpCount := if ps == [] then s.tlpCount else 0)
  }

  lemma SumLenOfNext(ps: seq<Packet>, i: nat)
    requires i < |ps|
    ensures ps[..i + 1] == ps[..i] + [ps[i]] && SumLen(ps[..i + 1]) == SumLen(ps[..i]) + ps[i].length
  {
    assert ps[..i + 1] == ps[..i] + [ps[i]];
    SumLenSnoc(ps[..i], ps[i]);
  }

  lemma NextAcked(s: Sender, ps: seq<Packet>, i: nat)
    requires i < |ps|
    ensures
      var m := SomeAcked(s, ps[..i]);
      SomeAcked(s, ps[..i + 1])
      == m.(history := Rest(m.history, Number(ps[i].number)), bytesInFlight := m.bytesInFlight - ps[i].length,
            rtoCount := 0, tlpCount := 0)
  {
    SumLenOfNext(ps, i);
    WithoutSnoc(s.history, ps[..i], ps[i]);
  }

  lemma AllAcked(s: Sender, f: AckFrame)
    requires SenderOk(s)
    ensures SomeAcked(s, Part(s.history, AckedBy(f))) == Acknowledge(s, f)
  {
    WithoutPart(s.history, AckedBy(f));
  }

  /** The state while the packets of `ps` are being queued for retransmission. */
  function SomeQueued(s: Sender, ps: seq<Packet>): Sender {
    s.(history := Without(s.history, ps),
       queue := s.queue + ps,
       bytesInFlight := s.bytesInFlight - SumLen(ps),
       nextLeastUnacked := RaisedBy(s.nextLeastUnacked, ps))
  }

  lemma NextQueued(s: Sender, ps: seq<Packet>, i: nat)
    requires i < |ps|
    ensures
      var m := SomeQueued(s, ps[..i]);
      SomeQueued(s, ps[..i + 1])
      == m.(history := Rest(m.history, Number(ps[i].number)), bytesInFlight := m.bytesInFlight - ps[i].length,
            queue := m.queue + [ps[i]], nextLeastUnacked := Max(m.nextLeastUnacked, ps[i].number + 1))
  {
    SumLenOfNext(ps, i);
    WithoutSnoc(s.history, ps[..i], ps[i]);
    assert ps[..i + 1][..i] == ps[..i];
    assert s.queue + ps[..i + 1] == s.queue + ps[..i] + [ps[i]];
  }

  lemma AllQueued(s: Sender, t: Test)
    requires SenderOk(s)
    ensures SomeQueued(s, Part(s.history, t)) == Requeue(s, t)
  {
    WithoutPart(s.history, t);
  }

  lemma {:induction false} NoLossAfter(h: seq<Packet>, i: nat, largest: nat, now: int, delay: int)
    requires Ascending(h) && i < |h| && h[i].number > largest
    ensures NextLoss(h, largest, now, delay) == NextLoss(h[..i], largest, now, delay)
    decreases |h|
  {
    assert h[..|h| - 1][..i] == h[..i];
    if i < |h| - 1 {
      NoLossAfter(h[..|h| - 1], i, largest, now, delay);
    }
  }

  lemma OneMoreScanned(h: seq<Packet>, i: nat, largest: nat, now: int, delay: int)
    requires i < |h| && h[i].number <= largest
    ensures
      var t, overdue := Overdue(largest, now, delay), now - h[i].sendTime > delay;
      var next := NextLoss(h[..i], largest, now, delay);
      && Part(h[..i + 1], t) == (if overdue then Part(h[..i], t) + [h[i]] else Part(h[..i], t))
      && NextLoss(h[..i + 1], largest, now, delay)
         == (if overdue || next.Some? then next else Some(now + (delay - (now - h[i].sendTime))))
  {
    assert h[..i + 1][..i] == h[..i];
  }

  /** The scan of loss detection: the packets that are lost, and when the next one will be. */
  method FindOverdue(history: seq<Packet>, largest: nat, now: int, delay: int)
    returns (lost: seq<Packet>, next: Option<int>)
    requires Ascending(history)
    ensures lost == Part(history, Overdue(largest, now, delay))
    ensures next == NextLoss(history, largest, now, delay)
  {
    lost, next := [], None;
    var i := 0;
    while i < |history|
      invariant 0 <= i <= |history|
      invariant lost == Part(history[..i], Overdue(largest, now, delay))
      invariant next == NextLoss(history[..i], largest, now, delay)
    {
      var p := history[i];
      if p.number > largest {
        NoneAfter(history, i, Overdue(largest, now, delay), largest);
        NoLossAfter(history, i, largest, now, delay);
        return;
      }
      OneMoreScanned(history, i, largest, now, delay);
      if now - p.sendTime > delay {
        lost := lost + [p];
      } else if next.None? {
        next := Some(now + (delay - (now - p.sendTime)));
      }
      i := i + 1;
    }
    assert history[..i] == history;
  }

  method FindUpTo(history: seq<Packet>, largest: nat) returns (lost: seq<Packet>)
    requires Ascending(history)
    ensures lost == Part(history, UpTo(largest))
  {
    lost := [];
    var i := 0;
    while i < |history|
      invariant 0 <= i <= |history|
      invariant lost == Part(history[..i], UpTo(largest))
    {
      var p := history[i];
      if p.number > largest {
        NoneAfter(history, i, UpTo(largest), largest);
        return;
      }
      assert history[..i + 1] == history[..i] + [p];
      PartSnoc(history[..i], p, UpTo(largest));
      lost := lost + [p];
      i := i + 1;
    }
    assert history[..i] == history;
  }

  lemma {:induction false} NoneHasNumber(h: seq<Packet>, n: nat)
    requires forall p | p in h :: p.number != n
    ensures Part(h, Number(n)) == []
  {
    if h != [] {
      NoneHasNumber(h[..|h| - 1], n);
    }
  }

  /** A packet is the only one with its number. */
  lemma {:induction false} SingledOut(h: seq<Packet>, i: nat)
    requires Ascending(h) && i < |h|
    ensures Part(h, Number(h[i].number)) == [h[i]]
    decreases |h|
  {
    var init, last := h[..|h| - 1], h[|h| - 1];
    assert h == init + [last];
    AscendingSnoc(init, last);
    PartSnoc(init, last, Number(h[i].number));
    if i == |h| - 1 {
      NoneHasNumber(init, last.number);
    } else {
      SingledOut(init, i);
    }
  }

  lemma {:induction false} PartOfEverything(h: seq<Packet>)
    ensures Part(h, Everything) == h
  {
    if h != [] {
      PartOfEverything(h[..|h| - 1]);
    }
  }

  class SentPacketHandler {
    var lastSentPacketNumber: nat
    var skippedPackets: seq<nat>
    var largestAcked: nat
    var largestReceivedPacketWithAck: nat
    var packetHistory: seq<Packet>
    var retransmissionQueue: seq<Packet>
    var bytesInFlight: nat
    var rtoCount: nat
    var tlpCount: nat
    var lossTime: Option<int>
    var nextLeastUnacked: nat
    var largestLeastUnackedSent: nat
    var lastStopWaitingFrame: Option<nat>

    function View(): Sender
      reads this
    {
      Sender(lastSentPacketNumber, skippedPackets, largestAcked, largestReceivedPacketWithAck, packetHistory,
             retransmissionQueue, bytesInFlight, rtoCount, tlpCount, lossTime, nextLeastUnacked,
             largestLeastUnackedSent, lastStopWaitingFrame)
    }

    constructor ()
      ensures View() == INITIAL && SenderOk(View())
    {
      lastSentPacketNumber, skippedPackets, largestAcked, largestReceivedPacketWithAck := 0, [], 0, 0;
      packetHistory, retransmissionQueue, bytesInFlight := [], [], 0;
      rtoCount, tlpCount, lossTime := 0, 0, None;
      nextLeastUnacked, largestLeastUnackedSent, lastStopWaitingFrame := 0, 0, None;
    }

    method SentPacket(packet: Packet, retransmittable: bool) returns (r: SendResult)
      requires SenderOk(View())
      modifies this
      ensures (View(), r) == AfterSend(old(View()), packet, retransmittable)
      ensures SenderOk(View())
    {
      SendKeepsOk(View(), packet, retransmittable);
      if packet.number <= lastSentPacketNumber {
        return NumberNotIncreasing;
      }
      if |retransmissionQueue| + |packetHistory| + 1 > MAX_TRACKED_SENT_PACKETS {
        return TooManyTracked;
      }
      var p := lastSentPacketNumber + 1;
      while p < packet.number
        invariant p <= packet.number
        invariant View() == old(View()).(skipped := skippedPackets)
        invariant SkippedAfter(skippedPackets, p, packet.number)
                  == SkippedAfter(old(skippedPackets), old(lastSentPacketNumber) + 1, packet.number)
      {
        skippedPackets := skippedPackets + [p];
        if |skippedPackets| > MAX_TRACKED_SKIPPED_PACKETS {
          skippedPackets := skippedPackets[1..];
        }
        p := p + 1;
      }
      lastSentPacketNumber := packet.number;
      if retransmittable {
        bytesInFlight := bytesInFlight + packet.length;
        packetHistory := packetHistory + [packet];
      }
      return Sent;
    }

    /** Takes an acknowledged packet out of the history. */
    method OnPacketAcked(p: Packet)
      requires p.length <= bytesInFlight
      modifies this
      ensures View() == old(View()).(history := Rest(old(packetHistory), Number(p.number)),
                                     bytesInFlight := old(bytesInFlight) - p.length,
                                     rtoCount := 0, tlpCount := 0)
    {
      bytesInFlight := bytesInFlight - p.length;
      rtoCount, tlpCount := 0, 0;
      packetHistory := Rest(packetHistory, Number(p.number));
    }

    method QueuePacketForRetransmission(p: Packet)
      requires p.length <= bytesInFlight
      modifies this
      ensures View() == old(View()).(history := Rest(old(packetHistory), Number(p.number)),
                                     bytesInFlight := old(bytesInFlight) - p.length,
                                     queue := old(retransmissionQueue) + [p],
                                     nextLeastUnacked := Max(old(nextLeastUnacked), p.number + 1))
    {
      bytesInFlight := bytesInFlight - p.length;
      retransmissionQueue := retransmissionQueue + [p];
      packetHistory := Rest(packetHistory, Number(p.number));
      if p.number >= nextLeastUnacked {
        nextLeastUnacked := p.number + 1;
      }
    }

    /** Takes all newly acknowledged packets out of the history, one by one. The bytes in
        flight never run below zero. */
    method AcknowledgePackets(acked: seq<Packet>, f: AckFrame)
      requires SenderOk(View()) && acked == Part(packetHistory, AckedBy(f))
      modifies this
      ensures View() == Acknowledge(old(View()), f)
    {
      var i := 0;
      while i < |acked|
        invariant 0 <= i <= |acked|
        invariant View() == SomeAcked(old(View()), acked[..i])
      {
        PartFitsInFlight(old(View()), AckedBy(f), i);
        NextAcked(old(View()), acked, i);
        OnPacketAcked(acked[i]);
        i := i + 1;
      }
      assert acked[..i] == acked;
      AllAcked(old(View()), f);
    }

    /** Queues all selected packets for retransmission, one by one. */
    method QueuePackets(lost: seq<Packet>, ghost t: Test)
      requires SenderOk(View()) && lost == Part(packetHistory, t)
      modifies this
      ensures View() == Requeue(old(View()), t)
    {
      ghost var s := View();
      var i := 0;
      while i < |lost|
        invariant 0 <= i <= |lost|
        invariant View() == SomeQueued(s, lost[..i])
      {
        PartFitsInFlight(s, t, i);
        NextQueued(s, lost, i);
        QueuePacketForRetransmission(lost[i]);
        i := i + 1;
      }
      assert lost[..i] == lost;
      AllQueued(s, t);
    }

    /** Packets overtaken by the largest acknowledged one are lost once they are overdue. */
    method DetectLostPackets(now: int, delay: int)
      requires SenderOk(View())
      modifies this
      ensures View() == DetectLost(old(View()), now, delay)
    {
      var lost, next := FindOverdue(packetHistory, largestAcked, now, delay);
      lossTime := next;
      QueuePackets(lost, Overdue(largestAcked, now, delay));
    }

    /** Everything up to the largest acknowledged number counts as lost. */
    method SetInflightAsLost()
      requires SenderOk(View())
      modifies this
      ensures View() == InflightLost(old(View()))
    {
      var lost := FindUpTo(packetHistory, largestAcked);
      QueuePackets(lost, UpTo(largestAcked));
    }

    method SkippedPacketsAcked(f: AckFrame) returns (r: bool)
      ensures r <==> AcksSkipped(View(), f)
    {
      var i := 0;
      while i < |skippedPackets|
        invariant 0 <= i <= |skippedPackets|
        invariant forall j | 0 <= j < i :: !Acks(f, skippedPackets[j])
      {
        if Acks(f, skippedPackets[i]) {
          assert skippedPackets[i] in View().skipped;
          return true;
        }
        i := i + 1;
      }
      return false;
    }

    method GarbageCollectSkippedPackets()
      modifies this`skippedPackets
      ensures View() == CollectSkipped(old(View()))
    {
      var limit := LargestInOrderAcked(View());
      var deleteIndex, i := 0, 0;
      while i < |skippedPackets|
        invariant 0 <= i <= |skippedPackets|
        invariant deleteIndex == DeleteIndex(skippedPackets[..i], limit)
      {
        assert skippedPackets[..i + 1][..i] == skippedPackets[..i];
        if skippedPackets[i] <= limit {
          deleteIndex := i + 1;
        }
        i := i + 1;
      }
      assert skippedPackets[..i] == skippedPackets;
      skippedPackets := skippedPackets[deleteIndex..];
    }

    method ReceivedAck(f: AckFrame, carrier: nat, now: int, delay: int) returns (r: AckResult)
      requires SenderOk(View()) && WellFormed(f)
      modifies this
      ensures (View(), r) == AfterAck(old(View()), f, carrier, now, delay)
      ensures SenderOk(View())
      ensures AckEffects.AckEffect(old(View()), f, carrier, now, delay, View(), r)
    {
      AckEffects.AckHasEffect(View(), f, carrier, now, delay);
      AckKeepsOk(View(), f, carrier, now, delay);
      if f.largest > lastSentPacketNumber {
        return UnsentPacket;
      }
      if carrier <= largestReceivedPacketWithAck {
        return DuplicateAck;
      }
      largestReceivedPacketWithAck := carrier;
      if f.largest <= LargestInOrderAcked(View()) {
        return Handled;
      }
      largestAcked := f.largest;
      var skipped := SkippedPacketsAcked(f);
      if skipped {
        return SkippedPacket;
      }
      var bug := ProcessAck(f, now, delay);
      return if bug then WrongPacket else Handled;
    }

    /** The work of an ACK that is not rejected. A wrongly acknowledged packet would be
        reported as a bug, but there is none. */
    method ProcessAck(f: AckFrame, now: int, delay: int) returns (bug: bool)
      requires SenderOk(View()) && WellFormed(f)
      modifies this
      ensures !bug && View() == Process(old(View()), f, now, delay)
    {
      var acked;
      acked, bug := DetermineNewlyAcked(packetHistory, f);
      if bug {
        return;
      }
      AcknowledgeKeepsOk(View(), f);
      AcknowledgePackets(acked, f);
      FinishAck(f, now, delay);
    }

    method FinishAck(f: AckFrame, now: int, delay: int)
      requires SenderOk(View())
      modifies this
      ensures View() == WithStopWaiting(CollectSkipped(DetectLost(old(View()), now, delay)), f)
    {
      DetectLostPackets(now, delay);
      GarbageCollectSkippedPackets();
      if f.largest >= nextLeastUnacked {
        nextLeastUnacked := f.largest + 1;
      }
    }

    method ReceivedClosePath(f: AckFrame, carrier: nat) returns (r: AckResult)
      requires SenderOk(View()) && WellFormed(f)
      modifies this
      ensures (View(), r) == AfterClosePath(old(View()), f, carrier)
      ensures SenderOk(View())
      ensures AckEffects.ClosePathEffect(old(View()), f, carrier, View(), r)
    {
      AckEffects.ClosePathHasEffect(View(), f, carrier);
      ClosePathKeepsOk(View(), f, carrier);
      if f.largest > lastSentPacketNumber {
        return UnsentPacket;
      }
      if carrier <= largestReceivedPacketWithAck {
        return DuplicateAck;
      }
      largestReceivedPacketWithAck := carrier;
      var skipped := SkippedPacketsAcked(f);
      if skipped {
        return SkippedPacket;
      }
      var acked, bug := DetermineNewlyAcked(packetHistory, f);
      if bug {
        return WrongPacket;
      }
      AcknowledgeKeepsOk(View(), f);
      AcknowledgePackets(acked, f);
      SetInflightAsLost();
      GarbageCollectSkippedPackets();
      return Handled;
    }

    method RetransmitOldestPacket()
      requires SenderOk(View())
      modifies this
      ensures View() == OldestLost(old(View())) && SenderOk(View())
    {
      OldestLostKeepsOk(View());
      if |packetHistory| > 0 {
        SingledOut(packetHistory, 0);
        QueuePackets([packetHistory[0]], Number(packetHistory[0].number));
      }
    }

    method RetransmitOldestTwoPackets()
      requires SenderOk(View())
      modifies this
      ensures View() == OldestLost(OldestLost(old(View())))
    {
      RetransmitOldestPacket();
      RetransmitOldestPacket();
    }

    method RetransmitTLP()
      requires SenderOk(View()) && packetHistory != []
      modifies this
      ensures View() == Requeue(old(View()), Number(old(packetHistory)[|old(packetHistory)| - 1].number))
    {
      var last := |packetHistory| - 1;
      SingledOut(packetHistory, last);
      QueuePackets([packetHistory[last]], Number(packetHistory[last].number));
    }

    method RetransmitAllPackets()
      requires SenderOk(View())
      modifies this
      ensures View() == Requeue(old(View()), Everything)
    {
      PartOfEverything(packetHistory);
      QueuePackets(packetHistory, Everything);
    }

    /** `failed` is the answer of the timeout callback. */
    method OnAlarm(now: int, delay: int, failed: bool)
      requires SenderOk(View())
      modifies this
      ensures View() == AfterAlarm(old(View()), now, delay, failed)
      ensures AckEffects.AlarmEffect(old(View()), now, delay, failed, View())
    {
      AckEffects.AlarmHasEffect(View(), now, delay, failed);
      if |packetHistory| == 0 {
        return;
      }
      if lossTime.Some? {
        DetectLostPackets(now, delay);
      } else if tlpCount < MAX_TAIL_LOSS_PROBES {
        RetransmitTLP();
        tlpCount := tlpCount + 1;
      } else if failed {
        RetransmitAllPackets();
        rtoCount := rtoCount + 1;
      } else {
        RetransmitOldestTwoPackets();
        rtoCount := rtoCount + 1;
      }
    }

    method DequeuePacketForRetransmission() returns (p: Option<Packet>)
      modifies this`retransmissionQueue
      ensures (View(), p) == AfterDequeue(old(View()))
    {
      if |retransmissionQueue| == 0 {
        return None;
      }
      p := Some(retransmissionQueue[0]);
      retransmissionQueue := retransmissionQueue[1..];
    }

    method GetStopWaitingFrame(force: bool) returns (leastUnacked: Option<nat>)
      modifies this`largestLeastUnackedSent, this`lastStopWaitingFrame
      ensures (View(), leastUnacked) == AfterStopWaiting(old(View()), force)
    {
      if nextLeastUnacked <= largestLeastUnackedSent {
        if force {
          if lastStopWaitingFrame.None? && largestLeastUnackedSent > 0 {
            lastStopWaitingFrame := Some(nextLeastUnacked);
          }
          return lastStopWaitingFrame;
        }
        return None;
      }
      largestLeastUnackedSent := nextLeastUnacked;
      lastStopWaitingFrame := Some(nextLeastUnacked);
      return lastStopWaitingFrame;
    }
  }
}
