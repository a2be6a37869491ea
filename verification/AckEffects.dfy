/** What ACKs, CLOSE_PATHs and alarms are for: which packets they take out of flight, which of
    these are sent again, and what becomes of everything else, said packet by packet. */
module AckEffects {
  import opened Numbers
  import opened Options
  import opened AckFrames
  import opened AckSender

  /** A packet that was overtaken by `largest` and was sent too long ago. */
  predicate IsLate(p: Packet, largest: nat, now: int, delay: int) {
    p.number <= largest && now - p.sendTime > delay
  }

  /** The frame acknowledges a number from the oldest packet in flight on, or a new one if
      there is none. */
  predicate IsNews(s: Sender, f: AckFrame) {
    if s.history == [] then f.largest > s.largestAcked else f.largest >= s.history[0].number
  }

  // ---------------------------------------------------------------------------
  // Skipped numbers
  // ---------------------------------------------------------------------------

  /** The numbers `from` up to `to`. */
  function NumbersFrom(from: nat, to: nat): seq<nat>
    decreases to - from
  {
    if from >= to then [] else [from] + NumbersFrom(from + 1, to)
  }

  function Latest(ns: seq<nat>): seq<nat> {
    if |ns| <= MAX_TRACKED_SKIPPED_PACKETS then ns else ns[|ns| - MAX_TRACKED_SKIPPED_PACKETS..]
  }

  /** Sending remembers the numbers that it skips, as far as they are among the latest. */
  lemma {:induction false} SkippedAreLatest(skipped: seq<nat>, from: nat, to: nat)
    requires |skipped| <= MAX_TRACKED_SKIPPED_PACKETS
    ensures SkippedAfter(skipped, from, to) == Latest(skipped + NumbersFrom(from, to))
    decreases if from < to then to - from else 0
  {
    if from >= to {
      assert skipped + [] == skipped;
    } else {
      SkippedStep(skipped, from, to);
      SkippedAreLatest(Latest(skipped + [from]), from + 1, to);
      LatestStep(skipped, from, NumbersFrom(from + 1, to));
    }
  }

  lemma SkippedStep(skipped: seq<nat>, from: nat, to: nat)
    requires |skipped| <= MAX_TRACKED_SKIPPED_PACKETS && from < to
    ensures SkippedAfter(skipped, from, to) == SkippedAfter(Latest(skipped + [from]), from + 1, to)
  {
  }

  lemma LatestStep(a: seq<nat>, x: nat, b: seq<nat>)
    ensures Latest(Latest(a + [x]) + b) == Latest(a + ([x] + b))
  {
    assert a + ([x] + b) == a + [x] + b;
    LatestOfLatest(a + [x], b);
  }

  lemma LatestOfLatest(a: seq<nat>, b: seq<nat>)
    ensures Latest(Latest(a) + b) == Latest(a + b)
  {
  }

  /** A packet is sent if its number is new and there is room to remember it. */
  lemma SendIs(s: Sender, p: Packet, retransmittable: bool)
    requires |s.skipped| <= MAX_TRACKED_SKIPPED_PACKETS
    ensures
      var (s', r) := AfterSend(s, p, retransmittable);
      if p.number <= s.lastSent then r == NumberNotIncreasing && s' == s
      else if |s.queue| + |s.history| >= 5000 then r == TooManyTracked && s' == s
      else
        && r == Sent
        && s' == s.(lastSent := p.number, skipped := Latest(s.skipped + NumbersFrom(s.lastSent + 1, p.number)),
                    history := if retransmittable then s.history + [p] else s.history,
                    bytesInFlight := s.bytesInFlight + if retransmittable then p.length else 0)
  {
    SkippedAreLatest(s.skipped, s.lastSent + 1, p.number);
  }

  // ---------------------------------------------------------------------------
  // STOP_WAITING
  // ---------------------------------------------------------------------------

  /** The least number that is still waited for is announced once after it has grown, and
      again only on demand. */
  lemma StopWaitingIs(s: Sender, force: bool)
    ensures
      var (s', frame) := AfterStopWaiting(s, force);
      && (s.nextLeastUnacked > s.largestLeastUnackedSent ==> frame == Some(s.nextLeastUnacked))
      && (s.nextLeastUnacked <= s.largestLeastUnackedSent && !force ==> frame == None && s' == s)
      && (frame.Some? ==> s'.lastStopWaiting == frame)
      && s'.nextLeastUnacked <= s'.largestLeastUnackedSent
      && AfterStopWaiting(s', false) == (s', None)
      && (frame.Some? ==> AfterStopWaiting(s', true) == (s', frame))
      && s' == s.(largestLeastUnackedSent := s'.largestLeastUnackedSent, lastStopWaiting := s'.lastStopWaiting)
  {
  }

  // ---------------------------------------------------------------------------
  // Packets that move
  // ---------------------------------------------------------------------------

  /** The packets of `lost` are appended to the queue in the order of their numbers. */
  ghost predicate Queues(queue: seq<Packet>, queue': seq<Packet>, lost: iset<Packet>) {
    && queue <= queue'
    && Ascending(queue'[|queue|..])
    && forall p :: p in queue'[|queue|..] <==> p in lost
  }

  ghost predicate Holds(history: seq<Packet>, kept: iset<Packet>) {
    Ascending(history) && forall p :: p in history <==> p in kept
  }

  ghost function Chosen(h: seq<Packet>, t: Test, holds: bool): iset<Packet> {
    iset p | p in h && (AckSender.Holds(t, p) <==> holds)
  }

  lemma RequeueMoves(s: Sender, t: Test)
    requires Ascending(s.history)
    ensures
      var s' := Requeue(s, t);
      && Holds(s'.history, Chosen(s.history, t, false))
      && Queues(s.queue, s'.queue, Chosen(s.history, t, true))
  {
    PartIsExact(s.history, t);
    PartsAreAscending(s.history, t);
    var ps := Part(s.history, t);
    assert (s.queue + ps)[|s.queue|..] == ps;
  }

  // ---------------------------------------------------------------------------
  // ACKs
  // ---------------------------------------------------------------------------

  /** The packets that are neither acknowledged nor late. */
  ghost function Left(h: seq<Packet>, f: AckFrame, largest: nat, now: int, delay: int): iset<Packet> {
    iset p | p in h && !Acks(f, p.number) && !IsLate(p, largest, now, delay)
  }

  /** The packets that are late and not acknowledged. */
  ghost function Lost(h: seq<Packet>, f: AckFrame, largest: nat, now: int, delay: int): iset<Packet> {
    iset p | p in h && !Acks(f, p.number) && IsLate(p, largest, now, delay)
  }

  /** The oldest packet in flight that was overtaken is the next to be lost. */
  function LossTime(h: seq<Packet>, largest: nat, delay: int): Option<int> {
    if h != [] && h[0].number <= largest then Some(h[0].sendTime + delay) else None
  }

  /** Some packet in flight is acknowledged. */
  ghost predicate AcksSome(h: seq<Packet>, f: AckFrame) {
    exists p | p in h :: Acks(f, p.number)
  }

  /** A number that is older than everything in flight. */
  predicate IsOlder(h: seq<Packet>, largestAcked: nat, n: nat) {
    if h == [] then n <= largestAcked else n < h[0].number
  }

  /** Skipped numbers are forgotten up to the last that is older than everything in flight. */
  ghost predicate Forgets(skipped: seq<nat>, skipped': seq<nat>, h: seq<Packet>, largestAcked: nat) {
    exists k | 0 <= k <= |skipped| ::
      && skipped' == skipped[k..]
      && (forall n | n in skipped[k..] :: !IsOlder(h, largestAcked, n))
      && (k > 0 ==> IsOlder(h, largestAcked, skipped[k - 1]))
  }

  /** What an ACK does that brings news and acknowledges nothing that was skipped. */
  ghost predicate Accepts(s: Sender, f: AckFrame, carrier: nat, now: int, delay: int, s': Sender) {
    && Holds(s'.history, Left(s.history, f, f.largest, now, delay))
    && Queues(s.queue, s'.queue, Lost(s.history, f, f.largest, now, delay))
    && s'.bytesInFlight == SumLen(s'.history)
    && s'.lossTime == LossTime(s'.history, f.largest, delay)
    && s'.rtoCount == (if AcksSome(s.history, f) then 0 else s.rtoCount)
    && s'.tlpCount == (if AcksSome(s.history, f) then 0 else s.tlpCount)
    && Forgets(s.skipped, s'.skipped, s'.history, f.largest)
    && s'.largestWithAck == carrier && s'.largestAcked == f.largest
    && s'.nextLeastUnacked == Max(s.nextLeastUnacked, f.largest + 1)
    && s'.lastSent == s.lastSent
    && s'.largestLeastUnackedSent == s.largestLeastUnackedSent && s'.lastStopWaiting == s.lastStopWaiting
  }

  ghost predicate AckEffect(s: Sender, f: AckFrame, carrier: nat, now: int, delay: int, s': Sender, r: AckResult) {
    if f.largest > s.lastSent then r == UnsentPacket && s' == s
    else if carrier <= s.largestWithAck then r == DuplicateAck && s' == s
    else if !IsNews(s, f) then r == Handled && s' == s.(largestWithAck := carrier)
    else if exists n | n in s.skipped :: Acks(f, n) then
      r == SkippedPacket && s' == s.(largestWithAck := carrier, largestAcked := f.largest)
    else r == Handled && Accepts(s, f, carrier, now, delay, s')
  }

  /** A later packet does not change which one is lost next. */
  lemma NextLossStep(h: seq<Packet>, x: Packet, largest: nat, now: int, delay: int, rest: seq<Packet>)
    requires forall p | p in rest :: p.number < x.number
    requires NextLoss(h, largest, now, delay) == LossTime(rest, largest, delay)
    ensures NextLoss(h + [x], largest, now, delay)
         == LossTime(if AckSender.Holds(Overdue(largest, now, delay), x) then rest else rest + [x], largest, delay)
  {
    assert (h + [x])[..|h|] == h;
    if rest != [] {
      assert rest[0] in rest;
    }
  }

  lemma {:induction false} FirstIsNextLoss(h: seq<Packet>, largest: nat, now: int, delay: int)
    requires Ascending(h)
    ensures NextLoss(h, largest, now, delay) == LossTime(Rest(h, Overdue(largest, now, delay)), largest, delay)
  {
    if h != [] {
      var init, x, t := h[..|h| - 1], h[|h| - 1], Overdue(largest, now, delay);
      assert h == init + [x];
      AscendingSnoc(init, x);
      FirstIsNextLoss(init, largest, now, delay);
      PartIsExact(init, t);
      PartSnoc(init, x, t);
      NextLossStep(init, x, largest, now, delay, Rest(init, t));
    }
  }

  lemma {:induction false} RaisedIsBounded(next: nat, ps: seq<Packet>, largest: nat)
    requires forall p | p in ps :: p.number <= largest
    ensures next <= RaisedBy(next, ps) <= Max(next, largest + 1)
  {
    if ps != [] {
      assert ps[|ps| - 1] in ps;
      RaisedIsBounded(next, ps[..|ps| - 1], largest);
    }
  }

  lemma {:induction false} DeletesOlder(skipped: seq<nat>, limit: int)
    ensures
      var k := DeleteIndex(skipped, limit);
      && (forall n | n in skipped[k..] :: n > limit)
      && (k > 0 ==> skipped[k - 1] <= limit)
  {
    if skipped != [] && skipped[|skipped| - 1] > limit {
      var n := |skipped| - 1;
      DeletesOlder(skipped[..n], limit);
      var k := DeleteIndex(skipped, limit);
      assert skipped[k..] == skipped[..n][k..] + [skipped[n]];
    }
  }

  lemma CollectForgets(s: Sender)
    ensures Forgets(s.skipped, CollectSkipped(s).skipped, s.history, s.largestAcked)
  {
    var k := DeleteIndex(s.skipped, LargestInOrderAcked(s));
    DeletesOlder(s.skipped, LargestInOrderAcked(s));
    assert CollectSkipped(s).skipped == s.skipped[k..];
  }

  lemma LateMoves(s: Sender, f: AckFrame, now: int, delay: int)
    requires SenderOk(s)
    ensures
      var s' := Requeue(Acknowledge(s, f), Overdue(s.largestAcked, now, delay));
      && Holds(s'.history, Left(s.history, f, s.largestAcked, now, delay))
      && Queues(s.queue, s'.queue, Lost(s.history, f, s.largestAcked, now, delay))
      && s'.bytesInFlight == SumLen(s'.history)
  {
    var s1, t := Acknowledge(s, f), Overdue(s.largestAcked, now, delay);
    AcknowledgeKeepsOk(s, f);
    RequeueKeepsOk(s1, t);
    RequeueMoves(s1, t);
    ChosenAreLate(s.history, f, s.largestAcked, now, delay);
  }

  lemma ChosenAreLate(h: seq<Packet>, f: AckFrame, largest: nat, now: int, delay: int)
    ensures
      var h1, t := Rest(h, AckedBy(f)), Overdue(largest, now, delay);
      && Chosen(h1, t, false) == Left(h, f, largest, now, delay)
      && Chosen(h1, t, true) == Lost(h, f, largest, now, delay)
  {
    PartIsExact(h, AckedBy(f));
  }

  lemma OverdueRaises(next: nat, h: seq<Packet>, largest: nat, now: int, delay: int)
    ensures next <= RaisedBy(next, Part(h, Overdue(largest, now, delay))) <= Max(next, largest + 1)
  {
    PartIsExact(h, Overdue(largest, now, delay));
    RaisedIsBounded(next, Part(h, Overdue(largest, now, delay)), largest);
  }

  lemma AcknowledgeResets(s: Sender, f: AckFrame)
    ensures
      var s' := Acknowledge(s, f);
      && s'.rtoCount == (if AcksSome(s.history, f) then 0 else s.rtoCount)
      && s'.tlpCount == (if AcksSome(s.history, f) then 0 else s.tlpCount)
  {
    PartIsExact(s.history, AckedBy(f));
    var ps := Part(s.history, AckedBy(f));
    if ps != [] {
      assert ps[0] in ps;
    }
  }

  /** The state once packets are acknowledged and lost, and before the rest is tidied up. */
  ghost predicate Settles(s: Sender, f: AckFrame, now: int, delay: int, s2: Sender) {
    && Holds(s2.history, Left(s.history, f, f.largest, now, delay))
    && Queues(s.queue, s2.queue, Lost(s.history, f, f.largest, now, delay))
    && s2.bytesInFlight == SumLen(s2.history)
    && s2.lossTime == LossTime(s2.history, f.largest, delay)
    && s2.rtoCount == (if AcksSome(s.history, f) then 0 else s.rtoCount)
    && s2.tlpCount == (if AcksSome(s.history, f) then 0 else s.tlpCount)
    && s.nextLeastUnacked <= s2.nextLeastUnacked <= Max(s.nextLeastUnacked, f.largest + 1)
    && s2 == s.(history := s2.history, queue := s2.queue, bytesInFlight := s2.bytesInFlight, lossTime := s2.lossTime,
                rtoCount := s2.rtoCount, tlpCount := s2.tlpCount, nextLeastUnacked := s2.nextLeastUnacked)
  }

  lemma NextIsOldest(s: Sender, f: AckFrame, now: int, delay: int)
    requires SenderOk(s)
    ensures
      var h := Acknowledge(s, f).history;
      NextLoss(h, s.largestAcked, now, delay)
      == LossTime(Rest(h, Overdue(s.largestAcked, now, delay)), s.largestAcked, delay)
  {
    AcknowledgeKeepsOk(s, f);
    FirstIsNextLoss(Acknowledge(s, f).history, s.largestAcked, now, delay);
  }

  /** Apart from packets and counters nothing is changed. */
  lemma LossKeepsRest(s: Sender, f: AckFrame, now: int, delay: int)
    ensures
      var s2 := DetectLost(Acknowledge(s, f), now, delay);
      && s2 == s.(history := s2.history, queue := s2.queue, bytesInFlight := s2.bytesInFlight, lossTime := s2.lossTime,
                  rtoCount := s2.rtoCount, tlpCount := s2.tlpCount, nextLeastUnacked := s2.nextLeastUnacked)
      && s2.rtoCount == (if AcksSome(s.history, f) then 0 else s.rtoCount)
      && s2.tlpCount == (if AcksSome(s.history, f) then 0 else s.tlpCount)
      && s.nextLeastUnacked <= s2.nextLeastUnacked <= Max(s.nextLeastUnacked, s.largestAcked + 1)
  {
    OverdueRaises(s.nextLeastUnacked, Acknowledge(s, f).history, s.largestAcked, now, delay);
    AcknowledgeResets(s, f);
  }

  lemma LossMoves(s: Sender, f: AckFrame, now: int, delay: int)
    requires SenderOk(s)
    ensures
      var s2 := DetectLost(Acknowledge(s, f), now, delay);
      && Holds(s2.history, Left(s.history, f, s.largestAcked, now, delay))
      && Queues(s.queue, s2.queue, Lost(s.history, f, s.largestAcked, now, delay))
      && s2.bytesInFlight == SumLen(s2.history)
      && s2.lossTime == LossTime(s2.history, s.largestAcked, delay)
  {
    LateMoves(s, f, now, delay);
    NextIsOldest(s, f, now, delay);
  }

  lemma LossSettles(s: Sender, f: AckFrame, now: int, delay: int, s2: Sender)
    requires SenderOk(s) && s.largestAcked == f.largest && s2 == DetectLost(Acknowledge(s, f), now, delay)
    ensures Settles(s, f, now, delay, s2)
  {
    LossMoves(s, f, now, delay);
    LossKeepsRest(s, f, now, delay);
  }

  lemma TidyingAccepts(s: Sender, f: AckFrame, now: int, delay: int, s2: Sender)
    requires Settles(s, f, now, delay, s2) && s.largestAcked == f.largest
    ensures Accepts(s, f, s.largestWithAck, now, delay, WithStopWaiting(CollectSkipped(s2), f))
  {
    CollectForgets(s2);
  }

  lemma ProcessAccepts(s: Sender, f: AckFrame, now: int, delay: int)
    requires SenderOk(s) && s.largestAcked == f.largest
    ensures Accepts(s, f, s.largestWithAck, now, delay, Process(s, f, now, delay))
  {
    var s2 := DetectLost(Acknowledge(s, f), now, delay);
    LossSettles(s, f, now, delay, s2);
    TidyingAccepts(s, f, now, delay, s2);
  }

  lemma AcceptsLater(s: Sender, s1: Sender, f: AckFrame, carrier: nat, now: int, delay: int, s': Sender)
    requires s1 == s.(largestWithAck := carrier, largestAcked := f.largest)
    requires Accepts(s1, f, carrier, now, delay, s')
    ensures Accepts(s, f, carrier, now, delay, s')
  {
  }

  function Noted(s: Sender, f: AckFrame, carrier: nat): Sender {
    s.(largestWithAck := carrier, largestAcked := f.largest)
  }

  lemma NewsAreAccepted(s: Sender, f: AckFrame, carrier: nat, now: int, delay: int, s': Sender)
    requires SenderOk(s) && s' == Process(Noted(s, f, carrier), f, now, delay)
    ensures Accepts(s, f, carrier, now, delay, s')
  {
    ProcessAccepts(Noted(s, f, carrier), f, now, delay);
    AcceptsLater(s, Noted(s, f, carrier), f, carrier, now, delay, s');
  }

  /** Which of the five answers is given. */
  lemma AnswerIs(s: Sender, f: AckFrame, carrier: nat, now: int, delay: int)
    ensures
      AfterAck(s, f, carrier, now, delay) ==
        if f.largest > s.lastSent then (s, UnsentPacket)
        else if carrier <= s.largestWithAck then (s, DuplicateAck)
        else if !IsNews(s, f) then (s.(largestWithAck := carrier), Handled)
        else if AcksSkipped(s, f) then (Noted(s, f, carrier), SkippedPacket)
        else (Process(Noted(s, f, carrier), f, now, delay), Handled)
  {
  }

  lemma EffectIs(s: Sender, f: AckFrame, carrier: nat, now: int, delay: int, s1: Sender, s': Sender, r: AckResult)
    requires Accepts(s, f, carrier, now, delay, s1)
    requires (s', r) ==
      if f.largest > s.lastSent then (s, UnsentPacket)
      else if carrier <= s.largestWithAck then (s, DuplicateAck)
      else if !IsNews(s, f) then (s.(largestWithAck := carrier), Handled)
      else if AcksSkipped(s, f) then (Noted(s, f, carrier), SkippedPacket)
      else (s1, Handled)
    ensures AckEffect(s, f, carrier, now, delay, s', r)
  {
  }

  /** An ACK does what it is for. */
  lemma AckHasEffect(s: Sender, f: AckFrame, carrier: nat, now: int, delay: int)
    requires SenderOk(s)
    ensures
      var (s', r) := AfterAck(s, f, carrier, now, delay);
      AckEffect(s, f, carrier, now, delay, s', r)
  {
    var s1 := Process(Noted(s, f, carrier), f, now, delay);
    var (s', r) := AfterAck(s, f, carrier, now, delay);
    NewsAreAccepted(s, f, carrier, now, delay, s1);
    AnswerIs(s, f, carrier, now, delay);
    EffectIs(s, f, carrier, now, delay, s1, s', r);
  }

  /** No packet is left in flight that an ACK acknowledges which was handled. */
  lemma NothingAckedIsLeft(s: Sender, f: AckFrame, carrier: nat, now: int, delay: int, s': Sender)
    requires SenderOk(s) && AckEffect(s, f, carrier, now, delay, s', Handled)
    ensures forall p | p in s'.history :: !Acks(f, p.number)
  {
    if !IsNews(s, f) && s.history != [] {
      forall p | p in s.history
        ensures s.history[0].number <= p.number
      {
        var i :| 0 <= i < |s.history| && s.history[i] == p;
      }
    }
  }

  // ---------------------------------------------------------------------------
  // CLOSE_PATHs
  // ---------------------------------------------------------------------------

  /** The packets that are not acknowledged, beyond `largest` or up to it. */
  ghost function Unacked(h: seq<Packet>, f: AckFrame, largest: nat, beyond: bool): iset<Packet> {
    iset p | p in h && !Acks(f, p.number) && (p.number > largest <==> beyond)
  }

  /** What a CLOSE_PATH does that acknowledges nothing that was skipped. */
  ghost predicate Closes(s: Sender, f: AckFrame, carrier: nat, s': Sender) {
    && Holds(s'.history, Unacked(s.history, f, s.largestAcked, true))
    && Queues(s.queue, s'.queue, Unacked(s.history, f, s.largestAcked, false))
    && s'.bytesInFlight == SumLen(s'.history)
    && s'.rtoCount == (if AcksSome(s.history, f) then 0 else s.rtoCount)
    && s'.tlpCount == (if AcksSome(s.history, f) then 0 else s.tlpCount)
    && Forgets(s.skipped, s'.skipped, s'.history, s.largestAcked)
    && s'.largestWithAck == carrier && s'.largestAcked == s.largestAcked
    && s'.lastSent == s.lastSent && s'.lossTime == s.lossTime
    && s'.largestLeastUnackedSent == s.largestLeastUnackedSent && s'.lastStopWaiting == s.lastStopWaiting
    && s.nextLeastUnacked <= s'.nextLeastUnacked <= Max(s.nextLeastUnacked, s.largestAcked + 1)
  }

  ghost predicate ClosePathEffect(s: Sender, f: AckFrame, carrier: nat, s': Sender, r: AckResult) {
    if f.largest > s.lastSent then r == UnsentPacket && s' == s
    else if carrier <= s.largestWithAck then r == DuplicateAck && s' == s
    else if exists n | n in s.skipped :: Acks(f, n) then r == SkippedPacket && s' == s.(largestWithAck := carrier)
    else r == Handled && Closes(s, f, carrier, s')
  }

  lemma UnackedMove(s: Sender, f: AckFrame)
    requires SenderOk(s)
    ensures
      var s' := InflightLost(Acknowledge(s, f));
      && Holds(s'.history, Unacked(s.history, f, s.largestAcked, true))
      && Queues(s.queue, s'.queue, Unacked(s.history, f, s.largestAcked, false))
      && SenderOk(s')
      && s.nextLeastUnacked <= s'.nextLeastUnacked <= Max(s.nextLeastUnacked, s.largestAcked + 1)
  {
    var s1, t := Acknowledge(s, f), UpTo(s.largestAcked);
    AcknowledgeKeepsOk(s, f);
    RequeueKeepsOk(s1, t);
    RequeueMoves(s1, t);
    ChosenAreUnacked(s.history, f, s.largestAcked);
    UpToRaises(s.nextLeastUnacked, s1.history, s.largestAcked);
  }

  lemma ChosenAreUnacked(h: seq<Packet>, f: AckFrame, largest: nat)
    ensures
      var h1, t := Rest(h, AckedBy(f)), UpTo(largest);
      && Chosen(h1, t, false) == Unacked(h, f, largest, true)
      && Chosen(h1, t, true) == Unacked(h, f, largest, false)
  {
    PartIsExact(h, AckedBy(f));
  }

  lemma UpToRaises(next: nat, h: seq<Packet>, largest: nat)
    ensures next <= RaisedBy(next, Part(h, UpTo(largest))) <= Max(next, largest + 1)
  {
    PartIsExact(h, UpTo(largest));
    RaisedIsBounded(next, Part(h, UpTo(largest)), largest);
  }

  lemma InflightCloses(s: Sender, f: AckFrame)
    requires SenderOk(s)
    ensures Closes(s, f, s.largestWithAck, CollectSkipped(InflightLost(Acknowledge(s, f))))
  {
    UnackedMove(s, f);
    AcknowledgeResets(s, f);
    CollectForgets(InflightLost(Acknowledge(s, f)));
  }

  lemma ClosesLater(s: Sender, f: AckFrame, carrier: nat, s': Sender)
    requires Closes(s.(largestWithAck := carrier), f, carrier, s')
    ensures Closes(s, f, carrier, s')
  {
  }

  /** A CLOSE_PATH does what it is for. */
  lemma ClosePathHasEffect(s: Sender, f: AckFrame, carrier: nat)
    requires SenderOk(s)
    ensures
      var (s', r) := AfterClosePath(s, f, carrier);
      ClosePathEffect(s, f, carrier, s', r)
  {
    var s1 := s.(largestWithAck := carrier);
    InflightCloses(s1, f);
    ClosesLater(s, f, carrier, CollectSkipped(InflightLost(Acknowledge(s1, f))));
  }

  // ---------------------------------------------------------------------------
  // Alarms
  // ---------------------------------------------------------------------------

  ghost function Late(h: seq<Packet>, largest: nat, now: int, delay: int, late: bool): iset<Packet> {
    iset p | p in h && (IsLate(p, largest, now, delay) <==> late)
  }

  /** The first `from` packets stay, and so do those from `to` on; the others are lost. */
  predicate Loses(s: Sender, from: nat, to: nat, s': Sender)
    requires from <= to <= |s.history|
  {
    && s'.history == s.history[..from] + s.history[to..]
    && s'.queue == s.queue + s.history[from..to]
    && s'.lossTime == s.lossTime
  }

  /** What is late is lost. */
  ghost predicate LosesLate(s: Sender, now: int, delay: int, s': Sender) {
    && Holds(s'.history, Late(s.history, s.largestAcked, now, delay, false))
    && Queues(s.queue, s'.queue, Late(s.history, s.largestAcked, now, delay, true))
    && s'.lossTime == LossTime(s'.history, s.largestAcked, delay)
  }

  /** Apart from the packets only this changes. */
  predicate Counts(s: Sender, rtoCount: nat, tlpCount: nat, s': Sender) {
    && s' == s.(history := s'.history, queue := s'.queue, bytesInFlight := s'.bytesInFlight, lossTime := s'.lossTime,
                rtoCount := rtoCount, tlpCount := tlpCount, nextLeastUnacked := s'.nextLeastUnacked)
    && s'.bytesInFlight == SumLen(s'.history)
  }

  /** The alarm loses what is late if a loss was foreseen, else the newest packet twice in
      turn, and then everything on a failed path or the two oldest packets. */
  ghost predicate AlarmEffect(s: Sender, now: int, delay: int, failed: bool, s': Sender) {
    var n := |s.history|;
    if n == 0 then s' == s
    else if s.lossTime.Some? then LosesLate(s, now, delay, s') && Counts(s, s.rtoCount, s.tlpCount, s')
    else if s.tlpCount < MAX_TAIL_LOSS_PROBES then
      Loses(s, n - 1, n, s') && Counts(s, s.rtoCount, s.tlpCount + 1, s')
    else Loses(s, 0, if failed then n else Min(2, n), s') && Counts(s, s.rtoCount + 1, s.tlpCount, s')
  }

  lemma {:induction false} OnlyFirst(h: seq<Packet>)
    requires Ascending(h) && h != []
    ensures Part(h, Number(h[0].number)) == [h[0]] && Rest(h, Number(h[0].number)) == h[1..]
  {
    if |h| > 1 {
      var n := |h| - 1;
      OnlyFirst(h[..n]);
      assert h[1..] == h[..n][1..] + [h[n]];
    } else {
      assert h[..0] == [];
    }
  }

  lemma {:induction false} NoneWithNumber(h: seq<Packet>, number: nat)
    requires forall i | 0 <= i < |h| :: h[i].number < number
    ensures Part(h, Number(number)) == [] && Rest(h, Number(number)) == h
  {
    if h != [] {
      NoneWithNumber(h[..|h| - 1], number);
      assert h == h[..|h| - 1] + [h[|h| - 1]];
    }
  }

  lemma OnlyLast(h: seq<Packet>)
    requires Ascending(h) && h != []
    ensures
      var n := |h| - 1;
      Part(h, Number(h[n].number)) == [h[n]] && Rest(h, Number(h[n].number)) == h[..n]
  {
    NoneWithNumber(h[..|h| - 1], h[|h| - 1].number);
  }

  lemma {:induction false} All(h: seq<Packet>)
    ensures Part(h, Everything) == h && Rest(h, Everything) == []
  {
    if h != [] {
      All(h[..|h| - 1]);
      assert h == h[..|h| - 1] + [h[|h| - 1]];
    }
  }

  lemma LoseOldest(s: Sender)
    requires Ascending(s.history) && s.history != []
    ensures
      var s' := OldestLost(s);
      && s'.history == s.history[1..] && s'.queue == s.queue + [s.history[0]] && s'.lossTime == s.lossTime
  {
    OnlyFirst(s.history);
  }

  lemma LoseTwoOldest(s: Sender)
    requires Ascending(s.history)
    ensures Loses(s, 0, Min(2, |s.history|), OldestLost(OldestLost(s)))
  {
    var h, s1 := s.history, OldestLost(s);
    if h != [] {
      LoseOldest(s);
      if |h| > 1 {
        LoseOldest(s1);
        FirstTwo(s.queue, h);
      }
    }
  }

  lemma FirstTwo(queue: seq<Packet>, h: seq<Packet>)
    requires |h| >= 2
    ensures queue + [h[0]] + [h[1..][0]] == queue + h[0..2] && h[1..][1..] == h[..0] + h[2..]
  {
  }

  lemma LoseLast(s: Sender)
    requires Ascending(s.history) && s.history != []
    ensures
      var n := |s.history|;
      Loses(s, n - 1, n, Requeue(s, Number(s.history[n - 1].number)))
  {
    var h, n := s.history, |s.history|;
    OnlyLast(h);
    assert h[..n - 1] + h[n..] == h[..n - 1] && h[n - 1..n] == [h[n - 1]];
  }

  lemma LoseAll(s: Sender)
    ensures Loses(s, 0, |s.history|, Requeue(s, Everything))
  {
    All(s.history);
    assert s.history[0..|s.history|] == s.history;
  }

  lemma LoseLate(s: Sender, now: int, delay: int)
    requires SenderOk(s)
    ensures LosesLate(s, now, delay, DetectLost(s, now, delay))
  {
    var t := Overdue(s.largestAcked, now, delay);
    RequeueMoves(s, t);
    assert Chosen(s.history, t, true) == Late(s.history, s.largestAcked, now, delay, true);
    assert Chosen(s.history, t, false) == Late(s.history, s.largestAcked, now, delay, false);
    FirstIsNextLoss(s.history, s.largestAcked, now, delay);
  }

  lemma AlarmKeepsRest(s: Sender, now: int, delay: int, failed: bool)
    requires SenderOk(s) && s.history != []
    ensures
      var s' := AfterAlarm(s, now, delay, failed);
      if s.lossTime.Some? then Counts(s, s.rtoCount, s.tlpCount, s')
      else if s.tlpCount < MAX_TAIL_LOSS_PROBES then Counts(s, s.rtoCount, s.tlpCount + 1, s')
      else Counts(s, s.rtoCount + 1, s.tlpCount, s')
  {
    AlarmKeepsOk(s, now, delay, failed);
  }

  /** An alarm does what it is for. */
  lemma AlarmHasEffect(s: Sender, now: int, delay: int, failed: bool)
    requires SenderOk(s)
    ensures AlarmEffect(s, now, delay, failed, AfterAlarm(s, now, delay, failed))
  {
    if s.history != [] {
      AlarmKeepsRest(s, now, delay, failed);
      if s.lossTime.Some? {
        LoseLate(s, now, delay);
      } else if s.tlpCount < MAX_TAIL_LOSS_PROBES {
        LoseLast(s);
      } else if failed {
        LoseAll(s);
      } else {
        LoseTwoOldest(s);
      }
    }
  }
}
