/** What a packet is for: it takes along what waits to be sent while there is room, and what it
    leaves, it leaves for good reason. */
module PackerEffects {
  import opened Frames
  import opened Framer
  import opened FramerEffects
  import opened Options
  import opened Packer
  import Flow = FlowControl

  // ---------------------------------------------------------------------------
  // Control frames
  // ---------------------------------------------------------------------------

  /** STOP_WAITING and ACK go first, then as many control frames from the end of the queue as
      there is room for. The others stay queued. */
  lemma ControlsAreTaken(stopWaiting: Option<Control>, ack: Option<Control>, queue: seq<Control>, room: nat,
                         rest: seq<Control>, ps: seq<Payload>)
    returns (taken: seq<Payload>)
    requires Size(Given(stopWaiting) + Given(ack)) <= room
    requires (rest, ps) == ControlPart(stopWaiting, ack, queue, room)
    ensures ps == Given(stopWaiting) + Given(ack) + taken
    ensures AreTaken(queue, room - Size(Given(stopWaiting) + Given(ack)), rest, taken)
  {
    var fixed := Given(stopWaiting) + Given(ack);
    TakenControlsFit(queue, room - Size(fixed));
    taken := TakenControls(queue, room - Size(fixed)).1;
  }

  // ---------------------------------------------------------------------------
  // BLOCKED frames
  // ---------------------------------------------------------------------------

  /** One BLOCKED frame for each of the ids, in order. */
  predicate AreBlocked(cs: seq<Control>, ids: seq<nat>) {
    |cs| == |ids| && forall i | 0 <= i < |ids| :: cs[i] == Blocked(ids[i])
  }

  lemma {:induction false} BlockedAreNamed(ids: seq<nat>)
    ensures AreBlocked(AsBlocked(ids), ids)
  {
    if ids != [] {
      BlockedAreNamed(ids[1..]);
    }
  }

  /** New data `fs` has used up the connection's window, which is then reported as stream 0. */
  predicate Reports(x: Sending, fs: seq<Frame>, x': Sending) {
    && x.blocked <= x'.blocked
    && (fs == [] ==> x' == x)
    && (fs != [] && Flow.Available(x'.flow.conn) == 0 ==> 0 in x'.blocked)
  }

  lemma VisitReports(visit: Callback, x: Sending, id: nat, room: nat, mode: Mode,
                     x': Sending, fs: seq<Frame>, go: bool)
    requires Specifies(visit, mode) && visit(x, id, room) == (x', fs, go)
    ensures Reports(x, fs, x')
  {
    assert visit(x, id, room) == Visited(x, id, room, mode);
    VisitHasEffect(x, id, room, mode);
  }

  lemma ReportsBoth(x: Sending, fs: seq<Frame>, x1: Sending, more: seq<Frame>, x': Sending)
    requires Reports(x, fs, x1) && Reports(x1, more, x')
    ensures Reports(x, fs + more, x')
  {
  }

  lemma {:induction false} RoundReports(visit: Callback, x: Sending, order: seq<nat>, room: nat, mode: Mode,
                                        r: (Sending, seq<Frame>))
    requires Specifies(visit, mode) && r == Round(visit, x, order, room)
    ensures Reports(x, r.1, r.0)
    decreases order
  {
    if order != [] {
      var id := order[0];
      var (x1, fs, go) := visit(x, id, room);
      VisitReports(visit, x, id, room, mode, x1, fs, go);
      SpecifiedVisitsFit(visit, mode);
      assert TotalLen(fs) <= room;
      var r1 := Round(visit, x1, order[1..], room - TotalLen(fs));
      RoundStep(visit, x, order, room, x1, fs, go, r1);
      if go {
        RoundReports(visit, x1, order[1..], room - TotalLen(fs), mode, r1);
        ReportsBoth(x, fs, x1, r1.1, r1.0);
      }
    }
  }

  lemma AllReports(sel: Selection, room: nat, queue: seq<Frame>, x: Sending, order: seq<nat>, mode: Mode,
                   all: (seq<Frame>, seq<Frame>, Sending))
    requires all == PoppedAll(sel, room, queue, VisitWith(mode), x, order)
    ensures x.blocked <= all.2.blocked
    ensures all.2 == x || (Flow.Available(all.2.flow.conn) == 0 ==> 0 in all.2.blocked)
  {
    var again := PoppedRoom(sel, room, queue);
    var r := Round(VisitWith(mode), x, order, room - TotalLen(again));
    PoppedAllIs(sel, room, queue, VisitWith(mode), x, order, again, r, all);
    CallbackIsSpecified(VisitWith(mode), mode);
    RoundReports(VisitWith(mode), x, order, room - TotalLen(again), mode, r);
  }

  /** The streams that a packet leaves blocked are announced by BLOCKED frames, which wait for
      the next packet: so is the connection if new data has used up its window. */
  lemma BlockedAreAnnounced(ps: seq<Payload>, maxFrameSize: nat, sel: Selection, order: seq<nat>, mode: Mode,
                            before: Queues, after: Queues, frames: seq<Payload>)
    returns (blocked: seq<nat>)
    requires WithStreams(ps, maxFrameSize, sel, order, VisitWith(mode), before, after, frames)
    ensures before.controls <= after.controls && AreBlocked(after.controls[|before.controls|..], blocked)
    ensures before.sending.blocked <= blocked && after.sending.blocked == []
    ensures
      after.sending.flow != before.sending.flow && Flow.Available(after.sending.flow.conn) == 0 ==> 0 in blocked
  {
    var room := maxFrameSize - Size(ps) + 2;
    var all := PoppedAll(sel, room, before.retransmission, VisitWith(mode), before.sending, order);
    AllReports(sel, room, before.retransmission, before.sending, order, mode, all);
    blocked := all.2.blocked;
    BlockedAreNamed(blocked);
    assert after.controls[|before.controls|..] == AsBlocked(blocked);
  }

  // ---------------------------------------------------------------------------
  // Room
  // ---------------------------------------------------------------------------

  lemma ReportedStaysSettled(x: Sending, x': Sending, order: seq<nat>, room: nat, mode: Mode)
    requires IsSettled(x, order, room, mode) && x' == x.(blocked := [])
    ensures IsSettled(x', order, room, mode)
  {
    if id :| id in order && IsFull(x, id, room) {
      assert IsFull(x', id, room);
    } else {
      forall id | id in order
        ensures IsIdle(x', id, mode)
      {
        assert IsIdle(x, id, mode);
      }
    }
  }

  /** The length that is left out of the last frame is the room that the framer got in excess. */
  lemma StreamSize(fs: seq<Frame>)
    requires AllReady(fs)
    ensures Size(AsPayload(WithoutLastLen(fs))) == TotalLen(fs) - if fs == [] then 0 else 2
    ensures |AsPayload(WithoutLastLen(fs))| == |fs|
  {
    LastLenSaved(fs);
    AsPayloadSize(WithoutLastLen(fs));
    PayloadCount(WithoutLastLen(fs));
  }

  lemma {:induction false} PayloadCount(fs: seq<Frame>)
    ensures |AsPayload(fs)| == |fs|
  {
    if fs != [] {
      PayloadCount(fs[1..]);
    }
  }

  lemma AllSettled(sel: Selection, room: nat, queue: seq<Frame>, x: Sending, order: seq<nat>, mode: Mode,
                   all: (seq<Frame>, seq<Frame>, Sending))
    requires AllSendable(queue) && all == PoppedAll(sel, room, queue, VisitWith(mode), x, order)
    ensures AllReady(all.0)
    ensures TotalLen(all.0) <= room && IsSettled(all.2, order, room - TotalLen(all.0), mode)
  {
    CallbackIsSpecified(VisitWith(mode), mode);
    SpecifiedVisitsFit(VisitWith(mode), mode);
    AllFramesFit(sel, room, queue, VisitWith(mode), x, order);
    AllFramesUseRoom(sel, room, queue, x, order, mode, all);
  }

  /** `room` bytes are left of the packet. */
  lemma RoomLeft(ps: seq<Payload>, maxFrameSize: nat, fs: seq<Frame>, frames: seq<Payload>) returns (room: nat)
    requires Size(ps) <= maxFrameSize && AllReady(fs) && TotalLen(fs) <= maxFrameSize - Size(ps) + 2
    requires frames == ps + AsPayload(WithoutLastLen(fs))
    ensures Size(frames) <= maxFrameSize
    ensures room == maxFrameSize - Size(frames) + (if |frames| == |ps| then 2 else 0)
    ensures room == maxFrameSize - Size(ps) + 2 - TotalLen(fs)
  {
    StreamSize(fs);
    SizeConcat(ps, AsPayload(WithoutLastLen(fs)));
    room := maxFrameSize - Size(ps) + 2 - TotalLen(fs);
  }

  lemma StreamsAre(ps: seq<Payload>, maxFrameSize: nat, sel: Selection, order: seq<nat>, visit: Callback,
                   before: Queues, after: Queues, frames: seq<Payload>)
    returns (all: (seq<Frame>, seq<Frame>, Sending))
    requires WithStreams(ps, maxFrameSize, sel, order, visit, before, after, frames)
    ensures
      all == PoppedAll(sel, maxFrameSize - Size(ps) + 2, before.retransmission, visit, before.sending, order)
    ensures frames == ps + AsPayload(WithoutLastLen(all.0)) && after.sending == all.2.(blocked := [])
  {
    all := PoppedAll(sel, maxFrameSize - Size(ps) + 2, before.retransmission, visit, before.sending, order);
  }

  lemma SettledPacket(ps: seq<Payload>, maxFrameSize: nat, fs: seq<Frame>, frames: seq<Payload>,
                      x: Sending, x': Sending, order: seq<nat>, mode: Mode)
    returns (room: nat)
    requires Size(ps) <= maxFrameSize && AllReady(fs) && TotalLen(fs) <= maxFrameSize - Size(ps) + 2
    requires frames == ps + AsPayload(WithoutLastLen(fs)) && x' == x.(blocked := [])
    requires IsSettled(x, order, maxFrameSize - Size(ps) + 2 - TotalLen(fs), mode)
    ensures Size(frames) <= maxFrameSize
    ensures room == maxFrameSize - Size(frames) + if |frames| == |ps| then 2 else 0
    ensures IsSettled(x', order, room, mode)
  {
    room := RoomLeft(ps, maxFrameSize, fs, frames);
    ReportedStaysSettled(x, x', order, room, mode);
  }

  lemma PoppedPacket(ps: seq<Payload>, maxFrameSize: nat, sel: Selection, queue: seq<Frame>, x: Sending,
                     order: seq<nat>, mode: Mode, all: (seq<Frame>, seq<Frame>, Sending),
                     frames: seq<Payload>, x': Sending)
    returns (room: nat)
    requires AllSendable(queue) && Size(ps) <= maxFrameSize
    requires all == PoppedAll(sel, maxFrameSize - Size(ps) + 2, queue, VisitWith(mode), x, order)
    requires frames == ps + AsPayload(WithoutLastLen(all.0)) && x' == all.2.(blocked := [])
    ensures Size(frames) <= maxFrameSize
    ensures room == maxFrameSize - Size(frames) + if |frames| == |ps| then 2 else 0
    ensures IsSettled(x', order, room, mode)
  {
    AllSettled(sel, maxFrameSize - Size(ps) + 2, queue, x, order, mode, all);
    room := SettledPacket(ps, maxFrameSize, all.0, frames, all.2, x', order, mode);
  }

  /** A packet uses its room: no stream is left with something that it may send, unless the
      packet has no room for a byte behind one's header. The header of a first frame would be
      two bytes shorter, without its length. */
  lemma PacketUsesRoom(ps: seq<Payload>, maxFrameSize: nat, sel: Selection, order: seq<nat>, mode: Mode,
                       before: Queues, after: Queues, frames: seq<Payload>)
    returns (room: nat)
    requires AllSendable(before.retransmission)
    requires WithStreams(ps, maxFrameSize, sel, order, VisitWith(mode), before, after, frames)
    ensures Size(frames) <= maxFrameSize
    ensures room == maxFrameSize - Size(frames) + if |frames| == |ps| then 2 else 0
    ensures IsSettled(after.sending, order, room, mode)
  {
    var all := StreamsAre(ps, maxFrameSize, sel, order, VisitWith(mode), before, after, frames);
    room := PoppedPacket(ps, maxFrameSize, sel, before.retransmission, before.sending, order, mode, all,
                         frames, after.sending);
  }
}
