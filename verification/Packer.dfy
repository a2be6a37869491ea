/** The packet packer: it composes the payload of a packet so that the packet never exceeds
    the maximum size. */
module Packer {
  import opened Frames
  import opened Framer
  import opened Options
  import opened Stream

  const MAX_PACKET_SIZE: nat := 1350
  const NON_FORWARD_SECURE_REDUCTION: nat := 50

  /** Frames without stream data. Of most of them only the length matters here, which is
      the length that the frame writes. */
  datatype Control = Ping | Blocked(stream: nat) | Other(id: nat, length: nat)

  datatype Payload = Plain(control: Control) | Stream(frame: Frame)

  datatype Composed = Frames(frames: seq<Payload>) | PayloadTooLarge

  datatype Outcome = Nothing | Packet(frames: seq<Payload>, size: nat) | NotComposed | EmptyFrame | PacketTooLarge

  function ControlLen(c: Control): nat {
    match c
    case Ping => 1
    case Blocked(_) => 5
    case Other(_, n) => n
  }

  function PayloadLen(p: Payload): nat {
    match p
    case Plain(c) => ControlLen(c)
    case Stream(f) => FrameLen(f)
  }

  function Size(ps: seq<Payload>): nat {
    if ps == [] then 0 else PayloadLen(ps[0]) + Size(ps[1..])
  }

  lemma {:induction false} SizeConcat(a: seq<Payload>, b: seq<Payload>)
    ensures Size(a + b) == Size(a) + Size(b)
  {
    if a == [] {
      assert a + b == b;
    } else {
      assert (a + b)[1..] == a[1..] + b;
      SizeConcat(a[1..], b);
    }
  }

  /** A STREAM frame without data must end its stream, or it cannot be written. */
  predicate Writable(ps: seq<Payload>) {
    ps == [] || ((ps[0].Stream? ==> Sendable(ps[0].frame)) && Writable(ps[1..]))
  }

  lemma {:induction false} WritableConcat(a: seq<Payload>, b: seq<Payload>)
    ensures Writable(a + b) <==> Writable(a) && Writable(b)
  {
    if a == [] {
      assert a + b == b;
    } else {
      assert (a + b)[1..] == a[1..] + b;
      WritableConcat(a[1..], b);
    }
  }

  lemma JoinFits(a: seq<Payload>, b: seq<Payload>, max: nat)
    requires Size(a) + Size(b) <= max && Writable(a) && Writable(b)
    ensures Size(a + b) <= max && Writable(a + b)
  {
    SizeConcat(a, b);
    WritableConcat(a, b);
  }

  // ---------------------------------------------------------------------------
  // STREAM frames in a packet
  // ---------------------------------------------------------------------------

  function AsPayload(fs: seq<Frame>): seq<Payload> {
    if fs == [] then [] else [Stream(fs[0])] + AsPayload(fs[1..])
  }

  /** The last frame of a packet does not need its length. */
  function WithoutLastLen(fs: seq<Frame>): seq<Frame> {
    if fs == [] then [] else fs[|fs| - 1 := fs[|fs| - 1].(lenPresent := false)]
  }

  lemma {:induction false} AsPayloadSize(fs: seq<Frame>)
    ensures Size(AsPayload(fs)) == TotalLen(fs)
    ensures Writable(AsPayload(fs)) <==> AllSendable(fs)
  {
    if fs != [] {
      AsPayloadSize(fs[1..]);
    }
  }

  /** Leaving it out saves the two bytes by which the framer was allowed to exceed the limit. */
  lemma {:induction false} LastLenSaved(fs: seq<Frame>)
    requires AllReady(fs)
    ensures AllSendable(WithoutLastLen(fs))
    ensures TotalLen(WithoutLastLen(fs)) == TotalLen(fs) - if fs == [] then 0 else 2
  {
    if |fs| > 1 {
      LastLenSaved(fs[1..]);
      assert WithoutLastLen(fs)[1..] == WithoutLastLen(fs[1..]);
    }
  }

  /** Frames that fit into two bytes more than there is room still fit. */
  lemma StreamsFit(fs: seq<Frame>, room: nat)
    requires Fits(fs, room + 2)
    ensures Size(AsPayload(WithoutLastLen(fs))) <= room
    ensures Writable(AsPayload(WithoutLastLen(fs)))
  {
    AsPayloadSize(WithoutLastLen(fs));
    LastLenSaved(fs);
  }

  // ---------------------------------------------------------------------------
  // Control frames in a packet
  // ---------------------------------------------------------------------------

  function Given(c: Option<Control>): seq<Payload> {
    if c.Some? then [Plain(c.value)] else []
  }

  /** Queued control frames leave from the end of the queue while they fit. */
  function TakenControls(queue: seq<Control>, room: nat): (seq<Control>, seq<Payload>) {
    if queue == [] || ControlLen(queue[|queue| - 1]) > room then (queue, [])
    else
      var last := queue[|queue| - 1];
      var (rest, ps) := TakenControls(queue[..|queue| - 1], room - ControlLen(last));
      (rest, [Plain(last)] + ps)
  }

  /** What is taken fits, is the end of the queue backwards, and could not be more. */
  ghost predicate AreTaken(queue: seq<Control>, room: nat, rest: seq<Control>, ps: seq<Payload>) {
    && rest <= queue && |rest| + |ps| == |queue|
    && (forall i | 0 <= i < |ps| :: ps[i] == Plain(queue[|queue| - 1 - i]))
    && Size(ps) <= room && Writable(ps)
    && (rest != [] ==> Size(ps) + ControlLen(rest[|rest| - 1]) > room)
  }

  lemma OneMoreTaken(queue: seq<Control>, room: nat, last: Control, rest: seq<Control>, ps: seq<Payload>)
    requires ControlLen(last) <= room && AreTaken(queue, room - ControlLen(last), rest, ps)
    ensures AreTaken(queue + [last], room, rest, [Plain(last)] + ps)
  {
    assert ([Plain(last)] + ps)[1..] == ps;
  }

  lemma {:induction false} TakenControlsFit(queue: seq<Control>, room: nat)
    ensures
      var (rest, ps) := TakenControls(queue, room);
      AreTaken(queue, room, rest, ps)
  {
    if queue != [] && ControlLen(queue[|queue| - 1]) <= room {
      var most, last := queue[..|queue| - 1], queue[|queue| - 1];
      TakenControlsFit(most, room - ControlLen(last));
      var (rest, ps) := TakenControls(most, room - ControlLen(last));
      OneMoreTaken(most, room, last, rest, ps);
      assert most + [last] == queue;
    }
  }

  function AsBlocked(ids: seq<nat>): seq<Control> {
    if ids == [] then [] else [Blocked(ids[0])] + AsBlocked(ids[1..])
  }

  /** What a packet with `room` bytes takes along besides STREAM frames, and the queue of
      control frames that it leaves. */
  function ControlPart(stopWaiting: Option<Control>, ack: Option<Control>, queue: seq<Control>, room: nat)
    : (seq<Control>, seq<Payload>)
  {
    var fixed := Given(stopWaiting) + Given(ack);
    var (rest, ps) := TakenControls(queue, if Size(fixed) <= room then room - Size(fixed) else 0);
    (rest, fixed + ps)
  }

  lemma ControlPartFits(stopWaiting: Option<Control>, ack: Option<Control>, queue: seq<Control>, room: nat)
    requires Size(Given(stopWaiting) + Given(ack)) <= room
    ensures Size(ControlPart(stopWaiting, ack, queue, room).1) <= room
    ensures Writable(ControlPart(stopWaiting, ack, queue, room).1)
  {
    var fixed := Given(stopWaiting) + Given(ack);
    TakenControlsFit(queue, room - Size(fixed));
    SizeConcat(fixed, TakenControls(queue, room - Size(fixed)).1);
    WritableConcat(fixed, TakenControls(queue, room - Size(fixed)).1);
    WritableConcat(Given(stopWaiting), Given(ack));
  }

  /** What waits to be sent. */
  datatype Queues = Queues(controls: seq<Control>, retransmission: seq<Frame>, sending: Sending)

  /** `frames` is the payload `ps` with the STREAM frames that still fit. BLOCKED frames that
      they give rise to are queued. */
  ghost predicate WithStreams(ps: seq<Payload>, maxFrameSize: nat, sel: Selection, order: seq<nat>, visit: Callback,
                              before: Queues, after: Queues, frames: seq<Payload>) {
    && Size(ps) <= maxFrameSize
    && var (fs, queue, x) :=
         PoppedAll(sel, maxFrameSize - Size(ps) + 2, before.retransmission, visit, before.sending, order);
       && frames == ps + AsPayload(WithoutLastLen(fs))
       && after == Queues(before.controls + AsBlocked(x.blocked), queue, x.(blocked := []))
  }

  /** `frames` is the payload of a packet that has room for `maxFrameSize` bytes: STOP_WAITING,
      ACK, control frames and, if allowed, STREAM frames. */
  ghost predicate IsPayload(stopWaiting: Option<Control>, ack: Option<Control>, maxFrameSize: nat, withStreams: bool,
                            sel: Selection, order: seq<nat>, visit: Callback,
                            before: Queues, after: Queues, frames: seq<Payload>) {
    var (rest, ps) := ControlPart(stopWaiting, ack, before.controls, maxFrameSize);
    var between := before.(controls := rest);
    if withStreams then WithStreams(ps, maxFrameSize, sel, order, visit, between, after, frames)
    else frames == ps && after == between
  }

  lemma PayloadStarts(stopWaiting: Option<Control>, ack: Option<Control>, maxFrameSize: nat, withStreams: bool,
                      sel: Selection, order: seq<nat>, visit: Callback,
                      before: Queues, after: Queues, frames: seq<Payload>)
    requires IsPayload(stopWaiting, ack, maxFrameSize, withStreams, sel, order, visit, before, after, frames)
    ensures Given(stopWaiting) + Given(ack) <= frames
  {
  }

  /** The packet holds the next bytes of the crypto stream, which leave it. */
  predicate IsCryptoPacket(before: map<nat, SendState>, after: map<nat, SendState>, r: Outcome)
    requires 1 in before
  {
    && r.Packet? && |r.frames| == 1 && r.frames[0].Stream?
    && var f := r.frames[0].frame;
       && f.data != [] && f.data <= before[1].pending
       && f == Frame(1, before[1].writeOffset, f.data, false, false)
       && after == before[1 := AfterCrypto(before[1], |f.data|)]
  }

  lemma AckIsAmong(stopWaiting: Option<Control>, ack: Option<Control>, frames: seq<Payload>)
    requires Given(stopWaiting) + Given(ack) <= frames
    ensures ack.Some? ==> Plain(ack.value) in frames
  {
    if ack.Some? {
      var k := |Given(stopWaiting)|;
      assert frames[k] == (Given(stopWaiting) + Given(ack))[k];
    }
  }

  predicate AckIsSent(ack: Option<Control>, r: Outcome) {
    ack.Some? && r.Packet? && Plain(ack.value) in r.frames
  }

  class PacketPacker {
    var controlFrames: seq<Control>
    var stopWaiting: Option<Control>
    var ackFrame: Option<Control>
    const streamFramer: StreamFramer

    function View(): Queues
      reads this, streamFramer
    {
      Queues(controlFrames, streamFramer.retransmissionQueue, streamFramer.View())
    }

    constructor (framer: StreamFramer)
      ensures controlFrames == [] && stopWaiting == None && ackFrame == None && streamFramer == framer
    {
      controlFrames, stopWaiting, ackFrame, streamFramer := [], None, None, framer;
    }

    /** Takes control frames from the end of the queue while they fit. */
    method PopControlFrames(payloadLength: nat, maxFrameSize: nat) returns (ps: seq<Payload>)
      requires payloadLength <= maxFrameSize
      modifies this`controlFrames
      ensures (controlFrames, ps) == TakenControls(old(controlFrames), maxFrameSize - payloadLength)
    {
      ghost var all := TakenControls(controlFrames, maxFrameSize - payloadLength);
      ps := [];
      var len := payloadLength;
      while controlFrames != []
        invariant len <= maxFrameSize
        invariant TakenControls(controlFrames, maxFrameSize - len).0 == all.0
        invariant ps + TakenControls(controlFrames, maxFrameSize - len).1 == all.1
        decreases |controlFrames|
      {
        var frame := controlFrames[|controlFrames| - 1];
        if len + ControlLen(frame) > maxFrameSize {
          break;
        }
        ps := ps + [Plain(frame)];
        len := len + ControlLen(frame);
        controlFrames := controlFrames[..|controlFrames| - 1];
      }
      assert ps + [] == ps;
    }

    /** BLOCKED frames wait for the next packet. */
    method QueueBlockedFrames()
      modifies this`controlFrames, streamFramer`blockedFrameQueue
      ensures controlFrames == old(controlFrames) + AsBlocked(old(streamFramer.blockedFrameQueue))
      ensures streamFramer.blockedFrameQueue == []
    {
      while streamFramer.blockedFrameQueue != []
        invariant controlFrames + AsBlocked(streamFramer.blockedFrameQueue)
               == old(controlFrames) + AsBlocked(old(streamFramer.blockedFrameQueue))
        decreases |streamFramer.blockedFrameQueue|
      {
        ghost var q := streamFramer.blockedFrameQueue;
        assert controlFrames + AsBlocked(q) == controlFrames + [Blocked(q[0])] + AsBlocked(q[1..]);
        controlFrames := controlFrames + [Blocked(streamFramer.blockedFrameQueue[0])];
        streamFramer.blockedFrameQueue := streamFramer.blockedFrameQueue[1..];
      }
      assert controlFrames + [] == controlFrames;
    }

    /** STREAM frames for `room` bytes, which the framer may exceed by two. */
    method PopStreamPayload(room: nat, sel: Selection, order: seq<nat>, mode: Mode, ghost visit: Callback)
      returns (ps: seq<Payload>)
      requires Specifies(visit, mode) && AllSendable(streamFramer.retransmissionQueue)
      modifies streamFramer
      ensures
        var (fs, queue, x) :=
          PoppedAll(sel, room + 2, old(streamFramer.retransmissionQueue), visit, old(streamFramer.View()), order);
        && ps == AsPayload(WithoutLastLen(fs))
        && streamFramer.retransmissionQueue == queue && streamFramer.View() == x
      ensures AllSendable(streamFramer.retransmissionQueue)
      ensures Size(ps) <= room && Writable(ps)
    {
      SpecifiedVisitsFit(visit, mode);
      AllFramesFit(sel, room + 2, streamFramer.retransmissionQueue, visit, streamFramer.View(), order);
      var fs := streamFramer.PopStreamFrames(sel, room + 2, order, mode, visit);
      StreamsFit(fs, room);
      if fs != [] {
        fs := fs[|fs| - 1 := fs[|fs| - 1].(lenPresent := false)];
      }
      ps := AsPayload(fs);
    }

    /** Adds STREAM frames to the payload `ps`. */
    method AddStreamFrames(ps: seq<Payload>, maxFrameSize: nat,
                           sel: Selection, order: seq<nat>, mode: Mode, ghost visit: Callback)
      returns (frames: seq<Payload>)
      requires Size(ps) <= maxFrameSize && Writable(ps)
      requires Specifies(visit, mode) && AllSendable(streamFramer.retransmissionQueue)
      modifies this`controlFrames, streamFramer
      ensures WithStreams(ps, maxFrameSize, sel, order, visit, old(View()), View(), frames)
      ensures AllSendable(streamFramer.retransmissionQueue)
      ensures Size(frames) <= maxFrameSize && Writable(frames)
    {
      var streams := PopStreamPayload(maxFrameSize - Size(ps), sel, order, mode, visit);
      JoinFits(ps, streams, maxFrameSize);
      QueueBlockedFrames();
      frames := ps + streams;
    }

    /** What a packet takes along besides STREAM frames. */
    method PopControlPart(maxFrameSize: nat) returns (ps: seq<Payload>)
      requires Size(Given(stopWaiting) + Given(ackFrame)) <= maxFrameSize
      modifies this`controlFrames
      ensures (controlFrames, ps) == ControlPart(stopWaiting, ackFrame, old(controlFrames), maxFrameSize)
      ensures Size(ps) <= maxFrameSize && Writable(ps)
    {
      ControlPartFits(stopWaiting, ackFrame, controlFrames, maxFrameSize);
      ps := Given(stopWaiting) + Given(ackFrame);
      var controls := PopControlFrames(Size(ps), maxFrameSize);
      ps := ps + controls;
    }

    /** The payload of the next packet: STOP_WAITING, ACK, control frames and STREAM frames. */
    method ComposeNextPacket(maxFrameSize: nat, canSendStreamFrames: bool,
                             sel: Selection, order: seq<nat>, mode: Mode, ghost visit: Callback)
      returns (r: Composed)
      requires Specifies(visit, mode) && AllSendable(streamFramer.retransmissionQueue)
      modifies this`controlFrames, streamFramer
      ensures r.PayloadTooLarge? <==> Size(Given(stopWaiting) + Given(ackFrame)) > maxFrameSize
      ensures r.PayloadTooLarge? ==> View() == old(View())
      ensures r.Frames? ==> Size(r.frames) <= maxFrameSize && Writable(r.frames)
      ensures AllSendable(streamFramer.retransmissionQueue)
      ensures r.Frames? ==>
        IsPayload(stopWaiting, ackFrame, maxFrameSize, canSendStreamFrames,
                  sel, order, visit, old(View()), View(), r.frames)
    {
      var ps := Given(stopWaiting) + Given(ackFrame);
      if Size(ps) > maxFrameSize {
        return PayloadTooLarge;
      }
      ps := PopControlPart(maxFrameSize);
      if canSendStreamFrames {
        ps := AddStreamFrames(ps, maxFrameSize, sel, order, mode, visit);
      }
      return Frames(ps);
    }

    /** Writes and seals the frames behind a header of `headerLen` bytes. */
    method WriteAndSealPacket(headerLen: nat, frames: seq<Payload>, overhead: nat) returns (r: Outcome)
      ensures r ==
        if !Writable(frames) then EmptyFrame
        else if headerLen + Size(frames) + overhead > MAX_PACKET_SIZE then PacketTooLarge
        else Packet(frames, headerLen + Size(frames) + overhead)
    {
      var len := headerLen;
      for i := 0 to |frames|
        invariant len + Size(frames[i..]) == headerLen + Size(frames)
        invariant Writable(frames) <==> Writable(frames[i..])
      {
        assert frames[i..][1..] == frames[i + 1..];
        if frames[i].Stream? && !Sendable(frames[i].frame) {
          return EmptyFrame;
        }
        len := len + PayloadLen(frames[i]);
      }
      if len + overhead > MAX_PACKET_SIZE {
        return PacketTooLarge;
      }
      return Packet(frames, len + overhead);
    }

    predicate HasPing()
      reads this
    {
      |controlFrames| > 0 && controlFrames[0].Ping?
    }

    /** The frames of the next packet: a PING goes alone. */
    method NextFrames(maxSize: nat, canSendStreamFrames: bool,
                      sel: Selection, order: seq<nat>, mode: Mode, ghost visit: Callback)
      returns (r: Composed)
      requires maxSize > 0
      requires Specifies(visit, mode) && AllSendable(streamFramer.retransmissionQueue)
      modifies this`controlFrames, streamFramer
      ensures r.PayloadTooLarge? <==> !old(HasPing()) && Size(Given(stopWaiting) + Given(ackFrame)) > maxSize
      ensures r.Frames? ==> Size(r.frames) <= maxSize && Writable(r.frames)
      ensures AllSendable(streamFramer.retransmissionQueue)
      ensures old(HasPing()) ==>
        r == Frames([Plain(Ping)]) && View() == old(View()).(controls := old(controlFrames)[1..])
      ensures !old(HasPing()) && r.Frames? ==>
        IsPayload(stopWaiting, ackFrame, maxSize, canSendStreamFrames,
                  sel, order, visit, old(View()), View(), r.frames)
    {
      if |controlFrames| > 0 && controlFrames[0].Ping? {
        r := Frames([Plain(controlFrames[0])]);
        controlFrames := controlFrames[1..];
      } else {
        r := ComposeNextPacket(maxSize, canSendStreamFrames, sel, order, mode, visit);
      }
    }

    /** A packet with data of the crypto stream, which goes alone and stays smaller. */
    method PackCryptoPacket(headerLen: nat, overhead: nat) returns (r: Outcome)
      requires streamFramer.HasCryptoStreamFrame()
      requires headerLen + overhead + NON_FORWARD_SECURE_REDUCTION + CryptoHeaderLen(streamFramer.streams[1])
               < MAX_PACKET_SIZE
      modifies streamFramer`streams
      ensures IsCryptoPacket(old(streamFramer.streams), streamFramer.streams, r)
      ensures r.size == headerLen + Size(r.frames) + overhead <= MAX_PACKET_SIZE - NON_FORWARD_SECURE_REDUCTION
    {
      var maxLen := MAX_PACKET_SIZE - overhead - NON_FORWARD_SECURE_REDUCTION - headerLen;
      var frame := streamFramer.PopCryptoStreamFrame(maxLen);
      assert [Stream(frame)][1..] == [] && Size([Stream(frame)]) == FrameLen(frame);
      r := WriteAndSealPacket(headerLen, [Stream(frame)], overhead);
    }

    /** A packet that is packed is never too large, and all its frames can be written. The two
        pairs of lengths are those of the crypto stream's packets and of others. */
    method PackPacket(cryptoHeaderLen: nat, cryptoOverhead: nat, headerLen: nat, overhead: nat,
                      canSendStreamFrames: bool, sel: Selection, order: seq<nat>, mode: Mode, ghost visit: Callback)
      returns (r: Outcome)
      requires streamFramer.HasCryptoStreamFrame() ==>
        cryptoHeaderLen + cryptoOverhead + NON_FORWARD_SECURE_REDUCTION + CryptoHeaderLen(streamFramer.streams[1])
        < MAX_PACKET_SIZE
      requires headerLen + overhead < MAX_PACKET_SIZE
      requires Specifies(visit, mode) && AllSendable(streamFramer.retransmissionQueue)
      modifies this, streamFramer
      ensures !r.PacketTooLarge? && !r.EmptyFrame?
      ensures r.Packet? ==> r.frames != [] && r.size <= MAX_PACKET_SIZE
      ensures AllSendable(streamFramer.retransmissionQueue)
      ensures old(streamFramer.HasCryptoStreamFrame()) ==>
        && IsCryptoPacket(old(streamFramer.streams), streamFramer.streams, r)
        && View() == old(View()).(sending := old(streamFramer.View()).(sends := streamFramer.streams))
        && stopWaiting == old(stopWaiting) && ackFrame == old(ackFrame)
      ensures !old(streamFramer.HasCryptoStreamFrame()) ==>
        && (r.Packet? ==> r.size == headerLen + Size(r.frames) + overhead && stopWaiting == None && ackFrame == None)
        && (!r.Packet? ==> stopWaiting == old(stopWaiting) && ackFrame == old(ackFrame))
        && (r.NotComposed? <==>
              && !old(HasPing())
              && headerLen + Size(Given(old(stopWaiting)) + Given(old(ackFrame))) + overhead > MAX_PACKET_SIZE)
        && (old(HasPing()) ==>
              && View() == old(View()).(controls := old(controlFrames)[1..])
              && (r.Nothing? <==> old(stopWaiting).Some?)
              && (r.Packet? ==> r.frames == [Plain(Ping)]))
        && (!old(HasPing()) && r.Packet? ==>
              && IsPayload(old(stopWaiting), old(ackFrame), MAX_PACKET_SIZE - overhead - headerLen, canSendStreamFrames,
                           sel, order, visit, old(View()), View(), r.frames)
              && Given(old(stopWaiting)) + Given(old(ackFrame)) <= r.frames)
        && (old(ackFrame).Some? && old(ackFrame).value.Other? ==>
              (AckIsSent(old(ackFrame), r) || ackFrame == old(ackFrame)
               <==> !(old(HasPing()) && old(stopWaiting).None?)))
    {
      if streamFramer.HasCryptoStreamFrame() {
        r := PackCryptoPacket(cryptoHeaderLen, cryptoOverhead);
        return;
      }
      var composed := NextFrames(MAX_PACKET_SIZE - overhead - headerLen, canSendStreamFrames, sel, order, mode, visit);
      if composed.PayloadTooLarge? {
        return NotComposed;
      }
      var frames := composed.frames;
      if |frames| == 0 || (|frames| == 1 && stopWaiting.Some?) {
        return Nothing;
      }
      if !old(HasPing()) {
        PayloadStarts(stopWaiting, ackFrame, MAX_PACKET_SIZE - overhead - headerLen, canSendStreamFrames,
                      sel, order, visit, old(View()), View(), frames);
        AckIsAmong(stopWaiting, ackFrame, frames);
      }
      stopWaiting, ackFrame := None, None;
      r := WriteAndSealPacket(headerLen, frames, overhead);
    }
  }
}
