/** One stream: the sending half cuts written bytes into frames, the receiving half
    reads them back out of the sorter. Blocking, deadlines and resets are not modelled:
    `Read` returns what it can without waiting. */
module Stream {
  import opened Numbers
  import opened Frames
  import Sorter
  import opened Options

  /** `pending` holds the bytes of the current `Write` that no frame has taken yet. */
  datatype SendState = SendState(pending: seq<Byte>, writeOffset: nat, closed: bool, finSent: bool)

  datatype RecvState = RecvState(sorter: Sorter.State, readOffset: nat, eof: bool)

  const SEND_INITIAL := SendState([], 0, false, false)
  const RECV_INITIAL := RecvState(Sorter.INITIAL, 0, false)

  // ---------------------------------------------------------------------------
  // Sending
  // ---------------------------------------------------------------------------

  /** The next frame of stream `id` with at most `maxLen` bytes of data, if there is
      something to send. */
  function NextFrame(s: SendState, id: nat, maxLen: nat): (r: (SendState, Option<Frame>))
    ensures r.1.Some? ==> |r.1.value.data| <= maxLen && (r.1.value.data != [] || r.1.value.fin)
    ensures r.1.None? ==> r.0 == s
  {
    var n := Min(maxLen, |s.pending|);
    var rest := s.pending[n..];
    var fin := s.closed && !s.finSent && rest == [];
    if maxLen == 0 || (n == 0 && !fin) then (s, None)
    else
      (SendState(rest, s.writeOffset + n, s.closed, s.finSent || fin),
       Some(Frame(id, s.writeOffset, s.pending[..n], fin, true)))
  }

  // ---------------------------------------------------------------------------
  // Reading
  // ---------------------------------------------------------------------------

  ghost predicate QueueCarries(queue: map<nat, Frame>, bytes: seq<Byte>) {
    forall k | k in queue :: Carries(queue[k], bytes)
  }

  /** `out` is what `bytes` holds at `from`. */
  predicate BytesAt(bytes: seq<Byte>, from: nat, out: seq<Byte>) {
    out != [] ==> from + |out| <= |bytes| && out == bytes[from..from + |out|]
  }

  /** The reader is at the start of the head frame or inside it. */
  ghost predicate RecvOk(r: RecvState) {
    && Sorter.Valid(r.sorter)
    && r.sorter.readPos <= r.readOffset
    && (r.readOffset == r.sorter.readPos
        || (r.sorter.readPos in r.sorter.queue && r.readOffset < r.sorter.queue[r.sorter.readPos].End()))
    && (forall k | k in r.sorter.queue && r.sorter.queue[k].data == [] :: r.sorter.queue[k].fin)
  }

  /** One round of the copy loop: at most `room` bytes out of the head frame, which is
      popped once it is used up. */
  function ReadRound(r: RecvState, room: nat): (RecvState, seq<Byte>)
    requires RecvOk(r) && Sorter.Head(r.sorter).Some?
  {
    var frame := Sorter.Head(r.sorter).value;
    var pos := r.readOffset - frame.offset;
    var m := Min(room, |frame.data| - pos);
    var chunk := frame.data[pos..pos + m];
    if pos + m == |frame.data| then
      (RecvState(Sorter.AfterPop(r.sorter), r.readOffset + m, r.eof || frame.fin), chunk)
    else (r.(readOffset := r.readOffset + m), chunk)
  }

  /** Reading takes `out` from the queued frames and leaves the received set alone. */
  ghost predicate ReadFrom(r: RecvState, out: seq<Byte>, r': RecvState) {
    && r'.readOffset == r.readOffset + |out|
    && r'.sorter.gaps == r.sorter.gaps
    && (forall k | k in r'.sorter.queue :: k in r.sorter.queue && r'.sorter.queue[k] == r.sorter.queue[k])
    && (forall bytes | QueueCarries(r.sorter.queue, bytes) ::
          BytesAt(bytes, r.readOffset, out))
  }

  lemma ReadRoundReads(r: RecvState, room: nat)
    requires RecvOk(r) && Sorter.Head(r.sorter).Some? && room > 0 && !r.eof
    ensures
      var (r', chunk) := ReadRound(r, room);
      && RecvOk(r') && ReadFrom(r, chunk, r')
      && |chunk| <= room
      && (chunk != [] || r'.eof)
      && (r'.eof ==> Sorter.Head(r.sorter).value.fin)
  {
    Sorter.PopKeepsValid(r.sorter);
    var (r', chunk) := ReadRound(r, room);
    var frame := Sorter.Head(r.sorter).value;
    assert r.sorter.queue[r.sorter.readPos] == frame;
    forall bytes | QueueCarries(r.sorter.queue, bytes)
      ensures BytesAt(bytes, r.readOffset, chunk)
    {
      assert Carries(frame, bytes);
    }
  }

  lemma BytesAtConcat(bytes: seq<Byte>, from: nat, a: seq<Byte>, b: seq<Byte>)
    requires BytesAt(bytes, from, a) && BytesAt(bytes, from + |a|, b)
    ensures BytesAt(bytes, from, a + b)
  {
    assert a == [] ==> a + b == b;
    assert b == [] ==> a + b == a;
  }

  lemma ReadsCompose(r: RecvState, a: seq<Byte>, r1: RecvState, b: seq<Byte>, r2: RecvState)
    requires ReadFrom(r, a, r1) && ReadFrom(r1, b, r2)
    ensures ReadFrom(r, a + b, r2)
  {
    forall bytes | QueueCarries(r.sorter.queue, bytes)
      ensures BytesAt(bytes, r.readOffset, a + b)
    {
      assert QueueCarries(r1.sorter.queue, bytes);
      BytesAtConcat(bytes, r.readOffset, a, b);
    }
  }

  /** What a call of `Read` with room for `cap` bytes does. It stops early only at a
      byte that has not been received, or at a frame that ends the stream. */
  ghost predicate ReadSpec(r: RecvState, cap: nat, out: seq<Byte>, r': RecvState) {
    if r.eof then r' == r && out == []
    else
      && RecvOk(r') && ReadFrom(r, out, r')
      && |out| <= cap
      && (r'.eof ==> exists k | k in r.sorter.queue :: r.sorter.queue[k].fin)
      && (|out| == cap || r'.eof || Sorter.Missing(r.sorter.gaps, r'.readOffset))
  }

  /** `Read` has got from `r0` to `r` and goes on. */
  ghost predicate Reading(r0: RecvState, cap: nat, out: seq<Byte>, r: RecvState) {
    !r0.eof && |out| <= cap && RecvOk(r) && ReadFrom(r0, out, r)
  }

  lemma ReadsOn(r0: RecvState, cap: nat, out: seq<Byte>, r1: RecvState, chunk: seq<Byte>, r2: RecvState, head: Frame)
    requires Reading(r0, cap, out, r1) && ReadFrom(r1, chunk, r2) && RecvOk(r2) && |chunk| <= cap - |out|
    requires r1.sorter.readPos in r1.sorter.queue && r1.sorter.queue[r1.sorter.readPos] == head
    requires r2.eof ==> head.fin
    ensures Reading(r0, cap, out + chunk, r2)
    ensures r2.eof ==> ReadSpec(r0, cap, out + chunk, r2)
  {
    ReadsCompose(r0, out, r1, chunk, r2);
  }

  lemma StopsAtMissingByte(r: RecvState)
    requires RecvOk(r) && Sorter.Head(r.sorter).None?
    ensures Sorter.Missing(r.sorter.gaps, r.readOffset)
  {
  }

  class StreamObject {
    var dataForWriting: seq<Byte>
    var writeOffset: nat
    var finishedWriting: bool
    var finSent: bool
    const frameQueue: Sorter.StreamFrameSorter
    var readOffset: nat
    var finishedReading: bool

    function Send(): SendState
      reads this
    {
      SendState(dataForWriting, writeOffset, finishedWriting, finSent)
    }

    function Recv(): RecvState
      reads this, frameQueue
    {
      RecvState(frameQueue.View(), readOffset, finishedReading)
    }

    constructor ()
      ensures Send() == SEND_INITIAL && Recv() == RECV_INITIAL && RecvOk(Recv())
      ensures fresh(frameQueue)
    {
      dataForWriting, writeOffset, finishedWriting, finSent := [], 0, false, false;
      frameQueue := new Sorter.StreamFrameSorter();
      readOffset, finishedReading := 0, false;
    }

    /** Takes at most `maxBytes` of the pending bytes. */
    method GetDataForWriting(maxBytes: nat) returns (data: seq<Byte>)
      modifies this`dataForWriting, this`writeOffset
      ensures data + dataForWriting == old(dataForWriting)
      ensures |data| == Min(maxBytes, |old(dataForWriting)|)
      ensures writeOffset == old(writeOffset) + |data|
    {
      if |dataForWriting| > maxBytes {
        data := dataForWriting[..maxBytes];
        dataForWriting := dataForWriting[maxBytes..];
      } else {
        data := dataForWriting;
        dataForWriting := [];
      }
      writeOffset := writeOffset + |data|;
    }

    /** The framer's visit of a stream that may send `maxLen` bytes. */
    method PopFrame(id: nat, maxLen: nat) returns (frame: Option<Frame>)
      modifies this`dataForWriting, this`writeOffset, this`finSent
      ensures (Send(), frame) == NextFrame(old(Send()), id, maxLen)
    {
      if maxLen == 0 {
        return None;
      }
      var offset := writeOffset;
      var data := [];
      if dataForWriting != [] {
        data := GetDataForWriting(maxLen);
      }
      var shouldSendFin := finishedWriting && !finSent && dataForWriting == [];
      if data == [] && !shouldSendFin {
        return None;
      }
      if shouldSendFin {
        finSent := true;
      }
      frame := Some(Frame(id, offset, data, shouldSendFin, true));
    }

    /** Hands a received frame to the sorter; a duplicate is not an error. */
    method AddStreamFrame(frame: Frame) returns (r: Sorter.Result)
      requires RecvOk(Recv())
      requires frame.End() <= MAX_BYTE_COUNT
      modifies frameQueue
      ensures Sorter.PushSpec(old(frameQueue.View()), frame, r, frameQueue.View())
    {
      r := frameQueue.Push(frame);
    }

    /** One round of the copy loop of `Read`. */
    method ReadHead(frame: Frame, room: nat) returns (chunk: seq<Byte>)
      requires RecvOk(Recv()) && Sorter.Head(Recv().sorter) == Some(frame)
      modifies this`readOffset, this`finishedReading, frameQueue
      ensures (Recv(), chunk) == ReadRound(old(Recv()), room)
    {
      var pos := readOffset - frame.offset;
      var m := Min(room, |frame.data| - pos);
      chunk := frame.data[pos..pos + m];
      readOffset := readOffset + m;
      if pos + m == |frame.data| {
        var _ := frameQueue.Pop();
        if frame.fin {
          finishedReading := true;
        }
      }
    }

    /** A round of the copy loop, after `out` was read since state `r0`. */
    method ReadMore(cap: nat, out: seq<Byte>, ghost r0: RecvState) returns (more: seq<Byte>, stop: bool)
      requires |out| < cap && !finishedReading && Reading(r0, cap, out, Recv())
      modifies this`readOffset, this`finishedReading, frameQueue
      ensures stop ==> ReadSpec(r0, cap, more, Recv())
      ensures !stop ==> |out| < |more| && !finishedReading && Reading(r0, cap, more, Recv())
    {
      ghost var r1 := Recv();
      var head := Sorter.Head(frameQueue.View());
      if head.None? {
        StopsAtMissingByte(r1);
        return out, true;
      }
      ReadRoundReads(r1, cap - |out|);
      var chunk := ReadHead(head.value, cap - |out|);
      ReadsOn(r0, cap, out, r1, chunk, Recv(), head.value);
      more, stop := out + chunk, finishedReading;
    }

    /** Copies received bytes in order until the buffer of size `cap` is full. */
    method Read(cap: nat) returns (out: seq<Byte>)
      requires RecvOk(Recv())
      modifies this`readOffset, this`finishedReading, frameQueue
      ensures ReadSpec(old(Recv()), cap, out, Recv())
    {
      out := [];
      if finishedReading {
        return;
      }
      ghost var r0 := Recv();
      var stop := false;
      while |out| < cap && !stop
        invariant if stop then ReadSpec(r0, cap, out, Recv()) else !finishedReading && Reading(r0, cap, out, Recv())
        decreases !stop, cap - |out|
      {
        out, stop := ReadMore(cap, out, r0);
      }
    }
  }
}
