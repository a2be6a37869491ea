/** The stream framer: it fills packets with STREAM frames, first with frames that wait
    for retransmission and then with new data of the streams. */
module Framer {
  import opened Numbers
  import opened Frames
  import opened Options
  import opened Stream
  import Flow = FlowControl

  // ---------------------------------------------------------------------------
  // Frame lengths
  // ---------------------------------------------------------------------------

  function StreamIdLen(id: nat): nat {
    if id < 0x100 then 1 else if id < 0x1_0000 then 2 else if id < 0x100_0000 then 3 else 4
  }

  function OffsetLen(offset: nat): nat {
    if offset == 0 then 0
    else if offset < 0x1_0000 then 2
    else if offset < 0x100_0000 then 3
    else if offset < 0x1_0000_0000 then 4
    else if offset < 0x100_0000_0000 then 5
    else if offset < 0x1_0000_0000_0000 then 6
    else if offset < 0x100_0000_0000_0000 then 7
    else 8
  }

  /** Everything but the data. */
  function HeaderLen(f: Frame): nat {
    1 + StreamIdLen(f.stream) + OffsetLen(f.offset) + if f.lenPresent then 2 else 0
  }

  function FrameLen(f: Frame): nat {
    HeaderLen(f) + |f.data|
  }

  function TotalLen(fs: seq<Frame>): nat {
    if fs == [] then 0 else FrameLen(fs[0]) + TotalLen(fs[1..])
  }

  lemma {:induction false} TotalLenConcat(a: seq<Frame>, b: seq<Frame>)
    ensures TotalLen(a + b) == TotalLen(a) + TotalLen(b)
  {
    if a == [] {
      assert a + b == b;
    } else {
      assert (a + b)[1..] == a[1..] + b;
      TotalLenConcat(a[1..], b);
    }
  }

  /** A frame that may be written: an empty one must end its stream. */
  predicate Sendable(f: Frame) {
    f.data != [] || f.fin
  }

  predicate AllSendable(fs: seq<Frame>) {
    fs == [] || (Sendable(fs[0]) && AllSendable(fs[1..]))
  }

  /** What the framer hands to the packer: the length is written in every frame. */
  predicate AllReady(fs: seq<Frame>) {
    fs == [] || (fs[0].lenPresent && Sendable(fs[0]) && AllReady(fs[1..]))
  }

  lemma {:induction false} AllReadyConcat(a: seq<Frame>, b: seq<Frame>)
    ensures AllReady(a + b) <==> AllReady(a) && AllReady(b)
  {
    if a == [] {
      assert a + b == b;
    } else {
      assert (a + b)[1..] == a[1..] + b;
      AllReadyConcat(a[1..], b);
    }
  }

  predicate Fits(fs: seq<Frame>, room: nat) {
    TotalLen(fs) <= room && AllReady(fs)
  }

  lemma FitsConcat(a: seq<Frame>, b: seq<Frame>, room: nat)
    requires Fits(a, room) && Fits(b, room - TotalLen(a))
    ensures Fits(a + b, room)
  {
    TotalLenConcat(a, b);
    AllReadyConcat(a, b);
  }

  // ---------------------------------------------------------------------------
  // What frames carry
  // ---------------------------------------------------------------------------

  datatype Item = ByteAt(stream: nat, offset: nat, byte: Byte) | FinAt(stream: nat, offset: nat)

  /** Whether frame `f` carries `item`. */
  predicate Holds(f: Frame, item: Item) {
    match item
    case ByteAt(stream, offset, byte) =>
      f.stream == stream && f.offset <= offset < f.End() && f.data[offset - f.offset] == byte
    case FinAt(stream, offset) =>
      f.stream == stream && f.fin && f.End() == offset
  }

  /** How many times `fs` carries `item`. */
  function Copies(fs: seq<Frame>, item: Item): nat {
    if fs == [] then 0 else (if Holds(fs[0], item) then 1 else 0) + Copies(fs[1..], item)
  }

  // ---------------------------------------------------------------------------
  // Retransmission
  // ---------------------------------------------------------------------------

  /** Whose frames to retransmit: every stream's, those of a path's streams or of one. */
  datatype Selection = AllStreams | OfPath(streamIDs: seq<nat>) | OfOneStream(id: nat) {
    predicate Has(f: Frame) {
      match this
      case AllStreams => true
      case OfPath(ids) => f.stream in ids
      case OfOneStream(i) => f.stream == i
    }
  }

  /** The frames that a packet with `room` bytes takes from the queue, and the queue
      that remains. Taking stops at the first selected frame that does not fit whole; if
      its header and some of its data fit, it is split. */
  function Popped(sel: Selection, room: nat, queue: seq<Frame>): (seq<Frame>, seq<Frame>) {
    if queue == [] then ([], [])
    else if !sel.Has(queue[0]) then
      var (res, rest) := Popped(sel, room, queue[1..]);
      (res, [queue[0]] + rest)
    else
      var f := queue[0].(lenPresent := true);
      if HeaderLen(f) >= room then ([], [f] + queue[1..])
      else
        var n := room - HeaderLen(f);
        if n < |f.data| then ([SplitHead(f, n)], [SplitTail(f, n)] + queue[1..])
        else
          var (res, rest) := Popped(sel, n - |f.data|, queue[1..]);
          ([f] + res, rest)
  }

  /** The queued frames of the other streams. */
  function Others(sel: Selection, queue: seq<Frame>): seq<Frame> {
    if queue == [] then []
    else if sel.Has(queue[0]) then Others(sel, queue[1..])
    else [queue[0]] + Others(sel, queue[1..])
  }

  /** The first queued frame that is selected. */
  function FirstOf(sel: Selection, queue: seq<Frame>): Option<Frame> {
    if queue == [] then None
    else if sel.Has(queue[0]) then Some(queue[0])
    else FirstOf(sel, queue[1..])
  }

  lemma SplitHolds(f: Frame, n: nat, item: Item)
    requires n <= |f.data|
    ensures Holds(f, item) <==> Holds(SplitHead(f, n), item) || Holds(SplitTail(f, n), item)
    ensures !(Holds(SplitHead(f, n), item) && Holds(SplitTail(f, n), item))
  {
  }

  lemma CopiesOfMore(f: Frame, fs: seq<Frame>, item: Item)
    ensures Copies([f] + fs, item) == (if Holds(f, item) then 1 else 0) + Copies(fs, item)
  {
    assert ([f] + fs)[1..] == fs;
  }

  /** No byte and no FIN is lost, duplicated or moved. */
  lemma {:induction false} PoppingConserves(sel: Selection, room: nat, queue: seq<Frame>, item: Item)
    ensures
      var (res, rest) := Popped(sel, room, queue);
      Copies(res, item) + Copies(rest, item) == Copies(queue, item)
  {
    if queue == [] {
    } else if !sel.Has(queue[0]) {
      PoppingConserves(sel, room, queue[1..], item);
      CopiesOfMore(queue[0], Popped(sel, room, queue[1..]).1, item);
    } else {
      var f := queue[0].(lenPresent := true);
      assert Holds(f, item) == Holds(queue[0], item);
      if HeaderLen(f) >= room {
        CopiesOfMore(f, queue[1..], item);
      } else if room - HeaderLen(f) < |f.data| {
        SplitConserves(f, room - HeaderLen(f), queue[1..], item);
      } else {
        PoppingConserves(sel, room - FrameLen(f), queue[1..], item);
        CopiesOfMore(f, Popped(sel, room - FrameLen(f), queue[1..]).0, item);
      }
    }
  }

  lemma SplitConserves(f: Frame, n: nat, fs: seq<Frame>, item: Item)
    requires n <= |f.data|
    ensures Copies([SplitHead(f, n)], item) + Copies([SplitTail(f, n)] + fs, item)
         == (if Holds(f, item) then 1 else 0) + Copies(fs, item)
  {
    SplitHolds(f, n, item);
    CopiesOfMore(SplitHead(f, n), [], item);
    CopiesOfMore(SplitTail(f, n), fs, item);
    assert [SplitHead(f, n)] + [] == [SplitHead(f, n)];
  }

  /** The frames of other streams stay as and where they are. */
  lemma {:induction false} PoppingKeepsOthers(sel: Selection, room: nat, queue: seq<Frame>)
    ensures Others(sel, Popped(sel, room, queue).1) == Others(sel, queue)
    ensures forall f | f in Popped(sel, room, queue).0 :: sel.Has(f)
  {
    if queue == [] {
    } else if !sel.Has(queue[0]) {
      PoppingKeepsOthers(sel, room, queue[1..]);
    } else {
      var f := queue[0].(lenPresent := true);
      if HeaderLen(f) < room && room - HeaderLen(f) >= |f.data| {
        PoppingKeepsOthers(sel, room - FrameLen(f), queue[1..]);
      }
    }
  }

  /** The frames fit, and room that could take another selected frame is not left over. */
  lemma {:induction false} PoppingFits(sel: Selection, room: nat, queue: seq<Frame>)
    ensures
      var (res, rest) := Popped(sel, room, queue);
      && TotalLen(res) <= room
      && (FirstOf(sel, rest).Some? ==>
            TotalLen(res) + HeaderLen(FirstOf(sel, rest).value.(lenPresent := true)) >= room)
  {
    if queue == [] {
    } else if !sel.Has(queue[0]) {
      PoppingFits(sel, room, queue[1..]);
    } else {
      var f := queue[0].(lenPresent := true);
      if HeaderLen(f) < room && room - HeaderLen(f) >= |f.data| {
        PoppingFits(sel, room - FrameLen(f), queue[1..]);
      }
    }
  }

  /** Popped frames can be written if queued ones can. */
  lemma {:induction false} PoppingKeepsSendable(sel: Selection, room: nat, queue: seq<Frame>)
    requires AllSendable(queue)
    ensures AllReady(Popped(sel, room, queue).0)
    ensures AllSendable(Popped(sel, room, queue).1)
  {
    if queue == [] {
    } else if !sel.Has(queue[0]) {
      PoppingKeepsSendable(sel, room, queue[1..]);
    } else {
      var f := queue[0].(lenPresent := true);
      if HeaderLen(f) < room && room - HeaderLen(f) >= |f.data| {
        PoppingKeepsSendable(sel, room - FrameLen(f), queue[1..]);
      }
    }
  }

  // ---------------------------------------------------------------------------
  // New data
  // ---------------------------------------------------------------------------

  /** What a visit of a stream reads and writes: the flow controllers, the streams'
      sending halves, the stream ids to report as blocked (0 is the connection) and what
      each stream may still send on the path at hand. */
  datatype Sending = Sending(
    flow: Flow.Manager,
    sends: map<nat, SendState>,
    blocked: seq<nat>,
    volumes: map<nat, real>)

  /** Streams send on any path, or on the path at hand under one of the two schedulers that
      assign streams to paths. */
  datatype Mode = AnyPath | SinglePath | MultiPath

  function VolumeOf(volumes: map<nat, real>, id: nat): real {
    if id in volumes then volumes[id] else 0.0
  }

  function WindowOf(m: Flow.Manager, id: nat): nat {
    if id in m.streams then Flow.StreamAvailable(m, id) else 0
  }

  function NewHeaderLen(s: SendState, id: nat): nat {
    HeaderLen(Frame(id, s.writeOffset, [], false, true))
  }

  /** How much data a frame of stream `id` may hold if it has room for `maxLen` bytes.
      With several paths, a stream whose volume on this path is used up must wait, unless
      all that it has left is less than a frame. */
  function Allowance(x: Sending, id: nat, maxLen: nat, mode: Mode): nat
    requires id in x.sends
  {
    var pending := |x.sends[id].pending|;
    if pending == 0 then maxLen
    else
      var n := Min(maxLen, WindowOf(x.flow, id));
      if mode.MultiPath? && VolumeOf(x.volumes, id) <= 0.0 && pending >= n then 0 else n
  }

  /** Accounts for `f`, and reports a window that it closes. */
  function Accounted(x: Sending, f: Frame, window: nat, mode: Mode): Sending {
    var flow' := Flow.AfterSend(x.flow, f.stream, |f.data|).0;
    x.(flow := flow',
       blocked :=
         if Flow.Available(flow'.conn) == 0 then x.blocked + [0]
         else if !f.fin && window == |f.data| then x.blocked + [f.stream]
         else x.blocked,
       volumes :=
         if mode.AnyPath? then x.volumes
         else x.volumes[f.stream := VolumeOf(x.volumes, f.stream) - |f.data| as real])
  }

  /** A stream gets at most one frame. */
  function Taken(x: Sending, id: nat, maxLen: nat, mode: Mode): (Sending, seq<Frame>)
    requires id in x.sends
  {
    var (send', frame) := NextFrame(x.sends[id], id, Allowance(x, id, maxLen, mode));
    if frame.None? then (x, [])
    else (Accounted(x.(sends := x.sends[id := send']), frame.value, WindowOf(x.flow, id), mode), [frame.value])
  }

  /** One visit, in `room` bytes; the last result says whether to go on. The crypto stream
      is left alone. A stream whose header does not fit ends the round. */
  function Visited(x: Sending, id: nat, room: nat, mode: Mode): (r: (Sending, seq<Frame>, bool))
    ensures Fits(r.1, room)
  {
    if id == 1 || id !in x.sends then (x, [], true)
    else
      var header := NewHeaderLen(x.sends[id], id);
      if header > room then (x, [], false)
      else
        var (x', fs) := Taken(x, id, room - header, mode);
        assert fs != [] ==> fs[1..] == [] && FrameLen(fs[0]) == header + |fs[0].data|;
        (x', fs, fs == [] || TotalLen(fs) < room)
  }

  /** The callback of a round over the streams. */
  type Callback = (Sending, nat, nat) -> (Sending, seq<Frame>, bool)

  function VisitWith(mode: Mode): Callback {
    (x: Sending, id: nat, room: nat) => Visited(x, id, room, mode)
  }

  /** `visit` is the callback's specification; the trigger keeps its definition out of
      proofs about rounds. */
  ghost predicate Specifies(visit: Callback, mode: Mode) {
    forall x: Sending, id: nat, room: nat {:trigger Visited(x, id, room, mode)} ::
      visit(x, id, room) == Visited(x, id, room, mode)
  }

  /** There is such a callback, and only one. */
  lemma CallbackIsSpecified(visit: Callback, mode: Mode)
    ensures Specifies(VisitWith(mode), mode)
    ensures Specifies(visit, mode) ==> forall x, id: nat, room: nat :: visit(x, id, room) == VisitWith(mode)(x, id, room)
  {
    if Specifies(visit, mode) {
      forall x: Sending, id: nat, room: nat
        ensures visit(x, id, room) == VisitWith(mode)(x, id, room)
      {
        assert visit(x, id, room) == Visited(x, id, room, mode);
      }
    }
  }

  lemma SpecifiedVisitsFit(visit: Callback, mode: Mode)
    requires Specifies(visit, mode)
    ensures forall x, id, room: nat :: Fits(visit(x, id, room).1, room)
  {
    forall x, id: nat, room: nat
      ensures Fits(visit(x, id, room).1, room)
    {
      assert visit(x, id, room) == Visited(x, id, room, mode);
    }
  }

  /** The frames of a round over the streams in `order`, in at most `room` bytes. */
  function Round(visit: Callback, x: Sending, order: seq<nat>, room: nat): (Sending, seq<Frame>)
    decreases order
  {
    if order == [] then (x, [])
    else
      var (x1, fs, go) := visit(x, order[0], room);
      if !go || TotalLen(fs) > room then (x1, fs)
      else
        var (x2, gs) := Round(visit, x1, order[1..], room - TotalLen(fs));
        (x2, fs + gs)
  }

  /** The new frames fit and can be written. */
  lemma {:induction false} RoundFits(visit: Callback, x: Sending, order: seq<nat>, room: nat)
    requires forall y, id, n: nat :: Fits(visit(y, id, n).1, n)
    ensures Fits(Round(visit, x, order, room).1, room)
    decreases order
  {
    if order != [] {
      var (x1, fs, go) := visit(x, order[0], room);
      if go {
        RoundFits(visit, x1, order[1..], room - TotalLen(fs));
        FitsConcat(fs, Round(visit, x1, order[1..], room - TotalLen(fs)).1, room);
      }
    }
  }

  lemma NewFramesFit(x: Sending, order: seq<nat>, room: nat, mode: Mode)
    ensures Fits(Round(VisitWith(mode), x, order, room).1, room)
  {
    RoundFits(VisitWith(mode), x, order, room);
  }

  /** The data that `fs` carries of stream `id`. */
  function DataOf(fs: seq<Frame>, id: nat): seq<Byte> {
    if fs == [] then []
    else (if fs[0].stream == id then fs[0].data else []) + DataOf(fs[1..], id)
  }

  /** The frames of stream `id` follow each other without a hole, from `offset` on. */
  predicate Consecutive(fs: seq<Frame>, id: nat, offset: nat) {
    if fs == [] then true
    else if fs[0].stream != id then Consecutive(fs[1..], id, offset)
    else fs[0].offset == offset && Consecutive(fs[1..], id, fs[0].End())
  }

  /** Framing moves bytes from a stream's pending data into frames and books them as sent. */
  ghost predicate Took(x: Sending, id: nat, fs: seq<Frame>, x': Sending)
    requires id in x.sends
  {
    && id in x'.sends
    && x.sends[id].pending == DataOf(fs, id) + x'.sends[id].pending
    && x'.sends[id].writeOffset == x.sends[id].writeOffset + |DataOf(fs, id)|
    && Consecutive(fs, id, x.sends[id].writeOffset)
    && (id in x.flow.streams <==> id in x'.flow.streams)
    && (id in x.flow.streams ==>
          x'.flow.streams[id].bytesSent == x.flow.streams[id].bytesSent + |DataOf(fs, id)|)
  }

  lemma TakenTook(x: Sending, taking: nat, maxLen: nat, mode: Mode, id: nat)
    requires taking in x.sends && id in x.sends
    ensures Took(x, id, Taken(x, taking, maxLen, mode).1, Taken(x, taking, maxLen, mode).0)
  {
  }

  lemma VisitTook(x: Sending, visiting: nat, room: nat, mode: Mode, id: nat)
    requires id in x.sends
    ensures Took(x, id, Visited(x, visiting, room, mode).1, Visited(x, visiting, room, mode).0)
  {
    if visiting in x.sends && NewHeaderLen(x.sends[visiting], visiting) <= room {
      TakenTook(x, visiting, room - NewHeaderLen(x.sends[visiting], visiting), mode, id);
    }
  }

  lemma {:induction false} DataOfConcat(a: seq<Frame>, b: seq<Frame>, id: nat, offset: nat)
    requires Consecutive(a, id, offset)
    ensures DataOf(a + b, id) == DataOf(a, id) + DataOf(b, id)
    ensures Consecutive(a + b, id, offset) <==> Consecutive(b, id, offset + |DataOf(a, id)|)
  {
    if a == [] {
      assert a + b == b;
    } else {
      assert (a + b)[1..] == a[1..] + b;
      DataOfConcat(a[1..], b, id, if a[0].stream == id then a[0].End() else offset);
    }
  }

  lemma TookThenTook(x: Sending, id: nat, fs: seq<Frame>, x1: Sending, gs: seq<Frame>, x2: Sending)
    requires id in x.sends && Took(x, id, fs, x1) && Took(x1, id, gs, x2)
    ensures Took(x, id, fs + gs, x2)
  {
    DataOfConcat(fs, gs, id, x.sends[id].writeOffset);
  }

  lemma {:induction false} RoundTook(visit: Callback, x: Sending, order: seq<nat>, room: nat, id: nat)
    requires id in x.sends
    requires forall y: Sending, i, n: nat | id in y.sends :: Took(y, id, visit(y, i, n).1, visit(y, i, n).0)
    ensures Took(x, id, Round(visit, x, order, room).1, Round(visit, x, order, room).0)
    decreases order
  {
    if order != [] {
      var (x1, fs, go) := visit(x, order[0], room);
      if go && TotalLen(fs) <= room {
        var left := room - TotalLen(fs);
        RoundTook(visit, x1, order[1..], left, id);
        var (x2, gs) := Round(visit, x1, order[1..], left);
        TookThenTook(x, id, fs, x1, gs, x2);
      }
    }
  }

  /** Every stream's frames hold the next of its pending bytes, in order, and each byte is
      booked against the stream's window. */
  lemma NewFramesTakePending(x: Sending, order: seq<nat>, room: nat, mode: Mode, id: nat)
    requires id in x.sends
    ensures
      var (x', fs) := Round(VisitWith(mode), x, order, room);
      Took(x, id, fs, x')
  {
    forall y: Sending, i, n: nat | id in y.sends
      ensures Took(y, id, VisitWith(mode)(y, i, n).1, VisitWith(mode)(y, i, n).0)
    {
      VisitTook(y, i, n, mode, id);
    }
    RoundTook(VisitWith(mode), x, order, room, id);
  }

  /** A stream, or the connection if `id` is 0, has sent no more than the peer allows. */
  predicate Within(m: Flow.Manager, id: nat) {
    if id == 0 then m.conn.bytesSent <= Flow.SendWindow(m.conn)
    else id in m.streams ==> m.streams[id].bytesSent <= Flow.SendWindow(m.streams[id])
  }

  lemma TakenStaysWithin(x: Sending, taking: nat, maxLen: nat, mode: Mode, id: nat)
    requires taking in x.sends && Within(x.flow, id)
    ensures Within(Taken(x, taking, maxLen, mode).0.flow, id)
  {
    var frame := NextFrame(x.sends[taking], taking, Allowance(x, taking, maxLen, mode)).1;
    if frame.Some? {
      assert |frame.value.data| <= WindowOf(x.flow, taking);
    }
  }

  lemma VisitStaysWithin(x: Sending, visiting: nat, room: nat, mode: Mode, id: nat)
    requires Within(x.flow, id)
    ensures Within(Visited(x, visiting, room, mode).0.flow, id)
  {
    if visiting in x.sends && NewHeaderLen(x.sends[visiting], visiting) <= room {
      TakenStaysWithin(x, visiting, room - NewHeaderLen(x.sends[visiting], visiting), mode, id);
    }
  }

  lemma {:induction false} RoundStaysWithin(visit: Callback, x: Sending, order: seq<nat>, room: nat, id: nat)
    requires Within(x.flow, id)
    requires forall y: Sending, i, n: nat | Within(y.flow, id) :: Within(visit(y, i, n).0.flow, id)
    ensures Within(Round(visit, x, order, room).0.flow, id)
    decreases order
  {
    if order != [] {
      var (x1, fs, go) := visit(x, order[0], room);
      if go && TotalLen(fs) <= room {
        RoundStaysWithin(visit, x1, order[1..], room - TotalLen(fs), id);
      }
    }
  }

  /** Every stream and the connection stay within their windows. */
  lemma NewFramesStayWithin(x: Sending, order: seq<nat>, room: nat, mode: Mode, id: nat)
    requires Within(x.flow, id)
    ensures Within(Round(VisitWith(mode), x, order, room).0.flow, id)
  {
    forall y: Sending, i, n: nat | Within(y.flow, id)
      ensures Within(VisitWith(mode)(y, i, n).0.flow, id)
    {
      VisitStaysWithin(y, i, n, mode, id);
    }
    RoundStaysWithin(VisitWith(mode), x, order, room, id);
  }

  // ---------------------------------------------------------------------------
  // Both together
  // ---------------------------------------------------------------------------

  /** What goes into `maxLen` bytes: retransmissions, and then new data. */
  function PoppedAll(sel: Selection, maxLen: nat, queue: seq<Frame>, visit: Callback, x: Sending, order: seq<nat>)
    : (seq<Frame>, seq<Frame>, Sending)
  {
    var (again, rest) := Popped(sel, maxLen, queue);
    PoppingFits(sel, maxLen, queue);
    var (x', more) := Round(visit, x, order, maxLen - TotalLen(again));
    (again + more, rest, x')
  }

  /** The packer gets frames that fit and that can be written. */
  lemma AllFramesFit(sel: Selection, maxLen: nat, queue: seq<Frame>, visit: Callback, x: Sending, order: seq<nat>)
    requires AllSendable(queue)
    requires forall y, id, n: nat :: Fits(visit(y, id, n).1, n)
    ensures Fits(PoppedAll(sel, maxLen, queue, visit, x, order).0, maxLen)
    ensures AllSendable(PoppedAll(sel, maxLen, queue, visit, x, order).1)
  {
    var again := Popped(sel, maxLen, queue).0;
    PoppingFits(sel, maxLen, queue);
    PoppingKeepsSendable(sel, maxLen, queue);
    RoundFits(visit, x, order, maxLen - TotalLen(again));
    FitsConcat(again, Round(visit, x, order, maxLen - TotalLen(again)).1, maxLen);
  }

  // ---------------------------------------------------------------------------
  // The framer
  // ---------------------------------------------------------------------------

  /** A walk over the queue has taken `res`, has left `passed` and has `room` bytes for
      frames from `todo`; `all` is what it arrives at. */
  ghost predicate Popping(all: (seq<Frame>, seq<Frame>), sel: Selection,
                          res: seq<Frame>, passed: seq<Frame>, room: nat, todo: seq<Frame>) {
    all.0 == res + Popped(sel, room, todo).0 && all.1 == passed + Popped(sel, room, todo).1
  }

  lemma PoppingSkips(all: (seq<Frame>, seq<Frame>), sel: Selection,
                     res: seq<Frame>, passed: seq<Frame>, room: nat, todo: seq<Frame>)
    requires Popping(all, sel, res, passed, room, todo)
    requires todo != [] && !sel.Has(todo[0])
    ensures Popping(all, sel, res, passed + [todo[0]], room, todo[1..])
  {
  }

  lemma PoppingStarts(all: (seq<Frame>, seq<Frame>), sel: Selection, queue: seq<Frame>, room: nat)
    requires all == Popped(sel, room, queue)
    ensures Popping(all, sel, [], queue[..0], room, queue[0..])
  {
    assert queue[0..] == queue && queue[..0] == [];
    assert [] + all.0 == all.0 && [] + all.1 == all.1;
  }

  lemma PassesOver(all: (seq<Frame>, seq<Frame>), sel: Selection, res: seq<Frame>, queue: seq<Frame>, i: nat, room: nat)
    requires i < |queue| && Popping(all, sel, res, queue[..i], room, queue[i..]) && !sel.Has(queue[i])
    ensures Popping(all, sel, res, queue[..i + 1], room, queue[i + 1..])
  {
    PoppingSkips(all, sel, res, queue[..i], room, queue[i..]);
    assert queue[..i + 1] == queue[..i] + [queue[i]] && queue[i + 1..] == queue[i..][1..];
  }

  lemma PoppingEnds(all: (seq<Frame>, seq<Frame>), sel: Selection, res: seq<Frame>, queue: seq<Frame>, room: nat)
    requires Popping(all, sel, res, queue[..|queue|], room, queue[|queue|..])
    ensures all.0 == res && all.1 == queue
  {
    assert queue[..|queue|] == queue && queue[|queue|..] == [];
    assert res + [] == res && queue + [] == queue;
  }

  lemma PoppingTakes(all: (seq<Frame>, seq<Frame>), sel: Selection,
                     res: seq<Frame>, passed: seq<Frame>, room: nat, todo: seq<Frame>, f: Frame)
    requires Popping(all, sel, res, passed, room, todo)
    requires todo != [] && sel.Has(todo[0]) && f == todo[0].(lenPresent := true)
    requires HeaderLen(f) < room && FrameLen(f) <= room
    ensures Popping(all, sel, res + [f], passed, room - FrameLen(f), todo[1..])
  {
  }

  lemma PoppingStops(all: (seq<Frame>, seq<Frame>), sel: Selection,
                     res: seq<Frame>, passed: seq<Frame>, room: nat, todo: seq<Frame>, f: Frame)
    requires Popping(all, sel, res, passed, room, todo)
    requires todo != [] && sel.Has(todo[0]) && f == todo[0].(lenPresent := true)
    ensures HeaderLen(f) >= room ==> all.0 == res && all.1 == passed + [f] + todo[1..]
    ensures
      HeaderLen(f) < room < FrameLen(f) ==>
        var n := room - HeaderLen(f);
        all.0 == res + [SplitHead(f, n)] && all.1 == passed + [SplitTail(f, n)] + todo[1..]
  {
  }

  /** A round has taken `res` and goes on in state `x`; `all` is what it arrives at. */
  ghost predicate Going(all: (Sending, seq<Frame>), visit: Callback, res: seq<Frame>,
                        x: Sending, todo: seq<nat>, room: nat) {
    var (x', fs) := Round(visit, x, todo, room);
    all.0 == x' && all.1 == res + fs
  }

  lemma RoundGoesOn(all: (Sending, seq<Frame>), visit: Callback, res: seq<Frame>,
                    x: Sending, todo: seq<nat>, room: nat, x': Sending, fs: seq<Frame>, go: bool)
    requires todo != [] && Going(all, visit, res, x, todo, room)
    requires visit(x, todo[0], room) == (x', fs, go) && TotalLen(fs) <= room
    ensures go ==> Going(all, visit, res + fs, x', todo[1..], room - TotalLen(fs))
    ensures !go ==> all.0 == x' && all.1 == res + fs
  {
    var r := Round(visit, x', todo[1..], room - TotalLen(fs));
    RoundStep(visit, x, todo, room, x', fs, go, r);
    assert go ==> all.1 == res + (fs + r.1);
    Regroup(res, fs, r.1);
  }

  lemma Regroup(a: seq<Frame>, b: seq<Frame>, c: seq<Frame>)
    ensures a + (b + c) == a + b + c
  {
  }

  lemma RoundStep(visit: Callback, x: Sending, todo: seq<nat>, room: nat, x': Sending, fs: seq<Frame>, go: bool,
                  r: (Sending, seq<Frame>))
    requires todo != [] && visit(x, todo[0], room) == (x', fs, go) && TotalLen(fs) <= room
    requires r == Round(visit, x', todo[1..], room - TotalLen(fs))
    ensures Round(visit, x, todo, room) == if go then (r.0, fs + r.1) else (x', fs)
  {
  }

  function CryptoHeaderLen(s: SendState): nat {
    HeaderLen(Frame(1, s.writeOffset, [], false, false))
  }

  function AfterCrypto(s: SendState, n: nat): SendState
    requires n <= |s.pending|
  {
    s.(pending := s.pending[n..], writeOffset := s.writeOffset + n)
  }

  /** The flow controllers and the streams' sending halves are held as values here. */
  class StreamFramer {
    var retransmissionQueue: seq<Frame>
    var blockedFrameQueue: seq<nat>
    var flow: Flow.Manager
    var streams: map<nat, SendState>
    var pathVolume: map<nat, real>

    function View(): Sending
      reads this
    {
      Sending(flow, streams, blockedFrameQueue, pathVolume)
    }

    constructor (flow: Flow.Manager, streams: map<nat, SendState>)
      ensures retransmissionQueue == [] && View() == Sending(flow, streams, [], map[])
    {
      retransmissionQueue, blockedFrameQueue := [], [];
      this.flow, this.streams, pathVolume := flow, streams, map[];
    }

    predicate HasCryptoStreamFrame()
      reads this
    {
      1 in streams && streams[1].pending != []
    }

    /** The crypto stream's next bytes, in `maxLen` bytes, without flow control. */
    method PopCryptoStreamFrame(maxLen: nat) returns (frame: Frame)
      requires HasCryptoStreamFrame() && CryptoHeaderLen(streams[1]) <= maxLen
      modifies this`streams
      ensures frame == Frame(1, old(streams)[1].writeOffset, frame.data, false, false)
      ensures FrameLen(frame) <= maxLen && (FrameLen(frame) < maxLen ==> frame.data == old(streams)[1].pending)
      ensures frame.data <= old(streams)[1].pending
      ensures streams == old(streams)[1 := AfterCrypto(old(streams)[1], |frame.data|)]
    {
      var s := streams[1];
      var n := Min(maxLen - CryptoHeaderLen(s), |s.pending|);
      frame := Frame(1, s.writeOffset, s.pending[..n], false, false);
      streams := streams[1 := s.(pending := s.pending[n..], writeOffset := s.writeOffset + n)];
    }

    /** Cuts the first `n` bytes off the queued frame, if it has more. */
    method MaybeSplitOffFrame(i: nat, n: nat) returns (split: Option<Frame>)
      requires i < |retransmissionQueue|
      modifies this`retransmissionQueue
      ensures
        var f := old(retransmissionQueue)[i];
        if n >= |f.data| then split == None && retransmissionQueue == old(retransmissionQueue)
        else split == Some(SplitHead(f, n)) && retransmissionQueue == old(retransmissionQueue)[i := SplitTail(f, n)]
    {
      var frame := retransmissionQueue[i];
      if n >= |frame.data| {
        return None;
      }
      split := Some(frame.(fin := false, data := frame.data[..n]));
      retransmissionQueue := retransmissionQueue[i := frame.(data := frame.data[n..], offset := frame.offset + n)];
    }

    /** Takes the queued frame, or its beginning, into `room` bytes. */
    method TakeFrame(i: nat, room: nat, ghost all: (seq<Frame>, seq<Frame>), ghost sel: Selection, ghost res: seq<Frame>)
      returns (taken: seq<Frame>, stop: bool)
      requires i < |retransmissionQueue| && sel.Has(retransmissionQueue[i])
      requires Popping(all, sel, res, retransmissionQueue[..i], room, retransmissionQueue[i..])
      modifies this`retransmissionQueue
      ensures TotalLen(taken) <= room
      ensures stop ==> all.0 == res + taken && all.1 == retransmissionQueue
      ensures !stop ==>
        && |retransmissionQueue| == |old(retransmissionQueue)| - 1
        && Popping(all, sel, res + taken, retransmissionQueue[..i], room - TotalLen(taken), retransmissionQueue[i..])
    {
      ghost var passed, todo := retransmissionQueue[..i], retransmissionQueue[i..];
      var frame := retransmissionQueue[i].(lenPresent := true);
      retransmissionQueue := retransmissionQueue[i := frame];
      assert retransmissionQueue == passed + [frame] + todo[1..];
      PoppingStops(all, sel, res, passed, room, todo, frame);
      if HeaderLen(frame) >= room {
        return [], true;
      }
      var n := room - HeaderLen(frame);
      var split := MaybeSplitOffFrame(i, n);
      if split.Some? {
        assert retransmissionQueue == passed + [SplitTail(frame, n)] + todo[1..];
        return [split.value], true;
      }
      PoppingTakes(all, sel, res, passed, room, todo, frame);
      retransmissionQueue := retransmissionQueue[..i] + retransmissionQueue[i + 1..];
      assert retransmissionQueue[..i] == passed && retransmissionQueue[i..] == todo[1..];
      return [frame], false;
    }

    /** Passes over the queued frame, or takes it; the index then stays where it is. */
    method PopAt(i: nat, room: nat, ghost all: (seq<Frame>, seq<Frame>), sel: Selection, ghost res: seq<Frame>)
      returns (taken: seq<Frame>, stop: bool, next: nat)
      requires i < |retransmissionQueue|
      requires Popping(all, sel, res, retransmissionQueue[..i], room, retransmissionQueue[i..])
      modifies this`retransmissionQueue
      ensures TotalLen(taken) <= room
      ensures stop ==> all.0 == res + taken && all.1 == retransmissionQueue
      ensures !stop ==>
        && next <= |retransmissionQueue| && |retransmissionQueue| - next == |old(retransmissionQueue)| - i - 1
        && var queue := retransmissionQueue;
           Popping(all, sel, res + taken, queue[..next], room - TotalLen(taken), queue[next..])
    {
      if !sel.Has(retransmissionQueue[i]) {
        PassesOver(all, sel, res, retransmissionQueue, i, room);
        assert res + [] == res;
        return [], false, i + 1;
      }
      taken, stop := TakeFrame(i, room, all, sel, res);
      next := i;
    }

    /** Frames are cut out of the middle of the queue. */
    method MaybePopFramesForRetransmission(sel: Selection, maxLen: nat)
      returns (res: seq<Frame>, currentLen: nat)
      modifies this`retransmissionQueue
      ensures (res, retransmissionQueue) == Popped(sel, maxLen, old(retransmissionQueue))
      ensures currentLen == TotalLen(res) <= maxLen
    {
      ghost var all := Popped(sel, maxLen, retransmissionQueue);
      res, currentLen := [], 0;
      var i: nat := 0;
      PoppingStarts(all, sel, retransmissionQueue, maxLen);
      while i < |retransmissionQueue|
        invariant i <= |retransmissionQueue| && currentLen == TotalLen(res) <= maxLen
        invariant Popping(all, sel, res, retransmissionQueue[..i], maxLen - currentLen, retransmissionQueue[i..])
        decreases |retransmissionQueue| - i
      {
        var taken, stop, next := PopAt(i, maxLen - currentLen, all, sel, res);
        TotalLenConcat(res, taken);
        res, currentLen, i := res + taken, currentLen + TotalLen(taken), next;
        if stop {
          return;
        }
      }
      PoppingEnds(all, sel, res, retransmissionQueue, maxLen - currentLen);
    }

    /** The round's callback: a frame of stream `id` if there is something to send. */
    method VisitStream(id: nat, room: nat, mode: Mode, ghost visit: Callback) returns (fs: seq<Frame>, go: bool)
      requires Specifies(visit, mode)
      modifies this`flow, this`streams, this`blockedFrameQueue, this`pathVolume
      ensures (View(), fs, go) == visit(old(View()), id, room) && TotalLen(fs) <= room
    {
      ghost var spec := Visited(View(), id, room, mode);
      if id == 1 || id !in streams {
        return [], true;
      }
      var header := HeaderLen(Frame(id, streams[id].writeOffset, [], false, true));
      if header > room {
        return [], false;
      }
      var maxLen, window, lenStreamData := room - header, 0, |streams[id].pending|;
      if lenStreamData != 0 {
        window := if id in flow.streams then Flow.StreamAvailable(flow, id) else 0;
        maxLen := Min(maxLen, window);
        if mode.MultiPath? && VolumeOf(pathVolume, id) <= 0.0 && lenStreamData >= maxLen {
          maxLen := 0;
        }
      }
      var (send, frame) := NextFrame(streams[id], id, maxLen);
      if frame.None? {
        return [], true;
      }
      var f := frame.value;
      assert lenStreamData == 0 ==> f.fin;
      streams := streams[id := send];
      Account(f, window, mode);
      fs, go := [f], FrameLen(f) < room;
      assert TotalLen(fs) == FrameLen(f);
    }

    method Account(f: Frame, window: nat, mode: Mode)
      modifies this`flow, this`blockedFrameQueue, this`pathVolume
      ensures View() == Accounted(old(View()), f, window, mode)
    {
      flow := Flow.AfterSend(flow, f.stream, |f.data|).0;
      if Flow.Available(flow.conn) == 0 {
        blockedFrameQueue := blockedFrameQueue + [0];
      } else if !f.fin && window == |f.data| {
        blockedFrameQueue := blockedFrameQueue + [f.stream];
      }
      if !mode.AnyPath? {
        pathVolume := pathVolume[f.stream := VolumeOf(pathVolume, f.stream) - |f.data| as real];
      }
    }

    /** New frames, from the streams in the order of the round. */
    method MaybePopNormalFrames(maxBytes: nat, order: seq<nat>, mode: Mode, ghost visit: Callback)
      returns (res: seq<Frame>)
      requires Specifies(visit, mode)
      modifies this`flow, this`streams, this`blockedFrameQueue, this`pathVolume
      ensures (View(), res) == Round(visit, old(View()), order, maxBytes)
    {
      ghost var all := Round(visit, View(), order, maxBytes);
      res := [];
      var currentLen := 0;
      assert order[0..] == order;
      for i := 0 to |order|
        invariant currentLen <= maxBytes
        invariant Going(all, visit, res, View(), order[i..], maxBytes - currentLen)
      {
        ghost var x := View();
        var fs, go := VisitStream(order[i], maxBytes - currentLen, mode, visit);
        RoundGoesOn(all, visit, res, x, order[i..], maxBytes - currentLen, View(), fs, go);
        assert order[i..][1..] == order[i + 1..];
        res := res + fs;
        if !go {
          return;
        }
        currentLen := currentLen + TotalLen(fs);
      }
      assert all.1 == res;
    }

    /** Fills at most `maxLen` bytes. */
    method PopStreamFrames(sel: Selection, maxLen: nat, order: seq<nat>, mode: Mode, ghost visit: Callback)
      returns (res: seq<Frame>)
      requires Specifies(visit, mode)
      modifies this
      ensures (res, retransmissionQueue, View())
           == PoppedAll(sel, maxLen, old(retransmissionQueue), visit, old(View()), order)
    {
      var currentLen;
      res, currentLen := MaybePopFramesForRetransmission(sel, maxLen);
      var more := MaybePopNormalFrames(maxLen - currentLen, order, mode, visit);
      res := res + more;
    }
  }
}
