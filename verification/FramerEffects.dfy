/** What a visit of a stream is for: which bytes it sends, when it sends none, and what is
    booked for them. */
module FramerEffects {
  import opened Numbers
  import opened Frames
  import opened Options
  import opened Stream
  import opened Framer
  import Flow = FlowControl

  /** The stream has no volume left on this path, and more to send than now fits. */
  predicate MustWait(x: Sending, id: nat, fits: nat, mode: Mode)
    requires id in x.sends
  {
    mode.MultiPath? && VolumeOf(x.volumes, id) <= 0.0 && |x.sends[id].pending| >= fits
  }

  /** The frame of `n` bytes is sent: the bytes leave the stream, are counted against the
      windows and the path's volume, and a window that they use up is reported. */
  predicate IsSent(x: Sending, id: nat, n: nat, fin: bool, mode: Mode, x': Sending)
    requires id in x.sends && n <= |x.sends[id].pending|
  {
    var s := x.sends[id];
    && x'.sends == x.sends[id := SendState(s.pending[n..], s.writeOffset + n, s.closed, s.finSent || fin)]
    && x'.flow == Flow.AfterSend(x.flow, id, n).0
    && x'.volumes == (if mode.AnyPath? then x.volumes else x.volumes[id := VolumeOf(x.volumes, id) - n as real])
    && x'.blocked == x.blocked + (if Flow.Available(x'.flow.conn) == 0 then [0]
                                  else if !fin && n == WindowOf(x.flow, id) then [id] else [])
  }

  /** With `len` bytes for data, a stream with data sends as much as these and the windows
      allow, unless it must wait; without data it sends at most its FIN. */
  predicate TakeEffect(x: Sending, id: nat, len: nat, mode: Mode, x': Sending, fs: seq<Frame>)
    requires id in x.sends
  {
    var s, fits := x.sends[id], Min(len, WindowOf(x.flow, id));
    var n := Min(fits, |s.pending|);
    var fin := s.closed && !s.finSent && n == |s.pending|;
    var sends := if s.pending == [] then fin && len > 0 else fits > 0 && !MustWait(x, id, fits, mode);
    if sends then
      fs == [Frame(id, s.writeOffset, s.pending[..n], fin, true)] && IsSent(x, id, n, fin, mode, x')
    else x' == x && fs == []
  }

  /** A stream whose header does not fit ends the round, and so does a full packet. */
  predicate VisitEffect(x: Sending, id: nat, room: nat, mode: Mode, x': Sending, fs: seq<Frame>, go: bool) {
    if id == 1 || id !in x.sends then x' == x && fs == [] && go
    else
      var header := HeaderLen(Frame(id, x.sends[id].writeOffset, [], false, true));
      if header > room then x' == x && fs == [] && !go
      else
        && TakeEffect(x, id, room - header, mode, x', fs)
        && (go <==> fs == [] || header + |fs[0].data| < room)
  }

  lemma SendsAllowed(x: Sending, id: nat, n: nat, allowed: nat, mode: Mode)
    requires id in x.sends && allowed > 0 && n == Min(allowed, |x.sends[id].pending|)
    requires Allowance(x, id, allowed, mode) == allowed
          || (x.sends[id].pending != [] && allowed <= WindowOf(x.flow, id))
    ensures
      var s := x.sends[id];
      var fin := s.closed && !s.finSent && n == |s.pending|;
      var (send', frame) := NextFrame(s, id, allowed);
      if n == 0 && !fin then frame == None
      else
        && frame == Some(Frame(id, s.writeOffset, s.pending[..n], fin, true))
        && IsSent(x, id, n, fin, mode,
                  Accounted(x.(sends := x.sends[id := send']), frame.value, WindowOf(x.flow, id), mode))
  {
  }

  lemma DataHasEffect(x: Sending, id: nat, len: nat, mode: Mode)
    requires id in x.sends && x.sends[id].pending != []
    ensures
      var (x', fs) := Taken(x, id, len, mode);
      TakeEffect(x, id, len, mode, x', fs)
  {
    var fits := Min(len, WindowOf(x.flow, id));
    if fits > 0 && !MustWait(x, id, fits, mode) {
      SendsAllowed(x, id, Min(fits, |x.sends[id].pending|), fits, mode);
      assert Allowance(x, id, len, mode) == fits;
    }
  }

  lemma FinHasEffect(x: Sending, id: nat, len: nat, mode: Mode)
    requires id in x.sends && x.sends[id].pending == []
    ensures
      var (x', fs) := Taken(x, id, len, mode);
      TakeEffect(x, id, len, mode, x', fs)
  {
    if len > 0 {
      SendsAllowed(x, id, 0, len, mode);
    }
  }

  lemma OneFrame(f: Frame)
    ensures TotalLen([f]) == HeaderLen(f) + |f.data|
  {
    assert [f][1..] == [];
  }

  /** A visit does what it is for. */
  lemma VisitHasEffect(x: Sending, id: nat, room: nat, mode: Mode)
    ensures
      var (x', fs, go) := Visited(x, id, room, mode);
      VisitEffect(x, id, room, mode, x', fs, go)
  {
    if id != 1 && id in x.sends && NewHeaderLen(x.sends[id], id) <= room {
      var len := room - NewHeaderLen(x.sends[id], id);
      if x.sends[id].pending == [] {
        FinHasEffect(x, id, len, mode);
      } else {
        DataHasEffect(x, id, len, mode);
      }
      var fs := Taken(x, id, len, mode).1;
      if fs != [] {
        OneFrame(fs[0]);
      }
    }
  }

  /** A stream with data, open windows and room behind its header sends all that these allow;
      with several paths exactly if it has volume left or all its data fits. */
  lemma VolumeSteers(x: Sending, id: nat, room: nat, mode: Mode, x': Sending, fs: seq<Frame>, go: bool)
    requires VisitEffect(x, id, room, mode, x', fs, go) && id != 1 && id in x.sends && x.sends[id].pending != []
    requires WindowOf(x.flow, id) > 0 && room > HeaderLen(Frame(id, x.sends[id].writeOffset, [], false, true))
    ensures
      var pending := x.sends[id].pending;
      var fits := Min(room - HeaderLen(Frame(id, x.sends[id].writeOffset, [], false, true)), WindowOf(x.flow, id));
      && (fs != [] <==> mode.MultiPath? ==> VolumeOf(x.volumes, id) > 0.0 || |pending| < fits)
      && (fs != [] ==>
            && |fs| == 1 && fs[0].data == pending[..Min(fits, |pending|)]
            && (!mode.AnyPath? ==>
                  VolumeOf(x'.volumes, id) == VolumeOf(x.volumes, id) - |fs[0].data| as real))
      && (fs == [] ==> x' == x)
  {
  }

  // ---------------------------------------------------------------------------
  // Rounds
  // ---------------------------------------------------------------------------

  /** Stream `id` has nothing that it may send on this path. */
  predicate IsIdle(x: Sending, id: nat, mode: Mode) {
    || id == 1 || id !in x.sends
    || x.sends[id].pending == []
    || WindowOf(x.flow, id) == 0
    || (mode.MultiPath? && VolumeOf(x.volumes, id) <= 0.0)
  }

  /** There is no room for more than the header of another frame of stream `id`. */
  predicate IsFull(x: Sending, id: nat, room: nat) {
    room == 0 || (id in x.sends && HeaderLen(Frame(id, x.sends[id].writeOffset, [], false, true)) >= room)
  }

  lemma WindowShrinks(m: Flow.Manager, id: nat, n: nat, other: nat)
    ensures
      var m' := Flow.AfterSend(m, id, n).0;
      && WindowOf(m', other) <= WindowOf(m, other)
      && (n <= WindowOf(m, id) ==> WindowOf(m', id) == WindowOf(m, id) - n)
  {
  }

  /** A visit that lets the round go on leaves its stream idle, or full. */
  lemma VisitSettles(x: Sending, id: nat, room: nat, mode: Mode, x': Sending, fs: seq<Frame>)
    requires VisitEffect(x, id, room, mode, x', fs, true)
    ensures TotalLen(fs) <= room && (IsIdle(x', id, mode) || IsFull(x', id, room - TotalLen(fs)))
  {
    if fs != [] {
      OneFrame(fs[0]);
      WindowShrinks(x.flow, id, |fs[0].data|, id);
    }
  }

  lemma IdleStays(x: Sending, id: nat, room: nat, mode: Mode, x': Sending, fs: seq<Frame>, go: bool, other: nat)
    requires VisitEffect(x, id, room, mode, x', fs, go) && IsIdle(x, other, mode)
    ensures IsIdle(x', other, mode)
  {
    if fs != [] {
      WindowShrinks(x.flow, id, |fs[0].data|, other);
    }
  }

  lemma FullStays(x: Sending, id: nat, room: nat, mode: Mode, x': Sending, fs: seq<Frame>, go: bool, other: nat)
    requires VisitEffect(x, id, room, mode, x', fs, go) && IsFull(x, other, room) && TotalLen(fs) <= room
    ensures IsFull(x', other, room - TotalLen(fs))
  {
  }

  /** A visit that ends the round has found no room, or has used it up. */
  lemma VisitFills(x: Sending, id: nat, room: nat, mode: Mode, x': Sending, fs: seq<Frame>)
    requires VisitEffect(x, id, room, mode, x', fs, false)
    ensures TotalLen(fs) <= room && IsFull(x', id, room - TotalLen(fs))
  {
    if fs != [] {
      OneFrame(fs[0]);
    }
  }

  /** None of the streams has something that it may send, or there is no room for one. */
  ghost predicate IsSettled(x: Sending, ids: seq<nat>, room: nat, mode: Mode) {
    (forall id | id in ids :: IsIdle(x, id, mode)) || exists id | id in ids :: IsFull(x, id, room)
  }

  lemma OneMoreSettled(x: Sending, done: seq<nat>, id: nat, room: nat, mode: Mode,
                       x': Sending, fs: seq<Frame>, go: bool)
    requires IsSettled(x, done, room, mode) && VisitEffect(x, id, room, mode, x', fs, go)
    ensures TotalLen(fs) <= room && IsSettled(x', done + [id], room - TotalLen(fs), mode)
  {
    if go {
      VisitSettles(x, id, room, mode, x', fs);
    } else {
      VisitFills(x, id, room, mode, x', fs);
    }
    if full :| full in done && IsFull(x, full, room) {
      FullStays(x, id, room, mode, x', fs, go, full);
      SettledMore(x', done, [id], full, room - TotalLen(fs), mode);
    } else if IsFull(x', id, room - TotalLen(fs)) {
      assert id in done + [id];
    } else {
      AllIdleStay(x, done, id, room, mode, x', fs, go);
    }
  }

  lemma AllIdleStay(x: Sending, done: seq<nat>, id: nat, room: nat, mode: Mode, x': Sending, fs: seq<Frame>, go: bool)
    requires (forall other | other in done :: IsIdle(x, other, mode)) && VisitEffect(x, id, room, mode, x', fs, go)
    requires IsIdle(x', id, mode)
    ensures forall other | other in done + [id] :: IsIdle(x', other, mode)
  {
    forall other | other in done
      ensures IsIdle(x', other, mode)
    {
      IdleStays(x, id, room, mode, x', fs, go, other);
    }
  }

  lemma VisitSettlesOne(visit: Callback, x: Sending, done: seq<nat>, id: nat, room: nat, mode: Mode,
                        x': Sending, fs: seq<Frame>, go: bool)
    requires Specifies(visit, mode) && visit(x, id, room) == (x', fs, go) && IsSettled(x, done, room, mode)
    ensures TotalLen(fs) <= room && IsSettled(x', done + [id], room - TotalLen(fs), mode)
    ensures !go ==> IsFull(x', id, room - TotalLen(fs))
  {
    assert visit(x, id, room) == Visited(x, id, room, mode);
    VisitHasEffect(x, id, room, mode);
    OneMoreSettled(x, done, id, room, mode, x', fs, go);
    if !go {
      VisitFills(x, id, room, mode, x', fs);
    }
  }

  lemma SettledMore(x: Sending, ids: seq<nat>, more: seq<nat>, id: nat, room: nat, mode: Mode)
    requires id in ids && IsFull(x, id, room)
    ensures IsSettled(x, ids + more, room, mode)
  {
    assert id in ids + more;
  }

  lemma {:induction false} RoundSettles(visit: Callback, x: Sending, order: seq<nat>, room: nat, mode: Mode,
                                        done: seq<nat>, r: (Sending, seq<Frame>))
    requires Specifies(visit, mode) && IsSettled(x, done, room, mode) && r == Round(visit, x, order, room)
    ensures TotalLen(r.1) <= room && IsSettled(r.0, done + order, room - TotalLen(r.1), mode)
    decreases order
  {
    if order == [] {
      assert done + order == done;
    } else {
      var id := order[0];
      var (x1, fs, go) := visit(x, id, room);
      VisitSettlesOne(visit, x, done, id, room, mode, x1, fs, go);
      var r1 := Round(visit, x1, order[1..], room - TotalLen(fs));
      RoundStep(visit, x, order, room, x1, fs, go, r1);
      assert done + [id] + order[1..] == done + order;
      if go {
        RoundSettles(visit, x1, order[1..], room - TotalLen(fs), mode, done + [id], r1);
        TotalLenConcat(fs, r1.1);
      } else {
        SettledMore(x1, done + [id], order[1..], id, room - TotalLen(fs), mode);
      }
    }
  }

  /** A round leaves none of its streams with something that it may send, unless there is no
      room for one of them. */
  lemma RoundUsesRoom(x: Sending, order: seq<nat>, room: nat, mode: Mode, r: (Sending, seq<Frame>))
    requires r == Round(VisitWith(mode), x, order, room)
    ensures TotalLen(r.1) <= room && IsSettled(r.0, order, room - TotalLen(r.1), mode)
  {
    CallbackIsSpecified(VisitWith(mode), mode);
    RoundSettles(VisitWith(mode), x, order, room, mode, [], r);
    assert [] + order == order;
  }

  lemma PoppedAllIs(sel: Selection, room: nat, queue: seq<Frame>, visit: Callback, x: Sending, order: seq<nat>,
                    again: seq<Frame>, r: (Sending, seq<Frame>), all: (seq<Frame>, seq<Frame>, Sending))
    requires again == Popped(sel, room, queue).0 && TotalLen(again) <= room
    requires r == Round(visit, x, order, room - TotalLen(again))
    requires all == PoppedAll(sel, room, queue, visit, x, order)
    ensures all.0 == again + r.1 && all.2 == r.0
  {
  }

  lemma PoppedRoom(sel: Selection, room: nat, queue: seq<Frame>) returns (again: seq<Frame>)
    ensures again == Popped(sel, room, queue).0 && TotalLen(again) <= room
  {
    PoppingFits(sel, room, queue);
    again := Popped(sel, room, queue).0;
  }

  /** Retransmissions and new data together use the room: no stream is left with something
      that it may send, unless there is no room for one of them. */
  lemma AllFramesUseRoom(sel: Selection, room: nat, queue: seq<Frame>, x: Sending, order: seq<nat>, mode: Mode,
                         all: (seq<Frame>, seq<Frame>, Sending))
    requires all == PoppedAll(sel, room, queue, VisitWith(mode), x, order)
    ensures TotalLen(all.0) <= room && IsSettled(all.2, order, room - TotalLen(all.0), mode)
  {
    var again := PoppedRoom(sel, room, queue);
    var r := Round(VisitWith(mode), x, order, room - TotalLen(again));
    PoppedAllIs(sel, room, queue, VisitWith(mode), x, order, again, r, all);
    RoundUsesRoom(x, order, room - TotalLen(again), mode, r);
    TotalLenConcat(again, r.1);
  }
}
