/** End-to-end delivery of one stream over a network that loses, reorders and
    duplicates frames, and a sender that splits frames when it retransmits them. */
module Delivery {
  import opened Frames
  import opened Options
  import opened Stream
  import Sorter

  /** `network` holds every frame of which a copy may still exist: in flight, in the
      packet history or in a retransmission queue. Frames are never taken out of it, so a
      frame may be delivered many times or never. `delivered` is the concatenation of all
      bytes that `Read` returned, `arrived` the set of frames handed to the sorter. */
  datatype System = System(
    written: seq<Byte>,
    send: SendState,
    network: set<Frame>,
    recv: RecvState,
    delivered: seq<Byte>,
    arrived: set<Frame>)

  datatype Step =
    | Write(bytes: seq<Byte>)
    | Close
    | Emit(maxLen: nat)
    | Split(frame: Frame, n: nat)
    | Deliver(frame: Frame)
    | Read(cap: nat)

  const INITIAL := System([], SEND_INITIAL, {}, RECV_INITIAL, [], {})

  /** The bytes that frames have taken so far. */
  function Sent(s: System): seq<Byte>
    requires s.send.writeOffset <= |s.written|
  {
    s.written[..s.send.writeOffset]
  }

  /** Some frame that carries byte `x` has reached the receiver. */
  ghost predicate HasArrived(s: System, x: nat) {
    exists f | f in s.arrived :: f.offset <= x < f.End()
  }

  /** A `Write` that gave up at its deadline leaves bytes behind; the next `Write`
      replaces them, so they were never written. */
  ghost predicate Next(id: nat, s: System, step: Step, s': System) {
    match step
    case Write(bytes) =>
      && !s.send.closed
      && bytes != [] && s.send.writeOffset + |bytes| < MAX_BYTE_COUNT
      && s.send.writeOffset <= |s.written|
      && s' == s.(written := Sent(s) + bytes, send := s.send.(pending := bytes))
    case Close =>
      s' == s.(send := s.send.(closed := true))
    case Emit(maxLen) =>
      var (send', frame) := NextFrame(s.send, id, maxLen);
      frame.Some? && s' == s.(send := send', network := s.network + {frame.value})
    case Split(f, n) =>
      && f in s.network && 0 < n < |f.data|
      && s' == s.(network := s.network + {SplitHead(f, n), SplitTail(f, n)})
    case Deliver(f) =>
      && f in s.network
      && s'.recv.readOffset == s.recv.readOffset && s'.recv.eof == s.recv.eof
      && |s.recv.sorter.gaps| > 0
      && (|| Sorter.PushSpec(s.recv.sorter, f, Sorter.Ok, s'.recv.sorter)
          || Sorter.PushSpec(s.recv.sorter, f, Sorter.Duplicate, s'.recv.sorter))
      && s' == s.(recv := s'.recv, arrived := s.arrived + {f})
    case Read(cap) =>
      exists out ::
        && ReadSpec(s.recv, cap, out, s'.recv)
        && s' == s.(recv := s'.recv, delivered := s.delivered + out)
  }

  ghost predicate IsRun(id: nat, run: seq<System>, steps: seq<Step>) {
    && |run| == |steps| + 1
    && run[0] == INITIAL
    && forall i | 0 <= i < |steps| :: Next(id, run[i], steps[i], run[i + 1])
  }

  // ---------------------------------------------------------------------------
  // Invariant
  // ---------------------------------------------------------------------------

  ghost predicate SendOk(s: System) {
    && s.send.writeOffset + |s.send.pending| == |s.written| < MAX_BYTE_COUNT
    && s.send.pending == s.written[s.send.writeOffset..]
  }

  /** Frames carry sent bytes, and only the end of the finished stream carries a FIN. */
  ghost predicate NetworkOk(s: System)
    requires SendOk(s)
  {
    forall f | f in s.network ::
      && Carries(f, Sent(s))
      && (f.data == [] ==> f.fin)
      && (f.fin ==> s.send.closed && s.send.pending == [] && f.End() == |s.written|)
  }

  ghost predicate QueueOk(s: System)
    requires SendOk(s)
  {
    && QueueCarries(s.recv.sorter.queue, Sent(s))
    && forall k | k in s.recv.sorter.queue && s.recv.sorter.queue[k].fin ::
         && s.send.closed && s.send.pending == []
         && (s.recv.sorter.queue[k].data == [] ==> k == |s.written|)
  }

  ghost predicate ArrivedOk(s: System) {
    && s.arrived <= s.network
    && forall x: nat :: Sorter.Missing(s.recv.sorter.gaps, x) <==> !HasArrived(s, x) && x < MAX_BYTE_COUNT
  }

  ghost predicate Inv(s: System) {
    && SendOk(s)
    && NetworkOk(s)
    && RecvOk(s.recv)
    && QueueOk(s)
    && ArrivedOk(s)
    && s.recv.readOffset <= s.send.writeOffset
    && s.delivered == s.written[..s.recv.readOffset]
  }

  lemma InitialInv()
    ensures Inv(INITIAL)
  {
    assert Sorter.RunStart(0, Sorter.INITIAL.gaps, 0) == 0;
    forall x: nat
      ensures Sorter.Missing(Sorter.INITIAL.gaps, x) <==> x < MAX_BYTE_COUNT
    {
      assert Sorter.INITIAL.gaps[0] == Sorter.Interval(0, MAX_BYTE_COUNT);
    }
  }

  /** Bytes that were sent stay as they are, so that nothing changes for the frames. */
  ghost predicate SendsOn(s: System, s': System) {
    && SendOk(s) && SendOk(s')
    && Sent(s) <= Sent(s')
    && s'.recv == s.recv && s'.delivered == s.delivered && s'.arrived == s.arrived
  }

  lemma SendingKeepsQueue(s: System, s': System)
    requires SendsOn(s, s') && QueueOk(s)
    requires s'.send.closed == s.send.closed
    requires s.send.closed && s.send.pending == [] ==> s'.send.pending == [] && |s'.written| == |s.written|
    ensures QueueOk(s')
  {
    forall k | k in s.recv.sorter.queue
      ensures Carries(s.recv.sorter.queue[k], Sent(s'))
    {
      assert Carries(s.recv.sorter.queue[k], Sent(s));
    }
  }

  lemma SendingKeepsRest(s: System, s': System)
    requires SendsOn(s, s') && s.arrived <= s.network <= s'.network && ArrivedOk(s)
    requires s.recv.readOffset <= s.send.writeOffset && s.delivered == s.written[..s.recv.readOffset]
    ensures ArrivedOk(s')
    ensures s'.recv.readOffset <= s'.send.writeOffset && s'.delivered == s'.written[..s'.recv.readOffset]
  {
    assert forall x :: HasArrived(s', x) <==> HasArrived(s, x);
    assert Sent(s)[..s.recv.readOffset] == Sent(s')[..s.recv.readOffset];
    assert Sent(s)[..s.recv.readOffset] == s.written[..s.recv.readOffset];
    assert Sent(s')[..s.recv.readOffset] == s'.written[..s.recv.readOffset];
  }

  lemma WriteKeepsInv(id: nat, s: System, step: Step, s': System)
    requires Inv(s) && step.Write? && Next(id, s, step, s')
    ensures Inv(s')
  {
    assert Sent(s') == Sent(s);
    SendingKeepsQueue(s, s');
    SendingKeepsRest(s, s');
  }

  lemma EmitTakesPending(id: nat, s: System, step: Step, s': System)
    requires SendOk(s) && step.Emit? && Next(id, s, step, s')
    ensures SendOk(s') && Sent(s) <= Sent(s')
    ensures
      var f := NextFrame(s.send, id, step.maxLen).1.value;
      && Carries(f, Sent(s')) && (f.data == [] ==> f.fin)
      && (f.fin ==> s'.send.closed && s'.send.pending == [] && f.End() == |s'.written|)
  {
  }

  lemma EmitKeepsNetwork(id: nat, s: System, step: Step, s': System)
    requires SendOk(s) && NetworkOk(s) && step.Emit? && Next(id, s, step, s')
    ensures SendOk(s') && NetworkOk(s')
  {
    EmitTakesPending(id, s, step, s');
    forall f | f in s.network
      ensures Carries(f, Sent(s'))
    {
      assert Carries(f, Sent(s));
    }
  }

  lemma EmitKeepsInv(id: nat, s: System, step: Step, s': System)
    requires Inv(s) && step.Emit? && Next(id, s, step, s')
    ensures Inv(s')
  {
    EmitKeepsNetwork(id, s, step, s');
    EmitTakesPending(id, s, step, s');
    SendingKeepsQueue(s, s');
    SendingKeepsRest(s, s');
  }

  lemma SplitKeepsNetwork(s: System, f: Frame, n: nat, s': System)
    requires SendOk(s) && NetworkOk(s) && f in s.network && 0 < n < |f.data|
    requires s' == s.(network := s.network + {SplitHead(f, n), SplitTail(f, n)})
    ensures SendOk(s') && NetworkOk(s')
  {
    assert Sent(s') == Sent(s);
    SliceCarries(SplitHead(f, n), f, Sent(s));
    SliceCarries(SplitTail(f, n), f, Sent(s));
  }

  lemma SplitKeepsInv(id: nat, s: System, step: Step, s': System)
    requires Inv(s) && step.Split? && Next(id, s, step, s')
    ensures Inv(s')
  {
    SplitKeepsNetwork(s, step.frame, step.n, s');
    SendingKeepsQueue(s, s');
    SendingKeepsRest(s, s');
  }

  lemma ReadDelivers(s: System, out: seq<Byte>, r': RecvState)
    requires SendOk(s) && QueueCarries(s.recv.sorter.queue, Sent(s)) && ReadFrom(s.recv, out, r')
    requires s.recv.readOffset <= s.send.writeOffset && s.delivered == s.written[..s.recv.readOffset]
    ensures r'.readOffset <= s.send.writeOffset && s.delivered + out == s.written[..r'.readOffset]
  {
    assert BytesAt(Sent(s), s.recv.readOffset, out);
  }

  lemma ReadKeepsRest(s: System, out: seq<Byte>, s': System)
    requires SendOk(s) && NetworkOk(s) && QueueOk(s) && ArrivedOk(s) && ReadFrom(s.recv, out, s'.recv)
    requires s' == s.(recv := s'.recv, delivered := s'.delivered)
    ensures SendOk(s') && NetworkOk(s') && QueueOk(s') && ArrivedOk(s')
  {
    assert Sent(s') == Sent(s);
    assert forall x :: HasArrived(s', x) <==> HasArrived(s, x);
  }

  lemma ReadKeepsInv(id: nat, s: System, step: Step, s': System)
    requires Inv(s) && step.Read? && Next(id, s, step, s')
    ensures Inv(s')
  {
    var out :| ReadSpec(s.recv, step.cap, out, s'.recv) && s' == s.(recv := s'.recv, delivered := s.delivered + out);
    if s.recv.eof {
      assert s' == s;
    } else {
      ReadDelivers(s, out, s'.recv);
      ReadKeepsRest(s, out, s');
    }
  }

  lemma PushKeepsRecvOk(r: RecvState, f: Frame, sorter': Sorter.State)
    requires RecvOk(r) && f.data != [] && f.End() < MAX_BYTE_COUNT
    requires Sorter.Pushed(r.sorter, f, Sorter.Ok, sorter')
    ensures RecvOk(r.(sorter := sorter'))
  {
    var s := r.sorter;
    if r.readOffset != s.readPos {
      Sorter.HeadHoldsNextByte(s);
      assert s.gaps[0].start != s.readPos;
      assert Sorter.Chain(s.queue, Sorter.RunStart(s.readPos, s.gaps, 0), s.gaps[0].start);
      Sorter.ChainBounds(s.queue, s.readPos, s.gaps[0].start);
    }
  }

  lemma OnChainIsQueued(queue: map<nat, Frame>, lo: nat, hi: nat, k: nat)
    requires Sorter.Chain(queue, lo, hi) && Sorter.OnChain(queue, lo, hi, k)
    ensures k in queue && queue[k].data != []
    decreases hi - lo
  {
    if k != lo {
      OnChainIsQueued(queue, lo + |queue[lo].data|, hi, k);
    }
  }

  /** The empty FIN lies behind every queued byte, so it hides none. */
  lemma FinKeepsRecvOk(s: System, f: Frame)
    requires Inv(s) && f in s.network && f.data == []
    ensures RecvOk(s.recv.(sorter := s.recv.sorter.(queue := s.recv.sorter.queue[f.offset := f])))
  {
    var t := s.recv.sorter;
    forall i | 0 <= i < |t.gaps|
      ensures !Sorter.OnChain(t.queue, Sorter.RunStart(t.readPos, t.gaps, i), t.gaps[i].start, f.offset)
    {
      if Sorter.OnChain(t.queue, Sorter.RunStart(t.readPos, t.gaps, i), t.gaps[i].start, f.offset) {
        OnChainIsQueued(t.queue, Sorter.RunStart(t.readPos, t.gaps, i), t.gaps[i].start, f.offset);
      }
    }
    Sorter.EmptyFinKeepsValid(t, f);
  }

  lemma DeliverKeepsArrived(id: nat, s: System, step: Step, s': System)
    requires Inv(s) && step.Deliver? && Next(id, s, step, s')
    ensures ArrivedOk(s')
  {
    var f := step.frame;
    forall x: nat
      ensures HasArrived(s', x) <==> HasArrived(s, x) || f.offset <= x < f.End()
    {
      if f.offset <= x < f.End() { assert f in s'.arrived; }
      if HasArrived(s, x) {
        var g :| g in s.arrived && g.offset <= x < g.End();
        assert g in s'.arrived;
      }
    }
  }

  /** What is claimed of a queued frame with key `k`. */
  predicate QueuedOk(s: System, k: nat, g: Frame)
    requires SendOk(s)
  {
    && Carries(g, Sent(s))
    && (g.fin ==> s.send.closed && s.send.pending == [] && (g.data == [] ==> k == |s.written|))
  }

  lemma FromQueueIsOk(s: System, f: Frame, queue': map<nat, Frame>, k: nat)
    requires SendOk(s) && NetworkOk(s) && QueueOk(s) && f in s.network
    requires Sorter.FromQueueOr(s.recv.sorter.queue, f, queue') && k in queue'
    ensures QueuedOk(s, k, queue'[k])
  {
    var q := s.recv.sorter.queue;
    if k in q && queue'[k] == q[k] {
      assert Carries(q[k], Sent(s));
    } else {
      assert IsSlice(queue'[k], f) && queue'[k].data != [] && queue'[k].fin == f.fin;
      SliceCarries(queue'[k], f, Sent(s));
    }
  }

  lemma PushKeepsQueue(s: System, f: Frame, r: Sorter.Result, sorter': Sorter.State)
    requires SendOk(s) && NetworkOk(s) && QueueOk(s) && f in s.network
    requires |s.recv.sorter.gaps| > 0 && r in {Sorter.Ok, Sorter.Duplicate}
    requires Sorter.PushSpec(s.recv.sorter, f, r, sorter')
    ensures forall k | k in sorter'.queue :: QueuedOk(s, k, sorter'.queue[k])
  {
    var q, q' := s.recv.sorter.queue, sorter'.queue;
    assert Sorter.FromQueueOr(q, f, q') || q' == q[f.offset := f] || q' == q;
    forall k | k in q'
      ensures QueuedOk(s, k, q'[k])
    {
      if Sorter.FromQueueOr(q, f, q') {
        FromQueueIsOk(s, f, q', k);
      } else {
        assert Carries(f, Sent(s)) && (k in q ==> Carries(q[k], Sent(s)));
      }
    }
  }

  lemma DeliverKeepsQueue(id: nat, s: System, step: Step, s': System)
    requires Inv(s) && step.Deliver? && Next(id, s, step, s')
    ensures SendOk(s') && QueueOk(s')
  {
    assert Sent(s') == Sent(s);
    var r := if Sorter.PushSpec(s.recv.sorter, step.frame, Sorter.Ok, s'.recv.sorter) then Sorter.Ok else Sorter.Duplicate;
    PushKeepsQueue(s, step.frame, r, s'.recv.sorter);
  }

  lemma DeliverKeepsRecvOk(id: nat, s: System, step: Step, s': System)
    requires Inv(s) && step.Deliver? && Next(id, s, step, s')
    ensures RecvOk(s'.recv)
  {
    if step.frame.data == [] {
      FinKeepsRecvOk(s, step.frame);
    } else if s'.recv.sorter != s.recv.sorter {
      PushKeepsRecvOk(s.recv, step.frame, s'.recv.sorter);
    }
  }

  lemma DeliverKeepsInv(id: nat, s: System, step: Step, s': System)
    requires Inv(s) && step.Deliver? && Next(id, s, step, s')
    ensures Inv(s')
  {
    DeliverKeepsArrived(id, s, step, s');
    DeliverKeepsQueue(id, s, step, s');
    DeliverKeepsRecvOk(id, s, step, s');
  }

  lemma NextKeepsInv(id: nat, s: System, step: Step, s': System)
    requires Inv(s) && Next(id, s, step, s')
    ensures Inv(s')
  {
    match step
    case Write(_) => WriteKeepsInv(id, s, step, s');
    case Close => assert forall x :: HasArrived(s', x) <==> HasArrived(s, x);
    case Emit(_) => EmitKeepsInv(id, s, step, s');
    case Split(_, _) => SplitKeepsInv(id, s, step, s');
    case Deliver(_) => DeliverKeepsInv(id, s, step, s');
    case Read(_) => ReadKeepsInv(id, s, step, s');
  }

  lemma {:induction false} RunInv(id: nat, run: seq<System>, steps: seq<Step>, i: nat)
    requires IsRun(id, run, steps) && i < |run|
    ensures Inv(run[i])
  {
    if i == 0 {
      InitialInv();
    } else {
      RunInv(id, run, steps, i - 1);
      NextKeepsInv(id, run[i - 1], steps[i - 1], run[i]);
    }
  }

  // ---------------------------------------------------------------------------
  // Main results
  // ---------------------------------------------------------------------------

  /** In every run, the bytes that were read are a prefix of the bytes that were written. */
  lemma ReadsArePrefixOfWrites(id: nat, run: seq<System>, steps: seq<Step>, i: nat)
    requires IsRun(id, run, steps) && i < |run|
    ensures run[i].delivered <= run[i].written
  {
    RunInv(id, run, steps, i);
  }

  /** In every run, `Read` hands out the received bytes without holding any back: unless
      the stream ends, it fills the buffer or stops at a byte that has not arrived. A
      stream that the sender has not closed never ends. */
  lemma ReadReturnsWhatArrived(id: nat, run: seq<System>, steps: seq<Step>, i: nat)
    requires IsRun(id, run, steps) && i < |steps| && steps[i].Read?
    requires !run[i].recv.eof
    ensures
      var before, after := run[i], run[i + 1];
      && before.delivered <= after.delivered
      && (|| |after.delivered| == |before.delivered| + steps[i].cap
          || !HasArrived(after, |after.delivered|)
          || after.recv.eof)
      && (after.recv.eof ==> after.send.closed)
  {
    RunInv(id, run, steps, i);
    RunInv(id, run, steps, i + 1);
    assert Next(id, run[i], steps[i], run[i + 1]);
  }

  /** In every run, a frame with data is queued for reading exactly when the next unread
      byte has arrived. */
  lemma HeadIsNextByte(id: nat, run: seq<System>, steps: seq<Step>, i: nat)
    requires IsRun(id, run, steps) && i < |run|
    ensures
      var s := run[i];
      && Sorter.Valid(s.recv.sorter)
      && (HasArrived(s, |s.delivered|)
          <==> exists f :: Sorter.Head(s.recv.sorter) == Some(f) && f.data != [] && f.offset <= |s.delivered| < f.End())
  {
    RunInv(id, run, steps, i);
    var s := run[i];
    assert |s.delivered| == s.recv.readOffset;
    Sorter.HeadHoldsNextByte(s.recv.sorter);
    var head := Sorter.Head(s.recv.sorter);
    if head.Some? {
      assert s.recv.sorter.queue[s.recv.sorter.readPos] == head.value;
      assert Sorter.Covered(s.recv.sorter.gaps, head.value.offset, head.value.End());
    }
  }
}
