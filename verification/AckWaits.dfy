/** What a sender no longer waits for: a packet that is queued for retransmission will get a
    new number, so that STOP_WAITING may announce a number above its old one. */
module AckWaits {
  import opened Numbers
  import opened Options
  import opened AckFrames
  import opened AckSender

  /** `next'` is the least number from `next` on that is above the numbers of `ps`. */
  ghost predicate IsAbove(next: nat, ps: seq<Packet>, next': nat) {
    && next <= next'
    && (forall p | p in ps :: p.number < next')
    && (next' == next || exists p | p in ps :: next' == p.number + 1)
  }

  lemma AboveBoth(next: nat, ps: seq<Packet>, next1: nat, qs: seq<Packet>, next2: nat)
    requires IsAbove(next, ps, next1) && IsAbove(next1, qs, next2)
    ensures IsAbove(next, ps + qs, next2)
  {
    if next2 != next {
      if p :| p in qs && next2 == p.number + 1 {
        assert p in ps + qs;
      } else {
        var p :| p in ps && next1 == p.number + 1;
        assert p in ps + qs;
      }
    }
  }

  lemma {:induction false} RaisedIsAbove(next: nat, ps: seq<Packet>)
    ensures IsAbove(next, ps, RaisedBy(next, ps))
  {
    if ps != [] {
      var n := |ps| - 1;
      RaisedIsAbove(next, ps[..n]);
      assert IsAbove(RaisedBy(next, ps[..n]), [ps[n]], RaisedBy(next, ps)) by {
        assert ps[n] in [ps[n]];
      }
      AboveBoth(next, ps[..n], RaisedBy(next, ps[..n]), [ps[n]], RaisedBy(next, ps));
      assert ps[..n] + [ps[n]] == ps;
    }
  }

  /** From `s` to `s'` the packets `ps` were queued, and no more is waited for than that. */
  ghost predicate WaitsFor(s: Sender, ps: seq<Packet>, s': Sender) {
    s'.queue == s.queue + ps && IsAbove(s.nextLeastUnacked, ps, s'.nextLeastUnacked)
  }

  lemma RequeueWaits(s: Sender, t: Test)
    ensures WaitsFor(s, Part(s.history, t), Requeue(s, t))
  {
    RaisedIsAbove(s.nextLeastUnacked, Part(s.history, t));
  }

  lemma WaitsForBoth(s: Sender, ps: seq<Packet>, s1: Sender, qs: seq<Packet>, s2: Sender)
    requires WaitsFor(s, ps, s1) && WaitsFor(s1, qs, s2)
    ensures WaitsFor(s, ps + qs, s2)
  {
    AboveBoth(s.nextLeastUnacked, ps, s1.nextLeastUnacked, qs, s2.nextLeastUnacked);
  }

  lemma OldestWaits(s: Sender) returns (ps: seq<Packet>)
    ensures WaitsFor(s, ps, OldestLost(s))
  {
    if s.history == [] {
      ps := [];
    } else {
      ps := Part(s.history, Number(s.history[0].number));
      RequeueWaits(s, Number(s.history[0].number));
    }
  }

  /** An alarm stops waiting for exactly the packets that it queues. */
  lemma AlarmWaits(s: Sender, now: int, delay: int, failed: bool) returns (ps: seq<Packet>)
    ensures WaitsFor(s, ps, AfterAlarm(s, now, delay, failed))
  {
    if s.history == [] {
      ps := [];
    } else if s.lossTime.Some? {
      ps := Part(s.history, Overdue(s.largestAcked, now, delay));
      RequeueWaits(s, Overdue(s.largestAcked, now, delay));
    } else if s.tlpCount < MAX_TAIL_LOSS_PROBES {
      ps := Part(s.history, Number(s.history[|s.history| - 1].number));
      RequeueWaits(s, Number(s.history[|s.history| - 1].number));
    } else if failed {
      ps := Part(s.history, Everything);
      RequeueWaits(s, Everything);
    } else {
      var first := OldestWaits(s);
      var second := OldestWaits(OldestLost(s));
      WaitsForBoth(s, first, OldestLost(s), second, OldestLost(OldestLost(s)));
      ps := first + second;
    }
  }

  /** So does a CLOSE_PATH. */
  lemma ClosePathWaits(s: Sender, f: AckFrame, carrier: nat) returns (ps: seq<Packet>)
    ensures WaitsFor(s, ps, AfterClosePath(s, f, carrier).0)
  {
    var (s', r) := AfterClosePath(s, f, carrier);
    if r.Handled? {
      var s1 := Acknowledge(s.(largestWithAck := carrier), f);
      ps := Part(s1.history, UpTo(s1.largestAcked));
      RequeueWaits(s1, UpTo(s1.largestAcked));
    } else {
      ps := [];
    }
  }

  /** Packets are retransmitted in the order in which they were queued. */
  lemma DequeueIsFirst(s: Sender)
    ensures
      var (s', p) := AfterDequeue(s);
      && (p == None <==> s.queue == [])
      && (p.Some? ==> s.queue == [p.value] + s'.queue)
      && s' == s.(queue := s'.queue)
  {
  }
}
