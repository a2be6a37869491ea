/** By when packets are acknowledged. */
module AckTiming {
  import opened Options
  import opened AckFrames
  import opened AckReceiver

  /** Step `k` records a packet that asks for an ACK. */
  predicate Asks(run: seq<Receiver>, steps: seq<Step>, k: nat)
    requires |run| == |steps| + 1 && k < |steps|
  {
    steps[k].Receive? && steps[k].p > 0 && Records(run, steps, k, steps[k].p) && steps[k].instigate
  }

  /** None of the steps from `k` up to `i` sends an ACK. */
  predicate NoAck(steps: seq<Step>, k: nat, i: nat)
    requires i <= |steps|
  {
    forall l | k <= l < i :: !steps[l].Ack?
  }

  predicate ClockAscends(steps: seq<Step>) {
    forall a, b | 0 <= a < b < |steps| && steps[a].Receive? && steps[b].Receive? :: steps[a].now <= steps[b].now
  }

  /** The alarm was set by one of the first `i` steps. */
  ghost predicate AlarmOk(r: Receiver, steps: seq<Step>, i: nat)
    requires i <= |steps|
  {
    r.alarm.Some? ==> exists a | 0 <= a < i :: steps[a].Receive? && r.alarm.value == steps[a].now + ACK_SEND_DELAY
  }

  lemma {:induction false} AlarmsAreSet(run: seq<Receiver>, steps: seq<Step>, i: nat)
    requires IsRun(run, steps) && run[0].alarm == None && i < |run|
    ensures AlarmOk(run[i], steps, i)
  {
    if i > 0 {
      AlarmsAreSet(run, steps, i - 1);
      assert Next(run[i - 1], steps[i - 1], run[i]);
      if run[i].alarm.Some? && run[i].alarm != run[i - 1].alarm {
        assert steps[i - 1].Receive? && run[i].alarm.value == steps[i - 1].now + ACK_SEND_DELAY;
      }
    }
  }

  /** An ACK is due at time `t` at the latest. */
  predicate DueBy(r: Receiver, t: int) {
    r.ackQueued || (r.alarm.Some? && r.alarm.value <= t)
  }

  lemma {:induction false} DueStays(run: seq<Receiver>, steps: seq<Step>, k: nat, i: nat, t: int)
    requires IsRun(run, steps) && k <= i < |run| && NoAck(steps, k, i) && DueBy(run[k], t)
    ensures DueBy(run[i], t) && (run[k].ackQueued ==> run[i].ackQueued)
  {
    if k < i {
      DueStays(run, steps, k, i - 1, t);
      assert Next(run[i - 1], steps[i - 1], run[i]);
      assert !steps[i - 1].Ack?;
    }
  }

  /** In every run, a packet that asks for an ACK and is recorded is acknowledged 25
      milliseconds later at the latest: until an ACK is sent, one is due from then on. */
  lemma AckIsDueInTime(run: seq<Receiver>, steps: seq<Step>, k: nat, i: nat, now: int)
    requires IsRun(run, steps) && run[0].alarm == None && ClockAscends(steps)
    requires k < i < |run| && Asks(run, steps, k) && NoAck(steps, k + 1, i)
    requires now >= steps[k].now + ACK_SEND_DELAY
    ensures AckDue(run[i], now)
  {
    AlarmsAreSet(run, steps, k);
    assert Next(run[k], steps[k], run[k + 1]);
    if run[k].alarm.Some? {
      var a :| 0 <= a < k && steps[a].Receive? && run[k].alarm.value == steps[a].now + ACK_SEND_DELAY;
      assert steps[a].now <= steps[k].now;
    }
    DueStays(run, steps, k + 1, i, steps[k].now + ACK_SEND_DELAY);
  }

  lemma {:induction false} CountStays(run: seq<Receiver>, steps: seq<Step>, k: nat, i: nat)
    requires IsRun(run, steps) && k <= i < |run| && NoAck(steps, k, i)
    ensures run[k].retransmittableSinceAck <= run[i].retransmittableSinceAck
  {
    if k < i {
      CountStays(run, steps, k, i - 1);
      assert Next(run[i - 1], steps[i - 1], run[i]);
      assert !steps[i - 1].Ack?;
    }
  }

  /** In every run, the second packet that asks for an ACK makes one due at once. */
  lemma TwoAreEnough(run: seq<Receiver>, steps: seq<Step>, j: nat, k: nat, i: nat, now: int)
    requires IsRun(run, steps) && j < k < i < |run|
    requires Asks(run, steps, j) && Asks(run, steps, k) && NoAck(steps, j + 1, i)
    ensures AckDue(run[i], now)
  {
    assert Next(run[j], steps[j], run[j + 1]) && Next(run[k], steps[k], run[k + 1]);
    CountStays(run, steps, j + 1, k);
    DueStays(run, steps, k + 1, i, now);
  }

  /** How many packets the steps from `j` up to `i` record. */
  function Recorded(run: seq<Receiver>, steps: seq<Step>, j: nat, i: nat): nat
    requires |run| == |steps| + 1 && i <= |steps|
  {
    if i <= j then 0
    else
      var step := steps[i - 1];
      Recorded(run, steps, j, i - 1)
      + if step.Receive? && step.p > 0 && Records(run, steps, i - 1, step.p) then 1 else 0
  }

  lemma {:induction false} RecordedAreCounted(run: seq<Receiver>, steps: seq<Step>, j: nat, i: nat)
    requires IsRun(run, steps) && i < |run| && NoAck(steps, j, i)
    ensures Recorded(run, steps, j, i) <= run[i].sinceAck
    ensures run[i].before39 == run[0].before39
  {
    if i > 0 {
      assert Next(run[i - 1], steps[i - 1], run[i]);
      RecordedAreCounted(run, steps, j, i - 1);
      if j < i {
        assert !steps[i - 1].Ack?;
      }
    }
  }

  /** In every run of a version before 39, twenty packets make an ACK due at once. */
  lemma {:induction false} TwentyAreEnough(run: seq<Receiver>, steps: seq<Step>, j: nat, i: nat, now: int)
    requires IsRun(run, steps) && i < |run| && NoAck(steps, j, i) && run[0].before39
    requires Recorded(run, steps, j, i) >= 20
    ensures run[i].ackQueued && AckDue(run[i], now)
  {
    assert Next(run[i - 1], steps[i - 1], run[i]);
    RecordedAreCounted(run, steps, j, i - 1);
    if Recorded(run, steps, j, i - 1) >= 20 {
      TwentyAreEnough(run, steps, j, i - 1, now);
      DueStays(run, steps, i - 1, i, now);
    }
  }

  /** The first packet, one that was reported missing, and one that leaves a hole make an ACK
      due at once. */
  lemma NewsAreDueAtOnce(run: seq<Receiver>, steps: seq<Step>, k: nat, now: int)
    requires IsRun(run, steps) && k < |steps| && steps[k].Receive? && steps[k].p > 0
    requires Records(run, steps, k, steps[k].p)
    requires
      run[k].lastAck.Some? && run[k].lastAck.value.largest <= steps[k].p ==>
        run[k + 1].ranges != [] && run[k + 1].ranges[|run[k + 1].ranges| - 1].start > run[k].lastAck.value.largest
    requires run[k].lastAck.Some? ==> run[k].lastAck.value.largest != steps[k].p
    ensures AckDue(run[k + 1], now)
  {
    assert Next(run[k], steps[k], run[k + 1]);
  }

  /** An ACK is due only if a packet was recorded since the last one, or at the start. */
  lemma {:induction false} DueOnlyIfReceived(run: seq<Receiver>, steps: seq<Step>, j: nat, i: nat, now: int)
    requires IsRun(run, steps) && j < i < |run| && steps[j].Ack? && AckDue(run[i], now)
    ensures exists k | j < k < i :: steps[k].Receive? && Records(run, steps, k, steps[k].p)
  {
    assert Next(run[i - 1], steps[i - 1], run[i]);
    if i == j + 1 {
      assert false;
    } else if !(steps[i - 1].Receive? && Records(run, steps, i - 1, steps[i - 1].p)) {
      assert !steps[i - 1].Ack?;
      DueOnlyIfReceived(run, steps, j, i - 1, now);
    }
  }

  /** Step `k` records a packet that asks for an ACK, that the last ACK reported missing or
      that leaves a hole above it. */
  predicate IsReason(run: seq<Receiver>, steps: seq<Step>, k: nat)
    requires |run| == |steps| + 1 && k < |steps|
  {
    && steps[k].Receive? && steps[k].p > 0 && Records(run, steps, k, steps[k].p)
    && (|| steps[k].instigate
        || run[k].lastAck.None?
        || steps[k].p < run[k].lastAck.value.largest
        || Highest(run[k + 1].ranges).start > run[k].lastAck.value.largest)
  }

  ghost predicate NoReason(run: seq<Receiver>, steps: seq<Step>, j: nat, i: nat)
    requires |run| == |steps| + 1 && i <= |steps|
  {
    forall k | j <= k < i :: !IsReason(run, steps, k)
  }

  lemma {:induction false} NothingPending(run: seq<Receiver>, steps: seq<Step>, j: nat, i: nat)
    requires IsRun(run, steps) && !run[0].before39 && j < i < |run| && steps[j].Ack? && NoReason(run, steps, j + 1, i)
    ensures !run[i].ackQueued && run[i].alarm.None? && run[i].lastAck.Some?
  {
    assert Next(run[i - 1], steps[i - 1], run[i]);
    RecordedAreCounted(run, steps, i - 1, i - 1);
    if i > j + 1 {
      NothingPending(run, steps, j, i - 1);
      assert !IsReason(run, steps, i - 1);
    }
  }

  /** In every run from version 39 on, once an ACK was sent another is due, at any time, only
      after a packet that asks for one, was reported missing or leaves a hole. */
  lemma DueOnlyWithReason(run: seq<Receiver>, steps: seq<Step>, j: nat, i: nat, now: int)
    requires IsRun(run, steps) && !run[0].before39 && j < i < |run| && steps[j].Ack? && AckDue(run[i], now)
    ensures exists k | j < k < i :: IsReason(run, steps, k)
  {
    if NoReason(run, steps, j + 1, i) {
      NothingPending(run, steps, j, i);
    }
  }
}
