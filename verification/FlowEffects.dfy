/** What flow control is for: windows stay open while data is read, updates are announced when
    they are due, the peer is held to its windows and this end can use up its own. */
module FlowEffects {
  import opened Numbers
  import opened Lists
  import opened Options
  import opened FlowControl

  // ---------------------------------------------------------------------------
  // Receiving
  // ---------------------------------------------------------------------------

  /** Less than half of `increment` is left of the window. */
  predicate IsLow(c: Controller, increment: nat) {
    c.receiveWindow - c.bytesRead < increment / 2
  }

  /** The last update was less than two round trips ago. */
  predicate IsSoon(c: Controller, clock: Clock) {
    && c.lastUpdate.Some? && clock.rtt != 0
    && (clock.now - c.lastUpdate.value < 2 * clock.rtt || clock.now - c.lastUpdate.value < 2 * clock.maxRemoteRtt)
  }

  /** A window that runs low is moved to an increment beyond what was read; the increment is
      doubled, up to its maximum, if updates follow each other soon. */
  predicate UpdateEffect(c: Controller, clock: Clock, c': Controller) {
    if !IsLow(c, c.increment) then c' == c
    else
      && c'.increment == (if IsSoon(c, clock) then Min(2 * c.increment, c.maxIncrement) else c.increment)
      && c'.receiveWindow == c.bytesRead + c'.increment > c.receiveWindow
      && c' == c.(increment := c'.increment, receiveWindow := c'.receiveWindow, lastUpdate := Some(clock.now))
  }

  predicate HalfIsLeft(c: Controller) {
    c.receiveWindow - c.bytesRead >= c.increment / 2
  }

  lemma UpdateHasEffect(c: Controller, clock: Clock)
    requires ReceiveOk(c)
    ensures UpdateEffect(c, clock, Updated(c, clock)) && HalfIsLeft(Updated(c, clock))
  {
  }

  /** The windows announced for stream `id`, where 0 is the connection. */
  function Announced(updates: seq<WindowUpdate>, id: nat): seq<nat> {
    if updates == [] then []
    else
      var last := updates[|updates| - 1];
      Announced(updates[..|updates| - 1], id) + if last.stream == id then [last.offset] else []
  }

  lemma {:induction false} AnnouncedConcat(a: seq<WindowUpdate>, b: seq<WindowUpdate>, id: nat)
    ensures Announced(a + b, id) == Announced(a, id) + Announced(b, id)
  {
    if b == [] {
      assert a + b == a;
    } else {
      var n := |b| - 1;
      AnnouncedConcat(a, b[..n], id);
      assert (a + b)[..|a| + n] == a + b[..n];
    }
  }

  lemma AnnouncedOne(id: nat, offset: nat, other: nat)
    ensures Announced([WindowUpdate(id, offset)], other) == if other == id then [offset] else []
  {
    assert [WindowUpdate(id, offset)][..0] == [];
  }

  lemma {:induction false} StreamsAreAnnounced(m: Manager, order: seq<nat>, force: bool, clock: Clock, id: nat)
    requires NoDups(order) && (forall i | i in order :: i in m.streams)
    ensures
      Announced(InOrder(m, order, force, clock).1, id)
      == if id in order && (force || NeedsUpdate(m.streams[id])) then [Updated(m.streams[id], clock).receiveWindow]
         else []
  {
    if order != [] {
      var init, last := order[..|order| - 1], order[|order| - 1];
      assert order == init + [last] && last !in init;
      StreamsAreAnnounced(m, init, force, clock, id);
      InOrderUpdatesStreams(m, init, force, clock);
      var (m1, res) := InOrder(m, init, force, clock);
      AnnouncedConcat(res, StreamUpdate(m1, last, force, clock), id);
      AnnouncedOne(last, Updated(m.streams[last], clock).receiveWindow, id);
    }
  }

  /** A stream asks for more on the connection if its own increment has changed, or if the
      update is forced. */
  predicate Asks(c: Controller, c': Controller, force: bool) {
    c.contributes && if IsLow(c, c.increment) then c'.increment != c.increment else force
  }

  function Asked(c': Controller, max: nat): nat {
    Min(c'.increment * 3 / 2, max)
  }

  /** The connection's increment, raised to the most that a stream asks for. */
  ghost predicate IsRaised(m: Manager, m': Manager, force: bool, raised: nat)
    requires m.streams.Keys == m'.streams.Keys
  {
    && m.conn.increment <= raised
    && (forall id | id in m.streams && Asks(m.streams[id], m'.streams[id], force) ::
          Asked(m'.streams[id], m.conn.maxIncrement) <= raised)
    && (raised == m.conn.increment
        || exists id | id in m.streams && Asks(m.streams[id], m'.streams[id], force) ::
             raised == Asked(m'.streams[id], m.conn.maxIncrement))
  }

  lemma DemandIs(c: Controller, force: bool, clock: Clock)
    requires ReceiveOk(c)
    ensures
      var c' := Updated(c, clock);
      Demand(c, force, clock) == if Asks(c, c', force) then c'.increment * 3 / 2 else 0
  {
  }

  lemma {:induction false} LargestIsOne(m: Manager, order: seq<nat>, force: bool, clock: Clock)
    requires forall i | i in order :: i in m.streams
    ensures
      var d := LargestDemand(m, order, force, clock);
      && (forall id | id in order :: Demand(m.streams[id], force, clock) <= d)
      && (d == 0 || exists id | id in order :: d == Demand(m.streams[id], force, clock))
  {
    if order != [] {
      LargestIsOne(m, order[..|order| - 1], force, clock);
      assert order == order[..|order| - 1] + [order[|order| - 1]];
      assert order[|order| - 1] in order;
    }
  }

  lemma RaisedIs(m: Manager, m': Manager, order: seq<nat>, force: bool, clock: Clock, raised: nat)
    requires ManagerReceiveOk(m) && Visits(order, m.streams.Keys) && m'.streams.Keys == m.streams.Keys
    requires forall id | id in m.streams :: m'.streams[id] == Updated(m.streams[id], clock)
    requires raised == Max(m.conn.increment, Min(LargestDemand(m, order, force, clock), m.conn.maxIncrement))
    ensures IsRaised(m, m', force, raised)
  {
    LargestIsOne(m, order, force, clock);
    forall id | id in m.streams
      ensures
        Demand(m.streams[id], force, clock)
        == if Asks(m.streams[id], m'.streams[id], force) then m'.streams[id].increment * 3 / 2 else 0
    {
      DemandIs(m.streams[id], force, clock);
    }
  }

  /** The window of the connection, whose increment is raised before it is looked at. */
  predicate ConnectionEffect(conn: Controller, raised: nat, clock: Clock, conn': Controller) {
    && SameCounters(conn, conn') && conn'.maxIncrement == conn.maxIncrement
    && if IsLow(conn, raised) then
         && conn'.increment
            == (if raised == conn.increment && IsSoon(conn, clock) then Min(2 * raised, conn.maxIncrement) else raised)
         && conn'.receiveWindow == conn.bytesRead + conn'.increment > conn.receiveWindow
         && conn'.lastUpdate == Some(clock.now)
       else
         && conn'.increment == raised && conn'.receiveWindow == conn.receiveWindow
         && (raised != conn.increment ==> conn'.lastUpdate == None)
  }

  /** Every window has at least half an increment left. A stream is announced, with its new
      window and once, exactly if this is forced or its window ran low; so is the connection,
      after its increment was raised. */
  ghost predicate UpdatesEffect(m: Manager, force: bool, clock: Clock, m': Manager, updates: seq<WindowUpdate>,
                                raised: nat) {
    && m'.params == m.params && m'.streams.Keys == m.streams.Keys
    && (forall id | id in m.streams :: UpdateEffect(m.streams[id], clock, m'.streams[id]) && HalfIsLeft(m'.streams[id]))
    && (forall id | id in m.streams ::
          Announced(updates, id)
          == if force || IsLow(m.streams[id], m.streams[id].increment) then [m'.streams[id].receiveWindow] else [])
    && IsRaised(m, m', force, raised)
    && ConnectionEffect(m.conn, raised, clock, m'.conn) && HalfIsLeft(m'.conn)
    && Announced(updates, 0) == (if force || IsLow(m.conn, raised) then [m'.conn.receiveWindow] else [])
    && forall u | u in updates :: u.stream == 0 || u.stream in m.streams
  }

  /** The time of the last update is forgotten only if the increment grows or cannot. */
  lemma {:induction false} RaisedOrFull(m: Manager, order: seq<nat>, force: bool, clock: Clock)
    requires m.conn.increment <= m.conn.maxIncrement
    requires NoDups(order) && forall id | id in order :: id in m.streams
    ensures
      var conn := InOrder(m, order, force, clock).0.conn;
      conn != m.conn ==> conn.increment > m.conn.increment || m.conn.increment == m.conn.maxIncrement
  {
    if order != [] {
      var init := order[..|order| - 1];
      RaisedOrFull(m, init, force, clock);
      InOrderRaisesConnection(m, init, force, clock);
      InOrderUpdatesStreams(m, init, force, clock);
    }
  }

  lemma ConnectionHasEffect(conn: Controller, conn1: Controller, clock: Clock)
    requires ReceiveOk(conn) && conn1 == conn.(increment := conn1.increment, lastUpdate := conn1.lastUpdate)
    requires conn.increment <= conn1.increment <= conn.maxIncrement
    requires conn1 != conn ==>
        conn1.lastUpdate == None && (conn1.increment > conn.increment || conn.increment == conn.maxIncrement)
    ensures ConnectionEffect(conn, conn1.increment, clock, Updated(conn1, clock)) && HalfIsLeft(Updated(conn1, clock))
    ensures NeedsUpdate(conn1) <==> IsLow(conn, conn1.increment)
  {
  }

  lemma AnnouncedStreams(m: Manager, order: seq<nat>, force: bool, clock: Clock, last: seq<WindowUpdate>, id: nat)
    requires ManagerReceiveOk(m) && Visits(order, m.streams.Keys) && id in m.streams && id != 0
    requires last == [] || exists offset :: last == [WindowUpdate(0, offset)]
    ensures
      Announced(InOrder(m, order, force, clock).1 + last, id)
      == if force || IsLow(m.streams[id], m.streams[id].increment)
         then [Updated(m.streams[id], clock).receiveWindow]
         else []
  {
    StreamsAreAnnounced(m, order, force, clock, id);
    AnnouncedConcat(InOrder(m, order, force, clock).1, last, id);
    if last != [] {
      AnnouncedOne(0, last[0].offset, id);
    }
  }

  lemma AnnouncedConnection(m: Manager, order: seq<nat>, force: bool, clock: Clock, last: seq<WindowUpdate>)
    requires Visits(order, m.streams.Keys) && 0 !in m.streams
    ensures Announced(InOrder(m, order, force, clock).1 + last, 0) == Announced(last, 0)
  {
    StreamsAreAnnounced(m, order, force, clock, 0);
    AnnouncedConcat(InOrder(m, order, force, clock).1, last, 0);
  }

  /** Window updates do what they are for. */
  lemma UpdatesHaveEffect(m: Manager, force: bool, clock: Clock, m': Manager, updates: seq<WindowUpdate>)
    returns (raised: nat)
    requires ManagerReceiveOk(m) && 0 !in m.streams && UpdatesSpec(m, force, clock, m', updates)
    ensures UpdatesEffect(m, force, clock, m', updates, raised)
  {
    var order :| Visits(order, m.streams.Keys)
      && m' == WithConnectionUpdate(InOrder(m, order, force, clock).0, clock)
      && updates
         == InOrder(m, order, force, clock).1 + ConnectionUpdate(InOrder(m, order, force, clock).0, force, clock);
    var (m1, res) := InOrder(m, order, force, clock);
    var last := ConnectionUpdate(m1, force, clock);
    raised := m1.conn.increment;
    InOrderUpdatesStreams(m, order, force, clock);
    InOrderRaisesConnection(m, order, force, clock);
    InOrderReturnsUpdates(m, order, force, clock);
    RaisedIs(m, m', order, force, clock, raised);
    RaisedOrFull(m, order, force, clock);
    ConnectionHasEffect(m.conn, m1.conn, clock);
    AnnouncedConnection(m, order, force, clock, last);
    AnnouncedOne(0, m'.conn.receiveWindow, 0);
    forall id | id in m.streams
      ensures UpdateEffect(m.streams[id], clock, m'.streams[id]) && HalfIsLeft(m'.streams[id])
      ensures
        Announced(updates, id)
        == if force || IsLow(m.streams[id], m.streams[id].increment) then [m'.streams[id].receiveWindow] else []
    {
      UpdateHasEffect(m.streams[id], clock);
      AnnouncedStreams(m, order, force, clock, last, id);
    }
  }

  /** The peer is held to both windows: an error is reported exactly if one is exceeded. */
  lemma ViolationsAreFound(m: Manager, id: nat, offset: nat)
    requires id in m.streams
    ensures
      var c, conn, (m', error) := m.streams[id], m.conn, AfterReceive(m, id, offset);
      var more := if offset > c.highestReceived then offset - c.highestReceived else 0;
      && m'.streams[id].highestReceived == c.highestReceived + more
      && error == (if c.highestReceived + more > c.receiveWindow then StreamViolation
                   else if c.contributes && conn.highestReceived + more > conn.receiveWindow then ConnectionViolation
                   else NoError)
      && (error != StreamViolation ==>
            m'.conn == conn.(highestReceived := conn.highestReceived + if c.contributes then more else 0))
  {
  }

  /** The final offset of a stream that is reset must not be below what was received. */
  lemma ResetsAreChecked(m: Manager, id: nat, offset: nat)
    requires id in m.streams
    ensures
      if offset < m.streams[id].highestReceived then AfterReset(m, id, offset) == (m, DataAfterTermination)
      else AfterReset(m, id, offset) == AfterReceive(m, id, offset)
  {
  }

  /** What is read is booked for the stream and, if it contributes, for the connection. */
  lemma ReadsAreBooked(m: Manager, id: nat, n: nat, now: int)
    requires id in m.streams
    ensures
      var (m', error) := AfterRead(m, id, n, now);
      var c, c' := m.streams[id], m'.streams[id];
      && error == NoError && m'.params == m.params && m'.streams == m.streams[id := c']
      && c' == c.(bytesRead := c.bytesRead + n, lastUpdate := c'.lastUpdate)
      && m'.conn == m.conn.(bytesRead := m.conn.bytesRead + (if c.contributes then n else 0),
                            lastUpdate := m'.conn.lastUpdate)
      && (c.bytesRead == 0 ==> c'.lastUpdate == Some(now)) && (c.bytesRead > 0 ==> c'.lastUpdate == c.lastUpdate)
  {
  }

  // ---------------------------------------------------------------------------
  // Sending
  // ---------------------------------------------------------------------------

  /** The last window that was announced, or the negotiated one. */
  predicate IsWindow(c: Controller, window: nat) {
    (c.sendWindow > 0 && window == c.sendWindow) || (c.sendWindow == 0 && window == c.initialSendWindow)
  }

  /** Sending what is available uses up a window, of the stream or of the connection, and
      exceeds none. */
  lemma WindowsCanBeUsedUp(m: Manager, id: nat, window: nat, connWindow: nat)
    requires id in m.streams && IsWindow(m.streams[id], window) && IsWindow(m.conn, connWindow)
    requires m.streams[id].bytesSent <= window && m.conn.bytesSent <= connWindow
    ensures
      var m' := AfterSend(m, id, StreamAvailable(m, id)).0;
      var c', conn' := m'.streams[id], m'.conn;
      && c'.bytesSent <= window && conn'.bytesSent <= connWindow
      && (c'.bytesSent == window || (c'.contributes && conn'.bytesSent == connWindow))
  {
  }

  /** A WINDOW_UPDATE raises the window that it names, and no other, to at least its offset. */
  lemma UpdateOpensWindow(m: Manager, id: nat, offset: nat)
    requires id == 0 || id in m.streams
    ensures
      var (m', error) := AfterWindowUpdate(m, id, offset);
      var c := if id == 0 then m.conn else m.streams[id];
      var c' := c.(sendWindow := Max(c.sendWindow, offset));
      error == NoError && m' == if id == 0 then m.(conn := c') else m.(streams := m.streams[id := c'])
  {
    if id != 0 && offset <= m.streams[id].sendWindow {
      assert m.streams[id := m.streams[id]] == m.streams;
    }
  }
}
