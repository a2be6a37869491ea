/** Flow control: one controller per stream and one for the connection, and the manager
    that holds them. A controller looks after both directions: `bytesSent` and
    `sendWindow` limit what this end sends, the other counters what the peer may send. */
module FlowControl {
  import opened Numbers
  import opened Lists
  import opened Options

  datatype Controller = Controller(
    contributes: bool,
    bytesSent: nat,
    sendWindow: nat,
    initialSendWindow: nat,
    lastUpdate: Option<int>,
    bytesRead: nat,
    highestReceived: nat,
    receiveWindow: nat,
    increment: nat,
    maxIncrement: nat)

  /** Time and round-trip times as the controllers see them during one call. */
  datatype Clock = Clock(now: int, rtt: int, maxRemoteRtt: int)

  /** Negotiated limits: windows for sending, windows for receiving and their maxima. */
  datatype Params = Params(
    sendStream: nat, sendConn: nat,
    recvStream: nat, recvConn: nat,
    maxRecvStream: nat, maxRecvConn: nat)

  datatype Manager = Manager(params: Params, streams: map<nat, Controller>, conn: Controller)

  datatype Error = NoError | UnknownStream | StreamViolation | ConnectionViolation | DataAfterTermination

  datatype WindowUpdate = WindowUpdate(stream: nat, offset: nat)

  /** The longer of two durations. */
  function Longer(a: int, b: int): int {
    if a >= b then a else b
  }

  // ---------------------------------------------------------------------------
  // One controller
  // ---------------------------------------------------------------------------

  /** Streams 1 and 3 do not count towards the connection. */
  predicate Contributes(id: nat) {
    id != 1 && id != 3
  }

  function NewController(id: nat, contributes: bool, p: Params): Controller {
    if id == 0 then Controller(contributes, 0, 0, p.sendConn, None, 0, 0, p.recvConn, p.recvConn, p.maxRecvConn)
    else Controller(contributes, 0, 0, p.sendStream, None, 0, 0, p.recvStream, p.recvStream, p.maxRecvStream)
  }

  /** A window of zero means that no WINDOW_UPDATE has arrived yet. */
  function SendWindow(c: Controller): nat {
    if c.sendWindow == 0 then c.initialSendWindow else c.sendWindow
  }

  function Available(c: Controller): nat {
    if c.bytesSent > SendWindow(c) then 0 else SendWindow(c) - c.bytesSent
  }

  predicate Violated(c: Controller) {
    c.highestReceived > c.receiveWindow
  }

  function WithSendWindow(c: Controller, offset: nat): Controller {
    if offset > c.sendWindow then c.(sendWindow := offset) else c
  }

  function WithHighest(c: Controller, offset: nat): Controller {
    if offset > c.highestReceived then c.(highestReceived := offset) else c
  }

  function WithRead(c: Controller, n: nat, now: int): Controller {
    c.(lastUpdate := if c.bytesRead == 0 then Some(now) else c.lastUpdate, bytesRead := c.bytesRead + n)
  }

  /** Window updates follow each other so quickly that the window should grow. */
  predicate TooFrequent(c: Controller, clock: Clock) {
    && c.lastUpdate.Some?
    && clock.rtt != 0
    && clock.now - c.lastUpdate.value < 2 * Longer(clock.rtt, clock.maxRemoteRtt)
  }

  /** Less than half an increment is left. If more were read than the window allows, the
      unsigned difference would wrap around to a huge value. */
  predicate NeedsUpdate(c: Controller) {
    c.bytesRead <= c.receiveWindow && c.receiveWindow - c.bytesRead < c.increment / 2
  }

  function Adjusted(c: Controller, clock: Clock): Controller {
    if TooFrequent(c, clock) then c.(increment := Min(2 * c.increment, c.maxIncrement)) else c
  }

  function Updated(c: Controller, clock: Clock): Controller {
    if NeedsUpdate(c) then
      var a := Adjusted(c, clock);
      a.(lastUpdate := Some(clock.now), receiveWindow := a.bytesRead + a.increment)
    else c
  }

  /** The increment reported with an update: zero if it was not changed, but the current
      one if no update was necessary. */
  function ReportedIncrement(c: Controller, clock: Clock): nat {
    var after := Updated(c, clock).increment;
    if NeedsUpdate(c) && after == c.increment then 0 else after
  }

  function WithMinimum(c: Controller, inc: nat): Controller {
    if inc > c.increment then c.(increment := Min(inc, c.maxIncrement), lastUpdate := None) else c
  }

  /** The peer stays within its window and the reader within what was received. */
  predicate ReceiveOk(c: Controller) {
    && c.bytesRead <= c.highestReceived <= c.receiveWindow
    && c.increment <= c.maxIncrement
  }

  /** An update never shrinks the window, and afterwards the peer may send at least half
      an increment beyond what was read. */
  lemma UpdateWidens(c: Controller, clock: Clock)
    requires ReceiveOk(c)
    ensures
      var c' := Updated(c, clock);
      && ReceiveOk(c')
      && c.receiveWindow <= c'.receiveWindow
      && c.increment <= c'.increment
      && (NeedsUpdate(c) ==> c.receiveWindow < c'.receiveWindow)
      && c'.receiveWindow - c'.bytesRead >= c'.increment / 2
  {
  }

  class FlowController {
    const contributesToConnection: bool
    const initialSendWindow: nat
    const maxReceiveWindowIncrement: nat
    var bytesSent: nat
    var sendWindow: nat
    var lastWindowUpdateTime: Option<int>
    var bytesRead: nat
    var highestReceived: nat
    var receiveWindow: nat
    var receiveWindowIncrement: nat

    function View(): Controller
      reads this
    {
      Controller(contributesToConnection, bytesSent, sendWindow, initialSendWindow, lastWindowUpdateTime,
                 bytesRead, highestReceived, receiveWindow, receiveWindowIncrement, maxReceiveWindowIncrement)
    }

    constructor (id: nat, contributes: bool, p: Params)
      ensures View() == NewController(id, contributes, p)
    {
      contributesToConnection := contributes;
      initialSendWindow := if id == 0 then p.sendConn else p.sendStream;
      maxReceiveWindowIncrement := if id == 0 then p.maxRecvConn else p.maxRecvStream;
      receiveWindow := if id == 0 then p.recvConn else p.recvStream;
      receiveWindowIncrement := if id == 0 then p.recvConn else p.recvStream;
      bytesSent, sendWindow, lastWindowUpdateTime, bytesRead, highestReceived := 0, 0, None, 0, 0;
    }

    method UpdateSendWindow(newOffset: nat) returns (changed: bool)
      modifies this
      ensures View() == WithSendWindow(old(View()), newOffset)
      ensures changed <==> View() != old(View())
    {
      changed := newOffset > sendWindow;
      if changed {
        sendWindow := newOffset;
      }
    }

    /** Raises the highest received offset; reports by how much and whether the offset
        is behind an earlier one. */
    method UpdateHighestReceived(byteOffset: nat) returns (increment: nat, smaller: bool)
      modifies this
      ensures View() == WithHighest(old(View()), byteOffset)
      ensures increment == highestReceived - old(highestReceived)
      ensures smaller <==> byteOffset < old(highestReceived)
    {
      if byteOffset == highestReceived {
        return 0, false;
      }
      if byteOffset > highestReceived {
        increment, smaller := byteOffset - highestReceived, false;
        highestReceived := byteOffset;
        return;
      }
      return 0, true;
    }

    method AddBytesRead(n: nat, now: int)
      modifies this
      ensures View() == WithRead(old(View()), n, now)
    {
      if bytesRead == 0 {
        lastWindowUpdateTime := Some(now);
      }
      bytesRead := bytesRead + n;
    }

    method MaybeAdjustWindowIncrement(clock: Clock)
      modifies this
      ensures View() == Adjusted(old(View()), clock)
    {
      if lastWindowUpdateTime.None? || clock.rtt == 0 {
        return;
      }
      if clock.now - lastWindowUpdateTime.value >= 2 * Longer(clock.rtt, clock.maxRemoteRtt) {
        return;
      }
      receiveWindowIncrement := Min(2 * receiveWindowIncrement, maxReceiveWindowIncrement);
    }

    method MaybeUpdateWindow(clock: Clock) returns (necessary: bool, newIncrement: nat, offset: nat)
      modifies this
      ensures View() == Updated(old(View()), clock)
      ensures necessary <==> NeedsUpdate(old(View()))
      ensures newIncrement == ReportedIncrement(old(View()), clock)
      ensures offset == receiveWindow
    {
      if bytesRead <= receiveWindow && receiveWindow - bytesRead < receiveWindowIncrement / 2 {
        var oldWindowIncrement := receiveWindowIncrement;
        MaybeAdjustWindowIncrement(clock);
        newIncrement := if receiveWindowIncrement != oldWindowIncrement then receiveWindowIncrement else 0;
        lastWindowUpdateTime := Some(clock.now);
        receiveWindow := bytesRead + receiveWindowIncrement;
        return true, newIncrement, receiveWindow;
      }
      return false, receiveWindowIncrement, receiveWindow;
    }

    method EnsureMinimumWindowIncrement(inc: nat)
      modifies this
      ensures View() == WithMinimum(old(View()), inc)
    {
      if inc > receiveWindowIncrement {
        receiveWindowIncrement := Min(inc, maxReceiveWindowIncrement);
        lastWindowUpdateTime := None;
      }
    }
  }

  // ---------------------------------------------------------------------------
  // The manager
  // ---------------------------------------------------------------------------

  function NewManager(p: Params): Manager {
    Manager(p, map[], NewController(0, false, p))
  }

  function AfterNewStream(m: Manager, id: nat, contributes: bool): Manager {
    if id in m.streams then m
    else m.(streams := m.streams[id := NewController(id, contributes, m.params)])
  }

  function AfterRemove(m: Manager, id: nat): Manager {
    m.(streams := m.streams - {id})
  }

  /** Bytes up to `offset` have arrived on stream `id`. */
  function AfterReceive(m: Manager, id: nat, offset: nat): (Manager, Error) {
    if id !in m.streams then (m, UnknownStream)
    else
      var c := m.streams[id];
      var c' := WithHighest(c, offset);
      var m1 := m.(streams := m.streams[id := c']);
      if Violated(c') then (m1, StreamViolation)
      else if !c.contributes then (m1, NoError)
      else
        var conn' := m.conn.(highestReceived := m.conn.highestReceived + (c'.highestReceived - c.highestReceived));
        (m1.(conn := conn'), if Violated(conn') then ConnectionViolation else NoError)
  }

  function AfterReset(m: Manager, id: nat, offset: nat): (Manager, Error) {
    if id in m.streams && offset < m.streams[id].highestReceived then (m, DataAfterTermination)
    else AfterReceive(m, id, offset)
  }

  function AfterRead(m: Manager, id: nat, n: nat, now: int): (Manager, Error) {
    if id !in m.streams then (m, UnknownStream)
    else
      var m1 := m.(streams := m.streams[id := WithRead(m.streams[id], n, now)]);
      (if m.streams[id].contributes then m1.(conn := WithRead(m.conn, n, now)) else m1, NoError)
  }

  function WithSent(c: Controller, n: nat): Controller {
    c.(bytesSent := c.bytesSent + n)
  }

  function AfterSend(m: Manager, id: nat, n: nat): (Manager, Error) {
    if id !in m.streams then (m, UnknownStream)
    else
      var m1 := m.(streams := m.streams[id := WithSent(m.streams[id], n)]);
      (if m.streams[id].contributes then m1.(conn := WithSent(m.conn, n)) else m1, NoError)
  }

  /** How much may be sent on stream `id`. */
  function StreamAvailable(m: Manager, id: nat): nat
    requires id in m.streams
  {
    var c := m.streams[id];
    if c.contributes then Min(Available(c), Available(m.conn)) else Available(c)
  }

  function AfterWindowUpdate(m: Manager, id: nat, offset: nat): (Manager, Error) {
    if id == 0 then (m.(conn := WithSendWindow(m.conn, offset)), NoError)
    else if id !in m.streams then (m, UnknownStream)
    else (m.(streams := m.streams[id := WithSendWindow(m.streams[id], offset)]), NoError)
  }

  ghost predicate ManagerReceiveOk(m: Manager) {
    && ReceiveOk(m.conn)
    && forall id | id in m.streams :: ReceiveOk(m.streams[id])
  }

  /** The increment that a stream's update demands of the connection: one and a half
      times its own, rounded down. */
  function Demand(c: Controller, force: bool, clock: Clock): nat {
    if (force || NeedsUpdate(c)) && c.contributes then ReportedIncrement(c, clock) * 3 / 2 else 0
  }

  function AfterStreamUpdate(m: Manager, id: nat, force: bool, clock: Clock): Manager
    requires id in m.streams
  {
    m.(streams := m.streams[id := Updated(m.streams[id], clock)],
       conn := WithMinimum(m.conn, Demand(m.streams[id], force, clock)))
  }

  function StreamUpdate(m: Manager, id: nat, force: bool, clock: Clock): seq<WindowUpdate>
    requires id in m.streams
  {
    var c := m.streams[id];
    if force || NeedsUpdate(c) then [WindowUpdate(id, Updated(c, clock).receiveWindow)] else []
  }

  /** The streams `order` are updated one after the other. */
  function InOrder(m: Manager, order: seq<nat>, force: bool, clock: Clock): (Manager, seq<WindowUpdate>) {
    if order == [] then (m, [])
    else
      var (m1, res) := InOrder(m, order[..|order| - 1], force, clock);
      var id := order[|order| - 1];
      if id !in m1.streams then (m1, res)
      else (AfterStreamUpdate(m1, id, force, clock), res + StreamUpdate(m1, id, force, clock))
  }

  /** `order` visits each of `ids` once. */
  ghost predicate Visits(order: seq<nat>, ids: set<nat>) {
    NoDups(order) && forall id :: id in order <==> id in ids
  }

  /** `GetWindowUpdates` visits the streams in the order of a hash map, that is, in any
      order, and the connection last. */
  ghost predicate UpdatesSpec(m: Manager, force: bool, clock: Clock, m': Manager, updates: seq<WindowUpdate>) {
    exists order | Visits(order, m.streams.Keys) ::
      && m' == WithConnectionUpdate(InOrder(m, order, force, clock).0, clock)
      && updates == InOrder(m, order, force, clock).1 + ConnectionUpdate(InOrder(m, order, force, clock).0, force, clock)
  }

  function WithConnectionUpdate(m: Manager, clock: Clock): Manager {
    m.(conn := Updated(m.conn, clock))
  }

  function ConnectionUpdate(m: Manager, force: bool, clock: Clock): seq<WindowUpdate> {
    if force || NeedsUpdate(m.conn) then [WindowUpdate(0, Updated(m.conn, clock).receiveWindow)] else []
  }

  /** Exactly the visited streams are updated. */
  lemma {:induction false} InOrderUpdatesStreams(m: Manager, order: seq<nat>, force: bool, clock: Clock)
    requires NoDups(order) && forall id | id in order :: id in m.streams
    ensures
      var m' := InOrder(m, order, force, clock).0;
      && m'.params == m.params
      && m'.streams.Keys == m.streams.Keys
      && forall id | id in m.streams ::
           m'.streams[id] == if id in order then Updated(m.streams[id], clock) else m.streams[id]
  {
    if order != [] {
      InOrderUpdatesStreams(m, order[..|order| - 1], force, clock);
      assert order == order[..|order| - 1] + [order[|order| - 1]];
    }
  }

  /** Exactly the updates that are due are returned, with the new windows. */
  lemma {:induction false} InOrderReturnsUpdates(m: Manager, order: seq<nat>, force: bool, clock: Clock)
    requires NoDups(order) && forall id | id in order :: id in m.streams
    ensures
      var res := InOrder(m, order, force, clock).1;
      && (forall u | u in res :: u.stream in order)
      && forall id, offset | id in order ::
           WindowUpdate(id, offset) in res
           <==> (force || NeedsUpdate(m.streams[id])) && offset == Updated(m.streams[id], clock).receiveWindow
  {
    if order != [] {
      var init := order[..|order| - 1];
      InOrderUpdatesStreams(m, init, force, clock);
      InOrderReturnsUpdates(m, init, force, clock);
      assert order == init + [order[|order| - 1]];
    }
  }

  /** The largest increment that one of the streams demands. */
  function LargestDemand(m: Manager, order: seq<nat>, force: bool, clock: Clock): nat
    requires forall id | id in order :: id in m.streams
  {
    if order == [] then 0
    else Max(LargestDemand(m, order[..|order| - 1], force, clock), Demand(m.streams[order[|order| - 1]], force, clock))
  }

  /** Whatever the order, the connection's increment grows to the largest demand, up to
      its maximum, and nothing else of the connection's windows changes. */
  lemma {:induction false} InOrderRaisesConnection(m: Manager, order: seq<nat>, force: bool, clock: Clock)
    requires m.conn.increment <= m.conn.maxIncrement
    requires NoDups(order) && forall id | id in order :: id in m.streams
    ensures
      var conn := InOrder(m, order, force, clock).0.conn;
      && conn == m.conn.(increment := conn.increment, lastUpdate := conn.lastUpdate)
      && conn.increment == Max(m.conn.increment, Min(LargestDemand(m, order, force, clock), m.conn.maxIncrement))
      && (conn != m.conn ==> conn.lastUpdate == None)
  {
    if order != [] {
      InOrderUpdatesStreams(m, order[..|order| - 1], force, clock);
      InOrderRaisesConnection(m, order[..|order| - 1], force, clock);
    }
  }

  lemma ConnectionUpdateWidens(m: Manager, order: seq<nat>, force: bool, clock: Clock)
    requires ManagerReceiveOk(m)
    requires NoDups(order) && forall id | id in order :: id in m.streams
    ensures
      var m' := WithConnectionUpdate(InOrder(m, order, force, clock).0, clock);
      && ReceiveOk(m'.conn)
      && m.conn.receiveWindow <= m'.conn.receiveWindow
      && SameCounters(m.conn, m'.conn)
  {
    InOrderRaisesConnection(m, order, force, clock);
    UpdateWidens(InOrder(m, order, force, clock).0.conn, clock);
  }

  lemma UpdatesCarryWindows(m: Manager, order: seq<nat>, force: bool, clock: Clock, u: WindowUpdate)
    requires Visits(order, m.streams.Keys) && 0 !in m.streams
    requires var m1 := InOrder(m, order, force, clock);
             u in m1.1 + ConnectionUpdate(m1.0, force, clock)
    ensures
      var m' := WithConnectionUpdate(InOrder(m, order, force, clock).0, clock);
      if u.stream == 0 then u.offset == m'.conn.receiveWindow
      else u.stream in m'.streams && u.offset == m'.streams[u.stream].receiveWindow
  {
    InOrderUpdatesStreams(m, order, force, clock);
    InOrderReturnsUpdates(m, order, force, clock);
    if u.stream in order {
      assert WindowUpdate(u.stream, u.offset) == u;
    }
  }

  /** Window updates keep both levels consistent, never shrink a window, carry the
      receiver's current windows and leave the sending direction alone. */
  lemma WindowUpdatesWiden(m: Manager, force: bool, clock: Clock, m': Manager, updates: seq<WindowUpdate>)
    requires ManagerReceiveOk(m) && 0 !in m.streams
    requires UpdatesSpec(m, force, clock, m', updates)
    ensures ManagerReceiveOk(m') && m'.params == m.params
    ensures m'.streams.Keys == m.streams.Keys
    ensures m.conn.receiveWindow <= m'.conn.receiveWindow
    ensures forall id | id in m.streams :: m.streams[id].receiveWindow <= m'.streams[id].receiveWindow
    ensures forall u | u in updates ::
              if u.stream == 0 then u.offset == m'.conn.receiveWindow
              else u.stream in m'.streams && u.offset == m'.streams[u.stream].receiveWindow
    ensures SameCounters(m.conn, m'.conn)
    ensures forall id | id in m.streams :: SameCounters(m.streams[id], m'.streams[id])
  {
    var order :| Visits(order, m.streams.Keys)
      && m' == WithConnectionUpdate(InOrder(m, order, force, clock).0, clock)
      && updates == InOrder(m, order, force, clock).1 + ConnectionUpdate(InOrder(m, order, force, clock).0, force, clock);
    InOrderUpdatesStreams(m, order, force, clock);
    ConnectionUpdateWidens(m, order, force, clock);
    forall id | id in m.streams
      ensures ReceiveOk(m'.streams[id]) && m.streams[id].receiveWindow <= m'.streams[id].receiveWindow
      ensures SameCounters(m.streams[id], m'.streams[id])
    {
      UpdateWidens(m.streams[id], clock);
    }
    forall u | u in updates
      ensures if u.stream == 0 then u.offset == m'.conn.receiveWindow
              else u.stream in m'.streams && u.offset == m'.streams[u.stream].receiveWindow
    {
      UpdatesCarryWindows(m, order, force, clock, u);
    }
  }

  /** The two controllers have sent, received and read the same. */
  predicate SameCounters(c: Controller, c': Controller) {
    c' == c.(lastUpdate := c'.lastUpdate, receiveWindow := c'.receiveWindow, increment := c'.increment)
  }

  /** The streams in `ids` have been updated, in the order `order`. */
  ghost predicate Updating(m0: Manager, ids: set<nat>, force: bool, clock: Clock,
                           order: seq<nat>, m: Manager, res: seq<WindowUpdate>) {
    Visits(order, ids) && (m, res) == InOrder(m0, order, force, clock)
  }

  lemma UpdateOneMore(m0: Manager, ids: set<nat>, force: bool, clock: Clock,
                      order: seq<nat>, m: Manager, res: seq<WindowUpdate>, id: nat)
    requires Updating(m0, ids, force, clock, order, m, res) && id !in ids && id in m.streams
    ensures Updating(m0, ids + {id}, force, clock, order + [id],
                     AfterStreamUpdate(m, id, force, clock), res + StreamUpdate(m, id, force, clock))
  {
    assert (order + [id])[..|order|] == order;
  }

  class FlowControlManager {
    const params: Params
    var streamFlowController: map<nat, FlowController>
    const connFlowController: FlowController

    ghost function Repr(): set<object>
      reads this
    {
      {connFlowController} + streamFlowController.Values
    }

    /** Controllers are not shared. */
    ghost predicate Valid()
      reads this
    {
      && 0 !in streamFlowController
      && connFlowController !in streamFlowController.Values
      && forall i, j | i in streamFlowController && j in streamFlowController && i != j ::
           streamFlowController[i] != streamFlowController[j]
    }

    ghost function View(): Manager
      reads this, Repr()
    {
      Manager(params,
              map id | id in streamFlowController :: streamFlowController[id].View(),
              connFlowController.View())
    }

    constructor (p: Params)
      ensures Valid() && View() == NewManager(p)
      ensures fresh(Repr())
    {
      params := p;
      streamFlowController := map[];
      connFlowController := new FlowController(0, false, p);
    }

    method NewStream(id: nat, contributes: bool)
      requires Valid() && id != 0
      modifies this
      ensures Valid() && View() == AfterNewStream(old(View()), id, contributes)
      ensures fresh(Repr() - old(Repr()))
    {
      if id in streamFlowController {
        return;
      }
      var c := new FlowController(id, contributes, params);
      streamFlowController := streamFlowController[id := c];
    }

    method RemoveStream(id: nat)
      requires Valid()
      modifies this
      ensures Valid() && View() == AfterRemove(old(View()), id)
    {
      streamFlowController := streamFlowController - {id};
    }

    method UpdateHighestReceived(id: nat, byteOffset: nat) returns (err: Error)
      requires Valid()
      modifies Repr()
      ensures Valid() && (View(), err) == AfterReceive(old(View()), id, byteOffset)
    {
      if id !in streamFlowController {
        return UnknownStream;
      }
      var c := streamFlowController[id];
      var increment, _ := c.UpdateHighestReceived(byteOffset);
      assert View().streams == old(View()).streams[id := c.View()];
      if c.highestReceived > c.receiveWindow {
        return StreamViolation;
      }
      if c.contributesToConnection {
        connFlowController.highestReceived := connFlowController.highestReceived + increment;
        if connFlowController.highestReceived > connFlowController.receiveWindow {
          assert View().streams == old(View()).streams[id := c.View()];
          return ConnectionViolation;
        }
      }
      assert View().streams == old(View()).streams[id := c.View()];
      return NoError;
    }

    /** A RST_STREAM gives the final offset; one behind received data is an error. */
    method ResetStream(id: nat, byteOffset: nat) returns (err: Error)
      requires Valid()
      modifies Repr()
      ensures Valid() && (View(), err) == AfterReset(old(View()), id, byteOffset)
    {
      if id !in streamFlowController {
        return UnknownStream;
      }
      if byteOffset < streamFlowController[id].highestReceived {
        return DataAfterTermination;
      }
      err := UpdateHighestReceived(id, byteOffset);
    }

    method AddBytesRead(id: nat, n: nat, now: int) returns (err: Error)
      requires Valid()
      modifies Repr()
      ensures Valid() && (View(), err) == AfterRead(old(View()), id, n, now)
    {
      if id !in streamFlowController {
        return UnknownStream;
      }
      var c := streamFlowController[id];
      c.AddBytesRead(n, now);
      if c.contributesToConnection {
        connFlowController.AddBytesRead(n, now);
      }
      assert View().streams == old(View()).streams[id := c.View()];
      return NoError;
    }

    method AddBytesSent(id: nat, n: nat) returns (err: Error)
      requires Valid()
      modifies Repr()
      ensures Valid() && (View(), err) == AfterSend(old(View()), id, n)
    {
      if id !in streamFlowController {
        return UnknownStream;
      }
      var c := streamFlowController[id];
      c.bytesSent := c.bytesSent + n;
      if c.contributesToConnection {
        connFlowController.bytesSent := connFlowController.bytesSent + n;
      }
      assert View().streams == old(View()).streams[id := c.View()];
      return NoError;
    }

    method SendWindowSize(id: nat) returns (res: nat, err: Error)
      requires Valid()
      ensures err == if id in View().streams then NoError else UnknownStream
      ensures id in View().streams ==> res == StreamAvailable(View(), id)
    {
      if id !in streamFlowController {
        return 0, UnknownStream;
      }
      var c := streamFlowController[id].View();
      res, err := Available(c), NoError;
      if c.contributes {
        res := Min(res, Available(connFlowController.View()));
      }
    }

    method UpdateWindow(id: nat, offset: nat) returns (changed: bool, err: Error)
      requires Valid()
      modifies Repr()
      ensures Valid() && (View(), err) == AfterWindowUpdate(old(View()), id, offset)
      ensures changed <==> View() != old(View())
    {
      if id == 0 {
        changed := connFlowController.UpdateSendWindow(offset);
        assert View().streams == old(View()).streams;
        return changed, NoError;
      }
      if id !in streamFlowController {
        return false, UnknownStream;
      }
      var c := streamFlowController[id];
      changed := c.UpdateSendWindow(offset);
      assert View().streams == old(View()).streams[id := c.View()];
      assert old(View()).streams[id] == old(c.View());
      return changed, NoError;
    }

    /** Updates one stream's window and passes its demand on to the connection. */
    method UpdateStreamWindow(id: nat, force: bool, clock: Clock) returns (update: seq<WindowUpdate>)
      requires Valid() && id in streamFlowController
      modifies Repr()
      ensures Valid() && streamFlowController == old(streamFlowController)
      ensures View() == AfterStreamUpdate(old(View()), id, force, clock)
      ensures update == StreamUpdate(old(View()), id, force, clock)
    {
      var c := streamFlowController[id];
      var necessary, newIncrement, offset := c.MaybeUpdateWindow(clock);
      update := [];
      if force || necessary {
        update := [WindowUpdate(id, offset)];
        if c.contributesToConnection && newIncrement != 0 {
          connFlowController.EnsureMinimumWindowIncrement(newIncrement * 3 / 2);
        }
      }
      assert View().streams == old(View()).streams[id := c.View()];
    }

    /** Updates the streams' windows, in any order. */
    method UpdateStreamWindows(force: bool, clock: Clock) returns (res: seq<WindowUpdate>, ghost order: seq<nat>)
      requires Valid()
      modifies Repr()
      ensures Valid() && Visits(order, old(View()).streams.Keys)
      ensures (View(), res) == InOrder(old(View()), order, force, clock)
    {
      res, order := [], [];
      var todo := streamFlowController.Keys;
      ghost var m0, all := View(), streamFlowController.Keys;
      while todo != {}
        invariant Valid() && Repr() == old(Repr())
        invariant todo <= streamFlowController.Keys == all
        invariant Updating(m0, all - todo, force, clock, order, View(), res)
        decreases todo
      {
        var id :| id in todo;
        UpdateOneMore(m0, all - todo, force, clock, order, View(), res, id);
        assert all - todo + {id} == all - (todo - {id});
        var update := UpdateStreamWindow(id, force, clock);
        res := res + update;
        todo, order := todo - {id}, order + [id];
      }
      assert all - {} == all;
    }

    /** All window updates, the connection's last. */
    method GetWindowUpdates(force: bool, clock: Clock) returns (res: seq<WindowUpdate>)
      requires Valid()
      modifies Repr()
      ensures Valid() && UpdatesSpec(old(View()), force, clock, View(), res)
    {
      ghost var order;
      res, order := UpdateStreamWindows(force, clock);
      ghost var m1 := View();
      var necessary, _, offset := connFlowController.MaybeUpdateWindow(clock);
      if force || necessary {
        res := res + [WindowUpdate(0, offset)];
      }
      assert View().streams == m1.streams;
      assert Visits(order, old(View()).streams.Keys);
    }
  }
}
