/** Two ends running the flow-control manager, over a network that loses, reorders and
    duplicates frames. One direction is modelled: `snd` sends, `rcv` receives. */
module FlowProtocol {
  import opened FlowControl
  import FlowLedger

  datatype Data = Data(stream: nat, end: nat)

  /** `data`, `resets` and `updates` hold every frame that was ever sent; frames are never
      taken out. `stopped` are the streams that the sender has reset. */
  datatype System = System(
    snd: Manager, sent: FlowLedger.Ledger,
    rcv: Manager, received: FlowLedger.Ledger,
    data: set<Data>, resets: set<Data>, updates: set<WindowUpdate>,
    stopped: set<nat>)

  datatype Step =
    | OpenSend(id: nat)
    | Send(id: nat, n: nat)
    | Reset(id: nat)
    | CloseSend(id: nat)
    | GetUpdate(update: WindowUpdate)
    | OpenRecv(id: nat)
    | GetData(id: nat, offset: nat)
    | GetReset(id: nat, offset: nat)
    | ReadBytes(id: nat, n: nat, now: int)
    | SendUpdates(force: bool, clock: Clock, updates: seq<WindowUpdate>)
    | CloseRecv(id: nat)

  function Initial(sp: Params, rp: Params): System {
    System(NewManager(sp), map[], NewManager(rp), map[], {}, {}, {}, {})
  }

  /** A frame for an unknown stream opens it; one for a removed stream does not. */
  function Opened(m: Manager, l: FlowLedger.Ledger, id: nat): Manager {
    if id in l then m else AfterNewStream(m, id, Contributes(id))
  }

  /** What the receiver does with data, or a reset, up to `offset`. Frames for removed
      streams are ignored. */
  function Received(s: System, id: nat, offset: nat, reset: bool): (Manager, Error) {
    var m := Opened(s.rcv, s.received, id);
    if id !in m.streams then (m, NoError)
    else if reset then AfterReset(m, id, offset)
    else AfterReceive(m, id, offset)
  }

  function Updated(s: System, u: WindowUpdate): Manager {
    if u.stream == 0 then AfterWindowUpdate(s.snd, 0, u.offset).0
    else AfterWindowUpdate(Opened(s.snd, s.sent, u.stream), u.stream, u.offset).0
  }

  function WithSender(s: System, m: Manager): System {
    s.(snd := m, sent := FlowLedger.Record(s.sent, m))
  }

  function WithReceiver(s: System, m: Manager): System {
    s.(rcv := m, received := FlowLedger.Record(s.received, m))
  }

  /** Stream 0 is the connection, and stream 1 carries the handshake without flow control. */
  predicate IsStream(id: nat) {
    id > 1
  }

  ghost predicate OpensSend(s: System, id: nat, s': System) {
    IsStream(id) && id !in s.sent && s' == WithSender(s, Opened(s.snd, s.sent, id))
  }

  /** The sender takes no more than `StreamAvailable` allows. */
  ghost predicate Sends(s: System, id: nat, n: nat, s': System) {
    && id in s.snd.streams && id !in s.stopped && n <= StreamAvailable(s.snd, id)
    && s' == WithSender(s, AfterSend(s.snd, id, n).0).(data := s.data + {Data(id, s.snd.streams[id].bytesSent + n)})
  }

  ghost predicate Resets(s: System, id: nat, s': System) {
    && id in s.snd.streams
    && s' == s.(resets := s.resets + {Data(id, s.snd.streams[id].bytesSent)}, stopped := s.stopped + {id})
  }

  ghost predicate GetsUpdate(s: System, u: WindowUpdate, s': System) {
    u in s.updates && s' == WithSender(s, Updated(s, u))
  }

  ghost predicate OpensRecv(s: System, id: nat, s': System) {
    IsStream(id) && id !in s.received && s' == WithReceiver(s, Opened(s.rcv, s.received, id))
  }

  /** Any piece of sent data may arrive; the receiver's manager may return an error. */
  ghost predicate GetsData(s: System, id: nat, offset: nat, s': System) {
    && (exists d | d in s.data :: d.stream == id && offset <= d.end)
    && s' == WithReceiver(s, Received(s, id, offset, false).0)
  }

  ghost predicate GetsReset(s: System, id: nat, offset: nat, s': System) {
    Data(id, offset) in s.resets && s' == WithReceiver(s, Received(s, id, offset, true).0)
  }

  ghost predicate Reads(s: System, id: nat, n: nat, now: int, s': System) {
    && id in s.rcv.streams && n <= s.rcv.streams[id].highestReceived - s.rcv.streams[id].bytesRead
    && s' == WithReceiver(s, AfterRead(s.rcv, id, n, now).0)
  }

  ghost predicate SendsUpdates(s: System, force: bool, clock: Clock, updates: seq<WindowUpdate>, s': System) {
    && UpdatesSpec(s.rcv, force, clock, s'.rcv, updates)
    && s' == WithReceiver(s, s'.rcv).(updates := s.updates + (set u | u in updates))
  }

  ghost predicate Next(s: System, step: Step, s': System) {
    match step
    case OpenSend(id) => OpensSend(s, id, s')
    case Send(id, n) => Sends(s, id, n, s')
    case Reset(id) => Resets(s, id, s')
    case CloseSend(id) => s' == WithSender(s, AfterRemove(s.snd, id))
    case GetUpdate(u) => GetsUpdate(s, u, s')
    case OpenRecv(id) => OpensRecv(s, id, s')
    case GetData(id, offset) => GetsData(s, id, offset, s')
    case GetReset(id, offset) => GetsReset(s, id, offset, s')
    case ReadBytes(id, n, now) => Reads(s, id, n, now, s')
    case SendUpdates(force, clock, updates) => SendsUpdates(s, force, clock, updates, s')
    case CloseRecv(id) => s' == WithReceiver(s, AfterRemove(s.rcv, id))
  }

  /** The sender's initial windows are at most the receiver's. */
  ghost predicate ParamsAgree(sp: Params, rp: Params) {
    && FlowLedger.ParamsOk(sp) && FlowLedger.ParamsOk(rp)
    && sp.sendStream <= rp.recvStream && sp.sendConn <= rp.recvConn
  }

  ghost predicate IsRun(sp: Params, rp: Params, run: seq<System>, steps: seq<Step>) {
    && ParamsAgree(sp, rp)
    && |run| == |steps| + 1
    && run[0] == Initial(sp, rp)
    && forall i | 0 <= i < |steps| :: Next(run[i], steps[i], run[i + 1])
  }

  // ---------------------------------------------------------------------------
  // Invariant
  // ---------------------------------------------------------------------------

  /** The receive window of a stream, also before it is opened and after it is removed. */
  function Window(s: System, id: nat): nat {
    if id in s.received then s.received[id].window else s.rcv.params.recvStream
  }

  function SentOn(s: System, id: nat): nat {
    if id in s.sent then s.sent[id].sent else 0
  }

  /** A sender's window grows from its initial value, stays within `limit` and is kept. */
  predicate SendOk(c: Controller, initial: nat, limit: nat) {
    && c.initialSendWindow == initial
    && (c.sendWindow == 0 || initial <= c.sendWindow)
    && c.bytesSent <= SendWindow(c) <= limit
  }

  ghost predicate SenderOk(s: System) {
    && SendOk(s.snd.conn, s.snd.params.sendConn, s.rcv.conn.receiveWindow)
    && (forall id | id in s.snd.streams :: SendOk(s.snd.streams[id], s.snd.params.sendStream, Window(s, id)))
    && (forall id | id in s.sent :: s.sent[id].sent <= Window(s, id))
  }

  ghost predicate UpdatesOk(s: System) {
    && s.rcv.params.recvConn <= s.rcv.conn.receiveWindow
    && (forall id | id in s.received :: s.rcv.params.recvStream <= s.received[id].window)
    && forall u | u in s.updates ::
         if u.stream == 0 then s.rcv.params.recvConn <= u.offset <= s.rcv.conn.receiveWindow
         else u.stream in s.received && s.rcv.params.recvStream <= u.offset <= s.received[u.stream].window
  }

  ghost predicate DataOk(s: System) {
    && (forall d | d in s.data :: d.stream in s.sent && d.end <= s.sent[d.stream].sent)
    && (forall d | d in s.resets :: d.stream in s.sent && d.stream in s.stopped && d.end == s.sent[d.stream].sent)
    && (forall id | id in s.received :: s.received[id].received <= SentOn(s, id))
  }

  ghost predicate Inv(s: System) {
    && ParamsAgree(s.snd.params, s.rcv.params)
    && FlowLedger.Inv(s.snd, s.sent)
    && FlowLedger.Inv(s.rcv, s.received)
    && SenderOk(s)
    && UpdatesOk(s)
    && DataOk(s)
  }

  // Steps of the sender ------------------------------------------------------

  /** The sender's side changes only in one controller and the connection. */
  lemma OneSenderOk(s: System, id: nat, c: Controller, conn: Controller, s': System)
    requires SenderOk(s)
    requires s' == s.(snd := s.snd.(streams := s.snd.streams[id := c], conn := conn),
                      sent := s.sent[id := FlowLedger.AccountOf(c)])
    requires SendOk(conn, s.snd.params.sendConn, s.rcv.conn.receiveWindow)
    requires SendOk(c, s.snd.params.sendStream, Window(s, id))
    ensures SenderOk(s')
  {
  }

  lemma OneDataOk(s: System, id: nat, a: FlowLedger.Account, s': System)
    requires DataOk(s)
    requires s' == s.(snd := s'.snd, sent := s.sent[id := a])
    requires SentOn(s, id) <= a.sent && (id in s.stopped && id in s.sent ==> a.sent == s.sent[id].sent)
    ensures DataOk(s')
  {
  }

  lemma SendKeepsSenderOk(s: System, id: nat, n: nat, s': System)
    requires SenderOk(s) && Sends(s, id, n, s')
    requires s'.sent == s.sent[id := FlowLedger.AccountOf(s'.snd.streams[id])]
    ensures SenderOk(s')
  {
    var c, conn := s'.snd.streams[id], s'.snd.conn;
    assert c == WithSent(s.snd.streams[id], n);
    OneSenderOk(s, id, c, conn, s'.(data := s.data));
  }

  lemma SendKeepsDataOk(s: System, id: nat, n: nat, s': System)
    requires DataOk(s) && Sends(s, id, n, s')
    requires id in s.sent && s.sent[id] == FlowLedger.AccountOf(s.snd.streams[id])
    requires s'.sent == s.sent[id := FlowLedger.AccountOf(s'.snd.streams[id])]
    ensures DataOk(s')
  {
    OneDataOk(s, id, s'.sent[id], s'.(data := s.data));
  }

  lemma SendKeepsInv(s: System, id: nat, n: nat, s': System)
    requires Inv(s) && Sends(s, id, n, s')
    ensures Inv(s')
  {
    FlowLedger.SendKeepsInv(s.snd, s.sent, id, n, s'.snd);
    SendKeepsSenderOk(s, id, n, s');
    SendKeepsDataOk(s, id, n, s');
  }

  /** Opening a stream at the sender records an account with nothing sent. */
  lemma OpenAtSender(s: System, id: nat)
    requires Inv(s) && id != 0 && id !in s.sent
    ensures Inv(WithSender(s, Opened(s.snd, s.sent, id)))
  {
    var m := Opened(s.snd, s.sent, id);
    var s' := WithSender(s, m);
    FlowLedger.OpenKeepsInv(s.snd, s.sent, id, m);
    OneSenderOk(s, id, m.streams[id], m.conn, s');
    OneDataOk(s, id, FlowLedger.AccountOf(m.streams[id]), s');
  }

  lemma UpdateKeepsSenderOk(s: System, u: WindowUpdate, s': System)
    requires SenderOk(s) && UpdatesOk(s) && u in s.updates && ParamsAgree(s.snd.params, s.rcv.params)
    requires u.stream == 0 || u.stream in s.snd.streams
    requires s' == s.(snd := AfterWindowUpdate(s.snd, u.stream, u.offset).0)
    ensures SenderOk(s')
  {
  }

  /** An update raises the sender's window to one the receiver has granted. */
  lemma GrantedUpdate(s: System, u: WindowUpdate)
    requires Inv(s) && u in s.updates
    requires u.stream == 0 || u.stream in s.snd.streams
    ensures Inv(WithSender(s, AfterWindowUpdate(s.snd, u.stream, u.offset).0))
  {
    var m := AfterWindowUpdate(s.snd, u.stream, u.offset).0;
    FlowLedger.UpdateKeepsInv(s.snd, s.sent, u.stream, u.offset, m);
    UpdateKeepsSenderOk(s, u, WithSender(s, m));
  }

  lemma GetUpdateKeepsInv(s: System, u: WindowUpdate, s': System)
    requires Inv(s) && GetsUpdate(s, u, s')
    ensures Inv(s')
  {
    if u.stream == 0 || u.stream in s.snd.streams {
      GrantedUpdate(s, u);
    } else if u.stream in s.sent {
      FlowLedger.RecordsNothingNew(s.sent, s.snd);
    } else {
      var m := Opened(s.snd, s.sent, u.stream);
      OpenAtSender(s, u.stream);
      GrantedUpdate(WithSender(s, m), u);
      FlowLedger.RecordTwice(s.sent, m, s'.snd);
    }
  }

  lemma CloseSendKeepsInv(s: System, id: nat, s': System)
    requires Inv(s) && s' == WithSender(s, AfterRemove(s.snd, id))
    ensures Inv(s')
  {
    FlowLedger.CallKeepsInv(s.snd, s.sent, FlowLedger.RemoveStream(id), s'.snd);
    FlowLedger.RecordsNothingNew(s.sent, s'.snd);
  }

  lemma ResetKeepsInv(s: System, id: nat, s': System)
    requires Inv(s) && Resets(s, id, s')
    ensures Inv(s')
  {
  }

  // Steps of the receiver ----------------------------------------------------

  /** The receiver's windows only grow. */
  ghost predicate Widens(s: System, s': System) {
    && s' == s.(rcv := s'.rcv, received := s'.received)
    && s'.rcv.params == s.rcv.params
    && s.received.Keys <= s'.received.Keys
    && s.rcv.conn.receiveWindow <= s'.rcv.conn.receiveWindow
    && forall id | id in s'.received :: Window(s, id) <= s'.received[id].window
  }

  lemma WideningKeepsSender(s: System, s': System)
    requires SenderOk(s) && UpdatesOk(s) && Widens(s, s')
    ensures SenderOk(s') && UpdatesOk(s')
  {
    assert forall id :: Window(s, id) <= Window(s', id);
  }

  lemma OpenAtReceiver(s: System, id: nat)
    requires Inv(s) && id != 0 && id !in s.received
    ensures Inv(WithReceiver(s, Opened(s.rcv, s.received, id)))
  {
    var m := Opened(s.rcv, s.received, id);
    FlowLedger.OpenKeepsInv(s.rcv, s.received, id, m);
    WideningKeepsSender(s, WithReceiver(s, m));
  }

  /** What the receiver has counted is within the sender's totals, hence within its window. */
  lemma ConnectionHasRoom(s: System, l: FlowLedger.Ledger)
    requires Inv(s)
    requires forall id | id in l :: l[id].received <= SentOn(s, id)
    ensures FlowLedger.Total(l, FlowLedger.Received) <= s.rcv.conn.receiveWindow
  {
    FlowLedger.TotalCompare(l, FlowLedger.Received, s.sent, FlowLedger.Sent);
  }

  /** Neither violation check fires for data that the sender was allowed to send. */
  lemma SentDataFits(s: System, id: nat, offset: nat)
    requires Inv(s) && id in s.rcv.streams && offset <= SentOn(s, id)
    ensures AfterReceive(s.rcv, id, offset).1 == NoError
  {
    var c := s.rcv.streams[id];
    var c' := WithHighest(c, offset);
    var l' := s.received[id := FlowLedger.AccountOf(c')];
    assert s.received[id] == FlowLedger.AccountOf(c);
    assert SentOn(s, id) <= Window(s, id);
    FlowLedger.TotalSet(s.received, FlowLedger.Received, id, FlowLedger.AccountOf(c'));
    ConnectionHasRoom(s, l');
  }

  lemma ReceiveKeepsDataOk(s: System, id: nat, offset: nat, s': System)
    requires DataOk(s) && id in s.rcv.streams && offset <= SentOn(s, id)
    requires id in s.received && s.received[id] == FlowLedger.AccountOf(s.rcv.streams[id])
    requires s' == s.(rcv := s'.rcv, received := s.received[id := FlowLedger.AccountOf(WithHighest(s.rcv.streams[id], offset))])
    ensures DataOk(s')
  {
  }

  lemma SentDataKeepsInv(s: System, id: nat, offset: nat)
    requires Inv(s) && id in s.rcv.streams && offset <= SentOn(s, id)
    ensures Inv(WithReceiver(s, AfterReceive(s.rcv, id, offset).0))
  {
    SentDataFits(s, id, offset);
    var m := AfterReceive(s.rcv, id, offset).0;
    var s' := WithReceiver(s, m);
    FlowLedger.ReceiveKeepsInv(s.rcv, s.received, id, offset, m);
    ReceiveKeepsDataOk(s, id, offset, s');
    WideningKeepsSender(s, s');
  }

  /** A RST_STREAM carries the final offset, so it is never behind received data. */
  lemma FrameKeepsInv(s: System, id: nat, offset: nat, reset: bool)
    requires Inv(s) && id in s.sent && id != 0
    requires if reset then offset == SentOn(s, id) else offset <= SentOn(s, id)
    ensures Received(s, id, offset, reset).1 == NoError
    ensures Inv(WithReceiver(s, Received(s, id, offset, reset).0))
  {
    var m := Opened(s.rcv, s.received, id);
    var s1 := WithReceiver(s, m);
    if id in s.received {
      FlowLedger.RecordsNothingNew(s.received, s.rcv);
    } else {
      OpenAtReceiver(s, id);
    }
    assert Inv(s1);
    if id in m.streams {
      LiveFrame(s1, id, offset, reset);
      FlowLedger.RecordTwice(s.received, m, AfterReceive(m, id, offset).0);
    }
  }

  lemma LiveFrame(s: System, id: nat, offset: nat, reset: bool)
    requires Inv(s) && id in s.rcv.streams
    requires if reset then offset == SentOn(s, id) else offset <= SentOn(s, id)
    ensures reset ==> AfterReset(s.rcv, id, offset) == AfterReceive(s.rcv, id, offset)
    ensures AfterReceive(s.rcv, id, offset).1 == NoError
    ensures Inv(WithReceiver(s, AfterReceive(s.rcv, id, offset).0))
  {
    SentDataFits(s, id, offset);
    SentDataKeepsInv(s, id, offset);
    assert s.received[id] == FlowLedger.AccountOf(s.rcv.streams[id]);
  }

  lemma GetDataKeepsInv(s: System, id: nat, offset: nat, s': System)
    requires Inv(s) && GetsData(s, id, offset, s')
    ensures Inv(s') && Received(s, id, offset, false).1 == NoError
  {
    var d :| d in s.data && d.stream == id && offset <= d.end;
    FrameKeepsInv(s, id, offset, false);
  }

  lemma GetResetKeepsInv(s: System, id: nat, offset: nat, s': System)
    requires Inv(s) && GetsReset(s, id, offset, s')
    ensures Inv(s') && Received(s, id, offset, true).1 == NoError
  {
    assert Data(id, offset).stream == id;
    FrameKeepsInv(s, id, offset, true);
  }

  lemma ReadKeepsInv(s: System, id: nat, n: nat, now: int, s': System)
    requires Inv(s) && Reads(s, id, n, now, s')
    ensures Inv(s')
  {
    FlowLedger.ReadKeepsInv(s.rcv, s.received, id, n, now, s'.rcv);
    assert s.received[id] == FlowLedger.AccountOf(s.rcv.streams[id]);
    UpdatesKeepDataOk(s, s');
    WideningKeepsSender(s, s');
  }

  lemma UpdatesKeepDataOk(s: System, s': System)
    requires DataOk(s) && s' == s.(rcv := s'.rcv, received := s'.received, updates := s'.updates)
    requires s'.received.Keys == s.received.Keys
    requires forall id | id in s.received :: s'.received[id].received == s.received[id].received
    ensures DataOk(s')
  {
  }

  lemma SendUpdatesKeepInv(s: System, force: bool, clock: Clock, updates: seq<WindowUpdate>, s': System)
    requires Inv(s) && SendsUpdates(s, force, clock, updates, s')
    ensures Inv(s')
  {
    var call := FlowLedger.SendUpdates(force, clock, updates);
    FlowLedger.CallKeepsInv(s.rcv, s.received, call, s'.rcv);
    FlowLedger.CallIsMonotone(s.rcv, s.received, call, s'.rcv);
    WindowUpdatesWiden(s.rcv, force, clock, s'.rcv, updates);
    FlowLedger.SameCountersBalance(s.rcv, s.received, s'.rcv);
    UpdatesKeepDataOk(s, s');
    var s1 := s'.(updates := s.updates);
    assert Widens(s, s1);
    WideningKeepsSender(s, s1);
    NewUpdatesOk(s1, updates, s');
  }

  lemma NewUpdatesOk(s: System, updates: seq<WindowUpdate>, s': System)
    requires UpdatesOk(s) && SenderOk(s)
    requires s' == s.(updates := s.updates + (set u | u in updates))
    requires forall id | id in s.rcv.streams :: id in s.received && s.received[id] == FlowLedger.AccountOf(s.rcv.streams[id])
    requires forall u | u in updates ::
               if u.stream == 0 then u.offset == s.rcv.conn.receiveWindow
               else u.stream in s.rcv.streams && u.offset == s.rcv.streams[u.stream].receiveWindow
    ensures UpdatesOk(s') && SenderOk(s')
  {
    assert forall id :: Window(s', id) == Window(s, id);
  }

  lemma CloseRecvKeepsInv(s: System, id: nat, s': System)
    requires Inv(s) && s' == WithReceiver(s, AfterRemove(s.rcv, id))
    ensures Inv(s')
  {
    FlowLedger.CallKeepsInv(s.rcv, s.received, FlowLedger.RemoveStream(id), s'.rcv);
    FlowLedger.RecordsNothingNew(s.received, s'.rcv);
    WideningKeepsSender(s, s');
  }

  lemma NextKeepsInv(s: System, step: Step, s': System)
    requires Inv(s) && Next(s, step, s')
    ensures Inv(s')
  {
    match step
    case OpenSend(id) => OpenAtSender(s, id);
    case Send(id, n) => SendKeepsInv(s, id, n, s');
    case Reset(id) => ResetKeepsInv(s, id, s');
    case CloseSend(id) => CloseSendKeepsInv(s, id, s');
    case GetUpdate(u) => GetUpdateKeepsInv(s, u, s');
    case OpenRecv(id) => OpenAtReceiver(s, id);
    case GetData(id, offset) => GetDataKeepsInv(s, id, offset, s');
    case GetReset(id, offset) => GetResetKeepsInv(s, id, offset, s');
    case ReadBytes(id, n, now) => ReadKeepsInv(s, id, n, now, s');
    case SendUpdates(force, clock, updates) => SendUpdatesKeepInv(s, force, clock, updates, s');
    case CloseRecv(id) => CloseRecvKeepsInv(s, id, s');
  }

  lemma {:induction false} RunInv(sp: Params, rp: Params, run: seq<System>, steps: seq<Step>, i: nat)
    requires IsRun(sp, rp, run, steps) && i < |run|
    ensures Inv(run[i])
  {
    if i > 0 {
      RunInv(sp, rp, run, steps, i - 1);
      NextKeepsInv(run[i - 1], steps[i - 1], run[i]);
    }
  }

  // ---------------------------------------------------------------------------
  // Main results
  // ---------------------------------------------------------------------------

  /** In every reachable state the sender's windows are at most the receiver's and the sender
      has kept to them, for every stream and for the connection. */
  lemma SenderWindowsAreGranted(sp: Params, rp: Params, run: seq<System>, steps: seq<Step>, i: nat)
    requires IsRun(sp, rp, run, steps) && i < |run|
    ensures
      var s := run[i];
      && s.snd.conn.bytesSent <= SendWindow(s.snd.conn) <= s.rcv.conn.receiveWindow
      && forall id | id in s.snd.streams ::
           && s.snd.streams[id].bytesSent <= SendWindow(s.snd.streams[id])
           && SendWindow(s.snd.streams[id])
              <= (if id in s.rcv.streams then s.rcv.streams[id].receiveWindow else Window(s, id))
  {
    RunInv(sp, rp, run, steps, i);
  }

  /** In every run the receiver accepts whatever arrives: neither its stream-level nor its
      connection-level check fires, and no RST_STREAM is behind received data. */
  lemma NoViolation(sp: Params, rp: Params, run: seq<System>, steps: seq<Step>, i: nat)
    requires IsRun(sp, rp, run, steps) && i < |steps|
    ensures steps[i].GetData? ==> Received(run[i], steps[i].id, steps[i].offset, false).1 == NoError
    ensures steps[i].GetReset? ==> Received(run[i], steps[i].id, steps[i].offset, true).1 == NoError
  {
    RunInv(sp, rp, run, steps, i);
    match steps[i] {
      case GetData(id, offset) => GetDataKeepsInv(run[i], id, offset, run[i + 1]);
      case GetReset(id, offset) => GetResetKeepsInv(run[i], id, offset, run[i + 1]);
      case _ =>
    }
  }
}
