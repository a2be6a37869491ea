/** Conservation in the flow-control manager: the connection's counters are the sums over
    all streams that ever contributed, those already removed included. */
module FlowLedger {
  import opened FlowControl

  /** What a stream has sent, read and received, and its receive window. */
  datatype Account = Account(sent: nat, read: nat, received: nat, window: nat)

  /** The accounts of all streams that ever existed. */
  type Ledger = map<nat, Account>

  datatype Field = Sent | Read | Received

  function Get(a: Account, f: Field): nat {
    match f
    case Sent => a.sent
    case Read => a.read
    case Received => a.received
  }

  function Weight(id: nat, a: Account, f: Field): nat {
    if Contributes(id) then Get(a, f) else 0
  }

  /** The sum over the contributing streams. */
  ghost function Total(l: Ledger, f: Field): nat
    decreases |l|
  {
    if l == map[] then 0
    else
      var id :| id in l;
      Weight(id, l[id], f) + Total(l - {id}, f)
  }

  lemma {:induction false} TotalTakeOut(l: Ledger, f: Field, id: nat)
    requires id in l
    ensures Total(l, f) == Weight(id, l[id], f) + Total(l - {id}, f)
    decreases |l|
  {
    var first :| first in l && Total(l, f) == Weight(first, l[first], f) + Total(l - {first}, f);
    if first != id {
      TotalTakeOut(l - {first}, f, id);
      TotalTakeOut(l - {id}, f, first);
      assert l - {first} - {id} == l - {id} - {first};
    }
  }

  lemma TotalSet(l: Ledger, f: Field, id: nat, a: Account)
    ensures Total(l[id := a], f)
            == Total(l, f) - (if id in l then Weight(id, l[id], f) else 0) + Weight(id, a, f)
  {
    TotalTakeOut(l[id := a], f, id);
    assert l[id := a] - {id} == l - {id};
    if id in l {
      TotalTakeOut(l, f, id);
    } else {
      assert l - {id} == l;
    }
  }

  /** Sums compare like their terms; a stream missing on the right must count nothing. */
  lemma {:induction false} TotalCompare(l: Ledger, f: Field, r: Ledger, g: Field)
    requires forall id | id in l && Contributes(id) :: Get(l[id], f) <= if id in r then Get(r[id], g) else 0
    ensures Total(l, f) <= Total(r, g)
    decreases |l|
  {
    if l != map[] {
      var id :| id in l;
      TotalTakeOut(l, f, id);
      TotalCompare(l - {id}, f, r - {id}, g);
      if id in r {
        TotalTakeOut(r, g, id);
      } else {
        assert r - {id} == r;
      }
    }
  }

  // ---------------------------------------------------------------------------
  // Runs of one manager
  // ---------------------------------------------------------------------------

  datatype Call =
    | NewStream(id: nat)
    | RemoveStream(id: nat)
    | ReceiveData(id: nat, offset: nat)
    | ReceiveReset(id: nat, offset: nat)
    | ReadBytes(id: nat, n: nat, now: int)
    | SendBytes(id: nat, n: nat)
    | ReceiveUpdate(id: nat, offset: nat)
    | SendUpdates(force: bool, clock: Clock, updates: seq<WindowUpdate>)

  /** The manager handles `call` without error. Stream 0 is the connection, removed streams
      are not opened again, and a stream reads only what it has received. */
  ghost predicate Handles(m: Manager, l: Ledger, call: Call, m': Manager) {
    match call
    case NewStream(id) =>
      id != 0 && (id in l ==> id in m.streams) && m' == AfterNewStream(m, id, Contributes(id))
    case RemoveStream(id) => m' == AfterRemove(m, id)
    case ReceiveData(id, offset) => (m', NoError) == AfterReceive(m, id, offset)
    case ReceiveReset(id, offset) => (m', NoError) == AfterReset(m, id, offset)
    case ReadBytes(id, n, now) =>
      && id in m.streams && n <= m.streams[id].highestReceived - m.streams[id].bytesRead
      && (m', NoError) == AfterRead(m, id, n, now)
    case SendBytes(id, n) => (m', NoError) == AfterSend(m, id, n)
    case ReceiveUpdate(id, offset) => (m', NoError) == AfterWindowUpdate(m, id, offset)
    case SendUpdates(force, clock, updates) => UpdatesSpec(m, force, clock, m', updates)
  }

  function AccountOf(c: Controller): Account {
    Account(c.bytesSent, c.bytesRead, c.highestReceived, c.receiveWindow)
  }

  /** The ledger follows the live streams and keeps the last account of removed ones. */
  function Record(l: Ledger, m: Manager): Ledger {
    l + map id | id in m.streams :: AccountOf(m.streams[id])
  }

  ghost predicate Balanced(m: Manager, l: Ledger) {
    && 0 !in l && m.streams.Keys <= l.Keys
    && (forall id | id in m.streams ::
          m.streams[id].contributes == Contributes(id) && AccountOf(m.streams[id]) == l[id])
    && m.conn.bytesSent == Total(l, Sent)
    && m.conn.bytesRead == Total(l, Read)
    && m.conn.highestReceived == Total(l, Received)
  }

  ghost predicate ParamsOk(p: Params) {
    p.recvStream <= p.maxRecvStream && p.recvConn <= p.maxRecvConn
  }

  ghost predicate Inv(m: Manager, l: Ledger) {
    && ParamsOk(m.params)
    && Balanced(m, l)
    && ManagerReceiveOk(m)
    && forall id | id in l :: l[id].read <= l[id].received
  }

  /** A call that changes one stream's controller only moves that account. */
  lemma OneStreamBalances(m: Manager, l: Ledger, id: nat, c: Controller, conn: Controller)
    requires Balanced(m, l) && id in m.streams
    requires c.contributes == Contributes(id)
    requires conn.bytesSent - m.conn.bytesSent == if Contributes(id) then c.bytesSent - m.streams[id].bytesSent else 0
    requires conn.bytesRead - m.conn.bytesRead == if Contributes(id) then c.bytesRead - m.streams[id].bytesRead else 0
    requires conn.highestReceived - m.conn.highestReceived
             == if Contributes(id) then c.highestReceived - m.streams[id].highestReceived else 0
    ensures
      var m' := m.(streams := m.streams[id := c], conn := conn);
      Record(l, m') == l[id := AccountOf(c)] && Balanced(m', Record(l, m'))
  {
    var m' := m.(streams := m.streams[id := c], conn := conn);
    assert Record(l, m') == l[id := AccountOf(c)];
    TotalSet(l, Sent, id, AccountOf(c));
    TotalSet(l, Read, id, AccountOf(c));
    TotalSet(l, Received, id, AccountOf(c));
  }

  lemma NewStreamBalances(m: Manager, l: Ledger, id: nat, c: Controller)
    requires Balanced(m, l) && id !in l && id != 0
    requires c == NewController(id, Contributes(id), m.params)
    ensures
      var m' := m.(streams := m.streams[id := c]);
      Record(l, m') == l[id := AccountOf(c)] && Balanced(m', Record(l, m'))
  {
    assert Record(l, m.(streams := m.streams[id := c])) == l[id := AccountOf(c)];
    TotalSet(l, Sent, id, AccountOf(c));
    TotalSet(l, Read, id, AccountOf(c));
    TotalSet(l, Received, id, AccountOf(c));
  }

  lemma OpenKeepsInv(m: Manager, l: Ledger, id: nat, m': Manager)
    requires Inv(m, l) && Handles(m, l, NewStream(id), m')
    ensures Record(l, m') == if id in l then l else l[id := AccountOf(m'.streams[id])]
    ensures Inv(m', Record(l, m'))
  {
    if id in m.streams {
      assert Record(l, m') == l;
    } else {
      NewStreamBalances(m, l, id, m'.streams[id]);
    }
  }

  lemma ReceiveKeepsInv(m: Manager, l: Ledger, id: nat, offset: nat, m': Manager)
    requires Inv(m, l) && (m', NoError) == AfterReceive(m, id, offset)
    ensures Record(l, m') == l[id := AccountOf(m'.streams[id])]
    ensures Inv(m', Record(l, m'))
  {
    OneStreamBalances(m, l, id, m'.streams[id], m'.conn);
  }

  lemma SendKeepsInv(m: Manager, l: Ledger, id: nat, n: nat, m': Manager)
    requires Inv(m, l) && (m', NoError) == AfterSend(m, id, n)
    ensures Record(l, m') == l[id := AccountOf(m'.streams[id])]
    ensures Inv(m', Record(l, m'))
  {
    OneStreamBalances(m, l, id, m'.streams[id], m'.conn);
  }

  lemma ReadKeepsInv(m: Manager, l: Ledger, id: nat, n: nat, now: int, m': Manager)
    requires Inv(m, l) && Handles(m, l, ReadBytes(id, n, now), m')
    ensures Record(l, m') == l[id := AccountOf(m'.streams[id])]
    ensures Inv(m', Record(l, m'))
  {
    OneStreamBalances(m, l, id, m'.streams[id], m'.conn);
    TotalCompare(Record(l, m'), Read, Record(l, m'), Received);
  }

  lemma RecordsNothingNew(l: Ledger, m: Manager)
    requires m.streams.Keys <= l.Keys && forall id | id in m.streams :: AccountOf(m.streams[id]) == l[id]
    ensures Record(l, m) == l
  {
  }

  lemma RecordTwice(l: Ledger, m: Manager, m': Manager)
    requires m.streams.Keys <= m'.streams.Keys
    ensures Record(Record(l, m), m') == Record(l, m')
  {
  }

  lemma UpdateKeepsInv(m: Manager, l: Ledger, id: nat, offset: nat, m': Manager)
    requires Inv(m, l) && (m', NoError) == AfterWindowUpdate(m, id, offset)
    ensures Inv(m', Record(l, m')) && Record(l, m') == l
  {
    assert forall id | id in m'.streams :: AccountOf(m'.streams[id]) == AccountOf(m.streams[id]);
    RecordsNothingNew(l, m');
  }

  lemma SameCountersBalance(m: Manager, l: Ledger, m': Manager)
    requires Balanced(m, l)
    requires m'.streams.Keys == m.streams.Keys && SameCounters(m.conn, m'.conn)
    requires forall id | id in m.streams :: SameCounters(m.streams[id], m'.streams[id])
    ensures Balanced(m', Record(l, m'))
    ensures forall id | id in l ::
              Record(l, m')[id].read == l[id].read && Record(l, m')[id].received == l[id].received
  {
    var l' := Record(l, m');
    assert l'.Keys == l.Keys;
    assert forall id | id in l :: l'[id] == if id in m'.streams then AccountOf(m'.streams[id]) else l[id];
    SameTotals(l, l', Sent);
    SameTotals(l, l', Read);
    SameTotals(l, l', Received);
  }

  lemma SendUpdatesKeepInv(m: Manager, l: Ledger, force: bool, clock: Clock, updates: seq<WindowUpdate>, m': Manager)
    requires Inv(m, l) && UpdatesSpec(m, force, clock, m', updates)
    ensures Inv(m', Record(l, m'))
  {
    WindowUpdatesWiden(m, force, clock, m', updates);
    SameCountersBalance(m, l, m');
  }

  lemma SameTotals(l: Ledger, l': Ledger, f: Field)
    requires l.Keys == l'.Keys && forall id | id in l :: Get(l[id], f) == Get(l'[id], f)
    ensures Total(l, f) == Total(l', f)
  {
    TotalCompare(l, f, l', f);
    TotalCompare(l', f, l, f);
  }

  lemma CallKeepsInv(m: Manager, l: Ledger, call: Call, m': Manager)
    requires Inv(m, l) && Handles(m, l, call, m')
    ensures Inv(m', Record(l, m'))
  {
    match call
    case NewStream(id) => OpenKeepsInv(m, l, id, m');
    case RemoveStream(id) => assert Record(l, m') == l;
    case ReceiveData(id, offset) => ReceiveKeepsInv(m, l, id, offset, m');
    case ReceiveReset(id, offset) => ReceiveKeepsInv(m, l, id, offset, m');
    case ReadBytes(id, n, now) => ReadKeepsInv(m, l, id, n, now, m');
    case SendBytes(id, n) => SendKeepsInv(m, l, id, n, m');
    case ReceiveUpdate(id, offset) => UpdateKeepsInv(m, l, id, offset, m');
    case SendUpdates(force, clock, updates) => SendUpdatesKeepInv(m, l, force, clock, updates, m');
  }

  /** No call takes back what was sent, read or received, or narrows a receive window. */
  lemma CallIsMonotone(m: Manager, l: Ledger, call: Call, m': Manager)
    requires Inv(m, l) && Handles(m, l, call, m')
    ensures m.conn.receiveWindow <= m'.conn.receiveWindow
    ensures forall id | id in l :: id in Record(l, m') && l[id].window <= Record(l, m')[id].window
  {
    if call.SendUpdates? {
      WindowUpdatesWiden(m, call.force, call.clock, m', call.updates);
    }
  }

  ghost predicate IsRun(p: Params, run: seq<Manager>, ledgers: seq<Ledger>, calls: seq<Call>) {
    && ParamsOk(p)
    && |run| == |ledgers| == |calls| + 1
    && run[0] == NewManager(p) && ledgers[0] == map[]
    && forall i | 0 <= i < |calls| ::
         && Handles(run[i], ledgers[i], calls[i], run[i + 1])
         && ledgers[i + 1] == Record(ledgers[i], run[i + 1])
  }

  lemma {:induction false} RunInv(p: Params, run: seq<Manager>, ledgers: seq<Ledger>, calls: seq<Call>, i: nat)
    requires IsRun(p, run, ledgers, calls) && i < |run|
    ensures Inv(run[i], ledgers[i])
  {
    if i > 0 {
      RunInv(p, run, ledgers, calls, i - 1);
      CallKeepsInv(run[i - 1], ledgers[i - 1], calls[i - 1], run[i]);
    }
  }

  /** In every error-free run the connection's totals are the sums over its streams, removed
      ones included, and at both levels no more is read than received and no more received
      than the window allows. */
  lemma Conservation(p: Params, run: seq<Manager>, ledgers: seq<Ledger>, calls: seq<Call>, i: nat)
    requires IsRun(p, run, ledgers, calls) && i < |run|
    ensures run[i].conn.bytesSent == Total(ledgers[i], Sent)
    ensures run[i].conn.bytesRead == Total(ledgers[i], Read)
    ensures run[i].conn.highestReceived == Total(ledgers[i], Received)
    ensures run[i].conn.bytesRead <= run[i].conn.highestReceived <= run[i].conn.receiveWindow
    ensures forall id | id in run[i].streams ::
              var c := run[i].streams[id];
              c.bytesRead <= c.highestReceived <= c.receiveWindow
  {
    RunInv(p, run, ledgers, calls, i);
  }

  /** In every error-free run receive windows never shrink. */
  lemma {:induction false} WindowsNeverShrink(p: Params, run: seq<Manager>, ledgers: seq<Ledger>, calls: seq<Call>, i: nat, j: nat)
    requires IsRun(p, run, ledgers, calls) && i <= j < |run|
    ensures run[i].conn.receiveWindow <= run[j].conn.receiveWindow
    ensures forall id | id in ledgers[i] :: id in ledgers[j] && ledgers[i][id].window <= ledgers[j][id].window
    decreases j - i
  {
    if i < j {
      WindowsNeverShrink(p, run, ledgers, calls, i, j - 1);
      RunInv(p, run, ledgers, calls, j - 1);
      CallIsMonotone(run[j - 1], ledgers[j - 1], calls[j - 1], run[j]);
    }
  }
}
