/** What the multiplexer does to the byte streams and datagrams of its clients, over whole runs. */
module NetstackStreams {
  import opened Prelude
  import opened NetSockets
  import opened Netstack
  import opened NetstackRuns

  const ID_SPACE: nat := 0x1_0000_0000_0000_0000

  // ---------------------------------------------------------------- stale ids

  lemma DrivesAddNone(s: State)
    ensures AfterTcpDrive(s).connections.Keys <= s.connections.Keys && AfterTcpDrive(s).associations == s.associations
    ensures AfterUdpDrive(s).associations.Keys <= s.associations.Keys && AfterUdpDrive(s).connections == s.connections
  {
  }

  lemma OnlyOpensAddIds(s: State, e: Event, n: nat, id: u64)
    requires IdsIssued(s, n) && n + (if Opens(e) then 1 else 0) < ID_SPACE
    ensures id in Step(s, e).connections ==> id in s.connections || (Opens(e) && id == n + 1)
    ensures id in Step(s, e).associations ==> id in s.associations || (Opens(e) && id == n + 1)
  {
    if e.DriveTcps? || e.DriveUdps? {
      DrivesAddNone(s);
    } else if Opens(e) {
      OpenIssuesId(s, e.msg, n);
    }
  }

  lemma {:induction false} OpenCountGrows(events: seq<Event>, i: nat)
    requires i <= |events|
    ensures OpenCount(events[..i]) <= OpenCount(events)
  {
    if i < |events| {
      assert events[..|events| - 1][..i] == events[..i];
      OpenCountGrows(events[..|events| - 1], i);
    } else {
      assert events[..i] == events;
    }
  }

  /** An id that was issued and is no longer in a table never names a later connection or
      association, although its socket slot is reused. */
  lemma {:induction false} StaleIdsStayDead(events: seq<Event>, i: nat, id: u64)
    requires i <= |events| && OpenCount(events) < ID_SPACE
    requires id <= OpenCount(events[..i])
    ensures id !in Run(events[..i]).connections ==> id !in Run(events).connections
    ensures id !in Run(events[..i]).associations ==> id !in Run(events).associations
  {
    if i < |events| {
      var front, last := events[..|events| - 1], events[|events| - 1];
      assert front[..i] == events[..i];
      StaleIdsStayDead(front, i, id);
      RunsKeepTables(front);
      OpenCountGrows(front, i);
      OnlyOpensAddIds(Run(front), last, OpenCount(front), id);
    } else {
      assert events[..i] == events;
    }
  }

  // ---------------------------------------------------------------- stale messages

  /** The message is for an id that is in no table. */
  predicate IsStale(s: State, msg: ControlMessage) {
    match msg
    case Send(id, _) => id !in s.connections
    case Close(id) => id !in s.connections
    case SendUdp(id, _, _) => id !in s.associations
    case CloseUdp(id) => id !in s.associations
    case _ => false
  }

  lemma {:induction false} SameStateSameFuture(front: seq<Event>, front': seq<Event>, back: seq<Event>)
    requires Run(front) == Run(front')
    ensures Run(front + back) == Run(front' + back)
  {
    if back == [] {
      assert front + back == front && front' + back == front';
    } else {
      var soon, last := back[..|back| - 1], back[|back| - 1];
      SameStateSameFuture(front, front', soon);
      RunOn(front, soon, last);
      RunOn(front', soon, last);
      assert back == soon + [last];
    }
  }

  lemma RunOn(front: seq<Event>, soon: seq<Event>, last: Event)
    ensures Run(front + (soon + [last])) == Step(Run(front + soon), last)
  {
    assert front + (soon + [last]) == front + soon + [last];
    RunNext(front + soon, last);
  }

  lemma RunNext(front: seq<Event>, e: Event)
    ensures Run(front + [e]) == Step(Run(front), e)
  {
    assert (front + [e])[..|front|] == front;
  }

  /** A message for a dead id can be left out of any run without a trace, however the run goes on. */
  lemma StaleMessagesAreInvisible(front: seq<Event>, msg: ControlMessage, back: seq<Event>)
    requires IsStale(Run(front), msg)
    ensures Run(front + [Control(msg)] + back) == Run(front + back)
  {
    RunNext(front, Control(msg));
    SameStateSameFuture(front + [Control(msg)], front, back);
  }

  // ---------------------------------------------------------------- one TCP entry

  function TcpOf(s: State, id: u64): TcpSocket
    requires id in s.connections
  {
    TcpAt(s.sockets, s.connections[id].handle)
  }

  /** What an event does to a connection that stays in the table, and to its socket. */
  ghost predicate TcpMoves(e: Event, id: u64, t: TcpSocket, c: Connection, t': TcpSocket, c': Connection) {
    match e
    case DriveTcps => (t', c') == DriveTcp(t, c)
    case Poll(_, _) => c' == c && (t' == t || TcpPolled(t, t'))
    case DropReceiver(to) => t' == t && c' == if to == id then c.(uplink := c.uplink.(alive := false)) else c
    case Control(Send(to, data)) => t' == t && c' == if to == id then c.(pending := c.pending + [data]) else c
    case Control(Close(to)) => t' == t && c' == if to == id then c.(closeRequested := true) else c
    case _ => t' == t && c' == c
  }

  lemma OpensLeaveTcpEntries(s: State, msg: ControlMessage, n: nat, id: u64)
    requires TablesMatchSockets(s, n) && id in s.connections && (msg.Open? || msg.OpenUdp?)
    requires n + (if Opens(Control(msg)) then 1 else 0) < ID_SPACE
    ensures var s' := Handle(s, msg);
            id in s'.connections && s'.connections[id] == s.connections[id] && TcpOf(s', id) == TcpOf(s, id)
  {
    var h := TcpHandles(s)[id];
    assert IsTcp(s.sockets, h) && h != FreeSlot(s.sockets);
    assert Handle(s, msg).sockets[h] == s.sockets[h];
    assert s.nextConnId == n + 1 || !Opens(Control(msg));
  }

  lemma PollMovesTcpEntry(s: State, e: Event, id: u64)
    requires WiredTo(s.sockets, TcpHandles(s), true) && id in s.connections && e.Poll?
    ensures var s' := Step(s, e);
            s'.connections == s.connections && (TcpOf(s', id) == TcpOf(s, id) || TcpPolled(TcpOf(s, id), TcpOf(s', id)))
  {
    var h := TcpHandles(s)[id];
    assert IsTcp(s.sockets, h);
    if Polled(s.sockets, e.sockets) {
      assert SlotPolled(s.sockets[h], e.sockets[h]);
    }
  }

  lemma UdpDriveLeavesTcpEntries(s: State, id: u64)
    requires Wired(s) && id in s.connections
    ensures AfterUdpDrive(s).connections == s.connections && TcpOf(AfterUdpDrive(s), id) == TcpOf(s, id)
  {
    assert IsTcp(s.sockets, TcpHandles(s)[id]);
    UdpDriveShrinks(s);
  }

  lemma StepMovesTcpEntry(s: State, e: Event, n: nat, id: u64)
    requires TablesMatchSockets(s, n) && n + (if Opens(e) then 1 else 0) < ID_SPACE
    requires id in s.connections && id in Step(s, e).connections
    ensures TcpMoves(e, id, TcpOf(s, id), s.connections[id], TcpOf(Step(s, e), id), Step(s, e).connections[id])
  {
    if e.DriveTcps? {
      AfterTcpDriveAt(s, id);
    } else if e.DriveUdps? {
      UdpDriveLeavesTcpEntries(s, id);
    } else if e.Poll? {
      PollMovesTcpEntry(s, e, id);
    } else if e.Control? && (e.msg.Open? || e.msg.OpenUdp?) {
      OpensLeaveTcpEntries(s, e.msg, n, id);
    }
  }

  /** An entry that a step adds is fresh. */
  lemma StepAddsFreshTcpEntry(s: State, e: Event, n: nat, id: u64)
    requires TablesMatchSockets(s, n) && n + (if Opens(e) then 1 else 0) < ID_SPACE
    requires id !in s.connections && id in Step(s, e).connections
    ensures id == n + 1 && e.Control? && e.msg.Open? && e.msg.connects
    ensures TcpOf(Step(s, e), id) == Connecting(s.nextLocalPort, e.msg.target)
    ensures Step(s, e).connections[id] == Connection(FreeSlot(s.sockets), Channel([], true), [], false)
  {
    OnlyOpensAddIds(s, e, n, id);
    assert s.nextConnId == n + 1;
  }

  // ---------------------------------------------------------------- TCP streams

  /** The payload of the event for a connection that is in the table. */
  ghost function HandledNext(s: State, e: Event, id: u64, handled: Bytes): Bytes {
    if e.Control? && e.msg.Send? && e.msg.id == id && id in s.connections then handled + e.msg.data else handled
  }

  /** All Send payloads handled for `id`, in order. */
  ghost function Handled(events: seq<Event>, id: u64): Bytes {
    if events == [] then []
    else
      var front := events[..|events| - 1];
      HandledNext(Run(front), events[|events| - 1], id, Handled(front, id))
  }

  /** Uplink: what the socket accepted, then what is queued, is what was handled, as long as no
      send failed; a failed send has asked for the close. Downlink: what the receiver got, then
      what is buffered, is what the network delivered, as long as the receiver lives; it never got
      anything else. */
  ghost predicate TcpOk(t: TcpSocket, c: Connection, handled: Bytes) {
    && (!t.sendFailed ==> Submitted(t, c) == handled)
    && (t.sendFailed ==> c.closeRequested)
    && (c.uplink.alive ==> Forwarded(t, c) == t.received)
    && Concat(c.uplink.sent) <= t.received
  }

  /** The send buffer is within its capacity and holds the last bytes accepted: the network has had a
      prefix. A shut sending half stays shut. */
  ghost predicate TxOk(t: TcpSocket) {
    |t.tx| <= 65536 && IsSuffix(t.tx, t.accepted) && (t.closed ==> !t.maySend)
  }

  lemma DriveKeepsTcpOk(t: TcpSocket, c: Connection, handled: Bytes)
    requires TcpOk(t, c, handled)
    ensures TcpOk(DriveTcp(t, c).0, DriveTcp(t, c).1, handled)
  {
    var (t1, c1) := PumpSends(t, c);
    var moved := PumpSendsFrame(t, c);
    PumpSendsConserves(t, c);
    assert TcpOk(t1, c1, handled);
    ReadsKeepTcpOk(t1, c1, handled);
  }

  lemma ReadsKeepTcpOk(t: TcpSocket, c: Connection, handled: Bytes)
    requires TcpOk(t, c, handled)
    ensures TcpOk(PumpReads(t, c).0, PumpReads(t, c).1, handled)
  {
    PumpReadsFrame(t, c);
    PumpReadsConserves(t, c);
  }

  lemma DriveKeepsTxOk(t: TcpSocket, c: Connection)
    requires TxOk(t)
    ensures TxOk(DriveTcp(t, c).0)
  {
    var moved := PumpSendsFrame(t, c);
    PumpSendsFillsAtMost(t, c);
    SuffixGrows(t.tx, t.accepted, moved);
    PumpReadsFrame(PumpSends(t, c).0, PumpSends(t, c).1);
  }

  lemma SuffixGrows<T>(s: seq<T>, t: seq<T>, more: seq<T>)
    requires IsSuffix(s, t)
    ensures IsSuffix(s + more, t + more)
  {
  }

  lemma PollKeepsTcpOk(a: TcpSocket, b: TcpSocket, c: Connection, handled: Bytes)
    requires TcpOk(a, c, handled) && TcpPolled(a, b)
    ensures TcpOk(b, c, handled)
  {
    if c.uplink.alive {
      var more := b.received[|a.received|..];
      assert Concat(c.uplink.sent) + (a.rx + more) == Concat(c.uplink.sent) + a.rx + more;
    }
  }

  lemma SendKeepsTcpOk(t: TcpSocket, c: Connection, data: Bytes, handled: Bytes)
    requires TcpOk(t, c, handled)
    ensures TcpOk(t, c.(pending := c.pending + [data]), handled + data)
  {
    ConcatSnoc(c.pending, data);
    assert t.accepted + (Concat(c.pending) + data) == t.accepted + Concat(c.pending) + data;
  }

  ghost predicate TcpStreamOk(s: State, id: u64, handled: Bytes) {
    id in s.connections ==> TcpOk(TcpOf(s, id), s.connections[id], handled) && TxOk(TcpOf(s, id))
  }

  lemma MoveKeepsTcpOk(e: Event, id: u64, t: TcpSocket, c: Connection, t': TcpSocket, c': Connection, handled: Bytes,
                       handled': Bytes)
    requires TcpMoves(e, id, t, c, t', c') && TcpOk(t, c, handled) && TxOk(t)
    requires handled' == if e.Control? && e.msg.Send? && e.msg.id == id then handled + e.msg.data else handled
    ensures TcpOk(t', c', handled') && TxOk(t')
  {
    if e.DriveTcps? {
      DriveKeepsTcpOk(t, c, handled);
      DriveKeepsTxOk(t, c);
    } else if e.Poll? && t' != t {
      PollKeepsTcpOk(t, t', c, handled);
    } else if e.Control? && e.msg.Send? && e.msg.id == id {
      SendKeepsTcpOk(t, c, e.msg.data, handled);
    }
  }

  lemma StepKeepsTcpStream(s: State, e: Event, n: nat, id: u64, handled: Bytes)
    requires TablesMatchSockets(s, n) && TcpStreamOk(s, id, handled) && (id > n ==> handled == [])
    requires n + (if Opens(e) then 1 else 0) < ID_SPACE
    ensures TcpStreamOk(Step(s, e), id, HandledNext(s, e, id, handled))
  {
    var s' := Step(s, e);
    if id in s.connections && id in s'.connections {
      StepMovesTcpEntry(s, e, n, id);
      MoveKeepsTcpOk(e, id, TcpOf(s, id), s.connections[id], TcpOf(s', id), s'.connections[id], handled,
                     HandledNext(s, e, id, handled));
    } else if id in s'.connections {
      StepAddsFreshTcpEntry(s, e, n, id);
    }
  }

  lemma {:induction false} NothingHandledBeforeIssue(events: seq<Event>, id: u64)
    requires OpenCount(events) < id
    ensures Handled(events, id) == [] && id !in Run(events).connections
  {
    if events != [] {
      var front, last := events[..|events| - 1], events[|events| - 1];
      NothingHandledBeforeIssue(front, id);
      RunsKeepTables(front);
      OnlyOpensAddIds(Run(front), last, OpenCount(front), id);
    }
  }

  /** In every run, whatever the batching, the partial writes and the number of drives, each live
      connection conserves its byte streams in both directions. */
  lemma {:induction false} RunsConserveTcpStreams(events: seq<Event>, id: u64)
    requires OpenCount(events) < ID_SPACE
    ensures TcpStreamOk(Run(events), id, Handled(events, id))
  {
    if events != [] {
      var front, last := events[..|events| - 1], events[|events| - 1];
      RunsConserveTcpStreams(front, id);
      RunsKeepTables(front);
      if id > OpenCount(front) {
        NothingHandledBeforeIssue(front, id);
      }
      StepKeepsTcpStream(Run(front), last, OpenCount(front), id, Handled(front, id));
    }
  }

  /** The socket always holds a prefix of what its client sent, and the network has had a prefix of that:
      nothing lost, repeated or reordered, as long as no send failed. */
  lemma SocketHoldsPrefix(events: seq<Event>, id: u64)
    requires OpenCount(events) < ID_SPACE && id in Run(events).connections
    ensures var t := TcpOf(Run(events), id);
            && |t.tx| <= 65536 && IsSuffix(t.tx, t.accepted)
            && (!t.sendFailed ==> t.accepted <= Handled(events, id))
  {
    RunsConserveTcpStreams(events, id);
  }

  // ---------------------------------------------------------------- closing a TCP connection

  /** The drive at `i` shuts the sending half of the connection. */
  ghost predicate ShutsAt(events: seq<Event>, i: nat, id: u64) {
    && i < |events| && events[i] == DriveTcps
    && var s := Run(events[..i]);
       id in s.connections && TcpOf(s, id).maySend && DriveTcp(TcpOf(s, id), s.connections[id]).1.closeRequested
  }

  /** The connection, if it is still in the table, is shut, and its socket has accepted `accepted`. */
  ghost predicate ShutWith(s: State, id: u64, accepted: Bytes) {
    id in s.connections ==>
      TcpOf(s, id).closed && !TcpOf(s, id).maySend && TcpOf(s, id).accepted == accepted
  }

  lemma DriveAfterShut(t: TcpSocket, c: Connection)
    requires !t.maySend
    ensures var t' := DriveTcp(t, c).0; t'.closed == t.closed && !t'.maySend && t'.accepted == t.accepted
  {
    PumpReadsFrame(t, c);
  }

  lemma StepKeepsShut(s: State, e: Event, n: nat, id: u64, accepted: Bytes)
    requires TablesMatchSockets(s, n) && ShutWith(s, id, accepted) && id <= n
    requires n + (if Opens(e) then 1 else 0) < ID_SPACE
    ensures ShutWith(Step(s, e), id, accepted)
  {
    var s' := Step(s, e);
    if id in s'.connections {
      if id in s.connections {
        StepMovesTcpEntry(s, e, n, id);
        DriveAfterShut(TcpOf(s, id), s.connections[id]);
      } else {
        StepAddsFreshTcpEntry(s, e, n, id);
      }
    }
  }

  lemma {:induction false} RunsKeepShut(events: seq<Event>, i: nat, id: u64, accepted: Bytes)
    requires i <= |events| && OpenCount(events) < ID_SPACE
    requires id <= OpenCount(events[..i]) && ShutWith(Run(events[..i]), id, accepted)
    ensures ShutWith(Run(events), id, accepted)
  {
    if i < |events| {
      var front, last := events[..|events| - 1], events[|events| - 1];
      assert front[..i] == events[..i];
      RunsKeepShut(front, i, id, accepted);
      RunsKeepTables(front);
      OpenCountGrows(front, i);
      StepKeepsShut(Run(front), last, OpenCount(front), id, accepted);
    } else {
      assert events[..i] == events;
    }
  }

  lemma ShutDriveShuts(events: seq<Event>, i: nat, id: u64)
    requires ShutsAt(events, i, id) && OpenCount(events) < ID_SPACE
    ensures var s := Run(events[..i]);
            && TablesMatchSockets(s, OpenCount(events[..i])) && id <= OpenCount(events[..i + 1])
            && ShutWith(Run(events[..i + 1]), id, DriveTcp(TcpOf(s, id), s.connections[id]).0.accepted)
  {
    OpenCountGrows(events, i);
    OpenCountGrows(events, i + 1);
    assert events[..i + 1][..i] == events[..i];
    RunsKeepTables(events[..i]);
    var s := Run(events[..i]);
    AfterTcpDriveAt(s, id);
    ClosingDriveShuts(TcpOf(s, id), s.connections[id]);
  }

  /** Delivery is decided by the drive that shuts the sending half: everything sent before it is accepted
      exactly when the queue fitted at that drive, and nothing is accepted afterwards, whatever
      happens, up to and including the drive that removes the connection. */
  lemma CloseDeliversIff(events: seq<Event>, i: nat, id: u64)
    requires OpenCount(events) < ID_SPACE && ShutsAt(events, i, id)
    ensures var s := Run(events[..i]);
            var t, c := TcpOf(s, id), s.connections[id];
            var accepted := DriveTcp(t, c).0.accepted;
            && (!t.sendFailed ==> (accepted == Handled(events[..i], id) <==> QueueFits(t, c)))
            && (id in Run(events).connections ==>
                  && TcpOf(Run(events), id).accepted == accepted
                  && DriveTcp(TcpOf(Run(events), id), Run(events).connections[id]).0.accepted == accepted)
  {
    var s := Run(events[..i]);
    var t, c := TcpOf(s, id), s.connections[id];
    OpenCountGrows(events, i);
    RunsConserveTcpStreams(events[..i], id);
    if !t.sendFailed {
      ClosingDriveDeliversIff(t, c);
    }
    ShutDriveShuts(events, i, id);
    RunsKeepShut(events, i + 1, id, DriveTcp(t, c).0.accepted);
    if id in Run(events).connections {
      DriveAfterShut(TcpOf(Run(events), id), Run(events).connections[id]);
    }
  }

  /** The first connection once the network has answered. */
  function Established(target: Endpoint): TcpSocket {
    Connecting(40000, target).(maySend := true, sendsLeft := 1)
  }

  /** A client opens a connection, sends `data` once it is established, and closes; the loop then drives. */
  function SendAndClose(target: Endpoint, data: Bytes): seq<Event> {
    [Control(Open(target, true)), Poll([Some(Tcp(Established(target)))], []), Control(Send(1, data)), Control(Close(1)),
     DriveTcps]
  }

  lemma RunSnoc(front: seq<Event>, e: Event, id: u64)
    ensures Run(front + [e]) == Step(Run(front), e)
    ensures Handled(front + [e], id) == HandledNext(Run(front), e, id, Handled(front, id))
  {
    assert (front + [e])[..|front|] == front;
  }

  /** The state before the drive of that run. */
  lemma BeforeTheDrive(target: Endpoint, data: Bytes)
    ensures var events := SendAndClose(target, data)[..4];
            && 1 in Run(events).connections && TcpOf(Run(events), 1) == Established(target)
            && Run(events).connections[1].pending == [data] && Run(events).connections[1].closeRequested
            && Handled(events, 1) == data
  {
    var all := SendAndClose(target, data);
    assert all[..1] == [] + [all[0]] && all[..2] == all[..1] + [all[1]];
    assert all[..3] == all[..2] + [all[2]] && all[..4] == all[..3] + [all[3]];
    RunSnoc([], all[0], 1);
    assert Run(all[..1]).sockets == [Some(Tcp(Connecting(40000, target)))];
    RunSnoc(all[..1], all[1], 1);
    assert SlotPolled(Some(Tcp(Connecting(40000, target))), Some(Tcp(Established(target))));
    assert Run(all[..2]).sockets == [Some(Tcp(Established(target)))];
    RunSnoc(all[..2], all[2], 1);
    RunSnoc(all[..3], all[3], 1);
    assert [] + data == data;
  }

  /** Data over 65536 bytes is lost by closing at once: however that run goes on, the socket never accepts
      more than the first 65536 bytes. */
  lemma OversizedSendIsLost(target: Endpoint, data: Bytes, more: seq<Event>)
    requires |data| > 65536 && OpenCount(SendAndClose(target, data) + more) < ID_SPACE
    ensures Handled(SendAndClose(target, data)[..4], 1) == data
    ensures ShutsAt(SendAndClose(target, data) + more, 4, 1)
    ensures 1 in Run(SendAndClose(target, data)).connections
    ensures var s := Run(SendAndClose(target, data) + more);
            1 in s.connections ==> TcpOf(s, 1).accepted == data[..65536]
  {
    var first, events := SendAndClose(target, data), SendAndClose(target, data) + more;
    assert events[..4] == first[..4] && events[4] == DriveTcps;
    BeforeTheDrive(target, data);
    var s := Run(first[..4]);
    OversizedDrive(target, s.connections[1], data);
    CloseDeliversIff(events, 4, 1);
    OpenCountGrows(events, 4);
    RunsKeepTables(events[..4]);
    AfterTcpDriveAt(s, 1);
    assert Run(first) == Step(s, DriveTcps);
  }

  lemma OversizedDrive(target: Endpoint, c: Connection, data: Bytes)
    requires |data| > 65536 && c.pending == [data] && c.closeRequested
    ensures var (t', c') := DriveTcp(Established(target), c);
            t'.isOpen && c'.closeRequested && t'.accepted == data[..65536]
  {
    var moved := PumpSendsFrame(Established(target), c);
    PumpReadsFrame(PumpSends(Established(target), c).0, PumpSends(Established(target), c).1);
  }

  /** At the drive that removes a connection, everything handled is either accepted, or the chunk at fault
      of a send that fails in this drive, or still queued and lost; of what was accepted, the network
      has had all but the last bytes in the send buffer. */
  lemma RemovedConnectionsUplink(events: seq<Event>, id: u64)
    requires OpenCount(events) < ID_SPACE
    requires id in Run(events).connections && id !in Run(events + [DriveTcps]).connections
    ensures var t, c := TcpOf(Run(events), id), Run(events).connections[id];
            var (t', c') := DriveTcp(t, c);
            && !t'.isOpen && IsSuffix(t'.tx, t'.accepted)
            && (!t.sendFailed ==>
                  Handled(events, id) ==
                    t'.accepted + ((if SendFails(t, c) then c.pending[t.sendsLeft] else []) + Concat(c'.pending)))
  {
    var t, c := TcpOf(Run(events), id), Run(events).connections[id];
    RemovedByDrive(events, id);
    var moved := PumpSendsFrame(t, c);
    PumpReadsFrame(PumpSends(t, c).0, PumpSends(t, c).1);
    DriveKeepsTxOk(t, c);
    if !t.sendFailed {
      FailedSendDropsChunk(t, c);
      PumpSendsConserves(t, c);
      assert [] + Concat(PumpSends(t, c).1.pending) == Concat(PumpSends(t, c).1.pending);
    }
  }

  lemma RemovedByDrive(events: seq<Event>, id: u64)
    requires OpenCount(events) < ID_SPACE
    requires id in Run(events).connections && id !in Run(events + [DriveTcps]).connections
    ensures TcpStreamOk(Run(events), id, Handled(events, id))
    ensures !DriveTcp(TcpOf(Run(events), id), Run(events).connections[id]).0.isOpen
  {
    AfterDrives(events);
    RunsKeepTables(events);
    RunsConserveTcpStreams(events, id);
    AfterTcpDriveAt(Run(events), id);
  }

  /** A connection that a drive removes has forwarded every byte received, in order, if its receiver
      is alive and no read failed. */
  lemma RemovedConnectionsForwardedAll(events: seq<Event>, id: u64)
    requires OpenCount(events) < ID_SPACE
    requires id in Run(events).connections && id !in Run(events + [DriveTcps]).connections
    ensures var (t, c) := DriveTcp(TcpOf(Run(events), id), Run(events).connections[id]);
            !t.isOpen && (c.uplink.alive && !t.recvFailed ==> Concat(c.uplink.sent) == t.received)
  {
    var t, c := TcpOf(Run(events), id), Run(events).connections[id];
    RemovedByDrive(events, id);
    DriveKeepsTcpOk(t, c, Handled(events, id));
    var moved := PumpSendsFrame(t, c);
    PumpReadsFrame(PumpSends(t, c).0, PumpSends(t, c).1);
    PumpReadsConserves(PumpSends(t, c).0, PumpSends(t, c).1);
  }

  // ---------------------------------------------------------------- one UDP entry

  function UdpOf(s: State, id: u64): UdpSocket
    requires id in s.associations
  {
    UdpAt(s.sockets, s.associations[id].handle)
  }

  /** What an event does to an association that stays in the table, and to its socket. */
  ghost predicate UdpMoves(e: Event, id: u64, u: UdpSocket, a: Association, u': UdpSocket, a': Association) {
    match e
    case DriveUdps => (u', a') == DriveUdp(u, a) && u'.isOpen
    case Poll(_, _) => a' == a && (u' == u || UdpPolled(u, u'))
    case DropUdpReceiver(to) => u' == u && a' == if to == id then a.(uplink := a.uplink.(alive := false)) else a
    case Control(SendUdp(to, target, data)) =>
      u' == u && a' == if to == id then a.(pending := a.pending + [Datagram(target, data)]) else a
    case Control(CloseUdp(to)) => u' == u && a' == if to == id then a.(closeRequested := true) else a
    case _ => u' == u && a' == a
  }

  lemma OpensLeaveUdpEntries(s: State, msg: ControlMessage, n: nat, id: u64)
    requires TablesMatchSockets(s, n) && id in s.associations && (msg.Open? || msg.OpenUdp?)
    requires n + (if Opens(Control(msg)) then 1 else 0) < ID_SPACE
    ensures var s' := Handle(s, msg);
            id in s'.associations && s'.associations[id] == s.associations[id] && UdpOf(s', id) == UdpOf(s, id)
  {
    var h := UdpHandles(s)[id];
    assert IsUdp(s.sockets, h) && h != FreeSlot(s.sockets);
    assert Handle(s, msg).sockets[h] == s.sockets[h];
    assert s.nextConnId == n + 1 || !Opens(Control(msg));
  }

  lemma PollMovesUdpEntry(s: State, e: Event, id: u64)
    requires WiredTo(s.sockets, UdpHandles(s), false) && id in s.associations && e.Poll?
    ensures var s' := Step(s, e);
            && s'.associations == s.associations
            && (UdpOf(s', id) == UdpOf(s, id) || UdpPolled(UdpOf(s, id), UdpOf(s', id)))
  {
    var h := UdpHandles(s)[id];
    assert IsUdp(s.sockets, h);
    if Polled(s.sockets, e.sockets) {
      assert SlotPolled(s.sockets[h], e.sockets[h]);
    }
  }

  lemma TcpDriveLeavesUdpEntries(s: State, id: u64)
    requires Wired(s) && id in s.associations
    ensures AfterTcpDrive(s).associations == s.associations && UdpOf(AfterTcpDrive(s), id) == UdpOf(s, id)
  {
    assert IsUdp(s.sockets, UdpHandles(s)[id]);
    TcpDriveShrinks(s);
  }

  lemma DriveMovesUdpEntry(s: State, id: u64)
    requires WiredTo(s.sockets, UdpHandles(s), false) && id in s.associations && id in AfterUdpDrive(s).associations
    ensures var s' := AfterUdpDrive(s);
            (UdpOf(s', id), s'.associations[id]) == DriveUdp(UdpOf(s, id), s.associations[id]) && UdpOf(s', id).isOpen
  {
    AfterUdpDriveAt(s, id);
  }

  lemma StepMovesUdpEntry(s: State, e: Event, n: nat, id: u64)
    requires TablesMatchSockets(s, n) && n + (if Opens(e) then 1 else 0) < ID_SPACE
    requires id in s.associations && id in Step(s, e).associations
    ensures UdpMoves(e, id, UdpOf(s, id), s.associations[id], UdpOf(Step(s, e), id), Step(s, e).associations[id])
  {
    if e.DriveTcps? {
      TcpDriveLeavesUdpEntries(s, id);
    } else if e.DriveUdps? {
      DriveMovesUdpEntry(s, id);
    } else if e.Poll? {
      PollMovesUdpEntry(s, e, id);
    } else if e.Control? && (e.msg.Open? || e.msg.OpenUdp?) {
      OpensLeaveUdpEntries(s, e.msg, n, id);
    }
  }

  lemma StepAddsFreshUdpEntry(s: State, e: Event, n: nat, id: u64)
    requires TablesMatchSockets(s, n) && n + (if Opens(e) then 1 else 0) < ID_SPACE
    requires id !in s.associations && id in Step(s, e).associations
    ensures id == n + 1 && e.Control? && e.msg.OpenUdp?
    ensures UdpOf(Step(s, e), id) == Bound(s.nextLocalPort, e.msg.sendsLeft)
    ensures Step(s, e).associations[id] == Association(FreeSlot(s.sockets), Channel([], true), [], false)
  {
    OnlyOpensAddIds(s, e, n, id);
    assert s.nextConnId == n + 1;
  }

  // ---------------------------------------------------------------- UDP datagrams

  ghost function HandledUdpNext(s: State, e: Event, id: u64, handled: seq<Datagram>): seq<Datagram> {
    if e.Control? && e.msg.SendUdp? && e.msg.id == id && id in s.associations
    then handled + [Datagram(e.msg.target, e.msg.data)] else handled
  }

  ghost function HandledUdp(events: seq<Event>, id: u64): seq<Datagram> {
    if events == [] then []
    else
      var front := events[..|events| - 1];
      HandledUdpNext(Run(front), events[|events| - 1], id, HandledUdp(front, id))
  }

  /** No send has failed, since a failed send removes the association in the same drive. */
  ghost predicate UdpOk(u: UdpSocket, a: Association, handled: seq<Datagram>) {
    && !u.sendFailed && u.accepted + a.pending == handled && IsSuffix(u.tx, u.accepted)
    && (a.uplink.alive ==> a.uplink.sent + u.rx == u.received)
    && a.uplink.sent <= u.received
  }

  lemma DriveKeepsUdpOk(u: UdpSocket, a: Association, handled: seq<Datagram>)
    requires UdpOk(u, a, handled)
    ensures DriveUdp(u, a).0.isOpen ==> UdpOk(DriveUdp(u, a).0, DriveUdp(u, a).1, handled)
  {
    var (u1, a1) := PumpUdpSends(u, a);
    PumpUdpSendsConserves(u, a);
    var moved := PumpUdpSendsFrame(u, a);
    SuffixGrows(u.tx, u.accepted, moved);
    PumpUdpReadsConserves(u1, a1);
  }

  lemma PollKeepsUdpOk(u: UdpSocket, v: UdpSocket, a: Association, handled: seq<Datagram>)
    requires UdpOk(u, a, handled) && UdpPolled(u, v)
    ensures UdpOk(v, a, handled)
  {
    if a.uplink.alive {
      var more := v.received[|u.received|..];
      assert a.uplink.sent + (u.rx + more) == a.uplink.sent + u.rx + more;
    }
  }

  ghost predicate UdpStreamOk(s: State, id: u64, handled: seq<Datagram>) {
    id in s.associations ==> UdpOk(UdpOf(s, id), s.associations[id], handled)
  }

  lemma MoveKeepsUdpOk(e: Event, id: u64, u: UdpSocket, a: Association, u': UdpSocket, a': Association,
                       handled: seq<Datagram>, handled': seq<Datagram>)
    requires UdpMoves(e, id, u, a, u', a') && UdpOk(u, a, handled)
    requires handled' == if e.Control? && e.msg.SendUdp? && e.msg.id == id
                         then handled + [Datagram(e.msg.target, e.msg.data)] else handled
    ensures UdpOk(u', a', handled')
  {
    if e.DriveUdps? {
      DriveKeepsUdpOk(u, a, handled);
    } else if e.Poll? && u' != u {
      PollKeepsUdpOk(u, u', a, handled);
    } else if e.Control? && e.msg.SendUdp? && e.msg.id == id {
      var d := [Datagram(e.msg.target, e.msg.data)];
      assert u.accepted + (a.pending + d) == u.accepted + a.pending + d;
    }
  }

  lemma StepKeepsUdpStream(s: State, e: Event, n: nat, id: u64, handled: seq<Datagram>)
    requires TablesMatchSockets(s, n) && UdpStreamOk(s, id, handled) && (id > n ==> handled == [])
    requires n + (if Opens(e) then 1 else 0) < ID_SPACE
    ensures UdpStreamOk(Step(s, e), id, HandledUdpNext(s, e, id, handled))
  {
    var s' := Step(s, e);
    if id in s.associations && id in s'.associations {
      StepMovesUdpEntry(s, e, n, id);
      MoveKeepsUdpOk(e, id, UdpOf(s, id), s.associations[id], UdpOf(s', id), s'.associations[id], handled,
                     HandledUdpNext(s, e, id, handled));
    } else if id in s'.associations {
      StepAddsFreshUdpEntry(s, e, n, id);
    }
  }

  lemma {:induction false} NoDatagramsBeforeIssue(events: seq<Event>, id: u64)
    requires OpenCount(events) < id
    ensures HandledUdp(events, id) == [] && id !in Run(events).associations
  {
    if events != [] {
      var front, last := events[..|events| - 1], events[|events| - 1];
      NoDatagramsBeforeIssue(front, id);
      RunsKeepTables(front);
      OnlyOpensAddIds(Run(front), last, OpenCount(front), id);
    }
  }

  /** In every run each live association conserves its datagrams in both directions, and no send of it
      has failed. */
  lemma {:induction false} RunsConserveDatagrams(events: seq<Event>, id: u64)
    requires OpenCount(events) < ID_SPACE
    ensures UdpStreamOk(Run(events), id, HandledUdp(events, id))
  {
    if events != [] {
      var front, last := events[..|events| - 1], events[|events| - 1];
      RunsConserveDatagrams(front, id);
      RunsKeepTables(front);
      if id > OpenCount(front) {
        NoDatagramsBeforeIssue(front, id);
      }
      StepKeepsUdpStream(Run(front), last, OpenCount(front), id, HandledUdp(front, id));
    }
  }

  /** What a drive does with the datagrams of an association. Every datagram handled is accepted, or the
      one at fault of a send that fails in this drive, or still queued. A close wipes the datagrams
      that were accepted last and not yet transmitted. Every datagram received has been forwarded,
      if the receiver is alive and no read failed. */
  ghost predicate Accounted(u: UdpSocket, a: Association, handled: seq<Datagram>) {
    var wiped, (u', a') := PumpUdpSends(u, a).0.tx, DriveUdp(u, a);
    && handled == u'.accepted + ((if UdpSendFails(u, a) then [a.pending[u.sendsLeft]] else []) + a'.pending)
    && IsSuffix(wiped, u'.accepted) && (a'.closeRequested ==> u'.tx == [])
    && a'.uplink.sent <= u'.received && (a.uplink.alive && !u'.recvFailed ==> a'.uplink.sent == u'.received)
  }

  lemma DriveAccounts(u: UdpSocket, a: Association, handled: seq<Datagram>)
    requires UdpOk(u, a, handled)
    ensures Accounted(u, a, handled)
    ensures a.closeRequested || UdpSendFails(u, a) ==> !DriveUdp(u, a).0.isOpen
  {
    var (u1, a1) := PumpUdpSends(u, a);
    PumpUdpSendsConserves(u, a);
    FailedUdpSendDropsDatagram(u, a);
    var moved := PumpUdpSendsFrame(u, a);
    SuffixGrows(u.tx, u.accepted, moved);
    PumpUdpReadsConserves(u1, a1);
    DatagramsCounted(u, a, handled);
  }

  lemma SplitAround<T>(front: seq<T>, s: seq<T>, k: nat)
    requires k < |s|
    ensures front + s == front + s[..k] + ([s[k]] + s[k + 1..])
  {
  }

  lemma DatagramsCounted(u: UdpSocket, a: Association, handled: seq<Datagram>)
    requires !u.sendFailed && u.accepted + a.pending == handled
    ensures var (u1, a1) := PumpUdpSends(u, a);
            handled == u1.accepted + ((if UdpSendFails(u, a) then [a.pending[u.sendsLeft]] else []) + a1.pending)
  {
    PumpUdpSendsConserves(u, a);
    FailedUdpSendDropsDatagram(u, a);
    var (u1, a1) := PumpUdpSends(u, a);
    if UdpSendFails(u, a) {
      SplitAround(u.accepted, a.pending, u.sendsLeft);
    } else {
      assert [] + a1.pending == a1.pending;
    }
  }

  lemma DrivenAssociation(events: seq<Event>, id: u64)
    requires OpenCount(events) < ID_SPACE && id in Run(events).associations
    ensures id in Run(events + [DriveUdps]).associations <==>
              DriveUdp(UdpOf(Run(events), id), Run(events).associations[id]).0.isOpen
  {
    AfterDrives(events);
    RunsKeepTables(events);
    AfterUdpDriveAt(Run(events), id);
  }

  lemma AfterDrives(events: seq<Event>)
    ensures Run(events + [DriveTcps]) == AfterTcpDrive(Run(events))
    ensures Run(events + [DriveUdps]) == AfterUdpDrive(Run(events))
  {
    RunNext(events, DriveTcps);
    RunNext(events, DriveUdps);
  }

  /** The next drive of an association accounts for every datagram, and removes the association if its
      close is requested or a send fails. */
  lemma DrivesAccountForDatagrams(events: seq<Event>, id: u64)
    requires OpenCount(events) < ID_SPACE && id in Run(events).associations
    ensures var u, a := UdpOf(Run(events), id), Run(events).associations[id];
            && Accounted(u, a, HandledUdp(events, id))
            && (a.closeRequested || UdpSendFails(u, a) ==> id !in Run(events + [DriveUdps]).associations)
  {
    RunsConserveDatagrams(events, id);
    DrivenAssociation(events, id);
    DriveAccounts(UdpOf(Run(events), id), Run(events).associations[id], HandledUdp(events, id));
  }
}
