/** Whole runs of the multiplexer: any sequence of control messages, polls, drives and dropped
    receivers. */
module NetstackRuns {
  import opened Prelude
  import opened Text
  import opened NetSockets
  import opened Netstack

  datatype Event =
    | Control(msg: ControlMessage)
    | Poll(sockets: seq<Option<Socket>>, deviceRx: seq<Bytes>)
    | DriveTcps
    | DriveUdps
    | DropReceiver(id: u64)
    | DropUdpReceiver(id: u64)

  // ---------------------------------------------------------------- polls

  ghost predicate IsSuffix<T>(s: seq<T>, t: seq<T>) {
    |s| <= |t| && s == t[|t| - |s|..]
  }

  /** The network may transmit from the front of `tx`, append to `rx`, and open, close or slow the
      socket down; it does not touch what was accepted, and does not reopen a sending half that
      has been shut. */
  ghost predicate TcpPolled(a: TcpSocket, b: TcpSocket) {
    && b.local == a.local && b.peer == a.peer && b.closed == a.closed && (a.closed ==> !b.maySend)
    && IsSuffix(b.tx, a.tx)
    && a.received <= b.received && b.rx == a.rx + b.received[|a.received|..]
    && b.accepted == a.accepted && b.sendFailed == a.sendFailed && b.recvFailed == a.recvFailed
  }

  ghost predicate UdpPolled(a: UdpSocket, b: UdpSocket) {
    && b.local == a.local && IsSuffix(b.tx, a.tx)
    && a.received <= b.received && b.rx == a.rx + b.received[|a.received|..]
    && b.accepted == a.accepted && b.sendFailed == a.sendFailed && b.recvFailed == a.recvFailed
  }

  ghost predicate SlotPolled(a: Option<Socket>, b: Option<Socket>) {
    match (a, b)
    case (None, None) => true
    case (Some(Tcp(x)), Some(Tcp(y))) => TcpPolled(x, y)
    case (Some(Udp(x)), Some(Udp(y))) => UdpPolled(x, y)
    case _ => false
  }

  ghost predicate Polled(a: seq<Option<Socket>>, b: seq<Option<Socket>>) {
    |a| == |b| && forall h :: 0 <= h < |a| ==> SlotPolled(a[h], b[h])
  }

  // ---------------------------------------------------------------- runs

  ghost function Step(s: State, e: Event): State {
    match e
    case Control(msg) => Handle(s, msg)
    case Poll(sockets, deviceRx) =>
      if Polled(s.sockets, sockets) then s.(sockets := sockets, deviceRx := deviceRx) else s
    case DriveTcps => AfterTcpDrive(s)
    case DriveUdps => AfterUdpDrive(s)
    case DropReceiver(id) =>
      if id !in s.connections then s
      else
        var c := s.connections[id];
        s.(connections := s.connections[id := c.(uplink := c.uplink.(alive := false))])
    case DropUdpReceiver(id) =>
      if id !in s.associations then s
      else
        var a := s.associations[id];
        s.(associations := s.associations[id := a.(uplink := a.uplink.(alive := false))])
  }

  ghost function Run(events: seq<Event>): State {
    if events == [] then INITIAL else Step(Run(events[..|events| - 1]), events[|events| - 1])
  }

  predicate Opens(e: Event) {
    e.Control? && ((e.msg.Open? && e.msg.connects) || (e.msg.OpenUdp? && e.msg.binds))
  }

  /** The number of successful opens. */
  function OpenCount(events: seq<Event>): nat {
    if events == [] then 0
    else OpenCount(events[..|events| - 1]) + if Opens(events[|events| - 1]) then 1 else 0
  }

  // ---------------------------------------------------------------- the tables and the socket set

  ghost predicate Owned(handles: map<u64, nat>, h: nat) {
    exists id :: id in handles && handles[id] == h
  }

  /** No live socket of the kind is without an id. */
  ghost predicate NoLeak(sockets: seq<Option<Socket>>, handles: map<u64, nat>, tcp: bool) {
    forall h :: 0 <= h < |sockets| && IsKind(sockets, h, tcp) ==> Owned(handles, h)
  }

  /** The table's handles are exactly the live sockets of the kind, each under one id. */
  ghost predicate Tracks(sockets: seq<Option<Socket>>, handles: map<u64, nat>, tcp: bool) {
    WiredTo(sockets, handles, tcp) && NoLeak(sockets, handles, tcp)
  }

  /** After `n` opens: ids are among the first `n`, no id is in both tables, the next id is new. */
  ghost predicate IdsIssued(s: State, n: nat) {
    && (forall id :: id in s.connections ==> 1 <= id <= n && id !in s.associations)
    && (forall id :: id in s.associations ==> 1 <= id <= n)
    && s.nextConnId == (n + 1) % 0x1_0000_0000_0000_0000
    && 40000 <= s.nextLocalPort <= 60000
  }

  /** The tables hold exactly the live sockets, each under one id of its kind. */
  ghost predicate TablesMatchSockets(s: State, n: nat) {
    && Tracks(s.sockets, TcpHandles(s), true) && Tracks(s.sockets, UdpHandles(s), false)
    && IdsIssued(s, n)
  }

  /** Some ids of the kind and their sockets are gone; the others kept their handles. */
  ghost predicate Shrunk(sockets: seq<Option<Socket>>, handles: map<u64, nat>, sockets': seq<Option<Socket>>,
                         handles': map<u64, nat>, tcp: bool)
  {
    && |sockets'| == |sockets|
    && (forall id :: id in handles' ==>
          id in handles && handles'[id] == handles[id] && IsKind(sockets', handles[id], tcp))
    && (forall id :: id in handles && id !in handles' && handles[id] < |sockets'| ==> sockets'[handles[id]].None?)
    && (forall h :: 0 <= h < |sockets| && !IsKind(sockets, h, tcp) ==> sockets'[h] == sockets[h])
  }

  lemma ShrunkKeeps(sockets: seq<Option<Socket>>, handles: map<u64, nat>, sockets': seq<Option<Socket>>,
                    handles': map<u64, nat>, tcp: bool)
    requires Tracks(sockets, handles, tcp) && Shrunk(sockets, handles, sockets', handles', tcp)
    ensures Tracks(sockets', handles', tcp)
  {
    forall h | 0 <= h < |sockets'| && IsKind(sockets', h, tcp) ensures Owned(handles', h) {
      assert Owned(handles, h);
      var id :| id in handles && handles[id] == h;
      assert id in handles';
    }
  }

  lemma ShrunkKeepsOthers(sockets: seq<Option<Socket>>, handles: map<u64, nat>, sockets': seq<Option<Socket>>,
                          handles': map<u64, nat>, tcp: bool, others: map<u64, nat>)
    requires Tracks(sockets, handles, tcp) && Shrunk(sockets, handles, sockets', handles', tcp)
    requires Tracks(sockets, others, !tcp)
    ensures Tracks(sockets', others, !tcp)
  {
    var other := !tcp;
    forall h | 0 <= h < |sockets| ensures IsKind(sockets', h, other) <==> IsKind(sockets, h, other) {
      if IsKind(sockets, h, tcp) {
        assert Owned(handles, h);
        var id :| id in handles && handles[id] == h;
        assert id in handles' ==> IsKind(sockets', handles[id], tcp);
      }
    }
    SameKindKeeps(sockets, sockets', others, other);
  }

  /** The slots of the kind are the same ones. */
  ghost predicate SameKind(a: seq<Option<Socket>>, b: seq<Option<Socket>>, tcp: bool) {
    |a| <= |b| && forall h: nat :: h < |b| ==> (IsKind(b, h, tcp) <==> IsKind(a, h, tcp))
  }

  lemma SameKindKeeps(a: seq<Option<Socket>>, b: seq<Option<Socket>>, handles: map<u64, nat>, tcp: bool)
    requires Tracks(a, handles, tcp) && SameKind(a, b, tcp)
    ensures Tracks(b, handles, tcp)
  {
  }

  /** One socket more, on a slot that was free. */
  ghost predicate Grown(sockets: seq<Option<Socket>>, sockets': seq<Option<Socket>>, h: nat, tcp: bool) {
    && |sockets| <= |sockets'| && IsKind(sockets', h, tcp) && (h < |sockets| ==> sockets[h].None?)
    && (forall i :: 0 <= i < |sockets'| && i != h ==> i < |sockets| && sockets'[i] == sockets[i])
  }

  lemma GrownKeeps(sockets: seq<Option<Socket>>, sockets': seq<Option<Socket>>, h: nat, tcp: bool,
                   handles: map<u64, nat>, id: u64)
    requires Tracks(sockets, handles, tcp) && Grown(sockets, sockets', h, tcp) && id !in handles
    ensures Tracks(sockets', handles[id := h], tcp)
  {
    forall i | i in handles ensures handles[i] != h && IsKind(sockets', handles[i], tcp) {
      assert IsKind(sockets, handles[i], tcp);
    }
    forall i | 0 <= i < |sockets'| && IsKind(sockets', i, tcp) ensures Owned(handles[id := h], i) {
      if i == h {
        assert handles[id := h][id] == i;
      } else {
        assert Owned(handles, i);
        var j :| j in handles && handles[j] == i;
        assert handles[id := h][j] == i;
      }
    }
  }

  lemma GrownKeepsOthers(sockets: seq<Option<Socket>>, sockets': seq<Option<Socket>>, h: nat, tcp: bool,
                         others: map<u64, nat>)
    requires Grown(sockets, sockets', h, tcp) && Tracks(sockets, others, !tcp)
    ensures Tracks(sockets', others, !tcp)
  {
    SameKindKeeps(sockets, sockets', others, !tcp);
  }

  // ---------------------------------------------------------------- drives keep the tables

  /** What a drive leaves of one entry and its socket. */
  lemma AfterTcpDriveAt(s: State, id: u64)
    requires WiredTo(s.sockets, TcpHandles(s), true) && id in s.connections
    ensures var s' := AfterTcpDrive(s);
            var (t, c) := DriveTcp(TcpAt(s.sockets, s.connections[id].handle), s.connections[id]);
            && c.handle == s.connections[id].handle
            && (id in s'.connections <==> t.isOpen)
            && (id in s'.connections ==> s'.connections[id] == c)
            && c.handle < |s'.sockets| && s'.sockets[c.handle] == if t.isOpen then Some(Tcp(t)) else None
  {
    DrivenTcpKeepsHandle(TcpAt(s.sockets, s.connections[id].handle), s.connections[id]);
    PlaceOne(s.sockets, TcpHandles(s), Kept(TcpDrive(s)), id, None);
  }

  /** What a drive leaves of one entry and its socket. */
  lemma AfterUdpDriveAt(s: State, id: u64)
    requires WiredTo(s.sockets, UdpHandles(s), false) && id in s.associations
    ensures var s' := AfterUdpDrive(s);
            var (u, a) := DriveUdp(UdpAt(s.sockets, s.associations[id].handle), s.associations[id]);
            && a.handle == s.associations[id].handle
            && (id in s'.associations <==> u.isOpen)
            && (id in s'.associations ==> s'.associations[id] == a)
            && a.handle < |s'.sockets| && s'.sockets[a.handle] == if u.isOpen then Some(Udp(u)) else None
  {
    DrivenUdpKeepsHandle(UdpAt(s.sockets, s.associations[id].handle), s.associations[id]);
    PlaceOne(s.sockets, UdpHandles(s), Kept(UdpDrive(s)), id, None);
  }

  /** Slots that no id of the walked table holds are left alone. */
  lemma PlaceElsewhere(sockets: seq<Option<Socket>>, handles: map<u64, nat>, result: map<u64, Option<Socket>>,
                       tcp: bool)
    requires WiredTo(sockets, handles, tcp) && handles.Keys == result.Keys
    ensures forall h :: 0 <= h < |sockets| && !IsKind(sockets, h, tcp) ==>
              Place(sockets, handles, result)[h] == sockets[h]
  {
  }

  lemma TcpDriveShrinks(s: State)
    requires WiredTo(s.sockets, TcpHandles(s), true)
    ensures Shrunk(s.sockets, TcpHandles(s), AfterTcpDrive(s).sockets, TcpHandles(AfterTcpDrive(s)), true)
  {
    PlaceElsewhere(s.sockets, TcpHandles(s), Kept(TcpDrive(s)), true);
    assert |AfterTcpDrive(s).sockets| == |s.sockets|;
    forall id | id in s.connections
      ensures id in AfterTcpDrive(s).connections ==>
                AfterTcpDrive(s).connections[id].handle == s.connections[id].handle
                && IsTcp(AfterTcpDrive(s).sockets, s.connections[id].handle)
      ensures id !in AfterTcpDrive(s).connections ==>
                s.connections[id].handle < |AfterTcpDrive(s).sockets|
                && AfterTcpDrive(s).sockets[s.connections[id].handle].None?
    {
      AfterTcpDriveAt(s, id);
    }
  }

  lemma UdpDriveShrinks(s: State)
    requires WiredTo(s.sockets, UdpHandles(s), false)
    ensures Shrunk(s.sockets, UdpHandles(s), AfterUdpDrive(s).sockets, UdpHandles(AfterUdpDrive(s)), false)
  {
    PlaceElsewhere(s.sockets, UdpHandles(s), Kept(UdpDrive(s)), false);
    assert |AfterUdpDrive(s).sockets| == |s.sockets|;
    forall id | id in s.associations
      ensures id in AfterUdpDrive(s).associations ==>
                AfterUdpDrive(s).associations[id].handle == s.associations[id].handle
                && IsUdp(AfterUdpDrive(s).sockets, s.associations[id].handle)
      ensures id !in AfterUdpDrive(s).associations ==>
                s.associations[id].handle < |AfterUdpDrive(s).sockets|
                && AfterUdpDrive(s).sockets[s.associations[id].handle].None?
    {
      AfterUdpDriveAt(s, id);
    }
  }

  lemma TcpDriveKeeps(s: State, n: nat)
    requires TablesMatchSockets(s, n)
    ensures TablesMatchSockets(AfterTcpDrive(s), n)
  {
    var s' := AfterTcpDrive(s);
    TcpDriveShrinks(s);
    ShrunkKeeps(s.sockets, TcpHandles(s), s'.sockets, TcpHandles(s'), true);
    ShrunkKeepsOthers(s.sockets, TcpHandles(s), s'.sockets, TcpHandles(s'), true, UdpHandles(s));
    assert UdpHandles(s') == UdpHandles(s);
  }

  lemma UdpDriveKeeps(s: State, n: nat)
    requires TablesMatchSockets(s, n)
    ensures TablesMatchSockets(AfterUdpDrive(s), n)
  {
    var s' := AfterUdpDrive(s);
    UdpDriveShrinks(s);
    ShrunkKeeps(s.sockets, UdpHandles(s), s'.sockets, UdpHandles(s'), false);
    ShrunkKeepsOthers(s.sockets, UdpHandles(s), s'.sockets, UdpHandles(s'), false, TcpHandles(s));
    assert TcpHandles(s') == TcpHandles(s);
  }

  // ---------------------------------------------------------------- the other steps keep the tables

  lemma OpenTcpGrows(s: State, target: Endpoint)
    ensures var s', h := OpenConnection(s, target, true), FreeSlot(s.sockets);
            && Grown(s.sockets, s'.sockets, h, true)
            && TcpHandles(s') == TcpHandles(s)[s.nextConnId := h] && UdpHandles(s') == UdpHandles(s)
  {
  }

  lemma OpenUdpGrows(s: State, sendsLeft: nat)
    ensures var s', h := OpenAssociation(s, true, sendsLeft), FreeSlot(s.sockets);
            && Grown(s.sockets, s'.sockets, h, false)
            && UdpHandles(s') == UdpHandles(s)[s.nextConnId := h] && TcpHandles(s') == TcpHandles(s)
  {
  }

  lemma OpenIssuesId(s: State, msg: ControlMessage, n: nat)
    requires IdsIssued(s, n) && n + 1 < 0x1_0000_0000_0000_0000 && Opens(Control(msg))
    ensures s.nextConnId == n + 1 && n + 1 !in s.connections && n + 1 !in s.associations
    ensures IdsIssued(Handle(s, msg), n + 1)
  {
  }

  lemma OpenTcpKeeps(s: State, msg: ControlMessage, n: nat)
    requires TablesMatchSockets(s, n) && n + 1 < 0x1_0000_0000_0000_0000 && msg.Open? && msg.connects
    ensures TablesMatchSockets(Handle(s, msg), n + 1)
  {
    OpenIssuesId(s, msg, n);
    OpenTcpGrows(s, msg.target);
    var sockets', h := OpenConnection(s, msg.target, true).sockets, FreeSlot(s.sockets);
    GrownKeeps(s.sockets, sockets', h, true, TcpHandles(s), n + 1);
    GrownKeepsOthers(s.sockets, sockets', h, true, UdpHandles(s));
  }

  lemma OpenUdpKeeps(s: State, msg: ControlMessage, n: nat)
    requires TablesMatchSockets(s, n) && n + 1 < 0x1_0000_0000_0000_0000 && msg.OpenUdp? && msg.binds
    ensures TablesMatchSockets(Handle(s, msg), n + 1)
  {
    OpenIssuesId(s, msg, n);
    OpenUdpGrows(s, msg.sendsLeft);
    var sockets', h := OpenAssociation(s, true, msg.sendsLeft).sockets, FreeSlot(s.sockets);
    GrownKeeps(s.sockets, sockets', h, false, UdpHandles(s), n + 1);
    GrownKeepsOthers(s.sockets, sockets', h, false, TcpHandles(s));
  }

  /** Same tables up to queues, flags and channels, and same kinds of sockets. */
  ghost predicate SameWiring(s: State, s': State) {
    && TcpHandles(s') == TcpHandles(s) && UdpHandles(s') == UdpHandles(s)
    && s'.nextConnId == s.nextConnId && 40000 <= s'.nextLocalPort <= 60000
    && SameKind(s.sockets, s'.sockets, true) && SameKind(s.sockets, s'.sockets, false)
  }

  lemma SameWiringKeeps(s: State, s': State, n: nat)
    requires TablesMatchSockets(s, n) && SameWiring(s, s')
    ensures TablesMatchSockets(s', n)
  {
    SameKindKeeps(s.sockets, s'.sockets, TcpHandles(s), true);
    SameKindKeeps(s.sockets, s'.sockets, UdpHandles(s), false);
    SameWiringKeepsIds(s, s', n);
  }

  lemma SameWiringKeepsIds(s: State, s': State, n: nat)
    requires IdsIssued(s, n) && TcpHandles(s') == TcpHandles(s) && UdpHandles(s') == UdpHandles(s)
    requires s'.nextConnId == s.nextConnId && 40000 <= s'.nextLocalPort <= 60000
    ensures IdsIssued(s', n)
  {
    assert s'.connections.Keys == TcpHandles(s').Keys == s.connections.Keys;
    assert s'.associations.Keys == UdpHandles(s').Keys == s.associations.Keys;
  }

  lemma PollKeepsKind(a: seq<Option<Socket>>, b: seq<Option<Socket>>, tcp: bool)
    requires Polled(a, b)
    ensures SameKind(a, b, tcp)
  {
    assert forall h :: 0 <= h < |a| ==> SlotPolled(a[h], b[h]);
  }

  lemma QuietStep(s: State, e: Event)
    requires 40000 <= s.nextLocalPort <= 60000
    requires !e.DriveTcps? && !e.DriveUdps? && !Opens(e)
    ensures SameWiring(s, Step(s, e))
  {
    if e.Poll? && Polled(s.sockets, e.sockets) {
      PollKeepsKind(s.sockets, e.sockets, true);
      PollKeepsKind(s.sockets, e.sockets, false);
    } else if e.Control? {
      QuietControl(s, e.msg);
    }
  }

  lemma QuietControl(s: State, msg: ControlMessage)
    requires 40000 <= s.nextLocalPort <= 60000 && !Opens(Control(msg))
    ensures SameWiring(s, Handle(s, msg))
  {
    if !msg.Open? {
      assert Handle(s, msg).sockets == s.sockets;
    }
  }

  lemma StepKeepsTables(s: State, e: Event, n: nat)
    requires TablesMatchSockets(s, n) && n + (if Opens(e) then 1 else 0) < 0x1_0000_0000_0000_0000
    ensures TablesMatchSockets(Step(s, e), if Opens(e) then n + 1 else n)
  {
    if e.DriveTcps? {
      TcpDriveKeeps(s, n);
    } else if e.DriveUdps? {
      UdpDriveKeeps(s, n);
    } else if !Opens(e) {
      QuietStep(s, e);
      SameWiringKeeps(s, Step(s, e), n);
    } else if e.msg.Open? {
      OpenTcpKeeps(s, e.msg, n);
    } else {
      OpenUdpKeeps(s, e.msg, n);
    }
  }

  /** In every run with fewer than 2^64 opens the tables hold exactly the live sockets, under
      pairwise distinct ids and handles. */
  lemma {:induction false} RunsKeepTables(events: seq<Event>)
    requires OpenCount(events) < 0x1_0000_0000_0000_0000
    ensures TablesMatchSockets(Run(events), OpenCount(events))
  {
    if events != [] {
      RunsKeepTables(events[..|events| - 1]);
      StepKeepsTables(Run(events[..|events| - 1]), events[|events| - 1], OpenCount(events[..|events| - 1]));
    }
  }

  lemma RunsIssueIds(events: seq<Event>)
    requires OpenCount(events) < 0x1_0000_0000_0000_0000
    ensures IdsIssued(Run(events), OpenCount(events))
  {
    RunsKeepTables(events);
  }

  /** The bound on the opens is needed: an open that reissues the id of a live connection takes over
      its table entry and leaves the old socket without an owner. */
  lemma ReissuedIdOrphansSocket(s: State, target: Endpoint)
    requires WiredTo(s.sockets, TcpHandles(s), true) && s.nextConnId in s.connections
    ensures var s' := OpenConnection(s, target, true); !NoLeak(s'.sockets, TcpHandles(s'), true)
  {
    var s' := OpenConnection(s, target, true);
    var h := TcpHandles(s)[s.nextConnId];
    assert IsTcp(s.sockets, h) && s'.sockets[h] == s.sockets[h];
    forall id | id in TcpHandles(s') ensures TcpHandles(s')[id] != h {
      assert id != s.nextConnId ==> TcpHandles(s')[id] == TcpHandles(s)[id];
    }
    assert IsKind(s'.sockets, h, true) && !Owned(TcpHandles(s'), h);
  }

  function PortAfter(port: u16, n: nat): u16 {
    if n == 0 then port else NextPort(PortAfter(port, n - 1))
  }

  /** Local ports run through all of 40000..60000 before one is used again. */
  lemma {:induction false} PortsCycle(port: u16, n: nat)
    requires 40000 <= port <= 60000
    ensures PortAfter(port, n) == 40000 + (port - 40000 + n) % 20001
  {
    if n > 0 {
      PortsCycle(port, n - 1);
    }
  }
}
