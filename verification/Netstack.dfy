/** The connection multiplexer: one thread owns the socket slots, the two connection tables and
    the counters, and alternates control messages, polls and drives. */
module Netstack {
  import opened Prelude
  import opened Text
  import opened NetSockets

  const MAX_CONTROL_BATCH: nat := 64

  datatype Socket = Tcp(tcp: TcpSocket) | Udp(udp: UdpSocket)

  /** `connects` and `binds`: whether the socket library accepts the request; `sendsLeft`: how long
      a fresh UDP socket keeps accepting. */
  datatype ControlMessage =
    | TunnelPacket(packet: Bytes)
    | Open(target: Endpoint, connects: bool)
    | OpenUdp(binds: bool, sendsLeft: nat)
    | Send(id: u64, data: Bytes)
    | SendUdp(id: u64, target: Endpoint, data: Bytes)
    | Close(id: u64)
    | CloseUdp(id: u64)

  datatype State = State(
    sockets: seq<Option<Socket>>,
    connections: map<u64, Connection>,
    associations: map<u64, Association>,
    nextConnId: u64,
    nextLocalPort: u16,
    deviceRx: seq<Bytes>)

  const INITIAL := State([], map[], map[], 1, 40000, [])

  // ---------------------------------------------------------------- the socket set

  /** The first free slot, or the end. */
  function FreeSlot(sockets: seq<Option<Socket>>): (h: nat)
    ensures h <= |sockets| && (h < |sockets| ==> sockets[h].None?)
    ensures forall i :: 0 <= i < h ==> sockets[i].Some?
  {
    if sockets == [] || sockets[0].None? then 0 else FreeSlot(sockets[1..]) + 1
  }

  function Put(sockets: seq<Option<Socket>>, h: nat, socket: Socket): seq<Option<Socket>>
    requires h <= |sockets|
  {
    if h == |sockets| then sockets + [Some(socket)] else sockets[h := Some(socket)]
  }

  function Connecting(local: u16, peer: Endpoint): TcpSocket {
    TcpSocket(local, peer, true, false, false, [], [], 0, 0, [], [], false, false)
  }

  function Bound(local: u16, sendsLeft: nat): UdpSocket {
    UdpSocket(local, true, [], [], sendsLeft, 0, [], [], false, false)
  }

  /** The slot holds a live socket of the kind. */
  predicate IsKind(sockets: seq<Option<Socket>>, h: nat, tcp: bool) {
    h < |sockets| && sockets[h].Some? && sockets[h].value.Tcp? == tcp
  }

  predicate IsTcp(sockets: seq<Option<Socket>>, h: nat) {
    IsKind(sockets, h, true)
  }

  predicate IsUdp(sockets: seq<Option<Socket>>, h: nat) {
    IsKind(sockets, h, false)
  }

  function TcpAt(sockets: seq<Option<Socket>>, h: nat): TcpSocket {
    if IsTcp(sockets, h) then sockets[h].value.tcp else Connecting(0, Endpoint(0, 0))
  }

  function UdpAt(sockets: seq<Option<Socket>>, h: nat): UdpSocket {
    if IsUdp(sockets, h) then sockets[h].value.udp else Bound(0, 0)
  }

  // ---------------------------------------------------------------- control messages

  function NextPort(port: u16): u16 {
    if port >= 60000 then 40000 else port + 1
  }

  function NextId(id: u64): u64 {
    (id + 1) % 0x1_0000_0000_0000_0000
  }

  function OpenConnection(s: State, target: Endpoint, connects: bool): State {
    var h := FreeSlot(s.sockets);
    var s' := s.(sockets := Put(s.sockets, h, Tcp(Connecting(s.nextLocalPort, target))),
                 nextLocalPort := NextPort(s.nextLocalPort));
    if connects then
      s'.(connections := s'.connections[s.nextConnId := Connection(h, Channel([], true), [], false)],
          nextConnId := NextId(s.nextConnId))
    else s'.(sockets := s'.sockets[h := None])
  }

  function OpenAssociation(s: State, binds: bool, sendsLeft: nat): State {
    var s' := s.(nextLocalPort := NextPort(s.nextLocalPort));
    if !binds then s'
    else
      var h := FreeSlot(s.sockets);
      s'.(sockets := Put(s.sockets, h, Udp(Bound(s.nextLocalPort, sendsLeft))),
          associations := s.associations[s.nextConnId := Association(h, Channel([], true), [], false)],
          nextConnId := NextId(s.nextConnId))
  }

  function Handle(s: State, msg: ControlMessage): State {
    match msg
    case TunnelPacket(packet) => s.(deviceRx := s.deviceRx + [packet])
    case Open(target, connects) => OpenConnection(s, target, connects)
    case OpenUdp(binds, sendsLeft) => OpenAssociation(s, binds, sendsLeft)
    case Send(id, data) =>
      if id !in s.connections then s
      else
        var c := s.connections[id];
        s.(connections := s.connections[id := c.(pending := c.pending + [data])])
    case SendUdp(id, target, data) =>
      if id !in s.associations then s
      else
        var a := s.associations[id];
        s.(associations := s.associations[id := a.(pending := a.pending + [Datagram(target, data)])])
    case Close(id) =>
      if id !in s.connections then s
      else s.(connections := s.connections[id := s.connections[id].(closeRequested := true)])
    case CloseUdp(id) =>
      if id !in s.associations then s
      else s.(associations := s.associations[id := s.associations[id].(closeRequested := true)])
  }

  function HandleAll(s: State, msgs: seq<ControlMessage>): State {
    if msgs == [] then s else Handle(HandleAll(s, msgs[..|msgs| - 1]), msgs[|msgs| - 1])
  }

  // ---------------------------------------------------------------- drives

  function TcpHandles(s: State): map<u64, nat> {
    map id | id in s.connections :: s.connections[id].handle
  }

  function UdpHandles(s: State): map<u64, nat> {
    map id | id in s.associations :: s.associations[id].handle
  }

  ghost predicate Injective(handles: map<u64, nat>, n: nat) {
    && (forall id :: id in handles ==> handles[id] < n)
    && (forall i, j :: i in handles && j in handles && handles[i] == handles[j] ==> i == j)
  }

  /** Every id holds the handle of a live socket of the kind, and no two share one. */
  ghost predicate WiredTo(sockets: seq<Option<Socket>>, handles: map<u64, nat>, tcp: bool) {
    Injective(handles, |sockets|) && forall id :: id in handles ==> IsKind(sockets, handles[id], tcp)
  }

  ghost predicate Wired(s: State) {
    WiredTo(s.sockets, TcpHandles(s), true) && WiredTo(s.sockets, UdpHandles(s), false)
  }

  /** What a drive makes of one entry and its socket. */
  datatype Driven<E> = Driven(socket: Socket, open: bool, entry: E)

  function DrivenTcp(t: TcpSocket, c: Connection): Driven<Connection> {
    var (t', c') := DriveTcp(t, c);
    Driven(Tcp(t'), t'.isOpen, c')
  }

  function DrivenUdp(u: UdpSocket, a: Association): Driven<Association> {
    var (u', a') := DriveUdp(u, a);
    Driven(Udp(u'), u'.isOpen, a')
  }

  /** What one drive makes of every connection and its socket. */
  function TcpDrive(s: State): map<u64, Driven<Connection>> {
    map id | id in s.connections :: DrivenTcp(TcpAt(s.sockets, s.connections[id].handle), s.connections[id])
  }

  function UdpDrive(s: State): map<u64, Driven<Association>> {
    map id | id in s.associations :: DrivenUdp(UdpAt(s.sockets, s.associations[id].handle), s.associations[id])
  }

  /** The slots after the drive: closed sockets are gone. */
  function Kept<E>(d: map<u64, Driven<E>>): map<u64, Option<Socket>> {
    map id | id in d :: if d[id].open then Some(d[id].socket) else None
  }

  /** The table after the drive. */
  function OpenEntries<E>(d: map<u64, Driven<E>>): map<u64, E> {
    map id | id in d && d[id].open :: d[id].entry
  }

  /** The slots with each id's slot set to its result; all others as before. */
  ghost function Place(sockets: seq<Option<Socket>>, handles: map<u64, nat>, result: map<u64, Option<Socket>>)
    : seq<Option<Socket>>
    requires handles.Keys == result.Keys
  {
    seq(|sockets|, h requires 0 <= h < |sockets| => SlotOf(sockets, handles, result, h))
  }

  ghost function SlotOf(sockets: seq<Option<Socket>>, handles: map<u64, nat>, result: map<u64, Option<Socket>>, h: nat)
    : Option<Socket>
    requires handles.Keys == result.Keys && h < |sockets|
  {
    if id :| id in handles && handles[id] == h then result[id] else sockets[h]
  }

  /** Every connection is driven against its own socket, all at once; those whose socket is closed
      afterwards are removed together with the socket. */
  ghost function AfterTcpDrive(s: State): State {
    s.(connections := OpenEntries(TcpDrive(s)), sockets := Place(s.sockets, TcpHandles(s), Kept(TcpDrive(s))))
  }

  ghost function AfterUdpDrive(s: State): State {
    s.(associations := OpenEntries(UdpDrive(s)), sockets := Place(s.sockets, UdpHandles(s), Kept(UdpDrive(s))))
  }

  // ---------------------------------------------------------------- walks over a table

  /** Part way through a walk: the ids still to do have their old value, the others their new. */
  ghost function Mix<V>(before: map<u64, V>, after: map<u64, V>, todo: set<u64>): map<u64, V>
    requires before.Keys == after.Keys
  {
    map id | id in before :: if id in todo then before[id] else after[id]
  }

  lemma MixEnds<V>(before: map<u64, V>, after: map<u64, V>)
    requires before.Keys == after.Keys
    ensures Mix(before, after, before.Keys) == before && Mix(before, after, {}) == after
  {
  }

  lemma MixNext<V>(before: map<u64, V>, after: map<u64, V>, todo: set<u64>, id: u64)
    requires before.Keys == after.Keys && id in todo && todo <= before.Keys
    ensures Mix(before, after, todo)[id] == before[id]
    ensures Mix(before, after, todo)[id := after[id]] == Mix(before, after, todo - {id})
  {
  }

  /** The slots part way through a walk that takes them from `before` to `after`. */
  ghost predicate SlotsAt(base: seq<Option<Socket>>, handles: map<u64, nat>, before: map<u64, Option<Socket>>,
                          after: map<u64, Option<Socket>>, todo: set<u64>, sockets: seq<Option<Socket>>)
  {
    && handles.Keys == before.Keys == after.Keys && Injective(handles, |base|)
    && sockets == Place(base, handles, Mix(before, after, todo))
  }

  lemma PlaceOne(sockets: seq<Option<Socket>>, handles: map<u64, nat>, result: map<u64, Option<Socket>>, id: u64,
                 x: Option<Socket>)
    requires handles.Keys == result.Keys && Injective(handles, |sockets|) && id in handles
    ensures Place(sockets, handles, result)[handles[id] := x] == Place(sockets, handles, result[id := x])
    ensures Place(sockets, handles, result)[handles[id]] == result[id]
  {
  }

  lemma WalkStep(base: seq<Option<Socket>>, handles: map<u64, nat>, before: map<u64, Option<Socket>>,
                 after: map<u64, Option<Socket>>, todo: set<u64>, sockets: seq<Option<Socket>>, id: u64)
    requires SlotsAt(base, handles, before, after, todo, sockets) && id in todo && todo <= before.Keys
    ensures handles[id] < |sockets| && sockets[handles[id]] == before[id]
    ensures SlotsAt(base, handles, before, after, todo - {id}, sockets[handles[id] := after[id]])
  {
    PlaceOne(base, handles, Mix(before, after, todo), id, after[id]);
    MixNext(before, after, todo, id);
  }

  lemma WalkStart(base: seq<Option<Socket>>, handles: map<u64, nat>, after: map<u64, Option<Socket>>)
    requires handles.Keys == after.Keys && Injective(handles, |base|)
    ensures SlotsAt(base, handles, SlotsOf(base, handles), after, handles.Keys, base)
  {
    MixEnds(SlotsOf(base, handles), after);
    assert Place(base, handles, SlotsOf(base, handles)) == base;
  }

  lemma WalkEnd(base: seq<Option<Socket>>, handles: map<u64, nat>, before: map<u64, Option<Socket>>,
                after: map<u64, Option<Socket>>, sockets: seq<Option<Socket>>)
    requires SlotsAt(base, handles, before, after, {}, sockets)
    ensures sockets == Place(base, handles, after)
  {
    MixEnds(before, after);
  }

  /** The walk that removes the closed ids starts where the walk that drives all of them ends. */
  lemma WalkAgain(base: seq<Option<Socket>>, handles: map<u64, nat>, before: map<u64, Option<Socket>>,
                  middle: map<u64, Option<Socket>>, after: map<u64, Option<Socket>>, todo: set<u64>,
                  sockets: seq<Option<Socket>>)
    requires SlotsAt(base, handles, before, middle, {}, sockets)
    requires after.Keys == middle.Keys && forall id :: id in middle && id !in todo ==> after[id] == middle[id]
    ensures SlotsAt(base, handles, middle, after, todo, sockets)
  {
    WalkEnd(base, handles, before, middle, sockets);
    assert Mix(middle, after, todo) == middle;
  }

  ghost function SlotsOf(base: seq<Option<Socket>>, handles: map<u64, nat>): map<u64, Option<Socket>>
    requires Injective(handles, |base|)
  {
    map id | id in handles :: base[handles[id]]
  }

  ghost function DrivenSlots<E>(d: map<u64, Driven<E>>): map<u64, Option<Socket>> {
    map id | id in d :: Some(d[id].socket)
  }

  ghost function Entries<E>(d: map<u64, Driven<E>>): map<u64, E> {
    map id | id in d :: d[id].entry
  }

  ghost function ClosedIds<E>(d: map<u64, Driven<E>>): set<u64> {
    set id | id in d && !d[id].open
  }

  /** The entries left when the closed ids in `todo` are still to be removed. */
  ghost function Survivors<E>(d: map<u64, Driven<E>>, todo: set<u64>): map<u64, E> {
    map id | id in d && (d[id].open || id in todo) :: d[id].entry
  }

  /** A table, the slots and the ids to remove, part way through the walk that drives every entry. */
  datatype Walk<E> = Walk(table: map<u64, E>, sockets: seq<Option<Socket>>, removeIds: set<u64>)

  /** `todo` is still to be driven; `start` is what the walk began with. */
  ghost predicate DrivesAt<E>(start: Walk<E>, handles: map<u64, nat>, d: map<u64, Driven<E>>, todo: set<u64>,
                              w: Walk<E>)
  {
    && d.Keys == start.table.Keys == handles.Keys && Injective(handles, |start.sockets|) && todo <= d.Keys
    && w.table == Mix(start.table, Entries(d), todo)
    && SlotsAt(start.sockets, handles, SlotsOf(start.sockets, handles), DrivenSlots(d), todo, w.sockets)
    && w.removeIds == ClosedIds(d) - todo
  }

  lemma DrivesStart<E>(start: Walk<E>, handles: map<u64, nat>, d: map<u64, Driven<E>>)
    requires d.Keys == start.table.Keys == handles.Keys && Injective(handles, |start.sockets|) && start.removeIds == {}
    ensures DrivesAt(start, handles, d, d.Keys, start)
  {
    MixEnds(start.table, Entries(d));
    WalkStart(start.sockets, handles, DrivenSlots(d));
  }

  lemma DrivesFound<E>(start: Walk<E>, handles: map<u64, nat>, d: map<u64, Driven<E>>, todo: set<u64>, w: Walk<E>,
                       id: u64)
    requires DrivesAt(start, handles, d, todo, w) && id in todo
    ensures id in w.table && w.table[id] == start.table[id]
    ensures handles[id] < |w.sockets| && w.sockets[handles[id]] == start.sockets[handles[id]]
  {
    MixNext(start.table, Entries(d), todo, id);
    WalkStep(start.sockets, handles, SlotsOf(start.sockets, handles), DrivenSlots(d), todo, w.sockets, id);
  }

  /** The walk after one more entry. */
  ghost function Drove<E>(w: Walk<E>, id: u64, h: nat, driven: Driven<E>): Walk<E>
    requires h < |w.sockets|
  {
    Walk(w.table[id := driven.entry], w.sockets[h := Some(driven.socket)],
         w.removeIds + if driven.open then {} else {id})
  }

  lemma DrivesNext<E>(start: Walk<E>, handles: map<u64, nat>, d: map<u64, Driven<E>>, todo: set<u64>, w: Walk<E>,
                      id: u64)
    requires DrivesAt(start, handles, d, todo, w) && id in todo && handles[id] < |w.sockets|
    ensures DrivesAt(start, handles, d, todo - {id}, Drove(w, id, handles[id], d[id]))
  {
    MixNext(start.table, Entries(d), todo, id);
    WalkStep(start.sockets, handles, SlotsOf(start.sockets, handles), DrivenSlots(d), todo, w.sockets, id);
    assert ClosedIds(d) - (todo - {id}) == (ClosedIds(d) - todo) + if d[id].open then {} else {id};
  }

  /** Part way through the walk that removes the closed entries. */
  ghost predicate RemovesAt<E>(base: seq<Option<Socket>>, handles: map<u64, nat>, d: map<u64, Driven<E>>,
                               todo: set<u64>, table: map<u64, E>, sockets: seq<Option<Socket>>)
  {
    && todo <= ClosedIds(d) && table == Survivors(d, todo)
    && SlotsAt(base, handles, DrivenSlots(d), Kept(d), todo, sockets)
  }

  lemma RemovesStart<E>(start: Walk<E>, handles: map<u64, nat>, d: map<u64, Driven<E>>, w: Walk<E>)
    requires DrivesAt(start, handles, d, {}, w)
    ensures w.removeIds == ClosedIds(d)
    ensures RemovesAt(start.sockets, handles, d, w.removeIds, w.table, w.sockets)
  {
    MixEnds(start.table, Entries(d));
    assert Survivors(d, ClosedIds(d)) == Entries(d);
    WalkAgain(start.sockets, handles, SlotsOf(start.sockets, handles), DrivenSlots(d), Kept(d), w.removeIds, w.sockets);
  }

  lemma RemovesNext<E>(base: seq<Option<Socket>>, handles: map<u64, nat>, d: map<u64, Driven<E>>, todo: set<u64>,
                       table: map<u64, E>, sockets: seq<Option<Socket>>, id: u64)
    requires RemovesAt(base, handles, d, todo, table, sockets) && id in todo
    ensures id in d && id in handles && id in table && table[id] == d[id].entry && handles[id] < |sockets|
    ensures RemovesAt(base, handles, d, todo - {id}, table - {id}, sockets[handles[id] := None])
  {
    WalkStep(base, handles, DrivenSlots(d), Kept(d), todo, sockets, id);
    assert Survivors(d, todo) - {id} == Survivors(d, todo - {id});
  }

  lemma RemovesEnd<E>(base: seq<Option<Socket>>, handles: map<u64, nat>, d: map<u64, Driven<E>>, table: map<u64, E>,
                      sockets: seq<Option<Socket>>)
    requires RemovesAt(base, handles, d, {}, table, sockets)
    ensures handles.Keys == d.Keys && table == OpenEntries(d) && sockets == Place(base, handles, Kept(d))
  {
    WalkEnd(base, handles, DrivenSlots(d), Kept(d), sockets);
  }

  lemma DrivenTcpKeepsHandle(t: TcpSocket, c: Connection)
    ensures DrivenTcp(t, c).entry.handle == c.handle
  {
    var moved := PumpSendsFrame(t, c);
    PumpReadsFrame(PumpSends(t, c).0, PumpSends(t, c).1);
  }

  lemma DrivenUdpKeepsHandle(u: UdpSocket, a: Association)
    ensures DrivenUdp(u, a).entry.handle == a.handle
  {
    var moved := PumpUdpSendsFrame(u, a);
    PumpUdpReadsConserves(PumpUdpSends(u, a).0, PumpUdpSends(u, a).1);
  }

  lemma TcpDriveKeepsHandles(s: State)
    ensures forall id :: id in s.connections ==> TcpDrive(s)[id].entry.handle == s.connections[id].handle
  {
    forall id | id in s.connections ensures TcpDrive(s)[id].entry.handle == s.connections[id].handle {
      DrivenTcpKeepsHandle(TcpAt(s.sockets, s.connections[id].handle), s.connections[id]);
    }
  }

  lemma UdpDriveKeepsHandles(s: State)
    ensures forall id :: id in s.associations ==> UdpDrive(s)[id].entry.handle == s.associations[id].handle
  {
    forall id | id in s.associations ensures UdpDrive(s)[id].entry.handle == s.associations[id].handle {
      DrivenUdpKeepsHandle(UdpAt(s.sockets, s.associations[id].handle), s.associations[id]);
    }
  }

  // ---------------------------------------------------------------- the loop's state

  class NetstackLoop {
    var sockets: seq<Option<Socket>>
    var connections: map<u64, Connection>
    var associations: map<u64, Association>
    var nextConnId: u64
    var nextLocalPort: u16
    var deviceRx: seq<Bytes>

    constructor ()
      ensures Snapshot() == INITIAL
    {
      sockets, connections, associations := [], map[], map[];
      nextConnId, nextLocalPort, deviceRx := 1, 40000, [];
    }

    function Snapshot(): State
      reads this
    {
      State(sockets, connections, associations, nextConnId, nextLocalPort, deviceRx)
    }

    method AllocLocalPort() returns (port: u16)
      modifies this`nextLocalPort
      ensures port == old(nextLocalPort) && nextLocalPort == NextPort(old(nextLocalPort))
    {
      port := nextLocalPort;
      nextLocalPort := if nextLocalPort >= 60000 then 40000 else nextLocalPort + 1;
    }

    method AddSocket(socket: Socket) returns (h: nat)
      modifies this`sockets
      ensures h == FreeSlot(old(sockets)) && sockets == Put(old(sockets), h, socket)
    {
      h := 0;
      while h < |sockets| && sockets[h].Some?
        invariant h <= |sockets| && forall i :: 0 <= i < h ==> sockets[i].Some?
      {
        h := h + 1;
      }
      assert h == FreeSlot(sockets);
      sockets := Put(sockets, h, socket);
    }

    method OpenTcp(target: Endpoint, connects: bool) returns (id: Option<u64>)
      modifies this
      ensures Snapshot() == OpenConnection(old(Snapshot()), target, connects)
      ensures id == if connects then Some(old(nextConnId)) else None
    {
      ghost var before := sockets;
      var h := AddSocket(Tcp(Connecting(0, target)));
      var port := AllocLocalPort();
      sockets := sockets[h := Some(Tcp(Connecting(port, target)))];
      assert sockets == Put(before, h, Tcp(Connecting(port, target)));
      if connects {
        id := Some(nextConnId);
        connections := connections[nextConnId := Connection(h, Channel([], true), [], false)];
        nextConnId := NextId(nextConnId);
      } else {
        sockets := sockets[h := None];
        id := None;
      }
    }

    method OpenUdpAssociation(binds: bool, sendsLeft: nat) returns (id: Option<u64>)
      modifies this
      ensures Snapshot() == OpenAssociation(old(Snapshot()), binds, sendsLeft)
      ensures id == if binds then Some(old(nextConnId)) else None
    {
      var port := AllocLocalPort();
      if !binds {
        return None;
      }
      var h := AddSocket(Udp(Bound(port, sendsLeft)));
      id := Some(nextConnId);
      associations := associations[nextConnId := Association(h, Channel([], true), [], false)];
      nextConnId := NextId(nextConnId);
    }

    method HandleControlMessage(msg: ControlMessage) returns (reply: Option<u64>)
      modifies this
      ensures Snapshot() == Handle(old(Snapshot()), msg)
      ensures reply.Some? <==> (msg.Open? && msg.connects) || (msg.OpenUdp? && msg.binds)
      ensures reply.Some? ==> reply.value == old(nextConnId)
    {
      reply := None;
      match msg {
        case TunnelPacket(packet) =>
          deviceRx := deviceRx + [packet];
        case Open(target, connects) =>
          reply := OpenTcp(target, connects);
        case OpenUdp(binds, sendsLeft) =>
          reply := OpenUdpAssociation(binds, sendsLeft);
        case Send(id, data) =>
          if id in connections {
            var c := connections[id];
            connections := connections[id := c.(pending := c.pending + [data])];
          }
        case SendUdp(id, target, data) =>
          if id in associations {
            var a := associations[id];
            associations := associations[id := a.(pending := a.pending + [Datagram(target, data)])];
          }
        case Close(id) =>
          if id in connections {
            connections := connections[id := connections[id].(closeRequested := true)];
          }
        case CloseUdp(id) =>
          if id in associations {
            associations := associations[id := associations[id].(closeRequested := true)];
          }
      }
    }

    /** The first message, then whatever is queued, 64 messages at most; fails when the queue runs
        dry and its senders are gone. */
    method ProcessControlBatch(first: ControlMessage, queue: seq<ControlMessage>, disconnected: bool)
      returns (taken: nat, ok: bool)
      modifies this
      ensures taken == Min(|queue|, 63)
      ensures Snapshot() == HandleAll(old(Snapshot()), [first] + queue[..taken])
      ensures ok <==> !(disconnected && |queue| < 63)
    {
      var _ := HandleControlMessage(first);
      taken := 0;
      assert [first][..0] == [];
      assert [first] + queue[..0] == [first];
      for k := 1 to MAX_CONTROL_BATCH
        invariant taken == k - 1 <= |queue|
        invariant Snapshot() == HandleAll(old(Snapshot()), [first] + queue[..taken])
      {
        if taken == |queue| {
          return taken, !disconnected;
        }
        assert ([first] + queue[..taken + 1])[..taken + 1] == [first] + queue[..taken];
        var _ := HandleControlMessage(queue[taken]);
        taken := taken + 1;
      }
      ok := true;
    }

    method DriveOneConnection(id: u64, ghost driven: Driven<Connection>) returns (open: bool)
      requires id in connections && IsTcp(sockets, connections[id].handle)
      requires driven == DrivenTcp(TcpAt(sockets, connections[id].handle), connections[id])
      modifies this`sockets, this`connections
      ensures connections == old(connections)[id := driven.entry]
      ensures sockets == old(sockets)[old(connections)[id].handle := Some(driven.socket)]
      ensures open == driven.open
    {
      var conn := connections[id];
      var h := conn.handle;
      var socket := sockets[h].value.tcp;
      socket, conn := PumpPendingSends(socket, conn);
      socket, conn := PumpUplinkReads(socket, conn);
      if conn.closeRequested && socket.maySend {
        socket := socket.Close();
      }
      connections, sockets := connections[id := conn], sockets[h := Some(Tcp(socket))];
      open := socket.isOpen;
    }

    /** Whatever the order in which the table is walked, the drive is the simultaneous one. */
    method DriveConnections()
      requires Wired(Snapshot())
      modifies this`sockets, this`connections
      ensures Snapshot() == AfterTcpDrive(old(Snapshot()))
    {
      ghost var s := Snapshot();
      TcpDriveKeepsHandles(s);
      var removeIds := WalkConnections();
      RemovesStart(Walk(s.connections, s.sockets, {}), TcpHandles(s), TcpDrive(s), TcpWalk(removeIds));
      RemoveConnections(removeIds, s.sockets, TcpHandles(s), TcpDrive(s));
    }

    ghost function TcpWalk(removeIds: set<u64>): Walk<Connection>
      reads this
    {
      Walk(connections, sockets, removeIds)
    }

    method WalkConnections() returns (removeIds: set<u64>)
      requires Wired(Snapshot())
      modifies this`sockets, this`connections
      ensures DrivesAt(old(TcpWalk({})), TcpHandles(old(Snapshot())), TcpDrive(old(Snapshot())), {}, TcpWalk(removeIds))
    {
      ghost var s, start, handles, d := Snapshot(), TcpWalk({}), TcpHandles(Snapshot()), TcpDrive(Snapshot());
      removeIds := {};
      var todo := connections.Keys;
      DrivesStart(start, handles, d);
      while todo != {}
        invariant DrivesAt(start, handles, d, todo, TcpWalk(removeIds))
        decreases todo
      {
        var id :| id in todo;
        DrivesFound(start, handles, d, todo, TcpWalk(removeIds), id);
        DrivesNext(start, handles, d, todo, TcpWalk(removeIds), id);
        assert IsTcp(s.sockets, handles[id]);
        var open := DriveOneConnection(id, d[id]);
        removeIds := removeIds + if open then {} else {id};
        todo := todo - {id};
      }
    }

    method RemoveConnections(removeIds: set<u64>, ghost base: seq<Option<Socket>>, ghost handles: map<u64, nat>,
                             ghost d: map<u64, Driven<Connection>>)
      requires forall id :: id in d && id in handles ==> d[id].entry.handle == handles[id]
      requires RemovesAt(base, handles, d, removeIds, connections, sockets)
      modifies this`sockets, this`connections
      ensures handles.Keys == d.Keys
      ensures connections == OpenEntries(d) && sockets == Place(base, handles, Kept(d))
    {
      var todo := removeIds;
      while todo != {}
        invariant RemovesAt(base, handles, d, todo, connections, sockets)
        decreases todo
      {
        var id :| id in todo;
        RemovesNext(base, handles, d, todo, connections, sockets, id);
        assert connections[id].handle == handles[id];
        connections, sockets := connections - {id}, sockets[connections[id].handle := None];
        todo := todo - {id};
      }
      RemovesEnd(base, handles, d, connections, sockets);
    }

    method DriveOneAssociation(id: u64, ghost driven: Driven<Association>) returns (open: bool)
      requires id in associations && IsUdp(sockets, associations[id].handle)
      requires driven == DrivenUdp(UdpAt(sockets, associations[id].handle), associations[id])
      modifies this`sockets, this`associations
      ensures associations == old(associations)[id := driven.entry]
      ensures sockets == old(sockets)[old(associations)[id].handle := Some(driven.socket)]
      ensures open == driven.open
    {
      var assoc := associations[id];
      var h := assoc.handle;
      var socket := sockets[h].value.udp;
      socket, assoc := PumpPendingUdpSends(socket, assoc);
      socket, assoc := PumpUdpUplinkReads(socket, assoc);
      if assoc.closeRequested {
        socket := socket.Close();
      }
      associations, sockets := associations[id := assoc], sockets[h := Some(Udp(socket))];
      open := socket.isOpen;
    }

    method DriveUdpAssociations()
      requires Wired(Snapshot())
      modifies this`sockets, this`associations
      ensures Snapshot() == AfterUdpDrive(old(Snapshot()))
    {
      ghost var s := Snapshot();
      UdpDriveKeepsHandles(s);
      var removeIds := WalkAssociations();
      RemovesStart(Walk(s.associations, s.sockets, {}), UdpHandles(s), UdpDrive(s), UdpWalk(removeIds));
      RemoveAssociations(removeIds, s.sockets, UdpHandles(s), UdpDrive(s));
    }

    ghost function UdpWalk(removeIds: set<u64>): Walk<Association>
      reads this
    {
      Walk(associations, sockets, removeIds)
    }

    method WalkAssociations() returns (removeIds: set<u64>)
      requires Wired(Snapshot())
      modifies this`sockets, this`associations
      ensures DrivesAt(old(UdpWalk({})), UdpHandles(old(Snapshot())), UdpDrive(old(Snapshot())), {}, UdpWalk(removeIds))
    {
      ghost var s, start, handles, d := Snapshot(), UdpWalk({}), UdpHandles(Snapshot()), UdpDrive(Snapshot());
      removeIds := {};
      var todo := associations.Keys;
      DrivesStart(start, handles, d);
      while todo != {}
        invariant DrivesAt(start, handles, d, todo, UdpWalk(removeIds))
        decreases todo
      {
        var id :| id in todo;
        DrivesFound(start, handles, d, todo, UdpWalk(removeIds), id);
        DrivesNext(start, handles, d, todo, UdpWalk(removeIds), id);
        assert IsUdp(s.sockets, handles[id]);
        var open := DriveOneAssociation(id, d[id]);
        removeIds := removeIds + if open then {} else {id};
        todo := todo - {id};
      }
    }

    method RemoveAssociations(removeIds: set<u64>, ghost base: seq<Option<Socket>>, ghost handles: map<u64, nat>,
                             ghost d: map<u64, Driven<Association>>)
      requires forall id :: id in d && id in handles ==> d[id].entry.handle == handles[id]
      requires RemovesAt(base, handles, d, removeIds, associations, sockets)
      modifies this`sockets, this`associations
      ensures handles.Keys == d.Keys
      ensures associations == OpenEntries(d) && sockets == Place(base, handles, Kept(d))
    {
      var todo := removeIds;
      while todo != {}
        invariant RemovesAt(base, handles, d, todo, associations, sockets)
        decreases todo
      {
        var id :| id in todo;
        RemovesNext(base, handles, d, todo, associations, sockets, id);
        assert associations[id].handle == handles[id];
        associations, sockets := associations - {id}, sockets[associations[id].handle := None];
        todo := todo - {id};
      }
      RemovesEnd(base, handles, d, associations, sockets);
    }
  }
}
