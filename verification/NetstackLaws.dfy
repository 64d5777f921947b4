/** Why connections are opened, shut and removed in a run, and where the packets of the tunnel go. */
module NetstackLaws {
  import opened Prelude
  import opened Sequences
  import opened NetSockets
  import opened Netstack
  import opened NetstackRuns
  import opened NetstackStreams

  // ---------------------------------------------------------------- where a connection goes

  /** How many local ports have been asked for: one by every open, whether it succeeds or not. */
  function PortsTaken(events: seq<Event>): nat {
    if events == [] then 0
    else
      var last := events[|events| - 1];
      PortsTaken(events[..|events| - 1]) + if AsksForPort(last) then 1 else 0
  }

  predicate AsksForPort(e: Event) {
    e.Control? && (e.msg.Open? || e.msg.OpenUdp?)
  }

  lemma PortNext(s: State, e: Event)
    ensures Step(s, e).nextLocalPort == if AsksForPort(e) then NextPort(s.nextLocalPort) else s.nextLocalPort
  {
  }

  lemma PortTurn(k: nat)
    ensures NextPort(40000 + k % 20001) == 40000 + (k + 1) % 20001
  {
  }

  lemma {:induction false} RunsTakePortsInTurn(events: seq<Event>)
    ensures Run(events).nextLocalPort == 40000 + PortsTaken(events) % 20001
  {
    if events != [] {
      RunsTakePortsInTurn(events[..|events| - 1]);
      PortNext(Run(events[..|events| - 1]), events[|events| - 1]);
      PortTurn(PortsTaken(events[..|events| - 1]));
    }
  }

  /** The open at `i` issued the id, for the target. */
  predicate OpenedAt(events: seq<Event>, i: nat, id: u64, target: Endpoint) {
    i < |events| && events[i] == Control(Open(target, true)) && OpenCount(events[..i]) + 1 == id
  }

  lemma MoveKeepsEnds(e: Event, id: u64, t: TcpSocket, c: Connection, t': TcpSocket, c': Connection)
    requires TcpMoves(e, id, t, c, t', c')
    ensures t'.local == t.local && t'.peer == t.peer
  {
    if e.DriveTcps? {
      var moved := PumpSendsFrame(t, c);
      PumpReadsFrame(PumpSends(t, c).0, PumpSends(t, c).1);
    }
  }

  lemma OpenedAtExtends(front: seq<Event>, last: Event, i: nat, id: u64, target: Endpoint)
    requires OpenedAt(front, i, id, target)
    ensures OpenedAt(front + [last], i, id, target) && (front + [last])[..i] == front[..i]
  {
    assert (front + [last])[..i] == front[..i];
  }

  /** Every live connection is the one to the target of the open that issued its id, from the port that was
      next then: of the ports 40000 to 60000 in turn. */
  lemma {:induction false} ConnectsWhereAsked(events: seq<Event>, id: u64) returns (i: nat)
    requires OpenCount(events) < ID_SPACE && id in Run(events).connections
    ensures OpenedAt(events, i, id, TcpOf(Run(events), id).peer)
    ensures TcpOf(Run(events), id).local == 40000 + PortsTaken(events[..i]) % 20001
  {
    var front, last := events[..|events| - 1], events[|events| - 1];
    assert events == front + [last];
    RunsKeepTables(front);
    if id in Run(front).connections {
      i := ConnectsWhereAsked(front, id);
      StepMovesTcpEntry(Run(front), last, OpenCount(front), id);
      MoveKeepsEnds(last, id, TcpOf(Run(front), id), Run(front).connections[id], TcpOf(Run(events), id),
                    Run(events).connections[id]);
      OpenedAtExtends(front, last, i, id, TcpOf(Run(front), id).peer);
    } else {
      i := |front|;
      StepAddsFreshTcpEntry(Run(front), last, OpenCount(front), id);
      RunsTakePortsInTurn(front);
    }
  }

  lemma NewId(s: State, n: nat)
    requires IdsIssued(s, n) && n + 1 < ID_SPACE
    ensures s.nextConnId == n + 1 && n + 1 !in s.connections && n + 1 !in s.associations
  {
  }

  lemma NextIdIsNew(events: seq<Event>)
    requires OpenCount(events) + 1 < ID_SPACE
    ensures var s, id := Run(events), OpenCount(events) + 1;
            s.nextConnId == id && id !in s.connections && id !in s.associations
  {
    RunsIssueIds(events);
    NewId(Run(events), OpenCount(events));
  }

  lemma OpenAdds(s: State, target: Endpoint, connects: bool)
    ensures var s' := Handle(s, Open(target, connects));
            && s'.connections.Keys == s.connections.Keys + (if connects then {s.nextConnId} else {})
            && s'.associations == s.associations
  {
  }

  lemma UdpOpenAdds(s: State, binds: bool, sendsLeft: nat)
    ensures var s' := Handle(s, OpenUdp(binds, sendsLeft));
            && s'.associations.Keys == s.associations.Keys + (if binds then {s.nextConnId} else {})
            && s'.connections == s.connections
  {
  }

  /** An open that succeeds adds one fresh entry, under the number of opens so far; one that fails leaves
      both tables alone. */
  lemma OpensAddEntries(events: seq<Event>, target: Endpoint, connects: bool)
    requires OpenCount(events) + 1 < ID_SPACE
    ensures var s, s', id := Run(events), Run(events + [Control(Open(target, connects))]), OpenCount(events) + 1;
            && s.nextConnId == id && id !in s.connections && id !in s.associations
            && s'.connections.Keys == s.connections.Keys + (if connects then {id} else {})
            && s'.associations == s.associations
  {
    NextIdIsNew(events);
    OpenAdds(Run(events), target, connects);
    RunNext(events, Control(Open(target, connects)));
  }

  lemma UdpOpensAddEntries(events: seq<Event>, binds: bool, sendsLeft: nat)
    requires OpenCount(events) + 1 < ID_SPACE
    ensures var s, s', id := Run(events), Run(events + [Control(OpenUdp(binds, sendsLeft))]), OpenCount(events) + 1;
            && s.nextConnId == id && id !in s.connections && id !in s.associations
            && s'.associations.Keys == s.associations.Keys + (if binds then {id} else {})
            && s'.connections == s.connections
  {
    NextIdIsNew(events);
    UdpOpenAdds(Run(events), binds, sendsLeft);
    RunNext(events, Control(OpenUdp(binds, sendsLeft)));
  }

  /** Only drives remove entries. */
  lemma OnlyDrivesRemove(events: seq<Event>, e: Event)
    ensures !e.DriveTcps? ==> Run(events).connections.Keys <= Run(events + [e]).connections.Keys
    ensures !e.DriveUdps? ==> Run(events).associations.Keys <= Run(events + [e]).associations.Keys
  {
    RunNext(events, e);
  }

  // ---------------------------------------------------------------- why a connection is shut

  /** The event came while the connection was in the table. */
  ghost predicate Happened(events: seq<Event>, e: Event, id: u64) {
    exists i :: 0 <= i < |events| && events[i] == e && id in Run(events[..i]).connections
  }

  lemma HappenedExtends(front: seq<Event>, last: Event, e: Event, id: u64)
    ensures Happened(front, e, id) || (last == e && id in Run(front).connections) <==> Happened(front + [last], e, id)
  {
    var events := front + [last];
    assert events[..|front|] == front;
    if i :| 0 <= i < |front| && front[i] == e && id in Run(front[..i]).connections {
      assert events[..i] == front[..i] && events[i] == e;
    }
    if i :| 0 <= i < |events| && events[i] == e && id in Run(events[..i]).connections {
      if i < |front| {
        assert events[..i] == front[..i] && front[i] == e;
      }
    }
    if last == e && id in Run(front).connections {
      assert events[|front|] == e;
    }
  }

  /** A shut connection has asked for it; and it asks only because of a Close handled for it, a failed
      send, or a receiver that was dropped. */
  ghost predicate HasReason(t: TcpSocket, c: Connection, closed: bool, dropped: bool) {
    && (t.closed ==> c.closeRequested)
    && (closed ==> c.closeRequested)
    && (c.closeRequested ==> closed || t.sendFailed || dropped)
    && (!c.uplink.alive <==> dropped)
  }

  lemma MoveKeepsReason(e: Event, id: u64, t: TcpSocket, c: Connection, t': TcpSocket, c': Connection, closed: bool,
                        dropped: bool)
    requires TcpMoves(e, id, t, c, t', c') && HasReason(t, c, closed, dropped)
    ensures HasReason(t', c', closed || e == Control(Close(id)), dropped || e == DropReceiver(id))
  {
    if e.DriveTcps? {
      DriveShutsIff(t, c);
      DriveKeepsFailure(t, c);
    }
  }

  lemma DriveKeepsFailure(t: TcpSocket, c: Connection)
    ensures var (t', c') := DriveTcp(t, c);
            (t.sendFailed || SendFails(t, c) ==> t'.sendFailed) && c'.uplink.alive == c.uplink.alive
  {
    var moved := PumpSendsFrame(t, c);
    if !t.sendFailed {
      FailedSend(t, c);
    }
    PumpReadsFrame(PumpSends(t, c).0, PumpSends(t, c).1);
  }

  /** In every run: a live connection is shut only for a reason. */
  lemma {:induction false} ShutForAReason(events: seq<Event>, id: u64)
    requires OpenCount(events) < ID_SPACE
    ensures id in Run(events).connections ==>
              HasReason(TcpOf(Run(events), id), Run(events).connections[id],
                        Happened(events, Control(Close(id)), id), Happened(events, DropReceiver(id), id))
    ensures id > OpenCount(events) ==>
              !Happened(events, Control(Close(id)), id) && !Happened(events, DropReceiver(id), id)
  {
    if events != [] {
      var front, last := events[..|events| - 1], events[|events| - 1];
      assert events == front + [last];
      ShutForAReason(front, id);
      RunsKeepTables(front);
      HappenedExtends(front, last, Control(Close(id)), id);
      HappenedExtends(front, last, DropReceiver(id), id);
      if id in Run(events).connections {
        ReasonNext(front, last, id);
      }
    }
  }

  lemma ReasonNext(front: seq<Event>, last: Event, id: u64)
    requires OpenCount(front) + (if Opens(last) then 1 else 0) < ID_SPACE
    requires TablesMatchSockets(Run(front), OpenCount(front)) && id in Step(Run(front), last).connections
    requires id in Run(front).connections ==>
               HasReason(TcpOf(Run(front), id), Run(front).connections[id],
                         Happened(front, Control(Close(id)), id), Happened(front, DropReceiver(id), id))
    requires id > OpenCount(front) ==>
               !Happened(front, Control(Close(id)), id) && !Happened(front, DropReceiver(id), id)
    ensures var s, live := Step(Run(front), last), id in Run(front).connections;
            HasReason(TcpOf(s, id), s.connections[id],
                      Happened(front, Control(Close(id)), id) || (last == Control(Close(id)) && live),
                      Happened(front, DropReceiver(id), id) || (last == DropReceiver(id) && live))
  {
    var s := Run(front);
    if id in s.connections {
      StepMovesTcpEntry(s, last, OpenCount(front), id);
      MoveKeepsReason(last, id, TcpOf(s, id), s.connections[id], TcpOf(Step(s, last), id),
                      Step(s, last).connections[id],
                      Happened(front, Control(Close(id)), id), Happened(front, DropReceiver(id), id));
    } else {
      StepAddsFreshTcpEntry(s, last, OpenCount(front), id);
    }
  }

  /** Without a Close handled for it, a failed send or a dropped receiver, no run shuts a connection. */
  lemma UnaskedConnectionsStayOpen(events: seq<Event>, id: u64)
    requires OpenCount(events) < ID_SPACE && id in Run(events).connections
    requires !TcpOf(Run(events), id).sendFailed
    requires !Happened(events, Control(Close(id)), id) && !Happened(events, DropReceiver(id), id)
    ensures !TcpOf(Run(events), id).closed && !Run(events).connections[id].closeRequested
    ensures Run(events).connections[id].uplink.alive
  {
    ShutForAReason(events, id);
  }

  lemma DrivenConnection(events: seq<Event>, id: u64)
    requires OpenCount(events) < ID_SPACE && id in Run(events).connections
    ensures var s', (t, c) := Run(events + [DriveTcps]), DriveTcp(TcpOf(Run(events), id), Run(events).connections[id]);
            (id in s'.connections <==> t.isOpen) && (id in s'.connections ==> TcpOf(s', id) == t)
  {
    AfterDrives(events);
    RunsKeepTables(events);
    AfterTcpDriveAt(Run(events), id);
  }

  /** A Close handled for a connection is carried out by every later drive: the sending half is shut as soon
      as it can send. And a drive removes a connection exactly when its socket is no longer open. */
  lemma CloseIsCarriedOut(events: seq<Event>, id: u64)
    requires OpenCount(events) < ID_SPACE && id in Run(events).connections
    ensures var s, s' := Run(events), Run(events + [DriveTcps]);
            && (id in s'.connections <==> TcpOf(s, id).isOpen)
            && (id in s'.connections && Happened(events, Control(Close(id)), id) ==>
                  !TcpOf(s', id).maySend && (TcpOf(s, id).maySend ==> TcpOf(s', id).closed))
  {
    ShutForAReason(events, id);
    DrivenConnection(events, id);
    DriveShutsIff(TcpOf(Run(events), id), Run(events).connections[id]);
  }

  // ---------------------------------------------------------------- why an association is closed

  ghost predicate HappenedUdp(events: seq<Event>, e: Event, id: u64) {
    exists i :: 0 <= i < |events| && events[i] == e && id in Run(events[..i]).associations
  }

  lemma HappenedUdpExtends(front: seq<Event>, last: Event, e: Event, id: u64)
    ensures HappenedUdp(front, e, id) || (last == e && id in Run(front).associations)
            <==> HappenedUdp(front + [last], e, id)
  {
    var events := front + [last];
    assert events[..|front|] == front;
    if i :| 0 <= i < |front| && front[i] == e && id in Run(front[..i]).associations {
      assert events[..i] == front[..i] && events[i] == e;
    }
    if i :| 0 <= i < |events| && events[i] == e && id in Run(events[..i]).associations {
      if i < |front| {
        assert events[..i] == front[..i] && front[i] == e;
      }
    }
    if last == e && id in Run(front).associations {
      assert events[|front|] == e;
    }
  }

  /** In every run a live association has a close requested exactly when a CloseUdp was handled for it. */
  lemma {:induction false} RequestedIffClosed(events: seq<Event>, id: u64)
    requires OpenCount(events) < ID_SPACE
    ensures id in Run(events).associations ==>
              (Run(events).associations[id].closeRequested <==> HappenedUdp(events, Control(CloseUdp(id)), id))
    ensures id > OpenCount(events) ==> !HappenedUdp(events, Control(CloseUdp(id)), id)
  {
    if events != [] {
      var front, last := events[..|events| - 1], events[|events| - 1];
      assert events == front + [last];
      RequestedIffClosed(front, id);
      RunsKeepTables(front);
      HappenedUdpExtends(front, last, Control(CloseUdp(id)), id);
      if id in Run(events).associations {
        RequestNext(Run(front), last, OpenCount(front), id);
      }
    }
  }

  lemma RequestNext(s: State, e: Event, n: nat, id: u64)
    requires TablesMatchSockets(s, n) && n + (if Opens(e) then 1 else 0) < ID_SPACE
    requires id in Step(s, e).associations
    ensures id !in s.associations ==> id == n + 1
    ensures Step(s, e).associations[id].closeRequested <==>
              id in s.associations && (s.associations[id].closeRequested || e == Control(CloseUdp(id)))
  {
    if id in s.associations {
      StepMovesUdpEntry(s, e, n, id);
      DriveUdpClosesIff(UdpOf(s, id), s.associations[id]);
    } else {
      StepAddsFreshUdpEntry(s, e, n, id);
    }
  }

  /** The next drive removes an association exactly when the network closed it, a CloseUdp was handled for
      it, a send fails, or its receiver has gone and a datagram is read. */
  lemma DriveRemovesAssociationIff(events: seq<Event>, id: u64)
    requires OpenCount(events) < ID_SPACE && id in Run(events).associations
    ensures var u, a := UdpOf(Run(events), id), Run(events).associations[id];
            id in Run(events + [DriveUdps]).associations <==>
              && u.isOpen && !HappenedUdp(events, Control(CloseUdp(id)), id)
              && !UdpSendFails(u, a) && !UdpReadsInVain(u, a)
  {
    DrivenAssociation(events, id);
    RequestedIffClosed(events, id);
    DriveUdpClosesIff(UdpOf(Run(events), id), Run(events).associations[id]);
  }

  // ---------------------------------------------------------------- the packets of the tunnel

  /** The packet that an event brings in from the tunnel. */
  function PacketIn(): Event -> Option<Bytes> {
    (e: Event) => if e.Control? && e.msg.TunnelPacket? then Some(e.msg.packet) else None
  }

  ghost predicate DeviceHolds(front: seq<Event>, back: seq<Event>) {
    Run(front + back).deviceRx == Run(front).deviceRx + FilterMap(back, PacketIn())
  }

  lemma DeviceHoldsNext(front: seq<Event>, soon: seq<Event>, last: Event)
    requires DeviceHolds(front, soon) && !last.Poll?
    ensures DeviceHolds(front, soon + [last])
  {
    RunOn(front, soon, last);
    DeviceNext(Run(front + soon), last);
    FilterMapSnoc(soon, last, PacketIn());
  }

  /** Until the next poll the device holds what it held, then the packets handled since, in order, each once. */
  lemma {:induction false} DeviceHoldsPackets(front: seq<Event>, back: seq<Event>)
    requires forall e :: e in back ==> !e.Poll?
    ensures DeviceHolds(front, back)
  {
    if back == [] {
      assert front + back == front;
    } else {
      var soon, last := back[..|back| - 1], back[|back| - 1];
      DeviceHoldsPackets(front, soon);
      DeviceHoldsNext(front, soon, last);
      assert back == soon + [last];
    }
  }

  lemma DeviceNext(s: State, e: Event)
    requires !e.Poll?
    ensures Step(s, e).deviceRx == s.deviceRx + (match PacketIn()(e) case None => [] case Some(packet) => [packet])
  {
  }
}
