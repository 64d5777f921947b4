/** The sockets the multiplexer drives, and the four pump loops between a socket and the queue or
    channel of its connection. A socket is an abstract pair of bounded buffers: the network moves
    bytes out of `tx` and into `rx` between drives. `accepted`, `received` and the two failure
    flags are histories. */
module NetSockets {
  import opened Prelude
  import opened Text

  const SOCKET_BUFFER_CAPACITY: nat := 65536
  const UDP_PACKET_CAPACITY: nat := 32
  const READ_CHUNK: nat := 4096

  datatype Endpoint = Endpoint(ip: Ipv4, port: u16)

  datatype Datagram = Datagram(peer: Endpoint, data: Bytes)

  /** The sending half of an mpsc channel; `alive` while the receiver has not been dropped. */
  datatype Channel<T> = Channel(sent: seq<T>, alive: bool)

  function Concat(chunks: seq<Bytes>): Bytes {
    if chunks == [] then [] else chunks[0] + Concat(chunks[1..])
  }

  lemma {:induction false} ConcatSnoc(chunks: seq<Bytes>, last: Bytes)
    ensures Concat(chunks + [last]) == Concat(chunks) + last
  {
    if chunks != [] {
      assert (chunks + [last])[1..] == chunks[1..] + [last];
      ConcatSnoc(chunks[1..], last);
    } else {
      assert [last][1..] == [];
    }
  }

  lemma {:induction false} ConcatSplit(chunks: seq<Bytes>, k: nat)
    requires k < |chunks|
    ensures Concat(chunks) == Concat(chunks[..k]) + (chunks[k] + Concat(chunks[k + 1..]))
  {
    if k > 0 {
      ConcatSplit(chunks[1..], k - 1);
      assert chunks[..k][1..] == chunks[1..][..k - 1] && chunks[1..][k..] == chunks[k + 1..];
    }
  }

  function Min(a: nat, b: nat): nat {
    if a < b then a else b
  }

  // ---------------------------------------------------------------- TCP

  /** `sendsLeft` and `recvsLeft`: how many more calls succeed before one reports an error, as the
      network decides. `closed`: the sending half has been shut, for good. */
  datatype TcpSocket = TcpSocket(local: u16, peer: Endpoint, isOpen: bool, maySend: bool, closed: bool, tx: Bytes,
                                 rx: Bytes, sendsLeft: nat, recvsLeft: nat, accepted: Bytes, received: Bytes,
                                 sendFailed: bool, recvFailed: bool)
  {
    predicate CanSend() {
      maySend && |tx| < SOCKET_BUFFER_CAPACITY
    }

    /** `send_slice` takes what fits. */
    function SendSlice(data: Bytes): (TcpSocket, Option<nat>) {
      if sendsLeft == 0 || |tx| > SOCKET_BUFFER_CAPACITY then (this.(sendFailed := true), None)
      else
        var n := Min(|data|, SOCKET_BUFFER_CAPACITY - |tx|);
        (this.(tx := tx + data[..n], accepted := accepted + data[..n], sendsLeft := sendsLeft - 1), Some(n))
    }

    predicate CanRecv() {
      rx != []
    }

    function RecvSlice(limit: nat): (TcpSocket, Option<Bytes>) {
      if recvsLeft == 0 then (this.(recvFailed := true), None)
      else
        var n := Min(limit, |rx|);
        (this.(rx := rx[n..], recvsLeft := recvsLeft - 1), Some(rx[..n]))
    }

    /** A graceful close: the socket sends no more, and stays open until the handshake is over. */
    function Close(): TcpSocket {
      this.(maySend := false, closed := true)
    }
  }

  datatype Connection = Connection(handle: nat, uplink: Channel<Bytes>, pending: seq<Bytes>, closeRequested: bool)

  /** The queue is offered to the socket chunk by chunk until the socket or the queue gives out. */
  function PumpSends(s: TcpSocket, c: Connection): (TcpSocket, Connection)
    decreases |c.pending|
  {
    if !s.CanSend() || c.pending == [] then (s, c)
    else
      var chunk, rest := c.pending[0], c.pending[1..];
      match s.SendSlice(chunk)
      case (s', None) => (s', c.(pending := rest, closeRequested := true))
      case (s', Some(n)) =>
        if n == |chunk| then PumpSends(s', c.(pending := rest))
        else (s', c.(pending := [chunk[n..]] + rest))
  }

  method PumpPendingSends(socket: TcpSocket, conn: Connection) returns (s: TcpSocket, c: Connection)
    ensures (s, c) == PumpSends(socket, conn)
  {
    s, c := socket, conn;
    while s.CanSend()
      invariant PumpSends(s, c) == PumpSends(socket, conn)
      decreases |c.pending|
    {
      if c.pending == [] {
        break;
      }
      var chunk := c.pending[0];
      c := c.(pending := c.pending[1..]);
      var (s', sent) := s.SendSlice(chunk);
      s := s';
      match sent {
        case None =>
          c := c.(closeRequested := true);
          return;
        case Some(n) =>
          if n != |chunk| {
            c := c.(pending := [chunk[n..]] + c.pending);
            return;
          }
      }
    }
  }

  /** What the socket has taken, followed by what is still queued. */
  function Submitted(s: TcpSocket, c: Connection): Bytes {
    s.accepted + Concat(c.pending)
  }

  /** A pump moves bytes from the head of the queue to the end of the socket's stream: as long as
      no send fails, nothing is lost, repeated or reordered, and the pump stops only when the
      queue is empty or the socket refuses more. A failed send asks for the connection to be
      closed. */
  lemma {:induction false} PumpSendsConserves(s: TcpSocket, c: Connection)
    ensures var (s', c') := PumpSends(s, c);
            && (!s'.sendFailed ==> !s.sendFailed && Submitted(s', c') == Submitted(s, c)
                                   && (c'.pending == [] || !s'.CanSend())
                                   && c'.closeRequested == c.closeRequested)
            && (s'.sendFailed && !s.sendFailed ==> c'.closeRequested)
    decreases |c.pending|
  {
    if s.CanSend() && c.pending != [] {
      var chunk, rest := c.pending[0], c.pending[1..];
      var (s1, sent) := s.SendSlice(chunk);
      if sent.Some? {
        var n := sent.value;
        assert chunk == chunk[..n] + chunk[n..];
        if n == |chunk| {
          PumpSendsConserves(s1, c.(pending := rest));
          assert s.accepted + (chunk + Concat(rest)) == (s.accepted + chunk) + Concat(rest);
        } else {
          assert ([chunk[n..]] + rest)[1..] == rest;
          assert s.accepted + (chunk + Concat(rest)) == (s.accepted + chunk[..n]) + (chunk[n..] + Concat(rest));
        }
      }
    }
  }

  /** A send fails exactly when the pump gets as far as the first call that reports an error. */
  predicate SendFails(s: TcpSocket, c: Connection) {
    && s.maySend && s.sendsLeft < |c.pending|
    && |s.tx| + |Concat(c.pending[..s.sendsLeft])| < 65536
  }

  /** The pump that fails: what went before is accepted, the chunk at fault is gone from the queue. */
  lemma {:induction false} FailedSend(s: TcpSocket, c: Connection)
    requires !s.sendFailed
    ensures var (s', c') := PumpSends(s, c);
            && (s'.sendFailed <==> SendFails(s, c))
            && (s'.sendFailed ==> c'.pending == c.pending[s.sendsLeft + 1..]
                                  && s'.accepted == s.accepted + Concat(c.pending[..s.sendsLeft]))
    decreases |c.pending|
  {
    var k := s.sendsLeft;
    if s.CanSend() && c.pending != [] && k > 0 {
      var chunk, rest := c.pending[0], c.pending[1..];
      var (s1, sent) := s.SendSlice(chunk);
      if k < |c.pending| {
        assert c.pending[..k][1..] == rest[..k - 1] && rest[k..] == c.pending[k + 1..];
        assert Concat(c.pending[..k]) == chunk + Concat(rest[..k - 1]);
      }
      if sent.value == |chunk| {
        FailedSend(s1, c.(pending := rest));
        if k < |c.pending| {
          assert s.accepted + (chunk + Concat(rest[..k - 1])) == (s.accepted + chunk) + Concat(rest[..k - 1]);
        }
      }
    }
  }

  /** A send that fails, after however many that succeeded, drops the chunk it was given: the stream is
      conserved exactly when that chunk was empty. */
  lemma FailedSendDropsChunk(s: TcpSocket, c: Connection)
    requires !s.sendFailed
    ensures var (s', c') := PumpSends(s, c);
            && (s'.sendFailed <==> SendFails(s, c))
            && (s'.sendFailed ==>
                  var k := s.sendsLeft;
                  && Submitted(s, c) == s'.accepted + (c.pending[k] + Concat(c'.pending))
                  && s'.accepted == s.accepted + Concat(c.pending[..k]) && c'.pending == c.pending[k + 1..]
                  && (Submitted(s', c') == Submitted(s, c) <==> c.pending[k] == []))
  {
    FailedSend(s, c);
    if SendFails(s, c) {
      var k, c' := s.sendsLeft, PumpSends(s, c).1;
      ConcatSplit(c.pending, k);
      assert Submitted(s, c) == s.accepted + Concat(c.pending[..k]) + (c.pending[k] + Concat(c'.pending));
      if c.pending[k] == [] {
        assert c.pending[k] + Concat(c'.pending) == Concat(c'.pending);
      }
    }
  }

  /** From one pair to the other only the queue, the send buffer and their histories changed: `moved`
      was added to the send buffer and to the socket's stream. */
  ghost predicate Sent(s: TcpSocket, c: Connection, s': TcpSocket, c': Connection, moved: Bytes) {
    && s' == s.(tx := s.tx + moved, accepted := s.accepted + moved,
                sendsLeft := s'.sendsLeft, sendFailed := s'.sendFailed)
    && c' == c.(pending := c'.pending, closeRequested := c'.closeRequested)
    && (c.closeRequested ==> c'.closeRequested) && (s.sendFailed ==> s'.sendFailed)
  }

  lemma SentThenSent(s: TcpSocket, c: Connection, s1: TcpSocket, c1: Connection, s2: TcpSocket, c2: Connection,
                     moved: Bytes, more: Bytes)
    requires Sent(s, c, s1, c1, moved) && Sent(s1, c1, s2, c2, more)
    ensures Sent(s, c, s2, c2, moved + more)
  {
    assert s.tx + moved + more == s.tx + (moved + more);
    assert s.accepted + moved + more == s.accepted + (moved + more);
  }

  lemma {:induction false} PumpSendsFrame(s: TcpSocket, c: Connection) returns (moved: Bytes)
    ensures Sent(s, c, PumpSends(s, c).0, PumpSends(s, c).1, moved)
    decreases |c.pending|
  {
    moved := [];
    if s.CanSend() && c.pending != [] {
      var chunk, c1 := c.pending[0], c.(pending := c.pending[1..]);
      var (s1, sent) := s.SendSlice(chunk);
      if sent.Some? {
        moved := chunk[..sent.value];
        if sent.value == |chunk| {
          var more := PumpSendsFrame(s1, c1);
          SentThenSent(s, c, s1, c1, PumpSends(s1, c1).0, PumpSends(s1, c1).1, moved, more);
          moved := moved + more;
        }
      }
    }
    assert moved == [] ==> s.tx + moved == s.tx && s.accepted + moved == s.accepted;
  }

  lemma {:induction false} PumpSendsFillsAtMost(s: TcpSocket, c: Connection)
    requires |s.tx| <= SOCKET_BUFFER_CAPACITY
    ensures |PumpSends(s, c).0.tx| <= SOCKET_BUFFER_CAPACITY
    decreases |c.pending|
  {
    if s.CanSend() && c.pending != [] {
      var (s1, sent) := s.SendSlice(c.pending[0]);
      if sent == Some(|c.pending[0]|) {
        PumpSendsFillsAtMost(s1, c.(pending := c.pending[1..]));
      }
    }
  }

  /** How much a pump moves, exactly, unless a send fails: everything queued, or as much of it as the
      buffer has room for. */
  lemma PumpSendsAmount(s: TcpSocket, c: Connection)
    requires s.maySend && |s.tx| <= SOCKET_BUFFER_CAPACITY && !PumpSends(s, c).0.sendFailed
    ensures var (s', c') := PumpSends(s, c);
            var n := Min(|Concat(c.pending)|, 65536 - |s.tx|);
            s'.accepted == s.accepted + Concat(c.pending)[..n] && Concat(c'.pending) == Concat(c.pending)[n..]
  {
    var (s', c') := PumpSends(s, c);
    var moved := PumpSendsFrame(s, c);
    PumpSendsConserves(s, c);
    PumpSendsFillsAtMost(s, c);
    MovedThenQueued(s.accepted, moved, Concat(c'.pending), Concat(c.pending));
  }

  lemma MovedThenQueued(accepted: Bytes, moved: Bytes, left: Bytes, queued: Bytes)
    requires accepted + moved + left == accepted + queued
    ensures |moved| <= |queued| && moved == queued[..|moved|] && left == queued[|moved|..]
  {
    assert (accepted + moved + left)[|accepted|..] == moved + left;
    assert (accepted + queued)[|accepted|..] == queued;
  }

  /** Everything queued goes to the socket in one pump: no call fails before the last byte is in, and
      the bytes fit into the free space of the buffer. */
  predicate QueueFits(s: TcpSocket, c: Connection) {
    if SendFails(s, c) then Concat(c.pending[s.sendsLeft..]) == []
    else |Concat(c.pending)| <= 65536 - |s.tx|
  }

  lemma PumpDeliversIff(s: TcpSocket, c: Connection)
    requires s.maySend && |s.tx| <= SOCKET_BUFFER_CAPACITY && !s.sendFailed
    ensures PumpSends(s, c).0.accepted == Submitted(s, c) <==> QueueFits(s, c)
  {
    FailedSend(s, c);
    if SendFails(s, c) {
      var k := s.sendsLeft;
      ConcatSplit(c.pending, k);
      assert c.pending[k..][1..] == c.pending[k + 1..];
      assert Concat(c.pending) == Concat(c.pending[..k]) + Concat(c.pending[k..]);
    } else {
      PumpSendsAmount(s, c);
    }
  }

  /** The drive that closes the sending half shuts it. */
  lemma ClosingDriveShuts(s: TcpSocket, c: Connection)
    requires s.maySend && DriveTcp(s, c).1.closeRequested
    ensures var s' := DriveTcp(s, c).0;
            s'.closed && !s'.maySend && s'.accepted == PumpSends(s, c).0.accepted
  {
    var moved := PumpSendsFrame(s, c);
    PumpReadsFrame(PumpSends(s, c).0, PumpSends(s, c).1);
  }

  /** Closing does not wait for the queue: the drive that closes the sending half has handed over
      everything queued exactly when it fitted. */
  lemma ClosingDriveDeliversIff(s: TcpSocket, c: Connection)
    requires s.maySend && |s.tx| <= SOCKET_BUFFER_CAPACITY && !s.sendFailed && DriveTcp(s, c).1.closeRequested
    ensures DriveTcp(s, c).0.accepted == Submitted(s, c) <==> QueueFits(s, c)
  {
    PumpDeliversIff(s, c);
    ClosingDriveShuts(s, c);
  }

  /** The receive buffer is forwarded in reads of at most 4096 bytes. */
  function PumpReads(s: TcpSocket, c: Connection): (TcpSocket, Connection)
    decreases |s.rx|
  {
    if !s.CanRecv() then (s, c)
    else
      match s.RecvSlice(READ_CHUNK)
      case (s', None) => (s', c)
      case (s', Some(data)) =>
        if !c.uplink.alive then (s', c.(closeRequested := true))
        else PumpReads(s', c.(uplink := c.uplink.(sent := c.uplink.sent + [data])))
  }

  method PumpUplinkReads(socket: TcpSocket, conn: Connection) returns (s: TcpSocket, c: Connection)
    ensures (s, c) == PumpReads(socket, conn)
  {
    s, c := socket, conn;
    while s.CanRecv()
      invariant PumpReads(s, c) == PumpReads(socket, conn)
      decreases |s.rx|
    {
      var (s', data) := s.RecvSlice(READ_CHUNK);
      s := s';
      match data {
        case None =>
          return;
        case Some(bytes) =>
          if !c.uplink.alive {
            c := c.(closeRequested := true);
            return;
          }
          c := c.(uplink := c.uplink.(sent := c.uplink.sent + [bytes]));
      }
    }
  }

  /** What the receiver was sent, followed by what is still buffered. */
  function Forwarded(s: TcpSocket, c: Connection): Bytes {
    Concat(c.uplink.sent) + s.rx
  }

  lemma ReadForwards(s: TcpSocket, c: Connection, data: Bytes, rest: Bytes)
    requires s.rx == data + rest
    ensures Concat(c.uplink.sent + [data]) + rest == Forwarded(s, c)
  {
    ConcatSnoc(c.uplink.sent, data);
    assert Concat(c.uplink.sent) + data + rest == Concat(c.uplink.sent) + (data + rest);
  }

  /** While the receiver lives, reads move bytes in order and lose none, and without a failing
      read they empty the buffer. A dead receiver is sent nothing more. */
  lemma {:induction false} PumpReadsConserves(s: TcpSocket, c: Connection)
    ensures var (s', c') := PumpReads(s, c);
            if c.uplink.alive
            then Forwarded(s', c') == Forwarded(s, c) && (s'.recvFailed || s'.rx == [])
                 && c'.closeRequested == c.closeRequested
            else c'.uplink == c.uplink && (s.rx != [] && !s'.recvFailed ==> c'.closeRequested)
    decreases |s.rx|
  {
    if s.CanRecv() {
      var (s1, data) := s.RecvSlice(READ_CHUNK);
      if data.Some? && c.uplink.alive {
        var c1 := c.(uplink := c.uplink.(sent := c.uplink.sent + [data.value]));
        PumpReadsConserves(s1, c1);
        ReadForwards(s, c, data.value, s1.rx);
      }
    }
  }

  lemma {:induction false} PumpReadsFrame(s: TcpSocket, c: Connection)
    ensures var (s', c') := PumpReads(s, c);
            && s' == s.(rx := s'.rx, recvsLeft := s'.recvsLeft, recvFailed := s'.recvFailed)
            && c' == c.(uplink := c'.uplink, closeRequested := c'.closeRequested)
            && c'.uplink.alive == c.uplink.alive
            && (c.closeRequested ==> c'.closeRequested) && (s.recvFailed ==> s'.recvFailed)
    decreases |s.rx|
  {
    if s.CanRecv() {
      var (s1, data) := s.RecvSlice(READ_CHUNK);
      if data.Some? && c.uplink.alive {
        PumpReadsFrame(s1, c.(uplink := c.uplink.(sent := c.uplink.sent + [data.value])));
      }
    }
  }

  /** One drive of one connection: send, receive, then close if asked to. */
  function DriveTcp(s: TcpSocket, c: Connection): (TcpSocket, Connection) {
    var (s1, c1) := PumpSends(s, c);
    var (s2, c2) := PumpReads(s1, c1);
    (if c2.closeRequested && s2.maySend then s2.Close() else s2, c2)
  }

  /** A read returns data for a receiver that has gone. */
  predicate ReadsInVain(s: TcpSocket, c: Connection) {
    s.rx != [] && s.recvsLeft > 0 && !c.uplink.alive
  }

  /** The close has been asked for, or this drive asks for it. */
  predicate CloseAsked(s: TcpSocket, c: Connection) {
    c.closeRequested || SendFails(s, c) || ReadsInVain(s, c)
  }

  lemma {:induction false} PumpSendsAsksClose(s: TcpSocket, c: Connection)
    ensures PumpSends(s, c).1.closeRequested <==> c.closeRequested || SendFails(s, c)
    decreases |c.pending|
  {
    var k := s.sendsLeft;
    if s.CanSend() && c.pending != [] && k > 0 {
      var chunk, rest := c.pending[0], c.pending[1..];
      var (s1, sent) := s.SendSlice(chunk);
      if k < |c.pending| {
        assert c.pending[..k][1..] == rest[..k - 1];
        assert Concat(c.pending[..k]) == chunk + Concat(rest[..k - 1]);
      }
      if sent.value == |chunk| {
        PumpSendsAsksClose(s1, c.(pending := rest));
      }
    }
  }

  lemma {:induction false} PumpReadsAsksClose(s: TcpSocket, c: Connection)
    ensures PumpReads(s, c).1.closeRequested <==> c.closeRequested || ReadsInVain(s, c)
    decreases |s.rx|
  {
    if s.CanRecv() && c.uplink.alive {
      var (s1, data) := s.RecvSlice(READ_CHUNK);
      if data.Some? {
        PumpReadsAsksClose(s1, c.(uplink := c.uplink.(sent := c.uplink.sent + [data.value])));
      }
    }
  }

  /** A drive shuts the sending half exactly when a close was asked for, a send fails, or the receiver has
      gone and a read returns data; it never opens or closes the socket itself. */
  lemma DriveShutsIff(s: TcpSocket, c: Connection)
    ensures var (s', c') := DriveTcp(s, c);
            && (c'.closeRequested <==> CloseAsked(s, c))
            && (s'.closed <==> s.closed || (s.maySend && CloseAsked(s, c)))
            && (s'.maySend <==> s.maySend && !CloseAsked(s, c))
            && s'.isOpen == s.isOpen
  {
    var (s1, c1) := PumpSends(s, c);
    var moved := PumpSendsFrame(s, c);
    PumpSendsAsksClose(s, c);
    PumpReadsFrame(s1, c1);
    PumpReadsAsksClose(s1, c1);
  }

  /** The forwarded pieces are reads of at most 4096 bytes, none of them empty. */
  lemma {:induction false} ReadsAreChunked(s: TcpSocket, c: Connection)
    ensures var sent := PumpReads(s, c).1.uplink.sent;
            c.uplink.sent <= sent && forall i :: |c.uplink.sent| <= i < |sent| ==> 1 <= |sent[i]| <= 4096
    decreases |s.rx|
  {
    if s.CanRecv() && c.uplink.alive {
      var (s1, data) := s.RecvSlice(READ_CHUNK);
      if data.Some? {
        ReadsAreChunked(s1, c.(uplink := c.uplink.(sent := c.uplink.sent + [data.value])));
      }
    }
  }

  // ---------------------------------------------------------------- UDP

  datatype UdpSocket = UdpSocket(local: u16, isOpen: bool, tx: seq<Datagram>, rx: seq<Datagram>, sendsLeft: nat,
                                 recvsLeft: nat, accepted: seq<Datagram>, received: seq<Datagram>, sendFailed: bool,
                                 recvFailed: bool)
  {
    predicate CanSend() {
      |tx| < UDP_PACKET_CAPACITY
    }

    /** A datagram is taken whole or refused. */
    function SendSlice(d: Datagram): (UdpSocket, bool) {
      if sendsLeft == 0 then (this.(sendFailed := true), false)
      else (this.(tx := tx + [d], accepted := accepted + [d], sendsLeft := sendsLeft - 1), true)
    }

    predicate CanRecv() {
      rx != []
    }

    function RecvSlice(): (UdpSocket, Option<Datagram>)
      requires CanRecv()
    {
      if recvsLeft == 0 then (this.(recvFailed := true), None)
      else (this.(rx := rx[1..], recvsLeft := recvsLeft - 1), Some(rx[0]))
    }

    /** Unbinds at once and drops both buffers. */
    function Close(): UdpSocket {
      this.(isOpen := false, tx := [], rx := [])
    }
  }

  datatype Association = Association(handle: nat, uplink: Channel<Datagram>, pending: seq<Datagram>,
                                     closeRequested: bool)

  function PumpUdpSends(s: UdpSocket, a: Association): (UdpSocket, Association)
    decreases |a.pending|
  {
    if !s.CanSend() || a.pending == [] then (s, a)
    else
      var a' := a.(pending := a.pending[1..]);
      match s.SendSlice(a.pending[0])
      case (s', false) => (s', a'.(closeRequested := true))
      case (s', true) => PumpUdpSends(s', a')
  }

  method PumpPendingUdpSends(socket: UdpSocket, assoc: Association) returns (s: UdpSocket, a: Association)
    ensures (s, a) == PumpUdpSends(socket, assoc)
  {
    s, a := socket, assoc;
    while s.CanSend()
      invariant PumpUdpSends(s, a) == PumpUdpSends(socket, assoc)
      decreases |a.pending|
    {
      if a.pending == [] {
        break;
      }
      var d := a.pending[0];
      a := a.(pending := a.pending[1..]);
      var (s', ok) := s.SendSlice(d);
      s := s';
      if !ok {
        a := a.(closeRequested := true);
        return;
      }
    }
  }

  /** Datagrams leave the queue in order, each once, as long as no send fails. */
  lemma {:induction false} PumpUdpSendsConserves(s: UdpSocket, a: Association)
    ensures var (s', a') := PumpUdpSends(s, a);
            && (!s'.sendFailed ==> !s.sendFailed && s'.accepted + a'.pending == s.accepted + a.pending
                                   && (a'.pending == [] || !s'.CanSend())
                                   && a'.closeRequested == a.closeRequested)
            && (s'.sendFailed && !s.sendFailed ==> a'.closeRequested)
    decreases |a.pending|
  {
    if s.CanSend() && a.pending != [] {
      var (s1, ok) := s.SendSlice(a.pending[0]);
      if ok {
        PumpUdpSendsConserves(s1, a.(pending := a.pending[1..]));
        assert a.pending == [a.pending[0]] + a.pending[1..];
        assert s.accepted + ([a.pending[0]] + a.pending[1..]) == (s.accepted + [a.pending[0]]) + a.pending[1..];
      }
    }
  }

  predicate UdpSendFails(s: UdpSocket, a: Association) {
    s.sendsLeft < |a.pending| && |s.tx| + s.sendsLeft < 32
  }

  /** A send that fails, after however many that succeeded, drops the datagram it was given and asks for
      the close; the datagrams behind it stay in the queue. */
  lemma {:induction false} FailedUdpSendDropsDatagram(s: UdpSocket, a: Association)
    requires !s.sendFailed
    ensures var (s', a') := PumpUdpSends(s, a);
            && (s'.sendFailed <==> UdpSendFails(s, a))
            && (s'.sendFailed ==> var k := s.sendsLeft;
                                  && s'.accepted == s.accepted + a.pending[..k] && a'.pending == a.pending[k + 1..]
                                  && a'.closeRequested)
    decreases |a.pending|
  {
    var k := s.sendsLeft;
    if s.CanSend() && a.pending != [] && k > 0 {
      var rest := a.pending[1..];
      FailedUdpSendDropsDatagram(s.SendSlice(a.pending[0]).0, a.(pending := rest));
      if k < |a.pending| {
        assert rest[k..] == a.pending[k + 1..] && [a.pending[0]] + rest[..k - 1] == a.pending[..k];
        assert s.accepted + ([a.pending[0]] + rest[..k - 1]) == (s.accepted + [a.pending[0]]) + rest[..k - 1];
      }
    }
  }

  /** A pump touches the queue, the send buffer and their histories only, and what it adds to the
      send buffer is what it adds to the datagrams accepted. */
  lemma {:induction false} PumpUdpSendsFrame(s: UdpSocket, a: Association) returns (moved: seq<Datagram>)
    ensures var (s', a') := PumpUdpSends(s, a);
            && s' == s.(tx := s.tx + moved, accepted := s.accepted + moved,
                        sendsLeft := s'.sendsLeft, sendFailed := s'.sendFailed)
            && a' == a.(pending := a'.pending, closeRequested := a'.closeRequested)
            && (a.closeRequested ==> a'.closeRequested)
    decreases |a.pending|
  {
    moved := [];
    if s.CanSend() && a.pending != [] {
      var (s1, ok) := s.SendSlice(a.pending[0]);
      if ok {
        var more := PumpUdpSendsFrame(s1, a.(pending := a.pending[1..]));
        moved := [a.pending[0]] + more;
        assert s1.tx + more == s.tx + moved && s1.accepted + more == s.accepted + moved;
      }
    }
    assert moved == [] ==> s.tx + moved == s.tx && s.accepted + moved == s.accepted;
  }

  function PumpUdpReads(s: UdpSocket, a: Association): (UdpSocket, Association)
    decreases |s.rx|
  {
    if !s.CanRecv() then (s, a)
    else
      match s.RecvSlice()
      case (s', None) => (s', a)
      case (s', Some(d)) =>
        if !a.uplink.alive then (s', a.(closeRequested := true))
        else PumpUdpReads(s', a.(uplink := a.uplink.(sent := a.uplink.sent + [d])))
  }

  method PumpUdpUplinkReads(socket: UdpSocket, assoc: Association) returns (s: UdpSocket, a: Association)
    ensures (s, a) == PumpUdpReads(socket, assoc)
  {
    s, a := socket, assoc;
    while s.CanRecv()
      invariant PumpUdpReads(s, a) == PumpUdpReads(socket, assoc)
      decreases |s.rx|
    {
      var (s', d) := s.RecvSlice();
      s := s';
      if d.None? {
        return;
      }
      if !a.uplink.alive {
        a := a.(closeRequested := true);
        return;
      }
      a := a.(uplink := a.uplink.(sent := a.uplink.sent + [d.value]));
    }
  }

  lemma {:induction false} PumpUdpReadsConserves(s: UdpSocket, a: Association)
    ensures var (s', a') := PumpUdpReads(s, a);
            && (if a.uplink.alive
                then a'.uplink.sent + s'.rx == a.uplink.sent + s.rx && (s'.recvFailed || s'.rx == [])
                     && a'.closeRequested == a.closeRequested
                else a'.uplink == a.uplink && (s.rx != [] && !s'.recvFailed ==> a'.closeRequested))
            && s' == s.(rx := s'.rx, recvsLeft := s'.recvsLeft, recvFailed := s'.recvFailed)
            && a' == a.(uplink := a'.uplink, closeRequested := a'.closeRequested)
            && a'.uplink.alive == a.uplink.alive && (a.closeRequested ==> a'.closeRequested)
    decreases |s.rx|
  {
    if s.CanRecv() {
      var (s1, d) := s.RecvSlice();
      if d.Some? && a.uplink.alive {
        var a1 := a.(uplink := a.uplink.(sent := a.uplink.sent + [d.value]));
        PumpUdpReadsConserves(s1, a1);
        assert a1.uplink.sent + s1.rx == a.uplink.sent + s.rx;
      }
    }
  }

  function DriveUdp(s: UdpSocket, a: Association): (UdpSocket, Association) {
    var (s1, a1) := PumpUdpSends(s, a);
    var (s2, a2) := PumpUdpReads(s1, a1);
    (if a2.closeRequested then s2.Close() else s2, a2)
  }

  predicate UdpReadsInVain(s: UdpSocket, a: Association) {
    s.rx != [] && s.recvsLeft > 0 && !a.uplink.alive
  }

  predicate UdpCloseAsked(s: UdpSocket, a: Association) {
    a.closeRequested || UdpSendFails(s, a) || UdpReadsInVain(s, a)
  }

  lemma {:induction false} PumpUdpSendsAsksClose(s: UdpSocket, a: Association)
    ensures PumpUdpSends(s, a).1.closeRequested <==> a.closeRequested || UdpSendFails(s, a)
    decreases |a.pending|
  {
    if s.CanSend() && a.pending != [] && s.sendsLeft > 0 {
      PumpUdpSendsAsksClose(s.SendSlice(a.pending[0]).0, a.(pending := a.pending[1..]));
    }
  }

  lemma {:induction false} PumpUdpReadsAsksClose(s: UdpSocket, a: Association)
    ensures PumpUdpReads(s, a).1.closeRequested <==> a.closeRequested || UdpReadsInVain(s, a)
    decreases |s.rx|
  {
    if s.CanRecv() && a.uplink.alive {
      var (s1, d) := s.RecvSlice();
      if d.Some? {
        PumpUdpReadsAsksClose(s1, a.(uplink := a.uplink.(sent := a.uplink.sent + [d.value])));
      }
    }
  }

  /** A drive closes the socket exactly when a close was asked for, a send fails, or the receiver has gone
      and a read returns a datagram. */
  lemma DriveUdpClosesIff(s: UdpSocket, a: Association)
    ensures var (s', a') := DriveUdp(s, a);
            && (a'.closeRequested <==> UdpCloseAsked(s, a))
            && (s'.isOpen <==> s.isOpen && !UdpCloseAsked(s, a))
  {
    var (s1, a1) := PumpUdpSends(s, a);
    var moved := PumpUdpSendsFrame(s, a);
    PumpUdpSendsAsksClose(s, a);
    PumpUdpReadsConserves(s1, a1);
    PumpUdpReadsAsksClose(s1, a1);
  }
}
