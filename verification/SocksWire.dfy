/** The server side of SOCKS5 (RFC 1928): negotiation, requests, replies and UDP headers. */
module SocksWire {
  import opened Prelude
  import opened Text
  import opened Utf8

  const SOCKS_VERSION_5: u8 := 5
  const SOCKS_METHOD_NO_AUTH: u8 := 0
  const SOCKS_METHOD_NOT_ACCEPTABLE: u8 := 0xFF
  const SOCKS_CMD_CONNECT: u8 := 1
  const SOCKS_CMD_UDP_ASSOCIATE: u8 := 3
  const SOCKS_RSV: u8 := 0
  const SOCKS_ATYP_IPV4: u8 := 1
  const SOCKS_ATYP_DOMAIN: u8 := 3
  const SOCKS_ATYP_IPV6: u8 := 4
  const SOCKS_REP_SUCCEEDED: u8 := 0
  const SOCKS_REP_GENERAL_FAILURE: u8 := 1
  const SOCKS_REP_CMD_NOT_SUPPORTED: u8 := 7
  const SOCKS_REP_ATYP_NOT_SUPPORTED: u8 := 8

  /** The textual form of IPv6 addresses, from the standard library. */
  datatype Ipv6Text = Ipv6Text(parse: string -> Option<Ipv6>, format: Ipv6 -> string)

  type Ipv6 = octets: Bytes | |octets| == 16 witness seq(16, _ => 0)

  datatype SocksCommand = Connect | UdpAssociate | Other(value: u8)

  function CommandFromByte(value: u8): SocksCommand {
    if value == SOCKS_CMD_CONNECT then Connect
    else if value == SOCKS_CMD_UDP_ASSOCIATE then UdpAssociate
    else Other(value)
  }

  datatype ConnectTarget = ConnectTarget(host: string, port: u16)

  datatype SocksRequest = SocksRequest(command: SocksCommand, target: ConnectTarget)

  datatype SocksError =
    | Truncated
    | WriteFailed
    | BadVersion
    | NoAcceptableMethod
    | UnsupportedCommand(value: u8)
    | BadReserved
    | UnsupportedAtyp(atyp: u8)
    | InvalidUtf8

  /** A connected socket: what is still to be read, what has been written, and whether writes
      succeed. */
  class ByteStream {
    var input: Bytes
    var output: Bytes
    var writable: bool

    constructor (input: Bytes, writable: bool)
      ensures this.input == input && this.output == [] && this.writable == writable
    {
      this.input, this.output, this.writable := input, [], writable;
    }

    /** `read_exact`: all or nothing, and nothing is left after a failure. */
    method ReadExact(n: nat) returns (r: Option<Bytes>)
      modifies this`input
      ensures (r, input) == Take(old(input), n)
    {
      if n <= |input| {
        r := Some(input[..n]);
        input := input[n..];
      } else {
        r := None;
        input := [];
      }
    }

    method WriteAll(bytes: Bytes) returns (ok: bool)
      modifies this`output
      ensures ok == writable && output == if writable then old(output) + bytes else old(output)
    {
      ok := writable;
      if writable {
        output := output + bytes;
      }
    }
  }

  function Take(input: Bytes, n: nat): (Option<Bytes>, Bytes) {
    if n <= |input| then (Some(input[..n]), input[n..]) else (None, [])
  }

  // ---------------------------------------------------------------- method negotiation

  /** What the server makes of a greeting: its verdict and the reply bytes. */
  function Greeting(input: Bytes): (Result<(), SocksError>, Bytes, Bytes) {
    var (head, rest) := Take(input, 2);
    if head.None? then (Err(Truncated), rest, [])
    else if head.value[0] != SOCKS_VERSION_5 then (Err(BadVersion), rest, [])
    else
      var (methods, rest') := Take(rest, head.value[1]);
      if methods.None? then (Err(Truncated), rest', [])
      else if SOCKS_METHOD_NO_AUTH in methods.value then (Ok(()), rest', [SOCKS_VERSION_5, SOCKS_METHOD_NO_AUTH])
      else (Err(NoAcceptableMethod), rest', [SOCKS_VERSION_5, SOCKS_METHOD_NOT_ACCEPTABLE])
  }

  method NegotiateMethod(client: ByteStream) returns (r: Result<(), SocksError>)
    modifies client
    ensures var (verdict, rest, reply) := Greeting(old(client.input));
            && client.input == rest && client.writable == old(client.writable)
            && client.output == old(client.output) + (if client.writable then reply else [])
            && r == if reply != [] && !client.writable then Err(WriteFailed) else verdict
  {
    var head := client.ReadExact(2);
    if head.None? {
      return Err(Truncated);
    }
    if head.value[0] != SOCKS_VERSION_5 {
      return Err(BadVersion);
    }
    var methods := client.ReadExact(head.value[1]);
    if methods.None? {
      return Err(Truncated);
    }
    if SOCKS_METHOD_NO_AUTH in methods.value {
      var ok := client.WriteAll([SOCKS_VERSION_5, SOCKS_METHOD_NO_AUTH]);
      return if ok then Ok(()) else Err(WriteFailed);
    }
    var ok := client.WriteAll([SOCKS_VERSION_5, SOCKS_METHOD_NOT_ACCEPTABLE]);
    r := Err(if ok then NoAcceptableMethod else WriteFailed);
  }

  /** A greeting that offers the methods, and what follows it. */
  predicate IsGreeting(input: Bytes, methods: Bytes, more: Bytes) {
    |methods| < 0x100 && input == [SOCKS_VERSION_5, |methods|] + methods + more
  }

  lemma GreetingOf(input: Bytes, methods: Bytes, more: Bytes)
    requires IsGreeting(input, methods, more)
    ensures var (verdict, rest, reply) := Greeting(input);
            && rest == more && (verdict == Ok(()) <==> SOCKS_METHOD_NO_AUTH in methods)
            && reply == [SOCKS_VERSION_5,
                         if verdict == Ok(()) then SOCKS_METHOD_NO_AUTH else SOCKS_METHOD_NOT_ACCEPTABLE]
  {
    assert input[..2] == [SOCKS_VERSION_5, |methods|] && input[2..] == methods + more;
    assert (methods + more)[..|methods|] == methods && (methods + more)[|methods|..] == more;
  }

  /** The accepted greetings are exactly those of section 3 of RFC 1928 that offer no authentication, and
      the server reads them to the last byte and no further. */
  lemma GreetingAcceptedIff(input: Bytes)
    ensures Greeting(input).0 == Ok(()) <==>
              exists methods, more :: IsGreeting(input, methods, more) && SOCKS_METHOD_NO_AUTH in methods
    ensures forall methods, more :: IsGreeting(input, methods, more) ==> Greeting(input).1 == more
  {
    if Greeting(input).0 == Ok(()) {
      var methods, more := input[2..2 + input[1]], input[2 + input[1]..];
      assert IsGreeting(input, methods, more);
    }
    forall methods, more | IsGreeting(input, methods, more)
      ensures Greeting(input).1 == more && (Greeting(input).0 == Ok(()) <==> SOCKS_METHOD_NO_AUTH in methods)
    {
      GreetingOf(input, methods, more);
    }
  }

  // ---------------------------------------------------------------- requests

  function Reply(rep: u8): Bytes {
    [SOCKS_VERSION_5, rep, SOCKS_RSV, SOCKS_ATYP_IPV4, 0, 0, 0, 0, 0, 0]
  }

  function BoundReply(rep: u8, ip: Ipv4, port: u16): Bytes {
    [SOCKS_VERSION_5, rep, SOCKS_RSV, SOCKS_ATYP_IPV4] + Octets(ip) + BigEndian16(port)
  }

  /** The reply that goes with a refused request. */
  function ReplyTo(e: SocksError): Bytes {
    match e
    case UnsupportedCommand(_) => Reply(SOCKS_REP_CMD_NOT_SUPPORTED)
    case BadReserved => Reply(SOCKS_REP_GENERAL_FAILURE)
    case UnsupportedAtyp(_) => Reply(SOCKS_REP_ATYP_NOT_SUPPORTED)
    case _ => []
  }

  /** The host of a request, and the input after it. */
  function ParseHost(v6: Ipv6Text, atyp: u8, input: Bytes): (Result<string, SocksError>, Bytes) {
    if atyp == SOCKS_ATYP_IPV4 then
      match Take(input, 4)
      case (None, rest) => (Err(Truncated), rest)
      case (Some(o), rest) => (Ok(PrintIpv4(FromOctets(o[0], o[1], o[2], o[3]))), rest)
    else if atyp == SOCKS_ATYP_DOMAIN then
      match Take(input, 1)
      case (None, rest) => (Err(Truncated), rest)
      case (Some(len), rest) =>
        match Take(rest, len[0])
        case (None, rest') => (Err(Truncated), rest')
        case (Some(domain), rest') =>
          (match Decode(domain) case None => Err(InvalidUtf8) case Some(s) => Ok(s), rest')
    else if atyp == SOCKS_ATYP_IPV6 then
      match Take(input, 16)
      case (None, rest) => (Err(Truncated), rest)
      case (Some(o), rest) => (Ok(v6.format(o)), rest)
    else (Err(UnsupportedAtyp(atyp)), input)
  }

  function ParseRequestTarget(v6: Ipv6Text, atyp: u8, input: Bytes): (Result<ConnectTarget, SocksError>, Bytes) {
    var (host, rest) := ParseHost(v6, atyp, input);
    if host.Err? then (Err(host.error), rest)
    else
      match Take(rest, 2)
      case (None, rest') => (Err(Truncated), rest')
      case (Some(p), rest') => (Ok(ConnectTarget(host.value, FromBigEndian16(p[0], p[1]))), rest')
  }

  function ParseRequest(v6: Ipv6Text, input: Bytes): (Result<SocksRequest, SocksError>, Bytes) {
    match Take(input, 4)
    case (None, rest) => (Err(Truncated), rest)
    case (Some(req), rest) =>
      if req[0] != SOCKS_VERSION_5 then (Err(BadVersion), rest)
      else
        var command := CommandFromByte(req[1]);
        if command.Other? then (Err(UnsupportedCommand(req[1])), rest)
        else if req[2] != SOCKS_RSV then (Err(BadReserved), rest)
        else
          var (target, rest') := ParseRequestTarget(v6, req[3], rest);
          if target.Err? then (Err(target.error), rest') else (Ok(SocksRequest(command, target.value)), rest')
  }

  method ReadHost(client: ByteStream, v6: Ipv6Text, atyp: u8) returns (r: Result<string, SocksError>)
    modifies client`input
    ensures (r, client.input) == ParseHost(v6, atyp, old(client.input))
  {
    if atyp == SOCKS_ATYP_IPV4 {
      var o := client.ReadExact(4);
      return if o.None? then Err(Truncated)
             else Ok(PrintIpv4(FromOctets(o.value[0], o.value[1], o.value[2], o.value[3])));
    } else if atyp == SOCKS_ATYP_DOMAIN {
      var len := client.ReadExact(1);
      if len.None? {
        return Err(Truncated);
      }
      var domain := client.ReadExact(len.value[0]);
      if domain.None? {
        return Err(Truncated);
      }
      var text := Decode(domain.value);
      return if text.None? then Err(InvalidUtf8) else Ok(text.value);
    } else if atyp == SOCKS_ATYP_IPV6 {
      var o := client.ReadExact(16);
      return if o.None? then Err(Truncated) else Ok(v6.format(o.value));
    } else {
      return Err(UnsupportedAtyp(atyp));
    }
  }

  method ReadRequestTarget(client: ByteStream, v6: Ipv6Text, atyp: u8) returns (r: Result<ConnectTarget, SocksError>)
    modifies client
    ensures (r, client.input) == ParseRequestTarget(v6, atyp, old(client.input))
    ensures client.writable == old(client.writable)
    ensures client.output == old(client.output) + (if r.Err? && client.writable then ReplyTo(r.error) else [])
  {
    var host := ReadHost(client, v6, atyp);
    if host.Err? {
      if host.error.UnsupportedAtyp? {
        var _ := client.WriteAll(Reply(SOCKS_REP_ATYP_NOT_SUPPORTED));
      }
      HostErrors(v6, atyp, old(client.input));
      return Err(host.error);
    }
    var p := client.ReadExact(2);
    if p.None? {
      return Err(Truncated);
    }
    r := Ok(ConnectTarget(host.value, FromBigEndian16(p.value[0], p.value[1])));
  }

  lemma HostErrors(v6: Ipv6Text, atyp: u8, input: Bytes)
    ensures var (r, _) := ParseHost(v6, atyp, input);
            r.Err? ==> r.error.Truncated? || r.error.InvalidUtf8? || r.error == UnsupportedAtyp(atyp)
  {
  }

  /** Reads one request; a refusal is announced to the client before it is reported. */
  method ReadSocksRequest(client: ByteStream, v6: Ipv6Text) returns (r: Result<SocksRequest, SocksError>)
    modifies client
    ensures (r, client.input) == ParseRequest(v6, old(client.input))
    ensures client.writable == old(client.writable)
    ensures client.output == old(client.output) + (if r.Err? && client.writable then ReplyTo(r.error) else [])
  {
    var req := client.ReadExact(4);
    if req.None? {
      return Err(Truncated);
    }
    if req.value[0] != SOCKS_VERSION_5 {
      return Err(BadVersion);
    }
    var command := CommandFromByte(req.value[1]);
    if command.Other? {
      var _ := client.WriteAll(Reply(SOCKS_REP_CMD_NOT_SUPPORTED));
      return Err(UnsupportedCommand(req.value[1]));
    }
    if req.value[2] != SOCKS_RSV {
      var _ := client.WriteAll(Reply(SOCKS_REP_GENERAL_FAILURE));
      return Err(BadReserved);
    }
    var target := ReadRequestTarget(client, v6, req.value[3]);
    r := if target.Err? then Err(target.error) else Ok(SocksRequest(command, target.value));
  }

  /** The three kinds of address of section 5 of RFC 1928. */
  datatype Address = Ipv4Address(ip: Ipv4) | DomainAddress(name: string) | Ipv6Address(octets: Ipv6)
  {
    predicate Fits() {
      DomainAddress? ==> |Encode(name)| < 0x100
    }

    function Type(): u8 {
      match this
      case Ipv4Address(_) => SOCKS_ATYP_IPV4
      case DomainAddress(_) => SOCKS_ATYP_DOMAIN
      case Ipv6Address(_) => SOCKS_ATYP_IPV6
    }

    /** The bytes after the address type. */
    function Wire(): Bytes
      requires Fits()
    {
      match this
      case Ipv4Address(ip) => Octets(ip)
      case DomainAddress(name) => [|Encode(name)|] + Encode(name)
      case Ipv6Address(octets) => octets
    }

    /** The host that the server makes of it. */
    function Host(v6: Ipv6Text): string {
      match this
      case Ipv4Address(ip) => PrintIpv4(ip)
      case DomainAddress(name) => name
      case Ipv6Address(octets) => v6.format(octets)
    }
  }

  function CommandByte(command: SocksCommand): u8
  {
    match command
    case Connect => SOCKS_CMD_CONNECT
    case UdpAssociate => SOCKS_CMD_UDP_ASSOCIATE
    case Other(value) => value
  }

  /** A request as section 4 of RFC 1928 lays it out. */
  function RequestWire(command: SocksCommand, address: Address, port: u16): Bytes
    requires address.Fits()
  {
    [SOCKS_VERSION_5, CommandByte(command), SOCKS_RSV, address.Type()] + address.Wire() + BigEndian16(port)
  }

  lemma TakeAll(bytes: Bytes, rest: Bytes)
    ensures Take(bytes + rest, |bytes|) == (Some(bytes), rest)
  {
    assert (bytes + rest)[..|bytes|] == bytes && (bytes + rest)[|bytes|..] == rest;
  }

  lemma HostOfWire(v6: Ipv6Text, address: Address, rest: Bytes)
    requires address.Fits()
    ensures ParseHost(v6, address.Type(), address.Wire() + rest) == (Ok(address.Host(v6)), rest)
  {
    match address {
      case Ipv4Address(ip) =>
        var o := Octets(ip);
        TakeAll(o, rest);
        assert FromOctets(o[0], o[1], o[2], o[3]) == ip;
      case DomainAddress(name) =>
        DecodeOfEncode(name);
        assert address.Wire() + rest == [|Encode(name)|] + (Encode(name) + rest);
        TakeAll([|Encode(name)|], Encode(name) + rest);
        TakeAll(Encode(name), rest);
      case Ipv6Address(octets) =>
        TakeAll(octets, rest);
    }
  }

  lemma WireOfIpv4(input: Bytes)
    requires |input| >= 4
    ensures Octets(FromOctets(input[0], input[1], input[2], input[3])) + input[4..] == input
  {
    OctetsOfFromOctets(input[0], input[1], input[2], input[3]);
    assert input == [input[0], input[1], input[2], input[3]] + input[4..];
  }

  lemma WireOfDomain(v6: Ipv6Text, input: Bytes) returns (name: string)
    requires ParseHost(v6, SOCKS_ATYP_DOMAIN, input).0.Ok?
    ensures ParseHost(v6, SOCKS_ATYP_DOMAIN, input).0 == Ok(name) && |Encode(name)| < 0x100
    ensures input == ([|Encode(name)|] + Encode(name)) + ParseHost(v6, SOCKS_ATYP_DOMAIN, input).1
  {
    var len: nat := input[0];
    var bytes := input[1..][..len];
    EncodeOfDecode(bytes);
    name := Decode(bytes).value;
    assert input == [len] + bytes + input[1..][len..];
  }

  /** A host that parses is the wire form of an address. */
  lemma WireOfHost(v6: Ipv6Text, atyp: u8, input: Bytes) returns (address: Address)
    requires ParseHost(v6, atyp, input).0.Ok?
    ensures address.Fits() && address.Type() == atyp
    ensures ParseHost(v6, atyp, input).0 == Ok(address.Host(v6))
    ensures input == address.Wire() + ParseHost(v6, atyp, input).1
  {
    if atyp == SOCKS_ATYP_IPV4 {
      address := Ipv4Address(FromOctets(input[0], input[1], input[2], input[3]));
      WireOfIpv4(input);
    } else if atyp == SOCKS_ATYP_DOMAIN {
      var name := WireOfDomain(v6, input);
      address := DomainAddress(name);
    } else {
      address := Ipv6Address(input[..16]);
      assert input == input[..16] + input[16..];
    }
  }

  /** Every request that fits is read back as what it says, to its last byte. */
  lemma RequestOfWire(v6: Ipv6Text, command: SocksCommand, address: Address, port: u16, more: Bytes)
    requires !command.Other? && address.Fits()
    ensures ParseRequest(v6, RequestWire(command, address, port) + more)
            == (Ok(SocksRequest(command, ConnectTarget(address.Host(v6), port))), more)
  {
    var head := [SOCKS_VERSION_5, CommandByte(command), SOCKS_RSV, address.Type()];
    var tail := address.Wire() + (BigEndian16(port) + more);
    assert RequestWire(command, address, port) + more == head + tail;
    TakeAll(head, tail);
    HostOfWire(v6, address, BigEndian16(port) + more);
    TakeAll(BigEndian16(port), more);
  }

  lemma WireOfPort(input: Bytes)
    requires |input| >= 2
    ensures input == BigEndian16(FromBigEndian16(input[0], input[1])) + input[2..]
  {
    PortBytes(input[0], input[1]);
    assert input == [input[0], input[1]] + input[2..];
  }

  lemma WireOfTarget(v6: Ipv6Text, atyp: u8, input: Bytes) returns (address: Address)
    requires ParseRequestTarget(v6, atyp, input).0.Ok?
    ensures var (target, rest) := ParseRequestTarget(v6, atyp, input);
            && address.Fits() && address.Type() == atyp && target.value.host == address.Host(v6)
            && input == address.Wire() + (BigEndian16(target.value.port) + rest)
  {
    address := WireOfHost(v6, atyp, input);
    WireOfPort(ParseHost(v6, atyp, input).1);
  }

  /** What the server takes for a request is the wire form of that request, followed by what it left. */
  lemma WireOfRequest(v6: Ipv6Text, input: Bytes) returns (address: Address)
    requires ParseRequest(v6, input).0.Ok?
    ensures var (r, rest) := ParseRequest(v6, input);
            && address.Fits() && !r.value.command.Other? && r.value.target.host == address.Host(v6)
            && input == RequestWire(r.value.command, address, r.value.target.port) + rest
  {
    HeadThenTail(input);
    var rest := input[4..];
    address := WireOfTarget(v6, input[3], rest);
    var (target, left) := ParseRequestTarget(v6, input[3], rest);
    assert ParseRequest(v6, input) == (Ok(SocksRequest(CommandFromByte(input[1]), target.value)), left);
  }

  lemma HeadThenTail(input: Bytes)
    requires |input| >= 4
    ensures input == [input[0], input[1], input[2], input[3]] + input[4..]
  {
  }

  ghost predicate IsRequest(input: Bytes, command: SocksCommand, address: Address, port: u16, more: Bytes) {
    !command.Other? && address.Fits() && input == RequestWire(command, address, port) + more
  }

  /** The accepted requests are exactly the CONNECT and UDP ASSOCIATE requests of RFC 1928. */
  lemma RequestAcceptedIff(v6: Ipv6Text, input: Bytes)
    ensures ParseRequest(v6, input).0.Ok? <==>
              exists command, address, port, more :: IsRequest(input, command, address, port, more)
  {
    if ParseRequest(v6, input).0.Ok? {
      var address := WireOfRequest(v6, input);
      var (r, rest) := ParseRequest(v6, input);
      assert IsRequest(input, r.value.command, address, r.value.target.port, rest);
    }
    if command, address, port, more :| IsRequest(input, command, address, port, more) {
      RequestOfWire(v6, command, address, port, more);
    }
  }

  // ---------------------------------------------------------------- UDP headers

  datatype SocksUdpPacket = SocksUdpPacket(target: ConnectTarget, payload: Bytes)

  datatype UdpError = HeaderTooShort | NonZeroRsv | Fragmented | AddressTruncated | BadUtf8 | Ipv6Unsupported
    | UdpAtypUnsupported(atyp: u8) | PortTruncated

  /** The host of a UDP header and the offset after it. */
  function ParseUdpHost(data: Bytes): Result<(string, nat), UdpError>
    requires |data| >= 4
  {
    if data[3] == SOCKS_ATYP_IPV4 then
      if |data| < 8 then Err(AddressTruncated)
      else Ok((PrintIpv4(FromOctets(data[4], data[5], data[6], data[7])), 8))
    else if data[3] == SOCKS_ATYP_DOMAIN then
      if |data| < 5 then Err(AddressTruncated)
      else
        var len: nat := data[4];
        if |data| < 5 + len then Err(AddressTruncated)
        else
          match Decode(data[5..5 + len])
          case None => Err(BadUtf8)
          case Some(domain) => Ok((domain, 5 + len))
    else if data[3] == SOCKS_ATYP_IPV6 then Err(Ipv6Unsupported)
    else Err(UdpAtypUnsupported(data[3]))
  }

  function ParseSocksUdpPacket(data: Bytes): Result<SocksUdpPacket, UdpError> {
    if |data| < 4 then Err(HeaderTooShort)
    else if data[0] != 0 || data[1] != 0 then Err(NonZeroRsv)
    else if data[2] != 0 then Err(Fragmented)
    else
      match ParseUdpHost(data)
      case Err(e) => Err(e)
      case Ok((host, offset)) =>
        if |data| < offset + 2 then Err(PortTruncated)
        else
          Ok(SocksUdpPacket(ConnectTarget(host, FromBigEndian16(data[offset], data[offset + 1])), data[offset + 2..]))
  }

  function EncodeSocksUdpPacket(ip: Ipv4, port: u16, payload: Bytes): Bytes {
    [0, 0, 0, SOCKS_ATYP_IPV4] + Octets(ip) + BigEndian16(port) + payload
  }

  /** The two kinds of header that section 7 of RFC 1928 allows here. */
  datatype UdpForm =
    | Ipv4Form(ip: Ipv4, port: u16, payload: Bytes)
    | DomainForm(name: string, port: u16, payload: Bytes)
  {
    predicate Fits() {
      DomainForm? ==> |Encode(name)| < 0x100
    }

    function Wire(): Bytes
      requires Fits()
    {
      match this
      case Ipv4Form(ip, port, payload) => EncodeSocksUdpPacket(ip, port, payload)
      case DomainForm(name, port, payload) =>
        [0, 0, 0, SOCKS_ATYP_DOMAIN, |Encode(name)|] + Encode(name) + BigEndian16(port) + payload
    }

    function Packet(): SocksUdpPacket {
      match this
      case Ipv4Form(ip, port, payload) => SocksUdpPacket(ConnectTarget(PrintIpv4(ip), port), payload)
      case DomainForm(name, port, payload) => SocksUdpPacket(ConnectTarget(name, port), payload)
    }
  }

  lemma ParseOfIpv4Wire(ip: Ipv4, port: u16, payload: Bytes)
    ensures ParseSocksUdpPacket(Ipv4Form(ip, port, payload).Wire()) == Ok(Ipv4Form(ip, port, payload).Packet())
  {
    var w := Ipv4Form(ip, port, payload).Wire();
    assert w[4..8] == Octets(ip) && w[8..10] == BigEndian16(port) && w[10..] == payload;
    assert w[4..8] == [w[4], w[5], w[6], w[7]] && w[8..10] == [w[8], w[9]];
  }

  lemma ParseOfDomainWire(name: string, port: u16, payload: Bytes)
    requires DomainForm(name, port, payload).Fits()
    ensures ParseSocksUdpPacket(DomainForm(name, port, payload).Wire()) == Ok(DomainForm(name, port, payload).Packet())
  {
    var w, e := DomainForm(name, port, payload).Wire(), Encode(name);
    DecodeOfEncode(name);
    assert w[5..5 + |e|] == e && w[7 + |e|..] == payload;
    assert w[5 + |e|] == BigEndian16(port)[0] && w[6 + |e|] == BigEndian16(port)[1];
  }

  /** Every header that fits is read back as what it says. */
  lemma ParseOfWire(f: UdpForm)
    requires f.Fits()
    ensures ParseSocksUdpPacket(f.Wire()) == Ok(f.Packet())
  {
    match f {
      case Ipv4Form(ip, port, payload) => ParseOfIpv4Wire(ip, port, payload);
      case DomainForm(name, port, payload) => ParseOfDomainWire(name, port, payload);
    }
  }

  /** What a received packet says. */
  function FormOf(data: Bytes): UdpForm
    requires ParseSocksUdpPacket(data).Ok?
  {
    var p := ParseSocksUdpPacket(data).value;
    if data[3] == SOCKS_ATYP_IPV4 then
      Ipv4Form(FromOctets(data[4], data[5], data[6], data[7]), p.target.port, p.payload)
    else DomainForm(p.target.host, p.target.port, p.payload)
  }

  lemma HostBytes(data: Bytes)
    requires ParseSocksUdpPacket(data).Ok?
    ensures var offset := ParseUdpHost(data).value.1;
            && offset + 2 <= |data|
            && match FormOf(data)
               case Ipv4Form(ip, _, _) => data[..offset] == [0, 0, 0, SOCKS_ATYP_IPV4] + Octets(ip)
               case DomainForm(name, _, _) =>
                 |Encode(name)| < 0x100 && data[..offset] == [0, 0, 0, SOCKS_ATYP_DOMAIN, |Encode(name)|] + Encode(name)
  {
    if data[3] == SOCKS_ATYP_IPV4 {
      OctetsOfFromOctets(data[4], data[5], data[6], data[7]);
      assert data[..8] == [0, 0, 0, SOCKS_ATYP_IPV4] + [data[4], data[5], data[6], data[7]];
    } else {
      var offset := ParseUdpHost(data).value.1;
      EncodeOfDecode(data[5..offset]);
      assert data[..offset] == [0, 0, 0, SOCKS_ATYP_DOMAIN, data[4]] + data[5..offset];
    }
  }

  lemma Reassemble(data: Bytes, offset: nat)
    requires offset + 2 <= |data|
    ensures data == data[..offset] + BigEndian16(FromBigEndian16(data[offset], data[offset + 1])) + data[offset + 2..]
  {
    PortBytes(data[offset], data[offset + 1]);
    assert data == data[..offset] + [data[offset], data[offset + 1]] + data[offset + 2..];
  }

  /** Whatever is accepted is the encoding of what was read: re-encoding gives the input back. */
  lemma WireOfParse(data: Bytes)
    requires ParseSocksUdpPacket(data).Ok?
    ensures FormOf(data).Fits() && FormOf(data).Wire() == data
    ensures FormOf(data).Packet() == ParseSocksUdpPacket(data).value
  {
    HostBytes(data);
    Reassemble(data, ParseUdpHost(data).value.1);
  }

  lemma PortBytes(hi: u8, lo: u8)
    ensures BigEndian16(FromBigEndian16(hi, lo)) == [hi, lo]
  {
  }

  /** The accepted packets are exactly the encodings: zero reserved and fragment bytes, address
      type 1 or 3, nothing truncated, a valid UTF-8 name. */
  lemma AcceptedIffEncoded(data: Bytes)
    ensures ParseSocksUdpPacket(data).Ok? <==> exists f: UdpForm :: f.Fits() && f.Wire() == data
  {
    if ParseSocksUdpPacket(data).Ok? {
      WireOfParse(data);
    }
    if f: UdpForm :| f.Fits() && f.Wire() == data {
      ParseOfWire(f);
    }
  }
}
