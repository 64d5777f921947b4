/** The SOCKS5 messages byte by byte, as RFC 1928 numbers them, and what each side makes of them. */
module SocksBytes {
  import opened Prelude
  import opened Text
  import opened TextLaws
  import opened Utf8
  import opened SocksWire
  import opened SocksProxy

  /** The port of two bytes, the high one first. */
  function PortOf(p: int, q: int): int {
    256 * p + q
  }

  lemma PortBytesMeaning(p: u8, q: u8)
    ensures FromBigEndian16(p, q) == PortOf(p, q) && BigEndian16(FromBigEndian16(p, q)) == [p, q]
  {
    PortBytes(p, q);
  }

  lemma TakeHead(head: Bytes, tail: Bytes, n: nat)
    requires |head| == n
    ensures Take(head + tail, n) == (Some(head), tail)
  {
    TakeAll(head, tail);
  }

  // ---------------------------------------------------------------- requests, as the server reads them

  /** The command of a request: 1 for CONNECT, 3 for UDP ASSOCIATE. */
  function CommandOf(udp: bool): SocksCommand {
    if udp then UdpAssociate else Connect
  }

  lemma ReadsAddressBytes(v6: Ipv6Text, udp: bool, atyp: u8, address: Bytes, host: string, p: u8, q: u8, more: Bytes)
    requires ParseHost(v6, atyp, address + ([p, q] + more)) == (Ok(host), [p, q] + more)
    ensures ParseRequest(v6, [5, if udp then 3 else 1, 0, atyp] + (address + ([p, q] + more)))
            == (Ok(SocksRequest(CommandOf(udp), ConnectTarget(host, PortOf(p, q)))), more)
  {
    TakeHead([5, if udp then 3 else 1, 0, atyp], address + ([p, q] + more), 4);
    TakeHead([p, q], more, 2);
    PortBytesMeaning(p, q);
  }

  /** Address type 1: four bytes. */
  lemma ReadsIpv4Request(v6: Ipv6Text, udp: bool, a: u8, b: u8, c: u8, d: u8, p: u8, q: u8, more: Bytes)
    ensures ParseRequest(v6, [5, if udp then 3 else 1, 0, 1] + ([a, b, c, d] + ([p, q] + more)))
            == (Ok(SocksRequest(CommandOf(udp), ConnectTarget(QuadText(a, b, c, d), PortOf(p, q)))), more)
  {
    TakeHead([a, b, c, d], [p, q] + more, 4);
    AddressMeaning(a, b, c, d);
    ReadsAddressBytes(v6, udp, 1, [a, b, c, d], QuadText(a, b, c, d), p, q, more);
  }

  lemma NamedHost(v6: Ipv6Text, name: Bytes, tail: Bytes)
    requires |name| < 256
    ensures ParseHost(v6, 3, [|name|] + name + tail)
            == ((match Decode(name) case None => Err(InvalidUtf8) case Some(text) => Ok(text)), tail)
  {
    assert [|name|] + name + tail == [|name|] + (name + tail);
    TakeHead([|name|], name + tail, 1);
    TakeAll(name, tail);
    HostOfParts(v6, [|name|] + name + tail, |name|, name, tail);
  }

  lemma HostOfParts(v6: Ipv6Text, input: Bytes, len: u8, name: Bytes, tail: Bytes)
    requires Take(input, 1) == (Some([len]), name + tail) && Take(name + tail, len) == (Some(name), tail)
    ensures ParseHost(v6, 3, input)
            == ((match Decode(name) case None => Err(InvalidUtf8) case Some(text) => Ok(text)), tail)
  {
  }

  lemma BadHost(v6: Ipv6Text, udp: bool, atyp: u8, input: Bytes)
    requires ParseHost(v6, atyp, input).0.Err?
    ensures ParseRequest(v6, [5, if udp then 3 else 1, 0, atyp] + input).0 == Err(ParseHost(v6, atyp, input).0.error)
  {
    TakeHead([5, if udp then 3 else 1, 0, atyp], input, 4);
  }

  lemma NamedHostIs(v6: Ipv6Text, name: Bytes, text: string, tail: Bytes)
    requires |name| < 256 && Decode(name) == Some(text)
    ensures ParseHost(v6, 3, [|name|] + name + tail) == (Ok(text), tail)
  {
    NamedHost(v6, name, tail);
  }

  function PortThen(p: u8, q: u8, more: Bytes): Bytes {
    [p, q] + more
  }

  /** Address type 3: a length and that many bytes of UTF-8. */
  lemma ReadsNamedRequest(v6: Ipv6Text, udp: bool, name: Bytes, text: string, p: u8, q: u8, more: Bytes)
    requires |name| < 256 && Decode(name) == Some(text)
    ensures ParseRequest(v6, [5, if udp then 3 else 1, 0, 3] + ([|name|] + name + ([p, q] + more)))
            == (Ok(SocksRequest(CommandOf(udp), ConnectTarget(text, PortOf(p, q)))), more)
  {
    NamedHostIs(v6, name, text, PortThen(p, q, more));
    ReadsAddressBytes(v6, udp, 3, [|name|] + name, text, p, q, more);
  }

  lemma RefusesBadName(v6: Ipv6Text, udp: bool, name: Bytes, more: Bytes)
    requires |name| < 256 && Decode(name).None?
    ensures ParseRequest(v6, [5, if udp then 3 else 1, 0, 3] + ([|name|] + name + more)).0 == Err(InvalidUtf8)
  {
    NamedHost(v6, name, more);
    BadHost(v6, udp, 3, [|name|] + name + more);
  }

  /** Address type 4: sixteen bytes. */
  lemma ReadsIpv6Request(v6: Ipv6Text, udp: bool, octets: Ipv6, p: u8, q: u8, more: Bytes)
    ensures ParseRequest(v6, [5, if udp then 3 else 1, 0, 4] + (octets + ([p, q] + more)))
            == (Ok(SocksRequest(CommandOf(udp), ConnectTarget(v6.format(octets), PortOf(p, q)))), more)
  {
    TakeAll(octets, [p, q] + more);
    ReadsAddressBytes(v6, udp, 4, octets, v6.format(octets), p, q, more);
  }

  /** What the server refuses, in this order: another version, another command (reply code 7), a reserved byte
      that is not zero (code 1), another address type (code 8). */
  lemma RefusedRequests(v6: Ipv6Text, version: u8, command: u8, rsv: u8, atyp: u8, rest: Bytes)
    ensures var r := ParseRequest(v6, [version, command, rsv, atyp] + rest).0;
            && (r == Err(BadVersion) <==> version != 5)
            && (version == 5 ==> (r == Err(UnsupportedCommand(command)) <==> command != 1 && command != 3))
            && (version == 5 && command in {1, 3} ==> (r == Err(BadReserved) <==> rsv != 0))
            && (version == 5 && command in {1, 3} && rsv == 0 ==>
                  (r == Err(UnsupportedAtyp(atyp)) <==> atyp != 1 && atyp != 3 && atyp != 4))
    ensures ReplyTo(UnsupportedCommand(command)) == [5, 7, 0, 1, 0, 0, 0, 0, 0, 0]
    ensures ReplyTo(BadReserved) == [5, 1, 0, 1, 0, 0, 0, 0, 0, 0]
    ensures ReplyTo(UnsupportedAtyp(atyp)) == [5, 8, 0, 1, 0, 0, 0, 0, 0, 0]
    ensures ReplyTo(BadVersion) == ReplyTo(Truncated) == ReplyTo(InvalidUtf8) == []
  {
    TakeHead([version, command, rsv, atyp], rest, 4);
    HostErrors(v6, atyp, rest);
  }

  // ---------------------------------------------------------------- requests, as the client writes them

  /** The three requests that the client writes. */
  lemma WrittenRequests(a: u8, b: u8, c: u8, d: u8, name: string, octets: Ipv6, p: u8, q: u8)
    ensures RequestWire(Connect, Ipv4Address(FromOctets(a, b, c, d)), FromBigEndian16(p, q))
            == [5, 1, 0, 1, a, b, c, d, p, q]
    ensures |Encode(name)| < 256 ==>
              RequestWire(Connect, DomainAddress(name), FromBigEndian16(p, q))
              == [5, 1, 0, 3, |Encode(name)|] + Encode(name) + [p, q]
    ensures RequestWire(Connect, Ipv6Address(octets), FromBigEndian16(p, q)) == [5, 1, 0, 4] + octets + [p, q]
    ensures FromBigEndian16(p, q) == PortOf(p, q)
  {
    OctetsOfFromOctets(a, b, c, d);
    PortBytesMeaning(p, q);
  }

  /** Which of the three: the address that the trimmed text is, else the name. */
  lemma WrittenAddress(v6: Ipv6Text, a: u8, b: u8, c: u8, d: u8, text: string)
    ensures Trim(text) == QuadText(a, b, c, d) ==> AddressOf(v6, text) == Some(Ipv4Address(FromOctets(a, b, c, d)))
    ensures ParseIpv4(Trim(text)).None? && v6.parse(Trim(text)).Some? ==>
              AddressOf(v6, text) == Some(Ipv6Address(v6.parse(Trim(text)).value))
    ensures ParseIpv4(Trim(text)).None? && v6.parse(Trim(text)).None? && 1 <= |Encode(Trim(text))| <= 255 ==>
              AddressOf(v6, text) == Some(DomainAddress(Trim(text)))
  {
    AddressMeaning(a, b, c, d);
  }

  // ---------------------------------------------------------------- negotiation and replies

  /** The greeting lists methods; method 0 is chosen if it is offered, else 255 is answered. */
  lemma Greetings(methods: Bytes, more: Bytes)
    requires |methods| < 256
    ensures Greeting([5, |methods|] + methods + more)
            == if 0 in methods then (Ok(()), more, [5, 0]) else (Err(NoAcceptableMethod), more, [5, 255])
    ensures CLIENT_GREETING == [5, 1, 0]
  {
    GreetingOf([5, |methods|] + methods + more, methods, more);
  }

  lemma OtherVersions(version: u8, n: u8, rest: Bytes)
    requires version != 5
    ensures Greeting([version, n] + rest) == (Err(BadVersion), rest, [])
  {
    TakeHead([version, n], rest, 2);
  }

  /** The server's reply with a bound address. */
  lemma WrittenReply(rep: u8, a: u8, b: u8, c: u8, d: u8, p: u8, q: u8)
    ensures BoundReply(rep, FromOctets(a, b, c, d), FromBigEndian16(p, q)) == [5, rep, 0, 1, a, b, c, d, p, q]
  {
    OctetsOfFromOctets(a, b, c, d);
    PortBytesMeaning(p, q);
  }

  /** What the client makes of a reply: code 0 is success, any other is reported; the bound address of
      either type is skipped. */
  lemma ReadReplies(rep: u8, rsv: u8, name: Bytes, octets: Ipv6, a: u8, b: u8, c: u8, d: u8, p: u8, q: u8, more: Bytes)
    requires |name| < 256
    ensures ConnectReply([5, 0, rsv, 1] + ([a, b, c, d] + ([p, q] + more))) == (Ok(()), more)
    ensures ConnectReply([5, 0, rsv, 3] + (([|name|] + name) + ([p, q] + more))) == (Ok(()), more)
    ensures ConnectReply([5, 0, rsv, 4] + (octets + ([p, q] + more))) == (Ok(()), more)
    ensures rep != 0 ==> ConnectReply([5, rep, rsv, 1] + more) == (Err(RejectedWith(rep)), more)
  {
    SuccessOf([5, 0, rsv, 1] + ([a, b, c, d] + ([p, q] + more)), rsv, 1, [a, b, c, d], [p, q], more);
    assert ([|name|] + name)[1..] == name;
    SuccessOf([5, 0, rsv, 3] + (([|name|] + name) + ([p, q] + more)), rsv, 3, [|name|] + name, [p, q], more);
    SuccessOf([5, 0, rsv, 4] + (octets + ([p, q] + more)), rsv, 4, octets, [p, q], more);
    TakeHead([5, rep, rsv, 1], more, 4);
  }

  // ---------------------------------------------------------------- UDP headers

  /** A datagram for an address: three zero bytes, type 1, the address, the port, the payload. */
  lemma WrittenDatagram(a: u8, b: u8, c: u8, d: u8, p: u8, q: u8, payload: Bytes)
    ensures EncodeSocksUdpPacket(FromOctets(a, b, c, d), FromBigEndian16(p, q), payload)
            == [0, 0, 0, 1, a, b, c, d, p, q] + payload
  {
    OctetsOfFromOctets(a, b, c, d);
    PortBytesMeaning(p, q);
  }

  lemma ReadDatagram(a: u8, b: u8, c: u8, d: u8, p: u8, q: u8, payload: Bytes)
    ensures ParseSocksUdpPacket([0, 0, 0, 1, a, b, c, d, p, q] + payload)
            == Ok(SocksUdpPacket(ConnectTarget(QuadText(a, b, c, d), PortOf(p, q)), payload))
  {
    WrittenDatagram(a, b, c, d, p, q, payload);
    ParseOfIpv4Wire(FromOctets(a, b, c, d), FromBigEndian16(p, q), payload);
    AddressMeaning(a, b, c, d);
    PortBytesMeaning(p, q);
  }

  /** A datagram for a name: three zero bytes, type 3, the length and the bytes of the name. */
  lemma ReadNamedDatagram(name: string, p: u8, q: u8, payload: Bytes)
    requires |Encode(name)| < 256
    ensures ParseSocksUdpPacket([0, 0, 0, 3, |Encode(name)|] + Encode(name) + [p, q] + payload)
            == Ok(SocksUdpPacket(ConnectTarget(name, PortOf(p, q)), payload))
  {
    PortBytesMeaning(p, q);
    ParseOfDomainWire(name, FromBigEndian16(p, q), payload);
  }

  /** What is refused: a reserved byte or a fragment number that is not zero, and other address types. */
  lemma RefusedDatagrams(r1: u8, r2: u8, frag: u8, atyp: u8, rest: Bytes)
    ensures var r := ParseSocksUdpPacket([r1, r2, frag, atyp] + rest);
            && (r == Err(NonZeroRsv) <==> r1 != 0 || r2 != 0)
            && (r1 == 0 && r2 == 0 ==> (r == Err(Fragmented) <==> frag != 0))
            && (r1 == 0 && r2 == 0 && frag == 0 && atyp == 4 ==> r == Err(Ipv6Unsupported))
            && (r1 == 0 && r2 == 0 && frag == 0 && atyp !in {1, 3, 4} ==> r == Err(UdpAtypUnsupported(atyp)))
  {
  }
}
