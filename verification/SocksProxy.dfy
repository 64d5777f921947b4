/** The client side towards a fallback proxy: SOCKS5 negotiation, request and reply, and the head
    of an HTTP CONNECT reply; and the round trips with the server side. */
module SocksProxy {
  import opened Prelude
  import opened Text
  import opened Utf8
  import opened SocksWire

  datatype ProxyError =
    | ReadTruncated
    | ProxyWriteFailed
    | AuthUnsupported(version: u8, chosen: u8)
    | BadDomain
    | BadReplyVersion(version: u8)
    | RejectedWith(code: u8)
    | BindAtypUnsupported(atyp: u8)
    | HeadEmpty
    | HeadTooLarge

  // ---------------------------------------------------------------- requests

  /** The address that a host names; nothing for a host that cannot be sent. */
  function AddressOf(v6: Ipv6Text, text: string): (address: Option<Address>)
    ensures address.Some? ==> address.value.Fits()
  {
    var host := Trim(text);
    if ParseIpv4(host).Some? then Some(Ipv4Address(ParseIpv4(host).value))
    else if v6.parse(host).Some? then Some(Ipv6Address(v6.parse(host).value))
    else if host == "" || |Encode(host)| > 255 then None
    else Some(DomainAddress(host))
  }

  method AppendSocks5Addr(buf: Bytes, v6: Ipv6Text, text: string) returns (r: Option<Bytes>)
    ensures r.Some? <==> AddressOf(v6, text).Some?
    ensures r.Some? ==> var a := AddressOf(v6, text).value; r.value == buf + ([a.Type()] + a.Wire())
  {
    var host := Trim(text);
    var ipv4 := ParseIpv4(host);
    if ipv4.Some? {
      return Some(buf + ([SOCKS_ATYP_IPV4] + Octets(ipv4.value)));
    }
    var ipv6 := v6.parse(host);
    if ipv6.Some? {
      return Some(buf + ([SOCKS_ATYP_IPV6] + ipv6.value));
    }
    var name := Encode(host);
    if host == "" || |name| > 255 {
      return None;
    }
    assert [SOCKS_ATYP_DOMAIN, |name|] + name == [SOCKS_ATYP_DOMAIN] + ([|name|] + name);
    r := Some(buf + ([SOCKS_ATYP_DOMAIN, |name|] + name));
  }

  method WriteSocks5ConnectRequest(stream: ByteStream, v6: Ipv6Text, host: string, port: u16)
    returns (r: Result<(), ProxyError>)
    modifies stream`output
    ensures var a := AddressOf(v6, host);
            if a.None? then r == Err(BadDomain) && stream.output == old(stream.output)
            else if !stream.writable then r == Err(ProxyWriteFailed) && stream.output == old(stream.output)
            else r == Ok(()) && stream.output == old(stream.output) + RequestWire(Connect, a.value, port)
  {
    var req := AppendSocks5Addr([SOCKS_VERSION_5, SOCKS_CMD_CONNECT, SOCKS_RSV], v6, host);
    if req.None? {
      return Err(BadDomain);
    }
    var ok := stream.WriteAll(req.value + BigEndian16(port));
    ghost var a := AddressOf(v6, host).value;
    assert req.value == [SOCKS_VERSION_5, SOCKS_CMD_CONNECT, SOCKS_RSV, a.Type()] + a.Wire();
    r := if ok then Ok(()) else Err(ProxyWriteFailed);
  }

  /** The host as the server sees it: the trimmed text, or the printed form of the 16 octets. */
  function SeenHost(v6: Ipv6Text, host: string): string {
    var h := Trim(host);
    if ParseIpv4(h).None? && v6.parse(h).Some? then v6.format(v6.parse(h).value) else h
  }

  /** What the client writes the server reads: all of it, as a CONNECT to the same port and host. A host is
      refused exactly when it is no address and its name is empty or longer than 255 bytes. */
  lemma RequestRoundTrip(v6: Ipv6Text, host: string, port: u16, more: Bytes)
    ensures var h := Trim(host);
            match AddressOf(v6, host)
            case None => ParseIpv4(h).None? && v6.parse(h).None? && (h == "" || |Encode(h)| > 255)
            case Some(address) =>
              && (ParseIpv4(h).Some? || v6.parse(h).Some? || (h != "" && |Encode(h)| <= 255))
              && ParseRequest(v6, RequestWire(Connect, address, port) + more)
                 == (Ok(SocksRequest(Connect, ConnectTarget(SeenHost(v6, host), port))), more)
  {
    if AddressOf(v6, host).Some? {
      RequestOfWire(v6, Connect, AddressOf(v6, host).value, port, more);
      if ParseIpv4(Trim(host)).Some? {
        PrintIpv4OfParse(Trim(host));
      }
    }
  }

  // ---------------------------------------------------------------- negotiation and replies

  const CLIENT_GREETING: Bytes := [SOCKS_VERSION_5, 1, SOCKS_METHOD_NO_AUTH]

  method NegotiateSocks5ProxyNoAuth(stream: ByteStream) returns (r: Result<(), ProxyError>)
    modifies stream
    ensures stream.writable == old(stream.writable)
    ensures !stream.writable ==> r == Err(ProxyWriteFailed) && stream.output == old(stream.output)
    ensures stream.writable ==>
              stream.output == old(stream.output) + [5, 1, 0]
              && (r == Ok(()) <==> [5, 0] <= old(stream.input))
              && (r == Ok(()) ==> stream.input == old(stream.input)[2..])
  {
    var ok := stream.WriteAll(CLIENT_GREETING);
    if !ok {
      return Err(ProxyWriteFailed);
    }
    var resp := stream.ReadExact(2);
    if resp.None? {
      return Err(ReadTruncated);
    }
    assert resp.value == old(stream.input)[..2];
    if resp.value != [SOCKS_VERSION_5, SOCKS_METHOD_NO_AUTH] {
      return Err(AuthUnsupported(resp.value[0], resp.value[1]));
    }
    r := Ok(());
  }

  /** The server accepts the client's greeting, takes just that, and answers what the client waits
      for. */
  lemma GreetingRoundTrip(more: Bytes)
    ensures Greeting(CLIENT_GREETING + more) == (Ok(()), more, [SOCKS_VERSION_5, SOCKS_METHOD_NO_AUTH])
  {
    assert CLIENT_GREETING == [SOCKS_VERSION_5, 1] + [SOCKS_METHOD_NO_AUTH];
    GreetingOf(CLIENT_GREETING + more, [SOCKS_METHOD_NO_AUTH], more);
  }

  /** The bound address of a reply is read and thrown away. */
  function SkipAddrAndPort(atyp: u8, input: Bytes): (Result<(), ProxyError>, Bytes) {
    if atyp == SOCKS_ATYP_IPV4 then SkipThenPort(Take(input, 4))
    else if atyp == SOCKS_ATYP_DOMAIN then
      match Take(input, 1)
      case (None, rest) => (Err(ReadTruncated), rest)
      case (Some(len), rest) => SkipThenPort(Take(rest, len[0]))
    else if atyp == SOCKS_ATYP_IPV6 then SkipThenPort(Take(input, 16))
    else (Err(BindAtypUnsupported(atyp)), input)
  }

  function SkipThenPort(taken: (Option<Bytes>, Bytes)): (Result<(), ProxyError>, Bytes) {
    if taken.0.None? then (Err(ReadTruncated), taken.1)
    else
      var (port, rest) := Take(taken.1, 2);
      (if port.None? then Err(ReadTruncated) else Ok(()), rest)
  }

  function ConnectReply(input: Bytes): (Result<(), ProxyError>, Bytes) {
    match Take(input, 4)
    case (None, rest) => (Err(ReadTruncated), rest)
    case (Some(head), rest) =>
      if head[0] != SOCKS_VERSION_5 then (Err(BadReplyVersion(head[0])), rest)
      else if head[1] != SOCKS_REP_SUCCEEDED then (Err(RejectedWith(head[1])), rest)
      else SkipAddrAndPort(head[3], rest)
  }

  method ConsumeSocks5AddrAndPort(stream: ByteStream, atyp: u8) returns (r: Result<(), ProxyError>)
    modifies stream`input
    ensures (r, stream.input) == SkipAddrAndPort(atyp, old(stream.input))
  {
    var n: nat;
    if atyp == SOCKS_ATYP_IPV4 {
      n := 4;
    } else if atyp == SOCKS_ATYP_DOMAIN {
      var len := stream.ReadExact(1);
      if len.None? {
        return Err(ReadTruncated);
      }
      n := len.value[0];
    } else if atyp == SOCKS_ATYP_IPV6 {
      n := 16;
    } else {
      return Err(BindAtypUnsupported(atyp));
    }
    var address := stream.ReadExact(n);
    if address.None? {
      return Err(ReadTruncated);
    }
    var port := stream.ReadExact(2);
    r := if port.None? then Err(ReadTruncated) else Ok(());
  }

  method ReadSocks5ConnectReply(stream: ByteStream) returns (r: Result<(), ProxyError>)
    modifies stream`input
    ensures (r, stream.input) == ConnectReply(old(stream.input))
  {
    var head := stream.ReadExact(4);
    if head.None? {
      return Err(ReadTruncated);
    }
    if head.value[0] != SOCKS_VERSION_5 {
      return Err(BadReplyVersion(head.value[0]));
    }
    if head.value[1] != SOCKS_REP_SUCCEEDED {
      return Err(RejectedWith(head.value[1]));
    }
    r := ConsumeSocks5AddrAndPort(stream, head.value[3]);
  }

  /** The bound address of a reply, after its type. */
  predicate IsBoundAddress(atyp: u8, bound: Bytes) {
    || (atyp == SOCKS_ATYP_IPV4 && |bound| == 4)
    || (atyp == SOCKS_ATYP_DOMAIN && bound != [] && |bound[1..]| == bound[0])
    || (atyp == SOCKS_ATYP_IPV6 && |bound| == 16)
  }

  /** A reply of section 6 of RFC 1928 that reports success, and what follows it. The client does not look
      at the reserved byte. */
  predicate IsSuccess(input: Bytes, rsv: u8, atyp: u8, bound: Bytes, port: Bytes, more: Bytes) {
    && IsBoundAddress(atyp, bound) && |port| == 2
    && input == [SOCKS_VERSION_5, SOCKS_REP_SUCCEEDED, rsv, atyp] + (bound + (port + more))
  }

  lemma SkipOf(atyp: u8, bound: Bytes, port: Bytes, more: Bytes)
    requires IsBoundAddress(atyp, bound) && |port| == 2
    ensures SkipAddrAndPort(atyp, bound + (port + more)) == (Ok(()), more)
  {
    TakeAll(port, more);
    if atyp == SOCKS_ATYP_DOMAIN {
      assert bound + (port + more) == [bound[0]] + (bound[1..] + (port + more));
      TakeAll([bound[0]], bound[1..] + (port + more));
      TakeAll(bound[1..], port + more);
    } else {
      TakeAll(bound, port + more);
    }
  }

  lemma SkipSplits(atyp: u8, input: Bytes) returns (bound: Bytes, port: Bytes)
    requires SkipAddrAndPort(atyp, input).0 == Ok(())
    ensures IsBoundAddress(atyp, bound) && |port| == 2
    ensures input == bound + (port + SkipAddrAndPort(atyp, input).1)
  {
    var n: nat := if atyp == SOCKS_ATYP_IPV4 then 4 else 16;
    if atyp == SOCKS_ATYP_DOMAIN {
      var len: nat := input[0];
      n := 1 + len;
      assert input[1..][len..] == input[n..];
    }
    bound, port := input[..n], input[n..n + 2];
    assert input[n..][2..] == input[n + 2..];
  }

  lemma SuccessOf(input: Bytes, rsv: u8, atyp: u8, bound: Bytes, port: Bytes, more: Bytes)
    requires IsSuccess(input, rsv, atyp, bound, port, more)
    ensures ConnectReply(input) == (Ok(()), more)
  {
    TakeAll([SOCKS_VERSION_5, SOCKS_REP_SUCCEEDED, rsv, atyp], bound + (port + more));
    SkipOf(atyp, bound, port, more);
  }

  /** The replies taken as success are exactly the well-formed ones with code zero, and the client reads
      them to the last byte and no further. */
  lemma ReplyAcceptedIff(input: Bytes)
    ensures ConnectReply(input).0 == Ok(()) <==>
              exists rsv, atyp, bound, port, more :: IsSuccess(input, rsv, atyp, bound, port, more)
    ensures forall rsv, atyp, bound, port, more :: IsSuccess(input, rsv, atyp, bound, port, more) ==>
              ConnectReply(input).1 == more
  {
    if ConnectReply(input).0 == Ok(()) {
      var bound, port := SkipSplits(input[3], input[4..]);
      assert input == [input[0], input[1], input[2], input[3]] + input[4..];
      assert IsSuccess(input, input[2], input[3], bound, port, ConnectReply(input).1);
    }
    forall rsv, atyp, bound, port, more | IsSuccess(input, rsv, atyp, bound, port, more)
      ensures ConnectReply(input) == (Ok(()), more)
    {
      SuccessOf(input, rsv, atyp, bound, port, more);
    }
  }

  /** The client takes a server's reply as success exactly when its code is zero, and then leaves
      exactly what follows it in the stream. */
  lemma ReplyRoundTrip(rep: u8, ip: Ipv4, port: u16, more: Bytes)
    ensures var (r, rest) := ConnectReply(BoundReply(rep, ip, port) + more);
            && (r == if rep == SOCKS_REP_SUCCEEDED then Ok(()) else Err(RejectedWith(rep)))
            && (r == Ok(()) ==> rest == more)
  {
    var head, tail := [SOCKS_VERSION_5, rep, SOCKS_RSV, SOCKS_ATYP_IPV4], Octets(ip) + (BigEndian16(port) + more);
    assert BoundReply(rep, ip, port) + more == head + tail;
    TakeAll(head, tail);
    SkipOf(SOCKS_ATYP_IPV4, Octets(ip), BigEndian16(port), more);
  }

  // ---------------------------------------------------------------- HTTP CONNECT

  const HTTP_PROXY_HEAD_MAX_SIZE: nat := 16384
  const HEAD_END: Bytes := [13, 10, 13, 10]

  /** The first `k` bytes end with an empty line. */
  predicate EndsHead(input: Bytes, k: nat) {
    4 <= k <= |input| && input[k - 4..k] == [13, 10, 13, 10]
  }

  /** Reads byte by byte up to the first empty line and not a byte further. A head is accepted exactly
      when it ends within 16385 bytes: the size is compared after the end of the head, so one byte
      more than the limit passes. */
  method ReadHttpProxyHead(stream: ByteStream) returns (r: Result<Bytes, ProxyError>)
    modifies stream`input
    ensures r.Ok? <==> exists k: nat :: EndsHead(old(stream.input), k) && k <= 16385
    ensures r.Ok? ==>
              && old(stream.input) == r.value + stream.input
              && EndsHead(old(stream.input), |r.value|)
              && forall k :: 0 <= k < |r.value| ==> !EndsHead(old(stream.input), k)
    ensures r.Err? ==> r.error == if |old(stream.input)| > 16384 then HeadTooLarge else HeadEmpty
  {
    ghost var input := stream.input;
    var buf: Bytes := [];
    while true
      invariant input == buf + stream.input && |buf| <= HTTP_PROXY_HEAD_MAX_SIZE
      invariant forall k :: 0 <= k <= |buf| ==> !EndsHead(input, k)
      decreases |stream.input|
    {
      var one := stream.ReadExact(1);
      if one.None? {
        assert buf == input;
        return Err(HeadEmpty);
      }
      buf := buf + one.value;
      assert buf == input[..|buf|];
      if |buf| >= 4 && buf[|buf| - 4..] == HEAD_END {
        assert EndsHead(input, |buf|);
        return Ok(buf);
      }
      if |buf| > HTTP_PROXY_HEAD_MAX_SIZE {
        return Err(HeadTooLarge);
      }
    }
  }
}
