/** The DNS client of the planner: server failover in order, and the two caches with a time to
    live. The answers of the servers, the system resolver and the clock are parameters. */
module DnsResolver {
  import opened Prelude
  import opened Sequences
  import opened Text
  import opened Rules

  /** Nanoseconds of a monotone clock. */
  type Instant = nat

  const DNS_CACHE_TTL: nat := 300_000_000_000

  datatype SocketAddr =
    | V4Addr(ip: Ipv4, port: u16)
    | V6Addr(octets: Bytes, port: u16, flowInfo: u32, scopeId: u32)

  /** A record of the answer section of a DNS response. */
  datatype Answer = A(ip: Ipv4) | Cname(name: string) | OtherRecord

  type Ask = (string, SocketAddr) -> Option<seq<Answer>>

  /** When each cache was read and written during one planning call. No order between the readings
      is needed below. */
  datatype Moments = Moments(lookupGet: Instant, lookupPut: Instant, firstGet: Instant, firstPut: Instant)

  /** The outside world during one planning call. */
  datatype Network = Network(ask: Ask, system: string -> Option<Ipv4>, at: Moments)

  datatype ResolveSource = Cache | Server(addr: SocketAddr)

  datatype Resolved = Resolved(ip: Ipv4, source: ResolveSource)

  datatype LookupResolved = LookupResolved(aliases: seq<string>, ips: seq<Ipv4>, source: ResolveSource)

  datatype ResolveError = NoServer | AllFailed

  datatype CacheKey = CacheKey(rcId: i32, host: string)

  datatype CacheEntry = CacheEntry(ip: Ipv4, expiresAt: Instant)

  datatype LookupEntry = LookupEntry(aliases: seq<string>, ips: seq<Ipv4>, expiresAt: Instant)

  datatype Caches = Caches(first: map<CacheKey, CacheEntry>, lookup: map<string, LookupEntry>)

  function AnswerIp(): Answer -> Option<Ipv4> {
    (a: Answer) => match a case A(ip) => Some(ip) case _ => None
  }

  function AnswerAlias(): Answer -> Option<string> {
    (a: Answer) =>
      match a
      case Cname(name) => if NormalizeDomain(name) == "" then None else Some(NormalizeDomain(name))
      case _ => None
  }

  /** The addresses of a response, each once, in answer order. */
  ghost function Ipv4sOf(answers: seq<Answer>): seq<Ipv4> {
    Distinct(answers, AnswerIp())
  }

  /** The normalised aliases of a response, each once, in answer order. */
  ghost function AliasesOf(answers: seq<Answer>): seq<string> {
    Distinct(answers, AnswerAlias())
  }

  method ExtractIpv4s(answers: seq<Answer>) returns (ips: seq<Ipv4>)
    ensures ips == Ipv4sOf(answers)
  {
    ips := [];
    for n := 0 to |answers|
      invariant ips == Ipv4sOf(answers[..n])
    {
      DistinctNext(answers, n, AnswerIp());
      match answers[n] {
        case A(ip) =>
          if ip !in ips {
            ips := ips + [ip];
          }
        case _ =>
      }
    }
    assert answers[..|answers|] == answers;
  }

  method ExtractCnameAliases(answers: seq<Answer>) returns (aliases: seq<string>)
    ensures aliases == AliasesOf(answers)
  {
    aliases := [];
    for n := 0 to |answers|
      invariant aliases == AliasesOf(answers[..n])
    {
      DistinctNext(answers, n, AnswerAlias());
      match answers[n] {
        case Cname(name) =>
          var alias := NormalizeDomain(name);
          if alias != "" && alias !in aliases {
            aliases := aliases + [alias];
          }
        case _ =>
      }
    }
    assert answers[..|answers|] == answers;
  }

  /** The first address a server gives for `host`, if it answers with one. */
  ghost function AskFirst(ask: Ask, host: string): SocketAddr -> Option<(SocketAddr, Ipv4)> {
    (server: SocketAddr) =>
      match ask(host, server)
      case None => None
      case Some(answers) => if Ipv4sOf(answers) == [] then None else Some((server, Ipv4sOf(answers)[0]))
  }

  /** Whatever response a server gives for `host`. */
  ghost function AskAny(ask: Ask, host: string): SocketAddr -> Option<(SocketAddr, seq<Answer>)> {
    (server: SocketAddr) =>
      match ask(host, server)
      case None => None
      case Some(answers) => Some((server, answers))
  }

  ghost function CachedFirst(c: Caches, key: CacheKey, now: Instant): Option<Ipv4> {
    if key in c.first && c.first[key].expiresAt > now then Some(c.first[key].ip) else None
  }

  ghost function CachedLookup(c: Caches, key: string, now: Instant): Option<LookupEntry> {
    if key in c.lookup && c.lookup[key].expiresAt > now then Some(c.lookup[key]) else None
  }

  ghost function Failure(servers: seq<SocketAddr>): ResolveError {
    if servers == [] then NoServer else AllFailed
  }

  /** A live cache entry, else the first server in order that gives an address; the caches
      afterwards: an expired entry is gone and a fetched address is stored. */
  ghost function ResolveFirst(c: Caches, rcId: i32, host: string, servers: seq<SocketAddr>, net: Network)
    : (Result<Resolved, ResolveError>, Caches)
  {
    var key := CacheKey(rcId, host);
    match CachedFirst(c, key, net.at.firstGet)
    case Some(ip) => (Ok(Resolved(ip, Cache)), c)
    case None =>
      match FirstSome<SocketAddr, (SocketAddr, Ipv4)>(servers, AskFirst(net.ask, host))
      case None => (Err(Failure(servers)), c.(first := c.first - {key}))
      case Some((server, ip)) =>
        (Ok(Resolved(ip, Server(server))),
         c.(first := c.first[key := CacheEntry(ip, net.at.firstPut + DNS_CACHE_TTL)]))
  }

  ghost function ResolveLookup(c: Caches, host: string, servers: seq<SocketAddr>, net: Network)
    : (Result<LookupResolved, ResolveError>, Caches)
  {
    var key := NormalizeDomain(host);
    match CachedLookup(c, key, net.at.lookupGet)
    case Some(entry) => (Ok(LookupResolved(entry.aliases, entry.ips, Cache)), c)
    case None =>
      match FirstSome<SocketAddr, (SocketAddr, seq<Answer>)>(servers, AskAny(net.ask, host))
      case None => (Err(Failure(servers)), c.(lookup := c.lookup - {key}))
      case Some((server, answers)) =>
        var aliases, ips := AliasesOf(answers), Ipv4sOf(answers);
        (Ok(LookupResolved(aliases, ips, Server(server))),
         c.(lookup := c.lookup[key := LookupEntry(aliases, ips, net.at.lookupPut + DNS_CACHE_TTL)]))
  }

  /** A server listed twice is asked in vain the second time. */
  lemma DuplicateServersAreInvisible(c: Caches, rcId: i32, host: string, servers: seq<SocketAddr>, net: Network)
    ensures ResolveFirst(c, rcId, host, FirstOccurrences(servers), net) == ResolveFirst(c, rcId, host, servers, net)
    ensures ResolveLookup(c, host, FirstOccurrences(servers), net) == ResolveLookup(c, host, servers, net)
  {
    FirstSomeDedup(servers, AskFirst(net.ask, host));
    FirstSomeDedup(servers, AskAny(net.ask, host));
    FirstOccurrencesMembers(servers);
    if servers != [] {
      assert servers[0] in FirstOccurrences(servers);
    }
  }

  /** An address that was fetched is served from then on until its 300 seconds are over, whatever the servers
      say meanwhile, and not a moment longer. */
  lemma FetchedIsServed(c: Caches, rcId: i32, host: string, servers: seq<SocketAddr>, net: Network,
                        servers': seq<SocketAddr>, later: Network)
    requires var (r, _) := ResolveFirst(c, rcId, host, servers, net); r.Ok? && r.value.source.Server?
    ensures var (r, c') := ResolveFirst(c, rcId, host, servers, net);
            var (again, c'') := ResolveFirst(c', rcId, host, servers', later);
            if later.at.firstGet < net.at.firstPut + 300_000_000_000
            then again == Ok(Resolved(r.value.ip, Cache)) && c'' == c'
            else again.Ok? ==> again.value.source.Server?
  {
  }

  /** The same for a response that was fetched. */
  lemma FetchedReportIsServed(c: Caches, host: string, servers: seq<SocketAddr>, net: Network,
                              servers': seq<SocketAddr>, later: Network)
    requires var (r, _) := ResolveLookup(c, host, servers, net); r.Ok? && r.value.source.Server?
    ensures var (r, c') := ResolveLookup(c, host, servers, net);
            var (again, c'') := ResolveLookup(c', host, servers', later);
            if later.at.lookupGet < net.at.lookupPut + 300_000_000_000
            then again == Ok(LookupResolved(r.value.aliases, r.value.ips, Cache)) && c'' == c'
            else again.Ok? ==> again.value.source.Server?
  {
  }

  /** What a response reports: the addresses of its A records, and the normalised names of its CNAME records
      unless they are empty; each once. */
  lemma ResponseMeaning(answers: seq<Answer>)
    ensures NoDuplicates(Ipv4sOf(answers)) && forall ip :: ip in Ipv4sOf(answers) <==> A(ip) in answers
    ensures NoDuplicates(AliasesOf(answers))
    ensures forall alias :: alias in AliasesOf(answers) <==>
              alias != "" && exists name :: Cname(name) in answers && NormalizeDomain(name) == alias
  {
    DistinctMembers(answers, AnswerIp());
    DistinctMembers(answers, AnswerAlias());
    forall alias | alias != "" && exists name :: Cname(name) in answers && NormalizeDomain(name) == alias
      ensures alias in AliasesOf(answers)
    {
      var name :| Cname(name) in answers && NormalizeDomain(name) == alias;
      assert AnswerAlias()(Cname(name)) == Some(alias);
    }
    forall ip | A(ip) in answers ensures ip in Ipv4sOf(answers) {
      assert AnswerIp()(A(ip)) == Some(ip);
    }
  }

  class Resolver {
    var cache: map<CacheKey, CacheEntry>
    var lookupCache: map<string, LookupEntry>

    constructor ()
      ensures State() == Caches(map[], map[])
    {
      cache, lookupCache := map[], map[];
    }

    function State(): Caches
      reads this
    {
      Caches(cache, lookupCache)
    }

    method ClearCache()
      modifies this
      ensures State() == Caches(map[], map[])
    {
      cache, lookupCache := map[], map[];
    }

    method CacheGet(key: CacheKey, now: Instant) returns (ip: Option<Ipv4>)
      modifies this
      ensures ip == CachedFirst(old(State()), key, now)
      ensures State() == if ip.Some? then old(State()) else old(State()).(first := old(cache) - {key})
    {
      ip := None;
      if key in cache {
        if cache[key].expiresAt > now {
          ip := Some(cache[key].ip);
        } else {
          cache := cache - {key};
        }
      } else {
        assert cache - {key} == cache;
      }
    }

    method CachePut(key: CacheKey, ip: Ipv4, now: Instant)
      modifies this
      ensures State() == old(State()).(first := old(cache)[key := CacheEntry(ip, now + DNS_CACHE_TTL)])
    {
      cache := cache[key := CacheEntry(ip, now + DNS_CACHE_TTL)];
    }

    method LookupCacheGet(key: string, now: Instant) returns (entry: Option<LookupEntry>)
      modifies this
      ensures entry == CachedLookup(old(State()), key, now)
      ensures State() == if entry.Some? then old(State()) else old(State()).(lookup := old(lookupCache) - {key})
    {
      entry := None;
      if key in lookupCache {
        if lookupCache[key].expiresAt > now {
          entry := Some(lookupCache[key]);
        } else {
          lookupCache := lookupCache - {key};
        }
      } else {
        assert lookupCache - {key} == lookupCache;
      }
    }

    method LookupCachePut(key: string, aliases: seq<string>, ips: seq<Ipv4>, now: Instant)
      modifies this
      ensures var entry := LookupEntry(aliases, ips, now + DNS_CACHE_TTL);
              State() == old(State()).(lookup := old(lookupCache)[key := entry])
    {
      lookupCache := lookupCache[key := LookupEntry(aliases, ips, now + DNS_CACHE_TTL)];
    }

    method ResolveFirstIpv4(rcId: i32, host: string, servers: seq<SocketAddr>, net: Network)
      returns (r: Result<Resolved, ResolveError>)
      modifies this
      ensures (r, State()) == ResolveFirst(old(State()), rcId, host, servers, net)
    {
      var key := CacheKey(rcId, host);
      var hit := CacheGet(key, net.at.firstGet);
      if hit.Some? {
        return Ok(Resolved(hit.value, Cache));
      }
      ghost var ask := AskFirst(net.ask, host);
      var tried := 0;
      for n := 0 to |servers|
        invariant tried == n && FirstSome(servers[..n], ask) == None
        invariant State() == old(State()).(first := old(cache) - {key})
      {
        FirstSomeExtend(servers, n, ask);
        tried := tried + 1;
        var response := net.ask(host, servers[n]);
        if response.Some? {
          var ips := ExtractIpv4s(response.value);
          if ips != [] {
            CachePut(key, ips[0], net.at.firstPut);
            assert (old(cache) - {key})[key := cache[key]] == old(cache)[key := cache[key]];
            return Ok(Resolved(ips[0], Server(servers[n])));
          }
        }
      }
      assert servers[..|servers|] == servers;
      r := Err(if tried == 0 then NoServer else AllFailed);
    }

    method ResolveAny(host: string, servers: seq<SocketAddr>, net: Network)
      returns (r: Result<LookupResolved, ResolveError>)
      modifies this
      ensures (r, State()) == ResolveLookup(old(State()), host, servers, net)
    {
      var key := NormalizeDomain(host);
      var hit := LookupCacheGet(key, net.at.lookupGet);
      if hit.Some? {
        return Ok(LookupResolved(hit.value.aliases, hit.value.ips, Cache));
      }
      ghost var ask := AskAny(net.ask, host);
      var tried := 0;
      for n := 0 to |servers|
        invariant tried == n && FirstSome(servers[..n], ask) == None
        invariant State() == old(State()).(lookup := old(lookupCache) - {key})
      {
        FirstSomeExtend(servers, n, ask);
        tried := tried + 1;
        var response := net.ask(host, servers[n]);
        if response.Some? {
          var aliases := ExtractCnameAliases(response.value);
          var ips := ExtractIpv4s(response.value);
          LookupCachePut(key, aliases, ips, net.at.lookupPut);
          assert (old(lookupCache) - {key})[key := lookupCache[key]] == old(lookupCache)[key := lookupCache[key]];
          return Ok(LookupResolved(aliases, ips, Server(servers[n])));
        }
      }
      assert servers[..|servers|] == servers;
      r := Err(if tried == 0 then NoServer else AllFailed);
    }
  }
}
