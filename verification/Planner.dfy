/** The five-stage route planner over the compiled table, proved equal to a planner that scans
    the raw table from top to bottom with no index, no DNS map and no de-duplication. */
module Planner {
  import opened Prelude
  import opened Sequences
  import opened Text
  import opened Rules
  import opened ExtraIps
  import opened DnsResolver
  import Dns = DnsIndexes

  datatype RouteSource =
    | RouteTableUnavailable
    | RuleIp
    | DnsMap
    | DnsDataIpRule
    | DnsServerCache
    | DnsServerQuery(server: SocketAddr)
    | CnameDnsMap
    | CnameDnsServerCache
    | CnameDnsServerQuery(server: SocketAddr)
    | ExtraIp
    | DnsServerIpRuleCache
    | DnsServerIpRuleQuery(server: SocketAddr)

  datatype Reason = NoRuleMatched | NoDnsServer(rcId: i32) | LookupFailed(rcId: i32)

  datatype RoutePlan =
    | Remote(dial: string, rcId: i32, rcName: string, source: RouteSource)
    | Fallback(target: string, reason: Reason)

  datatype RouteTable = RouteTable(rules: seq<RouteRule>, dnsServers: seq<string>, dnsRecords: seq<Dns.DnsRecord>)

  datatype IpAddr = V4(ip: Ipv4) | V6(octets: Bytes)

  /** The standard library's parsers of `address:port` and of a bare address. */
  datatype AddrParser = AddrParser(socket: string -> Option<SocketAddr>, ip: string -> Option<IpAddr>)

  const DNS_DEFAULT_PORT: u16 := 53

  function ParseServer(parser: AddrParser): string -> Option<SocketAddr> {
    (raw: string) =>
      var token := Trim(raw);
      if token == "" then None
      else if parser.socket(token).Some? then parser.socket(token)
      else
        match parser.ip(token)
        case None => None
        case Some(V4(ip)) => Some(V4Addr(ip, DNS_DEFAULT_PORT))
        case Some(V6(octets)) => Some(V6Addr(octets, DNS_DEFAULT_PORT, 0, 0))
  }

  /** A server is an address with a port, or a bare address on port 53; an empty text or any other is
      dropped. */
  lemma ServerTexts(parser: AddrParser, raw: string)
    ensures var token, server := Trim(raw), ParseServer(parser)(raw);
            && (token == "" ==> server == None)
            && (token != "" && parser.socket(token).Some? ==> server == parser.socket(token))
            && (token != "" && parser.socket(token).None? ==>
                  match parser.ip(token)
                  case None => server == None
                  case Some(V4(ip)) => server == Some(V4Addr(ip, 53))
                  case Some(V6(octets)) => server == Some(V6Addr(octets, 53, 0, 0)))
  {
  }

  // ---------------------------------------------------------------- the reference planner

  /** Everything a table is planned from. */
  datatype Config = Config(table: RouteTable, extras: seq<string>, parser: AddrParser)
  {
    ghost function Servers(): seq<SocketAddr> {
      FilterMap(table.dnsServers, ParseServer(parser))
    }
  }

  datatype Query = Query(host: string, port: u16, flow: FlowProto)

  ghost predicate IsExtra(extras: seq<string>, ip: Ipv4) {
    AnyAnswer(extras, ParseExtraIp, Holds(ip))
  }

  function Holds(ip: Ipv4): HostMatcher -> bool {
    (m: HostMatcher) => MatcherContains(m, Ipv4Target(ip))
  }

  /** The plan for an address that a rule admits. */
  ghost function IpRulePlan(rules: seq<RouteRule>, q: Query, source: RouteSource): Ipv4 -> Option<RoutePlan> {
    (ip: Ipv4) => ViaRule(FirstRawMatch(rules, Ipv4Target(ip), q.port, q.flow), ip, q.port, source)
  }

  function ViaRule(rule: Option<CompiledRule>, ip: Ipv4, port: u16, source: RouteSource): Option<RoutePlan> {
    match rule
    case None => None
    case Some(r) => Some(Remote(HostPort(PrintIpv4(ip), port), r.rcId, r.rcName, source))
  }

  ghost function DnsDataHit(rules: seq<RouteRule>, domain: string, q: Query): Dns.DnsRecord -> Option<RoutePlan> {
    (rec: Dns.DnsRecord) =>
      match Dns.HostIp(domain)(rec)
      case None => None
      case Some(ip) => IpRulePlan(rules, q, DnsDataIpRule)(ip)
  }

  function ExtraPlan(q: Query): RoutePlan {
    Remote(HostPort(q.host, q.port), 0, "--extra", ExtraIp)
  }

  function SourceOf(source: ResolveSource): RouteSource {
    match source
    case Cache => DnsServerCache
    case Server(server) => DnsServerQuery(server)
  }

  function IpRuleSourceOf(source: ResolveSource): RouteSource {
    match source
    case Cache => DnsServerIpRuleCache
    case Server(server) => DnsServerIpRuleQuery(server)
  }

  function CnameSource(source: RouteSource): RouteSource {
    match source
    case DnsMap => CnameDnsMap
    case DnsServerCache => CnameDnsServerCache
    case DnsServerQuery(server) => CnameDnsServerQuery(server)
    case other => other
  }

  function AsCname(plan: RoutePlan): RoutePlan {
    match plan
    case Remote(dial, rcId, rcName, source) => Remote(dial, rcId, rcName, CnameSource(source))
    case other => other
  }

  /** A rule matched by name: its recorded address, else the DNS servers, else give up. */
  ghost function NaiveWithDomainRule(cfg: Config, c: Caches, rule: CompiledRule, q: Query, domain: string, net: Network)
    : (RoutePlan, Caches)
  {
    match FirstSome(cfg.table.dnsRecords, Dns.ScopedIp(rule.rcId, domain))
    case Some(ip) => (Remote(HostPort(PrintIpv4(ip), q.port), rule.rcId, rule.rcName, DnsMap), c)
    case None =>
      if cfg.Servers() == [] then (Fallback(HostPort(q.host, q.port), NoDnsServer(rule.rcId)), c)
      else
        var (r, c') := ResolveFirst(c, rule.rcId, domain, cfg.Servers(), net);
        match r
        case Ok(resolved) =>
          (Remote(HostPort(PrintIpv4(resolved.ip), q.port), rule.rcId, rule.rcName, SourceOf(resolved.source)), c')
        case Err(_) => (Fallback(HostPort(q.host, q.port), LookupFailed(rule.rcId)), c')
  }

  /** The rule that an alias matches by name. */
  ghost function AliasHit(rules: seq<RouteRule>, q: Query): string -> Option<(string, CompiledRule)> {
    (alias: string) => AliasRule(rules, q, AliasName(alias))
  }

  /** An alias is looked up by its normalised name, unless that is empty or an address. */
  function AliasName(alias: string): Option<string> {
    var name := NormalizeDomain(alias);
    if name == "" || ParseIpv4(name).Some? then None else Some(name)
  }

  ghost function AliasRule(rules: seq<RouteRule>, q: Query, name: Option<string>): Option<(string, CompiledRule)> {
    if name.None? then None
    else
      var rule := FirstRawMatch(rules, DomainTarget(name.value), q.port, q.flow);
      if rule.None? then None else Some((name.value, rule.value))
  }

  /** Rules reached through the aliases and addresses that the DNS servers report. */
  ghost function NaiveDerived(cfg: Config, c: Caches, q: Query, domain: string, net: Network)
    : (Option<RoutePlan>, Caches)
  {
    if cfg.Servers() == [] then (None, c)
    else
      var (r, c') := ResolveLookup(c, domain, cfg.Servers(), net);
      if r.Err? then (None, c') else NaiveReported(cfg, c', q, r.value, net)
  }

  /** The first alias that a rule names, else the first reported address that a rule admits. */
  ghost function NaiveReported(cfg: Config, c: Caches, q: Query, r: LookupResolved, net: Network)
    : (Option<RoutePlan>, Caches)
  {
    var found: Option<(string, CompiledRule)> := FirstSome(r.aliases, AliasHit(cfg.table.rules, q));
    if found.Some? then
      var (plan, c') := NaiveWithDomainRule(cfg, c, found.value.1, q, found.value.0, net);
      (Some(AsCname(plan)), c')
    else (FirstSome(r.ips, IpRulePlan(cfg.table.rules, q, IpRuleSourceOf(r.source))), c)
  }

  ghost function NaiveSystem(cfg: Config, q: Query, ip: Option<Ipv4>): Option<RoutePlan> {
    if ip.None? then None
    else if IpRulePlan(cfg.table.rules, q, RuleIp)(ip.value).Some? then IpRulePlan(cfg.table.rules, q, RuleIp)(ip.value)
    else if IsExtra(cfg.extras, ip.value) then Some(ExtraPlan(q))
    else None
  }

  ghost function NaiveForIp(cfg: Config, q: Query, ip: Ipv4): RoutePlan {
    match NaiveSystem(cfg, q, Some(ip))
    case Some(plan) => plan
    case None => Fallback(HostPort(q.host, q.port), NoRuleMatched)
  }

  ghost function NaiveForDomain(cfg: Config, c: Caches, q: Query, domain: string, net: Network): (RoutePlan, Caches) {
    match FirstRawMatch(cfg.table.rules, DomainTarget(domain), q.port, q.flow)
    case Some(rule) => NaiveWithDomainRule(cfg, c, rule, q, domain, net)
    case None =>
      match FirstSome(cfg.table.dnsRecords, DnsDataHit(cfg.table.rules, domain, q))
      case Some(plan) => (plan, c)
      case None =>
        var (derived, c') := NaiveDerived(cfg, c, q, domain, net);
        if derived.Some? then (derived.value, c')
        else
          match NaiveSystem(cfg, q, net.system(domain))
          case Some(plan) => (plan, c')
          case None => (Fallback(HostPort(q.host, q.port), NoRuleMatched), c')
  }

  /** The plan and the caches afterwards, from the raw table alone. */
  ghost function NaivePlan(cfg: Config, c: Caches, q: Query, net: Network): (RoutePlan, Caches) {
    match ParseTarget(q.host)
    case Ipv4Target(ip) => (NaiveForIp(cfg, q, ip), c)
    case DomainTarget(domain) => NaiveForDomain(cfg, c, q, domain, net)
  }

  // ---------------------------------------------------------------- the compiled table

  method NormalizeDnsServers(servers: seq<string>, parser: AddrParser) returns (out: seq<SocketAddr>)
    ensures out == Distinct(servers, ParseServer(parser))
  {
    out := [];
    var seen: set<SocketAddr> := {};
    for n := 0 to |servers|
      invariant out == Distinct(servers[..n], ParseServer(parser))
      invariant forall a :: a in seen <==> a in out
    {
      DistinctNext(servers, n, ParseServer(parser));
      var addr := ParseServer(parser)(servers[n]);
      if addr.Some? && addr.value !in seen {
        seen := seen + {addr.value};
        out := out + [addr.value];
      }
    }
    assert servers[..|servers|] == servers;
  }

  datatype RouteMatcher = RouteMatcher(
    rules: seq<CompiledRule>,
    index: RuleIndex,
    dns: Dns.Index,
    dnsServers: seq<SocketAddr>,
    extraMatchers: seq<HostMatcher>)
  {
    /** The matcher is what the given configuration compiles to. */
    ghost predicate Represents(cfg: Config) {
      && rules == Compiled(cfg.table.rules)
      && Indexes(index, rules)
      && Dns.IndexesRecords(dns, cfg.table.dnsRecords)
      && dnsServers == Distinct(cfg.table.dnsServers, ParseServer(cfg.parser))
      && extraMatchers == FilterMap(cfg.extras, ParseExtraIp)
    }

    static method FromTable(cfg: Config) returns (m: RouteMatcher)
      ensures m.Represents(cfg)
      ensures m.dns.recordCount == Dns.StoredCount(m.dns.scoped)
    {
      var rules := CompileRules(cfg.table.rules);
      var index := BuildIndex(rules);
      var dns := Dns.BuildIndex(cfg.table.dnsRecords);
      var servers := NormalizeDnsServers(cfg.table.dnsServers, cfg.parser);
      var extras := Collect(cfg.extras, ParseExtraIp);
      m := RouteMatcher(rules, index, dns, servers, extras);
    }

    method FindRule(ghost cfg: Config, target: Target, q: Query) returns (rule: Option<CompiledRule>)
      requires Represents(cfg)
      ensures rule == FirstRawMatch(cfg.table.rules, target, q.port, q.flow)
    {
      rule := FindFirstMatch(index, rules, target, q.port, q.flow);
      CompilationPreservesSearch(cfg.table.rules, target, q.port, q.flow);
    }

    method PlanFromIps(ghost cfg: Config, q: Query, ips: seq<Ipv4>, source: RouteSource)
      returns (plan: Option<RoutePlan>)
      requires Represents(cfg)
      ensures plan == FirstSome(ips, IpRulePlan(cfg.table.rules, q, source))
    {
      ghost var hit := IpRulePlan(cfg.table.rules, q, source);
      for n := 0 to |ips|
        invariant FirstSome(ips[..n], hit) == None
      {
        FirstSomeExtend(ips, n, hit);
        var rule := FindRule(cfg, Ipv4Target(ips[n]), q);
        if rule.Some? {
          return ViaRule(rule, ips[n], q.port, source);
        }
      }
      assert ips[..|ips|] == ips;
      plan := None;
    }

    /** Succeeds exactly on the union of the extra entries, whatever their order. */
    method HasExtra(ghost cfg: Config, ip: Ipv4) returns (hit: bool)
      requires Represents(cfg)
      ensures hit <==> IsExtra(cfg.extras, ip)
    {
      AnyAnswerFilterMap(cfg.extras, ParseExtraIp, Holds(ip));
      hit := AnySatisfies(extraMatchers, Holds(ip));
    }

    method PlanWithDomainRule(ghost cfg: Config, resolver: Resolver, rule: CompiledRule, q: Query, domain: string,
                              net: Network)
      returns (plan: RoutePlan)
      requires Represents(cfg)
      modifies resolver
      ensures (plan, resolver.State()) == NaiveWithDomainRule(cfg, old(resolver.State()), rule, q, domain, net)
    {
      DistinctHead(cfg.table.dnsRecords, Dns.ScopedIp(rule.rcId, domain));
      DistinctHead(cfg.table.dnsServers, ParseServer(cfg.parser));
      DuplicateServersAreInvisible(resolver.State(), rule.rcId, domain, cfg.Servers(), net);
      FirstOccurrencesMembers(cfg.Servers());
      assert dnsServers == [] <==> cfg.Servers() == [] by {
        if cfg.Servers() != [] {
          assert cfg.Servers()[0] in dnsServers;
        }
      }
      var ips := Dns.ScopedAt(dns.scoped, rule.rcId, domain);
      if ips != [] {
        return Remote(HostPort(PrintIpv4(ips[0]), q.port), rule.rcId, rule.rcName, DnsMap);
      }
      if dnsServers == [] {
        return Fallback(HostPort(q.host, q.port), NoDnsServer(rule.rcId));
      }
      var r := resolver.ResolveFirstIpv4(rule.rcId, domain, dnsServers, net);
      match r {
        case Ok(resolved) =>
          plan := Remote(HostPort(PrintIpv4(resolved.ip), q.port), rule.rcId, rule.rcName, SourceOf(resolved.source));
        case Err(_) =>
          plan := Fallback(HostPort(q.host, q.port), LookupFailed(rule.rcId));
      }
    }

    method FindAliasRule(ghost cfg: Config, q: Query, aliases: seq<string>)
      returns (found: Option<(string, CompiledRule)>)
      requires Represents(cfg)
      ensures found == FirstSome(aliases, AliasHit(cfg.table.rules, q))
    {
      ghost var hit := AliasHit(cfg.table.rules, q);
      for n := 0 to |aliases|
        invariant FirstSome(aliases[..n], hit) == None
      {
        FirstSomeExtend(aliases, n, hit);
        var name := AliasName(aliases[n]);
        if name.Some? {
          var rule := FindRule(cfg, DomainTarget(name.value), q);
          if rule.Some? {
            return Some((name.value, rule.value));
          }
        }
      }
      assert aliases[..|aliases|] == aliases;
      found := None;
    }

    method PlanDerived(ghost cfg: Config, resolver: Resolver, q: Query, domain: string, net: Network)
      returns (plan: Option<RoutePlan>)
      requires Represents(cfg)
      modifies resolver
      ensures (plan, resolver.State()) == NaiveDerived(cfg, old(resolver.State()), q, domain, net)
    {
      DuplicateServersAreInvisible(resolver.State(), 0, domain, cfg.Servers(), net);
      FirstOccurrencesMembers(cfg.Servers());
      assert dnsServers == [] <==> cfg.Servers() == [] by {
        if cfg.Servers() != [] {
          assert cfg.Servers()[0] in dnsServers;
        }
      }
      if dnsServers == [] {
        return None;
      }
      var r := resolver.ResolveAny(domain, dnsServers, net);
      if r.Err? {
        return None;
      }
      plan := PlanReported(cfg, resolver, q, r.value, net);
    }

    method PlanReported(ghost cfg: Config, resolver: Resolver, q: Query, r: LookupResolved, net: Network)
      returns (plan: Option<RoutePlan>)
      requires Represents(cfg)
      modifies resolver
      ensures (plan, resolver.State()) == NaiveReported(cfg, old(resolver.State()), q, r, net)
    {
      var found := FindAliasRule(cfg, q, r.aliases);
      if found.Some? {
        var direct := PlanWithDomainRule(cfg, resolver, found.value.1, q, found.value.0, net);
        return Some(AsCname(direct));
      }
      plan := PlanFromIps(cfg, q, r.ips, IpRuleSourceOf(r.source));
    }

    method PlanForKnownIp(ghost cfg: Config, q: Query, ip: Ipv4) returns (plan: Option<RoutePlan>)
      requires Represents(cfg)
      ensures plan == NaiveSystem(cfg, q, Some(ip))
    {
      var rule := FindRule(cfg, Ipv4Target(ip), q);
      if rule.Some? {
        return ViaRule(rule, ip, q.port, RuleIp);
      }
      var extra := HasExtra(cfg, ip);
      plan := if extra then Some(ExtraPlan(q)) else None;
    }

    method PlanDnsData(ghost cfg: Config, q: Query, domain: string) returns (plan: Option<RoutePlan>)
      requires Represents(cfg)
      ensures plan == FirstSome(cfg.table.dnsRecords, DnsDataHit(cfg.table.rules, domain, q))
    {
      ghost var records := cfg.table.dnsRecords;
      ghost var hit := IpRulePlan(cfg.table.rules, q, DnsDataIpRule);
      plan := PlanFromIps(cfg, q, Dns.ListAt(dns.exact, domain), DnsDataIpRule);
      FirstSomeDedup(FilterMap(records, Dns.HostIp(domain)), hit);
      FirstSomeFusion(records, Dns.HostIp(domain), hit, DnsDataHit(cfg.table.rules, domain, q));
    }

    /** The indexed, de-duplicated, cached planner makes the plan of the naive one. */
    method Plan(ghost cfg: Config, resolver: Resolver, q: Query, net: Network) returns (plan: RoutePlan)
      requires Represents(cfg)
      modifies resolver
      ensures (plan, resolver.State()) == NaivePlan(cfg, old(resolver.State()), q, net)
    {
      var fallback := Fallback(HostPort(q.host, q.port), NoRuleMatched);
      match ParseTarget(q.host) {
        case Ipv4Target(ip) =>
          var known := PlanForKnownIp(cfg, q, ip);
          plan := if known.Some? then known.value else fallback;
        case DomainTarget(domain) =>
          plan := PlanDomain(cfg, resolver, q, domain, net);
      }
    }

    method PlanDomain(ghost cfg: Config, resolver: Resolver, q: Query, domain: string, net: Network)
      returns (plan: RoutePlan)
      requires Represents(cfg)
      modifies resolver
      ensures (plan, resolver.State()) == NaiveForDomain(cfg, old(resolver.State()), q, domain, net)
    {
      var rule := FindRule(cfg, DomainTarget(domain), q);
      if rule.Some? {
        plan := PlanWithDomainRule(cfg, resolver, rule.value, q, domain, net);
        return;
      }
      var dnsData := PlanDnsData(cfg, q, domain);
      if dnsData.Some? {
        return dnsData.value;
      }
      var derived := PlanDerived(cfg, resolver, q, domain, net);
      if derived.Some? {
        return derived.value;
      }
      var ip := net.system(domain);
      if ip.Some? {
        var known := PlanForKnownIp(cfg, q, ip.value);
        if known.Some? {
          return known.value;
        }
      }
      plan := Fallback(HostPort(q.host, q.port), NoRuleMatched);
    }
  }
}
