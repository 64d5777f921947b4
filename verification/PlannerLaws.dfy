/** What the plans of the route planner mean for the raw table. */
module PlannerLaws {
  import opened Prelude
  import opened Sequences
  import opened Text
  import opened Rules
  import opened DnsResolver
  import opened Planner
  import Dns = DnsIndexes

  /** An address literal goes through the tunnel exactly when a rule applies to it or it is an
      extra address; DNS plays no part. */
  lemma AddressPlan(cfg: Config, c: Caches, q: Query, net: Network, ip: Ipv4)
    requires ParseTarget(q.host) == Ipv4Target(ip)
    ensures var (plan, c') := NaivePlan(cfg, c, q, net);
            && c' == c
            && (plan.Remote? <==>
                SomeRuleApplies(cfg.table.rules, Ipv4Target(ip), q.port, q.flow) || IsExtra(cfg.extras, ip))
            && (plan.Fallback? ==> plan == Fallback(HostPort(q.host, q.port), NoRuleMatched))
  {
    SearchSucceedsIff(cfg.table.rules, Ipv4Target(ip), q.port, q.flow);
  }

  // ---------------------------------------------------------------- the first stage

  lemma DomainRulePlanShape(cfg: Config, c: Caches, rule: CompiledRule, q: Query, domain: string, net: Network)
    ensures match NaiveWithDomainRule(cfg, c, rule, q, domain, net).0
            case Remote(_, rcId, rcName, source) =>
              rcId == rule.rcId && rcName == rule.rcName
              && (source.DnsMap? || source.DnsServerCache? || source.DnsServerQuery?)
            case Fallback(target, reason) =>
              target == HostPort(q.host, q.port)
              && (reason == NoDnsServer(rule.rcId) || reason == LookupFailed(rule.rcId))
  {
  }

  /** The same table with other rules and extra addresses. */
  function Varied(cfg: Config, rules: seq<RouteRule>, extras: seq<string>): Config {
    cfg.(table := cfg.table.(rules := rules), extras := extras)
  }

  /** A plan by name rule depends on that rule, the DNS data, the servers' answers and the clock only. */
  lemma DomainRulePlanScope(cfg: Config, c: Caches, rule: CompiledRule, q: Query, domain: string, net: Network,
                            rules: seq<RouteRule>, extras: seq<string>, system: string -> Option<Ipv4>)
    ensures NaiveWithDomainRule(Varied(cfg, rules, extras), c, rule, q, domain, net.(system := system))
            == NaiveWithDomainRule(cfg, c, rule, q, domain, net)
  {
    assert Varied(cfg, rules, extras).Servers() == cfg.Servers();
    assert ResolveFirst(c, rule.rcId, domain, cfg.Servers(), net.(system := system))
           == ResolveFirst(c, rule.rcId, domain, cfg.Servers(), net);
  }

  /** Once a rule matches the host name, the first stage decides alone, even when the plan is to fall
      back: the extra list, the system resolver and any other rules that leave this rule the first
      to match can be exchanged without a trace. */
  lemma DomainRuleCommits(cfg: Config, c: Caches, q: Query, net: Network, domain: string, rule: CompiledRule,
                          rules: seq<RouteRule>, extras: seq<string>, system: string -> Option<Ipv4>)
    requires ParseTarget(q.host) == DomainTarget(domain)
    requires FirstRawMatch(cfg.table.rules, DomainTarget(domain), q.port, q.flow) == Some(rule)
    requires FirstRawMatch(rules, DomainTarget(domain), q.port, q.flow) == Some(rule)
    ensures var (plan, _) := NaivePlan(cfg, c, q, net);
            match plan
            case Remote(_, rcId, rcName, source) =>
              rcId == rule.rcId && rcName == rule.rcName
              && (source.DnsMap? || source.DnsServerCache? || source.DnsServerQuery?)
            case Fallback(_, reason) => reason == NoDnsServer(rule.rcId) || reason == LookupFailed(rule.rcId)
    ensures NaivePlan(Varied(cfg, rules, extras), c, q, net.(system := system)) == NaivePlan(cfg, c, q, net)
  {
    DomainRulePlanShape(cfg, c, rule, q, domain, net);
    DomainRulePlanScope(cfg, c, rule, q, domain, net, rules, extras, system);
  }

  // ---------------------------------------------------------------- why a plan goes remote

  /** A rule of the raw table with this identity covers the target and admits the query. */
  ghost predicate Licensed(rules: seq<RouteRule>, target: Target, q: Query, rcId: i32, rcName: string) {
    exists raw :: raw in rules && raw.rcId == rcId && raw.name == rcName && RawApplies(raw, target, q.port, q.flow)
  }

  /** The plan dials `ip`, and a rule that covers this address permits it. */
  ghost predicate ByAddress(cfg: Config, q: Query, plan: RoutePlan, ip: Ipv4) {
    && plan.Remote? && plan.dial == HostPort(PrintIpv4(ip), q.port)
    && Licensed(cfg.table.rules, Ipv4Target(ip), q, plan.rcId, plan.rcName)
  }

  /** `ip` is what `source` has for the name under the rc id: the first record, the live cache
      entry, or the server's first address. */
  ghost predicate KnownFor(cfg: Config, c: Caches, net: Network, rcId: i32, name: string, source: RouteSource,
                           ip: Ipv4)
  {
    match source
    case DnsMap => FirstSome(cfg.table.dnsRecords, Dns.ScopedIp(rcId, name)) == Some(ip)
    case DnsServerCache => CachedFirst(c, CacheKey(rcId, name), net.at.firstGet) == Some(ip)
    case DnsServerQuery(server) => server in cfg.Servers() && AskFirst(net.ask, name)(server) == Some((server, ip))
    case _ => false
  }

  /** The plan dials an address known for `name`, and a rule that covers this name permits it. */
  ghost predicate ByName(cfg: Config, c: Caches, q: Query, net: Network, plan: RoutePlan, name: string,
                         source: RouteSource, ip: Ipv4)
  {
    && plan.Remote? && plan.dial == HostPort(PrintIpv4(ip), q.port)
    && Licensed(cfg.table.rules, DomainTarget(name), q, plan.rcId, plan.rcName)
    && KnownFor(cfg, c, net, plan.rcId, name, source, ip)
  }

  /** What the live lookup entry of the name holds, or what a server answers for the name. */
  ghost predicate Reports(cfg: Config, c: Caches, net: Network, domain: string, r: LookupResolved) {
    match r.source
    case Cache =>
      var entry := CachedLookup(c, NormalizeDomain(domain), net.at.lookupGet);
      entry.Some? && entry.value.aliases == r.aliases && entry.value.ips == r.ips
    case Server(server) =>
      && server in cfg.Servers() && net.ask(domain, server).Some?
      && r.aliases == AliasesOf(net.ask(domain, server).value) && r.ips == Ipv4sOf(net.ask(domain, server).value)
  }

  ghost predicate ByReportedAddress(cfg: Config, c: Caches, q: Query, net: Network, plan: RoutePlan, domain: string,
                                    r: LookupResolved, ip: Ipv4)
  {
    && Reports(cfg, c, net, domain, r) && ip in r.ips
    && plan.Remote? && plan.source == IpRuleSourceOf(r.source) && ByAddress(cfg, q, plan, ip)
  }

  ghost predicate ByReportedAlias(cfg: Config, c: Caches, q: Query, net: Network, plan: RoutePlan, domain: string,
                                  r: LookupResolved, alias: string, ip: Ipv4)
  {
    && Reports(cfg, c, net, domain, r) && alias in r.aliases && AliasName(alias).Some?
    && plan.Remote? && ByName(cfg, c, q, net, plan, AliasName(alias).value, DirectSource(plan.source), ip)
  }

  /** The source of the direct plan behind a plan by alias. */
  function DirectSource(source: RouteSource): RouteSource {
    match source
    case CnameDnsMap => DnsMap
    case CnameDnsServerCache => DnsServerCache
    case CnameDnsServerQuery(server) => DnsServerQuery(server)
    case other => other
  }

  /** The address that the query itself stands for: its literal, or what the system resolver gives. */
  function OwnAddress(q: Query, net: Network): Option<Ipv4> {
    match ParseTarget(q.host)
    case Ipv4Target(ip) => Some(ip)
    case DomainTarget(domain) => net.system(domain)
  }

  /** Why a plan for a name is remote, source by source. */
  ghost predicate JustifiedByName(cfg: Config, c: Caches, q: Query, net: Network, plan: RoutePlan, domain: string)
    requires plan.Remote?
  {
    match plan.source
    case DnsMap => exists ip :: ByName(cfg, c, q, net, plan, domain, plan.source, ip)
    case DnsServerCache => exists ip :: ByName(cfg, c, q, net, plan, domain, plan.source, ip)
    case DnsServerQuery(_) => exists ip :: ByName(cfg, c, q, net, plan, domain, plan.source, ip)
    case CnameDnsMap => exists r, alias, ip :: ByReportedAlias(cfg, c, q, net, plan, domain, r, alias, ip)
    case CnameDnsServerCache => exists r, alias, ip :: ByReportedAlias(cfg, c, q, net, plan, domain, r, alias, ip)
    case CnameDnsServerQuery(_) => exists r, alias, ip :: ByReportedAlias(cfg, c, q, net, plan, domain, r, alias, ip)
    case DnsDataIpRule =>
      exists rec :: rec in cfg.table.dnsRecords && Dns.HostIp(domain)(rec).Some?
                    && ByAddress(cfg, q, plan, Dns.HostIp(domain)(rec).value)
    case DnsServerIpRuleCache => exists r, ip :: ByReportedAddress(cfg, c, q, net, plan, domain, r, ip)
    case DnsServerIpRuleQuery(_) => exists r, ip :: ByReportedAddress(cfg, c, q, net, plan, domain, r, ip)
    case _ => false
  }

  /** Every remote plan dials an address of the query, and a raw rule that covers the dialled address
      or the name it was found under, admits the query and has the plan's identity permits it; or
      the query's own address is on the extra list. */
  ghost predicate Justified(cfg: Config, c: Caches, q: Query, net: Network, plan: RoutePlan) {
    plan.Remote? ==>
      if plan.source == RuleIp then
        OwnAddress(q, net).Some? && ByAddress(cfg, q, plan, OwnAddress(q, net).value)
      else if plan.source == ExtraIp then
        OwnAddress(q, net).Some? && plan == ExtraPlan(q) && IsExtra(cfg.extras, OwnAddress(q, net).value)
      else
        ParseTarget(q.host).DomainTarget? && JustifiedByName(cfg, c, q, net, plan, ParseTarget(q.host).name)
  }

  lemma SearchLicenses(rules: seq<RouteRule>, target: Target, q: Query)
    ensures var found := FirstRawMatch(rules, target, q.port, q.flow);
            found.Some? ==> Licensed(rules, target, q, found.value.rcId, found.value.rcName)
  {
    if FirstRawMatch(rules, target, q.port, q.flow).Some? {
      var raw := FirstSomeMember(rules, RawHit(target, q.port, q.flow));
      assert RawApplies(raw, target, q.port, q.flow);
    }
  }

  lemma IpRulePlanByAddress(cfg: Config, q: Query, source: RouteSource, ip: Ipv4)
    ensures var plan := IpRulePlan(cfg.table.rules, q, source)(ip);
            plan.Some? ==> ByAddress(cfg, q, plan.value, ip) && plan.value.source == source
  {
    SearchLicenses(cfg.table.rules, Ipv4Target(ip), q);
  }

  lemma SystemPlanJustified(cfg: Config, c: Caches, q: Query, net: Network)
    ensures var plan := NaiveSystem(cfg, q, OwnAddress(q, net));
            plan.Some? ==> Justified(cfg, c, q, net, plan.value)
  {
    if OwnAddress(q, net).Some? {
      IpRulePlanByAddress(cfg, q, RuleIp, OwnAddress(q, net).value);
    }
  }

  /** The address of a plan by name rule, and where it came from. */
  lemma ResolvedIsKnown(cfg: Config, c: Caches, rcId: i32, name: string, net: Network)
    ensures var (r, _) := ResolveFirst(c, rcId, name, cfg.Servers(), net);
            r.Ok? ==> KnownFor(cfg, c, net, rcId, name, SourceOf(r.value.source), r.value.ip)
  {
    var found: Option<(SocketAddr, Ipv4)> := FirstSome(cfg.Servers(), AskFirst(net.ask, name));
    if found.Some? {
      var server := FirstSomeMember(cfg.Servers(), AskFirst(net.ask, name));
    }
  }

  /** The plan dials an address that its source has for the name. */
  ghost predicate Dials(cfg: Config, c: Caches, q: Query, net: Network, plan: RoutePlan, name: string, ip: Ipv4) {
    && plan.Remote? && plan.dial == HostPort(PrintIpv4(ip), q.port)
    && KnownFor(cfg, c, net, plan.rcId, name, plan.source, ip)
  }

  lemma DomainRulePlanDials(cfg: Config, c: Caches, rule: CompiledRule, q: Query, name: string, net: Network)
    returns (ip: Ipv4)
    ensures var plan := NaiveWithDomainRule(cfg, c, rule, q, name, net).0;
            plan.Remote? ==>
              Dials(cfg, c, q, net, plan, name, ip) && plan.rcId == rule.rcId && plan.rcName == rule.rcName
  {
    var recorded := FirstSome(cfg.table.dnsRecords, Dns.ScopedIp(rule.rcId, name));
    if recorded.Some? {
      ip := recorded.value;
    } else if cfg.Servers() == [] {
      ip := 0;
    } else {
      var r := ResolveFirst(c, rule.rcId, name, cfg.Servers(), net).0;
      ip := if r.Ok? then r.value.ip else 0;
      if r.Ok? {
        ResolvedIsKnown(cfg, c, rule.rcId, name, net);
      }
    }
  }

  lemma DirectPlanJustified(cfg: Config, c: Caches, q: Query, net: Network, plan: RoutePlan, domain: string, ip: Ipv4)
    requires ParseTarget(q.host) == DomainTarget(domain) && Dials(cfg, c, q, net, plan, domain, ip)
    requires Licensed(cfg.table.rules, DomainTarget(domain), q, plan.rcId, plan.rcName)
    ensures Justified(cfg, c, q, net, plan)
  {
    assert ByName(cfg, c, q, net, plan, domain, plan.source, ip);
  }

  lemma AliasPlanJustified(cfg: Config, c: Caches, q: Query, net: Network, plan: RoutePlan, domain: string,
                           r: LookupResolved, alias: string, ip: Ipv4)
    requires ParseTarget(q.host) == DomainTarget(domain) && Reports(cfg, c, net, domain, r)
    requires alias in r.aliases && AliasName(alias).Some? && Dials(cfg, c, q, net, plan, AliasName(alias).value, ip)
    requires Licensed(cfg.table.rules, DomainTarget(AliasName(alias).value), q, plan.rcId, plan.rcName)
    ensures Justified(cfg, c, q, net, AsCname(plan))
  {
    assert ByName(cfg, c, q, net, AsCname(plan), AliasName(alias).value, plan.source, ip);
    assert ByReportedAlias(cfg, c, q, net, AsCname(plan), domain, r, alias, ip);
  }

  lemma DnsDataPlanJustified(cfg: Config, c: Caches, q: Query, net: Network, domain: string)
    requires ParseTarget(q.host) == DomainTarget(domain)
    ensures var plan := FirstSome(cfg.table.dnsRecords, DnsDataHit(cfg.table.rules, domain, q));
            plan.Some? ==> plan.value.Remote? && Justified(cfg, c, q, net, plan.value)
  {
    if FirstSome(cfg.table.dnsRecords, DnsDataHit(cfg.table.rules, domain, q)).Some? {
      var rec := FirstSomeMember(cfg.table.dnsRecords, DnsDataHit(cfg.table.rules, domain, q));
      assert Dns.HostIp(domain)(rec).Some?;
      IpRulePlanByAddress(cfg, q, DnsDataIpRule, Dns.HostIp(domain)(rec).value);
    }
  }

  lemma LookupReports(cfg: Config, c: Caches, domain: string, net: Network)
    ensures var (r, c') := ResolveLookup(c, domain, cfg.Servers(), net);
            (r.Ok? ==> Reports(cfg, c, net, domain, r.value)) && c'.first == c.first
  {
    var found: Option<(SocketAddr, seq<Answer>)> := FirstSome(cfg.Servers(), AskAny(net.ask, domain));
    if found.Some? {
      var server := FirstSomeMember(cfg.Servers(), AskAny(net.ask, domain));
    }
  }

  lemma DialsDependsOnFirst(cfg: Config, c: Caches, c': Caches, q: Query, net: Network, plan: RoutePlan,
                            name: string, ip: Ipv4)
    requires c'.first == c.first && Dials(cfg, c', q, net, plan, name, ip)
    ensures Dials(cfg, c, q, net, plan, name, ip)
  {
  }

  lemma ReportedPlanJustified(cfg: Config, c: Caches, c': Caches, q: Query, net: Network, domain: string,
                              r: LookupResolved)
    requires ParseTarget(q.host) == DomainTarget(domain) && Reports(cfg, c, net, domain, r) && c'.first == c.first
    ensures var plan := NaiveReported(cfg, c', q, r, net).0;
            plan.Some? ==> Justified(cfg, c, q, net, plan.value)
  {
    var found: Option<(string, CompiledRule)> := FirstSome(r.aliases, AliasHit(cfg.table.rules, q));
    var hit := IpRulePlan(cfg.table.rules, q, IpRuleSourceOf(r.source));
    if found.Some? {
      var alias := FirstSomeMember(r.aliases, AliasHit(cfg.table.rules, q));
      var (name, rule) := found.value;
      SearchLicenses(cfg.table.rules, DomainTarget(name), q);
      var ip := DomainRulePlanDials(cfg, c', rule, q, name, net);
      var direct := NaiveWithDomainRule(cfg, c', rule, q, name, net).0;
      if direct.Remote? {
        DialsDependsOnFirst(cfg, c, c', q, net, direct, name, ip);
        AliasPlanJustified(cfg, c, q, net, direct, domain, r, alias, ip);
      }
    } else if FirstSome(r.ips, hit).Some? {
      var ip := FirstSomeMember(r.ips, hit);
      IpRulePlanByAddress(cfg, q, IpRuleSourceOf(r.source), ip);
      assert ByReportedAddress(cfg, c, q, net, hit(ip).value, domain, r, ip);
    }
  }

  lemma DerivedPlanJustified(cfg: Config, c: Caches, q: Query, net: Network, domain: string)
    requires ParseTarget(q.host) == DomainTarget(domain)
    ensures var plan := NaiveDerived(cfg, c, q, domain, net).0;
            plan.Some? ==> Justified(cfg, c, q, net, plan.value)
  {
    LookupReports(cfg, c, domain, net);
    var (r, c') := ResolveLookup(c, domain, cfg.Servers(), net);
    if r.Ok? {
      ReportedPlanJustified(cfg, c, c', q, net, domain, r.value);
    }
  }

  lemma DomainPlanJustified(cfg: Config, c: Caches, q: Query, net: Network, domain: string)
    requires ParseTarget(q.host) == DomainTarget(domain)
    ensures Justified(cfg, c, q, net, NaiveForDomain(cfg, c, q, domain, net).0)
  {
    var rule := FirstRawMatch(cfg.table.rules, DomainTarget(domain), q.port, q.flow);
    if rule.Some? {
      SearchLicenses(cfg.table.rules, DomainTarget(domain), q);
      var ip := DomainRulePlanDials(cfg, c, rule.value, q, domain, net);
      var plan := NaiveWithDomainRule(cfg, c, rule.value, q, domain, net).0;
      if plan.Remote? {
        DirectPlanJustified(cfg, c, q, net, plan, domain, ip);
      }
    } else {
      DnsDataPlanJustified(cfg, c, q, net, domain);
      DerivedPlanJustified(cfg, c, q, net, domain);
      SystemPlanJustified(cfg, c, q, net);
    }
  }

  /** Nothing goes through the tunnel without permission. */
  lemma RemotePlansAreJustified(cfg: Config, c: Caches, q: Query, net: Network)
    ensures Justified(cfg, c, q, net, NaivePlan(cfg, c, q, net).0)
  {
    var target := ParseTarget(q.host);
    if target.Ipv4Target? {
      SystemPlanJustified(cfg, c, q, net);
    } else {
      DomainPlanJustified(cfg, c, q, net, target.name);
    }
  }

  // ---------------------------------------------------------------- why a plan is unmatched

  predicate Unmatched(q: Query, plan: RoutePlan) {
    plan == Fallback(HostPort(q.host, q.port), NoRuleMatched)
  }

  ghost predicate AddressAdmitted(cfg: Config, q: Query, ip: Ipv4) {
    SomeRuleApplies(cfg.table.rules, Ipv4Target(ip), q.port, q.flow)
  }

  ghost predicate RecordAdmitted(cfg: Config, q: Query, domain: string) {
    exists rec :: rec in cfg.table.dnsRecords && Dns.HostIp(domain)(rec).Some?
                  && AddressAdmitted(cfg, q, Dns.HostIp(domain)(rec).value)
  }

  ghost predicate AliasAdmitted(cfg: Config, q: Query, alias: string) {
    && AliasName(alias).Some?
    && SomeRuleApplies(cfg.table.rules, DomainTarget(AliasName(alias).value), q.port, q.flow)
  }

  /** A rule names a reported alias or covers a reported address. */
  ghost predicate ReportAdmitted(cfg: Config, q: Query, r: LookupResolved) {
    || (exists alias :: alias in r.aliases && AliasAdmitted(cfg, q, alias))
    || (exists ip :: ip in r.ips && AddressAdmitted(cfg, q, ip))
  }

  /** What the DNS servers report for the name, if they are asked and one answers. */
  ghost function Report(cfg: Config, c: Caches, net: Network, domain: string): Option<LookupResolved> {
    if cfg.Servers() == [] then None
    else match ResolveLookup(c, domain, cfg.Servers(), net).0 case Ok(r) => Some(r) case Err(_) => None
  }

  ghost predicate SystemAdmitted(cfg: Config, q: Query, ip: Option<Ipv4>) {
    ip.Some? && (AddressAdmitted(cfg, q, ip.value) || IsExtra(cfg.extras, ip.value))
  }

  lemma RecordStageIff(cfg: Config, q: Query, domain: string)
    ensures FirstSome(cfg.table.dnsRecords, DnsDataHit(cfg.table.rules, domain, q)).Some? <==>
              RecordAdmitted(cfg, q, domain)
  {
    var hit := DnsDataHit(cfg.table.rules, domain, q);
    FirstSomeNone(cfg.table.dnsRecords, hit);
    forall rec ensures hit(rec).Some? <==>
                         Dns.HostIp(domain)(rec).Some? && AddressAdmitted(cfg, q, Dns.HostIp(domain)(rec).value)
    {
      if Dns.HostIp(domain)(rec).Some? {
        SearchSucceedsIff(cfg.table.rules, Ipv4Target(Dns.HostIp(domain)(rec).value), q.port, q.flow);
      }
    }
  }

  lemma AliasStageIff(cfg: Config, q: Query, aliases: seq<string>)
    ensures FirstSome<string, (string, CompiledRule)>(aliases, AliasHit(cfg.table.rules, q)).Some? <==>
              exists alias :: alias in aliases && AliasAdmitted(cfg, q, alias)
  {
    var hit := AliasHit(cfg.table.rules, q);
    FirstSomeNone(aliases, hit);
    forall alias ensures hit(alias).Some? <==> AliasAdmitted(cfg, q, alias) {
      if AliasName(alias).Some? {
        SearchSucceedsIff(cfg.table.rules, DomainTarget(AliasName(alias).value), q.port, q.flow);
      }
    }
  }

  lemma ReportedAddressStageIff(cfg: Config, q: Query, ips: seq<Ipv4>, source: RouteSource)
    ensures FirstSome(ips, IpRulePlan(cfg.table.rules, q, source)).Some? <==>
              exists ip :: ip in ips && AddressAdmitted(cfg, q, ip)
    ensures var plan := FirstSome(ips, IpRulePlan(cfg.table.rules, q, source));
            plan.Some? ==> plan.value.Remote?
  {
    var hit := IpRulePlan(cfg.table.rules, q, source);
    FirstSomeNone(ips, hit);
    forall ip ensures hit(ip).Some? <==> AddressAdmitted(cfg, q, ip) {
      SearchSucceedsIff(cfg.table.rules, Ipv4Target(ip), q.port, q.flow);
    }
    if FirstSome(ips, hit).Some? {
      var ip := FirstSomeMember(ips, hit);
    }
  }

  lemma ReportStageIff(cfg: Config, c: Caches, q: Query, r: LookupResolved, net: Network)
    ensures var plan := NaiveReported(cfg, c, q, r, net).0;
            (plan.Some? <==> ReportAdmitted(cfg, q, r)) && (plan.Some? ==> !Unmatched(q, plan.value))
  {
    AliasStageIff(cfg, q, r.aliases);
    ReportedAddressStageIff(cfg, q, r.ips, IpRuleSourceOf(r.source));
    var found: Option<(string, CompiledRule)> := FirstSome(r.aliases, AliasHit(cfg.table.rules, q));
    if found.Some? {
      DomainRulePlanShape(cfg, c, found.value.1, q, found.value.0, net);
    }
  }

  lemma DerivedStageIff(cfg: Config, c: Caches, q: Query, domain: string, net: Network)
    ensures var plan := NaiveDerived(cfg, c, q, domain, net).0;
            var r := Report(cfg, c, net, domain);
            (plan.Some? <==> r.Some? && ReportAdmitted(cfg, q, r.value)) && (plan.Some? ==> !Unmatched(q, plan.value))
  {
    var (r, c') := ResolveLookup(c, domain, cfg.Servers(), net);
    if r.Ok? {
      ReportStageIff(cfg, c', q, r.value, net);
    }
  }

  lemma SystemStageIff(cfg: Config, q: Query, ip: Option<Ipv4>)
    ensures NaiveSystem(cfg, q, ip).Some? <==> SystemAdmitted(cfg, q, ip)
    ensures NaiveSystem(cfg, q, ip).Some? ==> NaiveSystem(cfg, q, ip).value.Remote?
  {
    if ip.Some? {
      SearchSucceedsIff(cfg.table.rules, Ipv4Target(ip.value), q.port, q.flow);
    }
  }

  /** A name falls back as unmatched exactly when no rule names it, no recorded address of it is
      admitted, the DNS servers report no alias that a rule names and no admitted address, and the
      system resolver gives no address that is admitted or extra. */
  lemma UnmatchedIff(cfg: Config, c: Caches, q: Query, net: Network, domain: string)
    requires ParseTarget(q.host) == DomainTarget(domain)
    ensures Unmatched(q, NaivePlan(cfg, c, q, net).0) <==>
              && !SomeRuleApplies(cfg.table.rules, DomainTarget(domain), q.port, q.flow)
              && !RecordAdmitted(cfg, q, domain)
              && (Report(cfg, c, net, domain).Some? ==> !ReportAdmitted(cfg, q, Report(cfg, c, net, domain).value))
              && !SystemAdmitted(cfg, q, net.system(domain))
  {
    SearchSucceedsIff(cfg.table.rules, DomainTarget(domain), q.port, q.flow);
    var rule := FirstRawMatch(cfg.table.rules, DomainTarget(domain), q.port, q.flow);
    if rule.Some? {
      DomainRulePlanShape(cfg, c, rule.value, q, domain, net);
    } else {
      RecordStageIff(cfg, q, domain);
      DnsDataPlanJustified(cfg, c, q, net, domain);
      DerivedStageIff(cfg, c, q, domain, net);
      SystemStageIff(cfg, q, net.system(domain));
    }
  }
}
