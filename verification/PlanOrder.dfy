/** The order of the planner's stages, as a decision table over the raw table, the servers' answers
    and the clock: which record, alias, address or rule decides, and what is left in the caches. */
module PlanOrder {
  import opened Prelude
  import opened Sequences
  import opened Text
  import opened Rules
  import opened ExtraIps
  import opened DnsResolver
  import opened Planner
  import opened PlannerLaws
  import opened RuleLaws
  import Dns = DnsIndexes

  // ---------------------------------------------------------------- what decides

  /** The first rule of the raw table that applies. */
  ghost predicate FirstRule(rules: seq<RouteRule>, i: nat, target: Target, q: Query) {
    && i < |rules| && RawApplies(rules[i], target, q.port, q.flow)
    && forall j :: 0 <= j < i ==> !RawApplies(rules[j], target, q.port, q.flow)
  }

  /** The record gives the address for the name. */
  predicate Gives(rec: Dns.DnsRecord, name: string, ip: Ipv4) {
    name != "" && NormalizeDomain(rec.host) == name && ParseIpv4(Trim(rec.ip)) == Some(ip)
  }

  ghost predicate SomeGivenTo(cfg: Config, rcId: i32, name: string) {
    exists k: nat, ip :: k < |cfg.table.dnsRecords| && cfg.table.dnsRecords[k].rcId == rcId
                    && Gives(cfg.table.dnsRecords[k], name, ip)
  }

  /** The first record of the rc id that gives an address for the name. */
  ghost predicate FirstGivenTo(cfg: Config, k: nat, rcId: i32, name: string, ip: Ipv4) {
    var records := cfg.table.dnsRecords;
    && k < |records| && records[k].rcId == rcId && Gives(records[k], name, ip)
    && forall j, x :: 0 <= j < k && records[j].rcId == rcId ==> !Gives(records[j], name, x)
  }

  ghost predicate SomeRecordAdmitted(cfg: Config, q: Query, name: string) {
    exists k: nat, ip :: k < |cfg.table.dnsRecords| && Gives(cfg.table.dnsRecords[k], name, ip)
                    && AddressAdmitted(cfg, q, ip)
  }

  /** The first record of the name whose address is admitted. */
  ghost predicate FirstRecordAdmitted(cfg: Config, q: Query, k: nat, name: string, ip: Ipv4) {
    var records := cfg.table.dnsRecords;
    && k < |records| && Gives(records[k], name, ip) && AddressAdmitted(cfg, q, ip)
    && forall j, x :: 0 <= j < k && Gives(records[j], name, x) ==> !AddressAdmitted(cfg, q, x)
  }

  /** The server answers the question, and the first address of the answer is `ip`. */
  ghost predicate FirstAddressFrom(net: Network, server: SocketAddr, name: string, ip: Ipv4) {
    && net.ask(name, server).Some?
    && exists n: nat :: IsFirstAddress(net.ask(name, server).value, n, ip)
  }

  predicate IsFirstAddress(answers: seq<Answer>, n: nat, ip: Ipv4) {
    n < |answers| && answers[n] == A(ip) && forall m :: 0 <= m < n ==> !answers[m].A?
  }

  ghost predicate SomeServerGives(cfg: Config, net: Network, name: string) {
    exists k: nat, ip :: k < |cfg.Servers()| && FirstAddressFrom(net, cfg.Servers()[k], name, ip)
  }

  /** The first server that gives an address. */
  ghost predicate FirstServerGives(cfg: Config, net: Network, k: nat, name: string, ip: Ipv4) {
    var servers := cfg.Servers();
    && k < |servers| && FirstAddressFrom(net, servers[k], name, ip)
    && forall j, x :: 0 <= j < k ==> !FirstAddressFrom(net, servers[j], name, x)
  }

  predicate IsLive(c: Caches, key: CacheKey, now: Instant) {
    key in c.first && now < c.first[key].expiresAt
  }

  predicate IsLiveLookup(c: Caches, name: string, now: Instant) {
    name in c.lookup && now < c.lookup[name].expiresAt
  }

  /** A remote plan under a rule. */
  function Via(rule: RouteRule, ip: Ipv4, q: Query, source: RouteSource): RoutePlan {
    Remote(PrintIpv4(ip) + ":" + Decimal(q.port), rule.rcId, rule.name, source)
  }

  /** 300 seconds. */
  const TTL: nat := 300_000_000_000

  /** What a rule matched by name makes: recorded address first, then the live cache entry, then the
      servers in order. */
  ghost predicate NamedPlan(cfg: Config, c: Caches, q: Query, net: Network, name: string, rule: RouteRule, alias: bool,
                            plan: RoutePlan, c': Caches)
  {
    var key := CacheKey(rule.rcId, name);
    if SomeGivenTo(cfg, rule.rcId, name) then
      c' == c && exists k: nat, ip :: FirstGivenTo(cfg, k, rule.rcId, name, ip)
                                 && plan == Via(rule, ip, q, if alias then CnameDnsMap else DnsMap)
    else if cfg.Servers() == [] then
      c' == c && plan == Fallback(q.host + ":" + Decimal(q.port), NoDnsServer(rule.rcId))
    else if IsLive(c, key, net.at.firstGet) then
      c' == c && plan == Via(rule, c.first[key].ip, q, if alias then CnameDnsServerCache else DnsServerCache)
    else if SomeServerGives(cfg, net, name) then
      exists k: nat, ip :: FirstServerGives(cfg, net, k, name, ip)
                      && c' == c.(first := c.first[key := CacheEntry(ip, net.at.firstPut + TTL)])
                      && plan == Via(rule, ip, q, if alias then CnameDnsServerQuery(cfg.Servers()[k])
                                                  else DnsServerQuery(cfg.Servers()[k]))
    else
      c' == c.(first := c.first - {key})
      && plan == Fallback(q.host + ":" + Decimal(q.port), LookupFailed(rule.rcId))
  }

  ghost predicate SomeServerAnswers(cfg: Config, net: Network, name: string) {
    exists k: nat :: k < |cfg.Servers()| && net.ask(name, cfg.Servers()[k]).Some?
  }

  ghost predicate FirstServerAnswers(cfg: Config, net: Network, k: nat, name: string) {
    && k < |cfg.Servers()| && net.ask(name, cfg.Servers()[k]).Some?
    && forall j :: 0 <= j < k ==> net.ask(name, cfg.Servers()[j]).None?
  }

  ghost function AnswerOf(cfg: Config, net: Network, k: nat, name: string): seq<Answer>
    requires FirstServerAnswers(cfg, net, k, name)
  {
    net.ask(name, cfg.Servers()[k]).value
  }

  /** What is reported for the name, and the caches after asking: the live entry first, then the first
      server that answers. */
  ghost predicate Reported(cfg: Config, c: Caches, net: Network, name: string, r: Option<LookupResolved>, c': Caches) {
    var key := NormalizeDomain(name);
    if cfg.Servers() == [] then r == None && c' == c
    else if IsLiveLookup(c, key, net.at.lookupGet) then
      c' == c && r == Some(LookupResolved(c.lookup[key].aliases, c.lookup[key].ips, Cache))
    else if SomeServerAnswers(cfg, net, name) then
      exists k: nat :: FirstServerAnswers(cfg, net, k, name)
                  && var aliases, ips := AliasesOf(AnswerOf(cfg, net, k, name)), Ipv4sOf(AnswerOf(cfg, net, k, name));
                     && r == Some(LookupResolved(aliases, ips, Server(cfg.Servers()[k])))
                     && c' == c.(lookup := c.lookup[key := LookupEntry(aliases, ips, net.at.lookupPut + TTL)])
    else r == None && c' == c.(lookup := c.lookup - {key})
  }

  /** An alias stands for its normalised name, unless that is empty or the text of an address. */
  predicate StandsFor(alias: string, name: string) {
    name == NormalizeDomain(alias) && name != "" && ParseIpv4(name).None?
  }

  ghost predicate AliasNamed(cfg: Config, q: Query, alias: string) {
    && StandsFor(alias, NormalizeDomain(alias))
    && SomeRuleApplies(cfg.table.rules, DomainTarget(NormalizeDomain(alias)), q.port, q.flow)
  }

  ghost predicate SomeAliasNamed(cfg: Config, q: Query, aliases: seq<string>) {
    exists k: nat :: k < |aliases| && AliasNamed(cfg, q, aliases[k])
  }

  ghost predicate FirstAliasNamed(cfg: Config, q: Query, aliases: seq<string>, k: nat) {
    k < |aliases| && AliasNamed(cfg, q, aliases[k]) && forall j :: 0 <= j < k ==> !AliasNamed(cfg, q, aliases[j])
  }

  ghost predicate SomeAddressAdmitted(cfg: Config, q: Query, ips: seq<Ipv4>) {
    exists k: nat :: k < |ips| && AddressAdmitted(cfg, q, ips[k])
  }

  ghost predicate FirstAddressAdmitted(cfg: Config, q: Query, ips: seq<Ipv4>, k: nat) {
    k < |ips| && AddressAdmitted(cfg, q, ips[k]) && forall j :: 0 <= j < k ==> !AddressAdmitted(cfg, q, ips[j])
  }

  /** The plan for an address under the first rule that applies to it. */
  ghost predicate AddressPlanned(cfg: Config, q: Query, ip: Ipv4, source: RouteSource, plan: RoutePlan) {
    exists i: nat :: FirstRule(cfg.table.rules, i, Ipv4Target(ip), q) && plan == Via(cfg.table.rules[i], ip, q, source)
  }

  /** The query's own address: by rule before extra. */
  ghost predicate OwnAddressPlan(cfg: Config, q: Query, ip: Ipv4, plan: RoutePlan) {
    if AddressAdmitted(cfg, q, ip) then AddressPlanned(cfg, q, ip, RuleIp, plan)
    else if IsExtra(cfg.extras, ip) then plan == Remote(q.host + ":" + Decimal(q.port), 0, "--extra", ExtraIp)
    else plan == Fallback(q.host + ":" + Decimal(q.port), NoRuleMatched)
  }

  ghost predicate SystemPlan(cfg: Config, q: Query, ip: Option<Ipv4>, plan: RoutePlan) {
    match ip
    case Some(own) => OwnAddressPlan(cfg, q, own, plan)
    case None => plan == Fallback(q.host + ":" + Decimal(q.port), NoRuleMatched)
  }

  ghost predicate AliasPlan(cfg: Config, c: Caches, q: Query, net: Network, aliases: seq<string>, plan: RoutePlan,
                            c': Caches)
  {
    exists k: nat, i: nat :: FirstAliasNamed(cfg, q, aliases, k)
                   && FirstRule(cfg.table.rules, i, DomainTarget(NormalizeDomain(aliases[k])), q)
                   && NamedPlan(cfg, c, q, net, NormalizeDomain(aliases[k]), cfg.table.rules[i], true, plan, c')
  }

  /** A report decides by its first alias that a rule names, else by its first admitted address. */
  ghost predicate ReportPlan(cfg: Config, c: Caches, q: Query, net: Network, r: LookupResolved, plan: RoutePlan,
                             c': Caches)
  {
    if SomeAliasNamed(cfg, q, r.aliases) then AliasPlan(cfg, c, q, net, r.aliases, plan, c')
    else
      && c' == c
      && exists k: nat :: FirstAddressAdmitted(cfg, q, r.ips, k)
                     && AddressPlanned(cfg, q, r.ips[k], match r.source case Cache => DnsServerIpRuleCache
                                                                     case Server(a) => DnsServerIpRuleQuery(a), plan)
  }

  /** After the report: the report if it decides anything, else the system resolver. */
  ghost predicate AfterReport(cfg: Config, c: Caches, q: Query, net: Network, name: string, r: Option<LookupResolved>,
                              plan: RoutePlan, c': Caches)
  {
    if r.Some? && (SomeAliasNamed(cfg, q, r.value.aliases) || SomeAddressAdmitted(cfg, q, r.value.ips)) then
      ReportPlan(cfg, c, q, net, r.value, plan, c')
    else c' == c && SystemPlan(cfg, q, net.system(name), plan)
  }

  /** For a name: a rule that names it, else the first admitted record, else what the servers report,
      else the system resolver. */
  ghost predicate NameDecided(cfg: Config, c: Caches, q: Query, net: Network, name: string, plan: RoutePlan,
                              c': Caches)
  {
    if SomeRuleApplies(cfg.table.rules, DomainTarget(name), q.port, q.flow) then
      exists i: nat :: FirstRule(cfg.table.rules, i, DomainTarget(name), q)
                  && NamedPlan(cfg, c, q, net, name, cfg.table.rules[i], false, plan, c')
    else if SomeRecordAdmitted(cfg, q, name) then
      && c' == c
      && exists k: nat, ip :: FirstRecordAdmitted(cfg, q, k, name, ip)
                              && AddressPlanned(cfg, q, ip, DnsDataIpRule, plan)
    else
      exists r, reported :: Reported(cfg, c, net, name, r, reported)
                            && AfterReport(cfg, reported, q, net, name, r, plan, c')
  }

  ghost predicate Decided(cfg: Config, c: Caches, q: Query, net: Network, plan: RoutePlan, c': Caches) {
    match ParseTarget(q.host)
    case Ipv4Target(ip) => c' == c && OwnAddressPlan(cfg, q, ip, plan)
    case DomainTarget(name) => NameDecided(cfg, c, q, net, name, plan, c')
  }

  /** An address is extra exactly when some entry of the list covers it. */
  lemma ExtrasMeaning(extras: seq<string>, ip: Ipv4)
    ensures IsExtra(extras, ip) <==> exists k :: 0 <= k < |extras| && Covers(extras[k], ip)
  {
    if IsExtra(extras, ip) {
      var entry :| entry in extras && ParseExtraIp(entry).Some? && Holds(ip)(ParseExtraIp(entry).value);
      assert Covers(entry, ip);
    }
    if k :| 0 <= k < |extras| && Covers(extras[k], ip) {
      assert extras[k] in extras && Holds(ip)(ParseExtraIp(extras[k]).value);
    }
  }

  // ---------------------------------------------------------------- the stages take these decisions

  lemma FirstRuleFound(rules: seq<RouteRule>, target: Target, q: Query) returns (i: nat)
    ensures FirstRawMatch(rules, target, q.port, q.flow).Some? <==> SomeRuleApplies(rules, target, q.port, q.flow)
    ensures SomeRuleApplies(rules, target, q.port, q.flow) ==>
              FirstRule(rules, i, target, q)
              && FirstRawMatch(rules, target, q.port, q.flow) == CompileRule(rules[i])
              && CompileRule(rules[i]).value.rcId == rules[i].rcId
              && CompileRule(rules[i]).value.rcName == rules[i].name
  {
    SearchSucceedsIff(rules, target, q.port, q.flow);
    var hit := RawHit(target, q.port, q.flow);
    i := FirstSomeIsLeast(rules, hit);
    assert forall j :: 0 <= j < |rules| ==> (hit(rules[j]).Some? <==> RawApplies(rules[j], target, q.port, q.flow));
  }

  lemma ScopedGives(rec: Dns.DnsRecord, rcId: i32, name: string)
    ensures match Dns.ScopedIp(rcId, name)(rec)
            case None => rec.rcId == rcId ==> forall ip :: !Gives(rec, name, ip)
            case Some(ip) => rec.rcId == rcId && Gives(rec, name, ip)
  {
  }

  lemma HostGives(rec: Dns.DnsRecord, name: string)
    ensures match Dns.HostIp(name)(rec)
            case None => forall ip :: !Gives(rec, name, ip)
            case Some(ip) => Gives(rec, name, ip)
  {
  }

  lemma RecordedFirst(cfg: Config, rcId: i32, name: string) returns (k: nat)
    ensures var recorded := FirstSome(cfg.table.dnsRecords, Dns.ScopedIp(rcId, name));
            && (recorded.Some? <==> SomeGivenTo(cfg, rcId, name))
            && (recorded.Some? ==> FirstGivenTo(cfg, k, rcId, name, recorded.value))
  {
    var records, f := cfg.table.dnsRecords, Dns.ScopedIp(rcId, name);
    k := FirstSomeIsLeast(records, f);
    forall j | 0 <= j < |records| && f(records[j]).None?
      ensures records[j].rcId == rcId ==> forall ip :: !Gives(records[j], name, ip)
    {
      ScopedGives(records[j], rcId, name);
    }
    if k < |records| {
      ScopedGives(records[k], rcId, name);
    }
  }

  lemma {:induction false} FirstAddress(answers: seq<Answer>)
    ensures Ipv4sOf(answers) == [] <==> forall n :: 0 <= n < |answers| ==> !answers[n].A?
    ensures Ipv4sOf(answers) != [] ==> exists n: nat :: IsFirstAddress(answers, n, Ipv4sOf(answers)[0])
  {
    DistinctHead(answers, AnswerIp());
    var k := FirstSomeIsLeast(answers, AnswerIp());
    if k < |answers| {
      assert IsFirstAddress(answers, k, Ipv4sOf(answers)[0]);
    }
  }

  lemma FirstAddressUnique(answers: seq<Answer>, n: nat, ip: Ipv4, m: nat, x: Ipv4)
    requires IsFirstAddress(answers, n, ip) && IsFirstAddress(answers, m, x)
    ensures ip == x
  {
  }

  lemma AskedAddress(net: Network, server: SocketAddr, name: string, ip: Ipv4)
    ensures AskFirst(net.ask, name)(server) == Some((server, ip)) <==> FirstAddressFrom(net, server, name, ip)
  {
    if net.ask(name, server).Some? {
      var answers := net.ask(name, server).value;
      FirstAddress(answers);
      if Ipv4sOf(answers) != [] {
        var n :| IsFirstAddress(answers, n, Ipv4sOf(answers)[0]);
        if m :| IsFirstAddress(answers, m, ip) {
          FirstAddressUnique(answers, n, Ipv4sOf(answers)[0], m, ip);
        }
      }
    }
  }

  lemma ServersInOrder(cfg: Config, net: Network, name: string) returns (k: nat)
    ensures var found: Option<(SocketAddr, Ipv4)> := FirstSome(cfg.Servers(), AskFirst(net.ask, name));
            && (found.Some? <==> SomeServerGives(cfg, net, name))
            && (found.Some? ==> k < |cfg.Servers()| && found.value.0 == cfg.Servers()[k]
                                && FirstServerGives(cfg, net, k, name, found.value.1))
  {
    var servers, f := cfg.Servers(), AskFirst(net.ask, name);
    k := FirstSomeIsLeast(servers, f);
    forall j, ip: Ipv4 | 0 <= j < |servers| && FirstAddressFrom(net, servers[j], name, ip)
      ensures f(servers[j]).Some?
    {
      AskedAddress(net, servers[j], name, ip);
    }
    if k < |servers| {
      AskedAddress(net, servers[k], name, f(servers[k]).value.1);
    }
  }

  /** The resolver's answer: the live entry, else the first server that gives an address. */
  ghost predicate Resolves(cfg: Config, c: Caches, net: Network, key: CacheKey, r: Result<Resolved, ResolveError>,
                           c': Caches)
  {
    if IsLive(c, key, net.at.firstGet) then c' == c && r == Ok(Resolved(c.first[key].ip, Cache))
    else if SomeServerGives(cfg, net, key.host) then
      exists k: nat, ip :: FirstServerGives(cfg, net, k, key.host, ip)
                           && c' == c.(first := c.first[key := CacheEntry(ip, net.at.firstPut + TTL)])
                           && r == Ok(Resolved(ip, Server(cfg.Servers()[k])))
    else c' == c.(first := c.first - {key}) && r.Err?
  }

  lemma ResolvesInOrder(cfg: Config, c: Caches, rcId: i32, name: string, net: Network)
    ensures var (r, c') := ResolveFirst(c, rcId, name, cfg.Servers(), net);
            Resolves(cfg, c, net, CacheKey(rcId, name), r, c')
  {
    var k := ServersInOrder(cfg, net, name);
  }

  lemma RecordedPlan(cfg: Config, c: Caches, q: Query, net: Network, name: string, rule: RouteRule,
                     compiled: CompiledRule, alias: bool)
    requires compiled.rcId == rule.rcId && compiled.rcName == rule.name && SomeGivenTo(cfg, rule.rcId, name)
    ensures var (plan, c') := NaiveWithDomainRule(cfg, c, compiled, q, name, net);
            NamedPlan(cfg, c, q, net, name, rule, alias, if alias then AsCname(plan) else plan, c')
  {
    var k := RecordedFirst(cfg, rule.rcId, name);
  }

  lemma ResolvedPlan(cfg: Config, c: Caches, q: Query, net: Network, name: string, rule: RouteRule,
                     compiled: CompiledRule, alias: bool)
    requires compiled.rcId == rule.rcId && compiled.rcName == rule.name && !SomeGivenTo(cfg, rule.rcId, name)
    ensures var (plan, c') := NaiveWithDomainRule(cfg, c, compiled, q, name, net);
            NamedPlan(cfg, c, q, net, name, rule, alias, if alias then AsCname(plan) else plan, c')
  {
    var unused := RecordedFirst(cfg, rule.rcId, name);
    if cfg.Servers() != [] {
      ResolvesInOrder(cfg, c, rule.rcId, name, net);
      var (r, c') := ResolveFirst(c, rule.rcId, name, cfg.Servers(), net);
      ResolvedNames(cfg, c, q, net, name, rule, alias, r, c');
    }
  }

  /** The plan that follows from the resolver's answer. */
  function FromResolved(q: Query, rule: RouteRule, alias: bool, r: Result<Resolved, ResolveError>): RoutePlan {
    match r
    case Err(_) => Fallback(HostPort(q.host, q.port), LookupFailed(rule.rcId))
    case Ok(resolved) =>
      Remote(HostPort(PrintIpv4(resolved.ip), q.port), rule.rcId, rule.name,
             if alias then CnameSource(SourceOf(resolved.source)) else SourceOf(resolved.source))
  }

  lemma ResolvedNames(cfg: Config, c: Caches, q: Query, net: Network, name: string, rule: RouteRule, alias: bool,
                      r: Result<Resolved, ResolveError>, c': Caches)
    requires !SomeGivenTo(cfg, rule.rcId, name) && cfg.Servers() != []
    requires Resolves(cfg, c, net, CacheKey(rule.rcId, name), r, c')
    ensures NamedPlan(cfg, c, q, net, name, rule, alias, FromResolved(q, rule, alias, r), c')
  {
    var key := CacheKey(rule.rcId, name);
    if !IsLive(c, key, net.at.firstGet) && SomeServerGives(cfg, net, name) {
      var k: nat, ip :| FirstServerGives(cfg, net, k, name, ip)
                        && c' == c.(first := c.first[key := CacheEntry(ip, net.at.firstPut + TTL)])
                        && r == Ok(Resolved(ip, Server(cfg.Servers()[k])));
      ServerNames(cfg, q, rule, alias, ip, cfg.Servers()[k]);
    }
  }

  lemma ServerNames(cfg: Config, q: Query, rule: RouteRule, alias: bool, ip: Ipv4, server: SocketAddr)
    ensures FromResolved(q, rule, alias, Ok(Resolved(ip, Server(server))))
            == Via(rule, ip, q, if alias then CnameDnsServerQuery(server) else DnsServerQuery(server))
  {
  }

  lemma NamedPlanned(cfg: Config, c: Caches, q: Query, net: Network, name: string, rule: RouteRule,
                     compiled: CompiledRule, alias: bool)
    requires compiled.rcId == rule.rcId && compiled.rcName == rule.name
    ensures var (plan, c') := NaiveWithDomainRule(cfg, c, compiled, q, name, net);
            NamedPlan(cfg, c, q, net, name, rule, alias, if alias then AsCname(plan) else plan, c')
  {
    if SomeGivenTo(cfg, rule.rcId, name) {
      RecordedPlan(cfg, c, q, net, name, rule, compiled, alias);
    } else {
      ResolvedPlan(cfg, c, q, net, name, rule, compiled, alias);
    }
  }

  lemma AddressPlannedBy(cfg: Config, q: Query, ip: Ipv4, source: RouteSource)
    ensures var plan := IpRulePlan(cfg.table.rules, q, source)(ip);
            && (plan.Some? <==> AddressAdmitted(cfg, q, ip))
            && (plan.Some? ==> AddressPlanned(cfg, q, ip, source, plan.value))
  {
    var i := FirstRuleFound(cfg.table.rules, Ipv4Target(ip), q);
  }

  lemma OwnAddressPlanned(cfg: Config, q: Query, ip: Ipv4)
    ensures OwnAddressPlan(cfg, q, ip, NaiveForIp(cfg, q, ip))
    ensures var plan := NaiveSystem(cfg, q, Some(ip));
            OwnAddressPlan(cfg, q, ip,
                           if plan.Some? then plan.value else Fallback(HostPort(q.host, q.port), NoRuleMatched))
  {
    AddressPlannedBy(cfg, q, ip, RuleIp);
  }

  lemma RecordPlanned(cfg: Config, q: Query, name: string) returns (k: nat, ip: Ipv4)
    ensures var plan := FirstSome(cfg.table.dnsRecords, DnsDataHit(cfg.table.rules, name, q));
            && (plan.Some? <==> SomeRecordAdmitted(cfg, q, name))
            && (plan.Some? ==> FirstRecordAdmitted(cfg, q, k, name, ip)
                               && AddressPlanned(cfg, q, ip, DnsDataIpRule, plan.value))
  {
    var records, hit := cfg.table.dnsRecords, DnsDataHit(cfg.table.rules, name, q);
    k := FirstSomeIsLeast(records, hit);
    ip := 0;
    forall j, x | 0 <= j < |records| && Gives(records[j], name, x)
      ensures hit(records[j]).Some? <==> AddressAdmitted(cfg, q, x)
    {
      HostGives(records[j], name);
      AddressPlannedBy(cfg, q, x, DnsDataIpRule);
    }
    if k < |records| {
      HostGives(records[k], name);
      ip := Dns.HostIp(name)(records[k]).value;
      AddressPlannedBy(cfg, q, ip, DnsDataIpRule);
    }
  }

  lemma ReportedInOrder(cfg: Config, c: Caches, net: Network, name: string)
    ensures var (r, c') := ResolveLookup(c, name, cfg.Servers(), net);
            if cfg.Servers() == [] then Reported(cfg, c, net, name, None, c)
            else Reported(cfg, c, net, name, match r case Ok(report) => Some(report) case Err(_) => None, c')
  {
    var servers, f := cfg.Servers(), AskAny(net.ask, name);
    var k := FirstSomeIsLeast(servers, f);
    assert forall j :: 0 <= j < |servers| ==> (f(servers[j]).None? <==> net.ask(name, servers[j]).None?);
    if k < |servers| {
      assert FirstServerAnswers(cfg, net, k, name);
    }
  }

  lemma AliasNames(cfg: Config, q: Query, alias: string)
    ensures AliasHit(cfg.table.rules, q)(alias).Some? <==> AliasNamed(cfg, q, alias)
    ensures AliasNamed(cfg, q, alias) ==> AliasHit(cfg.table.rules, q)(alias).value.0 == NormalizeDomain(alias)
    ensures AliasNamed(cfg, q, alias) ==>
              Some(AliasHit(cfg.table.rules, q)(alias).value.1)
              == FirstRawMatch(cfg.table.rules, DomainTarget(NormalizeDomain(alias)), q.port, q.flow)
  {
    SearchSucceedsIff(cfg.table.rules, DomainTarget(NormalizeDomain(alias)), q.port, q.flow);
  }

  lemma AliasPlanned(cfg: Config, c: Caches, q: Query, net: Network, aliases: seq<string>)
    ensures var found: Option<(string, CompiledRule)> := FirstSome(aliases, AliasHit(cfg.table.rules, q));
            && (found.Some? <==> SomeAliasNamed(cfg, q, aliases))
            && (found.Some? ==>
                  var (plan, c') := NaiveWithDomainRule(cfg, c, found.value.1, q, found.value.0, net);
                  AliasPlan(cfg, c, q, net, aliases, AsCname(plan), c'))
  {
    var hit := AliasHit(cfg.table.rules, q);
    var k := FirstSomeIsLeast(aliases, hit);
    forall j | 0 <= j < |aliases| ensures hit(aliases[j]).Some? <==> AliasNamed(cfg, q, aliases[j]) {
      AliasNames(cfg, q, aliases[j]);
    }
    if k < |aliases| {
      AliasNames(cfg, q, aliases[k]);
      var name := NormalizeDomain(aliases[k]);
      var i := FirstRuleFound(cfg.table.rules, DomainTarget(name), q);
      NamedPlanned(cfg, c, q, net, name, cfg.table.rules[i], hit(aliases[k]).value.1, true);
    }
  }

  lemma ReportedAddressPlanned(cfg: Config, q: Query, ips: seq<Ipv4>, source: RouteSource) returns (k: nat)
    ensures var plan := FirstSome(ips, IpRulePlan(cfg.table.rules, q, source));
            && (plan.Some? <==> SomeAddressAdmitted(cfg, q, ips))
            && (plan.Some? ==> FirstAddressAdmitted(cfg, q, ips, k)
                               && AddressPlanned(cfg, q, ips[k], source, plan.value))
  {
    var hit := IpRulePlan(cfg.table.rules, q, source);
    k := FirstSomeIsLeast(ips, hit);
    forall j | 0 <= j < |ips| ensures hit(ips[j]).Some? <==> AddressAdmitted(cfg, q, ips[j]) {
      AddressPlannedBy(cfg, q, ips[j], source);
    }
    if k < |ips| {
      AddressPlannedBy(cfg, q, ips[k], source);
    }
  }

  lemma ReportPlanned(cfg: Config, c: Caches, q: Query, net: Network, r: LookupResolved)
    ensures var (plan, c') := NaiveReported(cfg, c, q, r, net);
            && (plan.Some? <==> SomeAliasNamed(cfg, q, r.aliases) || SomeAddressAdmitted(cfg, q, r.ips))
            && (if plan.Some? then ReportPlan(cfg, c, q, net, r, plan.value, c') else c' == c)
  {
    AliasPlanned(cfg, c, q, net, r.aliases);
    var k := ReportedAddressPlanned(cfg, q, r.ips, IpRuleSourceOf(r.source));
  }

  lemma DerivedDecided(cfg: Config, c: Caches, q: Query, net: Network, name: string)
    requires !SomeRuleApplies(cfg.table.rules, DomainTarget(name), q.port, q.flow)
    requires !SomeRecordAdmitted(cfg, q, name)
    ensures var (plan, c') := NaiveForDomain(cfg, c, q, name, net); NameDecided(cfg, c, q, net, name, plan, c')
  {
    var i := FirstRuleFound(cfg.table.rules, DomainTarget(name), q);
    var k, ip := RecordPlanned(cfg, q, name);
    var (plan, c') := NaiveForDomain(cfg, c, q, name, net);
    var (r, asked) := ResolveLookup(c, name, cfg.Servers(), net);
    ReportedInOrder(cfg, c, net, name);
    if net.system(name).Some? {
      OwnAddressPlanned(cfg, q, net.system(name).value);
    }
    if cfg.Servers() == [] {
      assert AfterReport(cfg, c, q, net, name, None, plan, c');
    } else if r.Err? {
      assert AfterReport(cfg, asked, q, net, name, None, plan, c');
    } else {
      ReportPlanned(cfg, asked, q, net, r.value);
      assert AfterReport(cfg, asked, q, net, name, Some(r.value), plan, c');
    }
  }

  lemma NamesDecided(cfg: Config, c: Caches, q: Query, net: Network, name: string)
    ensures var (plan, c') := NaiveForDomain(cfg, c, q, name, net); NameDecided(cfg, c, q, net, name, plan, c')
  {
    var i := FirstRuleFound(cfg.table.rules, DomainTarget(name), q);
    if SomeRuleApplies(cfg.table.rules, DomainTarget(name), q.port, q.flow) {
      NamedPlanned(cfg, c, q, net, name, cfg.table.rules[i], CompileRule(cfg.table.rules[i]).value, false);
    } else if SomeRecordAdmitted(cfg, q, name) {
      var k, ip := RecordPlanned(cfg, q, name);
    } else {
      DerivedDecided(cfg, c, q, net, name);
    }
  }

  /** Every plan, and the caches after it, follow the decision table. */
  lemma PlansAreDecided(cfg: Config, c: Caches, q: Query, net: Network)
    ensures var (plan, c') := NaivePlan(cfg, c, q, net); Decided(cfg, c, q, net, plan, c')
  {
    match ParseTarget(q.host) {
      case Ipv4Target(ip) => OwnAddressPlanned(cfg, q, ip);
      case DomainTarget(name) => NamesDecided(cfg, c, q, net, name);
    }
  }
}
