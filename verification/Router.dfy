/** The installed router: one lock serialises installs and planning calls, and every install
    clears the DNS caches. */
module Router {
  import opened Prelude
  import opened Sequences
  import opened Text
  import opened Rules
  import opened DnsResolver
  import opened Planner
  import opened PlannerLaws
  import opened PlanOrder
  import Dns = DnsIndexes

  datatype Mode = Unavailable | Installed(cfg: Config) | TunnelFallback

  datatype RouterState = RouterState(mode: Mode, caches: Caches)

  datatype Event =
    | Install(cfg: Config)
    | InstallFallback
    | PlanTarget(q: Query, net: Network)

  const NO_CACHES := Caches(map[], map[])

  ghost function Step(s: RouterState, e: Event): RouterState {
    match e
    case Install(cfg) => RouterState(Installed(cfg), NO_CACHES)
    case InstallFallback => RouterState(TunnelFallback, NO_CACHES)
    case PlanTarget(q, net) =>
      if s.mode.Installed? then s.(caches := NaivePlan(s.mode.cfg, s.caches, q, net).1) else s
  }

  ghost function Run(events: seq<Event>): RouterState {
    if events == [] then RouterState(Unavailable, NO_CACHES)
    else Step(Run(events[..|events| - 1]), events[|events| - 1])
  }

  /** The position of the last install of either kind, or -1. */
  ghost function LastInstall(events: seq<Event>): int {
    if events == [] then -1
    else if !events[|events| - 1].PlanTarget? then |events| - 1
    else LastInstall(events[..|events| - 1])
  }

  /** The entry was stored by the planning call `e`, from an answer of one of the servers. */
  ghost predicate StoredBy(e: Event, servers: seq<SocketAddr>, key: CacheKey, entry: CacheEntry) {
    && e.PlanTarget?
    && entry.expiresAt == e.net.at.firstPut + 300_000_000_000
    && exists server :: server in servers && AskFirst(e.net.ask, key.host)(server) == Some((server, entry.ip))
  }

  ghost predicate LookupStoredBy(e: Event, servers: seq<SocketAddr>, key: string, entry: LookupEntry) {
    && e.PlanTarget?
    && entry.expiresAt == e.net.at.lookupPut + 300_000_000_000
    && exists server, host :: server in servers && LookupAnswered(e.net.ask, host, server, key, entry)
  }

  ghost predicate LookupAnswered(ask: Ask, host: string, server: SocketAddr, key: string, entry: LookupEntry) {
    && NormalizeDomain(host) == key
    && ask(host, server).Some?
    && entry.aliases == AliasesOf(ask(host, server).value)
    && entry.ips == Ipv4sOf(ask(host, server).value)
  }

  // ---------------------------------------------------------------- one planning call

  /** Every entry of `c'` is an entry of `c` or was stored by the call. */
  ghost predicate OnlyStores(c: Caches, c': Caches, servers: seq<SocketAddr>, e: Event) {
    && (forall key :: key in c'.first ==>
          (key in c.first && c.first[key] == c'.first[key]) || StoredBy(e, servers, key, c'.first[key]))
    && (forall key :: key in c'.lookup ==>
          (key in c.lookup && c.lookup[key] == c'.lookup[key]) || LookupStoredBy(e, servers, key, c'.lookup[key]))
  }

  lemma ResolveFirstOnlyStores(c: Caches, rcId: i32, host: string, servers: seq<SocketAddr>, q: Query, net: Network)
    ensures OnlyStores(c, ResolveFirst(c, rcId, host, servers, net).1, servers, PlanTarget(q, net))
  {
    var k := FirstSomeIsLeast(servers, AskFirst(net.ask, host));
    if k < |servers| {
      assert servers[k] in servers;
    }
  }

  lemma ResolveLookupOnlyStores(c: Caches, host: string, servers: seq<SocketAddr>, q: Query, net: Network)
    ensures OnlyStores(c, ResolveLookup(c, host, servers, net).1, servers, PlanTarget(q, net))
  {
    var key := NormalizeDomain(host);
    var c' := ResolveLookup(c, host, servers, net).1;
    var k := FirstSomeIsLeast(servers, AskAny(net.ask, host));
    if k < |servers| && key in c'.lookup && CachedLookup(c, key, net.at.lookupGet).None? {
      assert servers[k] in servers && LookupAnswered(net.ask, host, servers[k], key, c'.lookup[key]);
    }
  }

  lemma OnlyStoresTransitive(a: Caches, b: Caches, c: Caches, servers: seq<SocketAddr>, e: Event)
    requires OnlyStores(a, b, servers, e) && OnlyStores(b, c, servers, e)
    ensures OnlyStores(a, c, servers, e)
  {
  }

  lemma PlanOnlyStores(cfg: Config, c: Caches, q: Query, net: Network)
    ensures OnlyStores(c, NaivePlan(cfg, c, q, net).1, cfg.Servers(), PlanTarget(q, net))
  {
    var target := ParseTarget(q.host);
    if target.DomainTarget? {
      var rule := FirstRawMatch(cfg.table.rules, target, q.port, q.flow);
      if rule.Some? {
        DomainRuleOnlyStores(cfg, c, rule.value, q, target.name, net);
      } else {
        DerivedOnlyStores(cfg, c, q, target.name, net);
      }
    }
  }

  lemma DomainRuleOnlyStores(cfg: Config, c: Caches, rule: CompiledRule, q: Query, domain: string, net: Network)
    ensures OnlyStores(c, NaiveWithDomainRule(cfg, c, rule, q, domain, net).1, cfg.Servers(), PlanTarget(q, net))
  {
    ResolveFirstOnlyStores(c, rule.rcId, domain, cfg.Servers(), q, net);
  }

  lemma ReportedOnlyStores(cfg: Config, c: Caches, q: Query, r: LookupResolved, net: Network)
    ensures OnlyStores(c, NaiveReported(cfg, c, q, r, net).1, cfg.Servers(), PlanTarget(q, net))
  {
    var found: Option<(string, CompiledRule)> := FirstSome(r.aliases, AliasHit(cfg.table.rules, q));
    if found.Some? {
      DomainRuleOnlyStores(cfg, c, found.value.1, q, found.value.0, net);
    }
  }

  lemma DerivedOnlyStores(cfg: Config, c: Caches, q: Query, domain: string, net: Network)
    ensures OnlyStores(c, NaiveDerived(cfg, c, q, domain, net).1, cfg.Servers(), PlanTarget(q, net))
  {
    var servers := cfg.Servers();
    if servers != [] {
      ResolveLookupOnlyStores(c, domain, servers, q, net);
      var (r, c') := ResolveLookup(c, domain, servers, net);
      if r.Ok? {
        ReportedOnlyStores(cfg, c', q, r.value, net);
        OnlyStoresTransitive(c, c', NaiveReported(cfg, c', q, r.value, net).1, servers, PlanTarget(q, net));
      }
    }
  }

  // ---------------------------------------------------------------- whole runs

  /** The entry was stored by a planning call later than position `since`. */
  ghost predicate StoredAfter(events: seq<Event>, since: int, servers: seq<SocketAddr>, key: CacheKey,
                              entry: CacheEntry)
    requires -1 <= since
  {
    exists j :: since < j < |events| && StoredBy(events[j], servers, key, entry)
  }

  ghost predicate LookupStoredAfter(events: seq<Event>, since: int, servers: seq<SocketAddr>, key: string,
                                    entry: LookupEntry)
    requires -1 <= since
  {
    exists j :: since < j < |events| && LookupStoredBy(events[j], servers, key, entry)
  }

  /** Every cached answer was stored by a planning call later than position `since`, from a server
      in the list. */
  ghost predicate StoredSince(events: seq<Event>, since: int, servers: seq<SocketAddr>, c: Caches)
    requires -1 <= since
  {
    && (forall key :: key in c.first ==> StoredAfter(events, since, servers, key, c.first[key]))
    && (forall key :: key in c.lookup ==> LookupStoredAfter(events, since, servers, key, c.lookup[key]))
  }

  /** Every cached answer was stored by a planning call made since the last install, and came
      from a server of the table installed then; without a table there is nothing cached. */
  ghost predicate CacheEpoch(events: seq<Event>) {
    var s := Run(events);
    match s.mode
    case Installed(cfg) =>
      && 0 <= LastInstall(events) < |events| && events[LastInstall(events)] == Install(cfg)
      && StoredSince(events, LastInstall(events), cfg.Servers(), s.caches)
    case _ => s.caches == NO_CACHES
  }

  lemma RunNext(front: seq<Event>, last: Event)
    ensures Run(front + [last]) == Step(Run(front), last)
    ensures LastInstall(front + [last]) == if last.PlanTarget? then LastInstall(front) else |front|
    ensures -1 <= LastInstall(front) < |front|
  {
    assert (front + [last])[..|front|] == front;
    LastInstallInRange(front);
  }

  lemma {:induction false} LastInstallInRange(events: seq<Event>)
    ensures -1 <= LastInstall(events) < |events|
  {
    if events != [] {
      LastInstallInRange(events[..|events| - 1]);
    }
  }

  lemma {:induction false} CachesBelongToInstalledTable(events: seq<Event>)
    ensures CacheEpoch(events)
  {
    if events != [] {
      var front, last := events[..|events| - 1], events[|events| - 1];
      assert events == front + [last];
      CachesBelongToInstalledTable(front);
      RunNext(front, last);
      if last.PlanTarget? && Run(front).mode.Installed? {
        PlanKeepsEpoch(front, last);
      }
    }
  }

  lemma PlanKeepsEpoch(front: seq<Event>, last: Event)
    requires CacheEpoch(front) && last.PlanTarget? && Run(front).mode.Installed?
    ensures CacheEpoch(front + [last])
  {
    var s, since := Run(front), LastInstall(front);
    RunNext(front, last);
    PlanOnlyStores(s.mode.cfg, s.caches, last.q, last.net);
    StoredSinceKept(front, last, since, s.mode.cfg.Servers(), s.caches, Step(s, last).caches);
    assert (front + [last])[since] == front[since];
  }

  lemma StoredSinceKept(front: seq<Event>, last: Event, since: int, servers: seq<SocketAddr>, c: Caches, c': Caches)
    requires -1 <= since < |front| && StoredSince(front, since, servers, c) && OnlyStores(c, c', servers, last)
    ensures StoredSince(front + [last], since, servers, c')
  {
    forall key | key in c'.first ensures StoredAfter(front + [last], since, servers, key, c'.first[key]) {
      EntryKept(front, last, since, servers, key, c'.first[key]);
    }
    forall key | key in c'.lookup ensures LookupStoredAfter(front + [last], since, servers, key, c'.lookup[key]) {
      LookupEntryKept(front, last, since, servers, key, c'.lookup[key]);
    }
  }

  lemma EntryKept(front: seq<Event>, last: Event, since: int, servers: seq<SocketAddr>, key: CacheKey,
                  entry: CacheEntry)
    requires -1 <= since < |front|
    requires StoredAfter(front, since, servers, key, entry) || StoredBy(last, servers, key, entry)
    ensures StoredAfter(front + [last], since, servers, key, entry)
  {
    var events := front + [last];
    if StoredBy(last, servers, key, entry) {
      assert StoredBy(events[|front|], servers, key, entry);
    } else {
      var j :| since < j < |front| && StoredBy(front[j], servers, key, entry);
      assert StoredBy(events[j], servers, key, entry);
    }
  }

  lemma LookupEntryKept(front: seq<Event>, last: Event, since: int, servers: seq<SocketAddr>, key: string,
                        entry: LookupEntry)
    requires -1 <= since < |front|
    requires LookupStoredAfter(front, since, servers, key, entry) || LookupStoredBy(last, servers, key, entry)
    ensures LookupStoredAfter(front + [last], since, servers, key, entry)
  {
    var events := front + [last];
    if LookupStoredBy(last, servers, key, entry) {
      assert LookupStoredBy(events[|front|], servers, key, entry);
    } else {
      var j :| since < j < |front| && LookupStoredBy(front[j], servers, key, entry);
      assert LookupStoredBy(events[j], servers, key, entry);
    }
  }

  ghost predicate StoredRecently(events: seq<Event>, j: nat, servers: seq<SocketAddr>, key: CacheKey, entry: CacheEntry,
                                 now: Instant)
  {
    && LastInstall(events) < j < |events| && StoredBy(events[j], servers, key, entry)
    && now < events[j].net.at.firstPut + 300_000_000_000
  }

  ghost predicate LookupStoredRecently(events: seq<Event>, j: nat, servers: seq<SocketAddr>, key: string,
                                       entry: LookupEntry, now: Instant)
  {
    && LastInstall(events) < j < |events| && LookupStoredBy(events[j], servers, key, entry)
    && now < events[j].net.at.lookupPut + 300_000_000_000
  }

  /** A hit in either cache, at any time, is an answer that a server of the installed table gave since
      the install and that was stored less than 300 seconds before. */
  lemma CachedAnswersAreFresh(events: seq<Event>, key: CacheKey, name: string, now: Instant)
    ensures CachedFirst(Run(events).caches, key, now).Some? ==>
              Run(events).mode.Installed?
              && exists j :: StoredRecently(events, j, Run(events).mode.cfg.Servers(), key,
                                            Run(events).caches.first[key], now)
    ensures CachedLookup(Run(events).caches, name, now).Some? ==>
              Run(events).mode.Installed?
              && exists j :: LookupStoredRecently(events, j, Run(events).mode.cfg.Servers(), name,
                                                  Run(events).caches.lookup[name], now)
  {
    CachesBelongToInstalledTable(events);
    var s := Run(events);
    if CachedFirst(s.caches, key, now).Some? {
      var servers, entry := s.mode.cfg.Servers(), s.caches.first[key];
      var j :| LastInstall(events) < j < |events| && StoredBy(events[j], servers, key, entry);
      assert StoredRecently(events, j, servers, key, entry, now);
    }
    if CachedLookup(s.caches, name, now).Some? {
      var servers, entry := s.mode.cfg.Servers(), s.caches.lookup[name];
      var j :| LastInstall(events) < j < |events| && LookupStoredBy(events[j], servers, name, entry);
      assert LookupStoredRecently(events, j, servers, name, entry, now);
    }
  }

  /** The plan dials an address that a server of the installed table gave for this very name, to a
      planning call since the install, less than 300 seconds before. */
  ghost predicate FreshDial(events: seq<Event>, j: nat, q: Query, net: Network, plan: RoutePlan, name: string,
                            entry: CacheEntry)
    requires Run(events).mode.Installed? && plan.Remote?
  {
    && StoredRecently(events, j, Run(events).mode.cfg.Servers(), CacheKey(plan.rcId, name), entry, net.at.firstGet)
    && plan.dial == HostPort(PrintIpv4(entry.ip), q.port)
  }

  /** The report was given by a server of the installed table for this very name, just now or to a
      planning call since the install, less than 300 seconds before. */
  ghost predicate FreshReport(events: seq<Event>, net: Network, name: string, r: LookupResolved)
    requires Run(events).mode.Installed?
  {
    match r.source
    case Server(server) => Reports(Run(events).mode.cfg, Run(events).caches, net, name, r)
    case Cache =>
      exists j, entry :: LookupStoredRecently(events, j, Run(events).mode.cfg.Servers(), NormalizeDomain(name), entry,
                                              net.at.lookupGet)
                         && entry.aliases == r.aliases && entry.ips == r.ips
  }

  ghost predicate FreshAliasDial(events: seq<Event>, j: nat, q: Query, net: Network, plan: RoutePlan, domain: string,
                                 r: LookupResolved, alias: string, entry: CacheEntry)
    requires Run(events).mode.Installed? && plan.Remote?
  {
    && FreshReport(events, net, domain, r) && alias in r.aliases && AliasName(alias).Some?
    && FreshDial(events, j, q, net, plan, AliasName(alias).value, entry)
  }

  ghost predicate FreshReportedDial(events: seq<Event>, q: Query, net: Network, plan: RoutePlan, domain: string,
                                    r: LookupResolved, ip: Ipv4)
    requires Run(events).mode.Installed? && plan.Remote?
  {
    && r.source == Cache && FreshReport(events, net, domain, r) && ip in r.ips
    && plan.dial == HostPort(PrintIpv4(ip), q.port)
  }

  predicate FromCache(plan: RoutePlan) {
    plan.Remote?
    && (plan.source == DnsServerCache || plan.source == CnameDnsServerCache || plan.source == DnsServerIpRuleCache)
  }

  /** A plan from a cache dials a fresh answer for the queried name, for an alias freshly reported
      for it, or among the addresses freshly reported for it. */
  ghost predicate FreshPlan(events: seq<Event>, q: Query, net: Network, plan: RoutePlan, domain: string)
    requires Run(events).mode.Installed? && plan.Remote?
  {
    match plan.source
    case DnsServerCache => exists j, entry :: FreshDial(events, j, q, net, plan, domain, entry)
    case CnameDnsServerCache =>
      exists j, r, alias, entry :: FreshAliasDial(events, j, q, net, plan, domain, r, alias, entry)
    case DnsServerIpRuleCache => exists r, ip :: FreshReportedDial(events, q, net, plan, domain, r, ip)
    case _ => true
  }

  lemma HitIsFresh(events: seq<Event>, q: Query, net: Network, plan: RoutePlan, name: string, ip: Ipv4)
    returns (j: nat, entry: CacheEntry)
    requires Run(events).mode.Installed? && plan.Remote?
    requires CachedFirst(Run(events).caches, CacheKey(plan.rcId, name), net.at.firstGet) == Some(ip)
    requires plan.dial == HostPort(PrintIpv4(ip), q.port)
    ensures FreshDial(events, j, q, net, plan, name, entry)
  {
    var key := CacheKey(plan.rcId, name);
    CachedAnswersAreFresh(events, key, name, net.at.firstGet);
    entry := Run(events).caches.first[key];
    j :| StoredRecently(events, j, Run(events).mode.cfg.Servers(), key, entry, net.at.firstGet);
  }

  lemma ReportIsFresh(events: seq<Event>, net: Network, name: string, r: LookupResolved)
    requires Run(events).mode.Installed? && Reports(Run(events).mode.cfg, Run(events).caches, net, name, r)
    ensures FreshReport(events, net, name, r)
  {
    if r.source == Cache {
      CachedAnswersAreFresh(events, CacheKey(0, name), NormalizeDomain(name), net.at.lookupGet);
    }
  }

  lemma CacheHitsAreFresh(events: seq<Event>, q: Query, net: Network)
    requires Run(events).mode.Installed?
    requires FromCache(NaivePlan(Run(events).mode.cfg, Run(events).caches, q, net).0)
    ensures ParseTarget(q.host).DomainTarget?
    ensures FreshPlan(events, q, net, NaivePlan(Run(events).mode.cfg, Run(events).caches, q, net).0,
                      ParseTarget(q.host).name)
  {
    var cfg, c := Run(events).mode.cfg, Run(events).caches;
    RemotePlansAreJustified(cfg, c, q, net);
    JustifiedHitIsFresh(events, q, net, NaivePlan(cfg, c, q, net).0);
  }

  lemma JustifiedHitIsFresh(events: seq<Event>, q: Query, net: Network, plan: RoutePlan)
    requires Run(events).mode.Installed? && FromCache(plan)
    requires Justified(Run(events).mode.cfg, Run(events).caches, q, net, plan)
    ensures ParseTarget(q.host).DomainTarget? && FreshPlan(events, q, net, plan, ParseTarget(q.host).name)
  {
    NamedHitIsFresh(events, Run(events), q, net, plan, ParseTarget(q.host).name);
  }

  lemma NamedHitIsFresh(events: seq<Event>, s: RouterState, q: Query, net: Network, plan: RoutePlan, domain: string)
    requires s == Run(events) && s.mode.Installed? && FromCache(plan)
    requires JustifiedByName(s.mode.cfg, s.caches, q, net, plan, domain)
    ensures FreshPlan(events, q, net, plan, domain)
  {
    match plan.source {
      case DnsServerCache =>
        var ip :| ByName(s.mode.cfg, s.caches, q, net, plan, domain, plan.source, ip);
        var j, entry := HitIsFresh(events, q, net, plan, domain, ip);
      case CnameDnsServerCache =>
        var r, alias, ip :| ByReportedAlias(s.mode.cfg, s.caches, q, net, plan, domain, r, alias, ip);
        AliasHitIsFresh(events, q, net, plan, domain, r, alias, ip);
      case DnsServerIpRuleCache =>
        var r, ip :| ByReportedAddress(s.mode.cfg, s.caches, q, net, plan, domain, r, ip);
        ReportedHitIsFresh(events, q, net, plan, domain, r, ip);
    }
  }

  lemma AliasHitIsFresh(events: seq<Event>, q: Query, net: Network, plan: RoutePlan, domain: string, r: LookupResolved,
                        alias: string, ip: Ipv4)
    requires Run(events).mode.Installed? && plan.Remote? && plan.source == CnameDnsServerCache
    requires ByReportedAlias(Run(events).mode.cfg, Run(events).caches, q, net, plan, domain, r, alias, ip)
    ensures FreshPlan(events, q, net, plan, domain)
  {
    ReportIsFresh(events, net, domain, r);
    var j, entry := HitIsFresh(events, q, net, plan, AliasName(alias).value, ip);
    assert FreshAliasDial(events, j, q, net, plan, domain, r, alias, entry);
  }

  lemma ReportedHitIsFresh(events: seq<Event>, q: Query, net: Network, plan: RoutePlan, domain: string,
                           r: LookupResolved, ip: Ipv4)
    requires Run(events).mode.Installed? && plan.Remote? && plan.source == DnsServerIpRuleCache
    requires ByReportedAddress(Run(events).mode.cfg, Run(events).caches, q, net, plan, domain, r, ip)
    ensures FreshPlan(events, q, net, plan, domain)
  {
    ReportIsFresh(events, net, domain, r);
    assert FreshReportedDial(events, q, net, plan, domain, r, ip);
  }

  // ---------------------------------------------------------------- live entries stay

  /** Every entry that is still live when the caches are read is kept. */
  ghost predicate KeepsLive(c: Caches, c': Caches, at: Moments) {
    && (forall key :: key in c.first && at.firstGet < c.first[key].expiresAt ==>
          key in c'.first && c'.first[key] == c.first[key])
    && (forall key :: key in c.lookup && at.lookupGet < c.lookup[key].expiresAt ==>
          key in c'.lookup && c'.lookup[key] == c.lookup[key])
  }

  lemma ResolveFirstKeepsLive(c: Caches, rcId: i32, host: string, servers: seq<SocketAddr>, net: Network)
    ensures KeepsLive(c, ResolveFirst(c, rcId, host, servers, net).1, net.at)
  {
  }

  lemma ResolveLookupKeepsLive(c: Caches, host: string, servers: seq<SocketAddr>, net: Network)
    ensures KeepsLive(c, ResolveLookup(c, host, servers, net).1, net.at)
  {
  }

  lemma DomainRuleKeepsLive(cfg: Config, c: Caches, rule: CompiledRule, q: Query, domain: string, net: Network)
    ensures KeepsLive(c, NaiveWithDomainRule(cfg, c, rule, q, domain, net).1, net.at)
  {
    ResolveFirstKeepsLive(c, rule.rcId, domain, cfg.Servers(), net);
  }

  lemma ReportedKeepsLive(cfg: Config, c: Caches, q: Query, r: LookupResolved, net: Network)
    ensures KeepsLive(c, NaiveReported(cfg, c, q, r, net).1, net.at)
  {
    var found: Option<(string, CompiledRule)> := FirstSome(r.aliases, AliasHit(cfg.table.rules, q));
    if found.Some? {
      DomainRuleKeepsLive(cfg, c, found.value.1, q, found.value.0, net);
    }
  }

  lemma DerivedKeepsLive(cfg: Config, c: Caches, q: Query, domain: string, net: Network)
    ensures KeepsLive(c, NaiveDerived(cfg, c, q, domain, net).1, net.at)
  {
    if cfg.Servers() != [] {
      ResolveLookupKeepsLive(c, domain, cfg.Servers(), net);
      var (r, c') := ResolveLookup(c, domain, cfg.Servers(), net);
      if r.Ok? {
        ReportedKeepsLive(cfg, c', q, r.value, net);
      }
    }
  }

  lemma PlanKeepsLive(cfg: Config, c: Caches, q: Query, net: Network)
    ensures KeepsLive(c, NaivePlan(cfg, c, q, net).1, net.at)
  {
    var target := ParseTarget(q.host);
    if target.DomainTarget? {
      var rule := FirstRawMatch(cfg.table.rules, target, q.port, q.flow);
      if rule.Some? {
        DomainRuleKeepsLive(cfg, c, rule.value, q, target.name, net);
      } else {
        DerivedKeepsLive(cfg, c, q, target.name, net);
      }
    }
  }

  /** Only planning calls follow, all before the moment. */
  ghost predicate PlansBefore(events: seq<Event>, i: nat, moment: Instant) {
    forall j :: i <= j < |events| ==>
      events[j].PlanTarget? && events[j].net.at.firstGet < moment && events[j].net.at.lookupGet < moment
  }

  lemma {:induction false} LiveEntriesStay(events: seq<Event>, i: nat, key: CacheKey)
    requires i <= |events| && key in Run(events[..i]).caches.first
    requires PlansBefore(events, i, Run(events[..i]).caches.first[key].expiresAt)
    ensures key in Run(events).caches.first && Run(events).caches.first[key] == Run(events[..i]).caches.first[key]
  {
    if i < |events| {
      var front, last := events[..|events| - 1], events[|events| - 1];
      assert front[..i] == events[..i] && events == front + [last];
      LiveEntriesStay(front, i, key);
      RunNext(front, last);
      if Run(front).mode.Installed? {
        PlanKeepsLive(Run(front).mode.cfg, Run(front).caches, last.q, last.net);
      }
    } else {
      assert events[..i] == events;
    }
  }

  lemma {:induction false} LiveReportsStay(events: seq<Event>, i: nat, key: string)
    requires i <= |events| && key in Run(events[..i]).caches.lookup
    requires PlansBefore(events, i, Run(events[..i]).caches.lookup[key].expiresAt)
    ensures key in Run(events).caches.lookup && Run(events).caches.lookup[key] == Run(events[..i]).caches.lookup[key]
  {
    if i < |events| {
      var front, last := events[..|events| - 1], events[|events| - 1];
      assert front[..i] == events[..i] && events == front + [last];
      LiveReportsStay(front, i, key);
      RunNext(front, last);
      if Run(front).mode.Installed? {
        PlanKeepsLive(Run(front).mode.cfg, Run(front).caches, last.q, last.net);
      }
    } else {
      assert events[..i] == events;
    }
  }

  /** A cached address is served to every later planning call until it expires or a table is installed, and
      the servers are not asked again. */
  lemma CachedAnswersAreServed(events: seq<Event>, i: nat, key: CacheKey, servers: seq<SocketAddr>, later: Network)
    requires i <= |events| && key in Run(events[..i]).caches.first
    requires var entry := Run(events[..i]).caches.first[key];
             PlansBefore(events, i, entry.expiresAt) && later.at.firstGet < entry.expiresAt
    ensures ResolveFirst(Run(events).caches, key.rcId, key.host, servers, later)
            == (Ok(Resolved(Run(events[..i]).caches.first[key].ip, Cache)), Run(events).caches)
  {
    LiveEntriesStay(events, i, key);
  }

  // ---------------------------------------------------------------- the last install decides

  lemma {:induction false} LastInstallMeaning(events: seq<Event>)
    ensures var k := LastInstall(events);
            && -1 <= k < |events|
            && (k >= 0 ==> !events[k].PlanTarget?)
            && forall j :: k < j < |events| ==> events[j].PlanTarget?
  {
    if events != [] {
      LastInstallMeaning(events[..|events| - 1]);
    }
  }

  lemma {:induction false} ModeIsInstalled(events: seq<Event>)
    ensures -1 <= LastInstall(events) < |events|
    ensures var k := LastInstall(events);
            Run(events).mode ==
              if k < 0 then Unavailable
              else match events[k] case Install(cfg) => Installed(cfg) case _ => TunnelFallback
  {
    LastInstallMeaning(events);
    if events != [] {
      ModeIsInstalled(events[..|events| - 1]);
    }
  }

  /** What a planning call answers, by the last install: the decision table of the installed table; the tunnel
      for everything in fallback mode; an error before any install. */
  ghost predicate Answers(events: seq<Event>, q: Query, net: Network, r: Result<RoutePlan, RouteError>)
    requires -1 <= LastInstall(events) < |events|
  {
    if LastInstall(events) < 0 then r == Err(NotInitialized)
    else
      match events[LastInstall(events)]
      case Install(cfg) =>
        r.Ok? && Decided(cfg, Run(events).caches, q, net, r.value, Run(events + [PlanTarget(q, net)]).caches)
      case _ =>
        r == Ok(Remote(q.host + ":" + Decimal(q.port), 0, "route-table-unavailable", RouteTableUnavailable))
  }

  lemma OutcomesByLastInstall(events: seq<Event>, q: Query, net: Network)
    ensures -1 <= LastInstall(events) < |events|
    ensures Answers(events, q, net, Outcome(Run(events), q, net))
  {
    ModeIsInstalled(events);
    RunNext(events, PlanTarget(q, net));
    var s := Run(events);
    if s.mode.Installed? {
      PlansAreDecided(s.mode.cfg, s.caches, q, net);
    }
  }

  // ---------------------------------------------------------------- the router object

  datatype RouteMode = NoMode | Matching(matcher: RouteMatcher) | Tunnelling

  datatype RouteError = NotInitialized

  datatype Summary = Summary(ruleCount: nat, dnsServerCount: nat, dnsRecordCount: nat)

  ghost function Outcome(s: RouterState, q: Query, net: Network): Result<RoutePlan, RouteError> {
    match s.mode
    case Installed(cfg) => Ok(NaivePlan(cfg, s.caches, q, net).0)
    case TunnelFallback => Ok(Remote(HostPort(q.host, q.port), 0, "route-table-unavailable", RouteTableUnavailable))
    case Unavailable => Err(NotInitialized)
  }

  class RouterCell {
    var mode: RouteMode
    const resolver: Resolver
    ghost var installed: Mode

    ghost predicate Valid()
      reads this
    {
      match mode
      case NoMode => installed == Unavailable
      case Matching(matcher) => installed.Installed? && matcher.Represents(installed.cfg)
      case Tunnelling => installed == TunnelFallback
    }

    ghost function State(): RouterState
      reads this, resolver
    {
      RouterState(installed, resolver.State())
    }

    constructor ()
      ensures Valid() && fresh(resolver)
      ensures State() == Run([])
    {
      mode, installed := NoMode, Unavailable;
      resolver := new Resolver();
    }

    method InstallRouteTable(cfg: Config) returns (summary: Summary)
      requires Valid()
      modifies this, resolver
      ensures Valid() && State() == Step(old(State()), Install(cfg))
      ensures summary.ruleCount == |Compiled(cfg.table.rules)|
      ensures mode.Matching? && summary.dnsRecordCount == Dns.StoredCount(mode.matcher.dns.scoped)
      ensures summary.dnsServerCount == |FirstOccurrences(cfg.Servers())|
    {
      var matcher := RouteMatcher.FromTable(cfg);
      resolver.ClearCache();
      mode, installed := Matching(matcher), Installed(cfg);
      summary := Summary(|matcher.rules|, |matcher.dnsServers|, matcher.dns.recordCount);
    }

    method InstallTunnelFallback()
      requires Valid()
      modifies this, resolver
      ensures Valid() && State() == Step(old(State()), InstallFallback)
    {
      resolver.ClearCache();
      mode, installed := Tunnelling, TunnelFallback;
    }

    method PlanTargetWithProto(q: Query, net: Network) returns (r: Result<RoutePlan, RouteError>)
      requires Valid()
      modifies this, resolver
      ensures Valid() && State() == Step(old(State()), PlanTarget(q, net))
      ensures r == Outcome(old(State()), q, net)
    {
      match mode {
        case Matching(matcher) =>
          var plan := matcher.Plan(installed.cfg, resolver, q, net);
          r := Ok(plan);
        case Tunnelling =>
          r := Ok(Remote(HostPort(q.host, q.port), 0, "route-table-unavailable", RouteTableUnavailable));
        case NoMode =>
          r := Err(NotInitialized);
      }
    }
  }
}
