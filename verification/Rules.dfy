/** Route rules: compilation of the raw table, the flow test, and the index that replaces the
    linear scan over the compiled rules. */
module Rules {
  import opened Prelude
  import opened Sequences
  import opened Text

  type i32 = x: int | -0x8000_0000 <= x < 0x8000_0000

  datatype PortRange = PortRange(start: u16, end: u16)

  datatype RouteRule = RouteRule(rcId: i32, proto: i32, svc: string, name: string, host: string, port: PortRange)

  datatype HostMatcher =
    | Domain(name: string)
    | Exact(ip: Ipv4)
    | Range(start: u32, end: u32)

  datatype CompiledRule = CompiledRule(rcId: i32, rcName: string, proto: i32, svc: string,
                                       matcher: HostMatcher, port: PortRange)

  datatype FlowProto = Tcp | Udp | Icmp
  {
    function Code(): i32 {
      match this
      case Tcp => 0
      case Udp => 1
      case Icmp => 2
    }
  }

  datatype Target = DomainTarget(name: string) | Ipv4Target(ip: Ipv4)

  function ParseTarget(host: string): Target {
    match ParseIpv4(Trim(host))
    case Some(ip) => Ipv4Target(ip)
    case None => DomainTarget(NormalizeDomain(host))
  }

  /** `"a~b"`, with the bounds in either order. */
  function ParseRange(text: string): Option<HostMatcher> {
    match SplitOnce(text, '~')
    case None => None
    case Some((start, end)) => RangeBetween(ParseIpv4(Trim(start)), ParseIpv4(Trim(end)))
  }

  function RangeBetween(a: Option<Ipv4>, b: Option<Ipv4>): Option<HostMatcher> {
    if a.None? || b.None? then None
    else if a.value <= b.value then Some(Range(a.value, b.value))
    else Some(Range(b.value, a.value))
  }

  function CompileMatcher(host: string): Option<HostMatcher> {
    if '~' in host then ParseRange(host)
    else
      match ParseIpv4(Trim(host))
      case Some(ip) => Some(Exact(ip))
      case None => if NormalizeDomain(host) == "" then None else Some(Domain(NormalizeDomain(host)))
  }

  function CompileRule(rule: RouteRule): Option<CompiledRule> {
    match CompileMatcher(rule.host)
    case None => None
    case Some(m) => Some(CompiledRule(rule.rcId, rule.name, rule.proto, rule.svc, m, rule.port))
  }

  datatype DedupKey = DedupKey(rcId: i32, rcName: string, proto: i32, svc: string, matcher: HostMatcher,
                               portStart: u16, portEnd: u16)

  function KeyOf(rule: CompiledRule): DedupKey {
    DedupKey(rule.rcId, rule.rcName, rule.proto, rule.svc, rule.matcher, rule.port.start, rule.port.end)
  }

  /** What the compiled table is: the rules that compile, each kept where it occurs first. */
  ghost function Compiled(raw: seq<RouteRule>): seq<CompiledRule> {
    Distinct(raw, CompileRule)
  }

  method CompileRules(raw: seq<RouteRule>) returns (rules: seq<CompiledRule>)
    ensures rules == Compiled(raw)
  {
    rules := [];
    var seen: set<DedupKey> := {};
    for n := 0 to |raw|
      invariant rules == Compiled(raw[..n])
      invariant forall r: CompiledRule :: KeyOf(r) in seen <==> r in rules
    {
      DistinctNext(raw, n, CompileRule);
      var compiled := CompileRule(raw[n]);
      if compiled.Some? {
        var key := KeyOf(compiled.value);
        if key !in seen {
          seen := seen + {key};
          rules := rules + [compiled.value];
        }
      }
    }
    assert raw[..|raw|] == raw;
  }

  function RuleMatchesFlow(rule: CompiledRule, port: u16, flow: FlowProto): bool {
    if Trim(rule.svc) == "vipall" then true
    else if !(rule.proto == -1 || rule.proto == flow.Code()) then false
    else if flow == Icmp then true
    else rule.port.start <= port <= rule.port.end
  }

  predicate MatcherContains(m: HostMatcher, target: Target) {
    match (m, target)
    case (Domain(d), DomainTarget(name)) => d == name
    case (Exact(a), Ipv4Target(ip)) => a == ip
    case (Range(start, end), Ipv4Target(ip)) => start <= ip <= end
    case _ => false
  }

  predicate RuleApplies(rule: CompiledRule, target: Target, port: u16, flow: FlowProto) {
    MatcherContains(rule.matcher, target) && RuleMatchesFlow(rule, port, flow)
  }

  function RuleHit(target: Target, port: u16, flow: FlowProto): CompiledRule -> Option<CompiledRule> {
    (rule: CompiledRule) => if RuleApplies(rule, target, port, flow) then Some(rule) else None
  }

  /** The reference search: the first rule, in list order, that applies. */
  function FirstMatch(rules: seq<CompiledRule>, target: Target, port: u16, flow: FlowProto): Option<CompiledRule> {
    FirstSome(rules, RuleHit(target, port, flow))
  }

  /** The raw rule compiles and its compiled form applies. */
  predicate RawApplies(raw: RouteRule, target: Target, port: u16, flow: FlowProto) {
    var compiled := CompileRule(raw);
    compiled.Some? && RuleApplies(compiled.value, target, port, flow)
  }

  function RawHit(target: Target, port: u16, flow: FlowProto): RouteRule -> Option<CompiledRule> {
    (raw: RouteRule) => if RawApplies(raw, target, port, flow) then CompileRule(raw) else None
  }

  /** The reference search over the raw table, compiling each rule as it is met. */
  function FirstRawMatch(raw: seq<RouteRule>, target: Target, port: u16, flow: FlowProto): Option<CompiledRule> {
    FirstSome(raw, RawHit(target, port, flow))
  }

  /** Compilation and de-duplication preserve the answer of every search. */
  lemma CompilationPreservesSearch(raw: seq<RouteRule>, target: Target, port: u16, flow: FlowProto)
    ensures FirstMatch(Compiled(raw), target, port, flow) == FirstRawMatch(raw, target, port, flow)
  {
    var hit := RuleHit(target, port, flow);
    FirstSomeDedup(FilterMap(raw, CompileRule), hit);
    forall r | r in raw
      ensures RawHit(target, port, flow)(r) == match CompileRule(r) case None => None case Some(rule) => hit(rule)
    {
      var compiled := CompileRule(r);
    }
    FirstSomeFusion(raw, CompileRule, hit, RawHit(target, port, flow));
  }

  /** `rule` is what the first applying entry of the raw table compiles to. */
  ghost predicate IsFirstApplying(raw: seq<RouteRule>, i: nat, rule: CompiledRule, target: Target, port: u16,
                                  flow: FlowProto)
  {
    && i < |raw| && CompileRule(raw[i]) == Some(rule) && RuleApplies(rule, target, port, flow)
    && forall j :: 0 <= j < i ==> !RawApplies(raw[j], target, port, flow)
  }

  /** The search answers with the first rule of the raw table that applies, and fails exactly
      when none does. */
  lemma FirstRawMatchMeaning(raw: seq<RouteRule>, target: Target, port: u16, flow: FlowProto)
    ensures match FirstRawMatch(raw, target, port, flow)
            case None => forall i :: 0 <= i < |raw| ==> !RawApplies(raw[i], target, port, flow)
            case Some(rule) => exists i :: IsFirstApplying(raw, i, rule, target, port, flow)
  {
    var hit := RawHit(target, port, flow);
    var k := FirstSomeIsLeast(raw, hit);
    assert forall i :: 0 <= i < |raw| && hit(raw[i]).None? ==> !RawApplies(raw[i], target, port, flow);
    if k < |raw| {
      var rule := CompileRule(raw[k]).value;
      assert IsFirstApplying(raw, k, rule, target, port, flow);
    }
  }

  ghost predicate SomeRuleApplies(raw: seq<RouteRule>, target: Target, port: u16, flow: FlowProto) {
    exists r :: r in raw && RawApplies(r, target, port, flow)
  }

  lemma SearchSucceedsIff(raw: seq<RouteRule>, target: Target, port: u16, flow: FlowProto)
    ensures FirstRawMatch(raw, target, port, flow).Some? <==> SomeRuleApplies(raw, target, port, flow)
  {
    var hit := RawHit(target, port, flow);
    FirstSomeNone(raw, hit);
    forall r ensures hit(r).Some? <==> RawApplies(r, target, port, flow) {
    }
  }

  datatype RuleIndex = RuleIndex(domain: map<string, seq<nat>>, ipv4: map<Ipv4, seq<nat>>,
                                 rangeBuckets: seq<seq<nat>>)

  function IdsAt<K>(m: map<K, seq<nat>>, k: K): seq<nat> {
    if k in m then m[k] else []
  }

  /** `(x >> 24) & 0xff`. */
  function Bucket(x: u32): (b: nat)
    ensures b < 256
  {
    x / 0x100_0000
  }

  predicate Ascending(ids: seq<nat>) {
    forall i, j :: 0 <= i < j < |ids| ==> ids[i] < ids[j]
  }

  /** `ids` are, in ascending order, the positions below `n` whose matcher satisfies `holds`. */
  ghost predicate Lists(ids: seq<nat>, rules: seq<CompiledRule>, n: nat, holds: HostMatcher -> bool)
    requires n <= |rules|
  {
    Ascending(ids) && forall i :: i in ids <==> 0 <= i < n && holds(rules[i].matcher)
  }

  ghost function IsDomain(d: string): HostMatcher -> bool {
    (m: HostMatcher) => m == Domain(d)
  }

  ghost function IsExact(ip: Ipv4): HostMatcher -> bool {
    (m: HostMatcher) => m == Exact(ip)
  }

  ghost function IsRangeOver(b: nat): HostMatcher -> bool {
    (m: HostMatcher) => m.Range? && Bucket(m.start) <= b <= Bucket(m.end)
  }

  /** The index describes the first `n` rules, position by position. */
  ghost predicate IndexesUpTo(index: RuleIndex, rules: seq<CompiledRule>, n: nat)
    requires n <= |rules|
  {
    && |index.rangeBuckets| == 256
    && (forall d :: Lists(IdsAt(index.domain, d), rules, n, IsDomain(d)))
    && (forall ip :: Lists(IdsAt(index.ipv4, ip), rules, n, IsExact(ip)))
    && (forall b :: 0 <= b < 256 ==> Lists(index.rangeBuckets[b], rules, n, IsRangeOver(b)))
  }

  ghost predicate Indexes(index: RuleIndex, rules: seq<CompiledRule>) {
    IndexesUpTo(index, rules, |rules|)
  }

  lemma ListsSnoc(ids: seq<nat>, rules: seq<CompiledRule>, n: nat, holds: HostMatcher -> bool)
    requires n < |rules| && Lists(ids, rules, n, holds)
    ensures Lists(if holds(rules[n].matcher) then ids + [n] else ids, rules, n + 1, holds)
  {
    assert forall i :: 0 <= i < |ids| ==> ids[i] in ids;
  }

  /** `after` files position `n` under the one key its matcher names. */
  ghost predicate FilesNext(before: RuleIndex, after: RuleIndex, m: HostMatcher, n: nat)
    requires |before.rangeBuckets| == |after.rangeBuckets| == 256
  {
    && (forall d :: IdsAt(after.domain, d) == Filed(IdsAt(before.domain, d), n, IsDomain(d)(m)))
    && (forall ip :: IdsAt(after.ipv4, ip) == Filed(IdsAt(before.ipv4, ip), n, IsExact(ip)(m)))
    && (forall b :: 0 <= b < 256 ==> after.rangeBuckets[b] == Filed(before.rangeBuckets[b], n, IsRangeOver(b)(m)))
  }

  ghost function Filed(ids: seq<nat>, n: nat, here: bool): seq<nat> {
    if here then ids + [n] else ids
  }

  lemma IndexesNext(before: RuleIndex, after: RuleIndex, rules: seq<CompiledRule>, n: nat)
    requires n < |rules| && IndexesUpTo(before, rules, n) && |after.rangeBuckets| == 256
    requires FilesNext(before, after, rules[n].matcher, n)
    ensures IndexesUpTo(after, rules, n + 1)
  {
    forall d ensures Lists(IdsAt(after.domain, d), rules, n + 1, IsDomain(d)) {
      ListsSnoc(IdsAt(before.domain, d), rules, n, IsDomain(d));
    }
    forall ip ensures Lists(IdsAt(after.ipv4, ip), rules, n + 1, IsExact(ip)) {
      ListsSnoc(IdsAt(before.ipv4, ip), rules, n, IsExact(ip));
    }
    forall b | 0 <= b < 256 ensures Lists(after.rangeBuckets[b], rules, n + 1, IsRangeOver(b)) {
      ListsSnoc(before.rangeBuckets[b], rules, n, IsRangeOver(b));
    }
  }

  method BuildIndex(rules: seq<CompiledRule>) returns (index: RuleIndex)
    ensures Indexes(index, rules)
  {
    index := RuleIndex(map[], map[], seq(256, _ => []));
    for n := 0 to |rules|
      invariant IndexesUpTo(index, rules, n)
    {
      ghost var before := index;
      index := FileRule(index, rules[n].matcher, n);
      IndexesNext(before, index, rules, n);
    }
  }

  method FileRule(index: RuleIndex, m: HostMatcher, n: nat) returns (out: RuleIndex)
    requires |index.rangeBuckets| == 256
    ensures |out.rangeBuckets| == 256 && FilesNext(index, out, m, n)
  {
    match m {
      case Domain(d) =>
        out := index.(domain := index.domain[d := IdsAt(index.domain, d) + [n]]);
      case Exact(ip) =>
        out := index.(ipv4 := index.ipv4[ip := IdsAt(index.ipv4, ip) + [n]]);
      case Range(start, end) =>
        var buckets := PushBuckets(index.rangeBuckets, n, Bucket(start), Bucket(end));
        out := index.(rangeBuckets := buckets);
    }
  }

  method PushBuckets(buckets: seq<seq<nat>>, id: nat, first: nat, last: nat) returns (out: seq<seq<nat>>)
    requires |buckets| == 256 && last < 256
    ensures |out| == 256
    ensures forall b :: 0 <= b < 256 ==> out[b] == if first <= b <= last then buckets[b] + [id] else buckets[b]
  {
    out := buckets;
    var bucket := first;
    while bucket <= last
      invariant first <= bucket && (bucket <= last + 1 || bucket == first)
      invariant |out| == 256
      invariant forall b :: 0 <= b < 256 ==> out[b] == if first <= b < bucket then buckets[b] + [id] else buckets[b]
    {
      out := out[bucket := out[bucket] + [id]];
      bucket := bucket + 1;
    }
  }

  /** `best` is the least of `start` and the listed positions whose rule applies. */
  ghost predicate LeastOf(best: Option<nat>, start: Option<nat>, ids: seq<nat>, rules: seq<CompiledRule>,
                          target: Target, port: u16, flow: FlowProto)
  {
    && (best.Some? ==> best == start
                       || (best.value in ids && best.value < |rules|
                           && RuleApplies(rules[best.value], target, port, flow)))
    && (start.Some? ==> best.Some? && best.value <= start.value)
    && (forall i :: i in ids && i < |rules| && RuleApplies(rules[i], target, port, flow) ==>
          best.Some? && best.value <= i)
  }

  method BestExact(ids: seq<nat>, rules: seq<CompiledRule>, ip: Ipv4, port: u16, flow: FlowProto)
    returns (best: Option<nat>)
    requires forall i :: i in ids ==> i < |rules| && rules[i].matcher == Exact(ip)
    ensures LeastOf(best, None, ids, rules, Ipv4Target(ip), port, flow)
  {
    best := None;
    for k := 0 to |ids|
      invariant LeastOf(best, None, ids[..k], rules, Ipv4Target(ip), port, flow)
    {
      assert ids[..k + 1] == ids[..k] + [ids[k]];
      assert ids[k] in ids;
      if RuleMatchesFlow(rules[ids[k]], port, flow) && (best.None? || ids[k] < best.value) {
        best := Some(ids[k]);
      }
    }
    assert ids[..|ids|] == ids;
  }

  method BestRange(ids: seq<nat>, rules: seq<CompiledRule>, start: Option<nat>, ip: Ipv4, port: u16, flow: FlowProto)
    returns (best: Option<nat>)
    requires forall i :: i in ids ==> i < |rules| && rules[i].matcher.Range?
    ensures LeastOf(best, start, ids, rules, Ipv4Target(ip), port, flow)
  {
    best := start;
    for k := 0 to |ids|
      invariant LeastOf(best, start, ids[..k], rules, Ipv4Target(ip), port, flow)
    {
      assert ids[..k + 1] == ids[..k] + [ids[k]];
      assert ids[k] in ids;
      var rule := rules[ids[k]];
      if rule.matcher.start <= ip <= rule.matcher.end && RuleMatchesFlow(rule, port, flow)
         && (best.None? || ids[k] < best.value) {
        best := Some(ids[k]);
      }
    }
    assert ids[..|ids|] == ids;
  }

  method FindDomain(ids: seq<nat>, rules: seq<CompiledRule>, name: string, port: u16, flow: FlowProto)
    returns (r: Option<nat>)
    requires Lists(ids, rules, |rules|, IsDomain(name))
    ensures LeastOf(r, None, ids, rules, DomainTarget(name), port, flow)
  {
    for k := 0 to |ids|
      invariant forall j :: 0 <= j < k ==> ids[j] in ids && !RuleMatchesFlow(rules[ids[j]], port, flow)
    {
      assert ids[k] in ids;
      if RuleMatchesFlow(rules[ids[k]], port, flow) {
        return Some(ids[k]);
      }
    }
    return None;
  }

  /** The indexed search answers as the linear scan does: with the applying rule of least
      position, whichever of the three indexes holds it. */
  method FindFirstMatch(index: RuleIndex, rules: seq<CompiledRule>, target: Target, port: u16, flow: FlowProto)
    returns (r: Option<CompiledRule>)
    requires Indexes(index, rules)
    ensures r == FirstMatch(rules, target, port, flow)
  {
    var best: Option<nat>;
    match target {
      case DomainTarget(name) =>
        best := FindDomain(IdsAt(index.domain, name), rules, name, port, flow);
        assert forall i :: 0 <= i < |rules| && MatcherContains(rules[i].matcher, target)
                 ==> i in IdsAt(index.domain, name);
      case Ipv4Target(ip) =>
        assert Lists(IdsAt(index.ipv4, ip), rules, |rules|, IsExact(ip));
        best := BestExact(IdsAt(index.ipv4, ip), rules, ip, port, flow);
        best := BestRange(index.rangeBuckets[Bucket(ip)], rules, best, ip, port, flow);
        assert forall i :: 0 <= i < |rules| && MatcherContains(rules[i].matcher, target)
                 ==> i in IdsAt(index.ipv4, ip) || i in index.rangeBuckets[Bucket(ip)];
    }
    FirstSomeAt(rules, match best case None => |rules| case Some(k) => k, RuleHit(target, port, flow));
    r := match best case None => None case Some(k) => Some(rules[k]);
  }
}
