/** What a raw rule and an extra entry cover, by their text. */
module RuleLaws {
  import opened Prelude
  import opened Text
  import opened TextLaws
  import opened Rules
  import opened ExtraIps

  // ---------------------------------------------------------------- rules

  /** The port and protocol test: a rule for all services admits everything; other rules must be for any
      protocol (-1) or for that of the flow (0 TCP, 1 UDP, 2 ICMP), and, but for ICMP, hold the port. */
  lemma FlowTestMeaning(rule: CompiledRule, port: u16, flow: FlowProto)
    ensures var code := if flow.Tcp? then 0 else if flow.Udp? then 1 else 2;
            RuleMatchesFlow(rule, port, flow) <==>
              Trim(rule.svc) == "vipall"
              || (rule.proto in {-1, code} && (code == 2 || rule.port.start <= port <= rule.port.end))
  {
  }

  /** The rule's text does not look at its own port, protocol or service. */
  predicate Admits(raw: RouteRule, port: u16, flow: FlowProto) {
    var code := if flow.Tcp? then 0 else if flow.Udp? then 1 else 2;
    Trim(raw.svc) == "vipall" || (raw.proto in {-1, code} && (code == 2 || raw.port.start <= port <= raw.port.end))
  }

  lemma RangeCovers(x: Option<Ipv4>, y: Option<Ipv4>, target: Target)
    ensures RangeBetween(x, y).Some? && MatcherContains(RangeBetween(x, y).value, target) <==>
              && x.Some? && y.Some? && target.Ipv4Target?
              && (x.value <= target.ip <= y.value || y.value <= target.ip <= x.value)
  {
  }

  lemma RangeHost(host: string, a: string, b: string)
    requires host == a + "~" + b && '~' !in a
    ensures CompileMatcher(host) == RangeBetween(ParseIpv4(Trim(a)), ParseIpv4(Trim(b)))
  {
    assert host[|a|] == '~';
    ParseRangeJoined(a, b);
  }

  lemma AppliesIff(raw: RouteRule, target: Target, port: u16, flow: FlowProto)
    ensures RawApplies(raw, target, port, flow) <==>
              && CompileMatcher(raw.host).Some? && MatcherContains(CompileMatcher(raw.host).value, target)
              && Admits(raw, port, flow)
  {
    if CompileRule(raw).Some? {
      FlowTestMeaning(CompileRule(raw).value, port, flow);
    }
  }

  /** A rule for `a~b` covers the addresses between the two, in either order, and no name; it is void unless
      both are addresses. */
  lemma RangeRuleMeaning(raw: RouteRule, a: string, b: string, target: Target, port: u16, flow: FlowProto)
    requires raw.host == a + "~" + b && '~' !in a
    ensures var x, y := ParseIpv4(Trim(a)), ParseIpv4(Trim(b));
            RawApplies(raw, target, port, flow) <==>
              && x.Some? && y.Some? && target.Ipv4Target?
              && (x.value <= target.ip <= y.value || y.value <= target.ip <= x.value) && Admits(raw, port, flow)
  {
    AppliesIff(raw, target, port, flow);
    RangeHost(raw.host, a, b);
    RangeCovers(ParseIpv4(Trim(a)), ParseIpv4(Trim(b)), target);
  }

  /** A rule for an address covers that address alone; a rule for a name covers that name alone, after
      normalisation, and an empty one covers nothing. */
  lemma NameRuleMeaning(raw: RouteRule, target: Target, port: u16, flow: FlowProto)
    requires '~' !in raw.host
    ensures RawApplies(raw, target, port, flow) <==>
              && Admits(raw, port, flow)
              && match ParseIpv4(Trim(raw.host))
                 case Some(ip) => target == Ipv4Target(ip)
                 case None => NormalizeDomain(raw.host) != "" && target == DomainTarget(NormalizeDomain(raw.host))
  {
    AppliesIff(raw, target, port, flow);
  }

  /** A host is an address if its trimmed text is that of an address, else the name it normalises to. */
  lemma TargetMeaning(host: string, a: u8, b: u8, c: u8, d: u8)
    ensures Trim(host) == QuadText(a, b, c, d) ==> ParseTarget(host) == Ipv4Target(FromOctets(a, b, c, d))
    ensures (forall w, x, y, z :: Trim(host) != QuadText(w, x, y, z)) ==>
              ParseTarget(host) == DomainTarget(NormalizeDomain(host))
  {
    AddressMeaning(a, b, c, d);
    ParseIpv4Iff(Trim(host));
  }

  // ---------------------------------------------------------------- extra entries

  /** Whether an entry covers an address. */
  predicate Covers(entry: string, ip: Ipv4) {
    var m := ParseExtraIp(entry);
    m.Some? && MatcherContains(m.value, Ipv4Target(ip))
  }

  lemma CoversBy(entry: string, m: Option<HostMatcher>, ip: Ipv4)
    requires ParseExtraIp(entry) == m
    ensures Covers(entry, ip) <==> m.Some? && MatcherContains(m.value, Ipv4Target(ip))
  {
  }

  lemma SplitsAt(entry: string, a: string, c: char, b: string)
    requires Trim(entry) == a + [c] + b && c !in a
    ensures c in Trim(entry) && Trim(entry) != "" && SplitOnce(Trim(entry), c) == Some((a, b))
  {
    assert Trim(entry)[|a|] == c;
    SplitOnceJoined(a, c, b);
  }

  lemma CidrEntry(entry: string, a: string, b: string)
    requires Trim(entry) == a + "/" + b && '/' !in a
    ensures var base, prefix := ParseIpv4(Trim(a)), ParseU8(Trim(b));
            ParseExtraIp(entry) ==
              if base.None? || prefix.None? || prefix.value > 32 then None
              else Some(Range(CidrStart(base.value, prefix.value), CidrEnd(base.value, prefix.value)))
  {
    assert a + "/" + b == a + ['/'] + b;
    SplitsAt(entry, a, '/', b);
  }

  /** An entry `address/length` covers the addresses that share the first `length` bits, and nothing if the
      length is over 32 or either part does not parse. */
  lemma CidrEntryMeaning(entry: string, a: string, b: string, ip: Ipv4)
    requires Trim(entry) == a + "/" + b && '/' !in a
    ensures var base, prefix := ParseIpv4(Trim(a)), ParseU8(Trim(b));
            Covers(entry, ip) <==>
              && base.Some? && prefix.Some? && prefix.value <= 32
              && ShiftRight(ip, 32 - prefix.value) == ShiftRight(base.value, 32 - prefix.value)
  {
    var base, prefix := ParseIpv4(Trim(a)), ParseU8(Trim(b));
    if base.Some? && prefix.Some? && prefix.value <= 32 {
      CidrEntryBlock(entry, a, b, base.value, prefix.value, ip);
    } else {
      CidrEntry(entry, a, b);
      CoversBy(entry, None, ip);
    }
  }

  lemma CidrEntryBlock(entry: string, a: string, b: string, base: Ipv4, prefix: u8, ip: Ipv4)
    requires Trim(entry) == a + "/" + b && '/' !in a
    requires ParseIpv4(Trim(a)) == Some(base) && ParseU8(Trim(b)) == Some(prefix) && prefix <= 32
    ensures Covers(entry, ip) <==> ShiftRight(ip, 32 - prefix) == ShiftRight(base, 32 - prefix)
  {
    CidrEntry(entry, a, b);
    CoversBy(entry, Some(Range(CidrStart(base, prefix), CidrEnd(base, prefix))), ip);
    CidrCovers(base, prefix, ip);
  }

  lemma CidrCovers(base: Ipv4, prefix: nat, ip: Ipv4)
    requires prefix <= 32
    ensures MatcherContains(Range(CidrStart(base, prefix), CidrEnd(base, prefix)), Ipv4Target(ip)) <==>
              ShiftRight(ip, 32 - prefix) == ShiftRight(base, 32 - prefix)
  {
    CidrBlock(base, prefix);
  }

  /** The entry as it is usually written. */
  lemma CidrTextMeaning(a: u8, b: u8, c: u8, d: u8, prefix: u8, ip: Ipv4)
    ensures Covers(QuadText(a, b, c, d) + "/" + Decimal(prefix), ip) <==>
              && prefix <= 32
              && ShiftRight(ip, 32 - prefix) == ShiftRight(FromOctets(a, b, c, d), 32 - prefix)
  {
    var quad, entry := QuadText(a, b, c, d), QuadText(a, b, c, d) + "/" + Decimal(prefix);
    QuadIsPlain(a, b, c, d);
    DecimalIsPlain(prefix);
    assert entry[0] == quad[0] && entry[|entry| - 1] == Decimal(prefix)[|Decimal(prefix)| - 1];
    TrimOfTrimmed(entry);
    CidrEntryMeaning(entry, quad, Decimal(prefix), ip);
    AddressMeaning(a, b, c, d);
    ParseU8Meaning(prefix);
  }

  /** The text of an address has no slash and no space at its ends. */
  lemma QuadIsPlain(a: u8, b: u8, c: u8, d: u8)
    ensures var quad := QuadText(a, b, c, d);
            quad != "" && '/' !in quad && '~' !in quad && Trimmed(quad) && Trim(quad) == quad
  {
    var quad := QuadText(a, b, c, d);
    DecimalIsPlain(a);
    DecimalIsPlain(b);
    DecimalIsPlain(c);
    DecimalIsPlain(d);
    assert quad[0] == Decimal(a)[0] && quad[|quad| - 1] == Decimal(d)[|Decimal(d)| - 1];
    TrimOfTrimmed(quad);
  }

  lemma DecimalIsPlain(n: nat)
    ensures var s := Decimal(n); s != "" && '/' !in s && '~' !in s && Trimmed(s) && Trim(s) == s
    ensures !IsWhitespace(Decimal(n)[0]) && !IsWhitespace(Decimal(n)[|Decimal(n)| - 1])
  {
    var s := Decimal(n);
    assert s[0] in s && s[|s| - 1] in s;
    TrimOfTrimmed(s);
  }

  lemma RangeEntry(entry: string, a: string, b: string)
    requires Trim(entry) == a + "~" + b && '~' !in a && '/' !in Trim(entry)
    ensures ParseExtraIp(entry) == RangeBetween(ParseIpv4(Trim(a)), ParseIpv4(Trim(b)))
  {
    assert a + "~" + b == a + ['~'] + b;
    SplitsAt(entry, a, '~', b);
    ParseRangeJoined(a, b);
  }

  /** An entry `a~b` covers the addresses between the two, in either order. */
  lemma RangeEntryMeaning(entry: string, a: string, b: string, ip: Ipv4)
    requires Trim(entry) == a + "~" + b && '~' !in a && '/' !in Trim(entry)
    ensures var x, y := ParseIpv4(Trim(a)), ParseIpv4(Trim(b));
            Covers(entry, ip) <==>
              x.Some? && y.Some? && (x.value <= ip <= y.value || y.value <= ip <= x.value)
  {
    RangeEntry(entry, a, b);
    RangeCovers(ParseIpv4(Trim(a)), ParseIpv4(Trim(b)), Ipv4Target(ip));
  }

  /** Any other entry covers the address it is the text of, or nothing. */
  lemma AddressEntryMeaning(entry: string, ip: Ipv4)
    requires '/' !in Trim(entry) && '~' !in Trim(entry)
    ensures Covers(entry, ip) <==> ParseIpv4(Trim(entry)) == Some(ip)
  {
    if Trim(entry) == "" {
      assert ParseIpv4("").None?;
    }
  }
}
