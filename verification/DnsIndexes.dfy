/** The two maps built from the DNS records of a route table. */
module DnsIndexes {
  import opened Prelude
  import opened Sequences
  import opened Text
  import opened Rules

  datatype DnsRecord = DnsRecord(rcId: i32, host: string, ip: string)

  datatype Entry = Entry(rcId: i32, host: string, ip: Ipv4)

  /** A record counts when its host is not empty and its address parses. */
  function ValidEntry(rec: DnsRecord): Option<Entry> {
    var host := NormalizeDomain(rec.host);
    if host == "" then None
    else
      match ParseIpv4(Trim(rec.ip))
      case None => None
      case Some(ip) => Some(Entry(rec.rcId, host, ip))
  }

  function ScopedIp(rcId: i32, host: string): DnsRecord -> Option<Ipv4> {
    (rec: DnsRecord) => EntryIp(ValidEntry(rec), Some(rcId), host)
  }

  function HostIp(host: string): DnsRecord -> Option<Ipv4> {
    (rec: DnsRecord) => EntryIp(ValidEntry(rec), None, host)
  }

  function EntryIp(entry: Option<Entry>, rcId: Option<i32>, host: string): Option<Ipv4> {
    if entry.Some? && entry.value.host == host && (rcId.None? || rcId.value == entry.value.rcId)
    then Some(entry.value.ip) else None
  }

  datatype Index = Index(scoped: map<i32, map<string, seq<Ipv4>>>, exact: map<string, seq<Ipv4>>, recordCount: nat)

  function ListAt(m: map<string, seq<Ipv4>>, host: string): seq<Ipv4> {
    if host in m then m[host] else []
  }

  function ScopedAt(m: map<i32, map<string, seq<Ipv4>>>, rcId: i32, host: string): seq<Ipv4> {
    if rcId in m then ListAt(m[rcId], host) else []
  }

  /** Every lookup in the maps yields the duplicate-free list of the matching records' addresses,
      in record order. */
  ghost predicate IndexesRecords(index: Index, records: seq<DnsRecord>) {
    && (forall rcId, host :: ScopedAt(index.scoped, rcId, host) == Distinct(records, ScopedIp(rcId, host)))
    && (forall host :: ListAt(index.exact, host) == Distinct(records, HostIp(host)))
  }

  /** The sum of `weight` over the values of a map. */
  ghost function Total<K, V>(m: map<K, V>, weight: V -> nat): nat
    decreases |m|
  {
    if m == map[] then 0 else weight(m[Pick(m)]) + Total(m - {Pick(m)}, weight)
  }

  ghost function Pick<K, V>(m: map<K, V>): (k: K)
    requires m != map[]
    ensures k in m
  {
    var k :| k in m;
    k
  }

  lemma {:induction false} TotalWithout<K, V>(m: map<K, V>, weight: V -> nat, k: K)
    requires k in m
    ensures Total(m, weight) == weight(m[k]) + Total(m - {k}, weight)
    decreases |m|
  {
    var j := Pick(m);
    if j != k {
      TotalWithout(m - {j}, weight, k);
      TotalWithout(m - {k}, weight, j);
      assert m - {j} - {k} == m - {k} - {j};
    }
  }

  lemma TotalUpdate<K, V>(m: map<K, V>, weight: V -> nat, k: K, v: V)
    ensures Total(m[k := v], weight) + (if k in m then weight(m[k]) else 0) == Total(m, weight) + weight(v)
  {
    TotalWithout(m[k := v], weight, k);
    assert m[k := v] - {k} == m - {k};
    if k in m {
      TotalWithout(m, weight, k);
    } else {
      assert m - {k} == m;
    }
  }

  ghost function Length(s: seq<Ipv4>): nat {
    |s|
  }

  ghost function ScopeTotal(m: map<string, seq<Ipv4>>): nat {
    Total(m, Length)
  }

  /** The number of addresses stored in the scoped map, over all lists of all scopes. */
  ghost function StoredCount(scoped: map<i32, map<string, seq<Ipv4>>>): nat {
    Total(scoped, ScopeTotal)
  }

  method PushIp(m: map<string, seq<Ipv4>>, host: string, ip: Ipv4) returns (out: map<string, seq<Ipv4>>)
    ensures forall h :: ListAt(out, h) == if h == host then ListAt(m, h) + [ip] else ListAt(m, h)
    ensures ScopeTotal(out) == ScopeTotal(m) + 1
  {
    out := m[host := ListAt(m, host) + [ip]];
    TotalUpdate(m, Length, host, ListAt(m, host) + [ip]);
  }

  method PushScoped(m: map<i32, map<string, seq<Ipv4>>>, rcId: i32, host: string, ip: Ipv4)
    returns (out: map<i32, map<string, seq<Ipv4>>>)
    ensures forall r, h :: ScopedAt(out, r, h) ==
              if r == rcId && h == host then ScopedAt(m, r, h) + [ip] else ScopedAt(m, r, h)
    ensures StoredCount(out) == StoredCount(m) + 1
  {
    var inner := PushIp(if rcId in m then m[rcId] else map[], host, ip);
    out := m[rcId := inner];
    TotalUpdate(m, ScopeTotal, rcId, inner);
  }

  ghost function Extended(list: seq<Ipv4>, ip: Option<Ipv4>): seq<Ipv4> {
    if ip.None? then list else Include(list, ip.value)
  }

  /** `after` has one more record than `before`, contributing `entry`. */
  ghost predicate OneMore(before: seq<DnsRecord>, after: seq<DnsRecord>, entry: Option<Entry>) {
    && (forall rcId, host :: Distinct(after, ScopedIp(rcId, host))
          == Extended(Distinct(before, ScopedIp(rcId, host)), EntryIp(entry, Some(rcId), host)))
    && (forall host :: Distinct(after, HostIp(host))
          == Extended(Distinct(before, HostIp(host)), EntryIp(entry, None, host)))
  }

  lemma NextRecord(records: seq<DnsRecord>, n: nat)
    requires n < |records|
    ensures OneMore(records[..n], records[..n + 1], ValidEntry(records[n]))
  {
    forall rcId, host { DistinctNext(records, n, ScopedIp(rcId, host)); }
    forall host { DistinctNext(records, n, HostIp(host)); }
  }

  datatype Builder = Builder(index: Index, seen: set<Entry>, seenExact: set<(string, Ipv4)>)

  /** The state of the loop after the given records. */
  ghost predicate Built(b: Builder, records: seq<DnsRecord>) {
    && IndexesRecords(b.index, records)
    && (forall rcId, host, ip :: Entry(rcId, host, ip) in b.seen <==> ip in Distinct(records, ScopedIp(rcId, host)))
    && (forall host, ip :: (host, ip) in b.seenExact <==> ip in Distinct(records, HostIp(host)))
    && |b.seen| == StoredCount(b.index.scoped)
  }

  method BuildIndex(records: seq<DnsRecord>) returns (index: Index)
    ensures IndexesRecords(index, records)
    ensures index.recordCount == StoredCount(index.scoped)
  {
    var b := Builder(Index(map[], map[], 0), {}, {});
    for n := 0 to |records|
      invariant Built(b, records[..n])
    {
      NextRecord(records, n);
      var entry := ValidEntry(records[n]);
      b := Step(b, entry, records[..n], records[..n + 1]);
    }
    assert records[..|records|] == records;
    index := b.index.(recordCount := |b.seen|);
  }

  /** `b'` files `entry` at the end of its two lists, unless it is already there. */
  ghost predicate Inserts(b: Builder, b': Builder, entry: Entry) {
    && (forall r, h :: ScopedAt(b'.index.scoped, r, h) ==
          Extended(ScopedAt(b.index.scoped, r, h), EntryIp(Some(entry), Some(r), h)))
    && (forall h :: ListAt(b'.index.exact, h) == Extended(ListAt(b.index.exact, h), EntryIp(Some(entry), None, h)))
    && |b'.seen| == StoredCount(b'.index.scoped)
    && b'.seen == b.seen + {entry}
    && b'.seenExact == b.seenExact + {(entry.host, entry.ip)}
  }

  lemma InsertsNext(b: Builder, b': Builder, entry: Entry, before: seq<DnsRecord>, after: seq<DnsRecord>)
    requires Built(b, before) && OneMore(before, after, Some(entry)) && Inserts(b, b', entry)
    ensures Built(b', after)
  {
    assert IndexesRecords(b'.index, after);
    forall rcId, host, ip
      ensures Entry(rcId, host, ip) in b'.seen <==> ip in Distinct(after, ScopedIp(rcId, host))
    {
      assert Entry(rcId, host, ip) in b'.seen <==> Entry(rcId, host, ip) in b.seen || Entry(rcId, host, ip) == entry;
    }
    forall host, ip
      ensures (host, ip) in b'.seenExact <==> ip in Distinct(after, HostIp(host))
    {
      assert (host, ip) in b'.seenExact <==> (host, ip) in b.seenExact || (host, ip) == (entry.host, entry.ip);
    }
  }

  method Step(b: Builder, entry: Option<Entry>, ghost before: seq<DnsRecord>, ghost after: seq<DnsRecord>)
    returns (b': Builder)
    requires Built(b, before) && OneMore(before, after, entry)
    ensures Built(b', after)
  {
    if entry.None? {
      return b;
    }
    SeenEverywhere(before, entry.value);
    b' := Insert(b, entry.value);
    InsertsNext(b, b', entry.value, before, after);
  }

  lemma SeenEverywhere(records: seq<DnsRecord>, e: Entry)
    ensures e.ip in Distinct(records, ScopedIp(e.rcId, e.host)) ==> e.ip in Distinct(records, HostIp(e.host))
  {
    DistinctMembers(records, ScopedIp(e.rcId, e.host));
    DistinctMembers(records, HostIp(e.host));
    if rec :| rec in records && ScopedIp(e.rcId, e.host)(rec) == Some(e.ip) {
      assert HostIp(e.host)(rec) == Some(e.ip);
    }
  }

  method Insert(b: Builder, entry: Entry) returns (b': Builder)
    requires |b.seen| == StoredCount(b.index.scoped)
    requires forall r, h, ip :: Entry(r, h, ip) in b.seen <==> ip in ScopedAt(b.index.scoped, r, h)
    requires forall h, ip :: (h, ip) in b.seenExact <==> ip in ListAt(b.index.exact, h)
    requires entry in b.seen ==> (entry.host, entry.ip) in b.seenExact
    ensures Inserts(b, b', entry)
  {
    if entry in b.seen {
      assert b.seen + {entry} == b.seen;
      assert b.seenExact + {(entry.host, entry.ip)} == b.seenExact;
      return b;
    }
    var scoped := PushScoped(b.index.scoped, entry.rcId, entry.host, entry.ip);
    var exact := b.index.exact;
    if (entry.host, entry.ip) !in b.seenExact {
      exact := PushIp(exact, entry.host, entry.ip);
    }
    b' := Builder(Index(scoped, exact, 0), b.seen + {entry}, b.seenExact + {(entry.host, entry.ip)});
  }

  /** Every list is free of duplicates, and the list of a host holds exactly the addresses of its
      scoped lists. */
  lemma ExactIsUnionOfScoped(records: seq<DnsRecord>, host: string)
    ensures NoDuplicates(Distinct(records, HostIp(host)))
    ensures forall ip :: ip in Distinct(records, HostIp(host))
              <==> exists rcId :: ip in Distinct(records, ScopedIp(rcId, host))
  {
    DistinctMembers(records, HostIp(host));
    forall ip
      ensures ip in Distinct(records, HostIp(host)) <==> exists rcId :: ip in Distinct(records, ScopedIp(rcId, host))
    {
      forall rcId { DistinctMembers(records, ScopedIp(rcId, host)); }
      if ip in Distinct(records, HostIp(host)) {
        var rec :| rec in records && HostIp(host)(rec) == Some(ip);
        assert ScopedIp(ValidEntry(rec).value.rcId, host)(rec) == Some(ip);
        assert ip in Distinct(records, ScopedIp(ValidEntry(rec).value.rcId, host));
      }
      if rcId :| ip in Distinct(records, ScopedIp(rcId, host)) {
        var rec :| rec in records && ScopedIp(rcId, host)(rec) == Some(ip);
        assert HostIp(host)(rec) == Some(ip);
      }
    }
  }

  /** What a record contributes: its rc id, its normalised host, its address; nothing if the host is empty
      or the address does not parse. */
  lemma RecordContributes(rec: DnsRecord, rcId: i32, host: string, ip: Ipv4)
    ensures ScopedIp(rcId, host)(rec) == Some(ip) <==>
              rcId == rec.rcId && host == NormalizeDomain(rec.host) && host != "" && ParseIpv4(Trim(rec.ip)) == Some(ip)
    ensures HostIp(host)(rec) == Some(ip) <==>
              host == NormalizeDomain(rec.host) && host != "" && ParseIpv4(Trim(rec.ip)) == Some(ip)
  {
  }

  /** A scoped list holds exactly the addresses that some record gives for the host under the rc id. */
  lemma ScopedMembers(index: Index, records: seq<DnsRecord>, rcId: i32, host: string, ip: Ipv4)
    requires IndexesRecords(index, records)
    ensures ip in ScopedAt(index.scoped, rcId, host) <==>
              && host != ""
              && exists k :: 0 <= k < |records| && records[k].rcId == rcId && NormalizeDomain(records[k].host) == host
                             && ParseIpv4(Trim(records[k].ip)) == Some(ip)
  {
    DistinctMembers(records, ScopedIp(rcId, host));
    forall k | 0 <= k < |records|
      ensures ScopedIp(rcId, host)(records[k]) == Some(ip) <==>
                rcId == records[k].rcId && host == NormalizeDomain(records[k].host) && host != ""
                && ParseIpv4(Trim(records[k].ip)) == Some(ip)
    {
      RecordContributes(records[k], rcId, host, ip);
    }
    assert forall x :: x in records <==> exists k :: 0 <= k < |records| && records[k] == x;
  }
}
