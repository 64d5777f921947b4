# Verified model of the SHIEP-Pipeline-Plus core

A Dafny model of the parts of `crates/ec-core` that decide and conserve: the route planner with its
DNS caches, the connection multiplexer, the tunnel stream protocol and the SOCKS5 codecs. Run
`dafny verify dfyconfig.toml`.

## How it is built

- **Planner** (`Text`, `TextLaws`, `Sequences`, `Rules`, `ExtraIps`, `RuleLaws`, `DnsIndexes`,
  `DnsResolver`, `Planner`, `PlannerLaws`, `PlanOrder`, `Router`). `NaivePlan` is a planner that reads the raw route table from top to
  bottom, with no index, DNS map or de-duplication. The compiled table, its index, the DNS maps and
  the five planning stages are methods proved equal to it, caches included. `PlanOrder` is the
  decision table that it follows; `TextLaws` and `RuleLaws` say what texts mean. `Router` runs installs
  and planning calls in any order; the sequence of events is itself the history from which cached
  answers are shown to come.
- **Multiplexer** (`NetSockets`, `Netstack`, `NetstackRuns`, `NetstackStreams`, `NetstackLaws`). A socket is a pair of
  bounded buffers with histories of what was accepted and received. `NetstackLoop` holds the tables;
  its methods are proved to compute the steps of the state machine whose runs the lemmas are about.
- **Stream protocol** (`ControlFrames`, `StreamOpen`, `Workers`, `CommandHeartbeat`, `FatalReason`,
  `Checksum`). The loops run over arbitrary traces of reads, clock readings, writes and replies; the
  fatal-reason cell is a state machine over critical sections.
- **SOCKS5** (`Utf8`, `SocksWire`, `SocksProxy`, `SocksBytes`). Reader, writer and both sides of the reply are
  connected by round trips, and every message is given byte by byte; strings are sequences of Unicode scalar values and UTF-8 is spelled out.

DNS answers, the system resolver, the address parsers for servers, the IPv6 text form, the clock,
reconnection attempts and the scheduling of threads are parameters that every theorem quantifies
over. `Utf8` is table 3-7 of the Unicode Standard.

## Where the code and its intent differ

- `normalize_domain` is not idempotent, and aliases are normalised twice: `NormalizeDomainIdempotentIff`
  gives the exact condition.
- A close request does not wait for queued data: delivery is a prefix. `NetstackStreams.CloseDeliversIff`
  says over whole runs exactly when it is complete, and `OversizedSendIsLost` is a run that loses bytes.
- A failed `send_slice` drops its chunk: `FailedSendDropsChunk`. On UDP it also ends the association, with
  whatever is queued or not yet transmitted: `FailedUdpSendDropsDatagram`, `DrivesAccountForDatagrams`.
- The HTTP head limit is compared after the end of the head, so 16385 bytes pass a limit of 16384.

## Model

| member | source | states |
|---|---|---|
| `Text.NormalizeDomainIdempotentIff` | crates/ec-core/src/routing.rs:862-864 | Normalising a name twice gives the same as once exactly when the character in front of its trailing dots is not whitespace; the code normalises CNAME aliases twice. |
| `Text.NormalizeDomainTwiceCounterexample` | crates/ec-core/src/routing.rs:862-864 | On `"a ."` the first normalisation gives `"a "` and the second `"a"`. |
| `Text.ParseIpv4OfPrint` | crates/ec-core/src/routing.rs:854-860 | Every address is read back from its printed form, over all 2^32 addresses. |
| `Text.PrintIpv4OfParse` | crates/ec-core/src/routing.rs:854-860 | The strict parser accepts the printed form only, so an address has one spelling. |
| `TextLaws.NormalizeDomainMeaning` | crates/ec-core/src/routing.rs:862-864 | A normalised name is the host without the spaces at both ends and the dots before the last ones, letter by letter in lower case. |
| `TextLaws.LowerCharMeaning` | crates/ec-core/src/routing.rs:862-864 | The 26 capital letters become the small ones, every other character stays. |
| `TextLaws.AddressMeaning` | crates/ec-core/src/routing.rs:854-860 | The value and the text of an address, its first number the highest byte. |
| `TextLaws.ParseIpv4Iff` | crates/ec-core/src/routing.rs:854-860 | The strict parser accepts exactly four numbers up to 255 without leading zeros, joined by dots. |
| `TextLaws.DialText` | crates/ec-core/src/routing.rs:360-381 | A dialled text is the address, a colon and the port, in decimal. |
| `Rules.CompileRules` | crates/ec-core/src/routing.rs:693-705 | The loop with its set of seen keys yields the rules that compile, each once, at the place of its first occurrence. |
| `Rules.CompilationPreservesSearch` | crates/ec-core/src/routing.rs:693-705 | For every raw table, target, port and protocol, the first match in the compiled table is the first match of a scan of the raw table. |
| `Rules.FirstRawMatchMeaning` | crates/ec-core/src/routing.rs:590-664 | The reference search answers with the first raw rule that compiles and applies, and fails exactly when none does. |
| `Rules.SearchSucceedsIff` | crates/ec-core/src/routing.rs:617-663 | A search succeeds exactly when some raw rule applies. |
| `RuleLaws.FlowTestMeaning` | crates/ec-core/src/routing.rs:879-898 | Which ports and protocols a rule admits: all for a `vipall` rule, else its protocol or any (-1), and but for ICMP its port range. |
| `RuleLaws.RangeRuleMeaning` | crates/ec-core/src/routing.rs:784-795 | A raw rule for `a~b` applies exactly to the addresses between the two, in either order, that its flow test admits. |
| `RuleLaws.NameRuleMeaning` | crates/ec-core/src/routing.rs:796-814 | Any other raw rule applies exactly to the address it is the text of, else to the name it normalises to. |
| `RuleLaws.TargetMeaning` | crates/ec-core/src/routing.rs:854-860 | A host is the address its trimmed text spells, else its normalised name. |
| `Rules.BuildIndex` | crates/ec-core/src/routing.rs:590-615 | Each of the domain, address and 256 bucket lists holds, in ascending order, exactly the positions of the rules it indexes; no range is lost whatever its bounds. |
| `Rules.FindFirstMatch` | crates/ec-core/src/routing.rs:617-663 | The indexed search equals the linear scan for every rule list, target, port and flow: the applying rule of least position wins across exact and range hits. |
| `Rules.BestExact` | crates/ec-core/src/routing.rs:635-644 | The least listed position whose exact rule applies. |
| `Rules.BestRange` | crates/ec-core/src/routing.rs:645-660 | The least of the previous best and the bucket's positions whose range holds the address and whose flow test passes. |
| `DnsIndexes.BuildIndex` | crates/ec-core/src/routing.rs:714-745 | For every scope and host the two maps hold the duplicate-free first-occurrence lists of the valid records, and the record count is the number of addresses stored over all scoped lists. |
| `DnsIndexes.RecordContributes` | crates/ec-core/src/routing.rs:719-728 | A record contributes its rc id, its normalised host if not empty, and its address if it parses. |
| `DnsIndexes.ScopedMembers` | crates/ec-core/src/routing.rs:714-745 | A scoped list holds exactly the addresses that some record gives for the host under the rc id. |
| `DnsIndexes.ExactIsUnionOfScoped` | crates/ec-core/src/routing.rs:714-745 | The list of a host has no duplicates and holds exactly the addresses of its scoped lists over all rc ids. |
| `DnsIndexes.TotalWithout` | crates/ec-core/src/routing.rs:740-744 | The total over a map does not depend on the order in which its entries are summed. |
| `ExtraIps.CidrBlock` | crates/ec-core/src/routing.rs:821-836 | For every address and prefix 0..32 the range computed with mask arithmetic holds exactly the 2^(32-p) addresses sharing the top p bits (section 3.1 of RFC 4632). |
| `ExtraIps.AndWithMask` | crates/ec-core/src/routing.rs:832-834 | `ip & mask` clears the low bits, on bitwise conjunction defined bit by bit. |
| `ExtraIps.OrWithOnes` | crates/ec-core/src/routing.rs:835 | `ip &#124; !mask` sets the low bits. |
| `ExtraIps.MaskValue` | crates/ec-core/src/routing.rs:827-831 | The mask built by shifting all ones is 2^32 - 2^(32-p), including prefix 0. |
| `ExtraIps.RangeIsSymmetric` | crates/ec-core/src/routing.rs:785-795 | `a~b` and `b~a` mean the same set: the addresses between the two bounds; the range is refused exactly when a bound is no address. |
| `RuleLaws.CidrEntryMeaning` | crates/ec-core/src/routing.rs:816-837 | An extra entry `address/length` covers exactly the addresses that share the first `length` bits, and nothing if the length is over 32 or a part does not parse. |
| `RuleLaws.CidrTextMeaning` | crates/ec-core/src/routing.rs:816-837 | The same on the text as it is usually written, for all addresses and lengths. |
| `RuleLaws.RangeEntryMeaning` | crates/ec-core/src/routing.rs:838-848 | An extra entry `a~b` covers exactly the addresses between the two, in either order. |
| `RuleLaws.AddressEntryMeaning` | crates/ec-core/src/routing.rs:849-852 | Any other extra entry covers the address it spells, or nothing. |
| `PlanOrder.ExtrasMeaning` | crates/ec-core/src/routing.rs:429-451 | An address is extra exactly when some entry of the list covers it. |
| `Planner.RouteMatcher.FromTable` | crates/ec-core/src/routing.rs:298-321 | The built matcher represents the raw table, the extra list and the server list. |
| `Planner.NormalizeDnsServers` | crates/ec-core/src/routing.rs:666-691 | The servers that parse, each once, in order. |
| `Planner.ServerTexts` | crates/ec-core/src/routing.rs:666-691 | A server is an address with a port, or a bare address on port 53. |
| `Planner.RouteMatcher.HasExtra` | crates/ec-core/src/routing.rs:429-451 | An address is an extra address exactly when some entry of the extra list contains it, whatever the order of the entries. |
| `Planner.RouteMatcher.PlanFromIps` | crates/ec-core/src/routing.rs:510-532 | The plan of the first address that a raw rule admits, or none. |
| `Planner.RouteMatcher.PlanWithDomainRule` | crates/ec-core/src/routing.rs:360-427 | For a rule matched by name: first recorded address in raw record order, else the DNS servers with their cache, else a fallback; equal to the naive function on raw records and the undeduplicated server list. |
| `Planner.RouteMatcher.PlanDerived` | crates/ec-core/src/routing.rs:463-508 | Plans through reported aliases and addresses equal those of the naive planner, caches included. |
| `Planner.RouteMatcher.Plan` | crates/ec-core/src/routing.rs:323-358 | Refinement: for every raw table, extra list, query, DNS oracle, system resolver and cache state, the indexed planner makes the plan of the naive planner (dial text, rc id, rc name, source, reason) and leaves the same caches. |
| `PlanOrder.PlansAreDecided` | crates/ec-core/src/routing.rs:323-358 | The order of the stages, as a decision table over raw rules, raw records, answers and clock: which is the first rule, record, alias, reported or own address that decides, the plan it gives, and the caches afterwards, in every case. |
| `PlannerLaws.AddressPlan` | crates/ec-core/src/routing.rs:323-358 | An address literal goes remote exactly when a raw rule applies or it is an extra address; caches are untouched. |
| `PlannerLaws.DomainRuleCommits` | crates/ec-core/src/routing.rs:324-330 | Once a rule matches the name, stage one decides even when it falls back: the extra list, the system resolver and any other rules that leave this rule the first to match can be exchanged without changing plan or caches. |
| `PlannerLaws.RemotePlansAreJustified` | crates/ec-core/src/routing.rs:323-358 | Source by source, a remote plan dials the query's own address, the address its source holds for the name or for a reported alias, or a recorded or reported address; and a raw rule with the plan's identity whose matcher covers the name or address concerned admits the query, or the query's own address is an extra address. |
| `PlannerLaws.UnmatchedIff` | crates/ec-core/src/routing.rs:323-358 | A name falls back as unmatched exactly when no rule names it, no recorded address of it is admitted, the DNS servers report no alias that a rule names and no admitted address, and the system resolver gives no admitted or extra address. |
| `DnsResolver.Resolver.ResolveFirstIpv4` | crates/ec-core/src/dns_resolver.rs:76-120 | A live cache entry, else the first server in order that gives an address; the new cache state; the error tells an empty server list from failed tries. |
| `DnsResolver.Resolver.ResolveAny` | crates/ec-core/src/dns_resolver.rs:122-166 | The same for alias lookups, where any response of a server is accepted and stored. |
| `DnsResolver.DuplicateServersAreInvisible` | crates/ec-core/src/dns_resolver.rs:92-108 | Removing duplicate servers changes neither results nor caches of either lookup. |
| `DnsResolver.ExtractIpv4s` | crates/ec-core/src/dns_resolver.rs:295-307 | The addresses of a response, each once, in answer order. |
| `DnsResolver.ExtractCnameAliases` | crates/ec-core/src/dns_resolver.rs:309-321 | The normalised non-empty aliases of a response, each once, in answer order. |
| `DnsResolver.ResponseMeaning` | crates/ec-core/src/dns_resolver.rs:295-321 | A response reports the addresses of its A records and the non-empty normalised names of its CNAME records, each once. |
| `DnsResolver.FetchedIsServed` | crates/ec-core/src/dns_resolver.rs:76-120 | A fetched address is served to every lookup less than 300 seconds later, whatever the servers say, and to none from then on. |
| `DnsResolver.FetchedReportIsServed` | crates/ec-core/src/dns_resolver.rs:122-166 | The same for a fetched response. |
| `DnsResolver.Resolver.CacheGet` | crates/ec-core/src/dns_resolver.rs:347-362 | A hit needs an entry that expires later than now; an expired entry is removed. |
| `Router.CachesBelongToInstalledTable` | crates/ec-core/src/routing.rs:187-229 | In every run of installs and planning calls, every cached answer was stored by a call made after the last install, from an answer of a server of the table installed then; without a table both caches are empty. |
| `Router.CachedAnswersAreFresh` | crates/ec-core/src/dns_resolver.rs:347-392 | Every hit in either cache was stored since the last install and less than 300 seconds before. |
| `Router.CacheHitsAreFresh` | crates/ec-core/src/routing.rs:398-415 | A plan from either cache dials an answer that a server of the installed table gave since the install, less than 300 seconds ago, for the queried name itself, for an alias freshly reported for it, or among the addresses freshly reported for it. |
| `Router.PlanOnlyStores` | crates/ec-core/src/routing.rs:221-229 | A planning call changes the caches only by removing entries or storing answers of the current servers. |
| `Router.PlanKeepsLive` | crates/ec-core/src/routing.rs:221-229 | A planning call keeps every cached entry that is still live. |
| `Router.CachedAnswersAreServed` | crates/ec-core/src/dns_resolver.rs:347-392 | In every run a cached address is served to every later planning call until it expires or a table is installed. |
| `Router.OutcomesByLastInstall` | crates/ec-core/src/routing.rs:187-247 | The last install decides every outcome: the decision table of the installed table, the tunnel for everything in fallback mode, an error before any install. |
| `Router.RouterCell.InstallRouteTable` | crates/ec-core/src/routing.rs:187-204 | Installs the table, empties both caches and reports the sizes of the compiled table. |
| `Router.RouterCell.PlanTargetWithProto` | crates/ec-core/src/routing.rs:221-247 | Plans by the installed mode: the naive plan of the installed table, a tunnel plan in fallback mode, an error before any install. |
| `NetSockets.PumpPendingSends` | crates/ec-core/src/netstack.rs:558-576 | The send loop computes the pump function. |
| `NetSockets.PumpSendsConserves` | crates/ec-core/src/netstack.rs:558-576 | As long as no send fails, accepted bytes followed by the queue are unchanged and the pump stops only at an empty queue or a full socket; a failure requests the close. |
| `NetSockets.PumpSendsAmount` | crates/ec-core/src/netstack.rs:558-576 | Unless a send fails, the pump moves exactly the queued bytes that fit into the free space of the 65536-byte buffer. |
| `NetSockets.FailedSendDropsChunk` | crates/ec-core/src/netstack.rs:570-573 | When a pump fails, after however many successful sends, exactly; what came before is accepted, the chunk at fault is dropped and the rest stays queued, so the stream is conserved exactly when that chunk was empty. |
| `NetSockets.PumpUplinkReads` | crates/ec-core/src/netstack.rs:578-592 | The receive loop computes the read pump function. |
| `NetSockets.PumpReadsConserves` | crates/ec-core/src/netstack.rs:578-592 | While the receiver lives, forwarded bytes followed by the buffer are unchanged and the buffer ends empty unless a read fails; a dead receiver gets nothing. |
| `NetSockets.ReadsAreChunked` | crates/ec-core/src/netstack.rs:578-592 | What is forwarded are reads of one to 4096 bytes. |
| `NetSockets.DriveShutsIff` | crates/ec-core/src/netstack.rs:475-486 | A drive shuts the sending half exactly when a close was requested, a send fails, or the receiver is gone and a read returns data; it never closes the socket itself. |
| `NetSockets.PumpUdpSendsConserves` | crates/ec-core/src/netstack.rs:524-535 | Datagrams leave the queue in order, each once, as long as no send fails. |
| `NetSockets.FailedUdpSendDropsDatagram` | crates/ec-core/src/netstack.rs:524-535 | The same for datagrams: when a send fails, what was accepted before, and that exactly the datagram at fault is dropped. |
| `NetSockets.PumpUdpReadsConserves` | crates/ec-core/src/netstack.rs:537-556 | Datagrams are forwarded in order, each once, while the receiver lives. |
| `NetSockets.DriveUdpClosesIff` | crates/ec-core/src/netstack.rs:498-514 | A drive closes an association's socket exactly when a close was requested, a send fails, or the receiver is gone and a datagram is read. |
| `Netstack.NetstackLoop.HandleControlMessage` | crates/ec-core/src/netstack.rs:324-370 | The new state for each kind of message, and the reply to opens. |
| `Netstack.NetstackLoop.ProcessControlBatch` | crates/ec-core/src/netstack.rs:305-322 | Handles the first message and at most 63 queued ones in order, and fails exactly when the queue ran dry and is disconnected. |
| `Netstack.NetstackLoop.AddSocket` | crates/ec-core/src/netstack.rs:401-405 | A new socket takes the first free slot. |
| `Netstack.NetstackLoop.DriveConnections` | crates/ec-core/src/netstack.rs:475-496 | Whatever the order of the walk over the table, every connection is driven against its own socket at once and the closed ones are removed with their sockets. |
| `Netstack.NetstackLoop.DriveUdpAssociations` | crates/ec-core/src/netstack.rs:498-522 | The same for associations. |
| `NetstackRuns.RunsKeepTables` | crates/ec-core/src/netstack.rs:280-302 | In every run with fewer than 2^64 opens: ids of the two tables are disjoint and issued, handles are pairwise distinct, and the tables hold exactly the live sockets, each of its kind. |
| `NetstackRuns.ReissuedIdOrphansSocket` | crates/ec-core/src/netstack.rs:419-429 | The bound is needed: reissuing the id of a live connection leaves its socket without an owner. |
| `NetstackRuns.PortsCycle` | crates/ec-core/src/netstack.rs:606-610 | Local ports run through all of 40000..60000 before one repeats. |
| `NetstackLaws.OpensAddEntries` | crates/ec-core/src/netstack.rs:393-437 | In every run a successful open adds one fresh entry under the next id, a failed one none. |
| `NetstackLaws.ConnectsWhereAsked` | crates/ec-core/src/netstack.rs:401-412 | In every run a live connection goes to the target of the open that issued its id, from the local port whose turn it was. |
| `NetstackLaws.OnlyDrivesRemove` | crates/ec-core/src/netstack.rs:488-495 | No event but a drive removes an entry. |
| `NetstackLaws.DeviceHoldsPackets` | crates/ec-core/src/netstack.rs:326-328 | Between polls the device holds the tunnel's packets in order, each once. |
| `NetstackStreams.StaleIdsStayDead` | crates/ec-core/src/netstack.rs:349-367 | An issued id that has left a table never names a later connection, although slots are reused. |
| `NetstackStreams.StaleMessagesAreInvisible` | crates/ec-core/src/netstack.rs:349-367 | A message for an id in no table can be left out of any run without a trace, however the run goes on. |
| `NetstackStreams.RunsConserveTcpStreams` | crates/ec-core/src/netstack.rs:475-496 | In every run, for every live connection: accepted bytes followed by the queue are the Send payloads handled for its id unless a send failed; forwarded bytes followed by the buffer are the bytes received while its receiver lives. |
| `NetstackStreams.SocketHoldsPrefix` | crates/ec-core/src/netstack.rs:558-576 | The socket has accepted a prefix of what the client sent, and the network has had a prefix of that. |
| `NetstackStreams.CloseDeliversIff` | crates/ec-core/src/netstack.rs:480-485 | In every run, the drive that shuts the sending half decides delivery: everything sent before it is accepted exactly when the queue fitted at that drive, and nothing is accepted afterwards, up to and including the drive that removes the connection. |
| `NetstackLaws.ShutForAReason` | crates/ec-core/src/netstack.rs:475-486 | In every run a live connection is shut only if a Close was handled for it, a send failed or its receiver was dropped. |
| `NetstackLaws.CloseIsCarriedOut` | crates/ec-core/src/netstack.rs:359-362 | In every run a Close handled for a connection is carried out by the next drive in which it can send; a drive removes a connection exactly when its socket is no longer open. |
| `NetstackStreams.OversizedSendIsLost` | crates/ec-core/src/netstack.rs:480-485 | A reachable run that loses bytes: open, send more than 65536 bytes, close, drive; however it goes on, the socket never accepts more than the first 65536. |
| `NetstackStreams.RemovedConnectionsUplink` | crates/ec-core/src/netstack.rs:475-496 | At the drive that removes a connection, what was sent is what was accepted, the chunk of a send that fails in this drive, and what is still queued and lost; the network has had all accepted bytes but those in the send buffer. |
| `NetstackStreams.RemovedConnectionsForwardedAll` | crates/ec-core/src/netstack.rs:480-495 | A connection that a drive removes has forwarded every received byte in order, if its receiver lives and no read failed. |
| `NetstackStreams.RunsConserveDatagrams` | crates/ec-core/src/netstack.rs:498-556 | The same conservation for the datagrams of every live association, none of whose sends has failed. |
| `NetstackStreams.DrivesAccountForDatagrams` | crates/ec-core/src/netstack.rs:498-522 | The next drive of an association, in every run: each datagram sent is accepted, the one of a failing send, or still queued; a close wipes the accepted ones not yet transmitted; each datagram received is forwarded unless a read fails or the receiver is gone; a close request or a failed send removes the association. |
| `NetstackLaws.RequestedIffClosed` | crates/ec-core/src/netstack.rs:363-368 | In every run a live association has a close requested exactly when a CloseUdp was handled for it. |
| `NetstackLaws.DriveRemovesAssociationIff` | crates/ec-core/src/netstack.rs:498-522 | In every run, exactly when the next drive removes an association. |
| `ControlFrames.CodesRoundTrip` | crates/ec-core/src/protocol_wire.rs:41-72 | No code is lost; a type survives exactly unless it is an unknown type with a known code. |
| `ControlFrames.StreamAckClassification` | crates/ec-core/src/protocol.rs:659-729 | Over all byte strings: exactly which replies acknowledge a stream and exactly which reject it for good. |
| `ControlFrames.BodyBranchNeverAcknowledges` | crates/ec-core/src/protocol.rs:707-715 | The branch for 36-byte bodies never acknowledges. |
| `ControlFrames.HeartbeatClassification` | crates/ec-core/src/protocol.rs:969-1038 | A heartbeat is retried exactly when no byte came back and acknowledged exactly by code 15. |
| `ControlFrames.ReceivedDataMeaning` | crates/ec-core/src/protocol.rs:526-539 | Over all byte strings: received data is passed on exactly when it is no 40-byte frame; the frame with code 1 is skipped, any other ends the stream with its code. |
| `StreamOpen.OpenDataStreamWithRetries` | crates/ec-core/src/protocol.rs:582-621 | Returns the first success or rejection with no try after it; the limit error means that all allowed tries were retryable; how often it sleeps. |
| `StreamOpen.OpensAsIsDeterministic` | crates/ec-core/src/protocol.rs:582-621 | The tries determine the outcome and their number. |
| `StreamOpen.OpenStream` | crates/ec-core/src/protocol.rs:200-210 | A first open makes at most six tries, and six when it reaches the limit. |
| `StreamOpen.TryMeaning` | crates/ec-core/src/protocol.rs:623-657 | Over all replies, byte by byte: what acknowledges a try, what rejects it for good, and that all else is retried. |
| `StreamOpen.OpeningsAreSettled` | crates/ec-core/src/protocol.rs:582-621 | The first acknowledged or rejected try settles an opening, the limit is reached only when all six tries of a first open, or all five of a reconnection, settled nothing. |
| `Workers.RxWorkerLoop` | crates/ec-core/src/protocol.rs:492-539 | Over every trace the forwarded packets are exactly the data read before the loop ends, in order; why it ends; every reconnection makes at most five tries. |
| `Workers.PassingMeans` | crates/ec-core/src/protocol.rs:492-524 | Which reads the loop survives, and that it forwards exactly the data that is no 40-byte frame. |
| `Workers.EndingMeans` | crates/ec-core/src/protocol.rs:492-524 | Which reads end the loop, and how. |
| `Workers.TxWorkerLoop` | crates/ec-core/src/protocol.rs:541-580 | Over every trace the completed writes are the chosen packets in order, each once, missing exactly the last one when the loop ends in an error. |
| `Workers.DequeuedPacketsAreSent` | crates/ec-core/src/protocol.rs:549-562 | A choice that is no heartbeat is the packet taken from the queue on its turn, unchanged, and every packet so taken is chosen. |
| `Workers.DataIsDequeued` | crates/ec-core/src/protocol.rs:549-562 | The choices that are no heartbeats are the packets taken from the queue, in order, each once. |
| `Workers.DeliveryMeans` | crates/ec-core/src/protocol.rs:564-579 | A packet is delivered by the first write, or by a second one after one of five tries reopened the stream; else it is lost. |
| `Workers.DueHeartbeatsGoFirst` | crates/ec-core/src/protocol.rs:549-559 | A turn sends a heartbeat exactly when one is due, before any queued data. |
| `Workers.HeartbeatPacing` | crates/ec-core/src/protocol.rs:547-552 | Two heartbeats are never closer than twelve seconds, nor the first to the start. |
| `Workers.DeadlineOrigin` | crates/ec-core/src/protocol.rs:547-552 | The deadline is twelve seconds after the last heartbeat, or after the start if there was none. |
| `CommandHeartbeat.CommandHeartbeatLoop` | crates/ec-core/src/protocol.rs:920-967 | The loop stops exactly at the first fatal outcome or third retryable one in a row; each pause is 1 s after a retryable failure and 30 s otherwise. |
| `CommandHeartbeat.StreakMeaning` | crates/ec-core/src/protocol.rs:942-944 | The failure counter is at least n exactly when the last n outcomes were retryable. |
| `FatalReason.CellHoldsFirstReason` | crates/ec-core/src/protocol.rs:409-424 | Under every interleaving the cell holds exactly the reason recorded first since the last clear. |
| `FatalReason.NoLostWakeUp` | crates/ec-core/src/protocol.rs:388-424 | A waiter asleep and not notified implies that no reason is set. |
| `FatalReason.SetReasonReachesEveryWaiter` | crates/ec-core/src/protocol.rs:388-403 | Once a reason is set every sleeper is notified and its next look returns that reason. |
| `FatalReason.WaitersReturnFirstReason` | crates/ec-core/src/protocol.rs:388-403 | What a waiter returned is the reason recorded first since the last clear before its look. |
| `FatalReason.WithoutClearFirstReasonWins` | crates/ec-core/src/app.rs:17-28 | With the one clear before any recorder, every waiter returns the very first reason recorded. |
| `Checksum.InternetChecksum` | crates/ec-core/src/protocol_wire.rs:232-247 | The checksum of the 32-bit wrapping sum; the true checksum for data of at most 65537 words. |
| `Checksum.FoldMeaning` | crates/ec-core/src/protocol_wire.rs:243-246 | Folding terminates, keeps the sum modulo 65535 and gives zero for zero only. |
| `Checksum.NoOverflowIff` | crates/ec-core/src/protocol_wire.rs:233-241 | The 32-bit sum is safe for all data exactly up to 65537 words. |
| `Checksum.ZeroChecksumIff` | crates/ec-core/src/protocol_wire.rs:232-247 | Data checks to zero exactly when its sum is a positive multiple of 65535. |
| `Checksum.StoredChecksumVerifies` | crates/ec-core/src/protocol_wire.rs:224-227 | Storing the checksum in its zeroed word makes the data check to zero (sections 1 and 2 of RFC 1071). |
| `Checksum.WordsAreBigEndian` | crates/ec-core/src/protocol_wire.rs:233-241 | Words are read high byte first, and a last odd byte is a high byte. |
| `Checksum.WorkedExample` | crates/ec-core/src/protocol_wire.rs:232-247 | The worked example of section 3 of RFC 1071. |
| `Checksum.BuildTxHeartbeatPacket` | crates/ec-core/src/protocol_wire.rs:199-230 | Every byte of the packet but the checksums: header fields, source and destination address, echo header, session and tail at their offsets; and that its IPv4 header and its ICMP part both check to zero, for all addresses, sessions and tails. |
| `Utf8.DecodeOfEncode` | crates/ec-core/src/socks_wire.rs:94-95 | Every string survives UTF-8 encoding. |
| `Utf8.EncodeOfDecode` | crates/ec-core/src/socks_wire.rs:94-95 | A byte string that decodes is the encoding of what it decodes to. |
| `Utf8.EncodeCharBytes` | crates/ec-core/src/socks_wire.rs:94-95 | The one to four bytes of every character. |
| `SocksWire.ReadSocksRequest` | crates/ec-core/src/socks_wire.rs:49-118 | The request, what is left of the stream, and the refusal reply, on every input. |
| `SocksWire.NegotiateMethod` | crates/ec-core/src/socks_wire.rs:19-47 | The verdict on a greeting, what is left of the stream, and the answer. |
| `SocksWire.GreetingAcceptedIff` | crates/ec-core/src/socks_wire.rs:19-47 | The accepted greetings are exactly the well-formed ones of section 3 of RFC 1928 that offer no authentication, read to their last byte and no further. |
| `SocksWire.RequestOfWire` | crates/ec-core/src/socks_wire.rs:49-118 | Every CONNECT and UDP ASSOCIATE request, for each of the three address types, is read back as what it says, to its last byte. |
| `SocksWire.WireOfRequest` | crates/ec-core/src/socks_wire.rs:49-118 | Re-encoding an accepted request gives the bytes consumed. |
| `SocksWire.RequestAcceptedIff` | crates/ec-core/src/socks_wire.rs:49-118 | The accepted requests are exactly the CONNECT and UDP ASSOCIATE requests of sections 4 and 5 of RFC 1928. |
| `SocksBytes.ReadsIpv4Request` | crates/ec-core/src/socks_wire.rs:49-118 | `5, 1 or 3, 0, 1`, four bytes and a port are CONNECT or UDP ASSOCIATE to that dotted address and port. |
| `SocksBytes.ReadsNamedRequest` | crates/ec-core/src/socks_wire.rs:49-118 | `5, 1 or 3, 0, 3`, a length, that many bytes of UTF-8 and a port are a request to that name and port. |
| `SocksBytes.ReadsIpv6Request` | crates/ec-core/src/socks_wire.rs:49-118 | `5, 1 or 3, 0, 4`, sixteen bytes and a port are a request to that address and port. |
| `SocksBytes.RefusedRequests` | crates/ec-core/src/socks_wire.rs:49-118 | Which first bytes are refused, in which order, and the reply bytes sent. |
| `SocksBytes.Greetings` | crates/ec-core/src/socks_wire.rs:19-47 | Greeting and answer byte by byte: `5, 0` if method 0 is offered, else `5, 255`. |
| `SocksWire.ParseOfWire` | crates/ec-core/src/socks_wire.rs:152-231 | Every UDP header that fits is read back as what it says; in particular the encoder's output. |
| `SocksWire.WireOfParse` | crates/ec-core/src/socks_wire.rs:152-222 | Re-encoding an accepted packet gives the input back. |
| `SocksWire.AcceptedIffEncoded` | crates/ec-core/src/socks_wire.rs:152-222 | The accepted packets are exactly the encodings of section 7 of RFC 1928 with address type 1 or 3. |
| `SocksBytes.WrittenDatagram` | crates/ec-core/src/socks_wire.rs:224-231 | The header of an encoded datagram, byte by byte. |
| `SocksBytes.ReadDatagram` | crates/ec-core/src/socks_wire.rs:152-222 | A datagram with address type 1, byte by byte, is read as that address, port and payload. |
| `SocksBytes.ReadNamedDatagram` | crates/ec-core/src/socks_wire.rs:152-222 | A datagram with address type 3 is read as that name, port and payload. |
| `SocksBytes.RefusedDatagrams` | crates/ec-core/src/socks_wire.rs:152-222 | Which reserved, fragment and type bytes are refused. |
| `SocksProxy.WriteSocks5ConnectRequest` | crates/ec-core/src/socks_proxy.rs:137-147 | What is written, or that nothing is. |
| `SocksBytes.WrittenRequests` | crates/ec-core/src/socks_proxy.rs:137-147 | The bytes of the three requests the client writes. |
| `SocksBytes.WrittenAddress` | crates/ec-core/src/socks_proxy.rs:235-256 | Which of the three a host makes. |
| `SocksProxy.RequestRoundTrip` | crates/ec-core/src/socks_proxy.rs:137-147 | For every host: it is refused exactly when it is no address and its trimmed name is empty or over 255 bytes; otherwise the server reads the client's request to its last byte as CONNECT to the same port and host (the trimmed text, or the same 16 octets), as in sections 4 and 5 of RFC 1928. |
| `SocksProxy.GreetingRoundTrip` | crates/ec-core/src/socks_proxy.rs:119-135 | The server accepts the client's greeting and answers what the client waits for. |
| `SocksProxy.ReadSocks5ConnectReply` | crates/ec-core/src/socks_proxy.rs:149-169 | The verdict on a reply and what is left of the stream. |
| `SocksProxy.ReplyRoundTrip` | crates/ec-core/src/socks_proxy.rs:149-169 | The client takes a server's reply as success exactly when its code is zero, and leaves exactly what follows. |
| `SocksProxy.ReplyAcceptedIff` | crates/ec-core/src/socks_proxy.rs:149-169 | The replies taken as success are exactly the well-formed ones of section 6 of RFC 1928 with code zero, whatever their reserved byte, read to their last byte and no further. |
| `SocksBytes.ReadReplies` | crates/ec-core/src/socks_proxy.rs:149-169 | Replies byte by byte: code 0 with any of the three bound addresses is success, any other code is reported. |
| `SocksBytes.WrittenReply` | crates/ec-core/src/socks_wire.rs:120-150 | The bytes of the server's reply. |
| `SocksProxy.ReadHttpProxyHead` | crates/ec-core/src/socks_proxy.rs:171-194 | Reads to the first empty line and no byte further; accepts exactly the heads of at most 16385 bytes, one more than the limit. |

## Left out

- `route_table.rs`, `config.rs`, `endpoint.rs`, `main.rs`: parsing of the route page, the command line and addresses; the table's types are the planner's input.
- `tls.rs`, `protocol_session.rs`, `auth.rs`, `token.rs`: session forging, login and token fetch are foreign calls.
- `socks.rs`, `netstack_device.rs`: the relay threads and the packet device between the modelled parts.
- DNS message coding, truncation and the TCP retry of a query: a server's answer to a query is one value of the oracle, fixed during one planning call.
- The internals of the TCP/IP library: a socket takes what fits its buffer, may fail any call, and may change in any way between drives that keeps the order of its bytes and does not reopen a sending half that was closed; a TCP socket stays open after a graceful close until the network closes it. UDP buffers hold 32 datagrams; one that does not fit their bytes is a send that fails.
- Log lines, error wording and the text of fallback reasons: errors and reasons are small datatypes.
- `parse_fallback_proxy`, `ensure_http_connect_success`, `socks5_reply_name`, the command and handshake messages, `parse_send_ip_reply`: easy members.
- Mutex poisoning, and the one-time initialisation cells around the router and the caches.
- The heartbeat tail: quantified over instead of generated.
- Netstack.NetstackLoop.DriveConnections: connections, associations and sockets are values in the loop's maps and slots, so the mutable references into a table entry are modelled by writing the entry back; the walk order over a table is arbitrary.
- NetSockets.PumpPendingSends: the socket and the connection are passed in and out as values instead of being changed through references.
- Planner.RouteMatcher.Plan: within one planning call a server gives one answer per name, however often it is asked; the clock is read once for each cache access of the call.
- NetstackStreams.RunsConserveTcpStreams: conservation is stated as long as no send fails, which is the case the code conserves; `FailedSendDropsChunk` gives the loss of the failing drive otherwise.
- SocksProxy.ReadHttpProxyHead: the head is returned as bytes; its lossy conversion to text is not modelled.
- SocksProxy.RequestRoundTrip: for IPv6 hosts the server sees the printed form of the 16 octets, whose text is a parameter.
