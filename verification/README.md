# A verified model of netqmon's packet and polling machinery

netqmon watches a home or office network from its gateway. An eBPF program
parses, polices, accounts and samples packets; an agent polls the program's
maps, follows the life of every flow, recognises devices, and delivers
telemetry to a controller. This project models the parts of that machinery
that keep state over unbounded runs, and proves what they promise.

| file | component |
|---|---|
| `SampleBudget.dfy`, `SampleKey.dfy` | the lock-free sample budget as a transition system over CPU steps, and the key two directions share |
| `Headers.dfy`, `Pipeline.dfy`, `Datapath.dfy` | header parsing, the packet program as functions in its two builds, and the program itself updating its maps in place |
| `RecordRace.dfy` | the accounting of one flow as a transition system over CPU steps |
| `Qos.dfy` | priority classes of client budgets |
| `FlowRuntime.dfy`, `FlowAccounting.dfy` | the flow runtime, and its joint run with the kernel entry and the map reader |
| `BudgetGc.dfy` | the resumable sweep over the sample budgets |
| `Dedup.dfy`, `Dhcp6.dfy` | discovery deduplication and the DHCPv6 option grammar |
| `Bits.dfy`, `Topology.dfy`, `Nat.dfy` | prefix arithmetic, segment lookup, and flow normalisation under address translation |
| `TelemetryBuffer.dfy`, `Sender.dfy` | the drop-oldest queue and the retrying sender |
| `Cname.dfy` | CNAME chains |
| `DeviceCache.dfy` | the device table and its views |
| `Versions.dfy` | release versions and their precedence |

Code that updates state is modelled by classes and methods with loops, each
proved against a specification function; whole runs are then reasoned about
through those functions. BPF maps are finite maps, hashes and text predicates
are parameters, clocks are nondecreasing natural numbers, and every wrap-around
or saturation that matters is written out.

Some properties turned out to hold only under a condition. Each is then proved
as an equivalence with that condition:

- The split build of the packet program agrees with the single pass on every
  frame except IPv6 frames whose TCP or UDP port bytes are cut off and which
  are not sampled; those are accounted for twice (`Pipeline.SplitAgreesExactly`).
- Flow counts are conserved if and only if the map reader is always first to
  find an entry idle (`FlowAccounting.ConservationExactly`). The agent reads the
  clock once for the reader and once more for the runtime. For TCP and UDP,
  whose two timeouts are equal, counts are conserved exactly when the two
  readings never differ: any lag between them admits a run that counts a packet
  twice. For other protocols the UDP timeout and the lag have to fit into the
  TCP timeout, because the two idle tests distinguish protocols differently
  (`FlowAccounting.ConservationByProtocol`).
- The events of a flow follow (Active (Idle Active)* Idle? End)* on every run
  over a set of records if and only if every record in it counts a packet or a
  byte, and either all or none of them have a first-seen time
  (`FlowRuntime.LifecycleFollowsTheGrammarExactly`).
- The telemetry queue keeps its byte count exactly when its capacity is below
  the largest machine word (`TelemetryBuffer.SizedExactly`).
- A translated connection is restored to one client and one remote in opposite
  directions exactly when no tuple of its entry is symmetric and the network
  tells its original endpoints apart (`Nat.RestorationExactly`).

## Model

| member | source | states |
|---|---|---|
| `SampleBudget.LimitsHold` | bpf/flow.bpf.c:296-365 | Under every interleaving of CPUs on one budget, for every configuration: submitted bytes stay within the byte limit, submitted samples within the packet limit per direction, and a conversation is counted as sampled at most once. |
| `SampleBudget.CountersNeverWrap` | bpf/flow.bpf.c:337-365 | Whenever a CPU is about to fetch-and-add, the 32-bit word has room for what it adds, although the checks before it race. |
| `SampleBudget.QuiescentBudgetIsAccountedFor` | bpf/flow.bpf.c:337-401 | With no CPU inside, every byte counted below the limit is in exactly one submitted or lost sample, and the flow counter equals the sampled mark. |
| `SampleBudget.StepKeepsInv` | bpf/flow.bpf.c:284-401 | Every atomic step of every CPU keeps the balance between the words of the budget, what CPUs still owe it and what was granted. |
| `SampleBudget.DisabledRunDoesNothing` | bpf/flow.bpf.c:300-317 | With sampling off, or its limits out of range, no step has an effect. |
| `SampleKey.Slot` | bpf/flow.bpf.c:319-329 | The byte comparison loop, with the ports as tie-break, decides whether the source endpoint is the later one. |
| `SampleKey.AnswerUsesTheOtherSlot` | bpf/flow.bpf.c:302-338 | A packet and its answer use different packet slots if and only if the endpoints differ. |
| `SampleKey.OneBudgetPerConversation` | bpf/flow.bpf.c:302-338 | Two keys share a canonical key if and only if they belong to one conversation at one hook. |
| `Headers.SkipVlans` | bpf/flow.bpf.c:1100-1130 | The tag loop finds the network header behind at most two VLAN tags, in bounds. |
| `Headers.ExtensionLength` | bpf/flow.bpf.c:1033-1065 | The length of each kind of extension header, or none where the walk stops; every read is in bounds. |
| `Headers.WalkExtensions` | bpf/flow.bpf.c:972-1069 | Cursor and transport offset advance together, and the walk ends where the recursively defined header chain says, with its next header and fragment state. |
| `Headers.StepsFollowTheChain` | bpf/flow.bpf.c:972-1069 | Any number of walk steps stand at that position of the header chain, and reach the transport exactly when the chain does in time. |
| `Headers.PolicyIsReachedExactly` | bpf/flow.bpf.c:976-1092 | An IPv6 packet is policed if and only if at most five extension headers lead to TCP or UDP outside a later fragment with its ports present, and it is keyed by those ports. |
| `Headers.LaterFragmentsHaveNoPorts` | bpf/flow.bpf.c:1037-1092 | Behind a non-first fragment no ports, flags, captures or samples are read. |
| `Pipeline.SplitAgreesExactly` | bpf/flow.bpf.c:1157-1203 | The staged build leaves the same action, maps, captures, samples, mark and priority as the single pass, if and only if the frame is not a cut-off IPv6 transport that is left unsampled. |
| `Pipeline.StagesDisagree` | bpf/flow.bpf.c:985-996 | On such a frame the two builds leave different packet counts. |
| `Pipeline.BuildsDisagreeOnHeadersOnly` | bpf/flow.bpf.c:985-996 | With sampling off, the builds differ on every 54-byte frame that is an Ethernet and an IPv6 header announcing TCP or UDP, in every state; `SuchAFrame` builds one. |
| `Pipeline.OnlyCutOffTransportSkipsTheExit` | bpf/flow.bpf.c:846-1092 | A parse result asks for accounting in the policy stage exactly for IPv6 frames with a cut-off transport header; `Datapath` proves the results from the mode tests. |
| `Pipeline.SecondHookCountsNothingExactly` | bpf/flow.bpf.c:1207-1262 | At egress, in both builds, a packet that crossed an observed ingress changes no flow if and only if policy does not run again, or neither blocks the packet nor meets a cut-off transport header; it is dropped exactly when blocked. |
| `Pipeline.PolicyDropsExactly` | bpf/flow.bpf.c:161-242 | Policy drops a packet, and touches the flow table, if and only if the maps block it: a current exact verdict does, or without one a current learned verdict does. |
| `Datapath.Program.RecordFlow` | bpf/flow.bpf.c:800-835 | Accounting updates exactly the flow's entry, with counters modulo 2^64 and united TCP flags. |
| `RecordRace.QuiescentEntryIsExact` | bpf/flow.bpf.c:800-835 | Under every interleaving of CPUs recording one flow, once no call is under way the packets and bytes of its entry are exactly those recorded, except of calls that found no entry after their own insertion failed. |
| `RecordRace.RacingInsertionsLoseNothing` | bpf/flow.bpf.c:812-835 | As long as the map has room there are no such calls, however the insertions race. |
| `RecordRace.NumbersAreDrawnInOrder` | bpf/flow.bpf.c:800-835 | The counted calls return 1, 2, 3, … in the order of their fetch-and-add or insertion, each number once. |
| `RecordRace.StepKeepsInv` | bpf/flow.bpf.c:800-835 | Every atomic step of every CPU keeps the balance between the entry, what CPUs have yet to add to it and what was recorded. |
| `Datapath.Program.ActiveFlowVerdict` | bpf/flow.bpf.c:105-122 | The exact verdict is found if and only if it is present, unexpired and of the generation; it is removed if and only if it is present and not found. |
| `Datapath.Program.LearnedVerdict` | bpf/flow.bpf.c:172-195 | The verdict learned for a client and remote endpoint, likewise. |
| `Datapath.Program.EvaluateFlowPolicy` | bpf/flow.bpf.c:161-242 | A packet is dropped if and only if the maps block it, with the specified updates. |
| `Datapath.Program.ParseIpv4` | bpf/flow.bpf.c:846-946 | The IPv4 path, which tests the mode at four places, ends in each mode as the mode-independent parse result says. |
| `Datapath.Program.ParseBody4` | bpf/flow.bpf.c:879-945 | The same for the packet behind a well-formed header: ESP and GRE, TCP and UDP, and later fragments. |
| `Datapath.Program.ParseIpv6` | bpf/flow.bpf.c:948-1093 | The IPv6 path, which tests the mode inside and behind the header walk, likewise. |
| `Datapath.Program.ReachedTransport6` | bpf/flow.bpf.c:981-1030 | The branch of the walk that meets TCP or UDP: the mode is tested only where the ports are present, so that the policy mode falls through to accounting exactly where they are not. |
| `Datapath.Program.ParsePacket` | bpf/flow.bpf.c:1095-1138 | So does the whole parse of any frame. |
| `Datapath.Program.RunSinglePass` | bpf/flow.bpf.c:1183-1203 | The single-pass program computes `Pipeline.SinglePass`. |
| `Datapath.Program.RunStages` | bpf/flow.bpf.c:1183-1336 | The tail-called stages compute `Pipeline.Split`, and agree with the single pass if and only if no cut-off IPv6 transport goes unsampled. |
| `Datapath.Program.RunEgress` | bpf/flow.bpf.c:1207-1275 | The egress hook of either build computes `Pipeline.AtEgress`, with the exact condition under which it changes no flow a second time. |
| `Qos.Classifier.Ingress` | bpf/include/netqmon_qos_priority.h:202-245 | The ingress verdict and packet words are the specified ones. |
| `Qos.Classifier.Egress` | bpf/include/netqmon_qos_priority.h:246-298 | The egress verdict and packet words are the specified ones. |
| `Qos.Classifier.Match` | bpf/include/netqmon_qos_priority.h:299-327 | The redirect decision and packet words are the specified ones. |
| `Qos.LeavesAreDisjoint` | bpf/include/netqmon_classid.h:7-21 | Default and application leaves of different slots are disjoint, and none is the bypass leaf. |
| `Qos.ApplicationLeavesCoverTheRange` | bpf/include/netqmon_qos_priority.h:176-187 | Every class of the reserved range is an application leaf of one of the 256 slots. |
| `Qos.SixteenLeavesPerSlot` | bpf/include/netqmon_qos_priority.h:176-187 | A class is an application leaf of a slot if and only if it is one of sixteen distinct ones. |
| `Qos.EgressIsContained` | bpf/include/netqmon_qos_priority.h:246-298 | An accepted packet leaves in the bypass leaf or in a leaf of its destination's live valid assignment, never in bypass when that assignment has a download budget. |
| `Qos.EgressDropsExactly` | bpf/include/netqmon_qos_priority.h:246-298 | A packet is dropped at egress if and only if it is blocked, misdelivered, or its budget is claimed by an invalid entry. |
| `Qos.ShapedEgressIsContained` | bpf/flow.bpf.c:198-214 | Whatever policy tag shaped the packet, it never leaves in another client's leaf. |
| `Qos.IngressIsContained` | bpf/include/netqmon_qos_priority.h:202-245 | A live upload budget is never escaped: the packet is dropped or continues in an upload leaf of its own slot. |
| `Qos.ContinuedPacketsAreRedirected` | bpf/include/netqmon_qos_priority.h:299-327 | What ingress passes on is redirected if and only if another redirect device is published, or the control words already name this port and class. |
| `FlowRuntime.Runtime.Update` | crates/agent/src/flow.rs:194-280 | A poll over all keys does to each key what the specification does to it alone: deltas, events and remembered state. |
| `FlowRuntime.Runtime.ObserveRecord` | crates/agent/src/flow.rs:201-247 | One record changes its own key as specified, and no other. |
| `FlowRuntime.Runtime.Sweep` | crates/agent/src/flow.rs:248-277 | The idle sweep of one key, likewise. |
| `FlowRuntime.PolledAppends` | crates/agent/src/flow.rs:194-280 | What a poll emits for a key depends only on what is remembered of it, not on what was emitted before. |
| `FlowRuntime.Follow` | crates/agent/src/flow.rs:194-280 | Any number of polls of a fresh runtime put every key through its own run, with its deltas and events in order. |
| `FlowRuntime.FollowLifecycles` | crates/agent/src/flow.rs:194-280 | Over any number of such polls the events of every key with regular records follow the lifecycle grammar. |
| `FlowRuntime.LifecycleFollowsTheGrammarExactly` | crates/agent/src/flow.rs:201-277 | Every run over a set of records follows (Active (Idle Active)* Idle? End)*, every block with one lifetime, if and only if every record counts something and either all or none have a first-seen time. |
| `FlowRuntime.EmptyRecordBreaksTheGrammar` | crates/agent/src/flow.rs:201-247 | Any record that counts neither a packet nor a byte leads to an End that no Active preceded. |
| `FlowRuntime.MixedRecordsBreakTheGrammar` | crates/agent/src/flow.rs:201-247 | A record without a first-seen time and a later one with it change the lifetime inside a block. |
| `FlowAccounting.ConservationExactly` | crates/agent/src/linux.rs:2380-2433 | With the runtime updated at most a lag after the reader's clock reading, every run of packets, evictions and polls emits per lifetime exactly its last observed counters, and nothing after its End, if and only if the reader's timeout plus the lag fits into the runtime's, or the reader's alone is zero. |
| `FlowAccounting.ConservationByProtocol` | crates/agent/src/linux.rs:2420-2433 | For TCP and UDP that is exactly when the lag is zero; for other protocols exactly when the UDP timeout plus the lag fits into the TCP timeout, or the UDP timeout alone is zero. |
| `FlowAccounting.PollKeepsInv` | crates/agent/src/flow.rs:194-280 | The map reader has removed an entry by the poll that ends its lifetime, and the joint invariant is kept. |
| `FlowAccounting.CountedTwice` | crates/agent/src/flow.rs:248-277 | Any schedule of two polls at which the runtime's timer runs out while the entry survives leads to a packet counted twice. |
| `FlowAccounting.HypothesesAreNeeded` | crates/agent/src/linux.rs:1087-1123 | For equal nonzero timeouts any positive lag loses conservation, and so does a packet seen at the lookup or a failing delete. |
| `BudgetGc.Collector.Run` | crates/agent/src/linux.rs:2135-2227 | One run looks at the next 2048 entries once each, deletes exactly the stale ones among them, and stands right before the next entry or ends its cycle with the live count. |
| `BudgetGc.Collector.Sweep` | crates/agent/src/linux.rs:2176-2224 | The loop of a run, which deletes from the map it is walking and resumes behind a live key. |
| `BudgetGc.Collector.Cycle` | crates/agent/src/linux.rs:2135-2227 | A cycle over an undisturbed map takes exactly ceil(n/2048) runs (one for an empty map), inspects every entry once and in order, leaves exactly the live ones, and reports their number. |
| `BudgetGc.Collector.Runs` | crates/agent/src/linux.rs:2135-2227 | After any number of runs of a cycle exactly that many slices were inspected and cleaned, and nothing is reported before the last one. |
| `Dedup.Cache.Admit` | crates/agent/src/discovery.rs:86-113 | A key is suppressed if and only if it was admitted less than the TTL ago with fewer than CAPACITY admissions since; map and queue hold the same distinct keys in time order, so that no pop fails. |
| `Dedup.Processor.ProcessEvent` | crates/agent/src/discovery.rs:75-137 | Truncated, duplicate, failed and parsed packets change counters, histories and report exactly as specified. |
| `Dedup.Processor.DedupUserAgent` | crates/agent/src/discovery.rs:139-175 | A user agent is a repeat exactly by its own history, and only then is it counted. |
| `Dedup.RunsAreExact` | crates/agent/src/discovery.rs:75-175 | Over every run, two admissions of one key are a TTL apart or have CAPACITY admissions between them, and every packet is counted exactly once. |
| `Dhcp6.Parse` | crates/agent/src/discovery.rs:394-473 | The index-advancing loop records the options that the grammar finds, in order, with the error of the first bad one. |
| `Dhcp6.ParseClasses` | crates/agent/src/discovery.rs:435-453 | The inner loop reads the length-prefixed vendor class list. |
| `Dhcp6.ParseName` | crates/agent/src/discovery.rs:492-510 | The label loop reads a wire-format name, empty if truncated. |
| `Dhcp6.AcceptsExactly` | crates/agent/src/discovery.rs:394-473 | A payload is accepted if and only if it is a four-byte header and a concatenation of options whose vendor classes are well-formed lists. |
| `Dhcp6.RoundTrip` | crates/agent/src/discovery.rs:394-473 | Parsing an encoded option list recovers the last value of every recorded option, and records nothing else. |
| `Dhcp6.EncodedLabelsDecode` | crates/agent/src/discovery.rs:492-510 | Encoded labels decode to themselves, whatever follows the root label. |
| `Topology.MaskFits` | crates/agent/src/topology.rs:319-327 | A prefix mask is that many ones at the top of its width, so that the 32-bit conversion cannot fail. |
| `Topology.ContainsExactly` | crates/agent/src/topology.rs:97-124 | A prefix contains an address if and only if it has no host bits, and family and leading bits agree. |
| `Topology.NewPrefixContainsExactly` | crates/agent/src/topology.rs:97-124 | A prefix made of any address contains exactly the addresses that share its leading bits. |
| `Topology.NestedOrDisjoint` | crates/agent/src/topology.rs:97-124 | Any two prefixes are nested or disjoint. |
| `Topology.SegmentIsBest` | crates/agent/src/topology.rs:306-312 | The segment found contains the address and ranks highest by source and length; none is found exactly when none contains it. |
| `Topology.SegmentIsLast` | crates/agent/src/topology.rs:306-312 | Among equally ranked segments the last one listed is found. |
| `Topology.SegmentIgnoresOrder` | crates/agent/src/topology.rs:306-312 | Without repeated (source, subnet) pairs the answer is the same for every ordering of the list. |
| `Nat.ConntrackContext.Insert` | crates/agent/src/conntrack.rs:209-214 | After four map updates every tuple leads to the last inserted entry that has it among its forms, and no other tuple leads anywhere. |
| `Nat.ConntrackContext.Load` | crates/agent/src/conntrack.rs:199-207 | The same after all parsed lines, in order. |
| `Nat.ConntrackContext.Resolve` | crates/agent/src/conntrack.rs:216-218 | A hit is the latest entry with the captured tuple among its four; a miss means that no entry has it. |
| `Nat.OrientedExactly` | crates/agent/src/normalization.rs:220-242 | All four forms are oriented, and rightly, if and only if no tuple is symmetric. |
| `Nat.SwappedEndpoints` | crates/agent/src/normalization.rs:94-189 | Swapping endpoints keeps the scope; it keeps client and remote, and turns the direction, exactly when the network tells them apart. |
| `Nat.RestorationExactly` | crates/agent/src/normalization.rs:77-269 | All four captured forms normalise to one client and remote with opposite directions, if and only if the entry is orientable and the network tells its original endpoints apart. |
| `Nat.LoopIsNotRestored` | crates/agent/src/normalization.rs:94-269 | A connection between two ports of one address is orientable and found under all its forms, and yet not restored in any network. |
| `Nat.ViewsShareOnePairExactly` | crates/agent/src/normalization.rs:94-269 | Exactly when the four forms name one pair, whatever their directions. |
| `Nat.InsideIsTheClient` | crates/agent/src/normalization.rs:163-189 | With exactly one original endpoint internal, and none local or in a tunnel, the client is the internal one on every form. |
| `Nat.UnclaimedFormsResolve` | crates/agent/src/conntrack.rs:209-218 | An entry whose forms no other entry claims is found under each of them. |
| `TelemetryBuffer.Buffer.Push` | crates/agent/src/transport.rs:132-162 | The push loop drops the oldest batches as specified, with all statistics. |
| `TelemetryBuffer.Buffer.Pop` | crates/agent/src/transport.rs:164-179 | The oldest batch is returned and removed, or none exactly when the queue is empty. |
| `TelemetryBuffer.AdmittedPush` | crates/agent/src/transport.rs:142-157 | An accepted push leaves the longest suffix that fits, ending in the new batch. |
| `TelemetryBuffer.SizedExactly` | crates/agent/src/transport.rs:132-179 | Over every run the stored bytes equal the queued sizes and stay within capacity, if and only if the capacity is below the largest word. |
| `TelemetryBuffer.RunsConserve` | crates/agent/src/transport.rs:132-186 | Over every run batches, bytes and flows submitted equal those popped, dropped and queued, and pops followed by the queue follow submission order. |
| `TelemetryBuffer.WatermarksAreMaxima` | crates/agent/src/transport.rs:63-90 | Over every run the gauges show the queue and the watermarks are the historical maxima, attained. |
| `Sender.ByteCount` | crates/agent/src/transport.rs:315-319 | The saturating fold over a batch's flows is the saturated sum. |
| `Sender.Worker.Loop` | crates/agent/src/transport.rs:289-372 | The two nested loops compute the transition system and perform exactly the journalled uploads, whatever queue, controller and shutdown flag answer. |
| `Sender.AcceptedAreNumbered` | crates/agent/src/transport.rs:307-356 | Over every run accepted batches carry 1, 2, 3, … (saturating) in the order taken, and every acceptance is counted once with its flows and bytes. |
| `Sender.RetriesRepeat` | crates/agent/src/transport.rs:319-371 | Every upload, retries included, carries the first batch not accepted before it, under its one number. |
| `Sender.ResultsTravelOnce` | crates/agent/src/transport.rs:307-356 | The probe results of an acceptance travel in the next batch, and nowhere else. |
| `Sender.EnrolmentBacksOff` | crates/agent/src/transport.rs:319-363 | The enrolment delay is the power of two of the failures since the last reset, at most thirty seconds. |
| `Cname.CnamePath` | crates/agent/src/dns_observation.rs:65-87 | As many iterations as answers always reach the maximal repeat-free first-match chain from the query name, cycles included. |
| `Cname.LongChainIsMaximal` | crates/agent/src/dns_observation.rs:65-87 | A chain with a hop for every answer cannot go on, by the pigeonhole principle. |
| `Cname.MaximalChainIsUnique` | crates/agent/src/dns_observation.rs:65-87 | There is only one maximal chain. |
| `Cname.HopTtlIsMinimum` | crates/agent/src/dns_observation.rs:67-84 | The TTL of a hop is the least of all CNAME records before it. |
| `Cname.Observations` | crates/agent/src/dns_observation.rs:32-63 | Observations are exactly the address records of names on that chain, each with the lesser of its own TTL and the chain's; none for a failed response. |
| `DeviceCache.Cache.Observe` | crates/agent/src/device.rs:73-112 | Devices, owners, names, metadata and times are what the history of observations says, after any observation. |
| `DeviceCache.Cache.Snapshot` | crates/agent/src/device.rs:126-147 | A snapshot, cached or not, lists every address once with its owner and what is known of it. |
| `DeviceCache.Cache.ResolverSnapshot` | crates/agent/src/device.rs:118-124 | The resolver view, cached or not, is the current ownership. |
| `DeviceCache.Cache.TakeTelemetrySnapshot` | crates/agent/src/device.rs:149-155 | The full table if and only if something was observed since the last call, otherwise nothing. |
| `DeviceCache.TablesAreInverse` | crates/agent/src/device.rs:73-112 | The ownership map and the per-device address tables are inverse to each other. |
| `Versions.ParsesExactly` | apps/controller-ui/lib/releases.ts:6-20 | The strings that parse are exactly the valid versions as written. |
| `Versions.ShownParses` | apps/controller-ui/lib/releases.ts:6-20 | Every valid version parses back to its parts. |
| `Versions.ParsedIsShown` | apps/controller-ui/lib/releases.ts:6-20 | What parses is valid and is written exactly so. |
| `Versions.NumeralsAreDistinct` | apps/controller-ui/lib/releases.ts:13-18 | Numerals without leading zeros denote distinct numbers. |
| `Versions.ComparePrereleases` | apps/controller-ui/lib/releases.ts:37-52 | The loop over two identifier lists computes their recursive comparison. |
| `Versions.VersionsAreOrdered` | apps/controller-ui/lib/releases.ts:23-54 | Precedence is antisymmetric in sign, total and transitive, and equal exactly up to the leading v and the build. |
| `Versions.CompareIsAnOrder` | apps/controller-ui/lib/releases.ts:23-54 | The same on all strings that parse, reflexivity included. |
| `Versions.LatestReleaseExactly` | apps/controller-ui/lib/releases.ts:56-73 | With a current version that does not parse the answer is null; otherwise a value is the answer if and only if it is the first of the highest eligible releases, or null with none eligible. |

## Left out

- Loading, attaching and ring buffers of the eBPF program, netlink, `/proc` and `/sys`: foreign calls and I/O.
- Tail calls that fail, and other CPUs changing a packet's maps while it is processed: the packet program is modelled on one CPU with successful tail calls; only the sample budget and the accounting of a flow are modelled under interleaving.
- The bodies of the DNS, DHCP, discovery and HTTP captures: recorded as calls with their offsets.
- The lookup whether a destination is outside the internal prefixes (a parameter of the QoS model), the path probe and the proof-of-concept QoS code: instrumentation and an opaque trie.
- Error returns of the map syscalls in the budget sweep, and entries of unexpected size; insertions by other writers during a sweep.
- Deletion or eviction of a sample budget while a conversation goes on: the interleaving theorems are about one budget from its creation on.
- LRU eviction choice: eviction of a flow entry is a step that can happen at any time.
- The text format of connection tracking lines: entries are given parsed.
- Wrap-around of the 64-bit statistics counters of the transport, and a poisoned lock.
- Rendering of DHCPv6 attributes as hexadecimal, decimal, joined and lower-case text: values are kept as parsed; which bytes are UTF-8 or printable is a parameter.
- The mDNS, SSDP and HTTP payload parsers, and the decoding of DNS messages: results are given parsed.
- Hash collisions of payloads and user agents: equal hashes are equal keys, as in the source.
- The byte codec of flow keys, topology inference, lease files, configuration, the classifier and collector processes, and the user interface: easy, or I/O.
- In `RecordRace`: wrap-around of the 64-bit counters, the last-seen time and TCP flags of the entry, and its removal while packets are recorded; `Datapath.Program.RecordFlow` has the wrap-around, time and flags on one CPU.
