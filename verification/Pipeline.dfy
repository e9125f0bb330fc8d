/**
 The packet program: policy, captures, flow accounting and sampling of one frame, in its two builds.

 The single-pass build does everything in one parse. The split build parses twice, once for policy and once
 for observation, and continues through tail calls: policy, observe, sample, finish. Both hand the packet to
 the same finish stage, so they are compared on what reaches it. Tail calls succeed, no other CPU interferes, and
 inserting an absent key into an LRU map succeeds.
 */
module Pipeline {
  import opened Base
  import opened Bits
  import opened Headers
  import Qos

  const BLOCK: nat := 1
  const SHAPE: nat := 2
  const MARK_MAX_TAG: nat := 0x7f
  const MARK_UNIT: nat := 0x200_0000
  const U64: nat := 0x1_0000_0000_0000_0000

  type Mac = seq<Byte>

  datatype FlowValue = FlowValue(packets: nat, bytes: nat, firstSeenNs: nat, lastSeenNs: nat, tcpFlags: set<nat>)
  datatype Verdict = Verdict(expiresNs: nat, generation: nat, policyHash: seq<Byte>, clientMac: Mac, tag: nat, verdict: nat)
  datatype EndpointKey = EndpointKey(
    ipVersion: Byte, protocol: Byte, remotePort: nat, client: Address, remote: Address, clientMac: Mac)
  datatype DropKey = DropKey(policyHash: seq<Byte>, clientMac: Mac)
  datatype DropValue = DropValue(packets: nat, bytes: nat)
  datatype SampleCall = SampleCall(key: FlowKey, networkOffset: nat, originalLength: nat)

  /**
   What stays fixed while one packet is processed. `priorities` says whether the build has the priority feature;
   `clock` gives the successive readings of the clock.
   */
  datatype Config = Config(
    policyEnabled: bool, generation: nat,
    sampleEnabled: bool, sampleMaxPackets: nat,
    priorities: bool, redirectPublished: bool, root: bool,
    clock: nat -> nat)

  datatype State = State(
    flows: map<FlowKey, FlowValue>,
    verdicts: map<FlowKey, Verdict>,
    endpoints: map<EndpointKey, Verdict>,
    drops: map<DropKey, DropValue>,
    captures: seq<Capture>,
    samples: seq<SampleCall>,
    mark: nat,
    priority: nat,
    readings: nat)

  datatype Action = Ok | Shot

  /** The parses: the whole work in one pass, policy alone, or all but policy. */
  datatype Mode = Full | PolicyOnly | Observe

  // Map updates

  /** The flag bits set in a byte; or-ing bytes unites them. */
  function FlagBits(flags: Byte): set<nat> {
    set i: nat | i < 8 && flags / Pow2(i) % 2 == 1
  }

  function Accounted(known: map<FlowKey, FlowValue>, key: FlowKey, length: nat, flags: Byte, now: nat): FlowValue {
    if key in known then
      var v := known[key];
      FlowValue((v.packets + 1) % U64, (v.bytes + length) % U64, v.firstSeenNs, now, v.tcpFlags + FlagBits(flags))
    else FlowValue(1, length, now, now, FlagBits(flags))
  }

  function Recorded(c: Config, s: State, key: FlowKey, length: nat, flags: Byte): State {
    s.(flows := s.flows[key := Accounted(s.flows, key, length, flags, c.clock(s.readings))], readings := s.readings + 1)
  }

  function DropRecorded(s: State, verdict: Verdict, length: nat): State {
    var key := DropKey(verdict.policyHash, verdict.clientMac);
    var v := if key in s.drops then s.drops[key] else DropValue(0, 0);
    s.(drops := s.drops[key := DropValue((v.packets + 1) % U64, (v.bytes + length) % U64)])
  }

  // Policy

  function Endpoint(frame: Frame, key: FlowKey): EndpointKey
    requires ETHERNET_SIZE <= |frame.data|
  {
    if key.hook == INGRESS then
      EndpointKey(key.ipVersion, key.protocol, key.destinationPort, key.sourceAddress, key.destinationAddress, frame.data[6..12])
    else
      EndpointKey(key.ipVersion, key.protocol, key.sourcePort, key.destinationAddress, key.sourceAddress, frame.data[0..6])
  }

  /** The flow has an exact verdict that has not expired and, where policies have a generation, is of this one. */
  predicate HasExact(c: Config, s: State, key: FlowKey) {
    && key in s.verdicts
    && s.verdicts[key].expiresNs > c.clock(s.readings)
    && (c.generation == 0 || s.verdicts[key].generation == c.generation)
  }

  /** A verdict was learned for the endpoints that has not expired and is of this generation. */
  predicate HasLearned(c: Config, s: State, endpoint: EndpointKey) {
    && endpoint in s.endpoints
    && s.endpoints[endpoint].expiresNs > c.clock(s.readings)
    && s.endpoints[endpoint].generation == c.generation
  }

  /** The state after the exact verdict was looked up: a stale one is removed, and one found takes a clock reading. */
  function ExactLookedUp(c: Config, s: State, key: FlowKey): State {
    if key !in s.verdicts then s
    else s.(verdicts := if HasExact(c, s, key) then s.verdicts else s.verdicts - {key}, readings := s.readings + 1)
  }

  function LearnedLookedUp(c: Config, s: State, endpoint: EndpointKey): State {
    if endpoint !in s.endpoints then s
    else s.(endpoints := if HasLearned(c, s, endpoint) then s.endpoints else s.endpoints - {endpoint},
      readings := s.readings + 1)
  }

  /** The maps block the packet: by the flow's exact verdict, or without one by what was learned of its endpoints. */
  predicate Blocked(c: Config, s: State, frame: Frame, key: FlowKey)
    requires ETHERNET_SIZE <= |frame.data|
  {
    var endpoint, s1 := Endpoint(frame, key), ExactLookedUp(c, s, key);
    if HasExact(c, s, key) then s.verdicts[key].verdict == BLOCK
    else HasLearned(c, s1, endpoint) && s1.endpoints[endpoint].verdict == BLOCK
  }

  /** The mark or priority a shaping verdict sets. */
  function ShapedState(c: Config, s: State, key: FlowKey, tag: nat): State {
    if c.priorities && c.redirectPublished then s.(priority := Qos.Shaped(c.root, key.hook, tag, s.priority))
    else if 0 < tag <= MARK_MAX_TAG then s.(mark := s.mark % MARK_UNIT + tag * MARK_UNIT)
    else s
  }

  function Enforced(c: Config, s: State, frame: Frame, key: FlowKey, verdict: Verdict): (Action, State) {
    if verdict.verdict == SHAPE then (Ok, ShapedState(c, s, key, verdict.tag))
    else if verdict.verdict == BLOCK then
      (Shot, DropRecorded(Recorded(c, s, key, frame.length, 0), verdict, frame.length))
    else (Ok, s)
  }

  function Policed(c: Config, s: State, frame: Frame, key: FlowKey): (Action, State)
    requires ETHERNET_SIZE <= |frame.data|
  {
    var s1 := ExactLookedUp(c, s, key);
    if HasExact(c, s, key) then Enforced(c, s1, frame, key, s.verdicts[key])
    else
      var endpoint := Endpoint(frame, key);
      var s2 := LearnedLookedUp(c, s1, endpoint);
      if HasLearned(c, s1, endpoint) then Enforced(c, s2, frame, key, s1.endpoints[endpoint]) else (Ok, s2)
  }

  // One parse

  predicate WantsSample(c: Config, s: State, parsed: Parsed)
    requires parsed.Found? && parsed.key in s.flows
  {
    c.sampleEnabled && s.flows[parsed.key].packets <= c.sampleMaxPackets && parsed.sample.Some?
  }

  function Sampled(s: State, parsed: Parsed): State
    requires parsed.Found? && parsed.sample.Some?
  {
    s.(samples := s.samples + [SampleCall(parsed.key, parsed.networkOffset, parsed.sample.value)])
  }

  /** Captures, then accounting. */
  function Observed(c: Config, s: State, frame: Frame, parsed: Parsed): State
    requires parsed.Found?
  {
    Recorded(c, s.(captures := s.captures + parsed.captures), parsed.key, frame.length, parsed.tcpFlags)
  }

  /** How a parse ends: with an action, or in the sample helper. */
  datatype Ending = Returned(action: Action, s: State) | Sampling(s: State)

  /** The policy check, where the mode asks for it. */
  function UnderPolicy(c: Config, mode: Mode, s: State, frame: Frame, key: FlowKey): (Action, State)
    requires ETHERNET_SIZE <= |frame.data|
  {
    if c.policyEnabled && mode != Observe then Policed(c, s, frame, key) else (Ok, s)
  }

  function AfterParse(c: Config, mode: Mode, s: State, frame: Frame, parsed: Parsed): Ending
    requires parsed.Found? ==> ETHERNET_SIZE <= |frame.data|
  {
    if parsed.Ignored? then Returned(Ok, s)
    else
      var (action, s1) := if parsed.policed then UnderPolicy(c, mode, s, frame, parsed.key) else (Ok, s);
      if action == Shot then Returned(Shot, s1)
      else if mode == PolicyOnly && !parsed.skipsPolicyExit then Returned(Ok, s1)
      else Finished(c, s1, frame, parsed)
  }

  /** The end of a packet that policy passes on. */
  function Finished(c: Config, s: State, frame: Frame, parsed: Parsed): Ending
    requires parsed.Found?
  {
    var observed := Observed(c, s, frame, parsed);
    if WantsSample(c, observed, parsed) then Sampling(observed) else Returned(Ok, observed)
  }

  // The two builds

  /** Single-pass build: the sample is taken inside the parse. */
  function SinglePass(c: Config, mode: Mode, s: State, frame: Frame, parsed: Parsed): (Action, State)
    requires parsed.Found? ==> ETHERNET_SIZE <= |frame.data|
  {
    match AfterParse(c, mode, s, frame, parsed)
    case Returned(action, s1) => (action, s1)
    case Sampling(s1) => (Ok, Sampled(s1, parsed))
  }

  /** One parse of the split build: a tail call into the sample stage, which goes on to the finish stage. */
  function Stage(c: Config, mode: Mode, s: State, frame: Frame, parsed: Parsed): (Action, State, bool)
    requires parsed.Found? ==> ETHERNET_SIZE <= |frame.data|
  {
    match AfterParse(c, mode, s, frame, parsed)
    case Returned(action, s1) => (action, s1, false)
    case Sampling(s1) => (Ok, Sampled(s1, parsed), true)
  }

  /** Split build: the observe stage follows an accepting policy stage that has not left through the sample stage. */
  function Split(c: Config, policyOnly: bool, s: State, frame: Frame, parsed: Parsed): (Action, State)
    requires parsed.Found? ==> ETHERNET_SIZE <= |frame.data|
  {
    var (action, s1, finished) := Stage(c, PolicyOnly, s, frame, parsed);
    if action == Shot || finished || policyOnly then (action, s1)
    else
      var (action', s2, _) := Stage(c, Observe, s1, frame, parsed);
      (action', s2)
  }

  function SingleMode(policyOnly: bool): Mode {
    if policyOnly then PolicyOnly else Full
  }

  /** A frame that the policy stage accounts for without leaving through the sample stage. */
  predicate CountedTwice(c: Config, s: State, frame: Frame, parsed: Parsed)
    requires parsed.Found? ==> ETHERNET_SIZE <= |frame.data|
  {
    parsed.Found? && parsed.skipsPolicyExit && !WantsSample(c, Observed(c, s, frame, parsed), parsed)
  }

  /** The staged and the single pass agree on what one parse result leads to, unless it is counted twice. */
  lemma StagesAgree(c: Config, policyOnly: bool, s: State, frame: Frame, parsed: Parsed)
    requires parsed.Found? ==> ETHERNET_SIZE <= |frame.data| && !(parsed.policed && parsed.skipsPolicyExit)
    requires policyOnly || !CountedTwice(c, s, frame, parsed)
    ensures Split(c, policyOnly, s, frame, parsed) == SinglePass(c, SingleMode(policyOnly), s, frame, parsed)
  {
  }

  lemma StagesDisagree(c: Config, s: State, frame: Frame, parsed: Parsed)
    requires parsed.Found? ==> ETHERNET_SIZE <= |frame.data| && !(parsed.policed && parsed.skipsPolicyExit)
    requires CountedTwice(c, s, frame, parsed)
    ensures var split := Split(c, false, s, frame, parsed).1.flows;
            var single := SinglePass(c, Full, s, frame, parsed).1.flows;
            && parsed.key in split && parsed.key in single
            && split[parsed.key].packets != single[parsed.key].packets
  {
    var once := Observed(c, s, frame, parsed);
    assert Split(c, false, s, frame, parsed).1.flows == Observed(c, once, frame, parsed).flows;
    assert SinglePass(c, Full, s, frame, parsed).1.flows == once.flows;
  }

  /** TCP or UDP is reached within five extension headers, but its port bytes are cut off. */
  predicate CutOffTransport6(frame: Frame) {
    && |frame.data| >= ETHERNET_SIZE
    && match Network(frame.data, ETHERNET_SIZE, WordAt(frame.data, 12), MAX_VLAN_HEADERS)
       case None => false
       case Some((offset, protocol)) =>
         && protocol == ETH_IPV6 && Present6(frame.data, offset)
         && var chain := Chain6(frame.data, offset);
            var last := chain[|chain| - 1];
            |chain| <= 6 && IsTransport(last.nextHeader) && !last.laterFragment && last.offset + 4 > |frame.data|
  }

  lemma OnlyCutOffTransportSkipsTheExit(frame: Frame, hook: Byte)
    ensures var parsed := Parse(frame, hook);
            && (parsed.Found? ==> ETHERNET_SIZE <= |frame.data| && !(parsed.policed && parsed.skipsPolicyExit))
            && (parsed.Found? && parsed.skipsPolicyExit <==> CutOffTransport6(frame))
            && (CutOffTransport6(frame) ==> parsed.sample.Some?)
  {
  }

  /** The flow is still young enough to be sampled with this frame. */
  predicate IsSampled(c: Config, s: State, frame: Frame, hook: Byte) {
    var parsed := Parse(frame, hook);
    && parsed.Found? && c.sampleEnabled
    && Accounted(s.flows, parsed.key, frame.length, 0, 0).packets <= c.sampleMaxPackets
  }

  /**
   Splitting preserves the meaning of the program: for every frame, map state and clock, the staged build leaves
   the same action, maps, captures, samples, mark and priority as the single pass, except exactly on IPv6 frames
   whose transport header is cut off and which are not sampled, unless the frame was already observed at ingress.
   */
  lemma SplitAgreesExactly(c: Config, policyOnly: bool, s: State, frame: Frame, hook: Byte)
    ensures var parsed := Parse(frame, hook);
            && (parsed.Found? ==> ETHERNET_SIZE <= |frame.data|)
            && (Split(c, policyOnly, s, frame, parsed) == SinglePass(c, SingleMode(policyOnly), s, frame, parsed)
                <==> policyOnly || !CutOffTransport6(frame) || IsSampled(c, s, frame, hook))
  {
    var parsed := Parse(frame, hook);
    OnlyCutOffTransportSkipsTheExit(frame, hook);
    if policyOnly || !CountedTwice(c, s, frame, parsed) {
      StagesAgree(c, policyOnly, s, frame, parsed);
    } else {
      StagesDisagree(c, s, frame, parsed);
    }
  }

  /** An Ethernet and an IPv6 header that announces TCP or UDP, and nothing behind them. */
  predicate HeadersOnly(data: seq<Byte>) {
    |data| == 54 && data[12] == 0x86 && data[13] == 0xDD && data[14] / 16 == 6 && IsTransport(data[20])
  }

  lemma HeadersOnlyIsCutOff(frame: Frame)
    requires HeadersOnly(frame.data)
    ensures CutOffTransport6(frame)
  {
    var data := frame.data;
    assert WordAt(data, 12) == ETH_IPV6 && Present6(data, 14);
    assert ExtensionSize(data, Spot(54, data[20], false)) == None;
    assert Chain6(data, 14) == [Spot(54, data[20], false)];
  }

  lemma SuchAFrame() returns (data: seq<Byte>)
    ensures HeadersOnly(data)
  {
    var zeros: seq<Byte> := seq(54, _ => 0);
    data := zeros[12 := 0x86][13 := 0xDD][14 := 0x60][20 := TCP];
  }

  /** With sampling off, the two builds differ on such a frame, in every state and at both hooks. */
  lemma BuildsDisagreeOnHeadersOnly(c: Config, s: State, frame: Frame, hook: Byte)
    requires !c.sampleEnabled && HeadersOnly(frame.data)
    ensures Split(c, false, s, frame, Parse(frame, hook)) != SinglePass(c, Full, s, frame, Parse(frame, hook))
  {
    HeadersOnlyIsCutOff(frame);
    SplitAgreesExactly(c, false, s, frame, hook);
  }

  /**
   What the egress hook does with a packet in either build: nothing when it crossed an observed ingress hook and
   policy is off or its upload class was already decided, otherwise a parse that is policy-only if it crossed such
   a hook.
   */
  function AtEgress(c: Config, staged: bool, s: State, frame: Frame, observedAtIngress: bool): (Action, State) {
    OnlyCutOffTransportSkipsTheExit(frame, EGRESS);
    if observedAtIngress && !PolicyRunsAgain(c, s) then (Ok, s)
    else if staged then Split(c, observedAtIngress, s, frame, Parse(frame, EGRESS))
    else SinglePass(c, SingleMode(observedAtIngress), s, frame, Parse(frame, EGRESS))
  }

  predicate PolicyRunsAgain(c: Config, s: State) {
    c.policyEnabled && !(c.priorities && Qos.UploadClass(s.priority))
  }

  lemma RecordingChangesTheFlow(c: Config, s: State, key: FlowKey, length: nat, flags: Byte)
    ensures Recorded(c, s, key, length, flags).flows != s.flows
  {
    if key in s.flows {
      assert Recorded(c, s, key, length, flags).flows[key].packets != s.flows[key].packets;
    }
  }

  lemma EnforcingDropsExactly(c: Config, s: State, frame: Frame, key: FlowKey, verdict: Verdict)
    ensures Enforced(c, s, frame, key, verdict).0 == Shot <==> verdict.verdict == BLOCK
    ensures Enforced(c, s, frame, key, verdict).1.flows != s.flows <==> verdict.verdict == BLOCK
  {
    RecordingChangesTheFlow(c, s, key, frame.length, 0);
  }

  /** Policy drops a packet, and changes the flow table, exactly when the maps block it. */
  lemma PolicyDropsExactly(c: Config, s: State, frame: Frame, key: FlowKey)
    requires ETHERNET_SIZE <= |frame.data|
    ensures Policed(c, s, frame, key).0 == Shot <==> Blocked(c, s, frame, key)
    ensures Policed(c, s, frame, key).1.flows != s.flows <==> Blocked(c, s, frame, key)
  {
    var endpoint, s1 := Endpoint(frame, key), ExactLookedUp(c, s, key);
    if HasExact(c, s, key) {
      EnforcingDropsExactly(c, s1, frame, key, s.verdicts[key]);
    } else if HasLearned(c, s1, endpoint) {
      EnforcingDropsExactly(c, LearnedLookedUp(c, s1, endpoint), frame, key, s1.endpoints[endpoint]);
    }
  }

  /** The frame has a flow that is subject to policy at egress, and the maps block it. */
  predicate BlockedFrame(c: Config, s: State, frame: Frame) {
    var parsed := Parse(frame, EGRESS);
    OnlyCutOffTransportSkipsTheExit(frame, EGRESS);
    parsed.Found? && parsed.policed && Blocked(c, s, frame, parsed.key)
  }

  /**
   A forwarded packet is accounted for once: at its second hook, in either build, no flow changes exactly when
   policy does not run there again, or neither blocks the packet nor meets a cut-off transport header. It is
   dropped exactly when it is blocked.
   */
  lemma SecondHookCountsNothingExactly(c: Config, staged: bool, s: State, frame: Frame)
    ensures var (action, after) := AtEgress(c, staged, s, frame, true);
            && (after.flows == s.flows <==>
                !PolicyRunsAgain(c, s) || (!BlockedFrame(c, s, frame) && !CutOffTransport6(frame)))
            && (action == Shot <==> PolicyRunsAgain(c, s) && BlockedFrame(c, s, frame))
  {
    var parsed := Parse(frame, EGRESS);
    OnlyCutOffTransportSkipsTheExit(frame, EGRESS);
    StagesAgree(c, true, s, frame, parsed);
    if parsed.Found? {
      RecordingChangesTheFlow(c, s.(captures := s.captures + parsed.captures), parsed.key, frame.length, parsed.tcpFlags);
      PolicyDropsExactly(c, s, frame, parsed.key);
    }
  }
}
