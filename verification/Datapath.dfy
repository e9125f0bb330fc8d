/** The packet program as it runs: the maps and packet words it updates in place, in both builds. */
module Datapath {
  import opened Base
  import opened Bits
  import opened Headers
  import opened Pipeline
  import Qos

  class Program {
    /** Built as tail-called stages rather than as one pass. */
    const staged: bool
    var flows: map<FlowKey, FlowValue>
    var verdicts: map<FlowKey, Verdict>
    var endpoints: map<EndpointKey, Verdict>
    var drops: map<DropKey, DropValue>
    var captures: seq<Capture>
    var samples: seq<SampleCall>
    var mark: nat
    var priority: nat
    var readings: nat
    /** Per-CPU scratch space of the staged build. */
    var sampleContext: SampleCall
    var policyOnlyContext: bool

    function View(): State
      reads this
    {
      State(flows, verdicts, endpoints, drops, captures, samples, mark, priority, readings)
    }

    constructor (staged: bool, s: State, scratch: SampleCall)
      ensures this.staged == staged && View() == s
    {
      this.staged := staged;
      flows, verdicts, endpoints, drops := s.flows, s.verdicts, s.endpoints, s.drops;
      captures, samples, mark, priority, readings := s.captures, s.samples, s.mark, s.priority, s.readings;
      sampleContext, policyOnlyContext := scratch, false;
    }

    method ReadClock(c: Config) returns (now: nat)
      modifies this`readings
      ensures now == c.clock(old(readings)) && readings == old(readings) + 1
    {
      now := c.clock(readings);
      readings := readings + 1;
    }

    method RecordFlow(c: Config, key: FlowKey, length: nat, flags: Byte) returns (packets: nat)
      modifies this`flows, this`readings
      ensures View() == Recorded(c, old(View()), key, length, flags)
      ensures packets == flows[key].packets
    {
      var now := ReadClock(c);
      if key in flows {
        var v := flows[key];
        packets := (v.packets + 1) % U64;
        var bits := v.tcpFlags;
        if flags != 0 {
          bits := bits + FlagBits(flags);
        } else {
          NoBits();
          assert bits == bits + FlagBits(flags);
        }
        flows := flows[key := FlowValue(packets, (v.bytes + length) % U64, v.firstSeenNs, now, bits)];
      } else {
        packets := 1;
        flows := flows[key := FlowValue(1, length, now, now, FlagBits(flags))];
      }
    }

    method RecordPolicyDrop(verdict: Verdict, length: nat)
      modifies this`drops
      ensures View() == DropRecorded(old(View()), verdict, length)
    {
      var key := DropKey(verdict.policyHash, verdict.clientMac);
      if key !in drops {
        drops := drops[key := DropValue(0, 0)];
      }
      drops := drops[key := DropValue((drops[key].packets + 1) % U64, (drops[key].bytes + length) % U64)];
    }

    /** The exact verdict of a flow; one that is stale is removed, and nothing else is. */
    method ActiveFlowVerdict(c: Config, key: FlowKey) returns (verdict: Option<Verdict>)
      modifies this`verdicts, this`readings
      ensures verdict.Some? <==> HasExact(c, old(View()), key)
      ensures verdict.Some? ==> verdict.value == old(verdicts)[key] && verdicts == old(verdicts)
      ensures verdict.None? ==> verdicts == old(verdicts) - {key}
      ensures readings == old(readings) + if key in old(verdicts) then 1 else 0
    {
      if key !in verdicts {
        assert verdicts - {key} == verdicts;
        return None;
      }
      var found := verdicts[key];
      var now := ReadClock(c);
      if found.expiresNs <= now || (c.generation != 0 && found.generation != c.generation) {
        verdicts := verdicts - {key};
        return None;
      }
      return Some(found);
    }

    /** The verdict learned for two endpoints; one that is stale is removed, and nothing else is. */
    method LearnedVerdict(c: Config, endpoint: EndpointKey) returns (verdict: Option<Verdict>)
      modifies this`endpoints, this`readings
      ensures verdict.Some? <==> HasLearned(c, old(View()), endpoint)
      ensures verdict.Some? ==> verdict.value == old(endpoints)[endpoint] && endpoints == old(endpoints)
      ensures verdict.None? ==> endpoints == old(endpoints) - {endpoint}
      ensures readings == old(readings) + if endpoint in old(endpoints) then 1 else 0
    {
      if endpoint !in endpoints {
        assert endpoints - {endpoint} == endpoints;
        return None;
      }
      var found := endpoints[endpoint];
      var now := ReadClock(c);
      if found.expiresNs <= now || found.generation != c.generation {
        endpoints := endpoints - {endpoint};
        return None;
      }
      return Some(found);
    }

    /** The verdict in force for a packet, exact or learned. */
    method FindVerdict(c: Config, frame: Frame, key: FlowKey) returns (verdict: Option<Verdict>)
      requires ETHERNET_SIZE <= |frame.data|
      modifies this`verdicts, this`endpoints, this`readings
      ensures var s, endpoint := old(View()), Endpoint(frame, key);
              var s1 := ExactLookedUp(c, s, key);
              if HasExact(c, s, key) then verdict == Some(s.verdicts[key]) && View() == s1
              else
                && View() == LearnedLookedUp(c, s1, endpoint)
                && verdict == if HasLearned(c, s1, endpoint) then Some(s1.endpoints[endpoint]) else None
    {
      verdict := ActiveFlowVerdict(c, key);
      assert key !in old(verdicts) ==> old(verdicts) - {key} == old(verdicts);
      assert View() == ExactLookedUp(c, old(View()), key);
      if verdict.None? {
        var endpoint := Endpoint(frame, key);
        assert endpoint !in endpoints ==> endpoints - {endpoint} == endpoints;
        verdict := LearnedVerdict(c, endpoint);
      }
    }

    /** A packet is dropped exactly when the maps block it. */
    method EvaluateFlowPolicy(c: Config, frame: Frame, key: FlowKey) returns (action: Action)
      requires ETHERNET_SIZE <= |frame.data|
      modifies this`flows, this`verdicts, this`endpoints, this`drops, this`mark, this`priority, this`readings
      ensures action == Shot <==> Blocked(c, old(View()), frame, key)
      ensures (action, View()) == Policed(c, old(View()), frame, key)
    {
      PolicyDropsExactly(c, View(), frame, key);
      var verdict := FindVerdict(c, frame, key);
      if verdict.None? {
        return Ok;
      }
      if verdict.value.verdict == SHAPE {
        Shape(c, key, verdict.value.tag);
        return Ok;
      }
      if verdict.value.verdict != BLOCK {
        return Ok;
      }
      var _ := RecordFlow(c, key, frame.length, 0);
      RecordPolicyDrop(verdict.value, frame.length);
      return Shot;
    }

    method Shape(c: Config, key: FlowKey, tag: nat)
      modifies this`mark, this`priority
      ensures View() == ShapedState(c, old(View()), key, tag)
    {
      if c.priorities && c.redirectPublished {
        priority := Qos.Shaped(c.root, key.hook, tag, priority);
      } else if tag > 0 && tag <= MARK_MAX_TAG {
        mark := mark % MARK_UNIT + tag * MARK_UNIT;
      }
    }

    method Capture(helper: Capture)
      modifies this`captures
      ensures captures == old(captures) + [helper]
    {
      captures := captures + [helper];
    }

    /** The sample helper: the capture itself, or the tail call into the sample stage, which does not return. */
    method MaybeCaptureSample(call: SampleCall) returns (tailCalled: bool)
      modifies this`samples, this`sampleContext
      ensures tailCalled == staged
      ensures staged ==> sampleContext == call && samples == old(samples)
      ensures !staged ==> samples == old(samples) + [call]
    {
      if staged {
        sampleContext := call;
        return true;
      }
      CaptureSampleBody(call);
      return false;
    }

    method CaptureSampleBody(call: SampleCall)
      modifies this`samples
      ensures samples == old(samples) + [call]
    {
      samples := samples + [call];
    }

    /** The state and scratch space after a parse that ended as `ending`. */
    ghost predicate Ended(ending: Ending, parsed: Parsed, action: Action, tailCalled: bool)
      reads this
    {
      match ending
      case Returned(a, s) => action == a && !tailCalled && View() == s
      case Sampling(s) =>
        && parsed.Found? && parsed.sample.Some? && action == Ok && tailCalled == staged
        && (if staged
            then View() == s && sampleContext == SampleCall(parsed.key, parsed.networkOffset, parsed.sample.value)
            else View() == Sampled(s, parsed))
    }

    /** The captures of an IPv4 transport header, and its TCP flags. */
    method ReadTransport4(frame: Frame, at: nat, key: FlowKey) returns (flags: Byte)
      requires IsTransport(key.protocol)
      modifies this`captures
      ensures captures == old(captures) + Captures4(frame, at, key)
      ensures flags == if key.protocol == TCP then TcpFlags(frame.data, at) else 0
    {
      flags := 0;
      if key.protocol == TCP {
        flags := TcpFlags(frame.data, at);
        if key.destinationPort == HTTP_PORT {
          Capture(Http(at, Behind(frame, at), 4));
        }
      } else {
        Capture(Dns(at, 4));
        Capture(Dhcp(at, Behind(frame, at + 8)));
        Capture(Discovery(at, Behind(frame, at + 8), 4));
      }
    }

    /** The captures of an IPv6 transport header, and its TCP flags. */
    method ReadTransport6(frame: Frame, at: nat, key: FlowKey) returns (flags: Byte)
      requires IsTransport(key.protocol)
      modifies this`captures
      ensures captures == old(captures) + Captures6(frame, at, key)
      ensures flags == if key.protocol == TCP then TcpFlags(frame.data, at) else 0
    {
      flags := 0;
      if key.protocol == UDP {
        Capture(Dns(at, 6));
        Capture(Discovery(at, Behind(frame, at + 8), 6));
      } else {
        flags := TcpFlags(frame.data, at);
        if key.destinationPort == HTTP_PORT {
          Capture(Http(at, Behind(frame, at), 6));
        }
      }
    }

    /** What a parser ends with: the flow is accounted for, and sampled while it is young. */
    method AccountAndSample(c: Config, frame: Frame, key: FlowKey, flags: Byte, offset: nat, sample: Option<nat>,
                            ghost parsed: Parsed, ghost passed: State)
      returns (tailCalled: bool)
      requires parsed.Found? && parsed.key == key && parsed.tcpFlags == flags
      requires parsed.networkOffset == offset && parsed.sample == sample
      requires View() == passed.(captures := passed.captures + parsed.captures)
      modifies this`flows, this`readings, this`samples, this`sampleContext
      ensures Ended(Finished(c, passed, frame, parsed), parsed, Ok, tailCalled)
    {
      var packets := RecordFlow(c, key, frame.length, flags);
      tailCalled := false;
      if c.sampleEnabled && packets <= c.sampleMaxPackets && sample.Some? {
        tailCalled := MaybeCaptureSample(SampleCall(key, offset, sample.value));
      }
    }

    method ParseIpv4(c: Config, mode: Mode, frame: Frame, offset: nat, hook: Byte)
      returns (action: Action, tailCalled: bool)
      requires ETHERNET_SIZE <= |frame.data|
      modifies this
      ensures var parsed := Parse4(frame, offset, hook);
              Ended(AfterParse(c, mode, old(View()), frame, parsed), parsed, action, tailCalled)
      ensures policyOnlyContext == old(policyOnlyContext)
    {
      action, tailCalled := Ok, false;
      if offset + 20 > |frame.data| || frame.data[offset] / 16 != 4 {
        return;
      }
      var size := frame.data[offset] % 16 * 4;
      if size < 20 || offset + size > |frame.data| {
        return;
      }
      var key := Key4(frame, offset, hook);
      if !IsTransport(key.protocol) && key.protocol != ESP && key.protocol != GRE {
        return;
      }
      action, tailCalled := ParseBody4(c, mode, frame, offset, size, key, Parse4(frame, offset, hook));
    }

    /** The packet behind a well-formed IPv4 header of `size` bytes. */
    method ParseBody4(c: Config, mode: Mode, frame: Frame, offset: nat, size: nat, header: FlowKey, ghost parsed: Parsed)
      returns (action: Action, tailCalled: bool)
      requires ETHERNET_SIZE <= |frame.data| && 20 <= size && offset + size <= |frame.data|
      requires header.protocol == ESP || header.protocol == GRE || IsTransport(header.protocol)
      requires parsed == Body4(frame, offset, offset + size, header)
      modifies this
      ensures Ended(AfterParse(c, mode, old(View()), frame, parsed), parsed, action, tailCalled)
      ensures policyOnlyContext == old(policyOnlyContext)
    {
      action, tailCalled := Ok, false;
      var total, first := WordAt(frame.data, offset + 2), WordAt(frame.data, offset + 6) % 0x2000 == 0;
      var key, flags := header, 0;
      ghost var passed := View();
      if first {
        if key.protocol == ESP || key.protocol == GRE {
          tailCalled := ParseTunnel4(c, mode, frame, offset, key, parsed);
          return;
        }
        passed := if parsed.Found? then UnderPolicy(c, mode, passed, frame, parsed.key).1 else passed;
        var returned;
        action, returned, key, flags := PoliceAndRead4(c, mode, frame, offset + size, key, parsed);
        if returned {
          return;
        }
      } else {
        assert captures == captures + parsed.captures;
      }
      if mode == PolicyOnly {
        return;
      }
      tailCalled := AccountAndSample(c, frame, key, flags, offset, if first && total >= size then Some(total) else None,
                                     parsed, passed);
    }

    /** The transport header of an IPv4 packet: ports, policy, the policy-only exit, then the captures. */
    method PoliceAndRead4(c: Config, mode: Mode, frame: Frame, at: nat, header: FlowKey, ghost parsed: Parsed)
      returns (action: Action, returned: bool, key: FlowKey, flags: Byte)
      requires ETHERNET_SIZE <= |frame.data| && IsTransport(header.protocol) && (parsed.Found? <==> at + 4 <= |frame.data|)
      requires parsed.Found? ==>
                 && parsed.policed && !parsed.skipsPolicyExit && parsed.key == WithPorts(frame.data, header, at)
                 && parsed.captures == Captures4(frame, at, parsed.key)
                 && parsed.tcpFlags == if header.protocol == TCP then TcpFlags(frame.data, at) else 0
      modifies this`flows, this`verdicts, this`endpoints, this`drops, this`mark, this`priority, this`readings, this`captures
      ensures returned ==> AfterParse(c, mode, old(View()), frame, parsed) == Returned(action, View())
      ensures !returned ==>
                && parsed.Found? && key == parsed.key && flags == parsed.tcpFlags && action == Ok && mode != PolicyOnly
                && var (a, s) := UnderPolicy(c, mode, old(View()), frame, key);
                   a == Ok && View() == s.(captures := s.captures + parsed.captures)
    {
      action, returned, key, flags := Ok, true, header, 0;
      if at + 4 > |frame.data| {
        return;
      }
      key := key.(sourcePort := WordAt(frame.data, at), destinationPort := WordAt(frame.data, at + 2));
      if mode != Observe && c.policyEnabled {
        action := EvaluateFlowPolicy(c, frame, key);
        if action != Ok {
          return;
        }
      }
      if mode == PolicyOnly {
        return;
      }
      returned := false;
      flags := ReadTransport4(frame, at, key);
    }

    /** ESP and GRE: accounted for without policy. */
    method ParseTunnel4(c: Config, mode: Mode, frame: Frame, offset: nat, key: FlowKey, ghost parsed: Parsed)
      returns (tailCalled: bool)
      requires ETHERNET_SIZE <= |frame.data| && offset + 4 <= |frame.data|
      requires parsed == Found(key, false, false, [], 0, offset, Some(WordAt(frame.data, offset + 2)))
      modifies this
      ensures Ended(AfterParse(c, mode, old(View()), frame, parsed), parsed, Ok, tailCalled)
      ensures policyOnlyContext == old(policyOnlyContext)
    {
      if mode == PolicyOnly {
        return false;
      }
      assert captures + [] == captures;
      tailCalled := AccountAndSample(c, frame, key, 0, offset, Some(WordAt(frame.data, offset + 2)), parsed, View());
    }

    method ParseIpv6(c: Config, mode: Mode, frame: Frame, offset: nat, hook: Byte)
      returns (action: Action, tailCalled: bool)
      requires ETHERNET_SIZE <= |frame.data|
      modifies this
      ensures var parsed := Parse6(frame, offset, hook);
              Ended(AfterParse(c, mode, old(View()), frame, parsed), parsed, action, tailCalled)
      ensures policyOnlyContext == old(policyOnlyContext)
    {
      action, tailCalled := Ok, false;
      if !Present6(frame.data, offset) {
        return;
      }
      var cursor, at, nextHeader, canParseTransport, reached := WalkExtensions(frame.data, offset);
      if reached {
        action, tailCalled := ReachedTransport6(c, mode, frame, offset, hook, at, nextHeader, Parse6(frame, offset, hook));
        return;
      }
      if mode == PolicyOnly {
        return;
      }
      tailCalled := AccountUnreached6(c, frame, offset, hook, at, nextHeader, canParseTransport, Parse6(frame, offset, hook));
    }

    /** The end of a walk that met no transport header in time: accounting without policy or sample. */
    method AccountUnreached6(c: Config, frame: Frame, offset: nat, hook: Byte, at: nat, nextHeader: Byte,
                             canParseTransport: bool, ghost parsed: Parsed)
      returns (tailCalled: bool)
      requires Present6(frame.data, offset) && parsed.Found? && parsed.networkOffset == offset && parsed.sample == None
      requires var readable, key := canParseTransport && IsTransport(nextHeader), Key6(frame, offset, hook, nextHeader);
               && parsed.key == (if readable then WithPorts(frame.data, key, at) else key)
               && parsed.captures == (if readable && nextHeader == UDP then [Dns(at, 6)] else [])
               && parsed.tcpFlags == (if readable && nextHeader == TCP then TcpFlags(frame.data, at) else 0)
      modifies this`captures, this`flows, this`readings, this`samples, this`sampleContext
      ensures !tailCalled && View() == Observed(c, old(View()), frame, parsed)
    {
      var key := Key6(frame, offset, hook, nextHeader);
      var flags: Byte := 0;
      if canParseTransport && IsTransport(nextHeader) {
        if at + 4 <= |frame.data| {
          key := key.(sourcePort := WordAt(frame.data, at), destinationPort := WordAt(frame.data, at + 2));
        }
        if nextHeader == UDP {
          Capture(Dns(at, 6));
        } else {
          flags := TcpFlags(frame.data, at);
        }
      }
      assert captures == old(captures) + parsed.captures;
      tailCalled := AccountAndSample(c, frame, key, flags, offset, None, parsed, old(View()));
    }

    /** The branch of the walk that meets TCP or UDP. */
    method ReachedTransport6(c: Config, mode: Mode, frame: Frame, offset: nat, hook: Byte, at: nat, nextHeader: Byte,
                             ghost parsed: Parsed)
      returns (action: Action, tailCalled: bool)
      requires ETHERNET_SIZE <= |frame.data| && Present6(frame.data, offset) && IsTransport(nextHeader)
      requires parsed.Found? && parsed.key == WithPorts(frame.data, Key6(frame, offset, hook, nextHeader), at)
      requires parsed.policed == (at + 4 <= |frame.data|) && parsed.skipsPolicyExit == !parsed.policed
      requires parsed.captures == Captures6(frame, at, parsed.key)
      requires parsed.tcpFlags == if nextHeader == TCP then TcpFlags(frame.data, at) else 0
      requires parsed.networkOffset == offset && parsed.sample == Some(40 + WordAt(frame.data, offset + 4))
      modifies this
      ensures Ended(AfterParse(c, mode, old(View()), frame, parsed), parsed, action, tailCalled)
      ensures policyOnlyContext == old(policyOnlyContext)
    {
      action, tailCalled := Ok, false;
      var key := Key6(frame, offset, hook, nextHeader);
      if at + 4 <= |frame.data| {
        key := key.(sourcePort := WordAt(frame.data, at), destinationPort := WordAt(frame.data, at + 2));
        if mode != Observe && c.policyEnabled {
          action := EvaluateFlowPolicy(c, frame, key);
          if action != Ok {
            return;
          }
        }
        if mode == PolicyOnly {
          return;
        }
      }
      ghost var passed := View();
      var flags := ReadTransport6(frame, at, key);
      tailCalled := AccountAndSample(c, frame, key, flags, offset, Some(40 + WordAt(frame.data, offset + 4)), parsed, passed);
    }

    method ParsePacket(c: Config, mode: Mode, frame: Frame, hook: Byte) returns (action: Action, tailCalled: bool)
      modifies this
      ensures Parse(frame, hook).Found? ==> ETHERNET_SIZE <= |frame.data|
      ensures Ended(AfterParse(c, mode, old(View()), frame, Parse(frame, hook)), Parse(frame, hook), action, tailCalled)
      ensures policyOnlyContext == old(policyOnlyContext)
    {
      action, tailCalled := Ok, false;
      if |frame.data| < ETHERNET_SIZE {
        return;
      }
      var network := SkipVlans(frame.data);
      if network.None? {
        return;
      }
      var (offset, protocol) := network.value;
      if protocol == ETH_IP {
        action, tailCalled := ParseIpv4(c, mode, frame, offset, hook);
      } else if protocol == ETH_IPV6 {
        action, tailCalled := ParseIpv6(c, mode, frame, offset, hook);
      }
    }

    /** Single-pass build: the program up to the finish stage. */
    method RunSinglePass(c: Config, policyOnly: bool, frame: Frame, hook: Byte) returns (action: Action)
      requires !staged
      modifies this
      ensures Parse(frame, hook).Found? ==> ETHERNET_SIZE <= |frame.data|
      ensures (action, View()) == SinglePass(c, SingleMode(policyOnly), old(View()), frame, Parse(frame, hook))
    {
      var tailCalled;
      action, tailCalled := ParsePacket(c, SingleMode(policyOnly), frame, hook);
    }

    /**
     Staged build: the stages up to the finish stage, chained by the tail calls. They do what the single pass does,
     exactly unless an IPv6 transport header is cut off and the frame is not sampled.
     */
    method RunStages(c: Config, policyOnly: bool, frame: Frame, hook: Byte) returns (action: Action)
      requires staged
      modifies this
      ensures Parse(frame, hook).Found? ==> ETHERNET_SIZE <= |frame.data|
      ensures (action, View()) == Split(c, policyOnly, old(View()), frame, Parse(frame, hook))
      ensures (action, View()) == SinglePass(c, SingleMode(policyOnly), old(View()), frame, Parse(frame, hook)) <==>
              policyOnly || !CutOffTransport6(frame) || IsSampled(c, old(View()), frame, hook)
    {
      SplitAgreesExactly(c, policyOnly, View(), frame, hook);
      policyOnlyContext := policyOnly;
      var tailCalled;
      action, tailCalled := ParsePacket(c, PolicyOnly, frame, hook);
      if !tailCalled && action == Ok && !policyOnlyContext {
        action, tailCalled := ParsePacket(c, Observe, frame, hook);
      }
      if tailCalled {
        CaptureSampleBody(sampleContext);
      }
    }

    /** The egress hook: a packet that crossed an observed ingress hook is not accounted for again. */
    method RunEgress(c: Config, frame: Frame, observedAtIngress: bool) returns (action: Action)
      modifies this
      ensures (action, View()) == AtEgress(c, staged, old(View()), frame, observedAtIngress)
      ensures observedAtIngress ==>
                (flows == old(flows) <==>
                 !PolicyRunsAgain(c, old(View())) || (!BlockedFrame(c, old(View()), frame) && !CutOffTransport6(frame)))
    {
      SecondHookCountsNothingExactly(c, staged, View(), frame);
      var policyOnly := false;
      if observedAtIngress {
        if !c.policyEnabled || (c.priorities && Qos.UploadClass(priority)) {
          return Ok;
        }
        policyOnly := true;
      }
      if staged {
        action := RunStages(c, policyOnly, frame, EGRESS);
      } else {
        action := RunSinglePass(c, policyOnly, frame, EGRESS);
      }
    }
  }

  lemma NoBits()
    ensures FlagBits(0) == {}
  {
    forall i: nat | i < 8
      ensures 0 / Pow2(i) == 0
    {
    }
  }
}
