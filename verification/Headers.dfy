/**
 Where the headers of a captured frame are, and what the parser learns from them.

 `Chain` is the IPv6 extension-header chain of section 4 of RFC 8200 and section 2.2 of RFC 4302, defined without
 a limit on its length; `WalkExtensions` is the six-step walk of the packet program.
 */
module Headers {
  import opened Base

  const ETHERNET_SIZE: nat := 14
  const ETH_IP: nat := 0x0800
  const ETH_IPV6: nat := 0x86DD
  const ETH_8021Q: nat := 0x8100
  const ETH_8021AD: nat := 0x88A8
  const MAX_VLAN_HEADERS: nat := 2
  const MAX_EXTENSION_HEADERS: nat := 6

  const HOPOPTS: Byte := 0
  const ROUTING: Byte := 43
  const FRAGMENT: Byte := 44
  const GRE: Byte := 47
  const ESP: Byte := 50
  const AH: Byte := 51
  const DSTOPTS: Byte := 60
  const HTTP_PORT: nat := 80

  /** The linear bytes of a frame and its full length on the wire. */
  datatype Frame = Frame(data: seq<Byte>, length: nat, ifindex: nat)

  /** A payload-capture helper called with the transport header's offset. */
  datatype Capture =
    | Dns(offset: nat, ipVersion: nat)
    | Dhcp(offset: nat, available: nat)
    | Discovery(offset: nat, available: nat, ipVersion: nat)
    | Http(offset: nat, available: nat, ipVersion: nat)

  /**
   What a frame asks of the packet program: nothing, or accounting under `key` after the policy check (when
   `policed`) and the captures, followed by a sample of `sample` bytes from `networkOffset`. A frame that
   `skipsPolicyExit` is accounted for even by the parse that only checks policy.
   */
  datatype Parsed =
    | Ignored
    | Found(key: FlowKey, policed: bool, skipsPolicyExit: bool, captures: seq<Capture>, tcpFlags: Byte,
            networkOffset: nat, sample: Option<nat>)

  function WordAt(data: seq<Byte>, i: nat): nat
    requires i + 2 <= |data|
  {
    Word(data[i], data[i + 1])
  }

  /** Bytes of the frame behind `offset`. */
  function Behind(frame: Frame, offset: nat): nat {
    if frame.length > offset then frame.length - offset else 0
  }

  predicate IsTransport(protocol: Byte) {
    protocol == TCP || protocol == UDP
  }

  function TcpFlags(data: seq<Byte>, offset: nat): Byte {
    if offset + 14 <= |data| then data[offset + 13] else 0
  }

  // Link layer

  predicate IsVlan(protocol: nat) {
    protocol == ETH_8021Q || protocol == ETH_8021AD
  }

  /** The network header behind at most `tags` VLAN tags, as its offset and protocol. */
  function Network(data: seq<Byte>, offset: nat, protocol: nat, tags: nat): Option<(nat, nat)>
    decreases tags
  {
    if !IsVlan(protocol) then Some((offset, protocol))
    else if tags == 0 || offset + 4 > |data| then None
    else Network(data, offset + 4, WordAt(data, offset + 2), tags - 1)
  }

  method SkipVlans(data: seq<Byte>) returns (network: Option<(nat, nat)>)
    requires ETHERNET_SIZE <= |data|
    ensures network == Network(data, ETHERNET_SIZE, WordAt(data, 12), MAX_VLAN_HEADERS)
  {
    var cursor: nat, protocol: nat := ETHERNET_SIZE, WordAt(data, 12);
    for index := 0 to MAX_VLAN_HEADERS
      invariant Network(data, ETHERNET_SIZE, WordAt(data, 12), MAX_VLAN_HEADERS)
             == Network(data, cursor, protocol, MAX_VLAN_HEADERS - index)
    {
      if !IsVlan(protocol) {
        break;
      }
      if cursor + 4 > |data| {
        return None;
      }
      protocol := WordAt(data, cursor + 2);
      cursor := cursor + 4;
    }
    if IsVlan(protocol) {
      return None;
    }
    return Some((cursor, protocol));
  }

  // IPv4

  function Address4(data: seq<Byte>, i: nat): Address
    requires i + 4 <= |data|
  {
    data[i..i + 4] + [0, 0, 0, 0, 0, 0, 0, 0, 0, 0, 0, 0]
  }

  function Key4(frame: Frame, offset: nat, hook: Byte): FlowKey
    requires offset + 20 <= |frame.data|
  {
    FlowKey(4, frame.data[offset + 9], 0, hook, frame.ifindex,
            Address4(frame.data, offset + 12), Address4(frame.data, offset + 16), 0, 0)
  }

  /** The transport header's offset when the fixed header and its options are present. */
  function Transport4(data: seq<Byte>, offset: nat): Option<nat> {
    if offset + 20 > |data| || data[offset] / 16 != 4 then None
    else
      var size := data[offset] % 16 * 4;
      if size < 20 || offset + size > |data| then None else Some(offset + size)
  }

  function Parse4(frame: Frame, offset: nat, hook: Byte): Parsed {
    match Transport4(frame.data, offset)
    case None => Ignored
    case Some(at) =>
      var key := Key4(frame, offset, hook);
      if IsTransport(key.protocol) || key.protocol == ESP || key.protocol == GRE then Body4(frame, offset, at, key)
      else Ignored
  }

  /** What is behind a well-formed header: a later fragment has no transport header, and ESP and GRE have no ports. */
  function Body4(frame: Frame, offset: nat, at: nat, key: FlowKey): Parsed
    requires offset + 20 <= at <= |frame.data|
  {
    var first := WordAt(frame.data, offset + 6) % 0x2000 == 0;
    var total := WordAt(frame.data, offset + 2);
    if !first then Found(key, false, false, [], 0, offset, None)
    else if !IsTransport(key.protocol) then Found(key, false, false, [], 0, offset, Some(total))
    else if at + 4 > |frame.data| then Ignored
    else
      var flow := key.(sourcePort := WordAt(frame.data, at), destinationPort := WordAt(frame.data, at + 2));
      Found(flow, true, false, Captures4(frame, at, flow), if key.protocol == TCP then TcpFlags(frame.data, at) else 0,
            offset, if total >= at - offset then Some(total) else None)
  }

  function Captures4(frame: Frame, at: nat, key: FlowKey): seq<Capture> {
    if key.protocol == UDP then
      [Dns(at, 4), Dhcp(at, Behind(frame, at + 8)), Discovery(at, Behind(frame, at + 8), 4)]
    else if key.destinationPort == HTTP_PORT then [Http(at, Behind(frame, at), 4)]
    else []
  }

  // IPv6

  /** A place in the header chain: the header at `offset` has type `nextHeader`. */
  datatype Spot = Spot(offset: nat, nextHeader: Byte, laterFragment: bool)

  /** The size of the extension header at a spot, if it is one and is wholly present. */
  function ExtensionSize(data: seq<Byte>, at: Spot): Option<nat> {
    if at.offset + 2 > |data| then None
    else
      var size :=
        if at.nextHeader == FRAGMENT then 8
        else if at.nextHeader == HOPOPTS || at.nextHeader == ROUTING || at.nextHeader == DSTOPTS then
          (data[at.offset + 1] as int + 1) * 8
        else if at.nextHeader == AH then (data[at.offset + 1] as int + 2) * 4
        else 0;
      if size == 0 || at.offset + size > |data| then None else Some(size)
  }

  /** The spot after an extension header of `size` bytes. */
  function Following(data: seq<Byte>, at: Spot, size: nat): Spot
    requires ExtensionSize(data, at) == Some(size)
  {
    Spot(at.offset + size, data[at.offset], at.nextHeader == FRAGMENT && WordAt(data, at.offset + 2) >= 8)
  }

  /** The chain from a spot on: nothing follows a later fragment, whose transport header is elsewhere. */
  function Chain(data: seq<Byte>, at: Spot): (spots: seq<Spot>)
    ensures |spots| > 0 && spots[0] == at
    decreases |data| - at.offset
  {
    match ExtensionSize(data, at)
    case Some(size) =>
      if at.laterFragment then [at]
      else [at] + Chain(data, Following(data, at, size))
    case None => [at]
  }

  predicate Present6(data: seq<Byte>, offset: nat) {
    offset + 40 <= |data| && data[offset] / 16 == 6
  }

  function Chain6(data: seq<Byte>, offset: nat): (spots: seq<Spot>)
    requires Present6(data, offset)
    ensures |spots| > 0
  {
    Chain(data, Spot(offset + 40, data[offset + 6], false))
  }

  lemma {:induction false} ChainSuffix(data: seq<Byte>, at: Spot, i: nat)
    requires i < |Chain(data, at)|
    ensures Chain(data, at)[i..] == Chain(data, Chain(data, at)[i])
    decreases i
  {
    if i != 0 {
      var rest := Chain(data, at)[1..];
      assert rest == Chain(data, rest[0]);
      ChainSuffix(data, rest[0], i - 1);
      assert Chain(data, at)[i..] == rest[i - 1..];
    }
  }

  /** The spot the walk ends at, and whether it got there with steps to spare on a transport header. */
  function Walked(data: seq<Byte>, offset: nat): (Spot, bool)
    requires Present6(data, offset)
  {
    var chain := Chain6(data, offset);
    var end := chain[Min(MAX_EXTENSION_HEADERS, |chain| - 1)];
    (end, |chain| - 1 < MAX_EXTENSION_HEADERS && IsTransport(end.nextHeader) && !end.laterFragment)
  }

  /** At most `steps` steps along the chain. */
  function Steps(data: seq<Byte>, at: Spot, steps: nat): (Spot, bool)
    decreases steps
  {
    if steps == 0 || at.laterFragment then (at, false)
    else if IsTransport(at.nextHeader) then (at, true)
    else
      match ExtensionSize(data, at)
      case Some(size) => Steps(data, Following(data, at, size), steps - 1)
      case None => (at, false)
  }

  lemma {:induction false} StepsFollowTheChain(data: seq<Byte>, at: Spot, steps: nat)
    ensures var chain := Chain(data, at);
            var end := chain[Min(steps, |chain| - 1)];
            Steps(data, at, steps) == (end, |chain| - 1 < steps && IsTransport(end.nextHeader) && !end.laterFragment)
    decreases steps
  {
    if steps != 0 && !at.laterFragment && ExtensionSize(data, at).Some? {
      StepsFollowTheChain(data, Following(data, at, ExtensionSize(data, at).value), steps - 1);
    }
  }

  /** The bytes to step over at `at`, or zero where the walk stops. */
  method ExtensionLength(data: seq<Byte>, at: nat, nextHeader: Byte) returns (size: nat)
    ensures ExtensionSize(data, Spot(at, nextHeader, false)) == if size == 0 then None else Some(size)
  {
    if at + 2 > |data| {
      return 0;
    }
    if nextHeader == FRAGMENT {
      return if at + 8 > |data| then 0 else 8;
    }
    if nextHeader == HOPOPTS || nextHeader == ROUTING || nextHeader == DSTOPTS {
      size := (data[at + 1] as int + 1) * 8;
    } else if nextHeader == AH {
      size := (data[at + 1] as int + 2) * 4;
    } else {
      return 0;
    }
    if at + size > |data| {
      return 0;
    }
  }

  lemma StepsAreWalked(data: seq<Byte>, offset: nat, steps: nat)
    requires Present6(data, offset) && steps == MAX_EXTENSION_HEADERS
    ensures Steps(data, Spot(offset + 40, data[offset + 6], false), steps) == Walked(data, offset)
  {
    StepsFollowTheChain(data, Spot(offset + 40, data[offset + 6], false), steps);
  }

  lemma OneStep(data: seq<Byte>, at: Spot, steps: nat)
    requires steps > 0 && !at.laterFragment && !IsTransport(at.nextHeader)
    ensures Steps(data, at, steps) == match ExtensionSize(data, at)
                                      case Some(size) => Steps(data, Following(data, at, size), steps - 1)
                                      case None => (at, false)
  {
  }

  /** The walk: `cursor` is relative to the network header and moves in step with `transportOffset`. */
  method WalkExtensions(data: seq<Byte>, networkOffset: nat)
    returns (cursor: nat, transportOffset: nat, nextHeader: Byte, canParseTransport: bool, reached: bool)
    requires Present6(data, networkOffset)
    ensures transportOffset == networkOffset + cursor
    ensures (Spot(transportOffset, nextHeader, !canParseTransport), reached) == Walked(data, networkOffset)
  {
    cursor, transportOffset, nextHeader := 40, networkOffset + 40, data[networkOffset + 6];
    canParseTransport, reached := true, false;
    ghost var steps: nat := MAX_EXTENSION_HEADERS;
    ghost var walked := Steps(data, Spot(transportOffset, nextHeader, false), steps);
    for index := 0 to MAX_EXTENSION_HEADERS
      invariant transportOffset == networkOffset + cursor
      invariant canParseTransport && !reached
      invariant walked == Steps(data, Spot(transportOffset, nextHeader, false), steps - index)
    {
      var at := networkOffset + cursor;
      if IsTransport(nextHeader) {
        reached := true;
        break;
      }
      OneStep(data, Spot(at, nextHeader, false), steps - index);
      var size := ExtensionLength(data, at, nextHeader);
      if size == 0 {
        break;
      }
      var laterFragment := nextHeader == FRAGMENT && WordAt(data, at + 2) >= 8;
      nextHeader := data[at];
      cursor := cursor + size;
      transportOffset := transportOffset + size;
      if laterFragment {
        canParseTransport := false;
        break;
      }
    }
    StepsAreWalked(data, networkOffset, steps);
  }

  function Key6(frame: Frame, offset: nat, hook: Byte, protocol: Byte): FlowKey
    requires Present6(frame.data, offset)
  {
    FlowKey(6, protocol, 0, hook, frame.ifindex, frame.data[offset + 8..offset + 24], frame.data[offset + 24..offset + 40], 0, 0)
  }

  /** The key with the ports at `at`, when their bytes are there. */
  function WithPorts(data: seq<Byte>, key: FlowKey, at: nat): FlowKey {
    if at + 4 <= |data| then key.(sourcePort := WordAt(data, at), destinationPort := WordAt(data, at + 2)) else key
  }

  function Parse6(frame: Frame, offset: nat, hook: Byte): Parsed {
    if !Present6(frame.data, offset) then Ignored
    else
      var (end, reached) := Walked(frame.data, offset);
      var key := Key6(frame, offset, hook, end.nextHeader);
      var readable := IsTransport(end.nextHeader) && !end.laterFragment;
      var flow := if readable then WithPorts(frame.data, key, end.offset) else key;
      var flags := if readable && key.protocol == TCP then TcpFlags(frame.data, end.offset) else 0;
      if reached then
        var inBounds := end.offset + 4 <= |frame.data|;
        Found(flow, inBounds, !inBounds, Captures6(frame, end.offset, flow), flags, offset,
              Some(40 + WordAt(frame.data, offset + 4)))
      else
        Found(flow, false, false, if readable && key.protocol == UDP then [Dns(end.offset, 6)] else [], flags, offset, None)
  }

  function Captures6(frame: Frame, at: nat, key: FlowKey): seq<Capture> {
    if key.protocol == UDP then [Dns(at, 6), Discovery(at, Behind(frame, at + 8), 6)]
    else if key.destinationPort == HTTP_PORT then [Http(at, Behind(frame, at), 6)]
    else []
  }

  function Parse(frame: Frame, hook: Byte): Parsed {
    if |frame.data| < ETHERNET_SIZE then Ignored
    else
      match Network(frame.data, ETHERNET_SIZE, WordAt(frame.data, 12), MAX_VLAN_HEADERS)
      case None => Ignored
      case Some((offset, protocol)) =>
        if protocol == ETH_IP then Parse4(frame, offset, hook)
        else if protocol == ETH_IPV6 then Parse6(frame, offset, hook)
        else Ignored
  }

  /**
   An IPv6 packet reaches the policy check exactly when its chain has at most five extension headers, ends in
   TCP or UDP outside a later fragment, and has its port bytes present; it is then keyed by those ports.
   */
  lemma PolicyIsReachedExactly(frame: Frame, offset: nat, hook: Byte)
    requires Present6(frame.data, offset)
    ensures var chain := Chain6(frame.data, offset);
            var last := chain[|chain| - 1];
            var parsed := Parse6(frame, offset, hook);
            && parsed.Found?
            && (parsed.policed <==>
                  |chain| <= 6 && IsTransport(last.nextHeader) && !last.laterFragment && last.offset + 4 <= |frame.data|)
            && (parsed.policed ==>
                  && parsed.key == Key6(frame, offset, hook, last.nextHeader)
                                   .(sourcePort := WordAt(frame.data, last.offset), destinationPort := WordAt(frame.data, last.offset + 2))
                  && parsed.sample.Some?)
  {
  }

  /** No byte behind the header of a non-first fragment is taken for a transport header. */
  lemma LaterFragmentsHaveNoPorts(frame: Frame, offset: nat, hook: Byte, i: nat)
    requires Present6(frame.data, offset)
    requires i < |Chain6(frame.data, offset)| && i <= 6 && Chain6(frame.data, offset)[i].laterFragment
    ensures var parsed := Parse6(frame, offset, hook);
            && parsed.Found? && parsed.key.sourcePort == 0 && parsed.key.destinationPort == 0
            && parsed.key.protocol == Chain6(frame.data, offset)[i].nextHeader
            && |parsed.captures| == 0 && parsed.tcpFlags == 0 && !parsed.policed && parsed.sample.None?
  {
    ChainSuffix(frame.data, Chain6(frame.data, offset)[0], i);
    assert |Chain6(frame.data, offset)[i..]| == 1;
  }
}
