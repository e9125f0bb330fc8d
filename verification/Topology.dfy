/** Network prefixes and the segment an address belongs to (crates/agent/src/topology.rs). */
module Topology {
  import opened Base
  import opened Bits

  datatype Family = V4 | V6
  {
    function Width(): nat {
      if V4? then 32 else 128
    }
  }

  datatype Ip = Ip(family: Family, value: nat)
  type IpAddr = a: Ip | a.value < Pow2(a.family.Width()) witness Ip(V4, 0)

  datatype Prefix = Prefix(network: IpAddr, length: nat)

  datatype PrefixResult = Valid(prefix: Prefix) | TooLong(length: nat, max: nat)

  function PrefixMask(length: nat, width: nat): nat
    requires length <= width
  {
    if length == 0 then 0
    else if length == 128 then Pow2(length) - 1
    else Shl(Shl(1, length) - 1, width - length)
  }

  function NewPrefix(address: IpAddr, length: nat): PrefixResult {
    var max := address.family.Width();
    if length > max then TooLong(length, max)
    else Valid(Prefix(Ip(address.family, And(address.value, PrefixMask(length, max))), length))
  }

  predicate Contains(p: Prefix, address: IpAddr) {
    && address.family == p.network.family
    && var candidate := NewPrefix(address, p.length);
    && candidate.Valid?
    && candidate.prefix.network == p.network
  }

  /** The mask fits the width of its family, so that no shift loses a bit and the conversion to 32 bits succeeds. */
  lemma {:induction false} MaskFits(length: nat, width: nat)
    requires length <= width <= 128
    ensures PrefixMask(length, width) == Shl(Pow2(length) - 1, width - length) < Pow2(width)
  {
    ShlOfOne(length);
    ShlIsSmall(Pow2(length) - 1, length, width - length);
    if length == 0 {
      ShlOfZero(width);
    }
  }

  lemma {:induction false} ShlOfZero(k: nat)
    ensures Shl(0, k) == 0
  {
    if k > 0 {
      ShlOfZero(k - 1);
    }
  }

  /** Masking clears the host bits and keeps the others. */
  lemma {:induction false} MaskClearsHostBits(x: nat, length: nat, width: nat)
    requires length <= width <= 128 && x < Pow2(width)
    ensures And(x, PrefixMask(length, width)) == Shl(Shr(x, width - length), width - length)
  {
    var k := width - length;
    MaskFits(length, width);
    AndShifted(x, length, k);
    ShrIsSmall(x, length, k);
    LowOfSmall(Shr(x, k), length);
  }

  /** Bit `i` of an address, counted from the most significant one. */
  function TopBit(a: IpAddr, i: nat): nat
    requires i < a.family.Width()
  {
    Bit(a.value, a.family.Width() - 1 - i)
  }

  /** The first `length` bits agree. */
  predicate SameTop(a: IpAddr, b: IpAddr, length: nat)
    requires a.family == b.family && length <= a.family.Width()
  {
    forall i :: 0 <= i < length ==> TopBit(a, i) == TopBit(b, i)
  }

  lemma {:induction false} SameTopIsSameShift(a: IpAddr, b: IpAddr, length: nat)
    requires a.family == b.family && length <= a.family.Width()
    ensures SameTop(a, b, length)
            <==> Shr(a.value, a.family.Width() - length) == Shr(b.value, a.family.Width() - length)
  {
    var w := a.family.Width();
    var k := w - length;
    SameHighBits(a.value, b.value, length, k);
    if SameTop(a, b, length) {
      forall i | k <= i < w
        ensures Bit(a.value, i) == Bit(b.value, i)
      {
        assert TopBit(a, w - 1 - i) == TopBit(b, w - 1 - i);
      }
    }
  }

  /** A prefix without host bits: what `NewPrefix` makes. */
  predicate Normal(p: Prefix) {
    && p.length <= p.network.family.Width()
    && NewPrefix(p.network, p.length).prefix.network == p.network
  }

  lemma SameNetwork(a: IpAddr, b: IpAddr, length: nat)
    requires a.family == b.family && length <= a.family.Width()
    ensures NewPrefix(a, length).prefix.network == NewPrefix(b, length).prefix.network <==> SameTop(a, b, length)
  {
    var w := a.family.Width();
    MaskClearsHostBits(a.value, length, w);
    MaskClearsHostBits(b.value, length, w);
    ShlIsInjective(Shr(a.value, w - length), Shr(b.value, w - length), w - length);
    SameTopIsSameShift(a, b, length);
  }

  lemma MaskTwice(a: IpAddr, length: nat)
    requires length <= a.family.Width()
    ensures Normal(NewPrefix(a, length).prefix)
    ensures SameTop(a, NewPrefix(a, length).prefix.network, length)
  {
    var w := a.family.Width();
    var n := NewPrefix(a, length).prefix.network;
    MaskClearsHostBits(a.value, length, w);
    MaskClearsHostBits(n.value, length, w);
    ShrOfShl(Shr(a.value, w - length), w - length);
    SameTopIsSameShift(a, n, length);
  }

  /** A prefix contains an address exactly when it has no host bits, and family and leading bits agree. */
  lemma ContainsExactly(p: Prefix, address: IpAddr)
    ensures Contains(p, address) <==>
            && address.family == p.network.family
            && Normal(p)
            && SameTop(address, p.network, p.length)
  {
    if address.family == p.network.family && p.length <= address.family.Width() {
      SameNetwork(address, p.network, p.length);
      MaskTwice(address, p.length);
    }
  }

  /** A prefix made of any address contains exactly the addresses that share its leading bits. */
  lemma NewPrefixContainsExactly(a: IpAddr, length: nat, address: IpAddr)
    requires length <= a.family.Width()
    ensures Contains(NewPrefix(a, length).prefix, address) <==>
            address.family == a.family && SameTop(address, a, length)
  {
    if address.family == a.family {
      SameNetwork(address, a, length);
    }
  }

  ghost predicate Within(p: Prefix, q: Prefix) {
    forall a :: Contains(p, a) ==> Contains(q, a)
  }

  ghost predicate Disjoint(p: Prefix, q: Prefix) {
    forall a :: !(Contains(p, a) && Contains(q, a))
  }

  lemma LongerIsWithin(p: Prefix, q: Prefix, common: IpAddr)
    requires Contains(p, common) && Contains(q, common) && q.length <= p.length
    ensures Within(p, q)
  {
    forall a | Contains(p, a)
      ensures Contains(q, a)
    {
      ContainsExactly(p, common);
      ContainsExactly(q, common);
      ContainsExactly(p, a);
      ContainsExactly(q, a);
      forall i | 0 <= i < q.length
        ensures TopBit(a, i) == TopBit(q.network, i)
      {
        assert TopBit(a, i) == TopBit(p.network, i) == TopBit(common, i);
      }
    }
  }

  /** Any two prefixes are nested or disjoint. */
  lemma NestedOrDisjoint(p: Prefix, q: Prefix)
    ensures Within(p, q) || Within(q, p) || Disjoint(p, q)
  {
    if common :| Contains(p, common) && Contains(q, common) {
      if q.length <= p.length {
        LongerIsWithin(p, q, common);
      } else {
        LongerIsWithin(q, p, common);
      }
    }
  }

  datatype Role = Lan | RoutedLan | Tunnel | Wan | Unknown
  {
    predicate Internal() {
      Lan? || RoutedLan?
    }
  }

  /** Where a segment was learned, from the least to the most trusted. */
  datatype Source = Inference | InterfaceAddress | KernelRoute | OpenWrt | Config
  {
    function Rank(): nat {
      match this
      case Inference => 0
      case InterfaceAddress => 1
      case KernelRoute => 2
      case OpenWrt => 3
      case Config => 4
    }
  }

  datatype Segment = Segment(subnet: Prefix, interface: Option<string>, role: Role, source: Source, confidence: nat)

  predicate AtLeast(s: Segment, t: Segment) {
    || s.source.Rank() > t.source.Rank()
    || (s.source == t.source && s.subnet.length >= t.subnet.length)
  }

  /** The last of the highest ranking segments that contain the address. */
  function SegmentOf(segments: seq<Segment>, address: IpAddr): Option<Segment> {
    if |segments| == 0 then None
    else
      var last := segments[|segments| - 1];
      var best := SegmentOf(segments[..|segments| - 1], address);
      if Contains(last.subnet, address) && (best.None? || AtLeast(last, best.value)) then Some(last) else best
  }

  ghost predicate BestMatch(segments: seq<Segment>, address: IpAddr, s: Segment) {
    && s in segments && Contains(s.subnet, address)
    && (forall t <- segments :: Contains(t.subnet, address) ==> AtLeast(s, t))
  }

  lemma {:induction false} SegmentIsBest(segments: seq<Segment>, address: IpAddr)
    ensures match SegmentOf(segments, address)
            case Some(s) => BestMatch(segments, address, s)
            case None => forall t <- segments :: !Contains(t.subnet, address)
  {
    if |segments| > 0 {
      SegmentIsBest(segments[..|segments| - 1], address);
    }
  }

  ghost predicate BeatsLater(segments: seq<Segment>, address: IpAddr, i: nat)
    requires i < |segments|
  {
    forall j :: i < j < |segments| && Contains(segments[j].subnet, address) ==> !AtLeast(segments[j], segments[i])
  }

  lemma StillBeatsLater(segments: seq<Segment>, address: IpAddr, i: nat)
    requires i < |segments| - 1 && BeatsLater(segments[..|segments| - 1], address, i)
    requires var last := segments[|segments| - 1]; Contains(last.subnet, address) ==> !AtLeast(last, segments[i])
    ensures BeatsLater(segments, address, i)
  {
    var before := segments[..|segments| - 1];
    forall j | i < j < |segments| && Contains(segments[j].subnet, address)
      ensures !AtLeast(segments[j], segments[i])
    {
      if j < |before| {
        assert before[j] == segments[j];
      }
    }
  }

  /** Among equally ranked matches the last one listed wins. */
  lemma SegmentIsLast(segments: seq<Segment>, address: IpAddr) returns (i: nat)
    requires SegmentOf(segments, address).Some?
    ensures i < |segments| && SegmentOf(segments, address) == Some(segments[i]) && BeatsLater(segments, address, i)
  {
    var before := segments[..|segments| - 1];
    var last := segments[|segments| - 1];
    var best := SegmentOf(before, address);
    if Contains(last.subnet, address) && (best.None? || AtLeast(last, best.value)) {
      i := |segments| - 1;
    } else {
      i := SegmentIsLast(before, address);
      StillBeatsLater(segments, address, i);
    }
  }

  /** No subnet is listed twice for one source. */
  ghost predicate NoRepeats(segments: seq<Segment>) {
    forall i, j :: 0 <= i < j < |segments| ==>
                     segments[i].source != segments[j].source || segments[i].subnet != segments[j].subnet
  }

  /** Two best matches of one address have the same source and subnet. */
  lemma BestMatchesAgree(segments: seq<Segment>, address: IpAddr, s: Segment, t: Segment)
    requires BestMatch(segments, address, s) && BestMatch(segments, address, t)
    ensures s.source == t.source && s.subnet == t.subnet
    ensures NoRepeats(segments) ==> s == t
  {
    assert AtLeast(s, t) && AtLeast(t, s);
  }

  /** The answer does not depend on the order in which the segments are listed. */
  lemma {:induction false} SegmentIgnoresOrder(segments: seq<Segment>, shuffled: seq<Segment>, address: IpAddr)
    requires NoRepeats(segments) && multiset(segments) == multiset(shuffled)
    ensures SegmentOf(segments, address) == SegmentOf(shuffled, address)
  {
    forall s
      ensures s in segments <==> s in shuffled
    {
      assert s in segments <==> s in multiset(segments);
      assert s in shuffled <==> s in multiset(shuffled);
    }
    SegmentIsBest(segments, address);
    SegmentIsBest(shuffled, address);
    var here, there := SegmentOf(segments, address), SegmentOf(shuffled, address);
    if here.Some? && there.Some? {
      BestMatchesAgree(segments, address, here.value, there.value);
    }
  }
}
