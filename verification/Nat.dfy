/**
 * Connection tracking and the normalisation of flows under address translation
 * (crates/agent/src/conntrack.rs, crates/agent/src/normalization.rs).
 */
module Nat {
  import opened Base
  import opened Bits
  import T = Topology

  datatype Endpoint = Endpoint(address: T.IpAddr, port: nat)

  datatype FlowTuple = FlowTuple(protocol: nat, source: Endpoint, destination: Endpoint)

  function Reverse(t: FlowTuple): FlowTuple {
    FlowTuple(t.protocol, t.destination, t.source)
  }

  datatype Entry = Entry(original: FlowTuple, reply: FlowTuple, sourceNat: bool, destinationNat: bool)

  /** The four tuples under which a connection can be captured. */
  predicate IsForm(e: Entry, t: FlowTuple) {
    t == e.original || t == e.reply || t == Reverse(e.reply) || t == Reverse(e.original)
  }

  /** The big-endian number in some bytes. */
  function Number(bytes: seq<Byte>): (n: nat)
    ensures n < Pow2(8 * |bytes|)
  {
    if |bytes| == 0 then 0
    else
      var n := Number(bytes[..|bytes| - 1]);
      NumberGrows(n, bytes[|bytes| - 1], |bytes|);
      256 * n + bytes[|bytes| - 1]
  }

  lemma {:induction false} NumberGrows(n: nat, b: Byte, k: nat)
    requires k > 0 && n < Pow2(8 * (k - 1))
    ensures 256 * n + b < Pow2(8 * k)
  {
    var p := 8 * (k - 1);
    assert Pow2(p + 2) == 4 * Pow2(p);
    assert Pow2(p + 4) == 4 * Pow2(p + 2);
    assert Pow2(p + 6) == 4 * Pow2(p + 4);
    assert Pow2(p + 8) == 4 * Pow2(p + 6);
  }

  /** The tuple of a captured key; a key of neither IP version has none. */
  function TupleOf(key: FlowKey): Option<FlowTuple> {
    if key.ipVersion == 4 then
      Some(FlowTuple(key.protocol,
                     Endpoint(T.Ip(T.V4, Number(key.sourceAddress[..4])), key.sourcePort),
                     Endpoint(T.Ip(T.V4, Number(key.destinationAddress[..4])), key.destinationPort)))
    else if key.ipVersion == 6 then
      Some(FlowTuple(key.protocol,
                     Endpoint(T.Ip(T.V6, Number(key.sourceAddress)), key.sourcePort),
                     Endpoint(T.Ip(T.V6, Number(key.destinationAddress)), key.destinationPort)))
    else None
  }

  /** The last of the entries that has `t` as one of its forms. */
  function LastClaim(entries: seq<Entry>, t: FlowTuple): Option<Entry> {
    if |entries| == 0 then None
    else
      var last := entries[|entries| - 1];
      if IsForm(last, t) then Some(last) else LastClaim(entries[..|entries| - 1], t)
  }

  /** The lines of the connection table that parse, in order. */
  function Parsed(lines: seq<Option<Entry>>): seq<Entry> {
    if |lines| == 0 then []
    else
      var before := Parsed(lines[..|lines| - 1]);
      match lines[|lines| - 1]
      case Some(e) => before + [e]
      case None => before
  }

  lemma {:induction false} LastClaimAppended(entries: seq<Entry>, e: Entry, t: FlowTuple)
    ensures LastClaim(entries + [e], t) == if IsForm(e, t) then Some(e) else LastClaim(entries, t)
  {
    assert (entries + [e])[..|entries|] == entries;
  }

  lemma {:induction false} LastClaimIsAForm(entries: seq<Entry>, t: FlowTuple)
    ensures LastClaim(entries, t).Some? ==> LastClaim(entries, t).value in entries && IsForm(LastClaim(entries, t).value, t)
    ensures LastClaim(entries, t).None? ==> forall e <- entries :: !IsForm(e, t)
  {
    if |entries| > 0 {
      LastClaimIsAForm(entries[..|entries| - 1], t);
    }
  }

  class ConntrackContext {
    var observed: map<FlowTuple, Entry>
    ghost var entries: seq<Entry>

    /** A tuple is mapped to the last inserted entry that has it as a form, and no other tuple is mapped. */
    ghost predicate Valid()
      reads this
    {
      forall t :: Lookup(observed, t) == LastClaim(entries, t)
    }

    constructor ()
      ensures Valid() && entries == []
    {
      observed := map[];
      entries := [];
    }

    method Insert(e: Entry)
      requires Valid()
      modifies this
      ensures Valid() && entries == old(entries) + [e]
    {
      observed := observed[e.original := e];
      observed := observed[e.reply := e];
      observed := observed[Reverse(e.reply) := e];
      observed := observed[Reverse(e.original) := e];
      entries := entries + [e];
      forall t
        ensures Lookup(observed, t) == LastClaim(entries, t)
      {
        LastClaimAppended(old(entries), e, t);
        assert Lookup(old(observed), t) == LastClaim(old(entries), t);
      }
    }

    method Load(lines: seq<Option<Entry>>)
      requires Valid() && entries == []
      modifies this
      ensures Valid() && entries == Parsed(lines)
    {
      for i := 0 to |lines|
        invariant Valid() && entries == Parsed(lines[..i])
      {
        assert lines[..i + 1][..i] == lines[..i];
        if lines[i].Some? {
          Insert(lines[i].value);
        }
      }
      assert lines[..|lines|] == lines;
    }

    /** A hit is the latest entry with the captured tuple among its four; a miss means that there is none. */
    method Resolve(key: FlowKey) returns (found: Option<Entry>)
      requires Valid()
      ensures found == Resolved(entries, key)
      ensures found.Some? ==> found.value in entries && TupleOf(key).Some? && IsForm(found.value, TupleOf(key).value)
      ensures found.None? && TupleOf(key).Some? ==> forall e <- entries :: !IsForm(e, TupleOf(key).value)
    {
      var tuple := TupleOf(key);
      found := if tuple.None? then None else Lookup(observed, tuple.value);
      if tuple.Some? {
        assert Lookup(observed, tuple.value) == LastClaim(entries, tuple.value);
        LastClaimIsAForm(entries, tuple.value);
      }
    }
  }

  function Lookup(observed: map<FlowTuple, Entry>, t: FlowTuple): Option<Entry> {
    if t in observed then Some(observed[t]) else None
  }

  function Resolved(entries: seq<Entry>, key: FlowKey): Option<Entry> {
    if TupleOf(key).None? then None else LastClaim(entries, TupleOf(key).value)
  }

  datatype Orientation = Original | Reply

  function OrientationOf(captured: FlowTuple, e: Entry): Option<Orientation> {
    var original := captured == e.original || captured == Reverse(e.reply);
    var reply := captured == e.reply || captured == Reverse(e.original);
    if original && !reply then Some(Original)
    else if !original && reply then Some(Reply)
    else None
  }

  /** No tuple of the entry is symmetric, neither its own reverse nor common to both directions. */
  predicate Orientable(e: Entry) {
    e.original != e.reply && e.original != Reverse(e.original) && e.reply != Reverse(e.reply)
  }

  /** Every captured form is oriented, and rightly so, exactly for the orientable entries. */
  lemma OrientedExactly(e: Entry)
    ensures Orientable(e) <==>
            && OrientationOf(e.original, e) == Some(Original) && OrientationOf(Reverse(e.reply), e) == Some(Original)
            && OrientationOf(e.reply, e) == Some(Reply) && OrientationOf(Reverse(e.original), e) == Some(Reply)
  {
    assert Reverse(Reverse(e.original)) == e.original;
    assert Reverse(Reverse(e.reply)) == e.reply;
  }

  datatype Direction = Upload | Download | Internal | Unknown

  /** The scope and the path type of a flow, which always go together. */
  datatype Scope = ClientForwarded | RouterLocal | InternalPath | TunnelPath | UnknownPath

  datatype Network = Network(segments: seq<T.Segment>, local: set<T.IpAddr>)
  {
    function Role(a: T.IpAddr): Option<T.Role> {
      match T.SegmentOf(segments, a)
      case Some(s) => Some(s.role)
      case None => None
    }

    predicate IsLocal(a: T.IpAddr) {
      a in local
    }

    predicate IsInternal(a: T.IpAddr) {
      Role(a).Some? && Role(a).value.Internal()
    }

    predicate IsTunnel(a: T.IpAddr) {
      Role(a) == Some(T.Tunnel)
    }

    function Subnet(a: T.IpAddr): Option<T.Prefix> {
      match T.SegmentOf(segments, a)
      case Some(s) => Some(s.subnet)
      case None => None
    }
  }

  datatype Parties = Parties(client: Endpoint, remote: Endpoint, direction: Direction, scope: Scope)

  function PartiesOf(n: Network, s: Endpoint, d: Endpoint): Parties {
    var sourceLocal, destinationLocal := n.IsLocal(s.address), n.IsLocal(d.address);
    if sourceLocal && !destinationLocal then Parties(s, d, Upload, RouterLocal)
    else if destinationLocal && !sourceLocal then Parties(d, s, Download, RouterLocal)
    else if n.IsTunnel(s.address) || n.IsTunnel(d.address) then
      if n.IsTunnel(s.address) then Parties(s, d, Upload, TunnelPath) else Parties(d, s, Download, TunnelPath)
    else if n.IsInternal(s.address) && n.IsInternal(d.address) then Parties(s, d, Internal, InternalPath)
    else if n.IsInternal(s.address) then Parties(s, d, Upload, ClientForwarded)
    else if n.IsInternal(d.address) then Parties(d, s, Download, ClientForwarded)
    else Parties(s, d, Unknown, UnknownPath)
  }

  datatype Flow = Flow(parties: Parties, sourceSubnet: Option<T.Prefix>, destinationSubnet: Option<T.Prefix>,
                       sourceNat: bool, destinationNat: bool, resolved: bool)

  function Normalize(n: Network, entries: seq<Entry>, key: FlowKey): Option<Flow> {
    match TupleOf(key)
    case None => None
    case Some(captured) =>
      match LastClaim(entries, captured)
      case None =>
        var s, d := captured.source, captured.destination;
        Some(Flow(PartiesOf(n, s, d), n.Subnet(s.address), n.Subnet(d.address), false, false, false))
      case Some(e) =>
        var reply := OrientationOf(captured, e) == Some(Reply);
        var s := if reply then e.original.destination else e.original.source;
        var d := if reply then e.original.source else e.original.destination;
        Some(Flow(PartiesOf(n, s, d), n.Subnet(s.address), n.Subnet(d.address), e.sourceNat, e.destinationNat, true))
  }

  /** The network tells the two addresses apart: one is local, in a tunnel, or internal, and the other is not. */
  predicate Distinguished(n: Network, s: T.IpAddr, d: T.IpAddr) {
    n.IsLocal(s) != n.IsLocal(d) || n.IsTunnel(s) != n.IsTunnel(d) || n.IsInternal(s) != n.IsInternal(d)
  }

  predicate SamePair(p: Parties, q: Parties) {
    p.client == q.client && p.remote == q.remote
  }

  predicate Opposed(p: Direction, q: Direction) {
    (p == Upload && q == Download) || (p == Download && q == Upload)
  }

  /**
   * Swapping the endpoints keeps scope and path. It keeps client and remote
   * exactly when the network tells them apart (or they are the same), and it
   * turns the direction round exactly when the network tells them apart.
   */
  lemma SwappedEndpoints(n: Network, s: Endpoint, d: Endpoint)
    ensures var p, q := PartiesOf(n, s, d), PartiesOf(n, d, s);
            && p.scope == q.scope
            && (SamePair(p, q) <==> s == d || Distinguished(n, s.address, d.address))
            && (Opposed(p.direction, q.direction) <==> Distinguished(n, s.address, d.address))
  {
  }

  /** `key` was captured with tuple `t`, and `e` is what the connection table knows about it. */
  predicate CapturedAs(entries: seq<Entry>, key: FlowKey, t: FlowTuple, e: Entry) {
    TupleOf(key) == Some(t) && LastClaim(entries, t) == Some(e)
  }

  /** An entry whose forms no other entry claims is found under each of them. */
  lemma {:induction false} UnclaimedFormsResolve(entries: seq<Entry>, e: Entry, t: FlowTuple)
    requires e in entries && IsForm(e, t)
    requires forall f <- entries :: f != e ==> !IsForm(f, t)
    ensures LastClaim(entries, t) == Some(e)
  {
    LastClaimIsAForm(entries, t);
  }

  /** The flows of the four captured forms of one connection. */
  datatype Views = Views(original: Parties, original': Parties, reply: Parties, reply': Parties)
  {
    predicate SamePairs() {
      SamePair(original, original') && SamePair(original, reply) && SamePair(original, reply')
    }

    predicate OpposedDirections() {
      && original.direction == original'.direction && reply.direction == reply'.direction
      && Opposed(original.direction, reply.direction)
    }
  }

  /** What a form of a resolved connection normalises to: the parties of its original tuple, one way or the other. */
  function ViewOf(n: Network, e: Entry, captured: FlowTuple): Parties {
    if OrientationOf(captured, e) == Some(Reply)
    then PartiesOf(n, e.original.destination, e.original.source)
    else PartiesOf(n, e.original.source, e.original.destination)
  }

  function ViewsOf(n: Network, e: Entry): Views {
    Views(ViewOf(n, e, e.original), ViewOf(n, e, Reverse(e.reply)), ViewOf(n, e, e.reply), ViewOf(n, e, Reverse(e.original)))
  }

  lemma NormalizedIsAView(n: Network, entries: seq<Entry>, key: FlowKey, t: FlowTuple, e: Entry)
    requires CapturedAs(entries, key, t, e)
    ensures var flow := Normalize(n, entries, key);
            && flow.Some? && flow.value.parties == ViewOf(n, e, t) && flow.value.resolved
            && flow.value.sourceNat == e.sourceNat && flow.value.destinationNat == e.destinationNat
  {
  }

  /** Only a form that differs from all the original ones is read as a reply. */
  lemma RepliesExactly(e: Entry)
    ensures OrientationOf(e.reply, e) == Some(Reply) <==> e.reply != e.original && e.reply != Reverse(e.reply)
    ensures OrientationOf(Reverse(e.original), e) == Some(Reply) <==>
            e.original != Reverse(e.original) && e.original != e.reply
    ensures OrientationOf(e.original, e) != Some(Reply) && OrientationOf(Reverse(e.reply), e) != Some(Reply)
  {
    assert Reverse(Reverse(e.original)) == e.original;
    assert Reverse(Reverse(e.reply)) == e.reply;
  }

  /** All four views name one client and one remote, exactly under a condition on the entry and the network. */
  lemma ViewsShareOnePairExactly(n: Network, e: Entry)
    ensures ViewsOf(n, e).SamePairs() <==>
            || e.original == e.reply
            || e.original == Reverse(e.original)
            || Distinguished(n, e.original.source.address, e.original.destination.address)
  {
    RepliesExactly(e);
    SwappedEndpoints(n, e.original.source, e.original.destination);
  }

  /** The two original views run against the two reply views, exactly under a condition on the entry and the network. */
  lemma ViewsOpposeExactly(n: Network, e: Entry)
    ensures ViewsOf(n, e).OpposedDirections() <==>
            && Orientable(e)
            && Distinguished(n, e.original.source.address, e.original.destination.address)
  {
    RepliesExactly(e);
    SwappedEndpoints(n, e.original.source, e.original.destination);
  }

  /** Four keys, one captured under each form of the entry. */
  predicate CapturedForms(entries: seq<Entry>, e: Entry, original: FlowKey, original': FlowKey, reply: FlowKey, reply': FlowKey) {
    && CapturedAs(entries, original, e.original, e) && CapturedAs(entries, original', Reverse(e.reply), e)
    && CapturedAs(entries, reply, e.reply, e) && CapturedAs(entries, reply', Reverse(e.original), e)
  }

  /**
   * Restoration: however one connection is captured, before or after
   * translation and in either direction, it normalises to one client and one
   * remote in opposite directions, if and only if its entry is orientable and
   * the network tells its original endpoints apart.
   */
  lemma RestorationExactly(n: Network, entries: seq<Entry>, e: Entry,
                           original: FlowKey, original': FlowKey, reply: FlowKey, reply': FlowKey)
    requires CapturedForms(entries, e, original, original', reply, reply')
    ensures forall k <- [original, original', reply, reply'] :: Normalize(n, entries, k).Some?
    ensures var views := Views(Normalize(n, entries, original).value.parties, Normalize(n, entries, original').value.parties,
                               Normalize(n, entries, reply).value.parties, Normalize(n, entries, reply').value.parties);
            views.SamePairs() && views.OpposedDirections() <==>
            Orientable(e) && Distinguished(n, e.original.source.address, e.original.destination.address)
  {
    NormalizedIsAView(n, entries, original, e.original, e);
    NormalizedIsAView(n, entries, original', Reverse(e.reply), e);
    NormalizedIsAView(n, entries, reply, e.reply, e);
    NormalizedIsAView(n, entries, reply', Reverse(e.original), e);
    ViewsShareOnePairExactly(n, e);
    ViewsOpposeExactly(n, e);
  }

  /** One endpoint inside and one outside, neither local nor in a tunnel: the client is the inside one, on every view. */
  lemma InsideIsTheClient(n: Network, e: Entry, t: FlowTuple)
    requires IsForm(e, t)
    requires forall a <- [e.original.source.address, e.original.destination.address] :: !n.IsLocal(a) && !n.IsTunnel(a)
    requires n.IsInternal(e.original.source.address) != n.IsInternal(e.original.destination.address)
    ensures n.IsInternal(ViewOf(n, e, t).client.address) && !n.IsInternal(ViewOf(n, e, t).remote.address)
    ensures ViewOf(n, e, t).scope == ClientForwarded
  {
    var ends := [e.original.source.address, e.original.destination.address];
    assert ends[0] in ends && ends[1] in ends;
  }

  /** A key between two ports of one address, and its answer. */
  function LoopKey(sourcePort: nat, destinationPort: nat): FlowKey {
    var address: Address := [0, 0, 0, 0, 0, 0, 0, 0, 0, 0, 0, 0, 0, 0, 0, 0];
    FlowKey(4, TCP, 0, INGRESS, 1, address, address, sourcePort, destinationPort)
  }

  /** An orientable connection that is not restored: whatever the network, it cannot tell an address from itself. */
  lemma LoopIsNotRestored(n: Network)
    ensures var there, back := LoopKey(1, 2), LoopKey(2, 1);
            var e := Entry(TupleOf(there).value, TupleOf(back).value, false, false);
            && Orientable(e) && CapturedForms([e], e, there, there, back, back)
            && !(ViewsOf(n, e).SamePairs() && ViewsOf(n, e).OpposedDirections())
  {
    var there, back := LoopKey(1, 2), LoopKey(2, 1);
    var e := Entry(TupleOf(there).value, TupleOf(back).value, false, false);
    assert Reverse(e.reply) == e.original && Reverse(e.original) == e.reply;
    forall t | IsForm(e, t)
      ensures LastClaim([e], t) == Some(e)
    {
      assert [e][..0] == [];
    }
    RestorationExactly(n, [e], e, there, there, back, back);
    ViewsOpposeExactly(n, e);
  }
}
