/**
 Client budget classification: which traffic-control leaf a packet leaves in.

 Class ids are `major * 0x10000 + minor`. Every client slot owns one default leaf and sixteen application
 leaves under the download major, and the same under the upload major.
 */
module Qos {
  import opened Base

  const DOWNLOAD_MAJOR: nat := 0x51
  const UPLOAD_MAJOR: nat := 0x52
  const BYPASS_MINOR: nat := 0xfffe
  const SLOTS: nat := 0x100
  const DEFAULT_FIRST: nat := 0x200
  const DEFAULT_LAST: nat := 0x2ff
  const APPLICATION_FIRST: nat := 0x1000
  const APPLICATION_LAST: nat := 0x1fff
  const APPLICATIONS_PER_CLIENT: nat := 16
  const MIRRED_MAGIC: nat := 0x4e514d52

  type U32 = x: int | 0 <= x < 0x1_0000_0000
  type Ifindex = U32
  type Mac = seq<Byte>

  function ClassId(major: nat, minor: nat): nat {
    major * 0x10000 + minor
  }

  const BYPASS: nat := ClassId(DOWNLOAD_MAJOR, BYPASS_MINOR)

  datatype Assignment = Assignment(
    slot: U32, deliveryIfindex: Ifindex, flags: U32, generation: U32, expiresNs: nat, uploadClassid: U32, downloadClassid: U32)
  {
    predicate Upload() { flags % 2 == 1 }
    predicate Download() { flags / 2 % 2 == 1 }
    predicate Block() { flags / 4 % 2 == 1 }

    predicate Valid() {
      && slot < SLOTS && generation != 0 && flags < 8
      && DEFAULT_FIRST + slot <= DEFAULT_LAST
      && uploadClassid == ClassId(UPLOAD_MAJOR, DEFAULT_FIRST + slot)
      && downloadClassid == ClassId(DOWNLOAD_MAJOR, DEFAULT_FIRST + slot)
      && (Download() ==> deliveryIfindex != 0)
    }

    predicate Live(now: nat) { expiresNs > now }
  }

  /** The maps published by the agent; `ifb` is zero while no redirect device is published. */
  datatype Tables = Tables(ifb: Ifindex, ingressPorts: set<Ifindex>, roots: set<Ifindex>, clients: map<Mac, Assignment>)

  /** What the classifier needs of one packet; `internet` is the verdict of the internal-prefix lookup. */
  datatype Packet = Packet(ifindex: Ifindex, source: Mac, destination: Mac, internet: bool)

  datatype Verdict = Accept | Drop | Continue

  /**
   The metadata words of a packet that the classifier rewrites, and the counters it bumps. The first control
   word holds an interface index xored with a magic number; it is kept here xored back, as the index itself, so
   a cleared word reads as the magic number.
   */
  datatype Words = Words(priority: U32, port: U32, cb1: U32, counted: seq<nat>)

  predicate ApplicationClass(classid: nat, major: nat, slot: nat) {
    var minor := classid % 0x10000;
    && classid / 0x10000 == major
    && APPLICATION_FIRST <= minor <= APPLICATION_LAST
    && (minor - APPLICATION_FIRST) / APPLICATIONS_PER_CLIENT == slot
  }

  predicate UploadClass(classid: nat) {
    var minor := classid % 0x10000;
    && classid / 0x10000 == UPLOAD_MAJOR
    && (DEFAULT_FIRST <= minor <= DEFAULT_LAST || APPLICATION_FIRST <= minor <= APPLICATION_LAST)
  }

  function Client(tables: Tables, mac: Mac): Option<Assignment> {
    if mac in tables.clients then Some(tables.clients[mac]) else None
  }

  /** The client assignment that binds a packet at time `now`. */
  function Binding(tables: Tables, mac: Mac, now: nat): Option<Assignment> {
    match Client(tables, mac)
    case Some(client) => if client.Live(now) && client.Valid() then Some(client) else None
    case None => None
  }

  /** The packet's priority, mark words and counters while one TC program runs on it. */
  class Classifier {
    var priority: U32
    var port: U32
    var cb1: U32
    var counted: seq<nat>

    function State(): Words
      reads this
    {
      Words(priority, port, cb1, counted)
    }

    constructor (priority: U32, port: U32, cb1: U32)
      ensures State() == Words(priority, port, cb1, [])
    {
      this.priority, this.port, this.cb1, counted := priority, port, cb1, [];
    }

    method Count(counter: nat)
      modifies this`counted
      ensures counted == old(counted) + [counter]
    {
      counted := counted + [counter];
    }

    method Ingress(tables: Tables, packet: Packet, now: nat) returns (verdict: Verdict)
      modifies this
      ensures (verdict, State()) == AfterIngress(tables, packet, now, old(State()))
    {
      if packet.ifindex !in tables.ingressPorts {
        return Accept;
      }
      var client := Client(tables, packet.source);
      if client.None? || client.value.expiresNs <= now || !client.value.Valid() {
        return Accept;
      }
      if client.value.Block() && packet.internet {
        Count(7);
        return Drop;
      }
      var redirects := tables.ifb != 0 && tables.ifb != packet.ifindex;
      if ApplicationClass(priority, UPLOAD_MAJOR, client.value.slot) {
        if redirects {
          port, cb1 := packet.ifindex, priority;
        }
        Count(0);
        return Continue;
      }
      if !client.value.Upload() {
        return Accept;
      }
      if !redirects {
        Count(4);
        return Drop;
      }
      priority := client.value.uploadClassid;
      port, cb1 := packet.ifindex, priority;
      Count(0);
      return Continue;
    }

    method Egress(tables: Tables, packet: Packet, now: nat) returns (verdict: Verdict)
      modifies this
      ensures (verdict, State()) == AfterEgress(tables, packet, now, old(State()))
    {
      if packet.ifindex !in tables.roots {
        return Accept;
      }
      var client := Client(tables, packet.destination);
      var live := client.Some? && client.value.expiresNs > now;
      var valid := client.Some? && client.value.Valid();
      if live && valid && client.value.Block() && packet.internet {
        Count(7);
        return Drop;
      }
      var uploaded := UploadClass(priority);
      if !uploaded && priority / 0x10000 == DOWNLOAD_MAJOR {
        if live && valid && client.value.deliveryIfindex == packet.ifindex
           && ApplicationClass(priority, DOWNLOAD_MAJOR, client.value.slot) {
          Count(2);
          return Accept;
        }
      }
      priority := BYPASS;
      if client.None? || !client.value.Download() || client.value.expiresNs <= now {
        if uploaded {
          Count(6);
        }
        Count(3);
        return Accept;
      }
      if !valid {
        Count(4);
        return Drop;
      }
      if client.value.deliveryIfindex != packet.ifindex {
        Count(5);
        return Drop;
      }
      priority := client.value.downloadClassid;
      Count(2);
      return Accept;
    }

    /** The matcher in front of the redirect action: `Continue` is a match. */
    method Match(tables: Tables, packet: Packet, now: nat) returns (verdict: Verdict)
      modifies this
      ensures (verdict, State()) == AfterMatch(tables, packet, now, old(State()))
    {
      if port == packet.ifindex && cb1 == priority && UploadClass(priority) {
        port, cb1 := MIRRED_MAGIC, 0;
        Count(1);
        return Continue;
      }
      if tables.ifb == 0 || tables.ifb == packet.ifindex || packet.ifindex !in tables.ingressPorts {
        return Accept;
      }
      var client := Client(tables, packet.source);
      if client.None? || !client.value.Valid() || client.value.expiresNs <= now {
        return Accept;
      }
      var application := ApplicationClass(priority, UPLOAD_MAJOR, client.value.slot);
      if !application && (!client.value.Upload() || priority != client.value.uploadClassid) {
        return Accept;
      }
      Count(1);
      return Continue;
    }
  }

  // The same three decisions, read off the assignment that binds the packet.

  function Tagged(w: Words, ifindex: Ifindex, counter: nat): Words {
    w.(port := ifindex, cb1 := w.priority, counted := w.counted + [counter])
  }

  function Counted(w: Words, counter: nat): Words {
    w.(counted := w.counted + [counter])
  }

  function AfterIngress(tables: Tables, packet: Packet, now: nat, w: Words): (Verdict, Words) {
    var redirects := tables.ifb != 0 && tables.ifb != packet.ifindex;
    match (if packet.ifindex in tables.ingressPorts then Binding(tables, packet.source, now) else None)
    case None => (Accept, w)
    case Some(client) =>
      if client.Block() && packet.internet then (Drop, Counted(w, 7))
      else if ApplicationClass(w.priority, UPLOAD_MAJOR, client.slot) then
        (Continue, if redirects then Tagged(w, packet.ifindex, 0) else Counted(w, 0))
      else if !client.Upload() then (Accept, w)
      else if !redirects then (Drop, Counted(w, 4))
      else (Continue, Tagged(w.(priority := client.uploadClassid), packet.ifindex, 0))
  }

  function AfterEgress(tables: Tables, packet: Packet, now: nat, w: Words): (Verdict, Words) {
    var binding := Binding(tables, packet.destination, now);
    var bypassed := w.(priority := BYPASS);
    if packet.ifindex !in tables.roots then (Accept, w)
    else if binding.Some? && binding.value.Block() && packet.internet then (Drop, Counted(w, 7))
    else if binding.Some? && binding.value.deliveryIfindex == packet.ifindex
            && ApplicationClass(w.priority, DOWNLOAD_MAJOR, binding.value.slot) then (Accept, Counted(w, 2))
    else if binding.Some? && binding.value.Download() then
      if binding.value.deliveryIfindex != packet.ifindex then (Drop, Counted(bypassed, 5))
      else (Accept, Counted(w.(priority := binding.value.downloadClassid), 2))
    else if BudgetClaimedByInvalidEntry(tables, packet.destination, now) then (Drop, Counted(bypassed, 4))
    else (Accept, Counted(if UploadClass(w.priority) then Counted(bypassed, 6) else bypassed, 3))
  }

  /** An entry that still claims a download budget but does not pass validation. */
  predicate BudgetClaimedByInvalidEntry(tables: Tables, mac: Mac, now: nat) {
    mac in tables.clients && tables.clients[mac].Live(now) && tables.clients[mac].Download() && !tables.clients[mac].Valid()
  }

  function AfterMatch(tables: Tables, packet: Packet, now: nat, w: Words): (Verdict, Words) {
    var redirects := tables.ifb != 0 && tables.ifb != packet.ifindex && packet.ifindex in tables.ingressPorts;
    if w.port == packet.ifindex && w.cb1 == w.priority && UploadClass(w.priority) then
      (Continue, Counted(w.(port := MIRRED_MAGIC, cb1 := 0), 1))
    else
      match (if redirects then Binding(tables, packet.source, now) else None)
      case None => (Accept, w)
      case Some(client) =>
        if ApplicationClass(w.priority, UPLOAD_MAJOR, client.slot)
           || (client.Upload() && w.priority == client.uploadClassid)
        then (Continue, Counted(w, 1))
        else (Accept, w)
  }

  /** A leaf of client slot `slot`: its default leaf or one of its application leaves. */
  predicate Leaf(classid: nat, major: nat, slot: nat) {
    classid == ClassId(major, DEFAULT_FIRST + slot) || ApplicationClass(classid, major, slot)
  }

  /** No class is a leaf of two slots, and the bypass leaf belongs to no slot. */
  lemma LeavesAreDisjoint(classid: nat, major: nat, slot: nat, other: nat)
    requires slot < SLOTS && other < SLOTS && Leaf(classid, major, slot)
    ensures Leaf(classid, major, other) ==> slot == other
    ensures classid != BYPASS && classid / 0x10000 == major
  {
    if classid == ClassId(major, DEFAULT_FIRST + slot) {
      assert classid % 0x10000 == DEFAULT_FIRST + slot;
    }
  }

  /** The application leaves of a slot, numbered. */
  function ApplicationLeaf(major: nat, slot: nat, k: nat): nat {
    ClassId(major, APPLICATION_FIRST + APPLICATIONS_PER_CLIENT * slot + k)
  }

  /** A class is an application leaf of a slot exactly if it is one of sixteen distinct ones. */
  lemma SixteenLeavesPerSlot(classid: nat, major: nat, slot: nat)
    requires major < 0x10000 && slot < SLOTS
    ensures ApplicationClass(classid, major, slot) <==>
            exists k :: 0 <= k < APPLICATIONS_PER_CLIENT && classid == ApplicationLeaf(major, slot, k)
    ensures forall k, l :: 0 <= k < l < APPLICATIONS_PER_CLIENT ==>
                             ApplicationLeaf(major, slot, k) != ApplicationLeaf(major, slot, l)
  {
    if ApplicationClass(classid, major, slot) {
      var k := (classid % 0x10000 - APPLICATION_FIRST) % APPLICATIONS_PER_CLIENT;
      assert 0 <= k < APPLICATIONS_PER_CLIENT && classid == ApplicationLeaf(major, slot, k);
    }
    if k :| 0 <= k < APPLICATIONS_PER_CLIENT && classid == ApplicationLeaf(major, slot, k) {
      assert classid % 0x10000 == APPLICATION_FIRST + APPLICATIONS_PER_CLIENT * slot + k;
    }
  }

  /** Every class of the reserved range is an application leaf of one of the 256 slots. */
  lemma ApplicationLeavesCoverTheRange(major: nat, minor: nat)
    requires major < 0x10000 && APPLICATION_FIRST <= minor <= APPLICATION_LAST
    ensures var slot := (minor - APPLICATION_FIRST) / APPLICATIONS_PER_CLIENT;
            slot < SLOTS && ApplicationClass(ClassId(major, minor), major, slot)
  {
    assert ClassId(major, minor) % 0x10000 == minor;
  }

  /**
   Budget containment on a root interface, for every client table, clock and incoming priority: an accepted
   packet leaves in the bypass leaf or in a leaf of its destination's binding assignment, delivered on the port
   that assignment names; and a binding download budget is never bypassed.
   */
  lemma EgressIsContained(tables: Tables, packet: Packet, now: nat, w: Words)
    requires packet.ifindex in tables.roots && AfterEgress(tables, packet, now, w).0 == Accept
    ensures var leaf := AfterEgress(tables, packet, now, w).1.priority;
            var binding := Binding(tables, packet.destination, now);
            && (leaf == BYPASS
                || (binding.Some? && Leaf(leaf, DOWNLOAD_MAJOR, binding.value.slot)
                    && binding.value.deliveryIfindex == packet.ifindex))
            && (binding.Some? && binding.value.Download() ==> leaf != BYPASS)
            && (binding.Some? && binding.value.Block() ==> !packet.internet)
  {
    var binding := Binding(tables, packet.destination, now);
    if binding.Some? && binding.value.Download() {
      LeavesAreDisjoint(AfterEgress(tables, packet, now, w).1.priority, DOWNLOAD_MAJOR, binding.value.slot, binding.value.slot);
    }
  }

  /** A packet is dropped at egress exactly when it is blocked, misdelivered or claimed by an invalid entry. */
  lemma EgressDropsExactly(tables: Tables, packet: Packet, now: nat, w: Words)
    requires packet.ifindex in tables.roots
    ensures AfterEgress(tables, packet, now, w).0 == Drop <==>
            var binding := Binding(tables, packet.destination, now);
            || (binding.Some? && binding.value.Block() && packet.internet)
            || (binding.Some? && binding.value.Download() && binding.value.deliveryIfindex != packet.ifindex)
            || BudgetClaimedByInvalidEntry(tables, packet.destination, now)
  {
  }

  /** The priority a shaping verdict gives a packet while the redirect device is published. */
  function Shaped(root: bool, hook: Byte, tag: nat, priority: nat): (p: nat)
    ensures p == tag || p == priority
  {
    var major, minor := tag / 0x10000, tag % 0x10000;
    if root
       && ((hook == INGRESS && major == UPLOAD_MAJOR) || (hook == EGRESS && major == DOWNLOAD_MAJOR))
       && APPLICATION_FIRST <= minor <= APPLICATION_LAST
    then tag else priority
  }

  /** Whatever policy tag shaped the packet, another client's leaf is never used. */
  lemma ShapedEgressIsContained(tables: Tables, packet: Packet, now: nat, w: Words, tag: U32, slot: nat)
    requires packet.ifindex in tables.roots && slot < SLOTS
    requires var shaped := w.(priority := Shaped(packet.ifindex in tables.roots, EGRESS, tag, w.priority));
             && AfterEgress(tables, packet, now, shaped).0 == Accept
             && Leaf(AfterEgress(tables, packet, now, shaped).1.priority, DOWNLOAD_MAJOR, slot)
    ensures Binding(tables, packet.destination, now).Some? && Binding(tables, packet.destination, now).value.slot == slot
  {
    var shaped := w.(priority := Shaped(packet.ifindex in tables.roots, EGRESS, tag, w.priority));
    var leaf := AfterEgress(tables, packet, now, shaped).1.priority;
    EgressIsContained(tables, packet, now, shaped);
    LeavesAreDisjoint(leaf, DOWNLOAD_MAJOR, slot, slot);
    LeavesAreDisjoint(leaf, DOWNLOAD_MAJOR, Binding(tables, packet.destination, now).value.slot, slot);
  }

  /**
   A binding upload budget on an ingress port is never escaped: the packet is dropped, or it continues to the
   redirect in an upload leaf of its own slot.
   */
  lemma IngressIsContained(tables: Tables, packet: Packet, now: nat, w: Words)
    ensures var (verdict, after) := AfterIngress(tables, packet, now, w);
            var binding := Binding(tables, packet.source, now);
            && (verdict == Continue ==>
                  && packet.ifindex in tables.ingressPorts && binding.Some?
                  && Leaf(after.priority, UPLOAD_MAJOR, binding.value.slot) && UploadClass(after.priority))
            && (packet.ifindex in tables.ingressPorts && binding.Some? && binding.value.Upload() ==> verdict != Accept)
  {
    var binding := Binding(tables, packet.source, now);
    if binding.Some? {
      assert binding.value.uploadClassid % 0x10000 == DEFAULT_FIRST + binding.value.slot;
      assert binding.value.uploadClassid / 0x10000 == UPLOAD_MAJOR;
    }
  }

  /**
   What ingress passes on is redirected exactly when a redirect device other than the packet's own is published, or
   the packet came with control words that already name this port and its class.
   */
  lemma ContinuedPacketsAreRedirected(tables: Tables, packet: Packet, now: nat, later: nat, w: Words)
    requires AfterIngress(tables, packet, now, w).0 == Continue
    ensures AfterMatch(tables, packet, later, AfterIngress(tables, packet, now, w).1).0 == Continue <==>
            (tables.ifb != 0 && tables.ifb != packet.ifindex) || (w.port == packet.ifindex && w.cb1 == w.priority)
  {
    IngressIsContained(tables, packet, now, w);
  }
}
