/**
 * The device observation cache (crates/agent/src/device.rs): a table of devices
 * with their addresses, its inverse, and three lazily refreshed views. It is
 * proved equal to what the history of observations says.
 */
module DeviceCache {
  import opened Base

  type Mac = nat
  type Ip = nat

  datatype Dhcp = Dhcp(parameters: seq<nat>, vendorClass: Option<string>, client: seq<nat>)
  {
    predicate Informative() {
      |parameters| > 0 || vendorClass.Some? || |client| > 0
    }
  }

  datatype Device = Device(hostname: Option<string>, dhcp: Option<Dhcp>, addresses: map<Ip, nat>)

  const UNKNOWN := Device(None, None, map[])

  datatype Row = Row(mac: Mac, ip: Ip, hostname: Option<string>, dhcp: Option<Dhcp>, lastSeen: nat)

  datatype Event =
    | Observed(mac: Mac, ip: Option<Ip>, hostname: Option<string>, dhcp: Option<Dhcp>, time: nat)
    | Taken

  predicate Names(e: Event) {
    e.Observed? && e.hostname.Some? && |e.hostname.value| > 0
  }

  predicate Describes(e: Event) {
    e.Observed? && e.dhcp.Some? && e.dhcp.value.Informative()
  }

  // What the history of events says.

  predicate Met(log: seq<Event>, mac: Mac) {
    |log| > 0 &&
    var e := log[|log| - 1];
    (e.Observed? && e.mac == mac) || Met(log[..|log| - 1], mac)
  }

  /** The last device seen with an address. */
  function OwnerOf(log: seq<Event>, ip: Ip): Option<Mac> {
    if |log| == 0 then None
    else
      var e := log[|log| - 1];
      if e.Observed? && e.ip == Some(ip) then Some(e.mac) else OwnerOf(log[..|log| - 1], ip)
  }

  /** When the owner of an address was last seen with it, since it became the owner. */
  function SeenAt(log: seq<Event>, ip: Ip): nat {
    if |log| == 0 then 0
    else
      var e, before := log[|log| - 1], log[..|log| - 1];
      if !(e.Observed? && e.ip == Some(ip)) then SeenAt(before, ip)
      else if OwnerOf(before, ip) == Some(e.mac) && SeenAt(before, ip) > e.time then SeenAt(before, ip)
      else e.time
  }

  /** The last nonempty name of a device. */
  function NameOf(log: seq<Event>, mac: Mac): Option<string> {
    if |log| == 0 then None
    else
      var e := log[|log| - 1];
      if Names(e) && e.mac == mac then e.hostname else NameOf(log[..|log| - 1], mac)
  }

  /** The last informative DHCP metadata of a device. */
  function DhcpOf(log: seq<Event>, mac: Mac): Option<Dhcp> {
    if |log| == 0 then None
    else
      var e := log[|log| - 1];
      if Describes(e) && e.mac == mac then e.dhcp else DhcpOf(log[..|log| - 1], mac)
  }

  /** Something was observed since telemetry was last taken. */
  predicate Pending(log: seq<Event>) {
    |log| > 0 && (log[|log| - 1].Observed? || (!log[|log| - 1].Taken? && Pending(log[..|log| - 1])))
  }

  function Owner(owners: map<Ip, Mac>, ip: Ip): Option<Mac> {
    if ip in owners then Some(owners[ip]) else None
  }

  ghost predicate OwnersTrue(owners: map<Ip, Mac>, log: seq<Event>) {
    forall ip :: Owner(owners, ip) == OwnerOf(log, ip)
  }

  /** One device as the history has it. */
  ghost predicate DeviceTrue(d: Device, mac: Mac, log: seq<Event>) {
    && d.hostname == NameOf(log, mac) && d.dhcp == DhcpOf(log, mac)
    && (forall ip :: ip in d.addresses <==> OwnerOf(log, ip) == Some(mac))
    && (forall ip <- d.addresses :: d.addresses[ip] == SeenAt(log, ip))
  }

  ghost predicate DevicesTrue(devices: map<Mac, Device>, log: seq<Event>) {
    && (forall mac :: mac in devices <==> Met(log, mac))
    && (forall mac <- devices :: DeviceTrue(devices[mac], mac, log))
  }

  /** An address belongs to a device that was met. */
  lemma {:induction false} OwnersWereMet(log: seq<Event>, ip: Ip)
    ensures OwnerOf(log, ip).Some? ==> Met(log, OwnerOf(log, ip).value)
  {
    if |log| > 0 {
      OwnersWereMet(log[..|log| - 1], ip);
    }
  }

  /** A device never met has nothing. */
  lemma {:induction false} StrangersHaveNothing(log: seq<Event>, mac: Mac)
    requires !Met(log, mac)
    ensures DeviceTrue(UNKNOWN, mac, log)
  {
    if |log| > 0 {
      StrangersHaveNothing(log[..|log| - 1], mac);
      assert !Names(log[|log| - 1]) || log[|log| - 1].mac != mac;
    }
  }

  function EntryOf(devices: map<Mac, Device>, mac: Mac): Device {
    if mac in devices then devices[mac] else UNKNOWN
  }

  function WithoutAddress(d: Device, ip: Ip): Device {
    d.(addresses := d.addresses - {ip})
  }

  function Informed(d: Device, e: Event): Device
    requires e.Observed?
  {
    d.(hostname := if Names(e) then e.hostname else d.hostname,
    dhcp := if Describes(e) then e.dhcp else d.dhcp,
    addresses := match e.ip
                 case None => d.addresses
                 case Some(ip) =>
                   d.addresses[ip := if ip in d.addresses && d.addresses[ip] > e.time then d.addresses[ip] else e.time])
  }

  lemma OwnersStayTrue(owners: map<Ip, Mac>, log: seq<Event>, e: Event)
    requires OwnersTrue(owners, log) && e.Observed?
    ensures OwnersTrue(if e.ip.Some? then owners[e.ip.value := e.mac] else owners, log + [e])
  {
    var more := log + [e];
    assert more[..|log|] == log;
    forall ip
      ensures Owner(if e.ip.Some? then owners[e.ip.value := e.mac] else owners, ip) == OwnerOf(more, ip)
    {
      assert Owner(owners, ip) == OwnerOf(log, ip);
    }
  }

  lemma {:induction false} FactsAppended(log: seq<Event>, e: Event, mac: Mac)
    ensures NameOf(log + [e], mac) == if Names(e) && e.mac == mac then e.hostname else NameOf(log, mac)
    ensures DhcpOf(log + [e], mac) == if Describes(e) && e.mac == mac then e.dhcp else DhcpOf(log, mac)
  {
    assert (log + [e])[..|log|] == log;
  }

  lemma {:induction false} AddressAppended(log: seq<Event>, e: Event, ip: Ip)
    ensures var seen := e.Observed? && e.ip == Some(ip);
            && OwnerOf(log + [e], ip) == (if seen then Some(e.mac) else OwnerOf(log, ip))
            && SeenAt(log + [e], ip) ==
               (if !seen || (OwnerOf(log, ip) == Some(e.mac) && SeenAt(log, ip) > e.time) then SeenAt(log, ip) else e.time)
  {
    assert (log + [e])[..|log|] == log;
  }

  lemma {:induction false} NothingPendingOnceTaken(log: seq<Event>)
    ensures !Pending(log + [Taken])
  {
    assert (log + [Taken])[..|log|] == log;
  }

  lemma InformedIsTrue(d: Device, log: seq<Event>, e: Event)
    requires e.Observed? && DeviceTrue(d, e.mac, log)
    ensures DeviceTrue(Informed(d, e), e.mac, log + [e])
  {
    FactsAppended(log, e, e.mac);
    forall ip
      ensures ip in Informed(d, e).addresses <==> OwnerOf(log + [e], ip) == Some(e.mac)
      ensures ip in Informed(d, e).addresses ==> Informed(d, e).addresses[ip] == SeenAt(log + [e], ip)
    {
      AddressAppended(log, e, ip);
    }
  }

  /** The device that loses the address, if it had it, and every other one. */
  lemma OthersStayTrue(d: Device, mac: Mac, log: seq<Event>, e: Event)
    requires e.Observed? && mac != e.mac && DeviceTrue(d, mac, log)
    ensures DeviceTrue(if e.ip.Some? then WithoutAddress(d, e.ip.value) else d, mac, log + [e])
  {
    FactsAppended(log, e, mac);
    var after := if e.ip.Some? then WithoutAddress(d, e.ip.value) else d;
    forall ip
      ensures ip in after.addresses <==> OwnerOf(log + [e], ip) == Some(mac)
      ensures ip in after.addresses ==> after.addresses[ip] == SeenAt(log + [e], ip)
    {
      AddressAppended(log, e, ip);
    }
  }

  lemma WithoutMissingAddress(d: Device, ip: Ip)
    requires ip !in d.addresses
    ensures WithoutAddress(d, ip) == d
  {
    assert d.addresses - {ip} == d.addresses;
  }

  /** The table after the previous owner of the address gave it up. */
  function Released(devices: map<Mac, Device>, owners: map<Ip, Mac>, e: Event): map<Mac, Device>
    requires e.Observed?
  {
    if e.ip.Some? && e.ip.value in owners && owners[e.ip.value] != e.mac && owners[e.ip.value] in devices
    then devices[owners[e.ip.value] := WithoutAddress(devices[owners[e.ip.value]], e.ip.value)]
    else devices
  }

  function Recorded(devices: map<Mac, Device>, owners: map<Ip, Mac>, e: Event): map<Mac, Device>
    requires e.Observed?
  {
    var released := Released(devices, owners, e);
    released[e.mac := Informed(EntryOf(released, e.mac), e)]
  }

  lemma DeviceStaysTrue(devices: map<Mac, Device>, owners: map<Ip, Mac>, log: seq<Event>, e: Event, mac: Mac)
    requires e.Observed? && OwnersTrue(owners, log) && DevicesTrue(devices, log)
    requires mac in Recorded(devices, owners, e)
    ensures DeviceTrue(Recorded(devices, owners, e)[mac], mac, log + [e])
  {
    if mac == e.mac {
      if mac !in devices {
        StrangersHaveNothing(log, mac);
      }
      assert DeviceTrue(EntryOf(devices, mac), mac, log);
      InformedIsTrue(EntryOf(devices, mac), log, e);
    } else {
      assert DeviceTrue(devices[mac], mac, log);
      OthersStayTrue(devices[mac], mac, log, e);
      if e.ip.Some? && Owner(owners, e.ip.value) != Some(mac) {
        assert Owner(owners, e.ip.value) == OwnerOf(log, e.ip.value);
        WithoutMissingAddress(devices[mac], e.ip.value);
      }
    }
  }

  lemma DevicesStayTrue(devices: map<Mac, Device>, owners: map<Ip, Mac>, log: seq<Event>, e: Event)
    requires e.Observed? && OwnersTrue(owners, log) && DevicesTrue(devices, log)
    ensures DevicesTrue(Recorded(devices, owners, e), log + [e])
  {
    var more := log + [e];
    assert more[..|log|] == log;
    var recorded := Recorded(devices, owners, e);
    forall mac
      ensures mac in recorded <==> Met(more, mac)
    {
      assert mac in devices <==> Met(log, mac);
    }
    forall mac <- recorded
      ensures DeviceTrue(recorded[mac], mac, more)
    {
      DeviceStaysTrue(devices, owners, log, e, mac);
    }
  }

  lemma TakingChangesNothing(devices: map<Mac, Device>, owners: map<Ip, Mac>, log: seq<Event>)
    requires OwnersTrue(owners, log) && DevicesTrue(devices, log)
    ensures OwnersTrue(owners, log + [Taken]) && DevicesTrue(devices, log + [Taken])
  {
    var more := log + [Taken];
    assert more[..|log|] == log;
    forall ip
      ensures OwnerOf(more, ip) == OwnerOf(log, ip) && SeenAt(more, ip) == SeenAt(log, ip)
    {
    }
    forall mac
      ensures Met(more, mac) == Met(log, mac) && NameOf(more, mac) == NameOf(log, mac) && DhcpOf(more, mac) == DhcpOf(log, mac)
    {
    }
    forall ip
      ensures Owner(owners, ip) == OwnerOf(more, ip)
    {
      assert Owner(owners, ip) == OwnerOf(log, ip);
    }
    forall mac <- devices
      ensures DeviceTrue(devices[mac], mac, more)
    {
      assert DeviceTrue(devices[mac], mac, log);
    }
  }

  function RowOf(mac: Mac, d: Device, ip: Ip): Row
    requires ip in d.addresses
  {
    Row(mac, ip, d.hostname, d.dhcp, d.addresses[ip])
  }

  /** `rows` are the rows of the devices in `macs`, each address once. */
  ghost predicate Enumerates(rows: seq<Row>, devices: map<Mac, Device>, macs: set<Mac>) {
    && (forall i, j :: 0 <= i < j < |rows| ==> rows[i].ip != rows[j].ip)
    && (forall row <- rows ::
          row.mac in macs && row.mac in devices && row.ip in devices[row.mac].addresses
          && row == RowOf(row.mac, devices[row.mac], row.ip))
    && (forall mac, ip :: mac in macs && mac in devices && ip in devices[mac].addresses ==>
                            RowOf(mac, devices[mac], ip) in rows)
  }

  /** No two devices share an address. */
  ghost predicate Disjoint(devices: map<Mac, Device>) {
    forall m, n, ip :: m in devices && n in devices && ip in devices[m].addresses && ip in devices[n].addresses ==> m == n
  }

  lemma TrueDevicesAreDisjoint(devices: map<Mac, Device>, log: seq<Event>)
    requires DevicesTrue(devices, log)
    ensures Disjoint(devices)
  {
    forall m, n, ip | m in devices && n in devices && ip in devices[m].addresses && ip in devices[n].addresses
      ensures m == n
    {
      assert DeviceTrue(devices[m], m, log) && DeviceTrue(devices[n], n, log);
      assert OwnerOf(log, ip) == Some(m);
    }
  }

  /** The two tables are inverse to each other. */
  lemma TablesAreInverse(devices: map<Mac, Device>, owners: map<Ip, Mac>, log: seq<Event>, mac: Mac, ip: Ip)
    requires OwnersTrue(owners, log) && DevicesTrue(devices, log)
    ensures ip in owners && owners[ip] == mac <==> mac in devices && ip in devices[mac].addresses
  {
    assert Owner(owners, ip) == OwnerOf(log, ip);
    OwnersWereMet(log, ip);
    assert mac in devices <==> Met(log, mac);
    if mac in devices {
      assert DeviceTrue(devices[mac], mac, log);
    }
  }

  /** A snapshot, read against the history: every address ever seen once, with its owner and what is known of it. */
  ghost predicate Reports(rows: seq<Row>, log: seq<Event>) {
    && (forall i, j :: 0 <= i < j < |rows| ==> rows[i].ip != rows[j].ip)
    && (forall row <- rows :: OwnerOf(log, row.ip) == Some(row.mac)
                              && row == Row(row.mac, row.ip, NameOf(log, row.mac), DhcpOf(log, row.mac), SeenAt(log, row.ip)))
    && (forall ip :: OwnerOf(log, ip).Some? ==> exists row <- rows :: row.ip == ip)
  }

  lemma EnumerationReports(rows: seq<Row>, devices: map<Mac, Device>, log: seq<Event>)
    requires Enumerates(rows, devices, devices.Keys) && DevicesTrue(devices, log)
    ensures Reports(rows, log)
  {
    forall row <- rows
      ensures OwnerOf(log, row.ip) == Some(row.mac)
              && row == Row(row.mac, row.ip, NameOf(log, row.mac), DhcpOf(log, row.mac), SeenAt(log, row.ip))
    {
      assert DeviceTrue(devices[row.mac], row.mac, log);
    }
    forall ip | OwnerOf(log, ip).Some?
      ensures exists row <- rows :: row.ip == ip
    {
      var mac := OwnerOf(log, ip).value;
      OwnersWereMet(log, ip);
      assert mac in devices <==> Met(log, mac);
      assert DeviceTrue(devices[mac], mac, log);
      assert RowOf(mac, devices[mac], ip) in rows;
    }
  }

  class Cache {
    var devices: map<Mac, Device>
    var ipOwners: map<Ip, Mac>
    var snapshotDirty: bool
    var snapshotCache: seq<Row>
    var telemetryDirty: bool
    var resolverDirty: bool
    var resolverCache: map<Ip, Mac>
    ghost var log: seq<Event>

    /** The tables are what the history says, and a view that is not dirty is up to date. */
    ghost predicate Valid()
      reads this
    {
      && OwnersTrue(ipOwners, log) && DevicesTrue(devices, log)
      && (!snapshotDirty ==> Enumerates(snapshotCache, devices, devices.Keys))
      && (!resolverDirty ==> resolverCache == ipOwners)
      && telemetryDirty == Pending(log)
    }

    constructor ()
      ensures Valid() && log == []
    {
      devices, ipOwners, snapshotCache, resolverCache := map[], map[], [], map[];
      snapshotDirty, telemetryDirty, resolverDirty := false, false, false;
      log := [];
    }

    method Observe(mac: Mac, ip: Option<Ip>, hostname: Option<string>, dhcp: Option<Dhcp>, time: nat)
      requires Valid()
      modifies this
      ensures Valid() && log == old(log) + [Observed(mac, ip, hostname, dhcp, time)]
    {
      ghost var e := Observed(mac, ip, hostname, dhcp, time);
      OwnersStayTrue(ipOwners, log, e);
      DevicesStayTrue(devices, ipOwners, log, e);
      snapshotDirty, telemetryDirty, resolverDirty := true, true, true;
      if ip.Some? {
        var previous := if ip.value in ipOwners then Some(ipOwners[ip.value]) else None;
        ipOwners := ipOwners[ip.value := mac];
        if previous.Some? && previous.value != mac && previous.value in devices {
          var d := devices[previous.value];
          devices := devices[previous.value := d.(addresses := d.addresses - {ip.value})];
        }
      }
      assert devices == Released(old(devices), old(ipOwners), e);
      Inform(mac, ip, hostname, dhcp, time);
      log := log + [e];
    }

    method Inform(mac: Mac, ip: Option<Ip>, hostname: Option<string>, dhcp: Option<Dhcp>, time: nat)
      modifies `devices
      ensures devices == old(devices)[mac := Informed(EntryOf(old(devices), mac), Observed(mac, ip, hostname, dhcp, time))]
    {
      var device := if mac in devices then devices[mac] else UNKNOWN;
      if hostname.Some? && |hostname.value| > 0 {
        device := device.(hostname := hostname);
      }
      if dhcp.Some? && dhcp.value.Informative() {
        device := device.(dhcp := dhcp);
      }
      if ip.Some? {
        var seen := if ip.value in device.addresses then Max(device.addresses[ip.value], time) else time;
        device := device.(addresses := device.addresses[ip.value := seen]);
      }
      devices := devices[mac := device];
    }

    method Resolve(ip: Ip) returns (owner: Option<Mac>)
      requires Valid()
      ensures owner == OwnerOf(log, ip)
    {
      owner := Owner(ipOwners, ip);
    }

    method ResolverSnapshot() returns (view: map<Ip, Mac>)
      requires Valid()
      modifies `resolverDirty, `resolverCache
      ensures Valid() && OwnersTrue(view, log)
    {
      if resolverDirty {
        resolverCache := ipOwners;
      }
      resolverDirty := false;
      view := resolverCache;
    }

    /** The rows of the current table, in any order. */
    method Collect() returns (rows: seq<Row>)
      requires Disjoint(devices)
      ensures Enumerates(rows, devices, devices.Keys)
    {
      rows := [];
      var left := devices.Keys;
      while left != {}
        invariant left <= devices.Keys
        invariant Enumerates(rows, devices, devices.Keys - left)
        decreases |left|
      {
        var mac :| mac in left;
        var more := CollectDevice(mac);
        JoinRows(rows, more, devices, devices.Keys - left, mac);
        left := left - {mac};
        assert devices.Keys - left == devices.Keys - (left + {mac}) + {mac};
        rows := rows + more;
      }
      assert devices.Keys - left == devices.Keys;
    }

    method CollectDevice(mac: Mac) returns (rows: seq<Row>)
      requires mac in devices
      ensures Enumerates(rows, devices, {mac})
    {
      rows := [];
      var d := devices[mac];
      var left := d.addresses.Keys;
      while left != {}
        invariant left <= d.addresses.Keys
        invariant forall i, j :: 0 <= i < j < |rows| ==> rows[i].ip != rows[j].ip
        invariant forall row <- rows :: row.ip in d.addresses && row.ip !in left && row == RowOf(mac, d, row.ip)
        invariant forall ip :: ip in d.addresses && ip !in left ==> RowOf(mac, d, ip) in rows
        decreases |left|
      {
        var ip :| ip in left;
        left := left - {ip};
        rows := rows + [RowOf(mac, d, ip)];
      }
    }

    method Snapshot() returns (rows: seq<Row>)
      requires Valid()
      modifies `snapshotDirty, `snapshotCache
      ensures Valid() && Reports(rows, log)
    {
      if snapshotDirty {
        TrueDevicesAreDisjoint(devices, log);
        snapshotCache := Collect();
      }
      snapshotDirty := false;
      rows := snapshotCache;
      EnumerationReports(rows, devices, log);
    }

    /** The full table if something was observed since the last call, and nothing otherwise. */
    method TakeTelemetrySnapshot() returns (rows: seq<Row>)
      requires Valid()
      modifies this
      ensures Valid() && log == old(log) + [Taken]
      ensures if Pending(old(log)) then Reports(rows, old(log)) else rows == []
    {
      rows := [];
      if telemetryDirty {
        rows := Snapshot();
      }
      TakingChangesNothing(devices, ipOwners, log);
      NothingPendingOnceTaken(log);
      telemetryDirty := false;
      log := log + [Taken];
    }
  }

  lemma JoinRows(rows: seq<Row>, more: seq<Row>, devices: map<Mac, Device>, macs: set<Mac>, mac: Mac)
    requires Disjoint(devices) && mac !in macs
    requires Enumerates(rows, devices, macs) && Enumerates(more, devices, {mac})
    ensures Enumerates(rows + more, devices, macs + {mac})
  {
    var all := rows + more;
    forall i, j | 0 <= i < j < |all|
      ensures all[i].ip != all[j].ip
    {
      if i < |rows| <= j {
        assert rows[i] in rows && more[j - |rows|] in more;
      }
    }
  }
}
