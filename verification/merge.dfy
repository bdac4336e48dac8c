/** The upsert-by-MAC merge of an agent's visible devices: `UpdateDevicesData` and
    `ProcessDevicesData` (backend/websocket_servers/agent_socket/process_data.js). */
module Merge {
  import opened Common
  import opened Dict
  import opened Json
  import opened Schemas

  /** `UpdateDeviceCurrentData(current_data, websocket_data)`: the reported fields are
      copied over; identity, type, status, VLAN and registration time are kept. */
  function UpdateDeviceCurrentData(cur: Device, d: DeviceReport): (r: Device)
    ensures r.id == cur.id && r.status == cur.status && r.kind == cur.kind && r.mac == cur.mac
      && r.vlan == cur.vlan && r.registrationTs == cur.registrationTs
    ensures r.hostname == (if d.hostname == "" then d.ip else d.hostname)
    ensures Falsy(d.bandwidth) ==> r.bandwidth == Stored(Num(0.0))
    ensures !Falsy(d.bandwidth) ==> r.bandwidth == Stored(Num(d.bandwidth.value))
    ensures r.ip == d.ip && r.iface == d.iface && r.lastUpdate == d.lastUpdate
    ensures r.openTcpPorts == PortsText(d.openTcpPorts) && r.lastTcpUpdate == d.lastTcpUpdate
    ensures r.openUdpPorts == PortsText(d.openUdpPorts) && r.lastUdpUpdate == d.lastUdpUpdate
  {
    cur.(ip := d.ip,
         hostname := if d.hostname == "" then d.ip else d.hostname,
         bandwidth := Stored(Num(BandwidthOrZero(d.bandwidth))),
         iface := d.iface,
         lastUpdate := d.lastUpdate,
         openTcpPorts := PortsText(d.openTcpPorts),
         lastTcpUpdate := d.lastTcpUpdate,
         openUdpPorts := PortsText(d.openUdpPorts),
         lastUdpUpdate := d.lastUdpUpdate)
  }

  /** What the merge leaves under one reported MAC: the refreshed known device, or a new
      device record with the fresh id `newId(mac)`. */
  function Merged(devs: Dict<Device>, mac: string, d: DeviceReport, vlan: string, newId: string -> string): Device {
    if mac in devs.vals then UpdateDeviceCurrentData(devs.vals[mac], d)
    else DeviceSchema(mac, d, vlan, newId(mac))
  }

  /** One iteration of the loop over `Object.entries(ws_data)`. */
  function UpsertOne(devs: Dict<Device>, mac: string, d: DeviceReport, vlan: string, newId: string -> string): (r: Dict<Device>)
    ensures devs.Valid() ==> r.Valid()
    ensures r.vals == devs.vals[mac := Merged(devs, mac, d, vlan, newId)]
  {
    devs.Put(mac, Merged(devs, mac, d, vlan, newId))
  }

  /** The loop body applied to the reported MACs `macs`, in order. */
  function UpsertAll(devs: Dict<Device>, macs: seq<string>, rep: map<string, DeviceReport>, vlan: string,
                     newId: string -> string): Dict<Device>
    requires forall m :: m in macs ==> m in rep
    decreases |macs|
  {
    if macs == [] then devs
    else UpsertAll(UpsertOne(devs, macs[0], rep[macs[0]], vlan, newId), macs[1..], rep, vlan, newId)
  }

  /** `UpdateDevicesData(agent_devices, ws_data, vlan_name)`; `newId` supplies the fresh
      ObjectID of a device seen for the first time. */
  function UpdateDevicesData(devs: Dict<Device>, report: Dict<DeviceReport>, vlan: string,
                             newId: string -> string): (r: Dict<Device>)
    requires report.Valid()
    ensures devs.Valid() ==> r.Valid()
    ensures r.vals.Keys == devs.vals.Keys + report.vals.Keys
    ensures forall k :: k in devs.vals && k !in report.vals ==> r.vals[k] == devs.vals[k]
    ensures forall k :: k in report.vals ==> r.vals[k] == Merged(devs, k, report.vals[k], vlan, newId)
    ensures report.vals.Keys <= devs.vals.Keys ==> r.keys == devs.keys
  {
    assert Distinct(report.keys);
    UpsertAllFacts(devs, report.keys, report.vals, vlan, newId);
    UpsertAll(devs, report.keys, report.vals, vlan, newId)
  }

  predicate Distinct(s: seq<string>) {
    forall i, j :: 0 <= i < j < |s| ==> s[i] != s[j]
  }

  lemma DistinctTail(s: seq<string>)
    requires s != [] && Distinct(s)
    ensures Distinct(s[1..]) && s[0] !in s[1..]
  {
    forall i, j | 0 <= i < j < |s[1..]| ensures s[1..][i] != s[1..][j] {
      assert s[1..][i] == s[i + 1] && s[1..][j] == s[j + 1];
    }
    forall i | 0 <= i < |s[1..]| ensures s[1..][i] != s[0] {
      assert s[1..][i] == s[i + 1];
    }
  }

  /** The merge adds exactly the reported MACs to the key set and keeps the map well formed. */
  lemma {:induction false} UpsertAllKeys(devs: Dict<Device>, macs: seq<string>, rep: map<string, DeviceReport>,
                                         vlan: string, newId: string -> string)
    requires forall m :: m in macs ==> m in rep
    decreases |macs|
    ensures var r := UpsertAll(devs, macs, rep, vlan, newId);
      && (devs.Valid() ==> r.Valid())
      && r.vals.Keys == devs.vals.Keys + (set m | m in macs)
      && ((forall k :: k in macs ==> k in devs.vals) ==> r.keys == devs.keys)
  {
    if macs != [] {
      var m := macs[0];
      var devs1 := UpsertOne(devs, m, rep[m], vlan, newId);
      assert UpsertAll(devs, macs, rep, vlan, newId) == UpsertAll(devs1, macs[1..], rep, vlan, newId);
      UpsertAllKeys(devs1, macs[1..], rep, vlan, newId);
      assert forall x :: x in macs <==> x == m || x in macs[1..] by {
        assert macs == [m] + macs[1..];
      }
      assert (set x | x in macs) == {m} + (set x | x in macs[1..]);
    }
  }

  /** Devices the report does not mention are left as they were. */
  lemma {:induction false} UpsertAllFrame(devs: Dict<Device>, macs: seq<string>, rep: map<string, DeviceReport>,
                                          vlan: string, newId: string -> string, k: string)
    requires forall m :: m in macs ==> m in rep
    requires k in devs.vals && k !in macs
    decreases |macs|
    ensures var r := UpsertAll(devs, macs, rep, vlan, newId);
      k in r.vals && r.vals[k] == devs.vals[k]
  {
    if macs != [] {
      var m := macs[0];
      var devs1 := UpsertOne(devs, m, rep[m], vlan, newId);
      assert macs == [m] + macs[1..];
      UpsertAllFrame(devs1, macs[1..], rep, vlan, newId, k);
    }
  }

  /** Each reported MAC ends up holding its merged record. */
  lemma {:induction false} UpsertAllPoint(devs: Dict<Device>, macs: seq<string>, rep: map<string, DeviceReport>,
                                          vlan: string, newId: string -> string, k: string)
    requires forall m :: m in macs ==> m in rep
    requires Distinct(macs) && k in macs
    decreases |macs|
    ensures var r := UpsertAll(devs, macs, rep, vlan, newId);
      k in r.vals && r.vals[k] == Merged(devs, k, rep[k], vlan, newId)
  {
    var m := macs[0];
    var devs1 := UpsertOne(devs, m, rep[m], vlan, newId);
    DistinctTail(macs);
    assert macs == [m] + macs[1..];
    if k == m {
      UpsertAllFrame(devs1, macs[1..], rep, vlan, newId, k);
    } else {
      UpsertAllPoint(devs1, macs[1..], rep, vlan, newId, k);
      assert Merged(devs1, k, rep[k], vlan, newId) == Merged(devs, k, rep[k], vlan, newId);
    }
  }

  lemma UpsertAllFacts(devs: Dict<Device>, macs: seq<string>, rep: map<string, DeviceReport>,
                       vlan: string, newId: string -> string)
    requires forall m :: m in macs ==> m in rep
    requires Distinct(macs)
    ensures var r := UpsertAll(devs, macs, rep, vlan, newId);
      && (devs.Valid() ==> r.Valid())
      && r.vals.Keys == devs.vals.Keys + (set m | m in macs)
      && (forall k :: k in devs.vals && k !in macs ==> r.vals[k] == devs.vals[k])
      && (forall k :: k in macs ==> r.vals[k] == Merged(devs, k, rep[k], vlan, newId))
      && ((forall k :: k in macs ==> k in devs.vals) ==> r.keys == devs.keys)
  {
    UpsertAllKeys(devs, macs, rep, vlan, newId);
    forall k | k in devs.vals && k !in macs
      ensures UpsertAll(devs, macs, rep, vlan, newId).vals[k] == devs.vals[k]
    {
      UpsertAllFrame(devs, macs, rep, vlan, newId, k);
    }
    forall k | k in macs
      ensures UpsertAll(devs, macs, rep, vlan, newId).vals[k] == Merged(devs, k, rep[k], vlan, newId)
    {
      UpsertAllPoint(devs, macs, rep, vlan, newId, k);
    }
  }

  /** A reported device's fields are refreshed the same way twice as once. */
  lemma UpdateDeviceCurrentDataIdempotent(cur: Device, d: DeviceReport)
    ensures UpdateDeviceCurrentData(UpdateDeviceCurrentData(cur, d), d) == UpdateDeviceCurrentData(cur, d)
  {
  }

  /** Merging the same report twice leaves the same device map as merging it once, when
      every reported bandwidth is falsy or numeric (see `NaNBandwidthZeroedOnRefresh`). */
  lemma UpdateDevicesDataIdempotent(devs: Dict<Device>, report: Dict<DeviceReport>, vlan: string,
                                    newId: string -> string)
    requires report.Valid()
    requires forall k :: k in report.vals ==> NumericBandwidth(report.vals[k])
    ensures var once := UpdateDevicesData(devs, report, vlan, newId);
      UpdateDevicesData(once, report, vlan, newId) == once
  {
    var once := UpdateDevicesData(devs, report, vlan, newId);
    var twice := UpdateDevicesData(once, report, vlan, newId);
    assert twice.vals.Keys == once.vals.Keys;
    forall k | k in once.vals
      ensures twice.vals[k] == once.vals[k]
    {
      if k in report.vals {
        ReportedStable(devs, report, vlan, newId, k);
      }
    }
    SameMaps(twice.vals, once.vals);
  }

  lemma SameMaps<V>(a: map<string, V>, b: map<string, V>)
    requires a.Keys == b.Keys && forall k :: k in b ==> a[k] == b[k]
    ensures a == b
  {
  }

  /** A reported MAC holds the same record after a second merge of the same report. */
  lemma ReportedStable(devs: Dict<Device>, report: Dict<DeviceReport>, vlan: string, newId: string -> string, k: string)
    requires report.Valid() && k in report.vals && NumericBandwidth(report.vals[k])
    ensures var once := UpdateDevicesData(devs, report, vlan, newId);
      k in once.vals && UpdateDevicesData(once, report, vlan, newId).vals[k] == once.vals[k]
  {
    var once := UpdateDevicesData(devs, report, vlan, newId);
    var d := report.vals[k];
    assert UpdateDevicesData(once, report, vlan, newId).vals[k] == UpdateDeviceCurrentData(once.vals[k], d);
    if k in devs.vals {
      assert once.vals[k] == UpdateDeviceCurrentData(devs.vals[k], d);
      UpdateDeviceCurrentDataIdempotent(devs.vals[k], d);
    } else {
      assert once.vals[k] == DeviceSchema(k, d, vlan, newId(k));
      SchemaRefreshStable(k, d, vlan, newId(k));
    }
  }

  /** Refreshing a freshly built record with the report it was built from changes nothing,
      when the bandwidth is falsy or numeric. */
  lemma SchemaRefreshStable(mac: string, d: DeviceReport, vlan: string, freshId: string)
    requires NumericBandwidth(d)
    ensures UpdateDeviceCurrentData(DeviceSchema(mac, d, vlan, freshId), d) == DeviceSchema(mac, d, vlan, freshId)
  {
  }

  /** A truthy non-numeric bandwidth is stored as NaN when the device is first seen, and
      as 0 when the same report refreshes it: the two builders test falsiness on either
      side of `Number`. */
  lemma NaNBandwidthZeroedOnRefresh(mac: string, d: DeviceReport, vlan: string, freshId: string)
    requires d.bandwidthTruthy && d.bandwidth.None?
    ensures DeviceSchema(mac, d, vlan, freshId).bandwidth == NaN
    ensures UpdateDeviceCurrentData(DeviceSchema(mac, d, vlan, freshId), d).bandwidth == Stored(Num(0.0))
  {
  }

  /** `ProcessDevicesData(db, ws_data, vlan_name)`: the sending agent's visible devices are
      merged with the report and its bandwidth and refresh time are set; a message from an
      unregistered agent changes nothing. `agentBandwidth` is `ws_data.agent_bandwidth` as sent
      (None when absent), stored without coercion. */
  function ProcessDevicesData(db: Db, agentId: string, report: Dict<DeviceReport>, agentBandwidth: Option<Json>,
                              vlan: string, now: int, newId: string -> string): (r: Db)
    requires report.Valid()
    ensures agentId !in db.agents.vals ==> r == db
    ensures agentId in db.agents.vals ==>
      var before := db.agents.vals[agentId];
      && r.agents.keys == db.agents.keys && agentId in r.agents.vals
      && r.agents.vals == db.agents.vals[agentId := r.agents.vals[agentId]]
      && r.agents.vals[agentId].visibleDevices == UpdateDevicesData(before.visibleDevices, report, vlan, newId)
      && r.agents.vals[agentId].device == before.device.(lastUpdate := now, bandwidth := Stored(OrZero(agentBandwidth)))
      && r.agents.vals[agentId].substationName == before.substationName
      && r.agents.vals[agentId].linkData == before.linkData
    ensures r.notifications == db.notifications && r.ifaces == db.ifaces && r.ids == db.ids
      && r.vlanTraffic == db.vlanTraffic && r.nodeTraffic == db.nodeTraffic
  {
    if agentId in db.agents.vals then
      var before := db.agents.vals[agentId];
      var after := before.(visibleDevices := UpdateDevicesData(before.visibleDevices, report, vlan, newId),
                           device := before.device.(lastUpdate := now, bandwidth := Stored(OrZero(agentBandwidth))));
      db.(agents := db.agents.Put(agentId, after))
    else db
  }
}
