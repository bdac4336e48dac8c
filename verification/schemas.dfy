/** The stored documents of the backend and the builders that create them
    (backend/utils/schemas.js). The document store itself is plain data: one
    ordered collection per MongoDB collection, keyed by the document's `_id`. */
module Schemas {
  import opened Common
  import opened Dict
  import opened Json
  import opened ChartDate

  const PhoenixBox := "Phoenix Box"
  const DeviceType := "Device"

  /** Open-port text of a device, or the empty list `[]` an agent record starts with. */
  datatype Ports = PortsText(text: string) | NoPorts

  /** A stored bandwidth: a JSON value, or NaN (what `Number` makes of a non-numeric
      text), which the store keeps as a number but JSON cannot express. */
  datatype Bandwidth = Stored(j: Json) | NaN

  /** A device record. An agent record holds one of these as its device part. */
  datatype Device = Device(
    id: string,
    status: string,
    kind: string,
    mac: string,
    ip: string,
    hostname: string,
    iface: string,
    vlan: string,
    bandwidth: Bandwidth,
    lastUpdate: int,
    registrationTs: int,
    openTcpPorts: Ports,
    lastTcpUpdate: int,
    openUdpPorts: Ports,
    lastUdpUpdate: int)

  /** One entry of a `devices_data` report, after `String`/`Number` coercion.
      An empty `hostname` stands for a missing or falsy one; `bandwidth` is
      `Number(bandwidth)`, None when that is NaN (an absent field among others), and
      `bandwidthTruthy` says whether the field as sent is truthy. */
  datatype DeviceReport = DeviceReport(
    ip: string,
    hostname: string,
    bandwidth: Option<real>,
    bandwidthTruthy: bool,
    iface: string,
    lastUpdate: int,
    registrationTs: int,
    openTcpPorts: string,
    lastTcpUpdate: int,
    openUdpPorts: string,
    lastUdpUpdate: int)

  /** One raw link measurement sent by an agent. `time` is `new Date(timestamp).getTime()`
      (None for an invalid date); `attributes` is `JSON.parse(attributes)` (None when it
      throws); `quality` is `Number(attributes.linkQuality)` (None for NaN). */
  datatype LinkReport = LinkReport(
    status: string,
    srcIp: string,
    srcMac: string,
    dstIp: string,
    dstMac: string,
    time: Option<int>,
    attributes: Option<Json>,
    quality: Option<real>)

  /** A stored link: the report plus the resolved endpoint ids (None for `undefined`),
      the batch-unique id and the final status. */
  datatype Link = Link(report: LinkReport, srcId: Option<string>, dstId: Option<string>, id: string, status: string)

  /** An agent ("Phoenix Box") record; `device.id` is both `_id` and `id`. */
  datatype Agent = Agent(device: Device, substationName: string, visibleDevices: Dict<Device>, linkData: seq<Link>)

  /** The connection-time data of an agent (`agent_data` in ProcessWebsocketConnection). */
  datatype AgentData = AgentData(
    id: string,
    hostname: string,
    substationName: Option<string>,
    mac: string,
    ip: string,
    iface: Json,
    vlan: string)

  datatype Notification = Notification(ts: int, kind: string, message: string)

  /** Counters of one network interface as sent in `iface_data` (after `Number`). */
  datatype Iface = Iface(
    ip: Option<seq<string>>,
    txBytes: int, txPackets: int, txDropped: int,
    rxBytes: int, rxPackets: int, rxDropped: int)

  /** The interface document of an agent: `Object.values(ifaces_data)` in order. */
  datatype IfacesDoc = IfacesDoc(agentId: string, vlan: string, ifaces: seq<Iface>, lastUpdate: int)

  datatype Counters = Counters(
    txBytes: int, txPackets: int, txDropped: int,
    rxBytes: int, rxPackets: int, rxDropped: int)

  datatype RxTx = RxTx(rx: int, tx: int)

  /** A daily series kept as two parallel arrays. */
  datatype Series = Series(date: seq<string>, value: seq<RxTx>)

  /** A traffic rollup document. VLAN documents have no hostname; node documents do. */
  datatype TrafficDoc = TrafficDoc(hostname: Option<string>, vlan: string, total: Counters, series: Series, lastUpdate: int)

  /** The IDS document of an agent; events are kept as the JSON objects the agent sent. */
  datatype IdsBundle = IdsBundle(agentId: string, vlan: string, lastUpdate: int, events: seq<Dict<Json>>)

  /** The document store, one collection per field, in insertion order. */
  datatype Db = Db(
    agents: Dict<Agent>,
    notifications: seq<Notification>,
    ifaces: Dict<IfacesDoc>,
    vlanTraffic: Dict<TrafficDoc>,
    nodeTraffic: Dict<TrafficDoc>,
    ids: Dict<IdsBundle>)

  /** `!x` for a number that may be NaN. */
  predicate Falsy(n: Option<real>) {
    n.None? || n.value == 0.0
  }

  /** `Number(bandwidth)` with a falsy value replaced by 0. */
  function BandwidthOrZero(n: Option<real>): (r: real)
    ensures Falsy(n) ==> r == 0.0
    ensures !Falsy(n) ==> Some(r) == n
  {
    if Falsy(n) then 0.0 else n.value
  }

  /** `x || 0` of an optional field: a truthy value is kept as it is, anything else is 0. */
  function OrZero(raw: Option<Json>): (r: Json)
    ensures raw.Some? && Truthy(raw.value) ==> r == raw.value
    ensures raw.None? || !Truthy(raw.value) ==> r == Num(0.0)
  {
    if raw.Some? && Truthy(raw.value) then raw.value else Num(0.0)
  }

  /** `Number(x)` as stored: a number, or NaN. */
  function NumberOf(n: Option<real>): (r: Bandwidth)
    ensures r.NaN? <==> n.None?
    ensures n.Some? ==> r == Stored(Num(n.value))
  {
    if n.Some? then Stored(Num(n.value)) else NaN
  }

  /** `Number` of a falsy value is 0 or NaN: what any decoded report satisfies. */
  predicate CoherentBandwidth(d: DeviceReport) {
    !d.bandwidthTruthy ==> Falsy(d.bandwidth)
  }

  /** The bandwidth as sent is falsy, or a text `Number` accepts. */
  predicate NumericBandwidth(d: DeviceReport) {
    CoherentBandwidth(d) && (d.bandwidthTruthy ==> d.bandwidth.Some?)
  }

  /** `getDeviceSchema(mac, device_data, vlan_name)`; `freshId` is the new ObjectID. The
      falsy test comes before `Number`, so a truthy non-numeric bandwidth is stored as NaN. */
  function DeviceSchema(mac: string, d: DeviceReport, vlan: string, freshId: string): (r: Device)
    ensures r.hostname == (if d.hostname == "" then d.ip else d.hostname)
    ensures !d.bandwidthTruthy ==> r.bandwidth == Stored(Num(0.0))
    ensures d.bandwidthTruthy && d.bandwidth.None? ==> r.bandwidth == NaN
    ensures d.bandwidthTruthy && d.bandwidth.Some? ==> r.bandwidth == Stored(Num(d.bandwidth.value))
    ensures r.status == "up" && r.kind == DeviceType
    ensures r.id == freshId && r.mac == mac && r.ip == d.ip && r.vlan == vlan
    ensures r.iface == d.iface && r.lastUpdate == d.lastUpdate && r.registrationTs == d.registrationTs
    ensures r.openTcpPorts == PortsText(d.openTcpPorts) && r.lastTcpUpdate == d.lastTcpUpdate
    ensures r.openUdpPorts == PortsText(d.openUdpPorts) && r.lastUdpUpdate == d.lastUdpUpdate
  {
    Device(
      freshId, "up", DeviceType, mac, d.ip,
      if d.hostname == "" then d.ip else d.hostname,
      d.iface, vlan, if d.bandwidthTruthy then NumberOf(d.bandwidth) else Stored(Num(0.0)),
      d.lastUpdate, d.registrationTs,
      PortsText(d.openTcpPorts), d.lastTcpUpdate, PortsText(d.openUdpPorts), d.lastUdpUpdate)
  }

  /** `String(x)` of an optional header value: `undefined` renders as "undefined". */
  function JsText(o: Option<string>): string {
    match o
    case Some(s) => s
    case None => "undefined"
  }

  /** `getAgentSchema(agent_data)` at clock reading `now`; `stringify` is `JSON.stringify`.
      The record is a device record for the agent's own MAC, retyped and re-keyed. */
  function AgentSchema(a: AgentData, now: int, stringify: Json -> string): (r: Agent)
    ensures r.device.kind == PhoenixBox && r.device.status == "up"
    ensures r.device.id == a.id && r.device.mac == a.mac && r.device.ip == a.ip && r.device.vlan == a.vlan
    ensures r.device.hostname == (if a.hostname == "" then a.ip else a.hostname)
    ensures r.device.iface == stringify(a.iface) && r.device.bandwidth == Stored(Num(0.0))
    ensures r.device.lastUpdate == now && r.device.registrationTs == r.device.lastUpdate
    ensures r.device.openTcpPorts == NoPorts && r.device.lastTcpUpdate == 0
    ensures r.device.openUdpPorts == NoPorts && r.device.lastUdpUpdate == 0
    ensures r.substationName == JsText(a.substationName)
    ensures r.visibleDevices == Empty() && r.linkData == []
  {
    var base := DeviceSchema(a.mac, DeviceReport(a.ip, a.hostname, None, false, "", 0, 0, "", 0, "", 0), a.vlan, a.id);
    var dev := base.(kind := PhoenixBox, iface := stringify(a.iface), lastUpdate := now, registrationTs := now,
                     openTcpPorts := NoPorts, lastTcpUpdate := 0, openUdpPorts := NoPorts, lastUdpUpdate := 0);
    Agent(dev, JsText(a.substationName), Empty(), [])
  }

  /** `getNotificationSchema(message, type, utc_milliseconds)`: a missing or falsy
      timestamp (None or 0) becomes `now`. */
  function NotificationSchema(message: string, kind: string, ts: Option<int>, now: int): (r: Notification)
    ensures ts.Some? && ts.value != 0 ==> r.ts == ts.value
    ensures ts.None? || ts.value == 0 ==> r.ts == now
    ensures r.kind == kind && r.message == message
  {
    Notification(if ts.Some? && ts.value != 0 then ts.value else now, kind, message)
  }

  /** `getIfacesDataSchema(agent_id, ws_data, vlan_name)`. The source stores the interface
      map as a JSON string here; the model keeps the decoded interfaces. */
  function IfacesDataSchema(agentId: string, ifaces: seq<Iface>, vlan: string, now: int): (r: IfacesDoc)
    ensures r.agentId == agentId && r.vlan == vlan && r.ifaces == ifaces && r.lastUpdate == now
  {
    IfacesDoc(agentId, vlan, ifaces, now)
  }

  /** The one-point series a new rollup starts with: today's label and the raw totals. */
  function SeedSeries(total: Counters, today: string): (r: Series)
    ensures r.date == [today] && r.value == [RxTx(total.rxBytes, total.txBytes)]
  {
    Series([today], [RxTx(total.rxBytes, total.txBytes)])
  }

  /** `getVlanTrafficTsSchema(all_time_traffic, vlan_name)`. */
  function VlanTrafficSchema(total: Counters, vlan: string, today: string, now: int): (r: TrafficDoc)
    ensures r.hostname.None? && r.vlan == vlan && r.total == total && r.lastUpdate == now
    ensures r.series.date == [today] && r.series.value == [RxTx(total.rxBytes, total.txBytes)]
  {
    TrafficDoc(None, vlan, total, SeedSeries(total, today), now)
  }

  /** `getNodeTrafficTsSchema(all_time_traffic, agent_id, agent_hostname, vlan_name)`;
      the document is stored under the agent id. */
  function NodeTrafficSchema(total: Counters, hostname: string, vlan: string, today: string, now: int): (r: TrafficDoc)
    ensures r.hostname == Some(hostname) && r.vlan == vlan && r.total == total && r.lastUpdate == now
    ensures r.series.date == [today] && r.series.value == [RxTx(total.rxBytes, total.txBytes)]
  {
    TrafficDoc(Some(hostname), vlan, total, SeedSeries(total, today), now)
  }

  /** `getIDSEventsSchema(agent_id, vlan_name, ids_events)`. */
  function IdsEventsSchema(agentId: string, vlan: string, events: seq<Dict<Json>>, now: int): (r: IdsBundle)
    ensures r.agentId == agentId && r.vlan == vlan && r.events == events && r.lastUpdate == now
  {
    IdsBundle(agentId, vlan, now, events)
  }
}
