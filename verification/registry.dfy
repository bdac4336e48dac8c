/** Agent registration and liveness: `RegisterAgent` (backend/utils/db_utils.js) and
    `ProcessWebsocketConnection` / `ProcessDisconnection`
    (backend/websocket_servers/agent_socket/process_data.js). Store writes are modelled
    as the returned store; database errors are not modelled. */
module Registry {
  import opened Common
  import opened Dict
  import opened Json
  import opened Schemas

  datatype Registration = Exists | Inserted

  /** The yellow notification text for a known agent that reconnects with other
      addresses: the IP change wins over the MAC change. None when nothing changed. */
  function AddressChangeMessage(stored: Device, a: AgentData): (r: Option<string>)
    ensures r.None? <==> stored.mac == a.mac && stored.ip == a.ip
    ensures stored.ip != a.ip ==>
      r == Some("Agent " + a.id + " changed IP address from " + stored.ip + " to " + a.ip)
    ensures stored.ip == a.ip && stored.mac != a.mac ==>
      r == Some("Agent " + a.id + " changed MAC address from " + stored.mac + " to " + a.mac)
  {
    if stored.mac != a.mac || stored.ip != a.ip then
      if stored.ip != a.ip then
        Some("Agent " + a.id + " changed IP address from " + stored.ip + " to " + a.ip)
      else
        // The third message of the source ("changed MAC and IP addresses") is unreachable:
        // one of the two tests above has already succeeded.
        Some("Agent " + a.id + " changed MAC address from " + stored.mac + " to " + a.mac)
    else None
  }

  /** `RegisterAgent(db, agent_data)`: a known id keeps its record and may log a yellow
      notification; an unknown id inserts a fresh agent record. */
  function RegisterAgent(db: Db, a: AgentData, now: int, stringify: Json -> string): (r: (Db, Registration))
    ensures a.id in db.agents.vals ==> r.1 == Exists && r.0.agents == db.agents
    ensures a.id !in db.agents.vals ==>
      r.1 == Inserted && r.0.agents == db.agents.Put(a.id, AgentSchema(a, now, stringify))
      && r.0.notifications == db.notifications
    ensures a.id in db.agents.vals ==>
      var msg := AddressChangeMessage(db.agents.vals[a.id].device, a);
      r.0.notifications == db.notifications + (if msg.Some? then [Notification(now, "yellow", msg.value)] else [])
    ensures r.0.ifaces == db.ifaces && r.0.vlanTraffic == db.vlanTraffic
      && r.0.nodeTraffic == db.nodeTraffic && r.0.ids == db.ids
  {
    if a.id in db.agents.vals then
      var msg := AddressChangeMessage(db.agents.vals[a.id].device, a);
      var notes := if msg.Some? then [NotificationSchema(msg.value, "yellow", None, now)] else [];
      (db.(notifications := db.notifications + notes), Exists)
    else
      (db.(agents := db.agents.Put(a.id, AgentSchema(a, now, stringify))), Inserted)
  }

  /** The headers of the agent's websocket upgrade request; None stands for a missing header. */
  datatype Headers = Headers(
    ifaces: Option<string>,
    id: Option<string>,
    hostname: Option<string>,
    substationName: Option<string>,
    mac: Option<string>,
    ip: Option<string>)

  predicate Present(h: Option<string>) {
    h.Some? && h.value != ""
  }

  /** The header fields the backend insists on: id, mac, ip and hostname are truthy. */
  predicate RequiredHeaders(h: Headers) {
    Present(h.id) && Present(h.mac) && Present(h.ip) && Present(h.hostname)
  }

  function HeaderJson(h: Option<string>): Raw {
    match h
    case Some(s) => Value(Str(s))
    case None => Undefined
  }

  /** Sets the status and refresh time of a stored agent; an unknown id changes nothing
      (an `updateOne` that matches no document). */
  function SetAgentStatus(db: Db, id: string, status: string, now: int): (r: Db)
    ensures r.agents.keys == db.agents.keys && r.agents.vals.Keys == db.agents.vals.Keys
    ensures forall k :: k in db.agents.vals && k != id ==> r.agents.vals[k] == db.agents.vals[k]
    ensures id in db.agents.vals ==>
      var before := db.agents.vals[id];
      r.agents.vals[id] == before.(device := before.device.(status := status, lastUpdate := now))
    ensures r.notifications == db.notifications && r.ifaces == db.ifaces
      && r.vlanTraffic == db.vlanTraffic && r.nodeTraffic == db.nodeTraffic && r.ids == db.ids
  {
    if id in db.agents.vals then
      var before := db.agents.vals[id];
      db.(agents := db.agents.Put(id, before.(device := before.device.(status := status, lastUpdate := now))))
    else db
  }

  /** `ProcessWebsocketConnection(db, req, vlan_name)`: the connection is accepted with the
      agent's data, or refused with the source's error message. */
  function ProcessWebsocketConnection(db: Db, h: Headers, vlan: string, now: int,
                                      parse: string -> Option<Json>, stringify: Json -> string): (r: Result<(Db, AgentData)>)
    ensures r.Ok? <==> IsValidJson(HeaderJson(h.ifaces), parse).Some? && RequiredHeaders(h)
    ensures IsValidJson(HeaderJson(h.ifaces), parse).None? ==> r == Err("Not valid JSON object provided in header")
    ensures r.Ok? ==>
      var a := r.value.1;
      Some(a.id) == h.id && Some(a.mac) == h.mac && Some(a.ip) == h.ip && Some(a.hostname) == h.hostname
      && a.substationName == h.substationName && a.vlan == vlan
      && a.id in r.value.0.agents.vals && r.value.0.agents.vals[a.id].device.status == "up"
  {
    var ifaces := IsValidJson(HeaderJson(h.ifaces), parse);
    if ifaces.None? then Err("Not valid JSON object provided in header")
    else if RequiredHeaders(h) then
      var a := AgentData(h.id.value, h.hostname.value, h.substationName, h.mac.value, h.ip.value, ifaces.value, vlan);
      var (db1, outcome) := RegisterAgent(db, a, now, stringify);
      var db2 := if outcome == Exists then SetAgentStatus(db1, a.id, "up", now) else db1;
      Ok((db2, a))
    else Err("Not valid data were provided")
  }

  /** `ProcessDisconnection(db, agent)`: one red notification, then the agent goes down. */
  function ProcessDisconnection(db: Db, a: AgentData, now: int): (r: Db)
    ensures r.notifications == db.notifications + [Notification(now, "red", a.hostname + " disconnected. It may connect again!")]
    ensures a.id in db.agents.vals ==> a.id in r.agents.vals && r.agents.vals[a.id].device.status == "down"
    ensures r.agents.keys == db.agents.keys && r.agents.vals.Keys == db.agents.vals.Keys
    ensures forall k :: k in db.agents.vals && k != a.id ==> r.agents.vals[k] == db.agents.vals[k]
  {
    var note := NotificationSchema(a.hostname + " disconnected. It may connect again!", "red", None, now);
    SetAgentStatus(db.(notifications := db.notifications + [note]), a.id, "down", now)
  }

  /** An agent that connects twice with the same headers, starting from a store that does
      not know it, is registered once and produces no notification. */
  lemma ReconnectSameAddressesIsQuiet(db: Db, h: Headers, vlan: string, t1: int, t2: int,
                                      parse: string -> Option<Json>, stringify: Json -> string)
    requires ProcessWebsocketConnection(db, h, vlan, t1, parse, stringify).Ok?
    requires h.id.value !in db.agents.vals
    ensures var first := ProcessWebsocketConnection(db, h, vlan, t1, parse, stringify).value.0;
      var second := ProcessWebsocketConnection(first, h, vlan, t2, parse, stringify);
      second.Ok? && second.value.0.notifications == db.notifications
      && second.value.0.agents.keys == first.agents.keys
  {
  }

  /** A reconnect with a changed IP logs exactly one yellow notification naming the old
      and the new IP. */
  lemma ReconnectNewIpNotifies(db: Db, h: Headers, vlan: string, now: int,
                               parse: string -> Option<Json>, stringify: Json -> string)
    requires ProcessWebsocketConnection(db, h, vlan, now, parse, stringify).Ok?
    requires h.id.value in db.agents.vals && db.agents.vals[h.id.value].device.ip != h.ip.value
    ensures var r := ProcessWebsocketConnection(db, h, vlan, now, parse, stringify).value.0;
      var old_ip := db.agents.vals[h.id.value].device.ip;
      r.notifications == db.notifications
        + [Notification(now, "yellow", "Agent " + h.id.value + " changed IP address from " + old_ip + " to " + h.ip.value)]
  {
  }
}
