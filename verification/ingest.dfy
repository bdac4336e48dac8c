/** Message validation and dispatch (`ProcessWebsocketData`) and the append-only IDS
    bundles (`ProcessIDSData`) of backend/websocket_servers/agent_socket/process_data.js. */
module Ingest {
  import opened Common
  import opened Dict
  import opened Json
  import opened Schemas
  import opened Merge
  import opened Links
  import opened Rollup

  /** `Number.isInteger(x)`. */
  predicate IsInteger(j: Option<Json>) {
    j.Some? && j.value.Num? && j.value.r == (j.value.r.Floor as real)
  }

  /** The annotation loop body of `ProcessIDSData`: VLAN and reporting agent are recorded,
      and a `blocked_on` that is not an integer becomes 0. */
  function AnnotateEvent(e: Dict<Json>, vlan: string, phxBox: string): (r: Dict<Json>)
    ensures e.Valid() ==> r.Valid()
    ensures r.Get("vlan") == Some(Str(vlan)) && r.Get("phx_box") == Some(Str(phxBox))
    ensures IsInteger(r.Get("blocked_on"))
    ensures IsInteger(e.Get("blocked_on")) ==> r.Get("blocked_on") == e.Get("blocked_on")
    ensures !IsInteger(e.Get("blocked_on")) ==> r.Get("blocked_on") == Some(Num(0.0))
    ensures forall k :: k in e.vals && k != "vlan" && k != "phx_box" && k != "blocked_on" ==>
      k in r.vals && r.vals[k] == e.vals[k]
  {
    var e1 := e.Put("vlan", Str(vlan)).Put("phx_box", Str(phxBox));
    if IsInteger(e1.Get("blocked_on")) then e1 else e1.Put("blocked_on", Num(0.0))
  }

  function AnnotateAll(events: seq<Dict<Json>>, vlan: string, phxBox: string): (r: seq<Dict<Json>>)
    ensures |r| == |events|
    ensures forall i :: 0 <= i < |events| ==> r[i] == AnnotateEvent(events[i], vlan, phxBox)
  {
    if events == [] then []
    else [AnnotateEvent(events[0], vlan, phxBox)] + AnnotateAll(events[1..], vlan, phxBox)
  }

  /** `ProcessIDSData(db, ws_data, vlan_name)`: for a registered agent, the annotated events
      are appended to its IDS document, which is created on the first batch. */
  function ProcessIdsData(db: Db, agentId: string, events: seq<Dict<Json>>, vlan: string, now: int): (r: Db)
    ensures agentId !in db.agents.vals ==> r == db
    ensures agentId in db.agents.vals ==>
      var added := AnnotateAll(events, vlan, db.agents.vals[agentId].device.hostname);
      && agentId in r.ids.vals
      && r.ids.vals[agentId].events == (if agentId in db.ids.vals then db.ids.vals[agentId].events else []) + added
      && r.ids.vals[agentId].vlan == (if agentId in db.ids.vals then db.ids.vals[agentId].vlan else vlan)
    ensures forall k :: k in db.ids.vals && k != agentId ==> k in r.ids.vals && r.ids.vals[k] == db.ids.vals[k]
    ensures r.agents == db.agents && r.ifaces == db.ifaces && r.notifications == db.notifications
      && r.vlanTraffic == db.vlanTraffic && r.nodeTraffic == db.nodeTraffic
  {
    if agentId !in db.agents.vals then db
    else
      var added := AnnotateAll(events, vlan, db.agents.vals[agentId].device.hostname);
      if agentId in db.ids.vals then
        var b := db.ids.vals[agentId];
        db.(ids := db.ids.Put(agentId, b.(events := b.events + added, lastUpdate := now)))
      else
        db.(ids := db.ids.Put(agentId, IdsEventsSchema(agentId, vlan, added, now)))
  }

  /** Two batches from the same agent are stored in arrival order. */
  lemma IdsAppendOnly(db: Db, agentId: string, first: seq<Dict<Json>>, second: seq<Dict<Json>>, vlan: string, t1: int, t2: int)
    requires agentId in db.agents.vals && agentId !in db.ids.vals
    ensures var h := db.agents.vals[agentId].device.hostname;
      var after := ProcessIdsData(ProcessIdsData(db, agentId, first, vlan, t1), agentId, second, vlan, t2);
      after.ids.vals[agentId].events == AnnotateAll(first, vlan, h) + AnnotateAll(second, vlan, h)
  {
  }

  /** What the store, clock and decoders supply to one message. The decoders stand for the
      `String`/`Number`/`new Date`/`JSON.parse` coercions applied to the `data` payload;
      `idsOf` is None for payload shapes the model does not cover. */
  datatype Env = Env(
    parse: string -> Option<Json>,
    md5: string -> string,
    newId: string -> string,
    now: int,
    today: string,
    devicesOf: Json -> Dict<DeviceReport>,
    linksOf: Json -> seq<LinkReport>,
    ifacesOf: Json -> seq<Iface>,
    idsOf: Json -> Option<seq<Dict<Json>>>)

  /** A decoded `devices_data` payload is a well-formed object: its MACs are distinct. */
  ghost predicate DecodersValid(env: Env) {
    forall j :: env.devicesOf(j).Valid()
  }

  /** The checks `ProcessWebsocketData` makes before dispatching: the message decodes to an
      object with own keys msg_type, data and agent_id, and data and agent_id are truthy. */
  predicate WellFormed(m: Json) {
    && m.Obj?
    && "msg_type" in m.fields.vals && "data" in m.fields.vals && "agent_id" in m.fields.vals
    && Truthy(m.fields.vals["data"]) && Truthy(m.fields.vals["agent_id"])
  }

  const MessageTypes: set<string> := {"devices_data", "link_data", "ids_data", "iface_data"}

  /** The agent id as a store key. A non-string id matches no stored document. */
  function AgentKey(j: Json): Option<string> {
    if j.Str? then Some(j.s) else None
  }

  /** The message decodes, passes the checks, has a string agent id and the type `t`. */
  predicate Routed(msg: Raw, env: Env, t: string) {
    var m := IsValidJson(msg, env.parse);
    && m.Some? && WellFormed(m.value)
    && m.value.fields.vals["agent_id"].Str?
    && m.value.fields.vals["msg_type"] == Str(t)
  }

  /** `ProcessWebsocketData(db, data, vlan_name)`: a message that fails a check is dropped,
      and a checked one is handed to the handler its `msg_type` names, with its payload. */
  function ProcessWebsocketData(db: Db, msg: Raw, vlan: string, env: Env): (r: Db)
    requires DecodersValid(env)
    ensures IsValidJson(msg, env.parse).None? ==> r == db
    ensures IsValidJson(msg, env.parse).Some? && !WellFormed(IsValidJson(msg, env.parse).value) ==> r == db
    ensures IsValidJson(msg, env.parse).Some? && WellFormed(IsValidJson(msg, env.parse).value) ==>
      var t := IsValidJson(msg, env.parse).value.fields.vals["msg_type"];
      !(t.Str? && t.s in MessageTypes) ==> r == db
    ensures r.notifications == db.notifications
    ensures Routed(msg, env, "devices_data") ==>
      var f := IsValidJson(msg, env.parse).value.fields;
      r == ProcessDevicesData(db, f.vals["agent_id"].s, env.devicesOf(f.vals["data"]), f.Get("agent_bandwidth"),
                              vlan, env.now, env.newId)
    ensures Routed(msg, env, "link_data") ==>
      var f := IsValidJson(msg, env.parse).value.fields;
      r == ProcessLinkData(db, f.vals["agent_id"].s, env.linksOf(f.vals["data"]), vlan, env.md5, env.now)
    ensures Routed(msg, env, "ids_data") ==>
      var f := IsValidJson(msg, env.parse).value.fields;
      var events := env.idsOf(f.vals["data"]);
      r == (if events.Some? then ProcessIdsData(db, f.vals["agent_id"].s, events.value, vlan, env.now) else db)
    ensures Routed(msg, env, "iface_data") ==>
      var f := IsValidJson(msg, env.parse).value.fields;
      r == ProcessInterfaceData(db, f.vals["agent_id"].s, env.ifacesOf(f.vals["data"]), vlan, env.today, env.now)
  {
    var m := IsValidJson(msg, env.parse);
    if m.None? || !WellFormed(m.value) then db
    else
      var f := m.value.fields;
      var data := f.vals["data"];
      var key := AgentKey(f.vals["agent_id"]);
      match f.vals["msg_type"]
      case Str(t) =>
        if key.None? then db
        else if t == "devices_data" then
          ProcessDevicesData(db, key.value, env.devicesOf(data), f.Get("agent_bandwidth"), vlan, env.now, env.newId)
        else if t == "link_data" then
          ProcessLinkData(db, key.value, env.linksOf(data), vlan, env.md5, env.now)
        else if t == "ids_data" then
          match env.idsOf(data)
          case Some(events) => ProcessIdsData(db, key.value, events, vlan, env.now)
          case None => db
        else if t == "iface_data" then
          ProcessInterfaceData(db, key.value, env.ifacesOf(data), vlan, env.today, env.now)
        else db
      case _ => db
  }

  /** A message without a truthy `data` payload is dropped whatever its type. */
  lemma EmptyPayloadDropped(db: Db, fields: Dict<Json>, vlan: string, env: Env)
    requires DecodersValid(env)
    requires fields.Valid() && "data" in fields.vals && !Truthy(fields.vals["data"])
    ensures ProcessWebsocketData(db, Value(Obj(fields)), vlan, env) == db
  {
  }
}
