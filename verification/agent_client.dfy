/** The agent's change-detection filter, `filter_query_data` in agent/socket_client.py,
    with its two module-level trackers passed in and out explicitly. */
module AgentClient {
  import opened Common
  import opened Dict
  import opened Json

  /** The three timestamps the device tracker remembers per MAC. */
  datatype Stamps = Stamps(device: Json, tcp: Json, udp: Json)

  /** A row of the agent's device table; `row` is the whole record as it is sent. */
  datatype DeviceRow = DeviceRow(lastUpdate: Json, lastTcpUpdate: Json, lastUdpUpdate: Json, row: Dict<Json>)

  /** A row of the agent's interface table. */
  datatype IfaceRow = IfaceRow(lastUpdate: Json, row: Dict<Json>)

  /** `devices_update_timestamp` and `iface_update_timestamp`. */
  datatype Trackers = Trackers(devices: map<string, Stamps>, ifaces: map<string, Json>)

  function StampsOf(d: DeviceRow): Stamps {
    Stamps(d.lastUpdate, d.lastTcpUpdate, d.lastUdpUpdate)
  }

  function IfaceStamp(i: IfaceRow): Json {
    i.lastUpdate
  }

  /** A row is re-sent when its key is unseen or its remembered stamp differs. */
  predicate Changed<S(==)>(t: map<string, S>, k: string, s: S) {
    k !in t || t[k] != s
  }

  predicate Distinct(ks: seq<string>) {
    forall i, j :: 0 <= i < j < |ks| ==> ks[i] != ks[j]
  }

  /** The loop over `ks` (the query's keys, in order) shared by the device and interface
      branches: changed rows are collected into `out` and their stamps remembered. */
  function FilterChanged<R, S(==)>(t: map<string, S>, ks: seq<string>, q: map<string, R>, stamp: R -> S, out: Dict<R>)
    : (r: (map<string, S>, Dict<R>))
    decreases |ks|
    requires Distinct(ks) && (forall k :: k in ks ==> k in q) && out.Valid()
    requires forall k :: k in ks ==> k !in out.vals
    ensures r.1.Valid()
  {
    if ks == [] then (t, out)
    else
      var k := ks[0];
      var v := q[k];
      assert forall j :: 0 <= j < |ks[1..]| ==> ks[1..][j] == ks[j + 1];
      if Changed(t, k, stamp(v)) then
        FilterChanged(t[k := stamp(v)], ks[1..], q, stamp, out.Put(k, v))
      else
        FilterChanged(t, ks[1..], q, stamp, out)
  }

  /** The loop collects, after what `out` already held, exactly the rows whose stamp
      changed, unmodified. */
  lemma {:induction false} FilterChangedRows<R, S>(t: map<string, S>, ks: seq<string>, q: map<string, R>, stamp: R -> S, out: Dict<R>)
    decreases |ks|
    requires Distinct(ks) && (forall k :: k in ks ==> k in q) && out.Valid()
    requires forall k :: k in ks ==> k !in out.vals
    ensures forall k :: k in FilterChanged(t, ks, q, stamp, out).1.vals <==>
      k in out.vals || (k in ks && Changed(t, k, stamp(q[k])))
    ensures forall k :: k in FilterChanged(t, ks, q, stamp, out).1.vals ==>
      FilterChanged(t, ks, q, stamp, out).1.vals[k] == (if k in out.vals then out.vals[k] else q[k])
  {
    if ks != [] {
      var k := ks[0];
      var v := q[k];
      assert forall j :: 0 <= j < |ks[1..]| ==> ks[1..][j] == ks[j + 1];
      assert forall k' :: k' in ks <==> k' == k || k' in ks[1..];
      if Changed(t, k, stamp(v)) {
        var out' := out.Put(k, v);
        assert FilterChanged(t, ks, q, stamp, out) == FilterChanged(t[k := stamp(v)], ks[1..], q, stamp, out');
        assert forall k' :: k' in out'.vals <==> k' == k || k' in out.vals;
        FilterChangedRows(t[k := stamp(v)], ks[1..], q, stamp, out');
      } else {
        assert FilterChanged(t, ks, q, stamp, out) == FilterChanged(t, ks[1..], q, stamp, out);
        FilterChangedRows(t, ks[1..], q, stamp, out);
      }
    }
  }

  /** The loop remembers the stamp of every row it visits, changed or not, and keeps
      the tracker's other entries. */
  lemma {:induction false} FilterChangedTracker<R, S>(t: map<string, S>, ks: seq<string>, q: map<string, R>, stamp: R -> S, out: Dict<R>)
    decreases |ks|
    requires Distinct(ks) && (forall k :: k in ks ==> k in q) && out.Valid()
    requires forall k :: k in ks ==> k !in out.vals
    ensures forall k :: k in FilterChanged(t, ks, q, stamp, out).0 <==> k in t || k in ks
    ensures forall k :: k in FilterChanged(t, ks, q, stamp, out).0 ==>
      FilterChanged(t, ks, q, stamp, out).0[k] == (if k in ks then stamp(q[k]) else t[k])
  {
    if ks != [] {
      var k := ks[0];
      var v := q[k];
      assert forall j :: 0 <= j < |ks[1..]| ==> ks[1..][j] == ks[j + 1];
      assert forall k' :: k' in ks <==> k' == k || k' in ks[1..];
      if Changed(t, k, stamp(v)) {
        FilterChangedTracker(t[k := stamp(v)], ks[1..], q, stamp, out.Put(k, v));
      } else {
        FilterChangedTracker(t, ks[1..], q, stamp, out);
      }
    }
  }

  /** One filtering pass over a whole query: a row is collected exactly when it changed
      against the tracker, unmodified; afterwards the tracker holds every queried row's
      stamp and is otherwise as it was. */
  function Sift<R, S(==)>(t: map<string, S>, q: Dict<R>, stamp: R -> S): (r: (map<string, S>, Dict<R>))
    requires q.Valid()
    ensures r.1.Valid()
    ensures forall k :: k in r.1.vals <==> k in q.vals && Changed(t, k, stamp(q.vals[k]))
    ensures forall k :: k in r.1.vals ==> r.1.vals[k] == q.vals[k]
    ensures forall k :: k in q.vals ==> k in r.0 && r.0[k] == stamp(q.vals[k])
    ensures forall k :: k !in q.vals ==> (k in r.0 <==> k in t) && (k in t ==> r.0[k] == t[k])
    ensures r.1.keys == [] <==> forall k :: k in q.vals ==> !Changed(t, k, stamp(q.vals[k]))
  {
    var r := FilterChanged(t, q.keys, q.vals, stamp, Empty());
    FilterChangedTracker(t, q.keys, q.vals, stamp, Empty());
    FilterChangedRows(t, q.keys, q.vals, stamp, Empty());
    assert r.1.keys != [] ==> r.1.keys[0] in r.1.vals;
    r
  }

  /** When the tracker already holds every row's stamp, the loop collects nothing and
      leaves the tracker as it is. */
  lemma {:induction false} FilterUnchanged<R, S>(t: map<string, S>, ks: seq<string>, q: map<string, R>, stamp: R -> S, out: Dict<R>)
    decreases |ks|
    requires Distinct(ks) && (forall k :: k in ks ==> k in q) && out.Valid()
    requires forall k :: k in ks ==> k !in out.vals
    requires forall k :: k in ks ==> k in t && t[k] == stamp(q[k])
    ensures FilterChanged(t, ks, q, stamp, out) == (t, out)
  {
    if ks != [] {
      assert forall j :: 0 <= j < |ks[1..]| ==> ks[1..][j] == ks[j + 1];
      FilterUnchanged(t, ks[1..], q, stamp, out);
    }
  }

  /** Sifting the same query again against the tracker the first pass left behind collects
      nothing and changes nothing. */
  lemma SiftSettles<R, S>(t: map<string, S>, q: Dict<R>, stamp: R -> S)
    requires q.Valid()
    ensures Sift(Sift(t, q, stamp).0, q, stamp) == (Sift(t, q, stamp).0, Empty())
  {
    var first := Sift(t, q, stamp);
    FilterUnchanged(first.0, q.keys, q.vals, stamp, Empty());
  }

  /** What the agent queried: a list of link or IDS rows, or a map of device or interface rows. */
  datatype Query = Rows(items: seq<Json>) | DeviceRows(devices: Dict<DeviceRow>) | IfaceRows(ifaces: Dict<IfaceRow>)

  predicate EmptyQuery(q: Query) {
    match q
    case Rows(items) => items == []
    case DeviceRows(d) => d.keys == []
    case IfaceRows(i) => i.keys == []
  }

  /** `{agent_id, msg_type, data}`, or the empty dictionary that is not sent. */
  datatype Outgoing = Nothing | Send(agentId: string, msgType: string, data: Query)

  /** `filter_query_data(query, data_type, agent_id)`. A data type the function does not
      handle, or a query of the wrong shape for it, makes the source return `None` or raise;
      both are `Err`. */
  function FilterQueryData(t: Trackers, query: Query, dataType: string, agentId: string): (r: Result<(Trackers, Outgoing)>)
    requires query.DeviceRows? ==> query.devices.Valid()
    requires query.IfaceRows? ==> query.ifaces.Valid()
    ensures EmptyQuery(query) ==> r == Ok((t, Nothing))
    ensures !EmptyQuery(query) && (dataType == "link_data" || dataType == "ids_data") ==>
      r == Ok((t, Send(agentId, dataType, query)))
    ensures !EmptyQuery(query) && dataType == "devices_data" && query.DeviceRows? ==>
      var s := Sift(t.devices, query.devices, StampsOf);
      r == Ok((t.(devices := s.0), if s.1.keys == [] then Nothing else Send(agentId, dataType, DeviceRows(s.1))))
    ensures !EmptyQuery(query) && dataType == "iface_data" && query.IfaceRows? ==>
      var s := Sift(t.ifaces, query.ifaces, IfaceStamp);
      r == Ok((t.(ifaces := s.0), if s.1.keys == [] then Nothing else Send(agentId, dataType, IfaceRows(s.1))))
    ensures !EmptyQuery(query) && dataType !in ["link_data", "ids_data", "devices_data", "iface_data"] ==> r.Err?
  {
    if EmptyQuery(query) then Ok((t, Nothing))
    else if dataType == "link_data" || dataType == "ids_data" then Ok((t, Send(agentId, dataType, query)))
    else if dataType == "devices_data" then
      match query
      case DeviceRows(d) =>
        var s := Sift(t.devices, d, StampsOf);
        Ok((t.(devices := s.0), if s.1.keys == [] then Nothing else Send(agentId, dataType, DeviceRows(s.1))))
      case _ => Err("AttributeError")
    else if dataType == "iface_data" then
      match query
      case IfaceRows(i) =>
        var s := Sift(t.ifaces, i, IfaceStamp);
        Ok((t.(ifaces := s.0), if s.1.keys == [] then Nothing else Send(agentId, dataType, IfaceRows(s.1))))
      case _ => Err("AttributeError")
    else Err("None")
  }

  /** Re-filtering the same device rows right away sends nothing. */
  lemma DevicesSecondCallQuiet(t: Trackers, d: Dict<DeviceRow>, agentId: string)
    requires d.Valid() && d.keys != []
    ensures var r := FilterQueryData(t, DeviceRows(d), "devices_data", agentId);
      r.Ok? && FilterQueryData(r.value.0, DeviceRows(d), "devices_data", agentId) == Ok((r.value.0, Nothing))
  {
    SiftSettles(t.devices, d, StampsOf);
  }

  /** Re-filtering the same interface rows right away sends nothing. */
  lemma IfacesSecondCallQuiet(t: Trackers, i: Dict<IfaceRow>, agentId: string)
    requires i.Valid() && i.keys != []
    ensures var r := FilterQueryData(t, IfaceRows(i), "iface_data", agentId);
      r.Ok? && FilterQueryData(r.value.0, IfaceRows(i), "iface_data", agentId) == Ok((r.value.0, Nothing))
  {
    SiftSettles(t.ifaces, i, IfaceStamp);
  }
}
