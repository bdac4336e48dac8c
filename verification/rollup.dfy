/** Traffic rollup (backend/utils/utils.js and `ProcessInterfaceData` in
    backend/websocket_servers/agent_socket/process_data.js): interface counters are summed
    per VLAN and per node, and a daily series of parallel `date`/`value` arrays gets
    today's point appended or overwritten. */
module Rollup {
  import opened Common
  import opened Dict
  import opened Schemas
  import opened Links

  /** `FindInArray(array, element)`: the least index holding the element, or -1. */
  function FindInArray(a: seq<string>, e: string): (i: int)
    ensures -1 <= i < |a|
    ensures i == -1 <==> e !in a
    ensures i >= 0 ==> a[i] == e && forall k :: 0 <= k < i ==> a[k] != e
  {
    if a == [] then -1
    else if a[0] == e then 0
    else
      var i := FindInArray(a[1..], e);
      assert forall k :: 1 <= k < |a| ==> a[1..][k - 1] == a[k];
      if i == -1 then -1 else i + 1
  }

  function AddIface(c: Counters, f: Iface): Counters {
    Counters(c.txBytes + f.txBytes, c.txPackets + f.txPackets, c.txDropped + f.txDropped,
             c.rxBytes + f.rxBytes, c.rxPackets + f.rxPackets, c.rxDropped + f.rxDropped)
  }

  function CountersOf(f: Iface): Counters {
    Counters(f.txBytes, f.txPackets, f.txDropped, f.rxBytes, f.rxPackets, f.rxDropped)
  }

  /** The summation loop: the accumulator starts as null and takes the first interface's
      counters, then adds each later one. */
  function SumFrom(acc: Option<Counters>, ifs: seq<Iface>): Option<Counters>
    decreases |ifs|
  {
    if ifs == [] then acc
    else
      var next := if acc.Some? then AddIface(acc.value, ifs[0]) else CountersOf(ifs[0]);
      SumFrom(Some(next), ifs[1..])
  }

  /** The counters of all interfaces, or None (the source's `null`) when there are none. */
  function SumIfaces(ifs: seq<Iface>): Option<Counters> {
    SumFrom(None, ifs)
  }

  /** Reference sums, one field at a time. */
  function SumTxBytes(ifs: seq<Iface>): int { if ifs == [] then 0 else ifs[0].txBytes + SumTxBytes(ifs[1..]) }
  function SumTxPackets(ifs: seq<Iface>): int { if ifs == [] then 0 else ifs[0].txPackets + SumTxPackets(ifs[1..]) }
  function SumTxDropped(ifs: seq<Iface>): int { if ifs == [] then 0 else ifs[0].txDropped + SumTxDropped(ifs[1..]) }
  function SumRxBytes(ifs: seq<Iface>): int { if ifs == [] then 0 else ifs[0].rxBytes + SumRxBytes(ifs[1..]) }
  function SumRxPackets(ifs: seq<Iface>): int { if ifs == [] then 0 else ifs[0].rxPackets + SumRxPackets(ifs[1..]) }
  function SumRxDropped(ifs: seq<Iface>): int { if ifs == [] then 0 else ifs[0].rxDropped + SumRxDropped(ifs[1..]) }

  function FieldSums(ifs: seq<Iface>): Counters {
    Counters(SumTxBytes(ifs), SumTxPackets(ifs), SumTxDropped(ifs),
             SumRxBytes(ifs), SumRxPackets(ifs), SumRxDropped(ifs))
  }

  function Plus(a: Counters, b: Counters): Counters {
    Counters(a.txBytes + b.txBytes, a.txPackets + b.txPackets, a.txDropped + b.txDropped,
             a.rxBytes + b.rxBytes, a.rxPackets + b.rxPackets, a.rxDropped + b.rxDropped)
  }

  lemma {:induction false} SumFromSome(c: Counters, ifs: seq<Iface>)
    decreases |ifs|
    ensures SumFrom(Some(c), ifs) == Some(Plus(c, FieldSums(ifs)))
  {
    if ifs != [] {
      SumFromSome(AddIface(c, ifs[0]), ifs[1..]);
    }
  }

  /** Summed totals equal the per-field sums over every interface; no interfaces give null. */
  lemma SumIfacesFieldSums(ifs: seq<Iface>)
    ensures ifs == [] ==> SumIfaces(ifs).None?
    ensures ifs != [] ==> SumIfaces(ifs) == Some(FieldSums(ifs))
  {
    if ifs != [] {
      SumFromSome(CountersOf(ifs[0]), ifs[1..]);
    }
  }

  /** The interfaces of all documents, document by document (the nested loop order). */
  function AllIfaces(docs: seq<IfacesDoc>): (r: seq<Iface>)
    ensures |r| == 0 <==> forall i :: 0 <= i < |docs| ==> docs[i].ifaces == []
  {
    if docs == [] then []
    else
      var rest := AllIfaces(docs[1..]);
      assert forall i :: 1 <= i < |docs| ==> docs[1..][i - 1] == docs[i];
      docs[0].ifaces + rest
  }

  /** Today's delta against the previous point. */
  function Delta(total: Counters, prev: RxTx): (r: RxTx)
    ensures r.rx == Abs(total.rxBytes - prev.rx) && r.tx == Abs(total.txBytes - prev.tx)
  {
    RxTx(Abs(total.rxBytes - prev.rx), Abs(total.txBytes - prev.tx))
  }

  /** `value[i] = x` for `i <= value.length`: an overwrite, or a push at the end. */
  function SetOrPush(v: seq<RxTx>, i: nat, x: RxTx): (r: seq<RxTx>)
    requires i <= |v|
    ensures |r| == (if i < |v| then |v| else |v| + 1)
    ensures r[i] == x && forall k :: 0 <= k < |v| && k != i ==> r[k] == v[k]
  {
    if i < |v| then v[i := x] else v + [x]
  }

  /** The two arrays are positionally paired and hold at least the seed point. */
  predicate Paired(s: Series) {
    |s.date| == |s.value| && |s.date| > 0
  }

  /** `UpdateVlanChart(all_time_traffic, db_data)` and its twin `UpdateNodeChart`. None when
      `value[idx - 1]` does not exist, where the source throws a TypeError. */
  function UpdateChart(total: Counters, s: Series, today: string): (r: Option<Series>)
    ensures Paired(s) ==> r.Some? && Paired(r.value)
    ensures Paired(s) && today !in s.date ==>
      r.value.date == s.date + [today] && r.value.value == s.value + [Delta(total, s.value[|s.value| - 1])]
    ensures Paired(s) && s.date[0] == today ==>
      r.value.date == s.date && r.value.value == s.value[0 := RxTx(total.rxBytes, total.txBytes)]
    ensures Paired(s) && today in s.date && s.date[0] != today ==>
      var k := FindInArray(s.date, today);
      r.value.date == s.date && r.value.value == s.value[k := Delta(total, s.value[k - 1])]
  {
    var idx := FindInArray(s.date, today);
    if idx > 0 then
      if idx - 1 < |s.value| then Some(Series(s.date, SetOrPush(s.value, idx, Delta(total, s.value[idx - 1]))))
      else None
    else if idx == -1 then
      var n := |s.date|;
      if 1 <= n && n - 1 < |s.value| then
        Some(Series(s.date + [today], s.value + [Delta(total, s.value[n - 1])]))
      else None
    else
      Some(Series(s.date, SetOrPush(s.value, 0, RxTx(total.rxBytes, total.txBytes))))
  }

  /** Repeating the update on the same day with the same totals changes nothing more. */
  lemma UpdateChartSameDayIdempotent(total: Counters, s: Series, today: string)
    requires Paired(s)
    ensures var once := UpdateChart(total, s, today).value;
      UpdateChart(total, once, today) == Some(once)
  {
    var once := UpdateChart(total, s, today).value;
    assert today in once.date;
    if today in s.date && s.date[0] != today {
      var k := FindInArray(s.date, today);
      assert FindInArray(once.date, today) == k;
      assert once.value[k - 1] == s.value[k - 1];
      assert once.value[k := Delta(total, once.value[k - 1])] == once.value;
    } else if s.date[0] == today {
      assert once.value[0 := RxTx(total.rxBytes, total.txBytes)] == once.value;
    } else if today !in s.date {
      var n := |s.date|;
      assert FindInArray(once.date, today) == n by {
        assert once.date[n] == today;
        assert forall j :: 0 <= j < n ==> once.date[j] == s.date[j];
      }
      assert once.value[n - 1] == s.value[n - 1];
      assert once.value == once.value[n := Delta(total, once.value[n - 1])];
    }
  }

  /** `UpdateVlanTrafficDataChart(db, vlan_name)`: the VLAN's totals over all its interface
      documents, folded into its rollup document (created from the seed schema when absent). */
  function UpdateVlanTraffic(db: Db, vlan: string, today: string, now: int): (r: Result<Db>)
    ensures r.Ok? ==> (r.value.agents == db.agents && r.value.ifaces == db.ifaces
      && r.value.nodeTraffic == db.nodeTraffic && r.value.notifications == db.notifications && r.value.ids == db.ids)
    ensures r.Ok? ==> AllIfaces(IfacesInVlan(db.ifaces.Values(), vlan)) != []
    ensures (AllIfaces(IfacesInVlan(db.ifaces.Values(), vlan)) != []
      && (vlan in db.vlanTraffic.vals ==> Paired(db.vlanTraffic.vals[vlan].series))) ==> r.Ok?
    ensures r.Ok? ==> (vlan in r.value.vlanTraffic.vals
      && r.value.vlanTraffic.vals[vlan].total == FieldSums(AllIfaces(IfacesInVlan(db.ifaces.Values(), vlan)))
      && r.value.vlanTraffic.vals[vlan].lastUpdate == now)
    ensures r.Ok? && vlan in db.vlanTraffic.vals ==>
      var total := FieldSums(AllIfaces(IfacesInVlan(db.ifaces.Values(), vlan)));
      var doc := db.vlanTraffic.vals[vlan];
      && UpdateChart(total, doc.series, today).Some?
      && r.value.vlanTraffic.vals[vlan] == doc.(total := total, series := UpdateChart(total, doc.series, today).value, lastUpdate := now)
    ensures r.Ok? && vlan !in db.vlanTraffic.vals ==>
      r.value.vlanTraffic.vals[vlan] == VlanTrafficSchema(FieldSums(AllIfaces(IfacesInVlan(db.ifaces.Values(), vlan))), vlan, today, now)
    ensures r.Ok? ==> r.value.vlanTraffic == db.vlanTraffic.Put(vlan, r.value.vlanTraffic.vals[vlan])
  {
    var docs := IfacesInVlan(db.ifaces.Values(), vlan);
    if docs == [] then Err("This should not happen. See ProcessInterfaceData function")
    else
      var total := SumIfaces(AllIfaces(docs));
      SumIfacesFieldSums(AllIfaces(docs));
      if total.None? then Err("Cannot read property 'rx_bytes' of null")
      else if vlan in db.vlanTraffic.vals then
        var doc := db.vlanTraffic.vals[vlan];
        var series := UpdateChart(total.value, doc.series, today);
        if series.None? then Err("Cannot read property 'rx' of undefined")
        else Ok(db.(vlanTraffic := db.vlanTraffic.Put(vlan, doc.(total := total.value, series := series.value, lastUpdate := now))))
      else
        Ok(db.(vlanTraffic := db.vlanTraffic.Put(vlan, VlanTrafficSchema(total.value, vlan, today, now))))
  }

  /** `UpdateNodeTrafficDataChart(db, agent_id, agent_hostname, vlan_name)`: the same for one
      agent's own interface document; the rollup is keyed by agent id. */
  function UpdateNodeTraffic(db: Db, agentId: string, hostname: string, vlan: string, today: string, now: int): (r: Result<Db>)
    ensures r.Ok? ==> (r.value.agents == db.agents && r.value.ifaces == db.ifaces
      && r.value.vlanTraffic == db.vlanTraffic && r.value.notifications == db.notifications && r.value.ids == db.ids)
    ensures (agentId in db.ifaces.vals && db.ifaces.vals[agentId].ifaces != []
      && (agentId in db.nodeTraffic.vals ==> Paired(db.nodeTraffic.vals[agentId].series))) ==> r.Ok?
    ensures r.Ok? ==> (agentId in db.ifaces.vals && db.ifaces.vals[agentId].ifaces != []
      && agentId in r.value.nodeTraffic.vals
      && r.value.nodeTraffic.vals[agentId].total == FieldSums(db.ifaces.vals[agentId].ifaces)
      && r.value.nodeTraffic.vals[agentId].lastUpdate == now)
    ensures r.Ok? && agentId !in db.nodeTraffic.vals ==>
      r.value.nodeTraffic.vals[agentId] == NodeTrafficSchema(FieldSums(db.ifaces.vals[agentId].ifaces), hostname, vlan, today, now)
    ensures r.Ok? && agentId in db.nodeTraffic.vals ==>
      var total := FieldSums(db.ifaces.vals[agentId].ifaces);
      var doc := db.nodeTraffic.vals[agentId];
      && UpdateChart(total, doc.series, today).Some?
      && r.value.nodeTraffic.vals[agentId] == doc.(total := total, series := UpdateChart(total, doc.series, today).value, lastUpdate := now)
    ensures r.Ok? ==> r.value.nodeTraffic == db.nodeTraffic.Put(agentId, r.value.nodeTraffic.vals[agentId])
  {
    if agentId !in db.ifaces.vals then Err("This should not happen. See ProcessInterfaceData function")
    else
      var ifs := db.ifaces.vals[agentId].ifaces;
      var total := SumIfaces(ifs);
      SumIfacesFieldSums(ifs);
      if total.None? then Err("Cannot read property 'rx_bytes' of null")
      else if agentId in db.nodeTraffic.vals then
        var doc := db.nodeTraffic.vals[agentId];
        var series := UpdateChart(total.value, doc.series, today);
        if series.None? then Err("Cannot read property 'rx' of undefined")
        else Ok(db.(nodeTraffic := db.nodeTraffic.Put(agentId, doc.(total := total.value, series := series.value, lastUpdate := now))))
      else
        Ok(db.(nodeTraffic := db.nodeTraffic.Put(agentId, NodeTrafficSchema(total.value, hostname, vlan, today, now))))
  }

  /** `UpdateInterfaceData(db, agent_id, ws_data, vlan_name)`: the agent's interface document
      is replaced (keeping its VLAN) or created. */
  function UpdateInterfaceData(db: Db, agentId: string, ifs: seq<Iface>, vlan: string, now: int): (r: Db)
    ensures agentId in r.ifaces.vals && r.ifaces.vals[agentId].ifaces == ifs && r.ifaces.vals[agentId].lastUpdate == now
    ensures r.ifaces.vals[agentId].vlan == (if agentId in db.ifaces.vals then db.ifaces.vals[agentId].vlan else vlan)
    ensures forall k :: k in db.ifaces.vals && k != agentId ==> k in r.ifaces.vals && r.ifaces.vals[k] == db.ifaces.vals[k]
    ensures r.agents == db.agents && r.vlanTraffic == db.vlanTraffic && r.nodeTraffic == db.nodeTraffic
      && r.notifications == db.notifications && r.ids == db.ids
  {
    if agentId in db.ifaces.vals then
      db.(ifaces := db.ifaces.Put(agentId, db.ifaces.vals[agentId].(ifaces := ifs, lastUpdate := now)))
    else
      db.(ifaces := db.ifaces.Put(agentId, IfacesDataSchema(agentId, ifs, vlan, now)))
  }

  /** The node rollup reads only the interface and node collections. */
  lemma NodeTrafficIgnoresVlans(db: Db, v: Dict<TrafficDoc>, agentId: string, hostname: string, vlan: string, today: string, now: int)
    ensures var a := UpdateNodeTraffic(db, agentId, hostname, vlan, today, now);
      var b := UpdateNodeTraffic(db.(vlanTraffic := v), agentId, hostname, vlan, today, now);
      && (a.Ok? <==> b.Ok?)
      && (a.Ok? ==> a.value.nodeTraffic == b.value.nodeTraffic)
  {
  }

  /** `ProcessInterfaceData(db, ws_data, vlan_name)`: store the interfaces, then refresh the
      VLAN rollup over the stored documents and, for a registered agent, its node rollup
      under its hostname. A rollup that fails leaves its collection as it was; for an agent
      that is not registered the node rollup is not attempted. */
  function ProcessInterfaceData(db: Db, agentId: string, ifs: seq<Iface>, vlan: string, today: string, now: int): (r: Db)
    ensures r.ifaces == UpdateInterfaceData(db, agentId, ifs, vlan, now).ifaces
    ensures r.agents == db.agents && r.notifications == db.notifications && r.ids == db.ids
    ensures var vr := UpdateVlanTraffic(UpdateInterfaceData(db, agentId, ifs, vlan, now), vlan, today, now);
      r.vlanTraffic == (if vr.Ok? then vr.value.vlanTraffic else db.vlanTraffic)
    ensures var all := AllIfaces(IfacesInVlan(r.ifaces.Values(), vlan));
      (all != [] && (vlan in db.vlanTraffic.vals ==> Paired(db.vlanTraffic.vals[vlan].series))) ==>
      && vlan in r.vlanTraffic.vals
      && r.vlanTraffic.vals[vlan] == (if vlan in db.vlanTraffic.vals
        then db.vlanTraffic.vals[vlan].(total := FieldSums(all),
          series := UpdateChart(FieldSums(all), db.vlanTraffic.vals[vlan].series, today).value, lastUpdate := now)
        else VlanTrafficSchema(FieldSums(all), vlan, today, now))
    ensures agentId !in db.agents.vals ==> r.nodeTraffic == db.nodeTraffic
    ensures agentId in db.agents.vals ==>
      var nr := UpdateNodeTraffic(UpdateInterfaceData(db, agentId, ifs, vlan, now), agentId,
        db.agents.vals[agentId].device.hostname, vlan, today, now);
      r.nodeTraffic == (if nr.Ok? then nr.value.nodeTraffic else db.nodeTraffic)
    ensures (ifs != [] && agentId in db.agents.vals
      && (agentId in db.nodeTraffic.vals ==> Paired(db.nodeTraffic.vals[agentId].series))) ==>
      && agentId in r.nodeTraffic.vals
      && r.nodeTraffic.vals[agentId] == (if agentId in db.nodeTraffic.vals
        then db.nodeTraffic.vals[agentId].(total := FieldSums(ifs),
          series := UpdateChart(FieldSums(ifs), db.nodeTraffic.vals[agentId].series, today).value, lastUpdate := now)
        else NodeTrafficSchema(FieldSums(ifs), db.agents.vals[agentId].device.hostname, vlan, today, now))
  {
    var db1 := UpdateInterfaceData(db, agentId, ifs, vlan, now);
    var vr := UpdateVlanTraffic(db1, vlan, today, now);
    var db2 := if vr.Ok? then vr.value else db1;
    if agentId in db2.agents.vals then
      var hostname := db2.agents.vals[agentId].device.hostname;
      NodeTrafficIgnoresVlans(db1, db2.vlanTraffic, agentId, hostname, vlan, today, now);
      assert db2 == db1.(vlanTraffic := db2.vlanTraffic);
      var nr := UpdateNodeTraffic(db2, agentId, hostname, vlan, today, now);
      if nr.Ok? then nr.value else db2
    else db2
  }
}
