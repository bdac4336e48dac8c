/** The traffic view served to the dashboard: `CalculateTotalTraffic`,
    `UpdateNodeTrafficData` and `getTrafficData` in backend/utils/db_utils.js. */
module TrafficView {
  import opened Common
  import opened Dict
  import opened Text
  import opened Schemas

  /** Reference sums of a series, first point first. */
  function SumRx(s: seq<RxTx>): int {
    if s == [] then 0 else s[0].rx + SumRx(s[1..])
  }

  function SumTx(s: seq<RxTx>): int {
    if s == [] then 0 else s[0].tx + SumTx(s[1..])
  }

  /** Appending a point adds its counters to the sums. */
  lemma {:induction false} SumAppend(s: seq<RxTx>, p: RxTx)
    ensures SumRx(s + [p]) == SumRx(s) + p.rx
    ensures SumTx(s + [p]) == SumTx(s) + p.tx
  {
    if s != [] {
      assert (s + [p])[1..] == s[1..] + [p];
      SumAppend(s[1..], p);
    }
  }

  /** The inner loop of `CalculateTotalTraffic`: running totals over the series. */
  method SeriesTotals(value: seq<RxTx>) returns (rx: int, tx: int)
    ensures rx == SumRx(value) && tx == SumTx(value)
  {
    rx, tx := 0, 0;
    var i := 0;
    while i < |value|
      invariant 0 <= i <= |value|
      invariant rx == SumRx(value[..i]) && tx == SumTx(value[..i])
    {
      SumAppend(value[..i], value[i]);
      assert value[..i + 1] == value[..i] + [value[i]];
      rx, tx := rx + value[i].rx, tx + value[i].tx;
      i := i + 1;
    }
    assert value[..i] == value;
  }

  /** One document with its byte totals recomputed from its series; every other counter
      and field is left as stored. */
  function WithTotals(d: TrafficDoc): (r: TrafficDoc)
    ensures r.total.rxBytes == SumRx(d.series.value) && r.total.txBytes == SumTx(d.series.value)
    ensures r.(total := d.total) == d
    ensures r.total.(rxBytes := d.total.rxBytes, txBytes := d.total.txBytes) == d.total
  {
    d.(total := d.total.(rxBytes := SumRx(d.series.value), txBytes := SumTx(d.series.value)))
  }

  /** `CalculateTotalTraffic`: every document's totals recomputed, the keys kept. */
  function CalculateTotalTraffic(docs: Dict<TrafficDoc>): (r: Dict<TrafficDoc>)
    ensures r.keys == docs.keys && r.vals.Keys == docs.vals.Keys
    ensures docs.Valid() ==> r.Valid()
    ensures forall k :: k in docs.vals ==> r.vals[k] == WithTotals(docs.vals[k])
  {
    Dict(docs.keys, map k | k in docs.vals :: WithTotals(docs.vals[k]))
  }

  /** Recomputing totals twice changes nothing more. */
  lemma CalculateTotalTrafficIdempotent(docs: Dict<TrafficDoc>)
    ensures CalculateTotalTraffic(CalculateTotalTraffic(docs)) == CalculateTotalTraffic(docs)
  {
  }

  const DomainSuffix := ".phxnet.org"

  /** The chart label of a node: its host name with the first `.phxnet.org` removed. */
  function Label(hostname: string): string {
    ReplaceFirst(hostname, DomainSuffix, "")
  }

  /** A one-label host under the site domain is labelled by that one label. */
  lemma LabelStripsDomain(host: string)
    requires '.' !in host
    ensures Label(host + DomainSuffix) == host
  {
    StripDomain(host, DomainSuffix);
  }

  /** The latest point of a node series (`value[size - 1]`); `undefined` when empty. */
  function LastPoint(s: Series): (r: Option<RxTx>)
    ensures r.None? <==> s.value == []
    ensures r.Some? ==> r.value == s.value[|s.value| - 1]
  {
    if s.value == [] then None else Some(s.value[|s.value| - 1])
  }

  /** A VLAN entry of the per-node chart: the stored VLAN document (totals as stored,
      not recomputed) with its series replaced by one point per node. */
  datatype PerNode = PerNode(vlan: string, total: Counters, lastUpdate: int, labels: seq<string>, points: seq<Option<RxTx>>)

  /** A node document can be placed: it has a host name and its VLAN has a document. */
  predicate Placeable(n: TrafficDoc, per: Dict<PerNode>) {
    n.hostname.Some? && n.vlan in per.vals
  }

  /** Reference: the labels and points a VLAN gets from a list of nodes, in order. */
  function LabelsFor(nodes: seq<TrafficDoc>, v: string): seq<string>
    requires forall i :: 0 <= i < |nodes| ==> nodes[i].hostname.Some?
  {
    if nodes == [] then []
    else (if nodes[0].vlan == v then [Label(nodes[0].hostname.value)] else []) + LabelsFor(nodes[1..], v)
  }

  function PointsFor(nodes: seq<TrafficDoc>, v: string): seq<Option<RxTx>> {
    if nodes == [] then []
    else (if nodes[0].vlan == v then [LastPoint(nodes[0].series)] else []) + PointsFor(nodes[1..], v)
  }

  /** One iteration of the loop: the node's label and latest point are appended to its
      VLAN's entry; no other entry changes. */
  function PlaceNode(per: Dict<PerNode>, n: TrafficDoc): (r: Dict<PerNode>)
    requires per.Valid() && Placeable(n, per)
    ensures r.Valid() && r.keys == per.keys && r.vals.Keys == per.vals.Keys
    ensures forall v :: v in per.vals && v != n.vlan ==> r.vals[v] == per.vals[v]
    ensures var e := per.vals[n.vlan];
      r.vals[n.vlan] == e.(labels := e.labels + [Label(n.hostname.value)], points := e.points + [LastPoint(n.series)])
  {
    var e := per.vals[n.vlan];
    per.Put(n.vlan, e.(labels := e.labels + [Label(n.hostname.value)], points := e.points + [LastPoint(n.series)]))
  }

  /** The loop over the node documents. A node without a host name, or whose VLAN has no
      document, makes the source throw a `TypeError`; that is the `Err` here. */
  function AddNodePoints(per: Dict<PerNode>, nodes: seq<TrafficDoc>): (r: Result<Dict<PerNode>>)
    decreases |nodes|
    requires per.Valid()
    ensures r.Ok? <==> forall i :: 0 <= i < |nodes| ==> Placeable(nodes[i], per)
    ensures r.Ok? ==> r.value.Valid() && r.value.keys == per.keys && r.value.vals.Keys == per.vals.Keys
  {
    if nodes == [] then Ok(per)
    else
      var n := nodes[0];
      if !Placeable(n, per) then Err("TypeError")
      else
        var next := PlaceNode(per, n);
        assert forall i :: 1 <= i < |nodes| ==> nodes[1..][i - 1] == nodes[i];
        assert forall m :: Placeable(m, per) <==> Placeable(m, next);
        AddNodePoints(next, nodes[1..])
  }

  /** The rest of the nodes can still be placed after the first one is. */
  lemma PlaceableRest(per: Dict<PerNode>, nodes: seq<TrafficDoc>)
    requires per.Valid() && nodes != []
    requires forall i :: 0 <= i < |nodes| ==> Placeable(nodes[i], per)
    ensures forall i :: 0 <= i < |nodes[1..]| ==> Placeable(nodes[1..][i], PlaceNode(per, nodes[0]))
    ensures AddNodePoints(per, nodes) == AddNodePoints(PlaceNode(per, nodes[0]), nodes[1..])
  {
    forall i | 0 <= i < |nodes[1..]| ensures Placeable(nodes[1..][i], PlaceNode(per, nodes[0])) {
      assert nodes[1..][i] == nodes[i + 1];
    }
  }

  /** Every VLAN entry gains, in node order, the label of each node on it. */
  lemma {:induction false} AddNodePointsLabels(per: Dict<PerNode>, nodes: seq<TrafficDoc>, v: string)
    decreases |nodes|
    requires per.Valid() && v in per.vals
    requires forall i :: 0 <= i < |nodes| ==> Placeable(nodes[i], per)
    ensures AddNodePoints(per, nodes).value.vals[v].labels == per.vals[v].labels + LabelsFor(nodes, v)
  {
    if nodes != [] {
      var n := nodes[0];
      var next := PlaceNode(per, n);
      PlaceableRest(per, nodes);
      AddNodePointsLabels(next, nodes[1..], v);
      var ls := if n.vlan == v then [Label(n.hostname.value)] else [];
      assert next.vals[v].labels == per.vals[v].labels + ls;
      assert LabelsFor(nodes, v) == ls + LabelsFor(nodes[1..], v);
      AppendAssoc(per.vals[v].labels, ls, LabelsFor(nodes[1..], v));
    }
  }

  /** Every VLAN entry gains, in node order, the latest point of each node on it. */
  lemma {:induction false} AddNodePointsPoints(per: Dict<PerNode>, nodes: seq<TrafficDoc>, v: string)
    decreases |nodes|
    requires per.Valid() && v in per.vals
    requires forall i :: 0 <= i < |nodes| ==> Placeable(nodes[i], per)
    ensures AddNodePoints(per, nodes).value.vals[v].points == per.vals[v].points + PointsFor(nodes, v)
  {
    if nodes != [] {
      var n := nodes[0];
      var next := PlaceNode(per, n);
      PlaceableRest(per, nodes);
      AddNodePointsPoints(next, nodes[1..], v);
      var ps := if n.vlan == v then [LastPoint(n.series)] else [];
      assert next.vals[v].points == per.vals[v].points + ps;
      assert PointsFor(nodes, v) == ps + PointsFor(nodes[1..], v);
      AppendAssoc(per.vals[v].points, ps, PointsFor(nodes[1..], v));
    }
  }

  /** The stored VLAN fields of every entry are untouched. */
  lemma {:induction false} AddNodePointsKeepsFields(per: Dict<PerNode>, nodes: seq<TrafficDoc>, v: string)
    decreases |nodes|
    requires per.Valid() && v in per.vals
    requires forall i :: 0 <= i < |nodes| ==> Placeable(nodes[i], per)
    ensures var e := AddNodePoints(per, nodes).value.vals[v];
      e.vlan == per.vals[v].vlan && e.total == per.vals[v].total && e.lastUpdate == per.vals[v].lastUpdate
  {
    if nodes != [] {
      PlaceableRest(per, nodes);
      AddNodePointsKeepsFields(PlaceNode(per, nodes[0]), nodes[1..], v);
    }
  }

  function EmptyPerNode(d: TrafficDoc): PerNode {
    PerNode(d.vlan, d.total, d.lastUpdate, [], [])
  }

  datatype View = View(vlans: Dict<TrafficDoc>, perNodeVlan: Dict<PerNode>, nodes: Dict<TrafficDoc>)

  /** The copy of the VLAN documents the per-node chart starts from: each with an empty
      series. */
  function InitialPerNode(vlans: Dict<TrafficDoc>): (r: Dict<PerNode>)
    requires vlans.Valid()
    ensures r.Valid() && r.keys == vlans.keys && r.vals.Keys == vlans.vals.Keys
    ensures forall k :: k in vlans.vals ==> r.vals[k] == EmptyPerNode(vlans.vals[k])
  {
    Dict(vlans.keys, map k | k in vlans.vals :: EmptyPerNode(vlans.vals[k]))
  }

  /** `UpdateNodeTrafficData`: totals recomputed for the VLAN and node documents, and a
      per-node chart built from a copy of the VLAN documents taken before that. */
  function UpdateNodeTrafficData(vlans: Dict<TrafficDoc>, nodes: Dict<TrafficDoc>): (r: Result<View>)
    requires vlans.Valid()
    ensures var ns := nodes.Values();
      r.Ok? <==> forall i :: 0 <= i < |ns| ==> ns[i].hostname.Some? && ns[i].vlan in vlans.vals
    ensures r.Ok? ==> r.value.vlans == CalculateTotalTraffic(vlans) && r.value.nodes == CalculateTotalTraffic(nodes)
    ensures r.Ok? ==> (r.value.perNodeVlan.Valid() && r.value.perNodeVlan.keys == vlans.keys
      && r.value.perNodeVlan.vals.Keys == vlans.vals.Keys)
  {
    var per0 := InitialPerNode(vlans);
    assert forall m :: Placeable(m, per0) <==> m.hostname.Some? && m.vlan in vlans.vals;
    match AddNodePoints(per0, nodes.Values())
    case Err(e) => Err(e)
    case Ok(p) => Ok(View(CalculateTotalTraffic(vlans), p, CalculateTotalTraffic(nodes)))
  }

  /** Each VLAN of the per-node chart keeps its stored total and lists, in node order, the
      label and latest point of every node on it. */
  lemma UpdateNodeTrafficDataPerNode(vlans: Dict<TrafficDoc>, nodes: Dict<TrafficDoc>, v: string)
    requires vlans.Valid() && UpdateNodeTrafficData(vlans, nodes).Ok? && v in vlans.vals
    ensures var e := UpdateNodeTrafficData(vlans, nodes).value.perNodeVlan.vals[v];
      && e.total == vlans.vals[v].total
      && e.labels == LabelsFor(nodes.Values(), v)
      && e.points == PointsFor(nodes.Values(), v)
  {
    var per0 := InitialPerNode(vlans);
    var ns := nodes.Values();
    assert forall m :: Placeable(m, per0) <==> m.hostname.Some? && m.vlan in vlans.vals;
    assert UpdateNodeTrafficData(vlans, nodes).value.perNodeVlan == AddNodePoints(per0, ns).value;
    AddNodePointsLabels(per0, ns, v);
    AddNodePointsPoints(per0, ns, v);
    AddNodePointsKeepsFields(per0, ns, v);
  }

  /** `getTrafficData` over the two collections. When the node collection is empty the
      source reads `error.message` with no error and throws; that is the `Err` here. */
  function TrafficData(db: Db): (r: Result<View>)
    requires db.vlanTraffic.Valid()
    ensures db.nodeTraffic.keys == [] ==> r.Err?
    ensures db.nodeTraffic.keys != [] ==> r == UpdateNodeTrafficData(db.vlanTraffic, db.nodeTraffic)
  {
    if db.nodeTraffic.keys == [] then Err("TypeError")
    else UpdateNodeTrafficData(db.vlanTraffic, db.nodeTraffic)
  }
}
