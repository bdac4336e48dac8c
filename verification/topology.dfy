/** The per-VLAN network topology view: `getNetworkTopologyData` and its
    `getNetTopologyDeviceData` in backend/utils/db_utils.js. */
module Topology {
  import opened Common
  import opened Dict
  import opened Schemas

  /** A device is shown as down when more than this many whole seconds separate its last
      update from now. */
  const StaleAfterSeconds := 60

  /** Both times are cut to whole seconds (the `YYYY-MM-DD HH:mm:ss` round trip) before
      their difference is compared with one minute. Times are UTC milliseconds. */
  predicate Stale(nowMs: int, lastMs: int) {
    nowMs / 1000 - lastMs / 1000 > StaleAfterSeconds
  }

  datatype TopoNode = TopoNode(
    status: string,
    id: string,
    kind: string,
    mac: string,
    ip: string,
    hostname: string,
    substationName: Option<string>,
    vlan: string,
    iface: string,
    bandwidth: Bandwidth,
    lastUpdate: int)

  /** `getNetTopologyDeviceData(dev_data, id)`. `substation` is the record's
      `substation_name` ("" for device records, which have none). */
  function TopologyNode(d: Device, substation: string, id: string, nowMs: int): (r: TopoNode)
    ensures r.status == "down" <==> Stale(nowMs, d.lastUpdate)
    ensures r.status == "up" <==> !Stale(nowMs, d.lastUpdate)
    ensures r.substationName.Some? <==> d.kind == PhoenixBox && substation != ""
    ensures r.substationName.Some? ==> r.substationName.value == substation
    ensures r.id == id && r.kind == d.kind && r.mac == d.mac && r.ip == d.ip && r.hostname == d.hostname
      && r.vlan == d.vlan && r.iface == d.iface && r.bandwidth == d.bandwidth && r.lastUpdate == d.lastUpdate
  {
    TopoNode(if Stale(nowMs, d.lastUpdate) then "down" else "up", id, d.kind, d.mac, d.ip, d.hostname,
             if d.kind == PhoenixBox && substation != "" then Some(substation) else None,
             d.vlan, d.iface, d.bandwidth, d.lastUpdate)
  }

  /** The stored status plays no part in the topology status. */
  lemma StoredStatusIgnored(d: Device, substation: string, id: string, nowMs: int, stored: string)
    ensures TopologyNode(d.(status := stored), substation, id, nowMs) == TopologyNode(d, substation, id, nowMs)
  {
  }

  /** Staleness is exact to the second: 60 whole seconds is still up, 61 is down, and a
      device that is down stays down as the clock advances. */
  lemma StaleBoundary(lastMs: int, nowMs: int, laterMs: int)
    requires nowMs <= laterMs
    ensures !Stale(lastMs - lastMs % 1000 + 60000, lastMs)
    ensures Stale(lastMs - lastMs % 1000 + 61000, lastMs)
    ensures Stale(nowMs, lastMs) ==> Stale(laterMs, lastMs)
  {
    var base := lastMs - lastMs % 1000;
    assert (base + 60000) / 1000 == lastMs / 1000 + 60;
    assert (base + 61000) / 1000 == lastMs / 1000 + 61;
    assert nowMs / 1000 <= laterMs / 1000;
  }

  datatype VlanTopology = VlanTopology(nodes: Dict<TopoNode>, links: seq<Link>, visibleDevs: Dict<seq<string>>)

  /** The record ids of a list of devices, in order. */
  function DeviceIds(devs: seq<Device>): (r: seq<string>)
    ensures |r| == |devs| && forall i :: 0 <= i < |devs| ==> r[i] == devs[i].id
  {
    if devs == [] then [] else [devs[0].id] + DeviceIds(devs[1..])
  }

  /** The loop over `Object.values(agent_data.visible_devices)`: each device is added under
      its record id, and the ids are listed in order. */
  function AddVisible(nodes: Dict<TopoNode>, devs: seq<Device>, nowMs: int): (r: (Dict<TopoNode>, seq<string>))
    decreases |devs|
    ensures nodes.Valid() ==> r.0.Valid()
    ensures r.1 == DeviceIds(devs)
    ensures forall k :: k in r.0.vals <==> k in nodes.vals || k in r.1
  {
    if devs == [] then (nodes, [])
    else
      var d := devs[0];
      var (n, ids) := AddVisible(nodes.Put(d.id, TopologyNode(d, "", d.id, nowMs)), devs[1..], nowMs);
      (n, [d.id] + ids)
  }

  function EmptyVlan(): VlanTopology {
    VlanTopology(Empty(), [], Empty())
  }

  /** The entry a VLAN has before an agent is folded in. */
  function Base(nt: Dict<VlanTopology>, v: string): VlanTopology {
    if v in nt.vals then nt.vals[v] else EmptyVlan()
  }

  /** A VLAN's entry once an agent is folded in: the agent and its devices join the nodes,
      the agent's device-id list is recorded under its id, and its links are appended. */
  function AgentEntry(base: VlanTopology, a: Agent, nowMs: int): (e: VlanTopology)
    ensures e.links == base.links + a.linkData
    ensures a.device.id in e.nodes.vals && base.nodes.vals.Keys <= e.nodes.vals.Keys
    ensures forall d :: d in a.visibleDevices.Values() ==> d.id in e.nodes.vals
    ensures e.visibleDevs.vals == base.visibleDevs.vals[a.device.id := DeviceIds(a.visibleDevices.Values())]
  {
    var devs := a.visibleDevices.Values();
    var (nodes, ids) := AddVisible(base.nodes.Put(a.device.id, TopologyNode(a.device, a.substationName, a.device.id, nowMs)),
                                   devs, nowMs);
    assert forall d :: d in devs ==> d.id in ids by {
      forall d | d in devs ensures d.id in ids {
        var k :| 0 <= k < |devs| && devs[k] == d;
        assert ids[k] == d.id;
      }
    }
    VlanTopology(nodes, base.links + a.linkData, base.visibleDevs.Put(a.device.id, ids))
  }

  /** One iteration of the fold: the agent's VLAN gets its new entry; no other VLAN
      changes. */
  function AddAgentTopology(nt: Dict<VlanTopology>, a: Agent, nowMs: int): (r: Dict<VlanTopology>)
    requires nt.Valid()
    ensures r.Valid()
    ensures r.vals.Keys == nt.vals.Keys + {a.device.vlan}
    ensures forall w :: w in nt.vals && w != a.device.vlan ==> r.vals[w] == nt.vals[w]
    ensures r.vals[a.device.vlan] == AgentEntry(Base(nt, a.device.vlan), a, nowMs)
  {
    nt.Put(a.device.vlan, AgentEntry(Base(nt, a.device.vlan), a, nowMs))
  }

  /** The fold over all agents, in store order. */
  function TopologyFold(agents: seq<Agent>, nowMs: int): (r: Dict<VlanTopology>)
    decreases |agents|
    ensures r.Valid()
  {
    if agents == [] then Empty()
    else AddAgentTopology(TopologyFold(agents[..|agents| - 1], nowMs), agents[|agents| - 1], nowMs)
  }

  /** A VLAN has an entry exactly when some agent is on it. */
  lemma {:induction false} TopologyVlans(agents: seq<Agent>, nowMs: int, v: string)
    decreases |agents|
    ensures v in TopologyFold(agents, nowMs).vals <==> exists i :: 0 <= i < |agents| && agents[i].device.vlan == v
  {
    if agents != [] {
      var prefix := agents[..|agents| - 1];
      TopologyVlans(prefix, nowMs, v);
      if exists i :: 0 <= i < |prefix| && prefix[i].device.vlan == v {
        var i :| 0 <= i < |prefix| && prefix[i].device.vlan == v;
        assert agents[i].device.vlan == v;
      }
      if exists i :: 0 <= i < |agents| && agents[i].device.vlan == v {
        var i :| 0 <= i < |agents| && agents[i].device.vlan == v;
        if i < |prefix| { assert prefix[i].device.vlan == v; }
      }
    }
  }

  /** Reference: the links of a VLAN's agents, concatenated in agent order. */
  function VlanLinks(agents: seq<Agent>, v: string): seq<Link>
    decreases |agents|
  {
    if agents == [] then []
    else
      var a := agents[|agents| - 1];
      VlanLinks(agents[..|agents| - 1], v) + (if a.device.vlan == v then a.linkData else [])
  }

  /** A VLAN's `links` is the concatenation of its agents' `link_data` in agent order. */
  lemma {:induction false} TopologyLinks(agents: seq<Agent>, nowMs: int, v: string)
    decreases |agents|
    requires exists i :: 0 <= i < |agents| && agents[i].device.vlan == v
    ensures v in TopologyFold(agents, nowMs).vals && TopologyFold(agents, nowMs).vals[v].links == VlanLinks(agents, v)
  {
    TopologyVlans(agents, nowMs, v);
    var prefix := agents[..|agents| - 1];
    var a := agents[|agents| - 1];
    var before := TopologyFold(prefix, nowMs);
    var t := AddAgentTopology(before, a, nowMs);
    assert TopologyFold(agents, nowMs) == t;
    assert VlanLinks(agents, v) == VlanLinks(prefix, v) + (if a.device.vlan == v then a.linkData else []);
    TopologyVlans(prefix, nowMs, v);
    if v in before.vals {
      TopologyLinks(prefix, nowMs, v);
      if a.device.vlan != v {
        assert t.vals[v] == before.vals[v];
      } else {
        assert t.vals[v].links == before.vals[v].links + a.linkData;
      }
    } else {
      assert a.device.vlan == v;
      NoLinksOutside(prefix, v);
      assert t.vals[v].links == [] + a.linkData;
    }
  }

  lemma {:induction false} NoLinksOutside(agents: seq<Agent>, v: string)
    decreases |agents|
    requires forall i :: 0 <= i < |agents| ==> agents[i].device.vlan != v
    ensures VlanLinks(agents, v) == []
  {
    if agents != [] {
      var prefix := agents[..|agents| - 1];
      assert forall i :: 0 <= i < |prefix| ==> prefix[i] == agents[i];
      NoLinksOutside(prefix, v);
    }
  }

  /** Every agent, and each of its devices, is a node of its VLAN. */
  lemma {:induction false} TopologyNodes(agents: seq<Agent>, nowMs: int, i: nat)
    decreases |agents|
    requires i < |agents|
    ensures var t := TopologyFold(agents, nowMs);
      agents[i].device.vlan in t.vals && HasNodesOf(t.vals[agents[i].device.vlan], agents[i])
  {
    var prefix := agents[..|agents| - 1];
    var last := agents[|agents| - 1];
    var a := agents[i];
    var t := TopologyFold(agents, nowMs);
    var before := TopologyFold(prefix, nowMs);
    assert t == AddAgentTopology(before, last, nowMs);
    if i < |agents| - 1 {
      assert prefix[i] == a;
      TopologyNodes(prefix, nowMs, i);
      if last.device.vlan == a.device.vlan {
        NodesKept(before.vals[a.device.vlan], t.vals[a.device.vlan], a);
      } else {
        assert t.vals[a.device.vlan] == before.vals[a.device.vlan];
      }
    } else {
      var e := AgentEntry(Base(before, a.device.vlan), a, nowMs);
      assert t.vals[a.device.vlan] == e;
      assert HasNodesOf(e, a);
    }
  }

  /** The agent and each of its devices are nodes of the entry. */
  predicate HasNodesOf(e: VlanTopology, a: Agent) {
    && a.device.id in e.nodes.vals
    && forall d :: d in a.visibleDevices.Values() ==> d.id in e.nodes.vals
  }

  lemma NodesKept(e: VlanTopology, e': VlanTopology, a: Agent)
    requires HasNodesOf(e, a) && e.nodes.vals.Keys <= e'.nodes.vals.Keys
    ensures HasNodesOf(e', a)
  {
  }

  /** No two agents share an id (the id is the store's primary key). */
  predicate DistinctAgentIds(agents: seq<Agent>) {
    forall p, q :: 0 <= p < q < |agents| ==> agents[p].device.id != agents[q].device.id
  }

  /** Dropping the last agent keeps the ids distinct, and the last agent's id is not among
      the others. */
  lemma DistinctAgentIdsPrefix(agents: seq<Agent>, i: nat)
    requires DistinctAgentIds(agents) && i < |agents| - 1
    ensures DistinctAgentIds(agents[..|agents| - 1])
    ensures agents[i].device.id != agents[|agents| - 1].device.id
  {
    var prefix := agents[..|agents| - 1];
    forall p, q | 0 <= p < q < |prefix| ensures prefix[p].device.id != prefix[q].device.id {
      assert prefix[p] == agents[p] && prefix[q] == agents[q];
    }
  }

  /** With distinct agent ids, `visible_devs[agent]` lists exactly that agent's device ids,
      in order. */
  lemma {:induction false} TopologyVisibleDevs(agents: seq<Agent>, nowMs: int, i: nat)
    decreases |agents|
    requires i < |agents|
    requires DistinctAgentIds(agents)
    ensures var t := TopologyFold(agents, nowMs);
      var a := agents[i];
      && a.device.vlan in t.vals
      && a.device.id in t.vals[a.device.vlan].visibleDevs.vals
      && t.vals[a.device.vlan].visibleDevs.vals[a.device.id] == DeviceIds(a.visibleDevices.Values())
  {
    var prefix := agents[..|agents| - 1];
    var last := agents[|agents| - 1];
    var a := agents[i];
    var before := TopologyFold(prefix, nowMs);
    var t := AddAgentTopology(before, last, nowMs);
    assert TopologyFold(agents, nowMs) == t;
    if i < |agents| - 1 {
      assert prefix[i] == a;
      DistinctAgentIdsPrefix(agents, i);
      TopologyVisibleDevs(prefix, nowMs, i);
      var ids := before.vals[a.device.vlan].visibleDevs.vals[a.device.id];
      if last.device.vlan == a.device.vlan {
        assert t.vals[a.device.vlan].visibleDevs.vals[a.device.id] == ids;
      } else {
        assert t.vals[a.device.vlan] == before.vals[a.device.vlan];
      }
    } else {
      assert t.vals[a.device.vlan] == AgentEntry(Base(before, a.device.vlan), a, nowMs);
    }
  }

  /** `getNetworkTopologyData`: the per-VLAN view, or the source's error when no agent is
      registered. */
  function NetworkTopology(agents: seq<Agent>, nowMs: int): (r: Result<Dict<VlanTopology>>)
    ensures r.Err? <==> agents == []
    ensures r.Ok? ==> r.value == TopologyFold(agents, nowMs)
  {
    if agents == [] then Err("No registered devices found") else Ok(TopologyFold(agents, nowMs))
  }
}
