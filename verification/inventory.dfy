/** The flattened device inventory: `getAllDevices` in backend/utils/db_utils.js (an object
    keyed by agent id and device MAC) and in backend/utils/utils.ts (a list). */
module Inventory {
  import opened Common
  import opened Dict
  import opened Schemas

  /** An inventory entry: an agent record or one of its visible devices. */
  datatype Entry = AgentEntry(agent: Agent) | DeviceEntry(device: Device)

  /** The agent as listed: its visible devices and links are cleared. */
  function Stripped(a: Agent): (r: Agent)
    ensures r.device == a.device && r.substationName == a.substationName
    ensures r.visibleDevices == Empty() && r.linkData == []
  {
    a.(visibleDevices := Empty(), linkData := [])
  }

  /** The inner loop over `Object.entries(agent_devices)`. */
  function AddDevices(acc: Dict<Entry>, ks: seq<string>, m: map<string, Device>): (r: Dict<Entry>)
    decreases |ks|
    ensures acc.Valid() ==> r.Valid()
    ensures r.vals.Keys == acc.vals.Keys + (set k | k in ks && k in m)
    ensures forall k :: k in r.vals ==> (k in ks && k in m && r.vals[k] == DeviceEntry(m[k])) || (!(k in ks && k in m) && r.vals[k] == acc.vals[k])
  {
    if ks == [] then acc
    else
      var acc1 := if ks[0] in m then acc.Put(ks[0], DeviceEntry(m[ks[0]])) else acc;
      var r := AddDevices(acc1, ks[1..], m);
      assert forall k :: k in ks <==> k == ks[0] || k in ks[1..] by { assert ks == [ks[0]] + ks[1..]; }
      r
  }

  function AddAgent(acc: Dict<Entry>, a: Agent): Dict<Entry> {
    AddDevices(acc.Put(a.device.id, AgentEntry(Stripped(a))), a.visibleDevices.keys, a.visibleDevices.vals)
  }

  /** The agent ids and the MACs of their visible devices. */
  function InventoryKeys(agents: seq<Agent>): set<string>
    decreases |agents|
  {
    if agents == [] then {}
    else
      var a := agents[|agents| - 1];
      InventoryKeys(agents[..|agents| - 1]) + {a.device.id} + a.visibleDevices.vals.Keys
  }

  /** `getAllDevices(agents_list)` (db_utils.js): later agents overwrite earlier entries with
      the same key. */
  function AllDevices(agents: seq<Agent>): (r: Dict<Entry>)
    decreases |agents|
    ensures r.Valid()
    ensures forall k :: k in r.vals && r.vals[k].AgentEntry? ==>
      r.vals[k].agent.visibleDevices == Empty() && r.vals[k].agent.linkData == []
  {
    if agents == [] then Empty()
    else AddAgent(AllDevices(agents[..|agents| - 1]), agents[|agents| - 1])
  }

  /** The inventory's keys are exactly all agent ids plus all visible-device MACs. */
  lemma {:induction false} AllDevicesKeys(agents: seq<Agent>)
    requires forall i :: 0 <= i < |agents| ==> agents[i].visibleDevices.Valid()
    decreases |agents|
    ensures AllDevices(agents).vals.Keys == InventoryKeys(agents)
  {
    if agents != [] {
      var a := agents[|agents| - 1];
      AllDevicesKeys(agents[..|agents| - 1]);
      assert (set k | k in a.visibleDevices.keys && k in a.visibleDevices.vals) == a.visibleDevices.vals.Keys;
    }
  }

  /** The device values of one agent followed by the agent itself. */
  function AgentGroup(a: Agent): seq<Entry> {
    DeviceEntries(a.visibleDevices.Values()) + [AgentEntry(Stripped(a))]
  }

  function DeviceEntries(ds: seq<Device>): (r: seq<Entry>)
    ensures |r| == |ds|
    ensures forall i :: 0 <= i < |ds| ==> r[i] == DeviceEntry(ds[i])
  {
    if ds == [] then [] else [DeviceEntry(ds[0])] + DeviceEntries(ds[1..])
  }

  /** `getAllDevices(agents)` (utils.ts). */
  function AllDevicesList(agents: seq<Agent>): seq<Entry>
  {
    if agents == [] then [] else AgentGroup(agents[0]) + AllDevicesList(agents[1..])
  }

  /** The agent entries of a list, in order. */
  function AgentsOf(es: seq<Entry>): seq<Agent> {
    if es == [] then []
    else (if es[0].AgentEntry? then [es[0].agent] else []) + AgentsOf(es[1..])
  }

  function StripAll(agents: seq<Agent>): (r: seq<Agent>)
    ensures |r| == |agents| && forall i :: 0 <= i < |agents| ==> r[i] == Stripped(agents[i])
  {
    if agents == [] then [] else [Stripped(agents[0])] + StripAll(agents[1..])
  }

  function VisibleCount(agents: seq<Agent>): nat {
    if agents == [] then 0 else |agents[0].visibleDevices.keys| + VisibleCount(agents[1..])
  }

  lemma {:induction false} AgentsOfAppend(a: seq<Entry>, b: seq<Entry>)
    decreases |a|
    ensures AgentsOf(a + b) == AgentsOf(a) + AgentsOf(b)
  {
    if a != [] {
      assert (a + b)[1..] == a[1..] + b && (a + b)[0] == a[0];
      AgentsOfAppend(a[1..], b);
      var h := if a[0].AgentEntry? then [a[0].agent] else [];
      assert AgentsOf(a + b) == h + AgentsOf(a[1..] + b);
      assert AgentsOf(a) == h + AgentsOf(a[1..]);
    } else {
      assert a + b == b;
    }
  }

  lemma {:induction false} AgentsOfDevices(ds: seq<Device>)
    decreases |ds|
    ensures AgentsOf(DeviceEntries(ds)) == []
  {
    if ds != [] {
      assert DeviceEntries(ds)[1..] == DeviceEntries(ds[1..]);
      AgentsOfDevices(ds[1..]);
    }
  }

  /** The list holds every agent once, stripped, in the input order, after its devices. */
  lemma {:induction false} AllDevicesListAgents(agents: seq<Agent>)
    decreases |agents|
    ensures AgentsOf(AllDevicesList(agents)) == StripAll(agents)
  {
    if agents != [] {
      var g := AgentGroup(agents[0]);
      AgentsOfAppend(g, AllDevicesList(agents[1..]));
      AgentsOfAppend(DeviceEntries(agents[0].visibleDevices.Values()), [AgentEntry(Stripped(agents[0]))]);
      AgentsOfDevices(agents[0].visibleDevices.Values());
      AllDevicesListAgents(agents[1..]);
      assert AgentsOf([AgentEntry(Stripped(agents[0]))]) == [Stripped(agents[0])];
    }
  }

  /** The list has one entry per agent plus one per visible device. */
  lemma {:induction false} AllDevicesListLength(agents: seq<Agent>)
    requires forall i :: 0 <= i < |agents| ==> agents[i].visibleDevices.Valid()
    decreases |agents|
    ensures |AllDevicesList(agents)| == |agents| + VisibleCount(agents)
  {
    if agents != [] {
      ValuesIndex(agents[0].visibleDevices);
      AllDevicesListLength(agents[1..]);
    }
  }

  /** `getDevicesData`: the inventory, or the source's error when no agent is registered. */
  function DevicesData(agents: seq<Agent>): (r: Result<Dict<Entry>>)
    ensures r.Err? <==> agents == []
    ensures r.Err? ==> r.msg == "No registered devices found"
    ensures r.Ok? ==> r.value == AllDevices(agents)
  {
    if agents == [] then Err("No registered devices found") else Ok(AllDevices(agents))
  }
}
