/** The dashboard's client-side store (frontend/src/store/index.js, mutations.js and
    getters.js): its state, the mutations that replace or edit parts of it, and the
    getters that read it. */
module FrontStore {
  import opened Common
  import opened Dict
  import opened Json

  /** The notification list keeps at most this many entries when it starts within it. */
  const NotificationsLimit := 500

  datatype State = State(
    notificationsLimit: int,
    devices: Json,
    traffic: seq<Json>,
    networks: Json,
    notifications: seq<Json>,
    idsEvents: Json,
    networkTopology: Json,
    vlanTypes: Json,
    activeTab: Json,
    devicesInfo: Json,
    socketStatus: Json)

  /** The store's initial state. */
  function Initial(): (r: State)
    ensures r.notificationsLimit == NotificationsLimit && r.notifications == [] && r.traffic == []
    ensures !Truthy(r.activeTab)
  {
    State(NotificationsLimit, Null, [], Obj(Empty()), [], Arr([]), Null, Arr([]), Null, Obj(Empty()), Null)
  }

  // ---- Notifications ----

  /** `setNotification`: new notifications are appended when both lists fit the limit
      together. Otherwise, when the stored list is the longer one, as many of its oldest
      entries as there are new ones are dropped (`splice(n)` returns the tail from `n`) and
      the new ones appended; when it is not, nothing changes. */
  function AddNotifications(stored: seq<Json>, added: seq<Json>, limit: int): (r: seq<Json>)
    ensures |added| + |stored| <= limit ==> r == stored + added
    ensures |added| + |stored| > limit && |stored| > |added| ==> |r| == |stored| && r[..|stored| - |added|] == stored[|added|..] && r[|stored| - |added|..] == added
    ensures |added| + |stored| > limit && |stored| <= |added| ==> r == stored
  {
    if |added| + |stored| > limit then
      if |stored| > |added| then stored[|added|..] + added else stored
    else stored + added
  }

  /** A list within the limit stays within it, and every entry is a stored or an added one. */
  lemma NotificationsBounded(stored: seq<Json>, added: seq<Json>, limit: int)
    requires |stored| <= limit
    ensures |AddNotifications(stored, added, limit)| <= limit
    ensures forall n :: n in AddNotifications(stored, added, limit) ==> n in stored || n in added
    ensures |added| <= limit - |stored| || |stored| > |added| ==> forall n :: n in added ==> n in AddNotifications(stored, added, limit)
  {
    var r := AddNotifications(stored, added, limit);
    if |added| + |stored| > limit && |stored| > |added| {
      assert r == r[..|stored| - |added|] + r[|stored| - |added|..];
      forall n | n in r ensures n in stored || n in added {
        assert n in stored[|added|..] || n in added;
      }
    }
  }

  /** Where `Array.prototype.splice(idx, ...)` starts: a negative index counts from the
      end (and stops at the start), a large one stops at the end. */
  function SpliceStart(idx: int, len: nat): (r: nat)
    ensures r <= len
    ensures 0 <= idx ==> r == (if idx < len then idx else len)
    ensures idx < 0 ==> r == (if len + idx > 0 then len + idx else 0)
  {
    if idx < 0 then (if len + idx > 0 then len + idx else 0)
    else if idx < len then idx else len
  }

  /** `splice(idx, 1)` on a list, for `notificationViewed` and `dismissTrafficItem`. */
  function RemoveAt<T>(s: seq<T>, idx: int): (r: seq<T>)
    ensures SpliceStart(idx, |s|) < |s| ==> |r| == |s| - 1
    ensures SpliceStart(idx, |s|) == |s| ==> r == s
  {
    var p := SpliceStart(idx, |s|);
    if p < |s| then s[..p] + s[p + 1..] else s
  }

  /** Removing keeps every other entry in order and drops exactly the one at the start
      position: what is left plus that one is the same multiset. */
  lemma RemoveAtRemovesOne<T>(s: seq<T>, idx: int)
    requires SpliceStart(idx, |s|) < |s|
    ensures var p := SpliceStart(idx, |s|);
      var r := RemoveAt(s, idx);
      && (forall i :: 0 <= i < p ==> r[i] == s[i])
      && (forall i :: p <= i < |r| ==> r[i] == s[i + 1])
      && multiset(r) + multiset{s[p]} == multiset(s)
  {
    var p := SpliceStart(idx, |s|);
    assert s == s[..p] + [s[p]] + s[p + 1..];
  }

  /** An index within the list, from either end, removes that entry; an index past the end
      removes nothing; one before the start removes the first entry. */
  lemma RemoveAtPositions<T>(s: seq<T>, idx: int)
    ensures 0 <= idx < |s| ==> RemoveAt(s, idx) == s[..idx] + s[idx + 1..]
    ensures -|s| <= idx < 0 ==> RemoveAt(s, idx) == s[..|s| + idx] + s[|s| + idx + 1..]
    ensures idx >= |s| ==> RemoveAt(s, idx) == s
    ensures idx < -|s| && |s| > 0 ==> RemoveAt(s, idx) == s[1..]
  {
  }

  // ---- Mutations ----

  datatype Mutation =
    | SaveTopology(params: Json)
    | SetTopology(networks: Json)
    | SetInfo(info: Json)
    | SetNotifications(all: seq<Json>)
    | SetNotification(added: seq<Json>)
    | SetDevices(devices: Json)
    | SetTraffic(traffic: seq<Json>)
    | SetIdsEvents(events: Json)
    | DismissTrafficItem(idx: int)
    | NotificationViewed(idx: int)
    | SetVlanTypes(types: Json)
    | SetActiveTab(tab: Json)
    | SocketStatus(status: Json)

  /** The state fields a mutation can write. */
  datatype Field =
    | DevicesField | TrafficField | NetworksField | NotificationsField | IdsEventsField
    | NetworkTopologyField | VlanTypesField | ActiveTabField | DevicesInfoField | SocketStatusField

  /** The one field each mutation writes. */
  function Writes(m: Mutation): Field {
    match m
    case SaveTopology(_) => NetworkTopologyField
    case SetTopology(_) => NetworksField
    case SetInfo(_) => DevicesInfoField
    case SetNotifications(_) => NotificationsField
    case SetNotification(_) => NotificationsField
    case SetDevices(_) => DevicesField
    case SetTraffic(_) => TrafficField
    case SetIdsEvents(_) => IdsEventsField
    case DismissTrafficItem(_) => TrafficField
    case NotificationViewed(_) => NotificationsField
    case SetVlanTypes(_) => VlanTypesField
    case SetActiveTab(_) => ActiveTabField
    case SocketStatus(_) => SocketStatusField
  }

  /** Every field other than `f`, and the limit, is the same in both states. */
  predicate SameExcept(s: State, r: State, f: Field) {
    && r.notificationsLimit == s.notificationsLimit
    && (f != DevicesField ==> r.devices == s.devices)
    && (f != TrafficField ==> r.traffic == s.traffic)
    && (f != NetworksField ==> r.networks == s.networks)
    && (f != NotificationsField ==> r.notifications == s.notifications)
    && (f != IdsEventsField ==> r.idsEvents == s.idsEvents)
    && (f != NetworkTopologyField ==> r.networkTopology == s.networkTopology)
    && (f != VlanTypesField ==> r.vlanTypes == s.vlanTypes)
    && (f != ActiveTabField ==> r.activeTab == s.activeTab)
    && (f != DevicesInfoField ==> r.devicesInfo == s.devicesInfo)
    && (f != SocketStatusField ==> r.socketStatus == s.socketStatus)
  }

  /** `commit(mutation)`: each mutation writes its own field and nothing else. Plain setters
      store their payload; `setNotification` appends within the limit and the two removals
      splice one entry out. */
  function Commit(s: State, m: Mutation): (r: State)
    ensures SameExcept(s, r, Writes(m))
    ensures r.notificationsLimit == s.notificationsLimit
    ensures !m.SetNotifications? && !m.SetNotification? && !m.NotificationViewed? ==> r.notifications == s.notifications
    ensures !m.SetTraffic? && !m.DismissTrafficItem? ==> r.traffic == s.traffic
    ensures m.SetNotifications? ==> r.notifications == m.all
    ensures m.SetNotification? ==> r.notifications == AddNotifications(s.notifications, m.added, s.notificationsLimit)
    ensures m.NotificationViewed? ==> r.notifications == RemoveAt(s.notifications, m.idx)
    ensures m.DismissTrafficItem? ==> r.traffic == RemoveAt(s.traffic, m.idx)
    ensures m.SaveTopology? ==> r.networkTopology == m.params
    ensures m.SetTopology? ==> r.networks == m.networks
    ensures m.SetInfo? ==> r.devicesInfo == m.info
    ensures m.SetDevices? ==> r.devices == m.devices
    ensures m.SetTraffic? ==> r.traffic == m.traffic
    ensures m.SetIdsEvents? ==> r.idsEvents == m.events
    ensures m.SetVlanTypes? ==> r.vlanTypes == m.types
    ensures m.SetActiveTab? ==> r.activeTab == m.tab
    ensures m.SocketStatus? ==> r.socketStatus == m.status
  {
    match m
    case SaveTopology(p) => s.(networkTopology := p)
    case SetTopology(d) => s.(networks := d)
    case SetInfo(i) => s.(devicesInfo := i)
    case SetNotifications(ns) => s.(notifications := ns)
    case SetNotification(ns) => s.(notifications := AddNotifications(s.notifications, ns, s.notificationsLimit))
    case SetDevices(d) => s.(devices := d)
    case SetTraffic(t) => s.(traffic := t)
    case SetIdsEvents(e) => s.(idsEvents := e)
    case DismissTrafficItem(idx) => s.(traffic := RemoveAt(s.traffic, idx))
    case NotificationViewed(idx) => s.(notifications := RemoveAt(s.notifications, idx))
    case SetVlanTypes(t) => s.(vlanTypes := t)
    case SetActiveTab(t) => s.(activeTab := t)
    case SocketStatus(st) => s.(socketStatus := st)
  }

  /** Starting within the limit (as the initial state does), any sequence of mutations
      keeps the notification list within it, as long as `setNotifications` is only given
      lists within it. */
  lemma {:induction false} NotificationsStayBounded(s: State, ms: seq<Mutation>)
    decreases |ms|
    requires |s.notifications| <= s.notificationsLimit
    requires forall i :: 0 <= i < |ms| && ms[i].SetNotifications? ==> |ms[i].all| <= s.notificationsLimit
    ensures |Run(s, ms).notifications| <= s.notificationsLimit
  {
    if ms != [] {
      var next := Commit(s, ms[0]);
      if ms[0].SetNotification? {
        NotificationsBounded(s.notifications, ms[0].added, s.notificationsLimit);
      }
      assert forall i :: 1 <= i < |ms| ==> ms[1..][i - 1] == ms[i];
      NotificationsStayBounded(next, ms[1..]);
    }
  }

  /** Mutations that write different fields commute: neither reads the field the other
      writes. */
  lemma CommitsCommute(s: State, a: Mutation, b: Mutation)
    requires Writes(a) != Writes(b)
    ensures Commit(Commit(s, a), b) == Commit(Commit(s, b), a)
  {
  }

  /** Mutations committed one after another. */
  function Run(s: State, ms: seq<Mutation>): State
    decreases |ms|
  {
    if ms == [] then s else Run(Commit(s, ms[0]), ms[1..])
  }

  // ---- Getters ----

  function Reverse<T>(s: seq<T>): (r: seq<T>)
    ensures |r| == |s|
    ensures forall i :: 0 <= i < |s| ==> r[i] == s[|s| - 1 - i]
  {
    if s == [] then [] else Reverse(s[1..]) + [s[0]]
  }

  /** Reversing twice gives the list back. */
  lemma ReverseReverse<T>(s: seq<T>)
    ensures Reverse(Reverse(s)) == s
  {
  }

  datatype Getter =
    | SocketStatusOf | DeviceInfo | Devices | ActiveTab | Networks | Traffic | IdsEvents | Notifications | VlanTypes

  /** `getActiveTab`: `false` for a falsy tab or the text "null". */
  function ActiveTabOf(tab: Json): (r: Json)
    ensures !Truthy(tab) || tab == Str("null") <==> r == Bool(false)
    ensures r != Bool(false) ==> r == tab
  {
    if !Truthy(tab) || tab == Str("null") then Bool(false) else tab
  }

  /** The store's getters. `notifications` gives the list newest first, reversing a copy. */
  function Read(s: State, g: Getter): (r: Json)
    ensures g == Notifications ==> r.Arr? && |r.items| == |s.notifications|
    ensures g == Notifications ==> forall i :: 0 <= i < |s.notifications| ==> r.items[i] == s.notifications[|s.notifications| - 1 - i]
    ensures g == ActiveTab ==> r == ActiveTabOf(s.activeTab)
  {
    match g
    case SocketStatusOf => s.socketStatus
    case DeviceInfo => s.devicesInfo
    case Devices => s.devices
    case ActiveTab => ActiveTabOf(s.activeTab)
    case Networks => s.networks
    case Traffic => Arr(s.traffic)
    case IdsEvents => s.idsEvents
    case Notifications => Arr(Reverse(s.notifications))
    case VlanTypes => s.vlanTypes
  }

  /** Whether a mutation only replaces a field that a getter reads back verbatim. */
  predicate PlainSetter(m: Mutation) {
    m.SetTopology? || m.SetInfo? || m.SetDevices? || m.SetTraffic? || m.SetIdsEvents? || m.SetVlanTypes? || m.SocketStatus?
  }

  function GetterFor(m: Mutation): Getter
    requires PlainSetter(m)
  {
    match m
    case SetTopology(_) => Networks
    case SetInfo(_) => DeviceInfo
    case SetDevices(_) => Devices
    case SetTraffic(_) => Traffic
    case SetIdsEvents(_) => IdsEvents
    case SetVlanTypes(_) => VlanTypes
    case SocketStatus(_) => SocketStatusOf
  }

  function ValueOf(m: Mutation): Json
    requires PlainSetter(m)
  {
    match m
    case SetTopology(v) => v
    case SetInfo(v) => v
    case SetDevices(v) => v
    case SetTraffic(v) => Arr(v)
    case SetIdsEvents(v) => v
    case SetVlanTypes(v) => v
    case SocketStatus(v) => v
  }

  /** A field set by its mutation is read back unchanged by its getter, and the other
      getters read what they read before. */
  lemma SetThenGet(s: State, m: Mutation, g: Getter)
    requires PlainSetter(m)
    ensures Read(Commit(s, m), GetterFor(m)) == ValueOf(m)
    ensures g != GetterFor(m) ==> Read(Commit(s, m), g) == Read(s, g)
  {
  }

  /** Reading the notifications leaves the state as it was, and the list newest first
      reversed again is the stored list. */
  lemma NotificationsReadBack(s: State)
    ensures Read(s, Notifications) == Arr(Reverse(s.notifications))
    ensures Reverse(Read(s, Notifications).items) == s.notifications
  {
    ReverseReverse(s.notifications);
  }

  /** The active tab set to "null" or to a falsy value reads back as `false`; any other
      value reads back as itself. */
  lemma ActiveTabReadBack(s: State, tab: Json)
    ensures Read(Commit(s, SetActiveTab(tab)), ActiveTab) == (if !Truthy(tab) || tab == Str("null") then Bool(false) else tab)
  {
  }
}
