/** The dashboard's graph view-model (frontend/src/utils/ProcessNodeAndEdgeData.js):
    node and edge classification, merging of parallel and opposite edges, and grouping of
    a node's devices into one synthetic node. */
module FrontGraph {
  import opened Common
  import opened Dict
  import opened Json
  import opened Text
  import opened Schemas
  import opened Links
  import opened Topology

  // ---- Classification ----

  /** A node's style group and its status after the staleness override (`processNode`,
      which writes the status back into the node). */
  datatype NodeClass = NodeClass(group: string, status: string)

  function NodePrefix(kind: string): string {
    if kind == PhoenixBox then "node" else if kind == DeviceType then "device" else ""
  }

  function StatusSuffix(status: string): string {
    if status == "up" then "_up" else if status == "down" then "_down" else if status == "low" then "_low" else ""
  }

  /** `processNode`. A node whose update is over a minute old is shown down. */
  function ProcessNode(n: TopoNode, nowMs: int): (r: NodeClass)
    ensures Stale(nowMs, n.lastUpdate) ==> r.status == "down"
    ensures !Stale(nowMs, n.lastUpdate) ==> r.status == n.status
    ensures n.kind == PhoenixBox && r.status == "up" ==> r.group == "node_up"
    ensures n.kind == PhoenixBox && r.status == "down" ==> r.group == "node_down"
    ensures n.kind == DeviceType && r.status == "up" ==> r.group == "device_up"
    ensures n.kind == DeviceType && r.status == "down" ==> r.group == "device_down"
  {
    var status := if Stale(nowMs, n.lastUpdate) then "down" else n.status;
    NodeClass(NodePrefix(n.kind) + (if status == "up" then "_up" else if status == "down" then "_down" else ""), status)
  }

  /** A link as `processEdge` reads it: the status the backend sent, `Number(linkQuality)`
      (`None` for NaN) and the time of the report. */
  datatype LinkState = LinkState(status: string, quality: Option<real>, timestampMs: int)

  /** `processEdge({fromDev, toDev}, link)` with the endpoints given by their `type`: no
      group (`false`) when an endpoint is missing, `visible_devs` for a device attachment,
      and otherwise a prefix from the endpoint types and a suffix from the link status. */
  function ProcessEdge(fromDev: Option<string>, toDev: Option<string>, link: Option<LinkState>, nowMs: int): (r: Option<string>)
    ensures r.None? <==> fromDev.None? || toDev.None?
    ensures r.Some? && link.None? ==> r.value == "visible_devs"
    ensures r.Some? && link.Some? ==> r.value == EdgePrefix(fromDev.value, toDev.value) + StatusSuffix(EdgeStatus(link.value, nowMs))
  {
    if fromDev.None? || toDev.None? then None
    else if link.None? then Some("visible_devs")
    else Some(EdgePrefix(fromDev.value, toDev.value) + StatusSuffix(EdgeStatus(link.value, nowMs)))
  }

  /** `link` between two Phoenix Boxes, `node` from a Phoenix Box to anything else,
      `device` from a device. */
  function EdgePrefix(fromType: string, toType: string): (r: string)
    ensures fromType == PhoenixBox ==> (r == "link" <==> toType == PhoenixBox)
  {
    if fromType == PhoenixBox then (if toType == fromType then "link" else "node")
    else if fromType == DeviceType then "device" else ""
  }

  /** The link status shown: the quality thresholds of the backend first, then down when
      the report is over a minute old. */
  function EdgeStatus(link: LinkState, nowMs: int): (r: string)
    ensures Stale(nowMs, link.timestampMs) ==> r == "down"
    ensures !Stale(nowMs, link.timestampMs) ==> r == LinkStatus(link.status, link.quality)
  {
    if Stale(nowMs, link.timestampMs) then "down" else LinkStatus(link.status, link.quality)
  }

  /** A fresh link between two Phoenix Boxes is `link_low` exactly when its quality is in
      [0.5, 0.75] and `link_down` exactly when it is below 0.5. */
  lemma BoxLinkGroups(link: LinkState, nowMs: int)
    requires !Stale(nowMs, link.timestampMs) && link.quality.Some? && link.status == "up"
    ensures var g := ProcessEdge(Some(PhoenixBox), Some(PhoenixBox), Some(link), nowMs).value;
      && (g == "link_low" <==> 0.5 <= link.quality.value <= 0.75)
      && (g == "link_down" <==> link.quality.value < 0.5)
      && (g == "link_up" <==> link.quality.value > 0.75)
  {
    var g := ProcessEdge(Some(PhoenixBox), Some(PhoenixBox), Some(link), nowMs).value;
    var s := EdgeStatus(link, nowMs);
    assert g == "link" + StatusSuffix(s);
    assert ("link" + "_low")[4..] == "_low" && ("link" + "_down")[4..] == "_down" && ("link" + "_up")[4..] == "_up";
    assert g[4..] == StatusSuffix(s);
  }

  // ---- getCombinedLinks ----

  const Yellow := "#f39c12"
  const Red := "#dd4b39"
  const Green := "#00a65a"

  /** An edge of the view. `lan` edges carry no id; `arrowMiddle` is the middle arrow of a
      link edge (lan edges have none). */
  datatype Edge = Edge(
    kind: string, from: string, to: string, id: Option<string>, color: string, arrowMiddle: bool,
    titles: seq<Json>, timestampMs: int, quality: Option<real>)

  /** `getUniqueID`: the two endpoint ids, smaller first, concatenated. */
  function UniqueId(from: string, to: string): string {
    if Less(to, from) then to + from else from + to
  }

  /** The id of an edge does not depend on its direction. */
  lemma UniqueIdSymmetric(a: string, b: string)
    ensures UniqueId(a, b) == UniqueId(b, a)
  {
    LessAsymmetric(a, b);
    LessTotal(a, b);
  }

  /** `getMinLinkQuality`: the first quality recorded for an id, replaced by any smaller
      one (a missing or NaN quality compares false either way). */
  function MinQuality(lq: map<string, Option<real>>, id: string, q: Option<real>): (r: map<string, Option<real>>)
    ensures r.Keys == lq.Keys + {id}
    ensures forall k :: k in lq && k != id ==> r[k] == lq[k]
    ensures id !in lq ==> r[id] == q
    ensures id in lq ==> r[id] == (if Greater(lq[id], q) then q else lq[id])
  {
    if id in lq then (if Greater(lq[id], q) then lq[id := q] else lq) else lq[id := q]
  }

  function AddTitles(o: Option<Edge>, titles: seq<Json>): Option<Edge> {
    match o
    case Some(e) => Some(e.(titles := e.titles + titles))
    case None => None
  }

  /** The state of the merge: lan edges kept so far, merged edges by `from + to` (`None`
      once merged into the opposite direction), the quality per id and the ids whose
      arrow is `both`. */
  datatype Merge = Merge(lans: seq<Edge>, byKey: Dict<Option<Edge>>, quality: map<string, Option<real>>, both: set<string>)

  /** The merge key of an edge, `String(from) + String(to)`. */
  function KeyOf(e: Edge): string {
    e.from + e.to
  }

  /** The key of the opposite direction. */
  function ReverseKeyOf(e: Edge): string {
    e.to + e.from
  }

  /** No entry has been emptied yet (true throughout the first pass). */
  predicate NoneMerged(d: Dict<Option<Edge>>) {
    forall k :: k in d.vals ==> d.vals[k].Some?
  }

  /** One step of the first pass: a lan edge is set aside; any other edge gets its
      direction-free id, its quality folded in, and joins the entry of its `from + to` key. */
  function FirstStep(m: Merge, e: Edge): (r: Merge)
    requires m.byKey.Valid() && NoneMerged(m.byKey)
    ensures r.byKey.Valid() && r.both == m.both && NoneMerged(r.byKey)
    ensures r.lans == m.lans + (if e.kind == "lan" then [e] else [])
    ensures m.byKey.vals.Keys <= r.byKey.vals.Keys
    ensures e.kind != "lan" ==> KeyOf(e) in r.byKey.vals
  {
    if e.kind == "lan" then m.(lans := m.lans + [e])
    else
      var id := UniqueId(e.from, e.to);
      var key := KeyOf(e);
      var entry := if key in m.byKey.vals then AddTitles(m.byKey.vals[key], e.titles) else Some(e.(id := Some(id)));
      m.(byKey := m.byKey.Put(key, entry), quality := MinQuality(m.quality, id, e.quality))
  }

  /** The first pass over all edges. */
  function FirstPass(m: Merge, edges: seq<Edge>): (r: Merge)
    decreases |edges|
    requires m.byKey.Valid() && NoneMerged(m.byKey)
    ensures r.byKey.Valid() && r.both == m.both && NoneMerged(r.byKey)
  {
    if edges == [] then m
    else FirstPass(FirstStep(m, edges[0]), edges[1..])
  }

  /** The first pass sets the lan edges aside in their order. */
  lemma {:induction false} FirstPassLans(m: Merge, edges: seq<Edge>)
    decreases |edges|
    requires m.byKey.Valid() && NoneMerged(m.byKey)
    ensures FirstPass(m, edges).lans == m.lans + LanEdges(edges)
  {
    if edges != [] {
      var next := FirstStep(m, edges[0]);
      var head := if edges[0].kind == "lan" then [edges[0]] else [];
      var rest := LanEdges(edges[1..]);
      FirstPassLans(next, edges[1..]);
      AppendAssoc(m.lans, head, rest);
      assert FirstPass(m, edges) == FirstPass(next, edges[1..]);
    }
  }

  /** The first pass files every edge but the lan ones under its key, and drops no key. */
  lemma {:induction false} FirstPassKeys(m: Merge, edges: seq<Edge>)
    decreases |edges|
    requires m.byKey.Valid() && NoneMerged(m.byKey)
    ensures m.byKey.vals.Keys <= FirstPass(m, edges).byKey.vals.Keys
    ensures forall i :: 0 <= i < |edges| && edges[i].kind != "lan" ==> KeyOf(edges[i]) in FirstPass(m, edges).byKey.vals
  {
    if edges != [] {
      var next := FirstStep(m, edges[0]);
      FirstPassKeys(next, edges[1..]);
      forall i | 0 <= i < |edges| && edges[i].kind != "lan"
        ensures KeyOf(edges[i]) in FirstPass(m, edges).byKey.vals
      {
        if i > 0 {
          assert edges[i] == edges[1..][i - 1];
        }
      }
    }
  }

  /** The lan edges of a list, in order. */
  function LanEdges(edges: seq<Edge>): seq<Edge> {
    if edges == [] then []
    else (if edges[0].kind == "lan" then [edges[0]] else []) + LanEdges(edges[1..])
  }

  /** The edge is a link and both of its directions still have an entry. */
  predicate BothPresent(m: Merge, e: Edge) {
    var ft := KeyOf(e);
    var tf := ReverseKeyOf(e);
    e.kind == "link" && ft in m.byKey.vals && tf in m.byKey.vals && m.byKey.vals[ft].Some? && m.byKey.vals[tf].Some?
  }

  /** One step of the second pass: a link edge whose opposite direction is also still
      present absorbs the opposite entry's titles, the opposite entry is emptied, and its id
      is marked `both`. */
  function SecondStep(m: Merge, e: Edge): (r: Merge)
    requires m.byKey.Valid()
    ensures r.byKey.Valid() && r.lans == m.lans && r.byKey.keys == m.byKey.keys
    ensures r.byKey.vals.Keys == m.byKey.vals.Keys && m.both <= r.both
    ensures forall k :: k in r.byKey.vals && r.byKey.vals[k].Some? ==> m.byKey.vals[k].Some?
    ensures e.kind == "link" && KeyOf(e) in r.byKey.vals && ReverseKeyOf(e) in r.byKey.vals ==>
      !(r.byKey.vals[KeyOf(e)].Some? && r.byKey.vals[ReverseKeyOf(e)].Some?)
    ensures !BothPresent(m, e) ==> r.byKey == m.byKey && r.both == m.both
    ensures BothPresent(m, e) ==>
      var ft := KeyOf(e);
      var tf := ReverseKeyOf(e);
      && r.byKey.vals[tf].None?
      && UniqueId(e.from, e.to) in r.both
      && (ft != tf ==> r.byKey.vals[ft] == AddTitles(m.byKey.vals[ft], m.byKey.vals[tf].value.titles))
      && forall k :: k in m.byKey.vals && k != ft && k != tf ==> r.byKey.vals[k] == m.byKey.vals[k]
  {
    var ft := KeyOf(e);
    var tf := ReverseKeyOf(e);
    if e.kind != "link" then m
    else
      var id := UniqueId(e.from, e.to);
      var m1 := m.(quality := MinQuality(m.quality, id, e.quality));
      if BothPresent(m, e) then
        var joined := AddTitles(m.byKey.vals[ft], m.byKey.vals[tf].value.titles);
        m1.(both := m.both + {id}, byKey := m.byKey.Put(ft, joined).Put(tf, None))
      else m1
  }

  /** The second pass over all edges. */
  function SecondPass(m: Merge, edges: seq<Edge>): (r: Merge)
    decreases |edges|
    requires m.byKey.Valid()
    ensures r.byKey.Valid() && r.lans == m.lans && r.byKey.keys == m.byKey.keys
    ensures r.byKey.vals.Keys == m.byKey.vals.Keys
    ensures forall k :: k in r.byKey.vals && r.byKey.vals[k].Some? ==> m.byKey.vals[k].Some?
  {
    if edges == [] then m
    else SecondPass(SecondStep(m, edges[0]), edges[1..])
  }

  /** After the second pass no link of the list has both of its directions surviving. */
  lemma {:induction false} SecondPassSeparates(m: Merge, edges: seq<Edge>)
    decreases |edges|
    requires m.byKey.Valid()
    ensures var r := SecondPass(m, edges);
      forall i :: 0 <= i < |edges| && edges[i].kind == "link" ==>
        KeyOf(edges[i]) in r.byKey.vals && ReverseKeyOf(edges[i]) in r.byKey.vals ==>
          !(r.byKey.vals[KeyOf(edges[i])].Some? && r.byKey.vals[ReverseKeyOf(edges[i])].Some?)
  {
    if edges != [] {
      var next := SecondStep(m, edges[0]);
      SecondPassSeparates(next, edges[1..]);
      assert SecondPass(m, edges) == SecondPass(next, edges[1..]);
      assert forall i :: 1 <= i < |edges| ==> edges[1..][i - 1] == edges[i];
    }
  }

  /** `ModifyEdgeData`: colour from the id's recorded quality, red when stale, and no
      middle arrow when both directions were merged. */
  function ModifyEdge(e: Edge, quality: map<string, Option<real>>, both: set<string>, nowMs: int): (r: Edge)
    ensures r.(color := e.color, arrowMiddle := e.arrowMiddle) == e
    ensures Stale(nowMs, e.timestampMs) ==> r.color == Red
    ensures e.id.Some? && e.id.value in both ==> !r.arrowMiddle
  {
    var key := JsText(e.id);
    var c :=
      if key in quality && quality[key].Some? then
        var q := quality[key].value;
        if q <= 0.75 && q >= 0.5 then Yellow else if q < 0.5 then Red else Green
      else e.color;
    var c' := if Stale(nowMs, e.timestampMs) then Red else c;
    e.(color := c', arrowMiddle := if key in both then false else e.arrowMiddle)
  }

  /** Third pass: the surviving entries, in key order, restyled. */
  function Emit(entries: seq<Option<Edge>>, quality: map<string, Option<real>>, both: set<string>, nowMs: int): (r: seq<Edge>)
    ensures |r| <= |entries|
  {
    if entries == [] then []
    else
      (match entries[0]
       case Some(e) => [ModifyEdge(e, quality, both, nowMs)]
       case None => []) + Emit(entries[1..], quality, both, nowMs)
  }

  /** `getCombinedLinks`. */
  function CombinedLinks(edges: seq<Edge>, nowMs: int): (r: seq<Edge>)
    ensures edges == [] ==> r == []
    ensures |LanEdges(edges)| <= |r| && r[..|LanEdges(edges)|] == LanEdges(edges)
  {
    if edges == [] then []
    else
      var m1 := FirstPass(Merge([], Empty(), map[], {}), edges);
      FirstPassLans(Merge([], Empty(), map[], {}), edges);
      var m2 := SecondPass(m1, edges);
      var out := m2.lans + Emit(m2.byKey.Values(), m2.quality, m2.both, nowMs);
      assert out[..|m2.lans|] == m2.lans;
      out
  }

  /** After merging, a link's two directions never both survive: at most one edge is
      emitted for the pair. */
  lemma OppositeDirectionsMerged(edges: seq<Edge>, i: nat)
    requires i < |edges| && edges[i].kind == "link"
    ensures var m2 := SecondPass(FirstPass(Merge([], Empty(), map[], {}), edges), edges);
      var ft := KeyOf(edges[i]);
      var tf := ReverseKeyOf(edges[i]);
      ft in m2.byKey.vals && (tf in m2.byKey.vals ==> !(m2.byKey.vals[ft].Some? && m2.byKey.vals[tf].Some?))
  {
    var m1 := FirstPass(Merge([], Empty(), map[], {}), edges);
    FirstPassKeys(Merge([], Empty(), map[], {}), edges);
    SecondPassSeparates(m1, edges);
  }

  /** A link from a node to itself is dropped: its entry is its own opposite direction. */
  lemma SelfLinkDropped(edges: seq<Edge>, i: nat)
    requires i < |edges| && edges[i].kind == "link" && edges[i].from == edges[i].to
    ensures var m2 := SecondPass(FirstPass(Merge([], Empty(), map[], {}), edges), edges);
      KeyOf(edges[i]) in m2.byKey.vals && m2.byKey.vals[KeyOf(edges[i])].None?
  {
    OppositeDirectionsMerged(edges, i);
  }

  /** Every endpoint id has length `n`, as the store's object ids do; then a key
      `from + to` names its two endpoints unambiguously. */
  predicate SameLengthIds(edges: seq<Edge>, n: nat) {
    forall j :: 0 <= j < |edges| ==> |edges[j].from| == n && |edges[j].to| == n
  }

  /** Two concatenations with equal-length heads split the same way. */
  lemma ConcatSplits(a: string, b: string, c: string, d: string)
    requires |a| == |c| && a + b == c + d
    ensures a == c && b == d
  {
    assert a == (a + b)[..|a|] && c == (c + d)[..|c|];
    assert b == (a + b)[|a|..] && d == (c + d)[|c|..];
  }

  /** Each surviving entry sits under its own `from + to` key, has endpoints of length
      `n`, and carries the direction-free id of its endpoints. */
  predicate EntriesKeyed(d: Dict<Option<Edge>>, n: nat) {
    forall k :: k in d.vals && d.vals[k].Some? ==>
      && KeyOf(d.vals[k].value) == k && |d.vals[k].value.from| == n && |d.vals[k].value.to| == n
      && d.vals[k].value.id == Some(UniqueId(d.vals[k].value.from, d.vals[k].value.to))
  }

  lemma FirstStepKeyed(m: Merge, e: Edge, n: nat)
    requires m.byKey.Valid() && NoneMerged(m.byKey) && EntriesKeyed(m.byKey, n)
    requires |e.from| == n && |e.to| == n
    ensures EntriesKeyed(FirstStep(m, e).byKey, n)
  {
    if e.kind != "lan" {
      var key := KeyOf(e);
      var r := FirstStep(m, e);
      assert r.byKey.vals == m.byKey.vals[key := r.byKey.vals[key]];
      if key in m.byKey.vals {
        assert r.byKey.vals[key] == AddTitles(m.byKey.vals[key], e.titles);
      } else {
        assert r.byKey.vals[key] == Some(e.(id := Some(UniqueId(e.from, e.to))));
      }
    }
  }

  lemma {:induction false} FirstPassKeyed(m: Merge, edges: seq<Edge>, n: nat)
    decreases |edges|
    requires m.byKey.Valid() && NoneMerged(m.byKey) && EntriesKeyed(m.byKey, n) && SameLengthIds(edges, n)
    ensures EntriesKeyed(FirstPass(m, edges).byKey, n)
  {
    if edges != [] {
      FirstStepKeyed(m, edges[0], n);
      assert SameLengthIds(edges[1..], n) by {
        assert forall j :: 0 <= j < |edges[1..]| ==> edges[1..][j] == edges[j + 1];
      }
      FirstPassKeyed(FirstStep(m, edges[0]), edges[1..], n);
    }
  }

  lemma {:induction false} SecondPassKeyed(m: Merge, edges: seq<Edge>, n: nat)
    decreases |edges|
    requires m.byKey.Valid() && EntriesKeyed(m.byKey, n)
    ensures EntriesKeyed(SecondPass(m, edges).byKey, n)
  {
    if edges != [] {
      var next := SecondStep(m, edges[0]);
      assert EntriesKeyed(next.byKey, n);
      SecondPassKeyed(next, edges[1..], n);
    }
  }

  /** The two directions of the pair `a`, `b` both have keys, at least one entry survives,
      and once one is emptied the pair's id is marked `both`. */
  predicate PairKept(m: Merge, a: string, b: string) {
    && a + b in m.byKey.vals && b + a in m.byKey.vals
    && (m.byKey.vals[a + b].Some? || m.byKey.vals[b + a].Some?)
    && (m.byKey.vals[a + b].None? || m.byKey.vals[b + a].None? ==> UniqueId(a, b) in m.both)
  }

  /** A second-pass step keeps a pair: the only step that empties one of its entries is the
      merge of that very pair, which fills the other one and marks the pair. */
  lemma SecondStepKeepsPair(m: Merge, e: Edge, a: string, b: string, n: nat)
    requires m.byKey.Valid() && PairKept(m, a, b)
    requires |a| == n && |b| == n && a != b && |e.from| == n && |e.to| == n
    ensures PairKept(SecondStep(m, e), a, b)
  {
    assert (a + b)[..n] == a && (b + a)[..n] == b;
    UniqueIdSymmetric(a, b);
    var ft := KeyOf(e);
    var tf := ReverseKeyOf(e);
    if ft == a + b { ConcatSplits(e.from, e.to, a, b); }
    if ft == b + a { ConcatSplits(e.from, e.to, b, a); }
    if tf == a + b { ConcatSplits(e.to, e.from, a, b); }
    if tf == b + a { ConcatSplits(e.to, e.from, b, a); }
    if BothPresent(m, e) {
      var r := SecondStep(m, e);
      assert UniqueId(e.from, e.to) in r.both;
    }
  }

  lemma {:induction false} SecondPassKeepsPair(m: Merge, edges: seq<Edge>, a: string, b: string, n: nat)
    decreases |edges|
    requires m.byKey.Valid() && PairKept(m, a, b) && SameLengthIds(edges, n)
    requires |a| == n && |b| == n && a != b
    ensures PairKept(SecondPass(m, edges), a, b)
  {
    if edges != [] {
      SecondStepKeepsPair(m, edges[0], a, b, n);
      assert SameLengthIds(edges[1..], n) by {
        assert forall j :: 0 <= j < |edges[1..]| ==> edges[1..][j] == edges[j + 1];
      }
      SecondPassKeepsPair(SecondStep(m, edges[0]), edges[1..], a, b, n);
    }
  }

  /** A link reported in both directions between two distinct nodes, with ids of equal
      length: after merging exactly one of its directions survives, it joins the two
      nodes, carries their direction-free id, and that id is marked `both`, so the edge is
      drawn without a middle arrow. */
  lemma OppositeDirectionsCombined(edges: seq<Edge>, i: nat, j: nat, n: nat, nowMs: int)
    requires i < |edges| && j < |edges| && SameLengthIds(edges, n)
    requires edges[i].kind == "link" && edges[j].kind != "lan" && edges[i].from != edges[i].to
    requires edges[j].from == edges[i].to && edges[j].to == edges[i].from
    ensures var m2 := SecondPass(FirstPass(Merge([], Empty(), map[], {}), edges), edges);
      var a := edges[i].from;
      var b := edges[i].to;
      && a + b in m2.byKey.vals && b + a in m2.byKey.vals
      && (m2.byKey.vals[a + b].Some? <==> m2.byKey.vals[b + a].None?)
      && UniqueId(a, b) in m2.both
      && var s := if m2.byKey.vals[a + b].Some? then m2.byKey.vals[a + b].value else m2.byKey.vals[b + a].value;
        && ((s.from == a && s.to == b) || (s.from == b && s.to == a))
        && s.id == Some(UniqueId(a, b))
        && !ModifyEdge(s, m2.quality, m2.both, nowMs).arrowMiddle
  {
    var a := edges[i].from;
    var b := edges[i].to;
    var m1 := FirstPass(Merge([], Empty(), map[], {}), edges);
    FirstPassPair(edges, i, j, n);
    SecondPassKeepsPair(m1, edges, a, b, n);
    SecondPassKeyed(m1, edges, n);
    OppositeDirectionsMerged(edges, i);
    PairSurvivor(SecondPass(m1, edges), a, b, n, nowMs);
  }

  /** After the first pass both directions of the pair have a surviving entry. */
  lemma FirstPassPair(edges: seq<Edge>, i: nat, j: nat, n: nat)
    requires i < |edges| && j < |edges| && SameLengthIds(edges, n)
    requires edges[i].kind == "link" && edges[j].kind != "lan"
    requires edges[j].from == edges[i].to && edges[j].to == edges[i].from
    ensures var m1 := FirstPass(Merge([], Empty(), map[], {}), edges);
      m1.byKey.Valid() && PairKept(m1, edges[i].from, edges[i].to) && EntriesKeyed(m1.byKey, n)
  {
    var m0 := Merge([], Empty(), map[], {});
    FirstPassKeys(m0, edges);
    FirstPassKeyed(m0, edges, n);
    assert KeyOf(edges[j]) == edges[i].to + edges[i].from;
  }

  /** Every surviving entry is drawn, restyled. */
  lemma {:induction false} EmitContains(entries: seq<Option<Edge>>, quality: map<string, Option<real>>, both: set<string>,
                                        nowMs: int, k: nat)
    requires k < |entries| && entries[k].Some?
    ensures ModifyEdge(entries[k].value, quality, both, nowMs) in Emit(entries, quality, both, nowMs)
  {
    if k > 0 {
      assert entries[1..][k - 1] == entries[k];
      EmitContains(entries[1..], quality, both, nowMs, k - 1);
    }
  }

  /** `getCombinedLinks` draws a link reported in both directions as an edge between its
      two nodes, with their direction-free id and no middle arrow. */
  lemma CombinedLinksDrawsPair(edges: seq<Edge>, i: nat, j: nat, n: nat, nowMs: int)
    requires i < |edges| && j < |edges| && SameLengthIds(edges, n)
    requires edges[i].kind == "link" && edges[j].kind != "lan" && edges[i].from != edges[i].to
    requires edges[j].from == edges[i].to && edges[j].to == edges[i].from
    ensures var a := edges[i].from;
      var b := edges[i].to;
      exists e :: e in CombinedLinks(edges, nowMs)
        && ((e.from == a && e.to == b) || (e.from == b && e.to == a))
        && e.id == Some(UniqueId(a, b)) && !e.arrowMiddle
  {
    var a := edges[i].from;
    var b := edges[i].to;
    OppositeDirectionsCombined(edges, i, j, n, nowMs);
    var m2 := SecondPass(FirstPass(Merge([], Empty(), map[], {}), edges), edges);
    var key := if m2.byKey.vals[a + b].Some? then a + b else b + a;
    var s := m2.byKey.vals[key].value;
    ValuesIndex(m2.byKey);
    var idx :| 0 <= idx < |m2.byKey.keys| && m2.byKey.keys[idx] == key;
    EmitContains(m2.byKey.Values(), m2.quality, m2.both, nowMs, idx);
    var e := ModifyEdge(s, m2.quality, m2.both, nowMs);
    assert e in CombinedLinks(edges, nowMs);
  }

  /** The survivor of a kept pair whose entries are keyed. */
  lemma PairSurvivor(m2: Merge, a: string, b: string, n: nat, nowMs: int)
    requires PairKept(m2, a, b) && EntriesKeyed(m2.byKey, n) && |a| == n && |b| == n
    requires !(m2.byKey.vals[a + b].Some? && m2.byKey.vals[b + a].Some?)
    ensures UniqueId(a, b) in m2.both
    ensures var s := if m2.byKey.vals[a + b].Some? then m2.byKey.vals[a + b].value else m2.byKey.vals[b + a].value;
      && ((s.from == a && s.to == b) || (s.from == b && s.to == a))
      && s.id == Some(UniqueId(a, b))
      && !ModifyEdge(s, m2.quality, m2.both, nowMs).arrowMiddle
  {
    var s := if m2.byKey.vals[a + b].Some? then m2.byKey.vals[a + b].value else m2.byKey.vals[b + a].value;
    if m2.byKey.vals[a + b].Some? {
      ConcatSplits(s.from, s.to, a, b);
    } else {
      ConcatSplits(s.from, s.to, b, a);
      UniqueIdSymmetric(a, b);
    }
  }

  function EdgeId(e: Edge): string {
    UniqueId(e.from, e.to)
  }

  /** Every recorded quality is a number. */
  predicate AllNumbers(lq: map<string, Option<real>>) {
    forall id :: id in lq ==> lq[id].Some?
  }

  /** Whether a pass folds an edge's quality in: the first pass takes every edge but the
      lan ones, the second only `link` edges. */
  predicate Counted(e: Edge, first: bool) {
    if first then e.kind != "lan" else e.kind == "link"
  }

  /** The qualities a pass records, on their own. */
  function QualityFold(lq: map<string, Option<real>>, edges: seq<Edge>, first: bool): map<string, Option<real>>
    decreases |edges|
  {
    if edges == [] then lq
    else
      var e := edges[0];
      QualityFold(if Counted(e, first) then MinQuality(lq, EdgeId(e), e.quality) else lq, edges[1..], first)
  }

  lemma {:induction false} FirstPassQualityIs(m: Merge, edges: seq<Edge>)
    decreases |edges|
    requires m.byKey.Valid() && NoneMerged(m.byKey)
    ensures FirstPass(m, edges).quality == QualityFold(m.quality, edges, true)
  {
    if edges != [] {
      FirstPassQualityIs(FirstStep(m, edges[0]), edges[1..]);
    }
  }

  lemma {:induction false} SecondPassQualityIs(m: Merge, edges: seq<Edge>)
    decreases |edges|
    requires m.byKey.Valid()
    ensures SecondPass(m, edges).quality == QualityFold(m.quality, edges, false)
  {
    if edges != [] {
      var next := SecondStep(m, edges[0]);
      assert SecondPass(m, edges) == SecondPass(next, edges[1..]);
      SecondPassQualityIs(next, edges[1..]);
    }
  }

  /** A fold records, per id, a number no larger than the quality of any counted edge with
      that id, and no larger than what was recorded before. */
  lemma {:induction false} QualityFoldBound(lq: map<string, Option<real>>, edges: seq<Edge>, first: bool)
    decreases |edges|
    requires AllNumbers(lq)
    requires forall i :: 0 <= i < |edges| && Counted(edges[i], first) ==> edges[i].quality.Some?
    ensures var r := QualityFold(lq, edges, first);
      && AllNumbers(r)
      && (forall i :: 0 <= i < |edges| && Counted(edges[i], first) ==>
            EdgeId(edges[i]) in r && r[EdgeId(edges[i])].value <= edges[i].quality.value)
      && (forall id :: id in lq ==> id in r && r[id].value <= lq[id].value)
  {
    if edges != [] {
      var e := edges[0];
      var next := if Counted(e, first) then MinQuality(lq, EdgeId(e), e.quality) else lq;
      assert forall i :: 1 <= i < |edges| ==> edges[1..][i - 1] == edges[i];
      QualityFoldBound(next, edges[1..], first);
    }
  }

  /** Every number a fold records is the quality of a counted edge with that id, or was
      recorded before. */
  lemma {:induction false} QualityFoldWitness(lq: map<string, Option<real>>, edges: seq<Edge>, first: bool, id: string)
    decreases |edges|
    requires id in QualityFold(lq, edges, first)
    ensures var r := QualityFold(lq, edges, first);
      || (id in lq && r[id] == lq[id])
      || exists i :: 0 <= i < |edges| && Counted(edges[i], first) && EdgeId(edges[i]) == id && edges[i].quality == r[id]
  {
    if edges != [] {
      var e := edges[0];
      var next := if Counted(e, first) then MinQuality(lq, EdgeId(e), e.quality) else lq;
      QualityFoldWitness(next, edges[1..], first, id);
      var r := QualityFold(lq, edges, first);
      if id in next && r[id] == next[id] {
        if !(id in lq && r[id] == lq[id]) {
          assert Counted(e, first) && EdgeId(e) == id && e.quality == r[id];
          assert edges[0] == e;
        }
      } else {
        var j :| 0 <= j < |edges[1..]| && Counted(edges[1..][j], first) && EdgeId(edges[1..][j]) == id && edges[1..][j].quality == r[id];
        assert edges[j + 1] == edges[1..][j];
      }
    }
  }

  /** A fold over edges whose qualities are all at least the recorded ones changes nothing. */
  lemma {:induction false} QualityFoldStable(lq: map<string, Option<real>>, edges: seq<Edge>, first: bool)
    decreases |edges|
    requires AllNumbers(lq)
    requires forall i :: 0 <= i < |edges| && Counted(edges[i], first) ==>
      edges[i].quality.Some? && EdgeId(edges[i]) in lq && lq[EdgeId(edges[i])].value <= edges[i].quality.value
    ensures QualityFold(lq, edges, first) == lq
  {
    if edges != [] {
      var e := edges[0];
      if Counted(e, first) {
        assert MinQuality(lq, EdgeId(e), e.quality) == lq;
      }
      assert forall i :: 1 <= i < |edges| ==> edges[1..][i - 1] == edges[i];
      QualityFoldStable(lq, edges[1..], first);
    }
  }

  /** The quality that colours a merged edge is no larger than that of any edge with its id. */
  lemma MinimumQualityBound(edges: seq<Edge>)
    requires forall i :: 0 <= i < |edges| && edges[i].kind != "lan" ==> edges[i].quality.Some?
    ensures var q := SecondPass(FirstPass(Merge([], Empty(), map[], {}), edges), edges).quality;
      forall i :: 0 <= i < |edges| && edges[i].kind != "lan" ==>
        EdgeId(edges[i]) in q && q[EdgeId(edges[i])].Some? && q[EdgeId(edges[i])].value <= edges[i].quality.value
  {
    var m0 := Merge([], Empty(), map[], {});
    var m1 := FirstPass(m0, edges);
    FirstPassQualityIs(m0, edges);
    SecondPassQualityIs(m1, edges);
    QualityFoldBound(map[], edges, true);
    QualityFoldStable(m1.quality, edges, false);
  }

  /** The quality that colours a merged edge is that of some edge with its id. */
  lemma MinimumQualityAttained(edges: seq<Edge>)
    requires forall i :: 0 <= i < |edges| && edges[i].kind != "lan" ==> edges[i].quality.Some?
    ensures var q := SecondPass(FirstPass(Merge([], Empty(), map[], {}), edges), edges).quality;
      forall id :: id in q ==>
        exists i :: 0 <= i < |edges| && edges[i].kind != "lan" && EdgeId(edges[i]) == id && edges[i].quality == q[id]
  {
    var m0 := Merge([], Empty(), map[], {});
    var m1 := FirstPass(m0, edges);
    FirstPassQualityIs(m0, edges);
    SecondPassQualityIs(m1, edges);
    QualityFoldBound(map[], edges, true);
    QualityFoldStable(m1.quality, edges, false);
    forall id | id in m1.quality
      ensures exists i :: 0 <= i < |edges| && edges[i].kind != "lan" && EdgeId(edges[i]) == id && edges[i].quality == m1.quality[id]
    {
      QualityFoldWitness(map[], edges, true, id);
    }
  }

  // ---- getCombinedDevices ----

  /** Saved canvas coordinates of a node (`x`/`y`, `undefined` when absent). */
  datatype Point = Point(x: Option<real>, y: Option<real>)

  /** A node as the graph component draws it. */
  datatype VisNode = VisNode(
    id: string, kind: string, status: string, group: string, titles: seq<Json>, caption: string,
    x: Option<real>, y: Option<real>)

  /** The label of the node that stands for a Phoenix Box's devices. */
  const DevicesLabel := "Devices"

  /** `curr_dev_data`: the device nodes by id; a later node with the same id wins. */
  function DeviceIndex(nodes: seq<VisNode>): (r: map<string, VisNode>)
    decreases |nodes|
    ensures forall id :: id in r <==> exists i :: 0 <= i < |nodes| && nodes[i].kind == DeviceType && nodes[i].id == id
    ensures forall id :: id in r ==> r[id] in nodes && r[id].kind == DeviceType && r[id].id == id
  {
    if nodes == [] then map[]
    else
      var init := nodes[..|nodes| - 1];
      var last := nodes[|nodes| - 1];
      var before := DeviceIndex(init);
      assert forall i :: 0 <= i < |init| ==> init[i] == nodes[i];
      if last.kind == DeviceType then before[last.id := last] else before
  }

  /** Whether a Phoenix Box has a non-empty list of visible devices. */
  predicate HasDevices(visibleDevs: Dict<seq<string>>, id: string) {
    id in visibleDevs.vals && |visibleDevs.vals[id]| > 0
  }

  /** Whether every listed device id names a device node. */
  predicate AllKnown(devs: seq<string>, index: map<string, VisNode>) {
    forall j :: 0 <= j < |devs| ==> devs[j] in index
  }

  /** The listed devices' titles, concatenated in list order. */
  function DeviceTitles(devs: seq<string>, index: map<string, VisNode>): seq<Json>
    requires AllKnown(devs, index)
  {
    if devs == [] then [] else index[devs[0]].titles + DeviceTitles(devs[1..], index)
  }

  /** Whether some listed device is down. */
  predicate AnyDown(devs: seq<string>, index: map<string, VisNode>)
    requires AllKnown(devs, index)
  {
    exists j :: 0 <= j < |devs| && index[devs[j]].status == "down"
  }

  /** The inner loop over a box's devices: titles are appended, and a down device makes the
      node down with that device's group. A listed id that names no device node makes the
      loop read a property of `undefined` (a `TypeError`). */
  function Gather(devs: seq<string>, index: map<string, VisNode>, acc: VisNode): (r: Result<VisNode>)
    decreases |devs|
    ensures r.Ok? <==> AllKnown(devs, index)
    ensures r.Ok? ==> r.value.titles == acc.titles + DeviceTitles(devs, index)
    ensures r.Ok? ==> r.value.id == acc.id && r.value.kind == acc.kind
    ensures r.Ok? ==> r.value.caption == acc.caption && r.value.x == acc.x && r.value.y == acc.y
    ensures r.Ok? ==> (r.value.status == "down" <==> acc.status == "down" || AnyDown(devs, index))
    ensures r.Ok? && !AnyDown(devs, index) ==> r.value.status == acc.status && r.value.group == acc.group
  {
    if devs == [] then Ok(acc)
    else if devs[0] !in index then Err("TypeError")
    else
      var d := index[devs[0]];
      var next := acc.(titles := acc.titles + d.titles,
        status := if d.status == "down" then d.status else acc.status,
        group := if d.status == "down" then d.group else acc.group);
      var r := Gather(devs[1..], index, next);
      assert forall j :: 1 <= j < |devs| ==> devs[1..][j - 1] == devs[j];
      r
  }

  /** The node standing for a box's devices: id `<box id>_dev`, up unless one of them is
      down, all their titles, and the coordinates saved under its own id. */
  function DevicesNode(box: VisNode, devs: seq<string>, index: map<string, VisNode>, coords: map<string, Point>): (r: Result<VisNode>)
    ensures r.Ok? <==> AllKnown(devs, index)
    ensures r.Ok? ==> r.value.id == box.id + "_dev" && r.value.kind == DeviceType && r.value.caption == DevicesLabel
    ensures r.Ok? ==> r.value.titles == DeviceTitles(devs, index)
    ensures r.Ok? ==> (r.value.status == "down" <==> AnyDown(devs, index))
    ensures r.Ok? ==> (r.value.status == "up" <==> !AnyDown(devs, index))
    ensures r.Ok? && !AnyDown(devs, index) ==> r.value.group == "device_up"
    ensures r.Ok? && box.id + "_dev" in coords ==> Point(r.value.x, r.value.y) == coords[box.id + "_dev"]
    ensures r.Ok? && box.id + "_dev" !in coords ==> r.value.x.None? && r.value.y.None?
  {
    var id := box.id + "_dev";
    var p := if id in coords then coords[id] else Point(None, None);
    Gather(devs, index, VisNode(id, DeviceType, "up", "device_up", [], DevicesLabel, p.x, p.y))
  }

  /** What `getCombinedDevices` returns besides the index: the nodes to draw, the vlan's
      node table and its visible-device lists. */
  datatype Combined = Combined(vis: seq<VisNode>, net: Dict<VisNode>, visibleDevs: Dict<seq<string>>)

  /** Whether a node's device list can be grouped: it is not a box with devices, or all of
      its devices are known. */
  predicate Groupable(n: VisNode, visibleDevs: Dict<seq<string>>, index: map<string, VisNode>) {
    n.kind == PhoenixBox && HasDevices(visibleDevs, n.id) ==> AllKnown(visibleDevs.vals[n.id], index)
  }

  /** The drawn nodes one node contributes: nothing unless it is a box; a box with devices is
      followed by its devices' node. */
  function Contribution(n: VisNode, visibleDevs: Dict<seq<string>>, index: map<string, VisNode>, coords: map<string, Point>): seq<VisNode>
    requires Groupable(n, visibleDevs, index)
  {
    if n.kind != PhoenixBox then []
    else if HasDevices(visibleDevs, n.id) then [n, DevicesNode(n, visibleDevs.vals[n.id], index, coords).value]
    else [n]
  }

  /** The list `updated_visible_devs` holds for a box. */
  function GroupedList(visibleDevs: Dict<seq<string>>, id: string): seq<string> {
    if HasDevices(visibleDevs, id) then [id + "_dev"] else []
  }

  /** One round of the outer loop. */
  function CombineStep(c: Combined, n: VisNode, visibleDevs: Dict<seq<string>>, index: map<string, VisNode>, coords: map<string, Point>): (r: Result<Combined>)
    requires c.net.Valid() && c.visibleDevs.Valid()
    ensures r.Ok? <==> Groupable(n, visibleDevs, index)
    ensures r.Ok? ==> r.value.net.Valid() && r.value.visibleDevs.Valid()
    ensures r.Ok? ==> r.value.vis == c.vis + Contribution(n, visibleDevs, index, coords)
    ensures r.Ok? ==> (r.value.visibleDevs.vals ==
      if n.kind == PhoenixBox then c.visibleDevs.vals[n.id := GroupedList(visibleDevs, n.id)] else c.visibleDevs.vals)
  {
    if n.kind != PhoenixBox then Ok(c)
    else if HasDevices(visibleDevs, n.id) then
      match DevicesNode(n, visibleDevs.vals[n.id], index, coords)
      case Err(m) => Err(m)
      case Ok(d) => Ok(Combined(c.vis + [n, d], c.net.Put(d.id, d).Put(n.id, n), c.visibleDevs.Put(n.id, [d.id])))
    else Ok(Combined(c.vis + [n], c.net.Put(n.id, n), c.visibleDevs.Put(n.id, [])))
  }

  /** The outer loop over all nodes. */
  function CombineFold(nodes: seq<VisNode>, visibleDevs: Dict<seq<string>>, index: map<string, VisNode>, coords: map<string, Point>): (r: Result<Combined>)
    decreases |nodes|
    ensures r.Ok? <==> forall i :: 0 <= i < |nodes| ==> Groupable(nodes[i], visibleDevs, index)
    ensures r.Ok? ==> r.value.net.Valid() && r.value.visibleDevs.Valid()
  {
    if nodes == [] then Ok(Combined([], Empty(), Empty()))
    else
      var init := nodes[..|nodes| - 1];
      assert forall i :: 0 <= i < |init| ==> init[i] == nodes[i];
      match CombineFold(init, visibleDevs, index, coords)
      case Err(m) => Err(m)
      case Ok(c) => CombineStep(c, nodes[|nodes| - 1], visibleDevs, index, coords)
  }

  /** The fold's last round for the drawn nodes: the prefix folds too, and the last node's
      contribution is appended to the prefix's nodes. */
  lemma CombineFoldLastVis(nodes: seq<VisNode>, visibleDevs: Dict<seq<string>>, index: map<string, VisNode>, coords: map<string, Point>)
    requires nodes != [] && CombineFold(nodes, visibleDevs, index, coords).Ok?
    ensures var n := nodes[|nodes| - 1];
      var prev := CombineFold(nodes[..|nodes| - 1], visibleDevs, index, coords);
      && prev.Ok? && Groupable(n, visibleDevs, index)
      && CombineFold(nodes, visibleDevs, index, coords).value.vis == prev.value.vis + Contribution(n, visibleDevs, index, coords)
  {
  }

  /** The fold's last round for the grouped lists: a box's list is set on top of the
      prefix's lists. */
  lemma CombineFoldLastLists(nodes: seq<VisNode>, visibleDevs: Dict<seq<string>>, index: map<string, VisNode>, coords: map<string, Point>)
    requires nodes != [] && CombineFold(nodes, visibleDevs, index, coords).Ok?
    ensures var n := nodes[|nodes| - 1];
      var prev := CombineFold(nodes[..|nodes| - 1], visibleDevs, index, coords);
      && prev.Ok?
      && CombineFold(nodes, visibleDevs, index, coords).value.visibleDevs.vals ==
         (if n.kind == PhoenixBox then prev.value.visibleDevs.vals[n.id := GroupedList(visibleDevs, n.id)]
          else prev.value.visibleDevs.vals)
  {
  }

  /** The grouped lists: every box has one, holding its devices' node id when it has
      devices and nothing otherwise; nothing else has one. */
  lemma {:induction false} CombinedVisibleDevs(nodes: seq<VisNode>, visibleDevs: Dict<seq<string>>, index: map<string, VisNode>, coords: map<string, Point>)
    decreases |nodes|
    requires CombineFold(nodes, visibleDevs, index, coords).Ok?
    ensures var g := CombineFold(nodes, visibleDevs, index, coords).value.visibleDevs.vals;
      && (forall k :: k in g <==> exists i :: 0 <= i < |nodes| && nodes[i].kind == PhoenixBox && nodes[i].id == k)
      && (forall k :: k in g ==> g[k] == GroupedList(visibleDevs, k))
  {
    if nodes != [] {
      var init := nodes[..|nodes| - 1];
      assert forall i :: 0 <= i < |init| ==> init[i] == nodes[i];
      var n := nodes[|nodes| - 1];
      CombineFoldLastLists(nodes, visibleDevs, index, coords);
      CombinedVisibleDevs(init, visibleDevs, index, coords);
      var g := CombineFold(nodes, visibleDevs, index, coords).value.visibleDevs.vals;
      var pg := CombineFold(init, visibleDevs, index, coords).value.visibleDevs.vals;
      forall k
        ensures k in g <==> exists i :: 0 <= i < |nodes| && nodes[i].kind == PhoenixBox && nodes[i].id == k
      {
        if k in g && !(n.kind == PhoenixBox && k == n.id) {
          assert k in pg;
          var i :| 0 <= i < |init| && init[i].kind == PhoenixBox && init[i].id == k;
          assert nodes[i] == init[i];
        }
        if exists i :: 0 <= i < |nodes| && nodes[i].kind == PhoenixBox && nodes[i].id == k {
          var i :| 0 <= i < |nodes| && nodes[i].kind == PhoenixBox && nodes[i].id == k;
          if i < |init| {
            assert init[i] == nodes[i];
            assert k in pg;
          }
        }
      }
      forall k | k in g
        ensures g[k] == GroupedList(visibleDevs, k)
      {
        if !(n.kind == PhoenixBox && k == n.id) {
          assert k in pg && g[k] == pg[k];
        }
      }
    }
  }

  /** Every drawn node is a box of the input or a devices' node, and every box is drawn. */
  lemma {:induction false} CombinedVisMembers(nodes: seq<VisNode>, visibleDevs: Dict<seq<string>>, index: map<string, VisNode>, coords: map<string, Point>)
    decreases |nodes|
    requires CombineFold(nodes, visibleDevs, index, coords).Ok?
    ensures var vis := CombineFold(nodes, visibleDevs, index, coords).value.vis;
      && (forall v :: v in vis ==> (v in nodes && v.kind == PhoenixBox) || (v.kind == DeviceType && v.caption == DevicesLabel))
      && (forall i :: 0 <= i < |nodes| && nodes[i].kind == PhoenixBox ==> nodes[i] in vis)
  {
    if nodes != [] {
      var init := nodes[..|nodes| - 1];
      assert forall i :: 0 <= i < |init| ==> init[i] == nodes[i];
      assert forall v :: v in init ==> v in nodes;
      CombineFoldLastVis(nodes, visibleDevs, index, coords);
      CombinedVisMembers(init, visibleDevs, index, coords);
    }
  }

  /** Whether `y` comes right after an occurrence of `x`. */
  predicate Followed(vis: seq<VisNode>, x: VisNode, y: VisNode) {
    exists k :: 0 <= k < |vis| - 1 && vis[k] == x && vis[k + 1] == y
  }

  lemma FollowedAppend(a: seq<VisNode>, b: seq<VisNode>, x: VisNode, y: VisNode)
    requires Followed(a, x, y)
    ensures Followed(a + b, x, y)
  {
    var k :| 0 <= k < |a| - 1 && a[k] == x && a[k + 1] == y;
    assert (a + b)[k] == x && (a + b)[k + 1] == y;
  }

  /** Each box with devices is immediately followed by its devices' node. */
  lemma {:induction false} CombinedVisFollows(nodes: seq<VisNode>, visibleDevs: Dict<seq<string>>, index: map<string, VisNode>, coords: map<string, Point>)
    decreases |nodes|
    requires CombineFold(nodes, visibleDevs, index, coords).Ok?
    ensures forall i :: 0 <= i < |nodes| && nodes[i].kind == PhoenixBox && HasDevices(visibleDevs, nodes[i].id) ==>
      Followed(CombineFold(nodes, visibleDevs, index, coords).value.vis, nodes[i],
        DevicesNode(nodes[i], visibleDevs.vals[nodes[i].id], index, coords).value)
  {
    if nodes != [] {
      var init := nodes[..|nodes| - 1];
      var n := nodes[|nodes| - 1];
      CombineFoldLastVis(nodes, visibleDevs, index, coords);
      CombinedVisFollows(init, visibleDevs, index, coords);
      var pvis := CombineFold(init, visibleDevs, index, coords).value.vis;
      var vis := CombineFold(nodes, visibleDevs, index, coords).value.vis;
      var extra := Contribution(n, visibleDevs, index, coords);
      forall i | 0 <= i < |nodes| && nodes[i].kind == PhoenixBox && HasDevices(visibleDevs, nodes[i].id)
        ensures Followed(vis, nodes[i], DevicesNode(nodes[i], visibleDevs.vals[nodes[i].id], index, coords).value)
      {
        if i == |nodes| - 1 {
          assert vis[|pvis|] == n && vis[|pvis| + 1] == extra[1];
        } else {
          assert nodes[i] == init[i];
          FollowedAppend(pvis, extra, nodes[i], DevicesNode(nodes[i], visibleDevs.vals[nodes[i].id], index, coords).value);
        }
      }
    }
  }

  /** `nodes_idx` (and `sorted_network_ids`): each id with the position of its node; a later
      node with the same id wins. */
  function IndexOf(vis: seq<VisNode>): map<string, nat>
    decreases |vis|
  {
    if vis == [] then map[] else IndexOf(vis[..|vis| - 1])[vis[|vis| - 1].id := |vis| - 1]
  }

  /** The index records exactly the ids of the nodes. */
  lemma {:induction false} IndexOfKeys(vis: seq<VisNode>)
    decreases |vis|
    ensures forall id :: id in IndexOf(vis) <==> exists i :: 0 <= i < |vis| && vis[i].id == id
  {
    if vis != [] {
      var init := vis[..|vis| - 1];
      var last := vis[|vis| - 1];
      IndexOfKeys(init);
      forall id
        ensures id in IndexOf(vis) <==> exists i :: 0 <= i < |vis| && vis[i].id == id
      {
        if id in IndexOf(vis) && id != last.id {
          assert IndexOf(vis) == IndexOf(init)[last.id := |vis| - 1];
          assert id in IndexOf(init);
          var i :| 0 <= i < |init| && init[i].id == id;
          assert vis[i] == init[i];
        }
        if exists i :: 0 <= i < |vis| && vis[i].id == id {
          var i :| 0 <= i < |vis| && vis[i].id == id;
          if i < |init| {
            assert init[i] == vis[i];
          }
        }
      }
    }
  }

  /** Each recorded position holds a node with that id. */
  lemma {:induction false} IndexOfAt(vis: seq<VisNode>)
    decreases |vis|
    ensures forall id :: id in IndexOf(vis) ==> IndexOf(vis)[id] < |vis| && vis[IndexOf(vis)[id]].id == id
  {
    if vis != [] {
      var init := vis[..|vis| - 1];
      var last := vis[|vis| - 1];
      IndexOfAt(init);
      var p := IndexOf(init);
      forall id | id in IndexOf(vis)
        ensures IndexOf(vis)[id] < |vis| && vis[IndexOf(vis)[id]].id == id
      {
        if id != last.id {
          assert vis[p[id]] == init[p[id]];
        }
      }
    }
  }

  /** Every node's id is recorded, at its position or a later one. */
  lemma {:induction false} IndexOfLatest(vis: seq<VisNode>)
    decreases |vis|
    ensures forall i :: 0 <= i < |vis| ==> vis[i].id in IndexOf(vis) && i <= IndexOf(vis)[vis[i].id]
  {
    if vis != [] {
      var init := vis[..|vis| - 1];
      var last := vis[|vis| - 1];
      IndexOfLatest(init);
      forall i | 0 <= i < |vis|
        ensures vis[i].id in IndexOf(vis) && i <= IndexOf(vis)[vis[i].id]
      {
        if i < |init| && vis[i].id != last.id {
          assert init[i] == vis[i];
        }
      }
    }
  }

  /** With distinct ids the index is exact: every node is recorded at its own position. */
  lemma IndexExact(vis: seq<VisNode>)
    requires forall i, j :: 0 <= i < j < |vis| ==> vis[i].id != vis[j].id
    ensures forall i :: 0 <= i < |vis| ==> vis[i].id in IndexOf(vis) && IndexOf(vis)[vis[i].id] == i
  {
    IndexOfAt(vis);
    IndexOfLatest(vis);
  }

  /** `getCombinedDevices(vlan_data, nodes, nodes_coordinates)`: the drawn nodes, the vlan
      data with the grouped nodes and lists (links unchanged), and the index of the drawn
      nodes; `TypeError` when a listed device is not among the nodes. */
  function CombinedDevices(vlan: VlanTopology, nodes: seq<VisNode>, coords: map<string, Point>): (r: Result<(seq<VisNode>, Combined, map<string, nat>)>)
    ensures r.Ok? <==> forall i :: 0 <= i < |nodes| ==> Groupable(nodes[i], vlan.visibleDevs, DeviceIndex(nodes))
    ensures r.Ok? ==> r.value.0 == r.value.1.vis && r.value.2 == IndexOf(r.value.0)
  {
    match CombineFold(nodes, vlan.visibleDevs, DeviceIndex(nodes), coords)
    case Err(m) => Err(m)
    case Ok(c) => Ok((c.vis, c, IndexOf(c.vis)))
  }
}
