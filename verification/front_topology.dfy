/** The dashboard's topology drawing (frontend/src/components/NetworkTopology.js and its
    edge styles, frontend/src/components/style.js): one vlan's nodes and links turned into
    the nodes and edges the graph component draws. */
module FrontTopology {
  import opened Common
  import opened Dict
  import opened Json
  import opened Text
  import opened Schemas
  import opened Topology
  import opened FrontGraph

  // ---- Edge styles ----

  const LightGreen := "#35bb00"

  /** The parts of an edge style the model keeps: the line colour and whether the line has
      a middle arrow. */
  datatype Style = Style(color: string, arrowMiddle: bool)

  /** `getEdgeStyleData(key)`: a style exists for the three link groups and for device
      attachments only; any other group has none (`undefined`). */
  function StyleOf(group: string): (r: Option<Style>)
    ensures r.Some? <==> group in {"link_up", "link_low", "link_down", "visible_devs"}
    ensures r.Some? ==> (r.value.arrowMiddle <==> group != "visible_devs")
  {
    if group == "link_up" then Some(Style(Green, true))
    else if group == "link_low" then Some(Style(Yellow, true))
    else if group == "link_down" then Some(Style(Red, true))
    else if group == "visible_devs" then Some(Style(LightGreen, false))
    else None
  }

  // ---- Nodes ----

  /** `parseHostname`: everything before the first dot, and "" for an empty name. */
  function ParseHostname(h: string): (r: string)
    ensures '.' !in r
    ensures |r| <= |h| && r == h[..|r|]
    ensures '.' !in h ==> r == h
    ensures |r| < |h| ==> h[|r|] == '.'
  {
    SplitFirstPiece(h, '.');
    Split(h, '.')[0]
  }

  /** `generateNodeObject`'s label: a Phoenix Box with a substation name shows it, any
      other node its short hostname. */
  function NodeLabel(n: TopoNode): (r: string)
    ensures n.kind == PhoenixBox && n.substationName.Some? && n.substationName.value != "" ==> r == n.substationName.value
    ensures !(n.kind == PhoenixBox && n.substationName.Some? && n.substationName.value != "") ==> r == ParseHostname(n.hostname)
  {
    if n.kind == PhoenixBox && n.substationName.Some? && n.substationName.value != "" then n.substationName.value
    else ParseHostname(n.hostname)
  }

  /** The word a status is shown with (`statusesInTitle`); an unknown status has none. */
  function StatusWord(status: string): Json {
    if status == "up" then Str("Online")
    else if status == "down" then Str("Offline")
    else if status == "low" then Str("low")
    else if status == "congested" then Str("congested")
    else Null
  }

  /** `getNodeTitle` without the formatted bandwidth and age: the short hostname (missing
      when empty), for a Phoenix Box its substation name (every topology node carries the
      key, null when the box has no name), addresses, status and vlan. */
  function NodeTitle(n: TopoNode, status: string): seq<Json> {
    var host := ParseHostname(n.hostname);
    var head := Empty<Json>().Put("Hostname", if host == "" then Null else Str(host));
    var named := if n.kind == PhoenixBox then head.Put("Substation name", SubstationEntry(n)) else head;
    [Obj(named.Put("IPv4", Str(n.ip)).Put("MAC", Str(n.mac)).Put("Status", StatusWord(status)).Put("VLAN", Str(n.vlan)))]
  }

  /** The title's substation entry: the name, or null for a box without one. */
  function SubstationEntry(n: TopoNode): Json {
    if n.substationName.Some? then Str(n.substationName.value) else Null
  }

  /** A Phoenix Box's title always carries a substation entry, null when the box has no
      name; the title of any other node has none. */
  lemma NodeTitleEntries(n: TopoNode, status: string)
    ensures |NodeTitle(n, status)| == 1 && NodeTitle(n, status)[0].Obj?
    ensures var t := NodeTitle(n, status)[0].fields.vals;
      ("Substation name" in t <==> n.kind == PhoenixBox)
      && (n.kind == PhoenixBox ==> t["Substation name"] == (if n.substationName.Some? then Str(n.substationName.value) else Null))
  {
    var host := ParseHostname(n.hostname);
    var head := Empty<Json>().Put("Hostname", if host == "" then Null else Str(host));
    var named := if n.kind == PhoenixBox then head.Put("Substation name", SubstationEntry(n)) else head;
    assert n.kind != PhoenixBox ==> "Substation name" !in named.vals;
    var d := named.Put("IPv4", Str(n.ip)).Put("MAC", Str(n.mac)).Put("Status", StatusWord(status)).Put("VLAN", Str(n.vlan));
    assert d.vals == named.vals["IPv4" := Str(n.ip)]["MAC" := Str(n.mac)]["Status" := StatusWord(status)]["VLAN" := Str(n.vlan)];
    assert NodeTitle(n, status) == [Obj(d)];
  }

  /** The drawn node of a topology node: `processNode`'s group and status, the title, the
      label, and the coordinates saved under its id. */
  function MakeNode(n: TopoNode, coords: map<string, Point>, nowMs: int): (r: VisNode)
    ensures r.id == n.id && r.kind == n.kind && r.caption == NodeLabel(n)
    ensures r.status == ProcessNode(n, nowMs).status && r.group == ProcessNode(n, nowMs).group
    ensures n.id in coords ==> Point(r.x, r.y) == coords[n.id]
    ensures n.id !in coords ==> r.x.None? && r.y.None?
  {
    var c := ProcessNode(n, nowMs);
    var p := if n.id in coords then coords[n.id] else Point(None, None);
    VisNode(n.id, n.kind, c.status, c.group, NodeTitle(n, c.status), NodeLabel(n), p.x, p.y)
  }

  function MakeNodes(ns: seq<TopoNode>, coords: map<string, Point>, nowMs: int): (r: seq<VisNode>)
    ensures |r| == |ns|
    ensures forall i :: 0 <= i < |ns| ==> r[i] == MakeNode(ns[i], coords, nowMs)
  {
    if ns == [] then []
    else
      var rest := MakeNodes(ns[1..], coords, nowMs);
      assert forall i :: 1 <= i < |ns| ==> ns[1..][i - 1] == ns[i];
      ConsShift(MakeNode(ns[0], coords, nowMs), rest);
      [MakeNode(ns[0], coords, nowMs)] + rest
  }

  // ---- Link edges ----

  /** The last drawn node with a non-empty id equal to `id` (`nodes[j].id && nodes[j].id === id`). */
  function Endpoint(nodes: seq<VisNode>, id: Option<string>): (r: Option<VisNode>)
    decreases |nodes|
    ensures r.Some? <==> exists j :: 0 <= j < |nodes| && nodes[j].id != "" && Some(nodes[j].id) == id
    ensures r.Some? ==> r.value in nodes && r.value.id != "" && Some(r.value.id) == id
  {
    if nodes == [] then None
    else
      var init := nodes[..|nodes| - 1];
      var last := nodes[|nodes| - 1];
      assert forall j :: 0 <= j < |init| ==> init[j] == nodes[j];
      if last.id != "" && Some(last.id) == id then Some(last) else Endpoint(init, id)
  }

  /** A link's time for the staleness test; a time that does not parse never counts as
      stale (moment's invalid date makes the difference NaN). */
  function LinkTime(l: Link, nowMs: int): int {
    if l.report.time.Some? then l.report.time.value else nowMs
  }

  function Attribute(attributes: Option<Json>, key: string): Json {
    if attributes.Some? && attributes.value.Obj? && key in attributes.value.fields.vals then attributes.value.fields.vals[key] else Null
  }

  /** `getLinkTitle` without the formatted age. */
  function LinkTitle(l: Link): seq<Json> {
    [Obj(Empty<Json>().Put("Source IPv4", Str(l.report.srcIp)).Put("Source MAC", Str(l.report.srcMac))
      .Put("Dest. IPv4", Str(l.report.dstIp)).Put("Link type", Attribute(l.report.attributes, "_o"))
      .Put("Link quality", Attribute(l.report.attributes, "linkQuality")))]
  }

  /** The edge group of a link. The node matching `src_id` is passed as `toDev` and the one
      matching `dst_id` as `fromDev`, so the group's prefix follows the destination's type;
      a link from a node to itself has no `fromDev` and no group. */
  function LinkGroup(l: Link, nodes: seq<VisNode>, nowMs: int): Option<string> {
    var src := Endpoint(nodes, l.srcId);
    var dst := if l.srcId == l.dstId then None else Endpoint(nodes, l.dstId);
    ProcessEdge(if dst.Some? then Some(dst.value.kind) else None, if src.Some? then Some(src.value.kind) else None,
      Some(LinkState(l.status, l.report.quality, LinkTime(l, nowMs))), nowMs)
  }

  /** Whether both ends of a link are drawn and distinct. */
  predicate Connects(l: Link, nodes: seq<VisNode>) {
    l.srcId != l.dstId && Endpoint(nodes, l.srcId).Some? && Endpoint(nodes, l.dstId).Some?
  }

  /** One round of the link loop: no edge unless both ends are drawn and distinct, and
      none for the empty group, which the loop's truthiness test skips; an edge from the
      source to the destination otherwise, unless its group has no style, where
      `JSON.parse(JSON.stringify(undefined))` throws. */
  function LinkEdge(l: Link, nodes: seq<VisNode>, nowMs: int): (r: Result<Option<Edge>>)
    ensures LinkGroup(l, nodes, nowMs).Some? <==> Connects(l, nodes)
    ensures Connects(l, nodes) && LinkGroup(l, nodes, nowMs).value == "" ==> r == Ok(None)
    ensures r.Err? <==> Connects(l, nodes) && LinkGroup(l, nodes, nowMs).value != "" && StyleOf(LinkGroup(l, nodes, nowMs).value).None?
    ensures r.Ok? && r.value.Some? <==> Connects(l, nodes) && StyleOf(LinkGroup(l, nodes, nowMs).value).Some?
    ensures r.Ok? && r.value.Some? ==>
      var e := r.value.value;
      && e.kind == "link" && Some(e.from) == l.srcId && Some(e.to) == l.dstId && e.id == Some(l.id)
      && e.from != e.to && e.titles == LinkTitle(l) && e.quality == l.report.quality
      && e.color == StyleOf(LinkGroup(l, nodes, nowMs).value).value.color && e.arrowMiddle
  {
    var src := Endpoint(nodes, l.srcId);
    var dst := if l.srcId == l.dstId then None else Endpoint(nodes, l.dstId);
    match LinkGroup(l, nodes, nowMs)
    case None => Ok(None)
    case Some(g) =>
      if g == "" then Ok(None)
      else match StyleOf(g)
      case None => Err("SyntaxError")
      case Some(st) =>
        assert g != "visible_devs";
        Ok(Some(Edge("link", src.value.id, dst.value.id, Some(l.id), st.color, st.arrowMiddle, LinkTitle(l),
          LinkTime(l, nowMs), l.report.quality)))
  }

  /** The loop's accumulation over the per-link results: the first failure aborts, and
      otherwise the drawn edges are kept in order. */
  function Collect(rs: seq<Result<Option<Edge>>>): (r: Result<seq<Edge>>)
    decreases |rs|
    ensures r.Ok? <==> forall i :: 0 <= i < |rs| ==> rs[i].Ok?
  {
    if rs == [] then Ok([])
    else
      assert forall i :: 1 <= i < |rs| ==> rs[1..][i - 1] == rs[i];
      match rs[0]
      case Err(m) => Err(m)
      case Ok(o) =>
        match Collect(rs[1..])
        case Err(m) => Err(m)
        case Ok(rest) => Ok((if o.Some? then [o.value] else []) + rest)
  }

  /** A successful accumulation keeps exactly the drawn edges. */
  lemma {:induction false} CollectMembers(rs: seq<Result<Option<Edge>>>)
    decreases |rs|
    requires Collect(rs).Ok?
    ensures forall e :: e in Collect(rs).value <==> Ok(Some(e)) in rs
  {
    if rs != [] {
      CollectMembers(rs[1..]);
      assert rs == [rs[0]] + rs[1..];
    }
  }

  /** The link loop of `generateData`: every link's result, accumulated. */
  function LinkEdges(links: seq<Link>, nodes: seq<VisNode>, nowMs: int): (r: Result<seq<Edge>>)
    ensures r.Ok? <==> forall i :: 0 <= i < |links| ==> LinkEdge(links[i], nodes, nowMs).Ok?
  {
    Collect(LinkResults(links, nodes, nowMs))
  }

  function LinkResults(links: seq<Link>, nodes: seq<VisNode>, nowMs: int): (r: seq<Result<Option<Edge>>>)
    ensures |r| == |links| && forall i :: 0 <= i < |links| ==> r[i] == LinkEdge(links[i], nodes, nowMs)
  {
    seq(|links|, i requires 0 <= i < |links| => LinkEdge(links[i], nodes, nowMs))
  }

  /** Some link of the list is drawn as this edge. */
  predicate EdgeOfLink(e: Edge, links: seq<Link>, nodes: seq<VisNode>, nowMs: int) {
    exists i :: 0 <= i < |links| && LinkEdge(links[i], nodes, nowMs) == Ok(Some(e))
  }

  /** The edges of a successful link loop are exactly the links' edges. */
  lemma LinkEdgesMembers(links: seq<Link>, nodes: seq<VisNode>, nowMs: int)
    requires LinkEdges(links, nodes, nowMs).Ok?
    ensures forall e :: e in LinkEdges(links, nodes, nowMs).value <==> EdgeOfLink(e, links, nodes, nowMs)
  {
    var rs := LinkResults(links, nodes, nowMs);
    CollectMembers(rs);
    forall e ensures Ok(Some(e)) in rs <==> EdgeOfLink(e, links, nodes, nowMs) {
      if Ok(Some(e)) in rs {
        var i :| 0 <= i < |rs| && rs[i] == Ok(Some(e));
      }
    }
  }

  /** A fresh link between two Phoenix Boxes is drawn in the colour of its quality: yellow
      for [0.5, 0.75], red below 0.5, green above. */
  lemma BoxLinkColour(l: Link, nodes: seq<VisNode>, nowMs: int)
    requires Connects(l, nodes) && !Stale(nowMs, LinkTime(l, nowMs))
    requires Endpoint(nodes, l.srcId).value.kind == PhoenixBox && Endpoint(nodes, l.dstId).value.kind == PhoenixBox
    requires l.status == "up" && l.report.quality.Some?
    ensures LinkEdge(l, nodes, nowMs).Ok? && LinkEdge(l, nodes, nowMs).value.Some?
    ensures var c := LinkEdge(l, nodes, nowMs).value.value.color;
      && (c == Yellow <==> 0.5 <= l.report.quality.value <= 0.75)
      && (c == Red <==> l.report.quality.value < 0.5)
      && (c == Green <==> l.report.quality.value > 0.75)
  {
    var st := LinkState(l.status, l.report.quality, LinkTime(l, nowMs));
    BoxLinkGroups(st, nowMs);
  }

  /** A link whose destination is drawn but is not a Phoenix Box is never drawn. Its
      group has no style, so drawing the vlan fails, except when the group is empty: a
      destination neither box nor device with a status outside up, down and low, which the
      loop skips. A device destination always fails. */
  lemma NonBoxDestinationFails(l: Link, nodes: seq<VisNode>, nowMs: int)
    requires Connects(l, nodes) && Endpoint(nodes, l.dstId).value.kind != PhoenixBox
    ensures LinkEdge(l, nodes, nowMs).Ok? ==> LinkEdge(l, nodes, nowMs) == Ok(None)
    ensures LinkEdge(l, nodes, nowMs).Err? <==>
      (Endpoint(nodes, l.dstId).value.kind == DeviceType
       || StatusSuffix(EdgeStatus(LinkState(l.status, l.report.quality, LinkTime(l, nowMs)), nowMs)) != "")
    ensures Endpoint(nodes, l.dstId).value.kind == DeviceType ==> LinkEdge(l, nodes, nowMs).Err?
  {
    var g := LinkGroup(l, nodes, nowMs).value;
    var dk := Endpoint(nodes, l.dstId).value.kind;
    var sk := Endpoint(nodes, l.srcId).value.kind;
    var p := EdgePrefix(dk, sk);
    assert p == "device" || p == "";
    var s := StatusSuffix(EdgeStatus(LinkState(l.status, l.report.quality, LinkTime(l, nowMs)), nowMs));
    assert g == p + s;
    if p == "device" {
      assert g[0] == 'd';
    } else {
      assert s == "" || s[0] == '_';
    }
    assert StyleOf(g).None?;
  }

  // ---- Device attachment edges ----

  const EthernetNote := "This is Ethernet connection."

  /** The edge from an attached device to its box. */
  function Attachment(dev: string, box: string): Edge {
    Edge("lan", dev, box, None, LightGreen, false, [Obj(Empty<Json>().Put("status", Str(EthernetNote)))], 0, None)
  }

  /** The edges of one box: one per listed device, when both are drawn. */
  function BoxAttachments(box: string, devs: seq<string>, idx: map<string, nat>): (r: seq<Edge>)
    ensures forall e :: e in r <==> exists j :: 0 <= j < |devs| && devs[j] in idx && box in idx && e == Attachment(devs[j], box)
  {
    if devs == [] then []
    else
      assert forall j :: 1 <= j < |devs| ==> devs[1..][j - 1] == devs[j];
      (if devs[0] in idx && box in idx then [Attachment(devs[0], box)] else []) + BoxAttachments(box, devs[1..], idx)
  }

  /** The attachment loop over `Object.entries(visible_devs)`. */
  function Attachments(boxes: seq<string>, lists: map<string, seq<string>>, idx: map<string, nat>): (r: seq<Edge>)
    ensures forall e :: e in r <==> exists b, j :: (0 <= b < |boxes| && boxes[b] in lists && 0 <= j < |lists[boxes[b]]|
      && lists[boxes[b]][j] in idx && boxes[b] in idx && e == Attachment(lists[boxes[b]][j], boxes[b]))
  {
    if boxes == [] then []
    else
      assert forall b :: 1 <= b < |boxes| ==> boxes[1..][b - 1] == boxes[b];
      var here := if boxes[0] in lists then BoxAttachments(boxes[0], lists[boxes[0]], idx) else [];
      var r := here + Attachments(boxes[1..], lists, idx);
      assert forall e :: e in r <==> e in here || e in Attachments(boxes[1..], lists, idx);
      r
  }

  // ---- generateData ----

  /** The drawn nodes and edges of a vlan. */
  datatype Drawing = Drawing(nodes: seq<VisNode>, edges: seq<Edge>)

  /** The drawn nodes, their index and the visible-device lists, after the optional
      grouping of each box's devices into one node. */
  function Grouped(vlan: VlanTopology, coords: map<string, Point>, nestNodes: bool, nowMs: int): (r: Result<(seq<VisNode>, map<string, nat>, Dict<seq<string>>)>)
    ensures !nestNodes ==> r.Ok?
    ensures !nestNodes ==> r.value.0 == MakeNodes(vlan.nodes.Values(), coords, nowMs) && r.value.2 == vlan.visibleDevs
    ensures r.Ok? ==> r.value.1 == IndexOf(r.value.0)
    ensures nestNodes ==> (r.Ok? <==> CombinedDevices(vlan, MakeNodes(vlan.nodes.Values(), coords, nowMs), coords).Ok?)
  {
    var nodes := MakeNodes(vlan.nodes.Values(), coords, nowMs);
    if !nestNodes then Ok((nodes, IndexOf(nodes), vlan.visibleDevs))
    else
      match CombinedDevices(vlan, nodes, coords)
      case Err(m) => Err(m)
      case Ok(c) => Ok((c.0, c.2, c.1.visibleDevs))
  }

  /** `generateData`: nodes from the vlan's node table (grouped when `nestNodes`), one edge
      per link between two drawn nodes, device attachments unless `onlyLinks` is set, and
      the edges merged when `nestEdges`. */
  function GenerateData(vlan: VlanTopology, onlyLinks: int, coords: map<string, Point>, nestNodes: bool, nestEdges: bool, nowMs: int): (r: Result<Drawing>)
    ensures r.Ok? <==> (Grouped(vlan, coords, nestNodes, nowMs).Ok? &&
      forall i :: 0 <= i < |vlan.links| ==> LinkEdge(vlan.links[i], Grouped(vlan, coords, nestNodes, nowMs).value.0, nowMs).Ok?)
    ensures r.Ok? ==> r.value.nodes == Grouped(vlan, coords, nestNodes, nowMs).value.0
    ensures r.Ok? ==>
      var g := Grouped(vlan, coords, nestNodes, nowMs).value;
      var flat := LinkEdges(vlan.links, g.0, nowMs).value + (if onlyLinks == 0 then Attachments(g.2.keys, g.2.vals, g.1) else []);
      r.value.edges == (if nestEdges then CombinedLinks(flat, nowMs) else flat)
  {
    match Grouped(vlan, coords, nestNodes, nowMs)
    case Err(m) => Err(m)
    case Ok(g) =>
      var (nodes, idx, visible) := g;
      match LinkEdges(vlan.links, nodes, nowMs)
      case Err(m) => Err(m)
      case Ok(links) =>
        var lans := if onlyLinks == 0 then Attachments(visible.keys, visible.vals, idx) else [];
        var edges := links + lans;
        Ok(Drawing(nodes, if nestEdges then CombinedLinks(edges, nowMs) else edges))
  }

  /** Some listed device of some box is attached to it by this edge, both being indexed. */
  predicate AttachmentOf(e: Edge, boxes: seq<string>, lists: map<string, seq<string>>, idx: map<string, nat>) {
    exists b, j :: (0 <= b < |boxes| && boxes[b] in lists && 0 <= j < |lists[boxes[b]]|
      && lists[boxes[b]][j] in idx && boxes[b] in idx && e == Attachment(lists[boxes[b]][j], boxes[b]))
  }

  /** Without merging, the drawn edges are exactly the edges of the vlan's links and, unless
      `onlyLinks` is set, the attachments of the indexed visible devices to their boxes,
      link edges first. */
  lemma GeneratedEdgesExact(vlan: VlanTopology, onlyLinks: int, coords: map<string, Point>, nestNodes: bool, nowMs: int)
    requires GenerateData(vlan, onlyLinks, coords, nestNodes, false, nowMs).Ok?
    ensures var g := Grouped(vlan, coords, nestNodes, nowMs).value;
      var d := GenerateData(vlan, onlyLinks, coords, nestNodes, false, nowMs).value;
      forall e :: e in d.edges <==>
        (EdgeOfLink(e, vlan.links, g.0, nowMs) || (onlyLinks == 0 && AttachmentOf(e, g.2.keys, g.2.vals, g.1)))
    ensures var g := Grouped(vlan, coords, nestNodes, nowMs).value;
      var d := GenerateData(vlan, onlyLinks, coords, nestNodes, false, nowMs).value;
      d.edges[..|LinkEdges(vlan.links, g.0, nowMs).value|] == LinkEdges(vlan.links, g.0, nowMs).value
  {
    var g := Grouped(vlan, coords, nestNodes, nowMs).value;
    var links := LinkEdges(vlan.links, g.0, nowMs).value;
    var lans := if onlyLinks == 0 then Attachments(g.2.keys, g.2.vals, g.1) else [];
    assert GenerateData(vlan, onlyLinks, coords, nestNodes, false, nowMs).value.edges == links + lans;
    LinkEdgesMembers(vlan.links, g.0, nowMs);
    assert (links + lans)[..|links|] == links;
  }

  /** Whether some drawn node has this id. */
  predicate Drawn(nodes: seq<VisNode>, id: string) {
    exists i :: 0 <= i < |nodes| && nodes[i].id == id
  }

  /** Every link edge joins two drawn nodes and runs from a link's source to its
      destination. */
  lemma LinkEdgesJoinDrawnNodes(links: seq<Link>, nodes: seq<VisNode>, nowMs: int)
    requires LinkEdges(links, nodes, nowMs).Ok?
    ensures forall e :: e in LinkEdges(links, nodes, nowMs).value ==>
      && Drawn(nodes, e.from) && Drawn(nodes, e.to) && e.kind == "link"
      && (exists l :: l in links && l.srcId == Some(e.from) && l.dstId == Some(e.to))
  {
    LinkEdgesMembers(links, nodes, nowMs);
    forall e | e in LinkEdges(links, nodes, nowMs).value
      ensures Drawn(nodes, e.from) && Drawn(nodes, e.to) && e.kind == "link"
      ensures exists l :: l in links && l.srcId == Some(e.from) && l.dstId == Some(e.to)
    {
      var i :| 0 <= i < |links| && LinkEdge(links[i], nodes, nowMs) == Ok(Some(e));
      var l := links[i];
      var s := Endpoint(nodes, l.srcId).value;
      var t := Endpoint(nodes, l.dstId).value;
      var a :| 0 <= a < |nodes| && nodes[a] == s;
      var b :| 0 <= b < |nodes| && nodes[b] == t;
    }
  }

  /** Every attachment edge joins two indexed ids: a listed device and its box. */
  lemma AttachmentsJoinIndexed(boxes: seq<string>, lists: map<string, seq<string>>, idx: map<string, nat>)
    ensures forall e :: e in Attachments(boxes, lists, idx) ==>
      e.kind == "lan" && e.from in idx && e.to in idx && e.to in boxes
  {
  }

  /** Without merging, every edge joins two drawn nodes, and every link edge runs from a
      link's source to its destination. */
  lemma EdgesJoinDrawnNodes(vlan: VlanTopology, onlyLinks: int, coords: map<string, Point>, nestNodes: bool, nowMs: int)
    requires GenerateData(vlan, onlyLinks, coords, nestNodes, false, nowMs).Ok?
    ensures var d := GenerateData(vlan, onlyLinks, coords, nestNodes, false, nowMs).value;
      forall e :: e in d.edges ==>
        && Drawn(d.nodes, e.from) && Drawn(d.nodes, e.to)
        && (e.kind == "link" ==> exists l :: l in vlan.links && l.srcId == Some(e.from) && l.dstId == Some(e.to))
  {
    var g := Grouped(vlan, coords, nestNodes, nowMs).value;
    var nodes := g.0;
    IndexOfAt(nodes);
    LinkEdgesJoinDrawnNodes(vlan.links, nodes, nowMs);
    AttachmentsJoinIndexed(g.2.keys, g.2.vals, g.1);
  }

  /** With `onlyLinks` set and no merging, only link edges are drawn. */
  lemma OnlyLinksDrawsLinks(vlan: VlanTopology, onlyLinks: int, coords: map<string, Point>, nestNodes: bool, nowMs: int)
    requires onlyLinks != 0 && GenerateData(vlan, onlyLinks, coords, nestNodes, false, nowMs).Ok?
    ensures forall e :: e in GenerateData(vlan, onlyLinks, coords, nestNodes, false, nowMs).value.edges ==> e.kind == "link"
  {
    var nodes := Grouped(vlan, coords, nestNodes, nowMs).value.0;
    LinkEdgesMembers(vlan.links, nodes, nowMs);
    forall e | e in LinkEdges(vlan.links, nodes, nowMs).value ensures e.kind == "link" {
      var i :| 0 <= i < |vlan.links| && LinkEdge(vlan.links[i], nodes, nowMs) == Ok(Some(e));
    }
  }
}
