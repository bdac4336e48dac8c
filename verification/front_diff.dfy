/** The graph refresh (frontend/src/utils/utils.js): which freshly computed nodes and
    edges differ from the ones already drawn and must be pushed to the graph component. */
module FrontDiff {
  import opened Common
  import opened Schemas
  import opened FrontGraph

  // ---- Edges ----

  /** The key an edge is filed under: `String(edge.id)`, "undefined" for an edge without id. */
  function EdgeKey(e: Edge): string {
    JsText(e.id)
  }

  /** Whether an edge is a link edge filed under key `k`. */
  predicate LinkWithKey(e: Edge, k: string) {
    e.kind == "link" && EdgeKey(e) == k
  }

  /** Whether position `i` holds the last link edge filed under `k`. */
  predicate LastLinkWithKey(dataset: seq<Edge>, i: int, k: string)
    requires 0 <= i < |dataset|
  {
    LinkWithKey(dataset[i], k) && forall j :: i < j < |dataset| ==> !LinkWithKey(dataset[j], k)
  }

  /** `current_edges`: the colour of each drawn link edge by key; a later edge with the same
      key wins. */
  function CurrentColors(dataset: seq<Edge>): (r: map<string, string>)
    decreases |dataset|
    ensures forall k :: k in r <==> exists i :: 0 <= i < |dataset| && LinkWithKey(dataset[i], k)
  {
    if dataset == [] then map[]
    else
      var init := dataset[..|dataset| - 1];
      var last := dataset[|dataset| - 1];
      assert forall i :: 0 <= i < |init| ==> init[i] == dataset[i];
      var before := CurrentColors(init);
      if last.kind == "link" then before[EdgeKey(last) := last.color] else before
  }

  /** The colour filed under a key is that of the last link edge with that key. */
  lemma {:induction false} CurrentColorsLast(dataset: seq<Edge>, k: string)
    decreases |dataset|
    requires k in CurrentColors(dataset)
    ensures exists i :: 0 <= i < |dataset| && LastLinkWithKey(dataset, i, k) && dataset[i].color == CurrentColors(dataset)[k]
  {
    var init := dataset[..|dataset| - 1];
    var last := dataset[|dataset| - 1];
    assert forall i :: 0 <= i < |init| ==> init[i] == dataset[i];
    if !LinkWithKey(last, k) {
      assert CurrentColors(dataset)[k] == CurrentColors(init)[k];
      CurrentColorsLast(init, k);
      var i :| 0 <= i < |init| && LastLinkWithKey(init, i, k) && init[i].color == CurrentColors(init)[k];
      assert LastLinkWithKey(dataset, i, k);
    } else {
      assert LastLinkWithKey(dataset, |dataset| - 1, k);
    }
  }

  /** Whether a fresh edge must be pushed: a link edge that is new or has changed colour,
      or any other edge whose key no drawn link edge has. */
  predicate EdgeChanged(current: map<string, string>, e: Edge) {
    if e.kind == "link" then EdgeKey(e) !in current || current[EdgeKey(e)] != e.color
    else EdgeKey(e) !in current
  }

  function FilterEdges(current: map<string, string>, edges: seq<Edge>): (r: seq<Edge>)
    ensures IsSubsequence(r, edges)
    ensures forall e :: e in r <==> e in edges && EdgeChanged(current, e)
  {
    if edges == [] then []
    else
      var rest := FilterEdges(current, edges[1..]);
      assert edges == [edges[0]] + edges[1..];
      SubsequenceCons(edges[0], rest, edges[1..]);
      if EdgeChanged(current, edges[0]) then [edges[0]] + rest else rest
  }

  /** `getEdgesToBeUpdated(dataset, edges)`: the fresh edges to push, in their order. */
  function EdgesToBeUpdated(dataset: seq<Edge>, edges: seq<Edge>): (r: seq<Edge>)
    ensures IsSubsequence(r, edges)
    ensures forall e :: e in r <==> e in edges && EdgeChanged(CurrentColors(dataset), e)
  {
    FilterEdges(CurrentColors(dataset), edges)
  }

  /** A link edge is pushed exactly when no drawn link edge has its key or the last drawn
      one with its key has another colour. */
  lemma LinkEdgePushed(dataset: seq<Edge>, edges: seq<Edge>, e: Edge)
    requires e in edges && e.kind == "link"
    ensures e in EdgesToBeUpdated(dataset, edges) <==>
      (|| (forall i :: 0 <= i < |dataset| ==> !LinkWithKey(dataset[i], EdgeKey(e)))
       || exists i :: 0 <= i < |dataset| && LastLinkWithKey(dataset, i, EdgeKey(e)) && dataset[i].color != e.color)
  {
    var current := CurrentColors(dataset);
    var k := EdgeKey(e);
    if k in current {
      CurrentColorsLast(dataset, k);
      var i :| 0 <= i < |dataset| && LastLinkWithKey(dataset, i, k) && dataset[i].color == current[k];
      forall i' | 0 <= i' < |dataset| && LastLinkWithKey(dataset, i', k)
        ensures i' == i
      {
      }
    }
  }

  /** Link keys are distinct among the drawn edges. */
  predicate DistinctLinkKeys(edges: seq<Edge>) {
    forall i, j :: 0 <= i < j < |edges| && edges[i].kind == "link" && edges[j].kind == "link" ==> EdgeKey(edges[i]) != EdgeKey(edges[j])
  }

  /** With distinct link keys, each link edge's own colour is filed under its key. */
  lemma CurrentColorOfLink(edges: seq<Edge>, i: int)
    requires DistinctLinkKeys(edges) && 0 <= i < |edges| && edges[i].kind == "link"
    ensures EdgeKey(edges[i]) in CurrentColors(edges) && CurrentColors(edges)[EdgeKey(edges[i])] == edges[i].color
  {
    var k := EdgeKey(edges[i]);
    assert LinkWithKey(edges[i], k);
    CurrentColorsLast(edges, k);
    var m :| 0 <= m < |edges| && LastLinkWithKey(edges, m, k) && edges[m].color == CurrentColors(edges)[k];
    assert m == i;
  }

  /** Redrawing what is already drawn, with distinct link keys, pushes no link edge;
      every edge pushed is a non-link edge whose key no link edge has. */
  lemma RedrawPushesNoLinks(edges: seq<Edge>)
    requires DistinctLinkKeys(edges)
    ensures forall e :: e in EdgesToBeUpdated(edges, edges) ==> e.kind != "link" && EdgeKey(e) !in CurrentColors(edges)
  {
    forall i | 0 <= i < |edges| && edges[i].kind == "link"
      ensures EdgeKey(edges[i]) in CurrentColors(edges) && CurrentColors(edges)[EdgeKey(edges[i])] == edges[i].color
    {
      CurrentColorOfLink(edges, i);
    }
  }

  // ---- Nodes ----

  /** `current_nodes`: the status of each drawn node by id; a later node with the same id
      wins. */
  function CurrentStatuses(dataset: seq<VisNode>): (r: map<string, string>)
    decreases |dataset|
    ensures forall k :: k in r <==> exists i :: 0 <= i < |dataset| && dataset[i].id == k
  {
    if dataset == [] then map[]
    else
      var init := dataset[..|dataset| - 1];
      var last := dataset[|dataset| - 1];
      assert forall i :: 0 <= i < |init| ==> init[i] == dataset[i];
      assert dataset[|dataset| - 1].id == last.id;
      CurrentStatuses(init)[last.id := last.status]
  }

  /** No later node of `dataset` has the id of node `i`. */
  predicate LastWithId(dataset: seq<VisNode>, i: int)
    requires 0 <= i < |dataset|
  {
    forall j :: i < j < |dataset| ==> dataset[j].id != dataset[i].id
  }

  /** The status filed under an id is that of the last node with that id. */
  lemma {:induction false} CurrentStatusesLast(dataset: seq<VisNode>, i: int)
    decreases |dataset|
    requires 0 <= i < |dataset| && LastWithId(dataset, i)
    ensures dataset[i].id in CurrentStatuses(dataset)
    ensures CurrentStatuses(dataset)[dataset[i].id] == dataset[i].status
  {
    var init := dataset[..|dataset| - 1];
    var last := dataset[|dataset| - 1];
    assert CurrentStatuses(dataset) == CurrentStatuses(init)[last.id := last.status];
    if i < |dataset| - 1 {
      assert init[i] == dataset[i];
      assert last.id != dataset[i].id;
      assert LastWithId(init, i) by {
        forall j | i < j < |init| ensures init[j].id != init[i].id {
          assert init[j] == dataset[j];
        }
      }
      CurrentStatusesLast(init, i);
    }
  }

  /** Whether a fresh node must be pushed: it is new or its status changed. */
  predicate NodeChanged(current: map<string, string>, n: VisNode) {
    n.id !in current || current[n.id] != n.status
  }

  function FilterNodes(current: map<string, string>, nodes: seq<VisNode>): (r: seq<VisNode>)
    ensures IsSubsequence(r, nodes)
    ensures forall n :: n in r <==> n in nodes && NodeChanged(current, n)
  {
    if nodes == [] then []
    else
      var rest := FilterNodes(current, nodes[1..]);
      assert nodes == [nodes[0]] + nodes[1..];
      SubsequenceCons(nodes[0], rest, nodes[1..]);
      if NodeChanged(current, nodes[0]) then [nodes[0]] + rest else rest
  }

  /** `getNodesToBeUpdated(dataset, nodes)`: the fresh nodes to push, in their order. */
  function NodesToBeUpdated(dataset: seq<VisNode>, nodes: seq<VisNode>): (r: seq<VisNode>)
    ensures IsSubsequence(r, nodes)
    ensures forall n :: n in r <==> n in nodes && NodeChanged(CurrentStatuses(dataset), n)
  {
    FilterNodes(CurrentStatuses(dataset), nodes)
  }

  /** With distinct drawn ids, a node is pushed exactly when no drawn node has its id or
      the drawn node with its id has another status. */
  lemma NodePushed(dataset: seq<VisNode>, nodes: seq<VisNode>, n: VisNode)
    requires n in nodes
    requires forall i, j :: 0 <= i < j < |dataset| ==> dataset[i].id != dataset[j].id
    ensures n in NodesToBeUpdated(dataset, nodes) <==>
      forall i :: 0 <= i < |dataset| && dataset[i].id == n.id ==> dataset[i].status != n.status
  {
    forall i | 0 <= i < |dataset| && dataset[i].id == n.id
      ensures CurrentStatuses(dataset)[n.id] == dataset[i].status
    {
      CurrentStatusesLast(dataset, i);
    }
  }

  /** Redrawing what is already drawn pushes nothing when ids are distinct. */
  lemma RedrawPushesNoNodes(nodes: seq<VisNode>)
    requires forall i, j :: 0 <= i < j < |nodes| ==> nodes[i].id != nodes[j].id
    ensures NodesToBeUpdated(nodes, nodes) == []
  {
    var r := NodesToBeUpdated(nodes, nodes);
    if r != [] {
      assert r[0] in nodes;
      NodePushed(nodes, nodes, r[0]);
      assert false;
    }
  }
}
