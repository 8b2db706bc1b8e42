/** The checkable logic of src/components/NetworkGraph.tsx: the opacity
    filter, resolution of id-based edges onto the node list, the label rule,
    the stroke-width and height clamps, the simulation nodes and the drag
    handlers that pin and unpin them. The force simulation itself, zoom and
    per-tick drawing are not modelled. */
module NetworkGraph {
  import opened Types
  import Utils

  // ---------------------------------------------------------------------
  // Opacity filter
  // ---------------------------------------------------------------------

  /** The three opacity levels a node can be drawn at. */
  const Full: real := 1.0
  const QuadrantOrSearchMiss: real := 0.15
  const BothFiltersMiss: real := 0.1

  predicate IsPrefix(t: string, s: string)
  {
    |t| <= |s| && s[..|t|] == t
  }

  /** `s.includes(t)`. */
  predicate Contains(s: string, t: string)
    decreases |s|
  {
    IsPrefix(t, s) || (s != [] && Contains(s[1..], t))
  }

  /** `t` occurs in `s` starting at position `i`. */
  predicate OccursAt(s: string, t: string, i: int)
  {
    0 <= i && i + |t| <= |s| && s[i..i + |t|] == t
  }

  /** `includes` as its definition reads: `t` occurs in `s` at some
      position. */
  lemma {:induction false} ContainsSpec(s: string, t: string)
    ensures Contains(s, t) <==> exists i :: OccursAt(s, t, i)
    decreases |s|
  {
    if Contains(s, t) {
      if IsPrefix(t, s) {
        assert OccursAt(s, t, 0);
      } else {
        ContainsSpec(s[1..], t);
        var i :| OccursAt(s[1..], t, i);
        assert s[i + 1..i + 1 + |t|] == s[1..][i..i + |t|];
        assert OccursAt(s, t, i + 1);
      }
    }
    if exists i :: OccursAt(s, t, i) {
      var i :| OccursAt(s, t, i);
      if i > 0 {
        assert s[1..][i - 1..i - 1 + |t|] == s[i..i + |t|];
        assert OccursAt(s[1..], t, i - 1);
        ContainsSpec(s[1..], t);
      }
    }
  }

  /** `!selectedQuadrant || node.quadrant === selectedQuadrant`. */
  predicate MatchesQuadrant(selected: Option<QuadrantCode>, node: NetworkNode)
  {
    selected.None? || node.quadrant == selected.value
  }

  /** The label matches the term case-insensitively, or the SOC code
      contains it exactly. */
  predicate SearchHit(term: string, node: NetworkNode)
  {
    Contains(Utils.Lower(node.labelText), Utils.Lower(term)) || Contains(node.soc, term)
  }

  /** `!searchTerm || <label or soc contains it>`. */
  predicate MatchesSearch(term: string, node: NetworkNode)
  {
    term == "" || SearchHit(term, node)
  }

  /** `getNodeOpacity`. A filter is active when the quadrant is selected or
      the search term is non-empty. */
  function NodeOpacity(selected: Option<QuadrantCode>, term: string, node: NetworkNode): (r: real)
    ensures r == Full || r == QuadrantOrSearchMiss || r == BothFiltersMiss
    ensures r > 0.0
    ensures r == Full <==> MatchesQuadrant(selected, node) && MatchesSearch(term, node)
  {
    if selected.Some? && term != "" then
      (if MatchesQuadrant(selected, node) && MatchesSearch(term, node) then Full else BothFiltersMiss)
    else if selected.Some? then
      (if MatchesQuadrant(selected, node) then Full else QuadrantOrSearchMiss)
    else if term != "" then
      (if MatchesSearch(term, node) then Full else QuadrantOrSearchMiss)
    else Full
  }

  /** The opacity table, one line per combination of filters: no filter
      shows every node in full; a quadrant alone shows its nodes in full and
      dims the rest to 0.15; a search alone does the same for label or SOC
      hits; both together show in full only nodes matching both and dim the
      rest to 0.1. */
  lemma OpacityTable(selected: Option<QuadrantCode>, term: string, node: NetworkNode)
    ensures selected == None && term == "" ==> NodeOpacity(selected, term, node) == Full
    ensures selected.Some? && term == "" ==>
      NodeOpacity(selected, term, node)
        == if node.quadrant == selected.value then Full else QuadrantOrSearchMiss
    ensures selected == None && term != "" ==>
      NodeOpacity(selected, term, node)
        == if SearchHit(term, node) then Full else QuadrantOrSearchMiss
    ensures selected.Some? && term != "" ==>
      NodeOpacity(selected, term, node)
        == if node.quadrant == selected.value && SearchHit(term, node) then Full else BothFiltersMiss
  {
  }

  /** The two filters compose with AND: a node is fully visible under both
      exactly when it is fully visible under each alone. */
  lemma FiltersComposeWithAnd(q: QuadrantCode, term: string, node: NetworkNode)
    ensures NodeOpacity(Some(q), term, node) == Full
            <==> NodeOpacity(Some(q), "", node) == Full && NodeOpacity(None, term, node) == Full
  {
  }

  // ---------------------------------------------------------------------
  // Edge resolution: nodeById and simEdges
  // ---------------------------------------------------------------------

  /** The ids present in a node list. */
  function Ids(nodes: seq<NetworkNode>): set<string>
  {
    set i | 0 <= i < |nodes| :: nodes[i].id
  }

  /** `new Map(simNodes.map(n => [n.id, n]))`, with nodes named by their
      position in the list: later entries overwrite earlier ones. */
  function NodeIndex(nodes: seq<NetworkNode>): (m: map<string, nat>)
  {
    if nodes == [] then map[]
    else NodeIndex(nodes[..|nodes| - 1])[nodes[|nodes| - 1].id := |nodes| - 1]
  }

  /** The index knows exactly the ids of the list, maps each to a node
      carrying it, and that node is the LAST one carrying it. */
  lemma {:induction false} NodeIndexSpec(nodes: seq<NetworkNode>)
    ensures NodeIndex(nodes).Keys == Ids(nodes)
    ensures forall id :: id in NodeIndex(nodes) ==>
      NodeIndex(nodes)[id] < |nodes| && nodes[NodeIndex(nodes)[id]].id == id
    ensures forall i :: 0 <= i < |nodes| ==> i <= NodeIndex(nodes)[nodes[i].id]
  {
    if nodes != [] {
      var last := |nodes| - 1;
      var init := nodes[..last];
      NodeIndexSpec(init);
      var m := NodeIndex(init);
      assert NodeIndex(nodes) == m[nodes[last].id := last];
      IdsOfSnoc(init, nodes[last]);
      assert init + [nodes[last]] == nodes;
      forall id | id in NodeIndex(nodes)
        ensures NodeIndex(nodes)[id] < |nodes| && nodes[NodeIndex(nodes)[id]].id == id
      {
        if id != nodes[last].id {
          assert nodes[m[id]] == init[m[id]];
        }
      }
      forall i | 0 <= i < |nodes| ensures i <= NodeIndex(nodes)[nodes[i].id] {
        if i < last && nodes[i].id != nodes[last].id {
          assert init[i] == nodes[i];
        }
      }
    }
  }

  /** The ids of a list with one more node. */
  lemma IdsOfSnoc(init: seq<NetworkNode>, n: NetworkNode)
    ensures Ids(init + [n]) == Ids(init) + {n.id}
  {
    var nodes := init + [n];
    forall id | id in Ids(nodes) ensures id in Ids(init) + {n.id} {
      var i :| 0 <= i < |nodes| && nodes[i].id == id;
      if i < |init| {
        assert nodes[i] == init[i];
        assert id in Ids(init);
      } else {
        assert nodes[i] == n;
      }
    }
    forall id | id in Ids(init) + {n.id} ensures id in Ids(nodes) {
      if id in Ids(init) {
        var i :| 0 <= i < |init| && init[i].id == id;
        assert nodes[i] == init[i];
      } else {
        assert nodes[|init|] == n;
      }
    }
  }

  /** The id an edge endpoint names, whether given as a string or a node. */
  function EndId(e: EdgeEnd): string
  {
    match e
    case ById(id) => id
    case ByNode(n) => n.id
  }

  /** A resolved edge: both endpoints are positions in the node list. */
  datatype SimEdge = SimEdge(source: nat, target: nat, weight: real)

  predicate Resolvable(e: NetworkEdge, ids: set<string>)
  {
    EndId(e.source) in ids && EndId(e.target) in ids
  }

  /** The `edges.map(...).filter(...)` chain: an edge whose endpoints are
      both known becomes a resolved edge with the same weight; any other is
      dropped. */
  function ResolveEdges(edges: seq<NetworkEdge>, index: map<string, nat>): (r: seq<SimEdge>)
    ensures |r| <= |edges|
    ensures forall k :: 0 <= k < |r| ==> r[k].source in index.Values && r[k].target in index.Values
  {
    if edges == [] then []
    else
      var e := edges[0];
      var rest := ResolveEdges(edges[1..], index);
      var s, t := EndId(e.source), EndId(e.target);
      if s in index && t in index then [SimEdge(index[s], index[t], e.weight)] + rest else rest
  }

  /** The input edges whose endpoints are both known, in input order. */
  function KnownEdges(edges: seq<NetworkEdge>, ids: set<string>): seq<NetworkEdge>
  {
    if edges == [] then []
    else (if Resolvable(edges[0], ids) then [edges[0]] else []) + KnownEdges(edges[1..], ids)
  }

  /** `simEdges` for a node list. */
  function SimEdges(nodes: seq<NetworkNode>, edges: seq<NetworkEdge>): (r: seq<SimEdge>)
    ensures |r| <= |edges|
    ensures forall k :: 0 <= k < |r| ==> r[k].source < |nodes| && r[k].target < |nodes|
  {
    NodeIndexSpec(nodes);
    ResolveEdges(edges, NodeIndex(nodes))
  }

  /** Resolving against an index that names nodes of a list keeps exactly
      the edges whose endpoints it knows, in order and with their weights. */
  lemma {:induction false} ResolveEdgesMatchKnown(nodes: seq<NetworkNode>, edges: seq<NetworkEdge>,
                                                  index: map<string, nat>)
    requires forall id :: id in index ==> index[id] < |nodes| && nodes[index[id]].id == id
    ensures |ResolveEdges(edges, index)| == |KnownEdges(edges, index.Keys)|
    ensures forall k :: 0 <= k < |ResolveEdges(edges, index)| ==>
      nodes[ResolveEdges(edges, index)[k].source].id == EndId(KnownEdges(edges, index.Keys)[k].source)
    ensures forall k :: 0 <= k < |ResolveEdges(edges, index)| ==>
      nodes[ResolveEdges(edges, index)[k].target].id == EndId(KnownEdges(edges, index.Keys)[k].target)
    ensures forall k :: 0 <= k < |ResolveEdges(edges, index)| ==>
      ResolveEdges(edges, index)[k].weight == KnownEdges(edges, index.Keys)[k].weight
  {
    ResolvedLength(edges, index);
    forall k | 0 <= k < |ResolveEdges(edges, index)|
      ensures nodes[ResolveEdges(edges, index)[k].source].id == EndId(KnownEdges(edges, index.Keys)[k].source)
      ensures nodes[ResolveEdges(edges, index)[k].target].id == EndId(KnownEdges(edges, index.Keys)[k].target)
      ensures ResolveEdges(edges, index)[k].weight == KnownEdges(edges, index.Keys)[k].weight
    {
      ResolvedAt(nodes, edges, index, k);
    }
  }

  /** Resolution keeps one edge per known input edge. */
  lemma {:induction false} ResolvedLength(edges: seq<NetworkEdge>, index: map<string, nat>)
    ensures |ResolveEdges(edges, index)| == |KnownEdges(edges, index.Keys)|
  {
    if edges != [] {
      ResolvedLength(edges[1..], index);
    }
  }

  /** The `k`-th resolved edge comes from the `k`-th known input edge. */
  lemma {:induction false} ResolvedAt(nodes: seq<NetworkNode>, edges: seq<NetworkEdge>,
                                      index: map<string, nat>, k: int)
    requires forall id :: id in index ==> index[id] < |nodes| && nodes[index[id]].id == id
    requires 0 <= k < |ResolveEdges(edges, index)|
    ensures k < |KnownEdges(edges, index.Keys)|
    ensures nodes[ResolveEdges(edges, index)[k].source].id == EndId(KnownEdges(edges, index.Keys)[k].source)
    ensures nodes[ResolveEdges(edges, index)[k].target].id == EndId(KnownEdges(edges, index.Keys)[k].target)
    ensures ResolveEdges(edges, index)[k].weight == KnownEdges(edges, index.Keys)[k].weight
  {
    ResolvedLength(edges, index);
    if !Resolvable(edges[0], index.Keys) {
      ResolvedAt(nodes, edges[1..], index, k);
    } else if k > 0 {
      ResolvedAt(nodes, edges[1..], index, k - 1);
    }
  }

  /** The resolved edges are exactly the known input edges, in input order,
      with their weights, each endpoint being a node with the named id. */
  lemma ResolvedEdgesMatchKnown(nodes: seq<NetworkNode>, edges: seq<NetworkEdge>)
    ensures |SimEdges(nodes, edges)| == |KnownEdges(edges, Ids(nodes))|
    ensures forall k :: 0 <= k < |SimEdges(nodes, edges)| ==>
      nodes[SimEdges(nodes, edges)[k].source].id == EndId(KnownEdges(edges, Ids(nodes))[k].source)
    ensures forall k :: 0 <= k < |SimEdges(nodes, edges)| ==>
      nodes[SimEdges(nodes, edges)[k].target].id == EndId(KnownEdges(edges, Ids(nodes))[k].target)
    ensures forall k :: 0 <= k < |SimEdges(nodes, edges)| ==>
      SimEdges(nodes, edges)[k].weight == KnownEdges(edges, Ids(nodes))[k].weight
  {
    NodeIndexSpec(nodes);
    ResolveEdgesMatchKnown(nodes, edges, NodeIndex(nodes));
  }

  /** No edge is dropped exactly when every edge names two known ids. */
  lemma {:induction false} KnownEdgesAllIff(edges: seq<NetworkEdge>, ids: set<string>)
    ensures |KnownEdges(edges, ids)| <= |edges|
    ensures |KnownEdges(edges, ids)| == |edges|
            <==> forall k :: 0 <= k < |edges| ==> Resolvable(edges[k], ids)
  {
    if edges != [] {
      KnownEdgesAllIff(edges[1..], ids);
      assert forall k :: 1 <= k < |edges| ==> edges[k] == edges[1..][k - 1];
    }
  }

  /** An edge naming an unknown id never reaches the simulation. */
  lemma SimEdgesDropUnknown(nodes: seq<NetworkNode>, edges: seq<NetworkEdge>)
    ensures |SimEdges(nodes, edges)| == |edges|
            <==> forall k :: 0 <= k < |edges| ==> Resolvable(edges[k], Ids(nodes))
  {
    ResolvedEdgesMatchKnown(nodes, edges);
    KnownEdgesAllIff(edges, Ids(nodes));
  }

  // ---------------------------------------------------------------------
  // Labels and clamps
  // ---------------------------------------------------------------------

  /** Labels are drawn only for nodes larger than 12. */
  predicate HasLabel(node: NetworkNode)
  {
    node.size > 12.0
  }

  /** A label longer than 20 characters becomes its first 18 and "...". */
  function LabelText(text: string): (r: string)
    ensures |r| == if |text| <= 20 then |text| else 21
    ensures |text| <= 20 ==> r == text
    ensures |text| > 20 ==> IsPrefix(text[..18], r) && r[18..] == "..."
  {
    if |text| > 20 then text[..18] + "..." else text
  }

  /** Truncating a truncated label changes nothing. */
  lemma LabelTextIdempotent(text: string)
    ensures LabelText(LabelText(text)) == LabelText(text)
  {
    if |text| > 20 {
      var r := LabelText(text);
      assert r[..18] == text[..18];
    }
  }

  /** `Math.max(1, d.weight * 2)`. */
  function StrokeWidth(weight: real): (r: real)
    ensures r >= 1.0 && r >= 2.0 * weight
    ensures r == 1.0 || r == 2.0 * weight
  {
    if 1.0 >= weight * 2.0 then 1.0 else weight * 2.0
  }

  lemma StrokeWidthMonotone(w1: real, w2: real)
    requires w1 <= w2
    ensures StrokeWidth(w1) <= StrokeWidth(w2)
  {
  }

  /** `Math.min(containerWidth * 0.75, 700)`. */
  function GraphHeight(containerWidth: real): (r: real)
    ensures r <= 700.0 && r <= containerWidth * 0.75
    ensures r == 700.0 || r == containerWidth * 0.75
  {
    if containerWidth * 0.75 <= 700.0 then containerWidth * 0.75 else 700.0
  }

  // ---------------------------------------------------------------------
  // The drawn scene
  // ---------------------------------------------------------------------

  datatype Circle = Circle(radius: real, fill: string, opacity: real)
  datatype NodeView = NodeView(circle: Circle, caption: Option<string>)
  datatype Link = Link(edge: SimEdge, strokeWidth: real)
  datatype Scene = Scene(nodeViews: seq<NodeView>, links: seq<Link>)

  function ViewOfNode(node: NetworkNode, selected: Option<QuadrantCode>, term: string): NodeView
  {
    NodeView(
      Circle(node.size, Utils.QuadrantColor(node.quadrant), NodeOpacity(selected, term, node)),
      if HasLabel(node) then Some(LabelText(node.labelText)) else None)
  }

  /** One line per resolved edge, in order, `Math.max(1, weight * 2)` wide. */
  function Links(edges: seq<SimEdge>): (r: seq<Link>)
    ensures |r| == |edges|
    ensures forall k :: 0 <= k < |r| ==>
      && r[k].edge == edges[k]
      && r[k].strokeWidth == StrokeWidth(edges[k].weight)
      && r[k].strokeWidth >= 1.0
  {
    seq(|edges|, k requires 0 <= k < |edges| => Link(edges[k], StrokeWidth(edges[k].weight)))
  }

  /** What the drawing effect puts on the canvas. For an empty node list
      (`None`) the effect returns before clearing, so the canvas keeps
      whatever it showed. Otherwise the canvas is cleared and gets one view
      per node (a filter only dims, it never removes) and one line per
      resolved edge. */
  function RenderScene(nodes: seq<NetworkNode>, edges: seq<NetworkEdge>,
                       selected: Option<QuadrantCode>, term: string): (r: Option<Scene>)
    ensures r.None? <==> nodes == []
    ensures r.Some? ==> |r.value.nodeViews| == |nodes|
    ensures r.Some? ==> forall i :: 0 <= i < |nodes| ==>
      && r.value.nodeViews[i].circle.radius == nodes[i].size
      && r.value.nodeViews[i].circle.fill == Utils.QuadrantColor(nodes[i].quadrant)
      && r.value.nodeViews[i].circle.opacity == NodeOpacity(selected, term, nodes[i])
      && r.value.nodeViews[i].circle.opacity > 0.0
    ensures r.Some? ==> forall i :: 0 <= i < |nodes| ==>
      && (r.value.nodeViews[i].caption.Some? <==> nodes[i].size > 12.0)
      && (r.value.nodeViews[i].caption.Some? ==>
            r.value.nodeViews[i].caption.value == LabelText(nodes[i].labelText)
            && |r.value.nodeViews[i].caption.value| <= 21)
    ensures r.Some? ==> r.value.links == Links(SimEdges(nodes, edges))
    ensures r.Some? ==> forall k :: 0 <= k < |r.value.links| ==>
      r.value.links[k].edge.source < |nodes| && r.value.links[k].edge.target < |nodes|
  {
    if nodes == [] then None
    else
      Some(Scene(
        seq(|nodes|, i requires 0 <= i < |nodes| => ViewOfNode(nodes[i], selected, term)),
        Links(SimEdges(nodes, edges))))
  }

  /** The lines drawn are the input edges whose two endpoints are known
      nodes, in input order: each joins the nodes carrying the named ids and
      is `StrokeWidth` of that edge's weight wide. */
  lemma SceneLinksAreKnownEdges(nodes: seq<NetworkNode>, edges: seq<NetworkEdge>,
                                selected: Option<QuadrantCode>, term: string)
    requires nodes != []
    ensures var links := RenderScene(nodes, edges, selected, term).value.links;
      var known := KnownEdges(edges, Ids(nodes));
      && |links| == |known|
      && forall k :: 0 <= k < |links| ==>
        && nodes[links[k].edge.source].id == EndId(known[k].source)
        && nodes[links[k].edge.target].id == EndId(known[k].target)
        && links[k].strokeWidth == StrokeWidth(known[k].weight)
  {
    ResolvedEdgesMatchKnown(nodes, edges);
  }

  // ---------------------------------------------------------------------
  // Simulation nodes and dragging
  // ---------------------------------------------------------------------

  /** A simulation node: a copy of a network node with a position and an
      optional pinned position (`fx`, `fy`; `None` is `null`). */
  class SimNode {
    const node: NetworkNode
    var x: real
    var y: real
    var fx: Option<real>
    var fy: Option<real>

    /** The pin is set or cleared for both coordinates together. */
    predicate Valid()
      reads this
    {
      fx.Some? <==> fy.Some?
    }

    constructor (node: NetworkNode, x: real, y: real)
      ensures this.node == node && this.x == x && this.y == y
      ensures fx == None && fy == None && Valid()
    {
      this.node := node;
      this.x := x;
      this.y := y;
      fx := None;
      fy := None;
    }
  }

  /** The part of the d3 simulation the drag handlers touch. */
  class Simulation {
    var alphaTarget: real

    constructor ()
      ensures alphaTarget == 0.0
    {
      alphaTarget := 0.0;
    }
  }

  /** `simNodes`: a fresh object per node, placed at the centre of a w x h
      canvas plus a jitter of up to 50 in each direction. `random(k)` stands
      for the k-th value `Math.random()` returns. */
  method CreateSimNodes(nodes: seq<NetworkNode>, w: real, h: real, random: nat -> real)
    returns (sim: seq<SimNode>)
    requires forall k :: 0.0 <= random(k) < 1.0
    ensures |sim| == |nodes|
    ensures forall i :: 0 <= i < |sim| ==> fresh(sim[i])
    ensures forall i :: 0 <= i < |sim| ==>
      && sim[i].node == nodes[i]
      && sim[i].fx.None? && sim[i].fy.None?
      && w / 2.0 - 50.0 <= sim[i].x < w / 2.0 + 50.0
      && h / 2.0 - 50.0 <= sim[i].y < h / 2.0 + 50.0
  {
    sim := [];
    var i := 0;
    while i < |nodes|
      invariant 0 <= i <= |nodes| && |sim| == i
      invariant forall j :: 0 <= j < i ==> fresh(sim[j])
      invariant forall j :: 0 <= j < i ==>
        && sim[j].node == nodes[j]
        && sim[j].fx.None? && sim[j].fy.None?
        && w / 2.0 - 50.0 <= sim[j].x < w / 2.0 + 50.0
        && h / 2.0 - 50.0 <= sim[j].y < h / 2.0 + 50.0
    {
      var x := w / 2.0 + (random(2 * i) - 0.5) * 100.0;
      var y := h / 2.0 + (random(2 * i + 1) - 0.5) * 100.0;
      var n := new SimNode(nodes[i], x, y);
      sim := sim + [n];
      i := i + 1;
    }
  }

  /** Drag start: pins the node where it is; a first gesture also raises
      the simulation's alpha target to 0.3. */
  method DragStarted(sim: Simulation, d: SimNode, active: bool)
    modifies sim, d
    ensures d.fx == Some(old(d.x)) && d.fy == Some(old(d.y)) && d.Valid()
    ensures d.x == old(d.x) && d.y == old(d.y)
    ensures sim.alphaTarget == if active then old(sim.alphaTarget) else 0.3
  {
    if !active {
      sim.alphaTarget := 0.3;
    }
    d.fx := Some(d.x);
    d.fy := Some(d.y);
  }

  /** Drag: moves the pin to the cursor. */
  method Dragged(d: SimNode, eventX: real, eventY: real)
    modifies d
    ensures d.fx == Some(eventX) && d.fy == Some(eventY) && d.Valid()
    ensures d.x == old(d.x) && d.y == old(d.y)
  {
    d.fx := Some(eventX);
    d.fy := Some(eventY);
  }

  /** Drag end: releases the pin; a last gesture lowers the alpha target
      back to 0. */
  method DragEnded(sim: Simulation, d: SimNode, active: bool)
    modifies sim, d
    ensures d.fx == None && d.fy == None && d.Valid()
    ensures d.x == old(d.x) && d.y == old(d.y)
    ensures sim.alphaTarget == if active then old(sim.alphaTarget) else 0.0
  {
    if !active {
      sim.alphaTarget := 0.0;
    }
    d.fx := None;
    d.fy := None;
  }
}
