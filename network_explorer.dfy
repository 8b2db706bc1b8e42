/** The selection state of src/sections/NetworkExplorer.tsx: the initial
    sector and its preload, node selection, sector change, the tooltip and
    view precedence, and the summary counts under the graph. */
module NetworkExplorer {
  import opened Types
  import NetworkGraph
  import NetworkData

  // ---------------------------------------------------------------------
  // Initial sector and preload
  // ---------------------------------------------------------------------

  /** `sectors.slice(0, 5).map(s => s.sector)`. */
  function PreloadList(sectors: seq<SectorSummary>): (r: seq<string>)
    ensures |r| == if |sectors| < 5 then |sectors| else 5
    ensures forall i :: 0 <= i < |r| ==> r[i] == sectors[i].sector
  {
    var n := if |sectors| < 5 then |sectors| else 5;
    seq(n, i requires 0 <= i < n => sectors[i].sector)
  }

  /** The sector chosen first is among those preloaded, so when its file
      can be fetched it is in the cache once the preload is done. */
  lemma InitialSectorIsPreloaded(sectors: seq<SectorSummary>, snapshot: map<string, SectorNetwork>,
                                 outcome: string -> NetworkData.FetchOutcome<SectorNetwork>)
    requires |sectors| > 0
    requires outcome(sectors[0].sector).Ok?
    ensures sectors[0].sector in NetworkData.Preloaded(snapshot, PreloadList(sectors), outcome)
  {
    var list := PreloadList(sectors);
    assert list[0] == sectors[0].sector;
    NetworkData.PreloadedExtends(snapshot, list, outcome);
    NetworkData.PreloadedAddsAllFetched(snapshot, list, outcome);
  }

  // ---------------------------------------------------------------------
  // Tooltip and view precedence
  // ---------------------------------------------------------------------

  /** `hoveredNode || selectedNode`. */
  function Tooltip(hovered: NetworkGraph.SimNode?, selected: NetworkGraph.SimNode?)
    : (r: NetworkGraph.SimNode?)
    ensures r == null <==> hovered == null && selected == null
    ensures r != null ==> r == hovered || r == selected
    ensures hovered != null ==> r == hovered
  {
    if hovered != null then hovered else selected
  }

  /** What the graph card shows. */
  datatype View = LoadingView | ErrorView | GraphView(network: SectorNetwork) | EmptyView

  /** Loading wins over an error, an error over the data, and nothing is
      shown when there is none of the three. */
  function ViewOf(loading: bool, error: Option<NetworkData.LoadError>, data: Option<SectorNetwork>)
    : (v: View)
    ensures v == LoadingView <==> loading
    ensures v == ErrorView <==> !loading && error.Some?
    ensures v.GraphView? <==> !loading && error.None? && data.Some?
    ensures v.GraphView? ==> v.network == data.value
    ensures v == EmptyView <==> !loading && error.None? && data.None?
  {
    if loading then LoadingView
    else if error.Some? then ErrorView
    else if data.Some? then GraphView(data.value)
    else EmptyView
  }

  // ---------------------------------------------------------------------
  // Summary counts
  // ---------------------------------------------------------------------

  /** `nodes.filter(n => n.quadrant === q)`. */
  function NodesIn(nodes: seq<NetworkNode>, q: QuadrantCode): (r: seq<NetworkNode>)
    ensures |r| <= |nodes|
    ensures forall n :: n in r ==> n in nodes && n.quadrant == q
    ensures forall n :: n in nodes && n.quadrant == q ==> n in r
  {
    if nodes == [] then []
    else (if nodes[0].quadrant == q then [nodes[0]] else []) + NodesIn(nodes[1..], q)
  }

  /** The filter keeps every node of the quadrant as often as the list holds
      it, and no other node. */
  lemma {:induction false} NodesInCounts(nodes: seq<NetworkNode>, q: QuadrantCode)
    ensures forall n :: multiset(NodesIn(nodes, q))[n] == if n.quadrant == q then multiset(nodes)[n] else 0
  {
    if nodes != [] {
      NodesInCounts(nodes[1..], q);
      assert nodes == [nodes[0]] + nodes[1..];
    }
  }

  /** The filter keeps the list's order: filtering a concatenation filters
      each part. */
  lemma {:induction false} NodesInKeepsOrder(a: seq<NetworkNode>, b: seq<NetworkNode>, q: QuadrantCode)
    ensures NodesIn(a + b, q) == NodesIn(a, q) + NodesIn(b, q)
  {
    if a == [] {
      assert a + b == b;
    } else {
      assert (a + b)[0] == a[0];
      assert (a + b)[1..] == a[1..] + b;
      NodesInKeepsOrder(a[1..], b, q);
    }
  }

  /** The four quadrant counts add up to the node count. */
  lemma {:induction false} QuadrantCountsPartition(nodes: seq<NetworkNode>)
    ensures |NodesIn(nodes, HH)| + |NodesIn(nodes, HL)| + |NodesIn(nodes, LH)| + |NodesIn(nodes, LL)|
      == |nodes|
  {
    if nodes != [] {
      QuadrantCountsPartition(nodes[1..]);
    }
  }

  datatype Summary = Summary(totalRoles: nat, hhRoles: nat)

  /** The "Total Roles" and "High-High (HH)" cards. */
  function SummaryOf(network: SectorNetwork): (s: Summary)
    ensures s.totalRoles == |network.nodes|
    ensures s.hhRoles <= s.totalRoles
    ensures s.hhRoles == |NodesIn(network.nodes, HH)|
  {
    Summary(|network.nodes|, |NodesIn(network.nodes, HH)|)
  }

  /** The HH card is the whole graph exactly when every role is HH. */
  lemma {:induction false} AllHighHighIff(nodes: seq<NetworkNode>)
    ensures |NodesIn(nodes, HH)| == |nodes| <==> forall i :: 0 <= i < |nodes| ==> nodes[i].quadrant == HH
  {
    if nodes != [] {
      AllHighHighIff(nodes[1..]);
      if nodes[0].quadrant != HH {
        assert |NodesIn(nodes, HH)| == |NodesIn(nodes[1..], HH)|;
      } else {
        assert forall i :: 1 <= i < |nodes| ==> nodes[i] == nodes[1..][i - 1];
      }
    }
  }

  // ---------------------------------------------------------------------
  // The explorer state
  // ---------------------------------------------------------------------

  /** The section's state: chosen sector, quadrant filter, search term, and
      the hovered and clicked nodes (objects handed over by the graph). */
  class Explorer {
    var selectedSector: string
    var selectedQuadrant: Option<QuadrantCode>
    var searchTerm: string
    var hoveredNode: NetworkGraph.SimNode?
    var selectedNode: NetworkGraph.SimNode?

    constructor ()
      ensures selectedSector == "" && selectedQuadrant == None && searchTerm == ""
      ensures hoveredNode == null && selectedNode == null
    {
      selectedSector := "";
      selectedQuadrant := None;
      searchTerm := "";
      hoveredNode := null;
      selectedNode := null;
    }

    /** The initial-sector effect: once sectors are known and none is
        chosen, choose the first one and preload the first five. An existing
        choice is never overwritten. Returns the paths the preload requests. */
    method InitialSector(sectors: seq<SectorSummary>, cache: NetworkData.NetworkCache,
                         fetch: string -> NetworkData.FetchOutcome<SectorNetwork>)
      returns (requested: seq<string>)
      modifies this, cache
      ensures |sectors| > 0 && old(selectedSector) == "" ==>
        && selectedSector == sectors[0].sector
        && requested == NetworkData.PendingSectors(PreloadList(sectors), old(cache.entries))
        && cache.entries == NetworkData.Preloaded(old(cache.entries), PreloadList(sectors),
                                                  NetworkData.BySector(fetch))
      ensures !(|sectors| > 0 && old(selectedSector) == "") ==>
        && selectedSector == old(selectedSector)
        && requested == [] && cache.entries == old(cache.entries)
      ensures selectedQuadrant == old(selectedQuadrant) && searchTerm == old(searchTerm)
      ensures hoveredNode == old(hoveredNode) && selectedNode == old(selectedNode)
    {
      requested := [];
      if |sectors| > 0 && selectedSector == "" {
        selectedSector := sectors[0].sector;
        requested := cache.Preload(PreloadList(sectors), fetch);
      }
    }

    /** `handleNodeClick` as written: the clicked object is compared with the
        selected one by identity. */
    method HandleNodeClickAsWritten(node: NetworkGraph.SimNode)
      modifies this
      ensures selectedNode == if node == old(selectedNode) then null else node
      ensures selectedSector == old(selectedSector) && selectedQuadrant == old(selectedQuadrant)
      ensures searchTerm == old(searchTerm) && hoveredNode == old(hoveredNode)
    {
      selectedNode := if node == selectedNode then null else node;
    }

    /** `handleNodeClick` comparing roles by id, so that a click on the
        selected role clears the selection even when the graph has rebuilt
        its node objects in between. */
    method HandleNodeClick(node: NetworkGraph.SimNode)
      modifies this
      ensures old(selectedNode) != null && old(selectedNode).node.id == node.node.id ==> selectedNode == null
      ensures !(old(selectedNode) != null && old(selectedNode).node.id == node.node.id) ==> selectedNode == node
      ensures selectedSector == old(selectedSector) && selectedQuadrant == old(selectedQuadrant)
      ensures searchTerm == old(searchTerm) && hoveredNode == old(hoveredNode)
    {
      if selectedNode != null && selectedNode.node.id == node.node.id {
        selectedNode := null;
      } else {
        selectedNode := node;
      }
    }

    /** `onNodeHover`: the graph reports the node under the cursor, or
        none. */
    method HandleNodeHover(node: NetworkGraph.SimNode?)
      modifies this
      ensures hoveredNode == node
      ensures selectedSector == old(selectedSector) && selectedQuadrant == old(selectedQuadrant)
      ensures searchTerm == old(searchTerm) && selectedNode == old(selectedNode)
    {
      hoveredNode := node;
    }

    /** `handleSectorChange`: the new sector is chosen and both node
        references are dropped, so no tooltip is left from the old graph. */
    method HandleSectorChange(sector: string)
      modifies this
      ensures selectedSector == sector
      ensures selectedNode == null && hoveredNode == null
      ensures Tooltip(hoveredNode, selectedNode) == null
      ensures selectedQuadrant == old(selectedQuadrant) && searchTerm == old(searchTerm)
    {
      selectedSector := sector;
      selectedNode := null;
      hoveredNode := null;
    }
  }

  // ---------------------------------------------------------------------
  // Scenarios behind the findings
  // ---------------------------------------------------------------------

  /** The graph effect depends on `handleNodeClick`, which is a new function
      on every render, so each click rebuilds the node objects. A second
      click on the same role then hands over a new object, and identity
      comparison keeps the role selected. */
  method SecondClickAsWritten(role: NetworkNode) returns (selected: NetworkGraph.SimNode?)
    ensures selected != null && selected.node == role
  {
    var explorer := new Explorer();
    var first := new NetworkGraph.SimNode(role, 0.0, 0.0);
    explorer.HandleNodeClickAsWritten(first);
    var rebuilt := new NetworkGraph.SimNode(role, 0.0, 0.0);
    explorer.HandleNodeClickAsWritten(rebuilt);
    selected := explorer.selectedNode;
  }

  /** The same two clicks with the role compared by id clear the selection. */
  method SecondClick(role: NetworkNode) returns (selected: NetworkGraph.SimNode?)
    ensures selected == null
  {
    var explorer := new Explorer();
    var first := new NetworkGraph.SimNode(role, 0.0, 0.0);
    explorer.HandleNodeClick(first);
    var rebuilt := new NetworkGraph.SimNode(role, 0.0, 0.0);
    explorer.HandleNodeClick(rebuilt);
    selected := explorer.selectedNode;
  }

  /** Sector `b` is shown and cached, `a` fails, and the user returns to `b`:
      the cache hit keeps the error of `a`, so the card reports a failure
      although `b`'s network is loaded. */
  method ReturnToCachedSectorAsWritten(a: string, b: string,
                                       fetch: string -> NetworkData.FetchOutcome<SectorNetwork>)
    returns (v: View)
    requires a != "" && b != ""
    requires fetch(NetworkData.NetworkPath(b)).Ok? && !fetch(NetworkData.NetworkPath(a)).Ok?
    ensures v == ErrorView
  {
    var cache := new NetworkData.NetworkCache();
    var state := new NetworkData.NetworkState();
    var _ := state.Load(b, cache, fetch);
    var _ := state.Load(a, cache, fetch);
    var _ := state.Load(b, cache, fetch);
    v := ViewOf(state.loading, state.error, state.data);
  }

  /** The same steps with the error cleared on a cache hit show `b`'s graph. */
  method ReturnToCachedSector(a: string, b: string,
                              fetch: string -> NetworkData.FetchOutcome<SectorNetwork>)
    returns (v: View)
    requires a != "" && b != ""
    requires fetch(NetworkData.NetworkPath(b)).Ok? && !fetch(NetworkData.NetworkPath(a)).Ok?
    ensures v == GraphView(fetch(NetworkData.NetworkPath(b)).payload)
  {
    var cache := new NetworkData.NetworkCache();
    var state := new NetworkData.NetworkState();
    var _ := state.LoadResettingError(b, cache, fetch);
    var _ := state.LoadResettingError(a, cache, fetch);
    var _ := state.LoadResettingError(b, cache, fetch);
    v := ViewOf(state.loading, state.error, state.data);
  }
}
