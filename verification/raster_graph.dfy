/**
 * The shape of the sub-graph a raster motion task builds for R rasters: a start
 * node feeding every raster, a state-merging node between each pair of neighbouring
 * rasters feeding the transition between them, and an update node on each side
 * feeding the from-start and to-end freespace nodes.
 */
module RasterGraph {
  import opened TaskComposerData
  import opened RasterConfig

  datatype Edge = Edge(from: NodeId, to: NodeId)

  datatype NodeKind =
    | StartTask
      /** A node made from one of the three templates. */
    | PluginTask(node: PluginNode)
      /** Merges the end of one raster and the start of the next into a transition's input. */
    | UpdateStartAndEndState(prevOutput: string, nextOutput: string, target: string)
      /** Sets the end of the from-start input from the first raster's output. */
    | UpdateEndState(source: string, target: string)
      /** Sets the start of the to-end input from the last raster's output. */
    | UpdateStartState(source: string, target: string)

  datatype GraphNode = GraphNode(id: NodeId, name: string, kind: NodeKind)

  /** `TaskComposerGraph`: nodes in the order they were added, edges in the order they were added. */
  datatype Graph = Graph(nodes: seq<GraphNode>, edges: seq<Edge>)

  /** Edges added by the raster loop: start to every raster. */
  function RasterEdges(rasters: nat): seq<Edge>
  {
    seq(rasters, k requires 0 <= k < rasters => Edge(StartNode, RasterNode(k + 1)))
  }

  /** Edges added by the transition loop from transition `j` on. */
  function TransitionEdgesFrom(j: nat, rasters: nat): seq<Edge>
    decreases rasters - j
  {
    if j < rasters
    then [Edge(MuxNode(j), TransitionNode(j)), Edge(RasterNode(j), MuxNode(j)), Edge(RasterNode(j + 1), MuxNode(j))]
         + TransitionEdgesFrom(j + 1, rasters)
    else []
  }

  /** Edges added for the from-start and to-end segments. */
  function BoundaryEdges(rasters: nat): seq<Edge>
  {
    [ Edge(UpdateEndNode, FromStartNode), Edge(RasterNode(1), UpdateEndNode),
      Edge(UpdateStartNode, ToEndNode), Edge(RasterNode(rasters), UpdateStartNode) ]
  }

  function PlannedEdges(rasters: nat): seq<Edge>
  {
    RasterEdges(rasters) + TransitionEdgesFrom(1, rasters) + BoundaryEdges(rasters)
  }

  /**
   * The identity of the k-th node added: the start node, rasters 1..R, then a
   * (transition, mux) pair for each of transitions 1..R-1, then the from-start node,
   * its update node, the to-end node and its update node.
   */
  function NodeIdAt(rasters: nat, k: nat): NodeId
    requires 1 <= rasters && k < 3 * rasters + 3
  {
    if k == 0 then StartNode
    else if k <= rasters then RasterNode(k)
    else if k <= 3 * rasters - 2 then
      (if (k - rasters - 1) % 2 == 0 then TransitionNode((k - rasters - 1) / 2 + 1)
       else MuxNode((k - rasters - 1) / 2 + 1))
    else if k == 3 * rasters - 1 then FromStartNode
    else if k == 3 * rasters then UpdateEndNode
    else if k == 3 * rasters + 1 then ToEndNode
    else UpdateStartNode
  }

  function PlannedNodeIds(rasters: nat): (ids: seq<NodeId>)
    requires 1 <= rasters
    ensures |ids| == 3 * rasters + 3
  {
    seq(3 * rasters + 3, k requires 0 <= k < 3 * rasters + 3 => NodeIdAt(rasters, k))
  }

  /** Where a node identity sits in the order of addition. */
  function PositionOf(rasters: nat, id: NodeId): nat
    requires 1 <= rasters
  {
    match id
    case StartNode => 0
    case RasterNode(i) => i
    case TransitionNode(i) => rasters + 2 * (i - 1) + 1
    case MuxNode(i) => rasters + 2 * (i - 1) + 2
    case FromStartNode => 3 * rasters - 1
    case UpdateEndNode => 3 * rasters
    case ToEndNode => 3 * rasters + 1
    case UpdateStartNode => 3 * rasters + 2
  }

  /** The nodes a graph for R rasters has: rasters 1..R, transitions and muxes 1..R-1. */
  predicate IsPlannedNode(rasters: nat, id: NodeId)
  {
    match id
    case RasterNode(i) => 1 <= i <= rasters
    case TransitionNode(i) => 1 <= i < rasters
    case MuxNode(i) => 1 <= i < rasters
    case _ => true
  }

  /** The edges a graph for R rasters has, stated independently of the loops that add them. */
  predicate IsPlannedEdge(rasters: nat, e: Edge)
  {
    || (e.from == StartNode && e.to.RasterNode? && 1 <= e.to.index <= rasters)
    || (e.from.RasterNode? && e.to.MuxNode? && 1 <= e.to.index < rasters
        && (e.from.index == e.to.index || e.from.index == e.to.index + 1))
    || (e.from.MuxNode? && 1 <= e.from.index < rasters && e.to == TransitionNode(e.from.index))
    || e == Edge(RasterNode(1), UpdateEndNode)
    || e == Edge(UpdateEndNode, FromStartNode)
    || e == Edge(RasterNode(rasters), UpdateStartNode)
    || e == Edge(UpdateStartNode, ToEndNode)
  }

  lemma {:induction false} TransitionEdgesFromExactly(j: nat, rasters: nat, e: Edge)
    requires 1 <= j
    ensures e in TransitionEdgesFrom(j, rasters) <==>
              || (e.from.RasterNode? && e.to.MuxNode? && j <= e.to.index < rasters
                  && (e.from.index == e.to.index || e.from.index == e.to.index + 1))
              || (e.from.MuxNode? && j <= e.from.index < rasters && e.to == TransitionNode(e.from.index))
    decreases rasters - j
  {
    if j < rasters {
      TransitionEdgesFromExactly(j + 1, rasters, e);
    }
  }

  /** The loops add exactly the planned edges. */
  lemma EdgesExactly(rasters: nat, e: Edge)
    requires 1 <= rasters
    ensures e in PlannedEdges(rasters) <==> IsPlannedEdge(rasters, e)
  {
    TransitionEdgesFromExactly(1, rasters, e);
    if e.from == StartNode && e.to.RasterNode? && 1 <= e.to.index <= rasters {
      assert RasterEdges(rasters)[e.to.index - 1] == e;
    }
  }

  /**
   * Positions and identities are inverse: every position holds a planned node and
   * every planned node sits at exactly one position, so node identities are unique.
   */
  lemma NodeIdsRoundTrip(rasters: nat, k: nat, id: NodeId)
    requires 1 <= rasters
    ensures k < 3 * rasters + 3 ==>
              IsPlannedNode(rasters, NodeIdAt(rasters, k)) && PositionOf(rasters, NodeIdAt(rasters, k)) == k
    ensures IsPlannedNode(rasters, id) ==>
              PositionOf(rasters, id) < 3 * rasters + 3 && NodeIdAt(rasters, PositionOf(rasters, id)) == id
  {
  }

  /** Graph nodes are added for exactly the planned identities, each once. */
  lemma NodesExactly(rasters: nat, id: NodeId)
    requires 1 <= rasters
    ensures id in PlannedNodeIds(rasters) <==> IsPlannedNode(rasters, id)
    ensures forall a, b :: 0 <= a < b < 3 * rasters + 3 ==> PlannedNodeIds(rasters)[a] != PlannedNodeIds(rasters)[b]
  {
    var ids := PlannedNodeIds(rasters);
    NodeIdsRoundTrip(rasters, 0, id);
    if id in ids {
      var k :| 0 <= k < |ids| && ids[k] == id;
      NodeIdsRoundTrip(rasters, k, id);
    }
    if IsPlannedNode(rasters, id) {
      assert ids[PositionOf(rasters, id)] == id;
    }
    forall a, b | 0 <= a < b < 3 * rasters + 3
      ensures ids[a] != ids[b]
    {
      NodeIdsRoundTrip(rasters, a, id);
      NodeIdsRoundTrip(rasters, b, id);
    }
  }

  /** Depth of a node in the layered graph. */
  function Layer(id: NodeId): nat
  {
    match id
    case StartNode => 0
    case RasterNode(_) => 1
    case MuxNode(_) => 2
    case UpdateEndNode => 2
    case UpdateStartNode => 2
    case TransitionNode(_) => 3
    case FromStartNode => 3
    case ToEndNode => 3
  }

  /** Every planned edge joins two planned nodes and goes one or more layers down. */
  lemma EdgesAreLayered(rasters: nat, e: Edge)
    requires 1 <= rasters
    requires e in PlannedEdges(rasters)
    ensures IsPlannedNode(rasters, e.from) && IsPlannedNode(rasters, e.to)
    ensures Layer(e.from) < Layer(e.to)
  {
    EdgesExactly(rasters, e);
  }

  predicate IsPath(edges: seq<Edge>, p: seq<NodeId>)
  {
    && 1 <= |p|
    && forall k :: 0 <= k < |p| - 1 ==> Edge(p[k], p[k + 1]) in edges
  }

  lemma {:induction false} PathsDescend(rasters: nat, p: seq<NodeId>)
    requires 1 <= rasters
    requires IsPath(PlannedEdges(rasters), p)
    ensures Layer(p[|p| - 1]) >= Layer(p[0]) + |p| - 1
    decreases |p|
  {
    if 1 < |p| {
      PathsDescend(rasters, p[..|p| - 1]);
      EdgesAreLayered(rasters, Edge(p[|p| - 2], p[|p| - 1]));
    }
  }

  /** The planned graph is acyclic: no path of one edge or more returns to where it started. */
  lemma Acyclic(rasters: nat, p: seq<NodeId>)
    requires 1 <= rasters
    requires IsPath(PlannedEdges(rasters), p) && 2 <= |p|
    ensures p[0] != p[|p| - 1]
  {
    PathsDescend(rasters, p);
  }

  /** Every planned node is reachable from the start node. */
  lemma ReachableFromStart(rasters: nat, id: NodeId)
    requires 1 <= rasters
    requires IsPlannedNode(rasters, id)
    ensures exists p :: IsPath(PlannedEdges(rasters), p) && p[0] == StartNode && p[|p| - 1] == id
  {
    var edges := PlannedEdges(rasters);
    var p: seq<NodeId>;
    match id {
      case StartNode => p := [StartNode];
      case RasterNode(i) => p := [StartNode, id];
      case MuxNode(i) => p := [StartNode, RasterNode(i), id];
      case TransitionNode(i) => p := [StartNode, RasterNode(i), MuxNode(i), id];
      case UpdateEndNode => p := [StartNode, RasterNode(1), id];
      case FromStartNode => p := [StartNode, RasterNode(1), UpdateEndNode, id];
      case UpdateStartNode => p := [StartNode, RasterNode(rasters), id];
      case ToEndNode => p := [StartNode, RasterNode(rasters), UpdateStartNode, id];
    }
    forall k | 0 <= k < |p| - 1
      ensures Edge(p[k], p[k + 1]) in edges
    {
      EdgesExactly(rasters, Edge(p[k], p[k + 1]));
    }
    assert IsPath(edges, p);
  }

  /** Each mux waits for exactly the two rasters beside it (an AND-join). */
  lemma MuxJoinsNeighbouringRasters(rasters: nat, j: nat, from: NodeId)
    requires 1 <= j < rasters
    ensures Edge(from, MuxNode(j)) in PlannedEdges(rasters) <==> from == RasterNode(j) || from == RasterNode(j + 1)
  {
    EdgesExactly(rasters, Edge(from, MuxNode(j)));
  }
}
