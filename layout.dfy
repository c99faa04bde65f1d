/**
 * The `Layout` object of src/Layout/Layout.py: its constructor parses the
 * airport id from the drawing's file name and then runs the construction
 * phases in order: `import_nodes`, `import_edges`, `enhance_imports`,
 * `create_runway_data` and `create_pushpull_data`. Each phase is a method
 * that updates the object's tables in place.
 */
module Layouts {
  import opened Wrappers
  import opened Graph
  import AirportId
  import Nodes
  import Edges
  import EdgeProperties
  import Enhance
  import Runways
  import RunwayStrips
  import StripAssembly
  import RunwayData
  import Pushback

  /** The assertion or lookup that stops the construction, by phase. */
  datatype LayoutError =
    | NameFailure(name: AirportId.NameError)
    | NodeFailure(node: Nodes.NodeError)
    | EdgeFailure(edge: Edges.EdgeError)
    | EnhanceFailure(enhance: Enhance.EnhanceError)
    | RunwayFailure(runway: Runways.RunwayError)
    | PushFailure(push: Pushback.PushError)

  /**
   * The walk's view of an enhanced graph is closed: every key has two ends
   * among the nodes, and the adjacency and the continuations only name
   * known keys.
   */
  lemma EnhancedTopology(types: map<NodeId, NodeType>, ramps: set<NodeId>, edges: map<EdgeKey, Edges.EdgeRecord>)
    requires EdgeProperties.MirrorClosed(edges) && Enhance.Enhanceable(types.Keys, edges)
    ensures var e := Enhance.Enhanced(types, ramps, edges);
            Runways.TopologyOk(Runways.Topology(edges, map n | n in e.links :: e.links[n].from, e.next), types.Keys)
  {
    forall k | k in edges ensures k.Closed() {
      assert k.Rev() in edges;
    }
  }

  /**
   * The enhancement of a node table whose ramps are known nodes and whose
   * edges have known ends: the retyped table keeps the nodes, the graph the
   * walk reads is well formed, and every ramp has its outgoing stand edges.
   */
  lemma EnhancedLayout(t: Runways.NodeTable, rampNodes: map<string, NodeId>, edges: map<EdgeKey, Edges.EdgeRecord>)
    requires Nodes.PointsInto(rampNodes, t.Keys) && EdgeProperties.MirrorClosed(edges) && Enhance.Enhanceable(t.Keys, edges)
    ensures var e := Enhance.Enhanced(TypesOf(t), rampNodes.Values, edges);
            && t.Keys <= e.types.Keys
            && Runways.TopologyOk(Runways.Topology(edges, map n | n in e.links :: e.links[n].from, e.next), Retyped(t, e.types).Keys)
            && Pushback.RampsLinked(rampNodes, e.rampFrom)
  {
    EnhancedTopology(TypesOf(t), rampNodes.Values, edges);
    forall g | g in rampNodes ensures rampNodes[g] in rampNodes.Values {
    }
  }

  /** The node types of a node table. */
  function TypesOf(t: Runways.NodeTable): (r: map<NodeId, NodeType>)
    ensures r.Keys == t.Keys
  {
    map n | n in t :: t[n].nodeType
  }

  /** The node table with the types of `types`. */
  function Retyped(t: Runways.NodeTable, types: map<NodeId, NodeType>): (r: Runways.NodeTable)
    requires t.Keys <= types.Keys
    ensures r.Keys == t.Keys
  {
    map n | n in t :: t[n].(nodeType := types[n])
  }

  class Layout {
    const airport: AirportId.AirportName
    var nodes: Nodes.NodeTables                       // nodes_dict and the name tables
    var edges: Edges.EdgeTables                       // edges_dict and the path pools
    var enhancement: Enhance.Enhancement              // the adjacency and continuation tables
    var runwayData: RunwayData.RunwayResult           // the special edges and runways_dict, one record per strip
    var pushPaths: map<string, Pushback.Chains>       // edges_pushback_dict
    var pullPaths: map<string, Pushback.Chains>       // edges_pull_dict
    var pushback: map<string, Pushback.Entries>       // the `pushback` records of each gate's ramp

    /** A layout of the named airport whose tables are still empty. */
    constructor (airport: AirportId.AirportName)
      ensures this.airport == airport
      ensures nodes.nodes == map[] && edges.edges == map[] && enhancement.links == map[]
      ensures runwayData.records == [] && pushback == map[]
    {
      this.airport := airport;
      nodes := Nodes.FreshTables(map[], 0);
      edges := Edges.EmptyEdgeTables();
      enhancement := Enhance.Enhancement(map[], map[], map[], {}, map[], map[], map[], map[]);
      runwayData := RunwayData.RunwayResult(RunwayStrips.Special(map[], map[]), [], [], map[]);
      pushPaths, pullPaths, pushback := map[], map[], map[];
    }

    /** What `create_pushpull_data` reads: full pools and the stand edges of every gate's ramp. */
    ghost predicate PushReady()
      reads this
    {
      Edges.PoolsFull(edges.push) && Edges.PoolsFull(edges.pull) && Pushback.RampsLinked(nodes.rampNodes, enhancement.rampFrom)
    }

    /** The graph the runway walk reads. */
    function Topo(): Runways.Topology
      reads this
    {
      Runways.Topology(edges.edges, map n | n in enhancement.links :: enhancement.links[n].from, enhancement.next)
    }

    /** `import_nodes`: the node tables of the drawing. */
    method ImportNodes(input: Nodes.NodeInput) returns (err: Option<LayoutError>)
      requires Nodes.InputReadable(input)
      modifies this
      ensures err.None? <==> Nodes.ImportNodesSpec(input).Ok?
      ensures err.Some? ==> err.value == NodeFailure(Nodes.ImportNodesSpec(input).error)
      ensures err.None? ==> nodes == Nodes.ImportNodesSpec(input).value && Nodes.Consistent(nodes)
      ensures err.Some? ==> unchanged(this`nodes)
      ensures unchanged(this`edges, this`enhancement, this`runwayData)
      ensures unchanged(this`pushPaths, this`pullPaths, this`pushback)
    {
      var t := Nodes.ImportNodes(input);
      if t.Err? {
        return Some(NodeFailure(t.error));
      }
      Nodes.ImportNodesConsistent(input);
      nodes := t.value;
      err := None;
    }

    /** `import_edges`: the edge tables and path pools, read against the node tables. */
    method ImportEdges(paths: seq<Edges.PathRecord>) returns (err: Option<LayoutError>)
      requires Edges.PathsReadable(paths)
      modifies this
      ensures unchanged(this`nodes, this`enhancement, this`runwayData)
      ensures unchanged(this`pushPaths, this`pullPaths, this`pushback)
      ensures err.Some? ==> unchanged(this`edges)
      ensures err.None? <==> Edges.ImportEdgesSpec(nodes, paths).Ok?
      ensures err.Some? ==> err.value == EdgeFailure(Edges.ImportEdgesSpec(nodes, paths).error)
      ensures err.None? ==> edges == Edges.ImportEdgesSpec(nodes, paths).value
      ensures err.None? ==> EdgeProperties.Sound(edges) && EdgeKey(None, None) !in edges.edges
    {
      var t := Edges.ImportEdges(nodes, paths);
      if t.Err? {
        return Some(EdgeFailure(t.error));
      }
      EdgeProperties.ImportEdgesSound(nodes, paths);
      edges := t.value;
      err := None;
    }

    /**
     * `enhance_imports`: the adjacency of every node, the stand edges at the
     * ramps, the service-road intersections, the continuations of every edge
     * and the edges that switch direction at its end. It fails when a key
     * names an unknown node or ends in the open.
     */
    method EnhanceImports() returns (err: Option<LayoutError>)
      requires Nodes.PointsInto(nodes.rampNodes, nodes.nodes.Keys) && EdgeProperties.MirrorClosed(edges.edges)
      requires Edges.PoolsFull(edges.push) && Edges.PoolsFull(edges.pull)
      modifies this
      ensures unchanged(this`edges) && nodes == old(nodes).(nodes := nodes.nodes)
      ensures unchanged(this`runwayData)
      ensures unchanged(this`pushPaths, this`pullPaths, this`pushback)
      ensures err.Some? ==> unchanged(this`nodes, this`enhancement)
      ensures err.None? <==> Enhance.Enhanceable(old(nodes.nodes).Keys, edges.edges)
      ensures err.Some? ==> err.value.EnhanceFailure?
      ensures err.None? ==> enhancement == Enhance.Enhanced(TypesOf(old(nodes.nodes)), nodes.rampNodes.Values, edges.edges)
      ensures err.None? ==> nodes.nodes == Retyped(old(nodes.nodes), enhancement.types)
      ensures err.None? ==> Runways.TopologyOk(Topo(), nodes.nodes.Keys) && PushReady()
    {
      var types := TypesOf(nodes.nodes);
      var e := Enhance.EnhanceAll(types, nodes.rampNodes.Values, edges.edges);
      if e.Err? {
        return Some(EnhanceFailure(e.error));
      }
      EnhancedLayout(nodes.nodes, nodes.rampNodes, edges.edges);
      enhancement := e.value;
      nodes := nodes.(nodes := Retyped(nodes.nodes, e.value.types));
      err := None;
    }

    /**
     * `create_runway_data`: the special edges, one record per strip from the
     * walk along both of its directions, and the runway type on every edge
     * of a strip. The strips and the runway directions are read from the
     * information dictionary.
     */
    method CreateRunwayData(strips: seq<RunwayStrips.StripInput>, runwayNames: seq<string>)
      returns (err: Option<LayoutError>)
      requires Runways.TopologyOk(Topo(), nodes.nodes.Keys) && RunwayData.ThresholdsKnown(strips, nodes.nodes.Keys)
      requires PushReady()
      modifies this
      ensures nodes == old(nodes).(nodes := nodes.nodes) && edges == old(edges).(edges := edges.edges)
      ensures unchanged(this`enhancement) && PushReady()
      ensures unchanged(this`pushPaths, this`pullPaths, this`pushback)
      ensures err.Some? ==> unchanged(this`nodes, this`edges, this`runwayData)
      ensures err.Some? ==> err.value.RunwayFailure?
      ensures (exists k :: k in old(edges.edges) &&
                 RunwayStrips.FilingOf(old(edges.edges)[k].edgeName, RunwayData.Names(strips), runwayNames)
                   == RunwayStrips.Unfiled) ==> err.Some?
      ensures err.Some? && err.value.runway.RemainingStopbars? ==>
                exists i :: 0 <= i < |strips| && err.value.runway.strip == strips[i].name
                            && err.value.runway.stopbars != {} && err.value.runway.stopbars <= strips[i].stopbars
      ensures err.Some? ==> || err.value.runway.CrossingWithoutStrip? || err.value.runway.AheadWithoutRunway?
                            || exists i :: 0 <= i < |strips| && StripAssembly.StripFailure(strips[i], old(Topo()), err.value.runway)
      ensures err.Some? ==> RunwayData.Failure(strips, runwayNames, old(Topo()), old(nodes.nodes), err.value.runway)
      ensures err.None? ==> runwayData in RunwayData.Results(strips, runwayNames, old(Topo()), old(nodes.nodes))
      ensures err.None? ==> |runwayData.tables| == |strips| + 1 && nodes.nodes == runwayData.tables[|strips|]
    {
      var r := RunwayData.CreateRunwayData(strips, runwayNames, Topo(), nodes.nodes);
      if r.Err? {
        err := Some(RunwayFailure(r.error));
      } else {
        InstallRunwayData(r.value, |strips|);
        err := None;
      }
    }

    /** The runway records, the node table the last strip left and the re-typed edges replace the old ones. */
    method InstallRunwayData(res: RunwayData.RunwayResult, n: nat)
      requires n < |res.tables| && PushReady()
      modifies this
      ensures runwayData == res
      ensures nodes == old(nodes).(nodes := res.tables[n]) && edges == old(edges).(edges := res.edges)
      ensures unchanged(this`enhancement, this`pushPaths, this`pullPaths, this`pushback) && PushReady()
    {
      runwayData := res;
      nodes := nodes.(nodes := res.tables[n]);
      edges := edges.(edges := res.edges);
    }

    /**
     * `create_pushpull_data`: the push paths of every push gate, the pull
     * paths of every pull gate, then the records of every gate with a ramp.
     * It fails exactly when one of the three steps fails for some gate.
     */
    method CreatePushPullData() returns (err: Option<LayoutError>)
      requires PushReady()
      modifies this
      ensures unchanged(this`nodes, this`edges, this`enhancement)
      ensures unchanged(this`runwayData)
      ensures err.Some? ==> unchanged(this`pushPaths, this`pullPaths, this`pushback)
      ensures err.None? <==> Pushback.PushPullOk(edges.push, edges.pull, nodes.rampNodes, enhancement.rampFrom)
      ensures err.Some? ==> err.value.PushFailure?
      ensures err.None? ==>
                (pushPaths, pullPaths) == Pushback.Paths(edges.push, edges.pull, nodes.rampNodes, enhancement.rampFrom)
      ensures err.None? ==> pushback == Pushback.Records(nodes.rampNodes, pushPaths, pullPaths)
    {
      var paths := Pushback.BuildPaths(edges.push, edges.pull, nodes.rampNodes, enhancement.rampFrom);
      if paths.Err? {
        return Some(PushFailure(paths.error));
      }
      var records := Pushback.Assemble(nodes.rampNodes, paths.value.0, paths.value.1);
      if records.Err? {
        return Some(PushFailure(records.error));
      }
      pushPaths, pullPaths, pushback := paths.value.0, paths.value.1, records.value;
      err := None;
    }
  }

  /**
   * The constructor of `Layout`: the airport id from the file name, then the
   * phases in the order the source runs them. The drawing's contents, the
   * strips and the runway directions are its inputs.
   */
  method Open(svgPath: string, nodeInput: Nodes.NodeInput, paths: seq<Edges.PathRecord>,
              strips: seq<RunwayStrips.StripInput>, runwayNames: seq<string>)
    returns (r: Result<Layout, LayoutError>)
    requires Nodes.InputReadable(nodeInput) && Edges.PathsReadable(paths)
    requires Nodes.ImportNodesSpec(nodeInput).Ok? ==>
               RunwayData.ThresholdsKnown(strips, Nodes.ImportNodesSpec(nodeInput).value.nodes.Keys)
    ensures AirportId.ParseAirportName(svgPath).Err? ==> r == Err(NameFailure(AirportId.ParseAirportName(svgPath).error))
    ensures Nodes.ImportNodesSpec(nodeInput).Err? ==> r.Err?
    ensures r.Ok? ==> fresh(r.value) && AirportId.ParseAirportName(svgPath) == Ok(r.value.airport)
  {
    var name := AirportId.ParseAirportName(svgPath);
    if name.Err? {
      return Err(NameFailure(name.error));
    }
    var layout := new Layout(name.value);
    var err := layout.ImportNodes(nodeInput);
    if err.Some? {
      return Err(err.value);
    }
    err := layout.ImportEdges(paths);
    if err.Some? {
      return Err(err.value);
    }
    err := layout.EnhanceImports();
    if err.Some? {
      return Err(err.value);
    }
    err := layout.CreateRunwayData(strips, runwayNames);
    if err.Some? {
      return Err(err.value);
    }
    err := layout.CreatePushPullData();
    if err.Some? {
      return Err(err.value);
    }
    r := Ok(layout);
  }
}
