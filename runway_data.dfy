// The whole of `create_runway_data` (src/Layout/Layout.py:843-1044): the
// special edges are filed, every strip of `runways_dict` is processed in
// turn on the node table the previous one left, and finally every edge a
// runway direction walked is re-typed as a runway edge.

module RunwayData {
  import opened Wrappers
  import opened Strings
  import opened Graph
  import opened Edges
  import opened Runways
  import opened RunwayStrips
  import opened StripAssembly

  /**
   * What `create_runway_data` leaves behind: the filed special edges, the
   * record of each strip of `runways_dict` in its order, the node table
   * before the first strip and after each one, and the edge table with the
   * runway edges re-typed.
   */
  datatype RunwayResult = RunwayResult(special: Special, records: seq<StripData>, tables: seq<NodeTable>,
                                       edges: map<EdgeKey, EdgeRecord>)

  /** The keys of `runways_dict`, in their order. */
  function Names(strips: seq<StripInput>): (r: seq<string>)
    ensures |r| == |strips| && forall i :: 0 <= i < |strips| ==> r[i] == strips[i].name
  {
    seq(|strips|, i requires 0 <= i < |strips| => strips[i].name)
  }

  /** Every threshold node of every strip is a node. */
  predicate ThresholdsKnown(strips: seq<StripInput>, nodes: set<NodeId>)
  {
    forall i, d :: 0 <= i < |strips| && d in strips[i].thresholds ==> strips[i].thresholds[d].node in nodes
  }

  /** The union of the `rwy_edges` of all strips. */
  function RunwayEdges(records: seq<StripData>): (r: set<EdgeKey>)
    ensures forall e :: e in r <==> exists j :: 0 <= j < |records| && e in records[j].rwyEdges
  {
    set j, e | 0 <= j < |records| && e in records[j].rwyEdges :: e
  }

  /** `ok` holds of every step of the chain, each from one table to the next. */
  ghost predicate Chain(ok: (nat, NodeTable, StripData, NodeTable) -> bool, tables: seq<NodeTable>, records: seq<StripData>)
  {
    && |tables| == |records| + 1
    && forall j :: 0 <= j < |records| ==> ok(j, tables[j], records[j], tables[j + 1])
  }

  /** Strip `j` of `strips` leads from `before` to `after` with record `sd`. */
  ghost function StepOk(strips: seq<StripInput>, sp: Special, g: Topology): (nat, NodeTable, StripData, NodeTable) -> bool
  {
    (j: nat, before: NodeTable, sd: StripData, after: NodeTable) => j < |strips| && StripOk(strips[j], sp, g, before, sd, after)
  }

  /**
   * The strips processed so far: each record meets its conditions between
   * the table before it and the table after it.
   */
  ghost predicate StripsOk(strips: seq<StripInput>, sp: Special, g: Topology, tables: seq<NodeTable>, records: seq<StripData>)
  {
    && |records| <= |strips| && |tables| == |records| + 1
    && forall j :: 0 <= j < |records| ==> StripOk(strips[j], sp, g, tables[j], records[j], tables[j + 1])
  }

  /** The processed strips form a chain of steps, each the step of its strip. */
  lemma StripsChain(strips: seq<StripInput>, sp: Special, g: Topology, tables: seq<NodeTable>, records: seq<StripData>)
    ensures StripsOk(strips, sp, g, tables, records) <==> |records| <= |strips| && Chain(StepOk(strips, sp, g), tables, records)
  {
  }

  /** Filed special edges are edges of the graph. */
  lemma FiledInGraph(g: Topology, names: seq<string>, runways: seq<string>, sp: Special)
    requires FiledAs(g.edges, names, runways, g.edges.Keys, sp)
    ensures SpecialInGraph(sp, g)
  {
    forall x | x in sp.crossing ensures sp.crossing[x] <= g.edges.Keys {
      forall k | k in sp.crossing[x] ensures k in g.edges {
      }
    }
    forall x | x in sp.ahead ensures sp.ahead[x] <= g.edges.Keys {
      forall k | k in sp.ahead[x] ensures k in g.edges {
      }
    }
  }

  /** A processed strip leaves the node table with the same nodes. */
  lemma SameNodes(s: StripInput, sp: Special, g: Topology, table0: NodeTable, sd: StripData, table: NodeTable)
    requires StripOk(s, sp, g, table0, sd, table)
    ensures table.Keys == table0.Keys
  {
  }

  /** One more strip record extends the processed ones. */
  lemma StripsGrow(strips: seq<StripInput>, sp: Special, g: Topology, tables: seq<NodeTable>,
                   records: seq<StripData>, sd: StripData, table: NodeTable)
    requires StripsOk(strips, sp, g, tables, records) && |records| < |strips|
    requires StripOk(strips[|records|], sp, g, tables[|records|], sd, table)
    ensures StripsOk(strips, sp, g, tables + [table], records + [sd])
  {
    StripsChain(strips, sp, g, tables, records);
    ChainGrows(StepOk(strips, sp, g), tables, records, sd, table);
    StripsChain(strips, sp, g, tables + [table], records + [sd]);
  }

  /** A chain of steps, each from one table to the next, grows by one more step. */
  lemma ChainGrows(ok: (nat, NodeTable, StripData, NodeTable) -> bool, tables: seq<NodeTable>, records: seq<StripData>,
                   sd: StripData, table: NodeTable)
    requires Chain(ok, tables, records) && ok(|records|, tables[|records|], sd, table)
    ensures Chain(ok, tables + [table], records + [sd])
  {
    assert (tables + [table])[..|records| + 1] == tables && (records + [sd])[..|records|] == records;
  }

  /** Before the first strip nothing is processed. */
  lemma NoStrips(strips: seq<StripInput>, sp: Special, g: Topology, table0: NodeTable)
    ensures StripsOk(strips, sp, g, [table0], [])
  {
  }

  /** A strip processed on the last table extends the processed ones and keeps the nodes. */
  lemma NextStrip(strips: seq<StripInput>, sp: Special, g: Topology, tables: seq<NodeTable>, records: seq<StripData>,
                  i: nat, res: Result<(StripData, NodeTable), RunwayError>)
    requires StripsOk(strips, sp, g, tables, records) && |records| == i && i < |strips|
    requires res.Ok? && Outcome(strips[i], sp, g, tables[i], res)
    ensures StripsOk(strips, sp, g, tables + [res.value.1], records + [res.value.0])
    ensures res.value.1.Keys == tables[i].Keys
  {
    SameNodes(strips[i], sp, g, tables[i], res.value.0, res.value.1);
    StripsGrow(strips, sp, g, tables, records, res.value.0, res.value.1);
  }

  /**
   * `r` is `edges` with the edges of `rwy` typed as runway edges: the same
   * keys, an edge is a runway edge exactly when it is in `rwy` or already
   * was one, and nothing but the type changes.
   */
  predicate Marked(edges: map<EdgeKey, EdgeRecord>, rwy: set<EdgeKey>, r: map<EdgeKey, EdgeRecord>)
  {
    && r.Keys == edges.Keys
    && (forall k :: k in r ==> (r[k].edgeType == RwyEdge <==> k in rwy || edges[k].edgeType == RwyEdge))
    && forall k :: k in r ==> r[k] == edges[k].(edgeType := r[k].edgeType)
  }

  /**
   * The last loop of `create_runway_data`: every edge in `rwy` gets the type
   * RWY_edge, in place.
   */
  method MarkRunwayEdges(edges: map<EdgeKey, EdgeRecord>, rwy: set<EdgeKey>) returns (r: map<EdgeKey, EdgeRecord>)
    requires rwy <= edges.Keys
    ensures Marked(edges, rwy, r)
    ensures forall k :: k in r && k !in rwy ==> r[k] == edges[k]
  {
    r := edges;
    var todo := rwy;
    while todo != {}
      invariant todo <= rwy && r.Keys == edges.Keys
      invariant forall k :: k in r ==> r[k] == edges[k].(edgeType := r[k].edgeType)
      invariant forall k :: k in r && k in rwy && k !in todo ==> r[k].edgeType == RwyEdge
      invariant forall k :: k in r && (k !in rwy || k in todo) ==> r[k] == edges[k]
      decreases |todo|
    {
      var k :| k in todo;
      r := r[k := r[k].(edgeType := RwyEdge)];
      todo := todo - {k};
    }
  }

  /** The chain edges of a strip's directions are edges of the graph. */
  lemma StripEdgesInGraph(s: StripInput, sp: Special, g: Topology, table0: NodeTable, sd: StripData, table: NodeTable)
    requires StripOk(s, sp, g, table0, sd, table)
    ensures sd.rwyEdges <= g.edges.Keys
  {
    var t1, t2 := s.thresholds[sd.dir1], s.thresholds[sd.dir2];
    assert ChainOk(t1.node, t1.aligned, g, sd.first.nodes, sd.first.edges);
    assert ChainOk(t2.node, t2.aligned, g, sd.second.nodes, sd.second.edges);
    forall e | e in sd.rwyEdges ensures e in g.edges {
      if e in Members(sd.first.edges) {
        var i :| 0 <= i < |sd.first.edges| && sd.first.edges[i] == e;
      } else {
        var i :| 0 <= i < |sd.second.edges| && sd.second.edges[i] == e;
      }
    }
  }

  /** The runway edges of all processed strips are edges of the graph. */
  lemma RunwayEdgesInGraph(strips: seq<StripInput>, sp: Special, g: Topology, tables: seq<NodeTable>, records: seq<StripData>)
    requires StripsOk(strips, sp, g, tables, records)
    ensures RunwayEdges(records) <= g.edges.Keys
  {
    forall e | e in RunwayEdges(records) ensures e in g.edges {
      var j :| 0 <= j < |records| && e in records[j].rwyEdges;
      StripEdgesInGraph(strips[j], sp, g, tables[j], records[j], tables[j + 1]);
    }
  }

  /**
   * What a successful `create_runway_data` leaves: every special edge filed
   * under its strip or direction, one record per strip with the node tables
   * chaining from the first, and exactly the walked edges retyped as runway
   * edges, all else of every edge kept.
   */
  ghost predicate Built(strips: seq<StripInput>, runways: seq<string>, g: Topology, table0: NodeTable, res: RunwayResult)
  {
    && FiledAs(g.edges, Names(strips), runways, g.edges.Keys, res.special)
    && |res.records| == |strips| && StripsOk(strips, res.special, g, res.tables, res.records)
    && res.tables[0] == table0
    && MarkedAfter(g, res.records, res.edges)
  }

  /**
   * The results `create_runway_data` may give on these inputs: the walks
   * take the candidate edges in no fixed order, so more than one may do.
   */
  ghost function Results(strips: seq<StripInput>, runways: seq<string>, g: Topology, table0: NodeTable): iset<RunwayResult>
  {
    iset res | Built(strips, runways, g, table0, res)
  }

  /**
   * `create_runway_data`: it fails when an edge with a special name names no
   * strip or direction, or when a strip fails; otherwise every strip has its
   * record, the node tables chain from the one before the first strip, and
   * exactly the walked edges become runway edges.
   */
  method CreateRunwayData(strips: seq<StripInput>, runways: seq<string>, g: Topology, table0: NodeTable)
    returns (r: Result<RunwayResult, RunwayError>)
    requires TopologyOk(g, table0.Keys) && ThresholdsKnown(strips, table0.Keys)
    ensures (exists k :: k in g.edges && FilingOf(g.edges[k].edgeName, Names(strips), runways) == Unfiled) ==> r.Err?
    ensures r.Err? && r.error.RemainingStopbars? ==>
              exists i :: 0 <= i < |strips| && r.error.strip == strips[i].name
                          && r.error.stopbars != {} && r.error.stopbars <= strips[i].stopbars
    ensures r.Err? ==> || r.error.CrossingWithoutStrip? || r.error.AheadWithoutRunway?
                       || exists i :: 0 <= i < |strips| && StripFailure(strips[i], g, r.error)
    ensures r.Err? ==> Failure(strips, runways, g, table0, r.error)
    ensures r.Ok? ==> r.value in Results(strips, runways, g, table0)
  {
    var sp :- SpecialEdges(g.edges, Names(strips), runways);
    FiledInGraph(g, Names(strips), runways, sp);
    var records: seq<StripData> := [];
    var tables: seq<NodeTable> := [table0];
    NoStrips(strips, sp, g, table0);
    for i := 0 to |strips|
      invariant |records| == i && Processing(strips, sp, g, table0, tables, records)
    {
      var step := ProcessNext(strips, sp, g, table0, tables, records);
      if step.Err? {
        assert FailedAt(strips, runways, g, table0, sp, tables, records, step.error);
        return Err(step.error);
      }
      records, tables := step.value.0, step.value.1;
    }
    var res := MarkWalked(strips, runways, g, table0, sp, records, tables);
    r := Ok(res);
  }

  /**
   * The causes `create_runway_data` fails for: an edge with a special name
   * that names no strip or runway direction, reported with its key and the
   * kind its name asks for; or the failure of a strip once the strips
   * before it were processed.
   */
  ghost predicate Failure(strips: seq<StripInput>, runways: seq<string>, g: Topology, table0: NodeTable, e: RunwayError)
  {
    if e.CrossingWithoutStrip? || e.AheadWithoutRunway? then
      && e.key in g.edges && FilingOf(g.edges[e.key].edgeName, Names(strips), runways) == Unfiled
      && e == UnfiledError(e.key, g.edges[e.key].edgeName.value)
    else
      exists sp, tables, records :: FailedAt(strips, runways, g, table0, sp, tables, records, e)
  }

  /**
   * A failed `create_runway_data`: the special edges are filed, the strips
   * before strip `|records|` are processed from `table0`, and that strip
   * fails for a cause of its own on the table they left.
   */
  ghost predicate FailedAt(strips: seq<StripInput>, runways: seq<string>, g: Topology, table0: NodeTable,
                           sp: Special, tables: seq<NodeTable>, records: seq<StripData>, e: RunwayError)
  {
    && FiledAs(g.edges, Names(strips), runways, g.edges.Keys, sp)
    && |records| < |strips| && Processing(strips, sp, g, table0, tables, records)
    && Outcome(strips[|records|], sp, g, tables[|records|], Err(e))
  }

  /**
   * What holds between two strips of `create_runway_data`: the strips so far
   * are processed, starting from `table0`, and the last table has the nodes
   * of the first.
   */
  ghost predicate Processing(strips: seq<StripInput>, sp: Special, g: Topology, table0: NodeTable,
                             tables: seq<NodeTable>, records: seq<StripData>)
  {
    && TopologyOk(g, table0.Keys) && ThresholdsKnown(strips, table0.Keys) && SpecialInGraph(sp, g)
    && StripsOk(strips, sp, g, tables, records) && tables[0] == table0 && tables[|records|].Keys == table0.Keys
  }

  /**
   * One turn of the loop of `create_runway_data`: the next strip is
   * processed on the table the previous one left, and either its record and
   * table are appended or its failure ends the loop.
   */
  method ProcessNext(strips: seq<StripInput>, sp: Special, g: Topology, table0: NodeTable,
                     tables: seq<NodeTable>, records: seq<StripData>)
    returns (r: Result<(seq<StripData>, seq<NodeTable>), RunwayError>)
    requires |records| < |strips| && Processing(strips, sp, g, table0, tables, records)
    ensures r.Ok? ==> |r.value.0| == |records| + 1 && r.value.0[..|records|] == records
    ensures r.Ok? ==> Processing(strips, sp, g, table0, r.value.1, r.value.0)
    ensures r.Err? ==> StripFailure(strips[|records|], g, r.error)
    ensures r.Err? ==> Outcome(strips[|records|], sp, g, tables[|records|], Err(r.error))
    ensures r.Err? && r.error.RemainingStopbars? ==>
              r.error.strip == strips[|records|].name && r.error.stopbars != {} && r.error.stopbars <= strips[|records|].stopbars
  {
    var i := |records|;
    var res := ProcessStrip(strips[i], sp, g, tables[i]);
    if res.Err? {
      assert res == Err(res.error);
      return Err(res.error);
    }
    NextStrip(strips, sp, g, tables, records, i, res);
    r := Ok((records + [res.value.0], tables + [res.value.1]));
  }

  /**
   * The end of `create_runway_data`, once every strip is processed: every
   * edge a runway direction walked is re-typed as a runway edge.
   */
  method MarkWalked(strips: seq<StripInput>, runways: seq<string>, g: Topology, table0: NodeTable,
                    sp: Special, records: seq<StripData>, tables: seq<NodeTable>) returns (res: RunwayResult)
    requires FiledAs(g.edges, Names(strips), runways, g.edges.Keys, sp)
    requires |records| == |strips| && StripsOk(strips, sp, g, tables, records) && tables[0] == table0
    ensures res.special == sp && res.records == records && res.tables == tables
    ensures res in Results(strips, runways, g, table0)
  {
    RunwayEdgesInGraph(strips, sp, g, tables, records);
    var edges := MarkRunwayEdges(g.edges, RunwayEdges(records));
    InResults(strips, runways, g, table0, sp, records, tables, edges);
    res := RunwayResult(sp, records, tables, edges);
  }

  /** A result built as `create_runway_data` builds it is one of its results. */
  lemma InResults(strips: seq<StripInput>, runways: seq<string>, g: Topology, table0: NodeTable,
                   sp: Special, records: seq<StripData>, tables: seq<NodeTable>, edges: map<EdgeKey, EdgeRecord>)
    requires FiledAs(g.edges, Names(strips), runways, g.edges.Keys, sp)
    requires |records| == |strips| && StripsOk(strips, sp, g, tables, records)
    requires tables[0] == table0 && Marked(g.edges, RunwayEdges(records), edges)
    ensures RunwayResult(sp, records, tables, edges) in Results(strips, runways, g, table0)
  {
    var res := RunwayResult(sp, records, tables, edges);
    assert res.special == sp && res.records == records && res.tables == tables && res.edges == edges;
    assert Built(strips, runways, g, table0, res);
  }

  // ---------------------------------------------------------------------------
  // What a processed strip promises
  // ---------------------------------------------------------------------------

  /**
   * Each exit `(u, v)` of one direction is the entry `(v, u)` of the other,
   * with the same length and stop bars, and the entry stop-bar edges of one
   * direction are the exit stop-bar edges of the other reversed.
   */
  lemma ExitsAreOppositeEntries(s: StripInput, sp: Special, g: Topology, table0: NodeTable, sd: StripData, table: NodeTable)
    requires StripOk(s, sp, g, table0, sd, table)
    ensures forall x :: x in sd.first.exits ==>
              x.Rev() in sd.second.entries && sd.second.entries[x.Rev()].length == sd.first.exits[x].length
              && sd.second.entries[x.Rev()].stopbars == sd.first.exits[x].stopbars
    ensures forall x :: x in sd.second.exits ==>
              x.Rev() in sd.first.entries && sd.first.entries[x.Rev()].length == sd.second.exits[x].length
              && sd.first.entries[x.Rev()].stopbars == sd.second.exits[x].stopbars
    ensures sd.first.stopbarsEntries.nodes == sd.second.stopbarsExits.nodes
    ensures sd.second.stopbarsEntries.nodes == sd.first.stopbarsExits.nodes
    ensures forall e :: e in sd.first.stopbarsEntries.edges <==> e.Rev() in sd.second.stopbarsExits.edges
    ensures forall e :: e in sd.second.stopbarsEntries.edges <==> e.Rev() in sd.first.stopbarsExits.edges
  {
    MirroredExit(sd.first.exits, sd.second.entries);
    MirroredExit(sd.second.exits, sd.first.entries);
  }

  /**
   * A processed strip has exactly two directions, each with a threshold node
   * of exactly one outgoing edge, which is where its walk starts.
   */
  lemma TwoDirections(s: StripInput, sp: Special, g: Topology, table0: NodeTable, sd: StripData, table: NodeTable)
    requires StripOk(s, sp, g, table0, sd, table)
    ensures |Split(s.name, '/')| == 2 && sd.dir1 in s.thresholds && sd.dir2 in s.thresholds
    ensures s.thresholds[sd.dir1].node in g.from && |g.from[s.thresholds[sd.dir1].node]| == 1
    ensures s.thresholds[sd.dir2].node in g.from && |g.from[s.thresholds[sd.dir2].node]| == 1
    ensures sd.first.edges[0] in g.from[s.thresholds[sd.dir1].node] && sd.second.edges[0] in g.from[s.thresholds[sd.dir2].node]
  {
    var t1, t2 := s.thresholds[sd.dir1], s.thresholds[sd.dir2];
    assert WalksOk(t1, t2, g, table0, sd, table);
    DirectionStart(t1, g, table0, sd.first, sd.second);
    DirectionStart(t2, g, table0, sd.second, sd.first);
  }

  /** A walked direction starts at its threshold, whose only outgoing edge is the first chain edge. */
  lemma DirectionStart(t: Threshold, g: Topology, table0: NodeTable, d: DirectionData, opposite: DirectionData)
    requires DirectionOk(t, g, table0, d, opposite)
    ensures t.node in g.from && |g.from[t.node]| == 1 && d.edges[0] in g.from[t.node]
  {
    assert ChainOk(t.node, t.aligned, g, d.nodes, d.edges);
  }

  /**
   * Every stop bar of a processed strip is an exit or entry stop bar, a
   * crossing one, or one ahead of or behind the first direction; the second
   * direction sees the first's ahead as behind and the other way round.
   */
  lemma StopbarsAccounted(s: StripInput, sp: Special, g: Topology, table0: NodeTable, sd: StripData, table: NodeTable)
    requires StripOk(s, sp, g, table0, sd, table)
    ensures forall n :: n in s.stopbars ==>
              || n in sd.first.stopbarsExits.nodes || n in sd.first.stopbarsEntries.nodes
              || n in sd.first.crossings.nodes || n in sd.first.ahead.nodes || n in sd.first.behind.nodes
    ensures sd.second.crossings == sd.first.crossings
    ensures sd.second.ahead == sd.first.behind && sd.second.behind == sd.first.ahead
  {
    assert sd.first.stopbarsEntries.nodes == sd.second.stopbarsExits.nodes;
  }

  /** What the edge table after `create_runway_data` says of a runway edge. */
  predicate MarkedAfter(g: Topology, records: seq<StripData>, edges: map<EdgeKey, EdgeRecord>)
  {
    Marked(g.edges, RunwayEdges(records), edges)
  }

  /**
   * After `create_runway_data` every chain edge of every direction of a
   * strip, which its record lists among its runway edges, is a runway edge.
   */
  lemma ChainEdgesMarked(g: Topology, records: seq<StripData>, edges: map<EdgeKey, EdgeRecord>, j: nat)
    requires MarkedAfter(g, records, edges) && j < |records|
    requires records[j].rwyEdges == Members(records[j].first.edges) + Members(records[j].second.edges)
    requires records[j].rwyEdges <= g.edges.Keys
    ensures forall i :: 0 <= i < |records[j].first.edges| ==>
              records[j].first.edges[i] in edges && edges[records[j].first.edges[i]].edgeType == RwyEdge
    ensures forall i :: 0 <= i < |records[j].second.edges| ==>
              records[j].second.edges[i] in edges && edges[records[j].second.edges[i]].edgeType == RwyEdge
  {
    forall i | 0 <= i < |records[j].first.edges|
      ensures records[j].first.edges[i] in RunwayEdges(records)
    {
      assert records[j].first.edges[i] in records[j].rwyEdges;
    }
    forall i | 0 <= i < |records[j].second.edges|
      ensures records[j].second.edges[i] in RunwayEdges(records)
    {
      assert records[j].second.edges[i] in records[j].rwyEdges;
    }
  }
}
