/**
 * `Layout.create_runway_data` (src/Layout/Layout.py): for every runway
 * strip, both directions are walked from their threshold along the edges
 * that keep the direction's heading; the other edges leaving the walk are
 * followed to their stop bars and become the direction's exits and the
 * opposite direction's entries; crossing and go-around edges are followed
 * to their stop bars; every stop bar of the strip must be accounted for;
 * and the walked edges become runway edges.
 *
 * Geometry stays outside: which edges keep a direction's heading (the
 * one-degree comparison of segment headings) is given per direction.
 */
module Runways {
  import opened Wrappers
  import opened Strings
  import opened Graph
  import opened Edges
  import Nodes

  type NodeTable = map<NodeId, Nodes.NodeRecord>

  /** The ways `create_runway_data` stops: a failed lookup or one of its assertions. */
  datatype RunwayError =
    | CrossingWithoutStrip(key: EdgeKey)          // a `crossing` edge names no strip
    | AheadWithoutRunway(key: EdgeKey)            // an `ahead` edge names no runway direction
    | DirectionCount(strip: string, count: nat)   // a strip name that is not two directions
    | MissingThreshold(strip: string, dir: string) // no threshold node for a direction
    | ThresholdEdgeCount(dir: string, count: nat) // the threshold node has not exactly one outgoing edge
    | EndlessWalk(dir: string)                    // the heading-keeping edges run in a circle
    | EndlessExitSearch(key: EdgeKey)             // a single-successor exit chain runs in a circle
    | RemainingStopbars(strip: string, stopbars: set<NodeId>) // the final completeness assertion

  /** What the walk reads of the graph: edge records, outgoing edges per node and continuations per edge. */
  datatype Topology = Topology(
    edges: map<EdgeKey, EdgeRecord>,
    from: map<NodeId, set<EdgeKey>>,     // edges_from_node
    next: map<EdgeKey, set<EdgeKey>>)    // next_edges

  /** Every key is closed and ends at a known node; the adjacency only names known edges. */
  predicate TopologyOk(g: Topology, nodes: set<NodeId>)
  {
    && (forall k {:trigger k in g.edges} :: k in g.edges ==> k.Closed() && k.v.value in nodes && k in g.next)
    && (forall k, x {:trigger x in g.next[k]} :: k in g.next && x in g.next[k] ==> x in g.edges)
    && (forall n {:trigger n in nodes} :: n in nodes ==> n in g.from)
    && (forall n, x {:trigger x in g.from[n]} :: n in g.from && x in g.from[n] ==> x in g.edges)
  }

  /** Python `list(s)`: the members of a set, each once, in some order. */
  method ListEdges(s: set<EdgeKey>) returns (r: seq<EdgeKey>)
    ensures |r| == |s|
    ensures forall x :: x in r <==> x in s
  {
    r := [];
    var todo := s;
    while todo != {}
      invariant todo <= s && |r| + |todo| == |s|
      invariant forall x :: x in s ==> (x in r <==> x !in todo)
      invariant forall x :: x in r ==> x in s
      decreases |todo|
    {
      var x :| x in todo;
      r := r + [x];
      todo := todo - {x};
    }
  }

  /* ---------- the stop bars behind an exit ---------- */

  /** What the stop-bar search behind an exit edge collects. */
  datatype ExitSearch = ExitSearch(stopbars: seq<NodeId>, names: seq<Option<string>>, ret: bool, path: seq<EdgeKey>)

  /**
   * A successful search: its path starts with the exit edge and stays in the
   * graph; every stop bar is a Stopbar node at the end of a path edge, listed
   * with its name; the rapid-exit flag is that of the last stop bar found.
   */
  predicate Found(e: EdgeKey, x: ExitSearch, g: Topology, nodes: NodeTable, ret: set<NodeId>)
  {
    && |x.stopbars| > 0
    && |x.path| > 0 && x.path[0] == e
    && (forall i :: 0 <= i < |x.path| ==> x.path[i] in g.edges)
    && |x.names| == |x.stopbars|
    && (forall i :: 0 <= i < |x.stopbars| ==>
          && x.stopbars[i] in nodes && nodes[x.stopbars[i]].nodeType == Stopbar
          && x.names[i] == nodes[x.stopbars[i]].nodeName
          && Some(x.stopbars[i]) in EndsOf(x.path))
    && (x.ret <==> x.stopbars[|x.stopbars| - 1] in ret)
  }

  /** The elements of a sequence, as a set. */
  function Members<T(!new)>(s: seq<T>): (r: set<T>)
    ensures forall x :: x in r <==> x in s
  {
    set x | x in s
  }

  /** The end nodes of the edges of a path. */
  function EndsOf(path: seq<EdgeKey>): (r: set<Option<NodeId>>)
    ensures forall i :: 0 <= i < |path| ==> path[i].v in r
  {
    set i | 0 <= i < |path| :: path[i].v
  }

  /** The search so far: a path from the exit edge, and a successful search once a stop bar is found. */
  predicate Partial(e: EdgeKey, x: ExitSearch, g: Topology, nodes: NodeTable, ret: set<NodeId>)
  {
    && (forall i :: 0 <= i < |x.path| ==> x.path[i] in g.edges)
    && (|x.path| > 0 ==> x.path[0] == e)
    && (x.stopbars == [] ==> x.names == [])
    && (x.stopbars != [] ==> Found(e, x, g, nodes, ret))
  }

  /** Extending the path keeps the search sound. */
  lemma PartialPath(e: EdgeKey, x: ExitSearch, t: EdgeKey, g: Topology, nodes: NodeTable, ret: set<NodeId>)
    requires Partial(e, x, g, nodes, ret) && t in g.edges && (x.path == [] ==> t == e)
    ensures Partial(e, x.(path := x.path + [t]), g, nodes, ret)
  {
    var p := x.path + [t];
    assert forall j :: 0 <= j < |x.path| ==> p[j] == x.path[j];
    assert p[|p| - 1] == t;
    if x.stopbars != [] {
      forall i | 0 <= i < |x.stopbars| ensures Some(x.stopbars[i]) in EndsOf(p) {
        var j :| 0 <= j < |x.path| && x.path[j].v == Some(x.stopbars[i]);
        assert p[j] == x.path[j];
      }
    }
  }

  /** A Stopbar end found on edge `t` is recorded with its name and its rapid-exit flag. */
  lemma PartialStopbar(e: EdgeKey, x: ExitSearch, t: EdgeKey, g: Topology, nodes: NodeTable, ret: set<NodeId>)
    requires Partial(e, x, g, nodes, ret) && t in g.edges && (x.path == [] ==> t == e)
    requires t.v.Some? && t.v.value in nodes && nodes[t.v.value].nodeType == Stopbar
    ensures var n := t.v.value;
            Partial(e, ExitSearch(x.stopbars + [n], x.names + [nodes[n].nodeName], n in ret, x.path + [t]), g, nodes, ret)
  {
    PartialPath(e, x, t, g, nodes, ret);
    var n := t.v.value;
    var p := x.path + [t];
    var y := ExitSearch(x.stopbars + [n], x.names + [nodes[n].nodeName], n in ret, p);
    assert p[|p| - 1] == t;
    assert Some(n) in EndsOf(p);
    forall i | 0 <= i < |y.stopbars|
      ensures y.stopbars[i] in nodes && nodes[y.stopbars[i]].nodeType == Stopbar
      ensures y.names[i] == nodes[y.stopbars[i]].nodeName
      ensures Some(y.stopbars[i]) in EndsOf(p)
    {
      if i < |x.stopbars| {
        assert y.stopbars[i] == x.stopbars[i] && y.names[i] == x.names[i];
        assert Some(x.stopbars[i]) in EndsOf(x.path);
        var j :| 0 <= j < |x.path| && x.path[j].v == Some(x.stopbars[i]);
        assert p[j] == x.path[j];
      }
    }
    assert Found(e, y, g, nodes, ret);
  }

  /** Edge `e` ends at a stop bar. */
  predicate EndsAtStopbar(table: NodeTable, e: EdgeKey)
  {
    e.v.Some? && e.v.value in table && table[e.v.value].nodeType == Stopbar
  }

  /** The stop bars at the ends of the edges of `temp`, in their order. */
  function StopbarEnds(temp: seq<EdgeKey>, nodes: NodeTable): seq<NodeId>
  {
    if temp == [] then []
    else
      var rest := StopbarEnds(temp[..|temp| - 1], nodes);
      var t := temp[|temp| - 1];
      if EndsAtStopbar(nodes, t) then rest + [t.v.value] else rest
  }

  /** Every edge of `temp` that ends at a stop bar has its stop bar listed, and nothing else is listed. */
  lemma {:induction false} StopbarEndsListed(temp: seq<EdgeKey>, nodes: NodeTable)
    ensures forall n :: n in StopbarEnds(temp, nodes) <==> exists t :: t in temp && EndsAtStopbar(nodes, t) && t.v == Some(n)
    ensures StopbarEnds(temp, nodes) == [] <==> forall t :: t in temp ==> !EndsAtStopbar(nodes, t)
  {
    if temp != [] {
      var init, t := temp[..|temp| - 1], temp[|temp| - 1];
      assert temp == init + [t];
      StopbarEndsListed(init, nodes);
    }
  }

  /** The edges of `temp` that end at a stop bar, in their order. */
  function StopbarEdges(temp: seq<EdgeKey>, nodes: NodeTable): seq<EdgeKey>
  {
    if temp == [] then []
    else
      var rest := StopbarEdges(temp[..|temp| - 1], nodes);
      var t := temp[|temp| - 1];
      if EndsAtStopbar(nodes, t) then rest + [t] else rest
  }

  /** An edge is listed exactly when it is an edge of `temp` that ends at a stop bar. */
  lemma {:induction false} StopbarEdgesListed(temp: seq<EdgeKey>, nodes: NodeTable)
    ensures forall t :: t in StopbarEdges(temp, nodes) <==> t in temp && EndsAtStopbar(nodes, t)
  {
    if temp != [] {
      var init, t := temp[..|temp| - 1], temp[|temp| - 1];
      assert temp == init + [t];
      StopbarEdgesListed(init, nodes);
    }
  }

  /** One edge ahead: a Stopbar end is recorded with its name and rapid-exit flag. */
  method CheckEdge(e: EdgeKey, t: EdgeKey, x: ExitSearch, g: Topology, nodes: NodeTable, ret: set<NodeId>)
    returns (y: ExitSearch)
    requires TopologyOk(g, nodes.Keys) && Partial(e, x, g, nodes, ret) && t in g.edges && (x.path == [] ==> t == e)
    ensures Partial(e, y, g, nodes, ret)
    ensures y.path == [] ==> x.path == []
    ensures y.stopbars == x.stopbars + if EndsAtStopbar(nodes, t) then [t.v.value] else []
    ensures y.path == x.path + if EndsAtStopbar(nodes, t) then [t] else []
  {
    var n := t.v.value;
    y := x;
    if nodes[n].nodeType == Stopbar {
      PartialStopbar(e, x, t, g, nodes, ret);
      y := ExitSearch(x.stopbars + [n], x.names + [nodes[n].nodeName], n in ret, x.path + [t]);
    }
  }

  /**
   * The inner `for` after the first `i` edges ahead: the search state is
   * sound and holds, after those of `x`, the stop bars at the ends of those
   * edges and the edges leading to them.
   */
  ghost predicate Checking(e: EdgeKey, temp: seq<EdgeKey>, i: nat, x: ExitSearch, y: ExitSearch,
                           g: Topology, nodes: NodeTable, ret: set<NodeId>)
  {
    && i <= |temp|
    && Partial(e, y, g, nodes, ret)
    && (y.path == [] ==> temp == [e])
    && y.stopbars == x.stopbars + StopbarEnds(temp[..i], nodes)
    && y.path == x.path + StopbarEdges(temp[..i], nodes)
  }

  /** Checking one more edge ahead lists its stop bar and itself when it ends at one. */
  lemma CheckedOneMore(e: EdgeKey, temp: seq<EdgeKey>, i: nat, x: ExitSearch, y: ExitSearch, y': ExitSearch,
                       g: Topology, nodes: NodeTable, ret: set<NodeId>)
    requires i < |temp| && Checking(e, temp, i, x, y, g, nodes, ret)
    requires Partial(e, y', g, nodes, ret) && (y'.path == [] ==> y.path == [])
    requires y'.stopbars == y.stopbars + if EndsAtStopbar(nodes, temp[i]) then [temp[i].v.value] else []
    requires y'.path == y.path + if EndsAtStopbar(nodes, temp[i]) then [temp[i]] else []
    ensures Checking(e, temp, i + 1, x, y', g, nodes, ret)
  {
    assert temp[..i + 1][..i] == temp[..i];
  }

  /** One round of the search: every edge ahead is checked for a Stopbar end (the inner `for`). */
  method CheckAhead(e: EdgeKey, temp: seq<EdgeKey>, x: ExitSearch, g: Topology, nodes: NodeTable, ret: set<NodeId>)
    returns (y: ExitSearch)
    requires TopologyOk(g, nodes.Keys) && Partial(e, x, g, nodes, ret)
    requires forall i :: 0 <= i < |temp| ==> temp[i] in g.edges
    requires x.path == [] ==> temp == [e]
    ensures Partial(e, y, g, nodes, ret)
    ensures y.path == [] ==> temp == [e]
    ensures x.stopbars != [] ==> y.stopbars != []
    ensures y.stopbars == x.stopbars + StopbarEnds(temp, nodes)
    ensures y.path == x.path + StopbarEdges(temp, nodes)
  {
    y := x;
    assert temp[..0] == [];
    for i := 0 to |temp|
      invariant Checking(e, temp, i, x, y, g, nodes, ret)
    {
      var y' := CheckEdge(e, temp[i], y, g, nodes, ret);
      CheckedOneMore(e, temp, i, x, y, y', g, nodes, ret);
      y := y';
    }
    assert temp[..|temp|] == temp;
  }

  /** How the stop-bar search behind an exit edge ends. */
  datatype Verdict = StopbarsFound | NoStopbars | Endless

  /** The continuations of edge `t`, none for an edge the graph does not know. */
  function NextOf(g: Topology, t: EdgeKey): set<EdgeKey>
  {
    if t in g.next then g.next[t] else {}
  }

  /**
   * The stop-bar search from the edges ahead `temp` with `fuel` rounds left,
   * independent of the order the edges are listed in: it finds stop bars when
   * an edge ahead ends at one, moves on while exactly one edge is ahead, and
   * gives up otherwise.
   */
  ghost function SearchVerdict(temp: set<EdgeKey>, g: Topology, nodes: NodeTable, fuel: nat): Verdict
    decreases fuel
  {
    if fuel == 0 then Endless
    else if exists t :: t in temp && EndsAtStopbar(nodes, t) then StopbarsFound
    else if |temp| == 1 then
      var t :| t in temp;
      SearchVerdict(NextOf(g, t), g, nodes, fuel - 1)
    else NoStopbars
  }

  /** One round of the search decides by the stop bars at the ends of the edges ahead. */
  lemma VerdictStep(temp: seq<EdgeKey>, g: Topology, nodes: NodeTable, fuel: nat)
    requires fuel > 0 && |Members(temp)| == |temp|
    ensures StopbarEnds(temp, nodes) != [] ==> SearchVerdict(Members(temp), g, nodes, fuel) == StopbarsFound
    ensures StopbarEnds(temp, nodes) == [] && |temp| == 1 ==>
              SearchVerdict(Members(temp), g, nodes, fuel) == SearchVerdict(NextOf(g, temp[0]), g, nodes, fuel - 1)
    ensures StopbarEnds(temp, nodes) == [] && |temp| != 1 ==> SearchVerdict(Members(temp), g, nodes, fuel) == NoStopbars
  {
    StopbarEndsListed(temp, nodes);
    if |temp| == 1 {
      Single(Members(temp), temp[0]);
    }
  }

  /** The verdict of the search behind exit edge `e`, with one round more than the graph has edges. */
  ghost function ExitVerdict(e: EdgeKey, g: Topology, nodes: NodeTable): Verdict
  {
    SearchVerdict({e}, g, nodes, |g.edges| + 1)
  }

  /** The edges the search from the edges ahead `temp` passes on, one per round, before the round that decides it. */
  ghost function SearchChain(temp: set<EdgeKey>, g: Topology, nodes: NodeTable, fuel: nat): seq<EdgeKey>
    decreases fuel
  {
    if fuel == 0 || (exists t :: t in temp && EndsAtStopbar(nodes, t)) || |temp| != 1 then []
    else
      var t :| t in temp;
      [t] + SearchChain(NextOf(g, t), g, nodes, fuel - 1)
  }

  /** The edges ahead in the round that decides the search from `temp`. */
  ghost function DecidingRound(temp: set<EdgeKey>, g: Topology, nodes: NodeTable, fuel: nat): set<EdgeKey>
    decreases fuel
  {
    if fuel == 0 || (exists t :: t in temp && EndsAtStopbar(nodes, t)) || |temp| != 1 then temp
    else
      var t :| t in temp;
      DecidingRound(NextOf(g, t), g, nodes, fuel - 1)
  }

  /** The edges of the deciding round of the search behind `e` that end at a stop bar. */
  ghost function DecidingEdges(e: EdgeKey, g: Topology, nodes: NodeTable): set<EdgeKey>
  {
    set t | t in DecidingRound({e}, g, nodes, |g.edges| + 1) && EndsAtStopbar(nodes, t)
  }

  /** The stop bars the search behind exit edge `e` collects: the ends of the stop-bar edges of its deciding round. */
  ghost function ExitStopbars(e: EdgeKey, g: Topology, nodes: NodeTable): set<NodeId>
  {
    set t | t in DecidingEdges(e, g, nodes) :: t.v.value
  }

  /** The path the search behind exit edge `e` records: the chain it passes on and the edges ending at its stop bars. */
  ghost function ExitEdges(e: EdgeKey, g: Topology, nodes: NodeTable): set<EdgeKey>
  {
    Members(SearchChain({e}, g, nodes, |g.edges| + 1)) + DecidingEdges(e, g, nodes)
  }

  /**
   * The search behind `e`, with edges ahead `temp` and `fuel` rounds left,
   * has passed on exactly the chain edges before this round and has the
   * deciding round still ahead.
   */
  ghost predicate OnTrack(e: EdgeKey, path: seq<EdgeKey>, temp: seq<EdgeKey>, g: Topology, nodes: NodeTable, fuel: nat)
  {
    && path + SearchChain(Members(temp), g, nodes, fuel) == SearchChain({e}, g, nodes, |g.edges| + 1)
    && DecidingRound(Members(temp), g, nodes, fuel) == DecidingRound({e}, g, nodes, |g.edges| + 1)
  }

  /**
   * A finished search behind `e`: its path starts with the chain passed on,
   * and it holds exactly the stop bars of the deciding round, on exactly
   * the chain and the edges ending at them.
   */
  ghost predicate Collected(e: EdgeKey, x: ExitSearch, g: Topology, nodes: NodeTable)
  {
    && SearchChain({e}, g, nodes, |g.edges| + 1) <= x.path
    && Members(x.stopbars) == ExitStopbars(e, g, nodes)
    && Members(x.path) == ExitEdges(e, g, nodes)
  }

  /** A round without stop bars and with one edge ahead passes that edge on. */
  lemma ChainStep(temp: seq<EdgeKey>, g: Topology, nodes: NodeTable, fuel: nat)
    requires fuel > 0 && |temp| == 1 && StopbarEnds(temp, nodes) == [] && Members(temp) == {temp[0]}
    ensures SearchChain(Members(temp), g, nodes, fuel) == [temp[0]] + SearchChain(NextOf(g, temp[0]), g, nodes, fuel - 1)
    ensures DecidingRound(Members(temp), g, nodes, fuel) == DecidingRound(NextOf(g, temp[0]), g, nodes, fuel - 1)
  {
    StopbarEndsListed(temp, nodes);
  }

  /** A round with stop bars decides the search: no more chain, and its edges ahead are the deciding round. */
  lemma ChainEnd(temp: seq<EdgeKey>, g: Topology, nodes: NodeTable, fuel: nat)
    requires fuel > 0 && StopbarEnds(temp, nodes) != []
    ensures SearchChain(Members(temp), g, nodes, fuel) == []
    ensures DecidingRound(Members(temp), g, nodes, fuel) == Members(temp)
  {
    StopbarEndsListed(temp, nodes);
  }

  /** The path and stop bars of the deciding round, once it is checked, are the ones the search collects. */
  lemma CollectedAtEnd(e: EdgeKey, path: seq<EdgeKey>, temp: seq<EdgeKey>, g: Topology, nodes: NodeTable, fuel: nat, x: ExitSearch)
    requires fuel > 0 && StopbarEnds(temp, nodes) != [] && OnTrack(e, path, temp, g, nodes, fuel)
    requires x.stopbars == StopbarEnds(temp, nodes)
    requires x.path == path + StopbarEdges(temp, nodes) || (|temp| == 1 && x.path == path + StopbarEdges(temp, nodes) + [temp[0]])
    ensures Collected(e, x, g, nodes)
  {
    ChainEnd(temp, g, nodes, fuel);
    StopbarEndsListed(temp, nodes);
    StopbarEdgesListed(temp, nodes);
    assert path == SearchChain({e}, g, nodes, |g.edges| + 1);
    var d := DecidingEdges(e, g, nodes);
    assert forall t :: t in d <==> t in temp && EndsAtStopbar(nodes, t);
    if |temp| == 1 && x.path != path + StopbarEdges(temp, nodes) {
      assert temp[0] in StopbarEdges(temp, nodes) by {
        var t :| t in temp && EndsAtStopbar(nodes, t);
      }
    }
    assert Members(x.path) == Members(path) + d;
    forall n ensures n in Members(x.stopbars) <==> n in ExitStopbars(e, g, nodes) {
      if n in ExitStopbars(e, g, nodes) {
        var t :| t in d && t.v.value == n;
      }
    }
  }

  /** A set of one edge. */
  lemma Single(s: set<EdgeKey>, t: EdgeKey)
    requires |s| == 1 && t in s
    ensures s == {t}
  {
    forall y | y in s ensures y == t { OnlyMember(s, y, t); }
  }

  /**
   * The exit search behind `e` before a round with edges ahead `temp` and
   * `fuel` rounds left: the state is sound; until stop bars are found, the
   * rounds to come decide as the whole search does and the chain passed on
   * so far is a start of the search's chain; once found, the search has
   * collected them.
   */
  ghost predicate Searching(e: EdgeKey, x: ExitSearch, temp: seq<EdgeKey>, g: Topology, nodes: NodeTable, ret: set<NodeId>, fuel: nat)
  {
    && (forall i :: 0 <= i < |temp| ==> temp[i] in g.edges)
    && Partial(e, x, g, nodes, ret)
    && (x.path == [] ==> temp == [e])
    && |Members(temp)| == |temp|
    && (x.stopbars == [] ==> SearchVerdict(Members(temp), g, nodes, fuel) == ExitVerdict(e, g, nodes)
                             && OnTrack(e, x.path, temp, g, nodes, fuel))
    && (x.stopbars != [] ==> ExitVerdict(e, g, nodes) == StopbarsFound && Collected(e, x, g, nodes))
  }

  /** A search that gave up: without stop bars exactly when the search finds none, and otherwise with those it collects. */
  ghost predicate Settled(e: EdgeKey, x: ExitSearch, g: Topology, nodes: NodeTable, ret: set<NodeId>)
  {
    && Partial(e, x, g, nodes, ret)
    && (x.stopbars == [] <==> ExitVerdict(e, g, nodes) == NoStopbars)
    && (x.stopbars != [] ==> ExitVerdict(e, g, nodes) == StopbarsFound && Collected(e, x, g, nodes))
  }

  /**
   * One pass of the search loop: the edges ahead are checked; with one edge
   * ahead the search moves on to its continuations, otherwise it gives up.
   */
  method ExitRound(e: EdgeKey, x: ExitSearch, temp: seq<EdgeKey>, g: Topology, nodes: NodeTable, ret: set<NodeId>, fuel: nat)
    returns (y: ExitSearch, temp': seq<EdgeKey>, more: bool)
    requires TopologyOk(g, nodes.Keys) && fuel > 0 && x.stopbars == [] && Searching(e, x, temp, g, nodes, ret, fuel)
    ensures more ==> Searching(e, y, temp', g, nodes, ret, fuel - 1)
    ensures !more ==> Settled(e, y, g, nodes, ret)
  {
    y := CheckAhead(e, temp, x, g, nodes, ret);
    more := |temp| == 1;
    if more {
      y, temp' := PassOn(e, x, y, temp, g, nodes, ret, fuel);
    } else {
      VerdictStep(temp, g, nodes, fuel);
      if y.stopbars != [] {
        CollectedAtEnd(e, x.path, temp, g, nodes, fuel, y);
      }
      temp' := temp;
    }
  }

  /** The single edge ahead, once checked, is passed on and its continuations become the edges ahead. */
  method PassOn(e: EdgeKey, x: ExitSearch, y: ExitSearch, temp: seq<EdgeKey>, g: Topology, nodes: NodeTable, ret: set<NodeId>, fuel: nat)
    returns (y': ExitSearch, temp': seq<EdgeKey>)
    requires TopologyOk(g, nodes.Keys) && fuel > 0 && |temp| == 1 && x.stopbars == [] && Searching(e, x, temp, g, nodes, ret, fuel)
    requires Partial(e, y, g, nodes, ret)
    requires y.stopbars == StopbarEnds(temp, nodes) && y.path == x.path + StopbarEdges(temp, nodes)
    ensures Searching(e, y', temp', g, nodes, ret, fuel - 1)
  {
    var t := temp[0];
    PartialPath(e, y, t, g, nodes, ret);
    y' := y.(path := y.path + [t]);
    temp' := ListEdges(g.next[t]);
    assert forall i :: 0 <= i < |temp'| ==> temp'[i] in g.next[t];
    assert Members(temp') == NextOf(g, t);
    PassedOn(e, x, y, temp, temp', g, nodes, ret, fuel);
  }

  /** The search state after the single edge ahead is passed on. */
  lemma PassedOn(e: EdgeKey, x: ExitSearch, y: ExitSearch, temp: seq<EdgeKey>, temp': seq<EdgeKey>,
                 g: Topology, nodes: NodeTable, ret: set<NodeId>, fuel: nat)
    requires fuel > 0 && |temp| == 1 && x.stopbars == [] && Searching(e, x, temp, g, nodes, ret, fuel)
    requires Partial(e, y.(path := y.path + [temp[0]]), g, nodes, ret)
    requires y.stopbars == StopbarEnds(temp, nodes) && y.path == x.path + StopbarEdges(temp, nodes)
    requires (forall i :: 0 <= i < |temp'| ==> temp'[i] in g.edges) && |Members(temp')| == |temp'| && Members(temp') == NextOf(g, temp[0])
    ensures Searching(e, y.(path := y.path + [temp[0]]), temp', g, nodes, ret, fuel - 1)
  {
    if y.stopbars == [] {
      StopbarEdgesListed(temp, nodes);
      assert y.path == x.path;
      MovedOn(e, x.path, temp, temp', g, nodes, fuel);
    } else {
      FoundAhead(e, x.path, temp, g, nodes, fuel, y.(path := y.path + [temp[0]]));
    }
  }

  /** Without stop bars ahead, the search passes the one edge ahead on and continues from its continuations. */
  lemma MovedOn(e: EdgeKey, path: seq<EdgeKey>, temp: seq<EdgeKey>, temp': seq<EdgeKey>, g: Topology, nodes: NodeTable, fuel: nat)
    requires fuel > 0 && |temp| == 1 && |Members(temp)| == 1 && StopbarEnds(temp, nodes) == [] && Members(temp') == NextOf(g, temp[0])
    requires SearchVerdict(Members(temp), g, nodes, fuel) == ExitVerdict(e, g, nodes) && OnTrack(e, path, temp, g, nodes, fuel)
    ensures SearchVerdict(Members(temp'), g, nodes, fuel - 1) == ExitVerdict(e, g, nodes)
    ensures OnTrack(e, path + [temp[0]], temp', g, nodes, fuel - 1)
  {
    Single(Members(temp), temp[0]);
    VerdictStep(temp, g, nodes, fuel);
    ChainStep(temp, g, nodes, fuel);
    assert path + [temp[0]] + SearchChain(Members(temp'), g, nodes, fuel - 1)
        == path + ([temp[0]] + SearchChain(Members(temp'), g, nodes, fuel - 1));
  }

  /** With stop bars ahead, the search has found them and holds what it collects. */
  lemma FoundAhead(e: EdgeKey, path: seq<EdgeKey>, temp: seq<EdgeKey>, g: Topology, nodes: NodeTable, fuel: nat, y: ExitSearch)
    requires fuel > 0 && |temp| == 1 && |Members(temp)| == 1 && StopbarEnds(temp, nodes) != []
    requires SearchVerdict(Members(temp), g, nodes, fuel) == ExitVerdict(e, g, nodes) && OnTrack(e, path, temp, g, nodes, fuel)
    requires y.stopbars == StopbarEnds(temp, nodes) && y.path == path + StopbarEdges(temp, nodes) + [temp[0]]
    ensures ExitVerdict(e, g, nodes) == StopbarsFound && Collected(e, y, g, nodes)
  {
    VerdictStep(temp, g, nodes, fuel);
    CollectedAtEnd(e, path, temp, g, nodes, fuel, y);
  }

  /**
   * The inner search of the walk: from the exit edge, the edges ahead are
   * checked for a Stopbar end; while there is exactly one edge ahead the
   * search moves on to its continuations, otherwise it gives up. A chain
   * longer than the graph has edges is reported as endless.
   */
  method SearchExit(e: EdgeKey, g: Topology, nodes: NodeTable, ret: set<NodeId>) returns (r: Result<ExitSearch, RunwayError>)
    requires TopologyOk(g, nodes.Keys) && e in g.edges
    ensures r.Err? <==> ExitVerdict(e, g, nodes) == Endless
    ensures r.Err? ==> r.error == EndlessExitSearch(e)
    ensures r.Ok? ==> (|r.value.stopbars| > 0 <==> ExitVerdict(e, g, nodes) == StopbarsFound)
    ensures r.Ok? && |r.value.stopbars| > 0 ==> Found(e, r.value, g, nodes, ret) && Collected(e, r.value, g, nodes)
  {
    var x := ExitSearch([], [], false, []);
    var temp: seq<EdgeKey> := [e];
    var fuel: nat := |g.edges| + 1;
    assert Members(temp) == {e};
    while x.stopbars == []
      invariant Searching(e, x, temp, g, nodes, ret, fuel)
      decreases fuel
    {
      if fuel == 0 {
        return Err(EndlessExitSearch(e));
      }
      var more;
      x, temp, more := ExitRound(e, x, temp, g, nodes, ret, fuel);
      fuel := fuel - 1;
      if !more {
        return Ok(x);
      }
    }
    r := Ok(x);
  }

  /* ---------- walking one runway direction ---------- */

  /** An exit of a direction: the walked length so far, the rapid-exit flag and the stop bars behind it. */
  datatype Exit = Exit(length: real, ret: bool, stopbars: seq<NodeId>, names: seq<Option<string>>)

  /** An entry of the opposite direction: an exit seen from the other side. */
  datatype Entry = Entry(length: real, stopbars: seq<NodeId>, names: seq<Option<string>>)

  function EntryFor(x: Exit): Entry
  {
    Entry(x.length, x.stopbars, x.names)
  }

  /** A `stopbars_...` record: the stop-bar nodes and the edges leading to them. */
  datatype StopbarSet = StopbarSet(nodes: set<NodeId>, edges: set<EdgeKey>)

  /**
   * A walk of one direction: the runway nodes and edges in walking order,
   * the edges the rounds started from (the successive values of the
   * source's `edge_now`), the length walked, the exits, the reversed exits
   * as entries of the opposite direction, the exit stop bars, and the node
   * table with the walked nodes re-typed.
   */
  datatype Walk = Walk(
    nodes: seq<NodeId>,
    edges: seq<EdgeKey>,
    rounds: seq<EdgeKey>,
    length: real,
    exits: map<EdgeKey, Exit>,
    entries: map<EdgeKey, Entry>,
    stopbars: StopbarSet,
    table: NodeTable)

  /** A walked node becomes a runway intersection named after the direction. */
  function Retyped(rec: Nodes.NodeRecord, dir: string): Nodes.NodeRecord
  {
    rec.(nodeType := RwyIntersection, nodeName := Some(dir))
  }

  /** Edge `b` is one of the continuations of edge `a`. */
  predicate Continues(g: Topology, a: EdgeKey, b: EdgeKey)
  {
    a in g.next && b in g.next[a]
  }

  /**
   * The walked chain: it starts at the threshold with an edge leaving it;
   * every later edge keeps the heading and continues an earlier one; each
   * node after the first is the end of the edge before it.
   */
  ghost predicate ChainOk(start: NodeId, aligned: set<EdgeKey>, g: Topology, nodes: seq<NodeId>, edges: seq<EdgeKey>)
  {
    && |edges| > 0 && |nodes| == |edges| + 1
    && nodes[0] == start && start in g.from && edges[0] in g.from[start]
    && (forall i :: 0 <= i < |edges| ==> edges[i] in g.edges && edges[i].v == Some(nodes[i + 1]))
    && (forall i :: 1 <= i < |edges| ==> edges[i] in aligned)
    && (forall i :: 1 <= i < |edges| ==> Linked(g, edges, i))
  }

  /** The chain edge at index `i` continues an earlier chain edge. */
  ghost predicate Linked(g: Topology, edges: seq<EdgeKey>, i: nat)
  {
    exists j :: 0 <= j < i < |edges| && Continues(g, edges[j], edges[i])
  }

  /** The exit stop bars were Stopbar nodes before the walk; the edges leading to them are edges. */
  predicate StopbarsKnown(g: Topology, table0: NodeTable, sb: StopbarSet)
  {
    && (forall n {:trigger n in sb.nodes} :: n in sb.nodes ==> n in table0 && table0[n].nodeType == Stopbar)
    && forall x {:trigger x in sb.edges} :: x in sb.edges ==> x in g.edges
  }

  /** Each exit leaves without keeping the heading, leads to the recorded stop-bar edges and has stop bars behind it. */
  predicate ExitsRecorded(aligned: set<EdgeKey>, g: Topology, exits: map<EdgeKey, Exit>, sb: StopbarSet)
  {
    forall x {:trigger x in exits} :: x in exits ==>
      && x in g.edges && x !in aligned && x in sb.edges
      && |exits[x].stopbars| > 0
      && (forall i :: 0 <= i < |exits[x].stopbars| ==> exits[x].stopbars[i] in sb.nodes)
  }

  /** Each exit continues an edge of the chain. */
  ghost predicate ExitsReached(g: Topology, edges: seq<EdgeKey>, exits: map<EdgeKey, Exit>)
  {
    forall x :: x in exits ==> exists j :: 0 <= j < |edges| && Continues(g, edges[j], x)
  }

  /** Each entry is a reversed exit with the same length and stop bars, and each exit has its entry. */
  ghost predicate Mirrored(exits: map<EdgeKey, Exit>, entries: map<EdgeKey, Entry>)
  {
    && (forall y {:trigger y in entries} {:trigger y.Rev() in exits} :: y in entries <==> y.Rev() in exits)
    && (forall y {:trigger y in entries} :: y in entries ==> entries[y] == EntryFor(exits[y.Rev()]))
  }

  /** An exit `(u, v)` is recorded as the entry `(v, u)` with the same length and stop bars. */
  lemma MirroredExit(exits: map<EdgeKey, Exit>, entries: map<EdgeKey, Entry>)
    requires Mirrored(exits, entries)
    ensures forall x :: x in exits ==> x.Rev() in entries && entries[x.Rev()] == EntryFor(exits[x])
  {
    forall x | x in exits ensures x.Rev() in entries && entries[x.Rev()] == EntryFor(exits[x]) {
      assert x.Rev().Rev() == x;
    }
  }

  ghost predicate ExitsOk(aligned: set<EdgeKey>, g: Topology, table0: NodeTable, w: Walk)
  {
    && StopbarsKnown(g, table0, w.stopbars)
    && ExitsRecorded(aligned, g, w.exits, w.stopbars)
    && ExitsReached(g, w.edges, w.exits)
    && Mirrored(w.exits, w.entries)
  }

  /** The node table: the nodes walked after the threshold edge are re-typed, the rest is unchanged. */
  ghost predicate TableOk(dir: string, table0: NodeTable, nodes: seq<NodeId>, table: NodeTable)
  {
    && |nodes| >= 2 && table.Keys == table0.Keys
    && forall n {:trigger table[n]} :: n in table0 ==> table[n] == if n in nodes[2..] then Retyped(table0[n], dir) else table0[n]
  }

  ghost predicate WalkOk(dir: string, start: NodeId, aligned: set<EdgeKey>, g: Topology, table0: NodeTable, w: Walk)
  {
    ChainOk(start, aligned, g, w.nodes, w.edges) && ExitsOk(aligned, g, table0, w) && TableOk(dir, table0, w.nodes, w.table)
  }

  /** A heading-keeping continuation joins the chain and its end node is re-typed. */
  lemma ExtendChain(dir: string, start: NodeId, aligned: set<EdgeKey>, g: Topology, table0: NodeTable, w: Walk, k: nat, e: EdgeKey)
    requires TopologyOk(g, table0.Keys) && WalkOk(dir, start, aligned, g, table0, w)
    requires k < |w.edges| && Continues(g, w.edges[k], e) && e in aligned
    ensures e.v.Some? && e.v.value in table0
    ensures WalkOk(dir, start, aligned, g, table0, Joined(dir, table0, w, e))
  {
    var n := e.v.value;
    var w' := Joined(dir, table0, w, e);
    ExtendChainLinks(start, aligned, g, w, k, e, w');
    assert w'.edges[..|w.edges|] == w.edges;
    ExtendChainExits(g, w.edges, w'.edges, w.exits);
    ExtendTable(dir, table0, w.nodes, w.table, n);
  }

  lemma ExtendTable(dir: string, table0: NodeTable, nodes: seq<NodeId>, table: NodeTable, n: NodeId)
    requires TableOk(dir, table0, nodes, table) && n in table0
    ensures TableOk(dir, table0, nodes + [n], table[n := Retyped(table0[n], dir)])
  {
    assert (nodes + [n])[2..] == nodes[2..] + [n];
  }

  lemma ExtendChainLinks(start: NodeId, aligned: set<EdgeKey>, g: Topology, w: Walk, k: nat, e: EdgeKey, w': Walk)
    requires TopologyOk(g, w.table.Keys) && ChainOk(start, aligned, g, w.nodes, w.edges)
    requires k < |w.edges| && Continues(g, w.edges[k], e) && e in aligned
    requires w'.nodes == w.nodes + [e.v.value] && w'.edges == w.edges + [e]
    ensures ChainOk(start, aligned, g, w'.nodes, w'.edges)
  {
    assert forall i :: 0 <= i < |w.edges| ==> w'.edges[i] == w.edges[i];
    assert forall i :: 0 <= i < |w.nodes| ==> w'.nodes[i] == w.nodes[i];
    assert w'.edges[|w.edges|] == e && w'.nodes[|w.nodes|] == e.v.value;
    forall i | 1 <= i < |w'.edges| ensures Linked(g, w'.edges, i) {
      if i < |w.edges| {
        assert Linked(g, w.edges, i);
        var j :| 0 <= j < i && Continues(g, w.edges[j], w.edges[i]);
        assert Continues(g, w'.edges[j], w'.edges[i]);
      } else {
        assert Continues(g, w'.edges[k], w'.edges[i]);
      }
    }
  }

  lemma ExtendChainExits(g: Topology, edges: seq<EdgeKey>, edges': seq<EdgeKey>, exits: map<EdgeKey, Exit>)
    requires ExitsReached(g, edges, exits)
    requires |edges| <= |edges'| && edges'[..|edges|] == edges
    ensures ExitsReached(g, edges', exits)
  {
    forall x | x in exits ensures exists j :: 0 <= j < |edges'| && Continues(g, edges'[j], x) {
      var j :| 0 <= j < |edges| && Continues(g, edges[j], x);
      assert edges'[..|edges|][j] == edges'[j];
    }
  }

  /** A continuation of a chain edge is reached from the chain. */
  lemma AddExitReached(g: Topology, edges: seq<EdgeKey>, exits: map<EdgeKey, Exit>, k: nat, e: EdgeKey, ex: Exit)
    requires ExitsReached(g, edges, exits) && k < |edges| && Continues(g, edges[k], e)
    ensures ExitsReached(g, edges, exits[e := ex])
  {
  }

  /** A found exit is recorded with stop bars behind it. */
  lemma AddExitRecorded(aligned: set<EdgeKey>, g: Topology, exits: map<EdgeKey, Exit>, sb: StopbarSet,
                        e: EdgeKey, x: ExitSearch, ex: Exit)
    requires ExitsRecorded(aligned, g, exits, sb) && e in g.edges && e !in aligned
    requires |x.stopbars| > 0 && |x.path| > 0 && x.path[0] == e && ex.stopbars == x.stopbars
    ensures ExitsRecorded(aligned, g, exits[e := ex],
                          StopbarSet(sb.nodes + Members(x.stopbars),
                                     sb.edges + Members(x.path)))
  {
  }

  /** The stop bars of a search were Stopbar nodes before the walk. */
  lemma AddExitStopbars(dir: string, g: Topology, table0: NodeTable, ret: set<NodeId>, w: Walk, e: EdgeKey, x: ExitSearch)
    requires StopbarsKnown(g, table0, w.stopbars) && TableOk(dir, table0, w.nodes, w.table)
    requires Found(e, x, g, w.table, ret)
    ensures StopbarsKnown(g, table0, WithExit(w, e, x).stopbars)
  {
    var sb := WithExit(w, e, x).stopbars;
    forall n | n in sb.nodes ensures n in table0 && table0[n].nodeType == Stopbar {
      if n !in w.stopbars.nodes {
        var i :| 0 <= i < |x.stopbars| && x.stopbars[i] == n;
        assert w.table[n].nodeType == Stopbar;
      }
    }
  }

  /** The record of a found exit: the exit, its reversed entry, its stop bars and path. */
  function WithExit(w: Walk, e: EdgeKey, x: ExitSearch): Walk
  {
    var ex := Exit(w.length, x.ret, x.stopbars, x.names);
    w.(exits := w.exits[e := ex], entries := w.entries[e.Rev() := EntryFor(ex)],
       stopbars := StopbarSet(w.stopbars.nodes + Members(x.stopbars),
                              w.stopbars.edges + Members(x.path)))
  }

  /** Recording an exit together with its reversed entry keeps exits and entries mirrored. */
  lemma ExitMirror(exits: map<EdgeKey, Exit>, entries: map<EdgeKey, Entry>, e: EdgeKey, ex: Exit)
    requires Mirrored(exits, entries)
    ensures Mirrored(exits[e := ex], entries[e.Rev() := EntryFor(ex)])
  {
    forall y ensures y == e.Rev() <==> y.Rev() == e {
      assert y.Rev().Rev() == y && e.Rev().Rev() == e;
    }
  }

  /** The walk with a heading-keeping continuation joined to the chain. */
  function Joined(dir: string, table0: NodeTable, w: Walk, e: EdgeKey): Walk
    requires e.v.Some? && e.v.value in table0
  {
    var n := e.v.value;
    w.(nodes := w.nodes + [n], edges := w.edges + [e], table := w.table[n := Retyped(table0[n], dir)])
  }

  /* ---------- what a finished walk has visited ---------- */

  /** The lengths of the edges of `path`, added up. */
  function PathLength(g: Topology, path: seq<EdgeKey>): real
  {
    if path == [] then 0.0
    else
      var last := path[|path| - 1];
      PathLength(g, path[..|path| - 1]) + if last in g.edges then g.edges[last].length else 0.0
  }

  /** The continuations of the edges of `path`: what the rounds started from them visit. */
  function Visited(g: Topology, path: seq<EdgeKey>): set<EdgeKey>
  {
    if path == [] then {} else Visited(g, path[..|path| - 1]) + NextOf(g, path[|path| - 1])
  }

  /** The length walked when `x` was last visited: the rounds up to the last one whose edge `x` continues. */
  function LengthAtVisit(g: Topology, path: seq<EdgeKey>, x: EdgeKey): real
  {
    if path == [] then 0.0
    else if x in NextOf(g, path[|path| - 1]) then PathLength(g, path)
    else LengthAtVisit(g, path[..|path| - 1], x)
  }

  /** All rounds but the one under way. */
  function Prior(rounds: seq<EdgeKey>): seq<EdgeKey>
    requires |rounds| > 0
  {
    rounds[..|rounds| - 1]
  }

  /** Each edge of `run` after the first keeps the heading and continues the one before it. */
  ghost predicate AlignedRun(aligned: set<EdgeKey>, g: Topology, run: seq<EdgeKey>)
  {
    forall i :: 0 < i < |run| ==> run[i] in aligned && Continues(g, run[i - 1], run[i])
  }

  /** The rounds of a walk start at its first edge and go on along heading-keeping continuations. */
  ghost predicate RunOk(aligned: set<EdgeKey>, g: Topology, first: EdgeKey, rounds: seq<EdgeKey>)
  {
    (|rounds| > 0 ==> rounds[0] == first) && AlignedRun(aligned, g, rounds)
  }

  /** No continuation of `last` keeps the heading. */
  ghost predicate Maximal(aligned: set<EdgeKey>, g: Topology, last: EdgeKey)
  {
    forall x :: Continues(g, last, x) ==> x !in aligned
  }

  /** No node the walk re-types was a stop bar before it. */
  ghost predicate Clear(table0: NodeTable, nodes: seq<NodeId>)
  {
    forall i :: 2 <= i < |nodes| ==> nodes[i] in table0 && table0[nodes[i]].nodeType != Stopbar
  }

  /** Two node tables agree on which nodes are stop bars. */
  ghost predicate SameStopbars(t1: NodeTable, t2: NodeTable)
  {
    forall n :: (n in t1 && t1[n].nodeType == Stopbar) <==> (n in t2 && t2[n].nodeType == Stopbar)
  }

  /** The search behind `x` finds stop bars. */
  ghost predicate ExitFound(g: Topology, table: NodeTable, x: EdgeKey)
  {
    ExitVerdict(x, g, table) == StopbarsFound
  }

  /**
   * The exits are exactly the visited edges that do not keep the heading and
   * have stop bars behind them; each holds the stop bars its search
   * collects, and the exit stop-bar record is exactly those stop bars and
   * the paths to them.
   */
  ghost predicate ExitsExact(aligned: set<EdgeKey>, g: Topology, table: NodeTable, exits: map<EdgeKey, Exit>, sb: StopbarSet,
                             seen: set<EdgeKey>)
  {
    && (forall x {:trigger x in exits} {:trigger x in seen} :: x in exits <==> x in seen && x !in aligned && ExitFound(g, table, x))
    && StopbarsExact(g, table, exits, sb)
  }

  /** Each exit holds the stop bars its search collects, and `sb` is the union of those stop bars and of the paths to them. */
  ghost predicate StopbarsExact(g: Topology, table: NodeTable, exits: map<EdgeKey, Exit>, sb: StopbarSet)
  {
    && (forall x :: x in exits ==> Members(exits[x].stopbars) == ExitStopbars(x, g, table))
    && sb == StopbarSet(StopbarsOf(g, table, exits.Keys), PathsOf(g, table, exits.Keys))
  }

  /** The stop bars the searches behind the edges `xs` collect. */
  ghost function StopbarsOf(g: Topology, table: NodeTable, xs: set<EdgeKey>): set<NodeId>
  {
    set x, n | x in xs && n in ExitStopbars(x, g, table) :: n
  }

  /** The paths the searches behind the edges `xs` record. */
  ghost function PathsOf(g: Topology, table: NodeTable, xs: set<EdgeKey>): set<EdgeKey>
  {
    set x, y | x in xs && y in ExitEdges(x, g, table) :: y
  }

  /** One more searched edge adds what its search collects. */
  lemma CollectedOn(g: Topology, table: NodeTable, xs: set<EdgeKey>, e: EdgeKey)
    ensures StopbarsOf(g, table, xs + {e}) == StopbarsOf(g, table, xs) + ExitStopbars(e, g, table)
    ensures PathsOf(g, table, xs + {e}) == PathsOf(g, table, xs) + ExitEdges(e, g, table)
  {
  }

  /** Each exit carries the length walked when it was last visited. */
  ghost predicate LengthsExact(g: Topology, exits: map<EdgeKey, Exit>, rounds: seq<EdgeKey>)
  {
    forall x :: x in exits ==> exits[x].length == LengthAtVisit(g, rounds, x)
  }

  /** The search verdict, chain and deciding round depend only on which nodes are stop bars. */
  lemma {:induction false} VerdictOfStopbars(temp: set<EdgeKey>, g: Topology, t1: NodeTable, t2: NodeTable, fuel: nat)
    requires SameStopbars(t1, t2)
    ensures SearchVerdict(temp, g, t1, fuel) == SearchVerdict(temp, g, t2, fuel)
    ensures SearchChain(temp, g, t1, fuel) == SearchChain(temp, g, t2, fuel)
    ensures DecidingRound(temp, g, t1, fuel) == DecidingRound(temp, g, t2, fuel)
    decreases fuel
  {
    assert forall t :: EndsAtStopbar(t1, t) <==> EndsAtStopbar(t2, t);
    if fuel > 0 && |temp| == 1 {
      var t :| t in temp;
      Single(temp, t);
      VerdictOfStopbars(NextOf(g, t), g, t1, t2, fuel - 1);
    }
  }

  /** Each exit's search finds stop bars on both tables or on neither, and collects the same ones on the same path. */
  lemma ExitsOfStopbars(g: Topology, t1: NodeTable, t2: NodeTable)
    requires SameStopbars(t1, t2)
    ensures forall x :: ExitFound(g, t1, x) <==> ExitFound(g, t2, x)
    ensures forall x :: ExitStopbars(x, g, t1) == ExitStopbars(x, g, t2) && ExitEdges(x, g, t1) == ExitEdges(x, g, t2)
  {
    forall x ensures (ExitFound(g, t1, x) <==> ExitFound(g, t2, x))
                     && ExitStopbars(x, g, t1) == ExitStopbars(x, g, t2) && ExitEdges(x, g, t1) == ExitEdges(x, g, t2) {
      ExitOfStopbars(x, g, t1, t2);
    }
  }

  /** The search behind `x` decides and collects alike on two tables that agree on stop bars. */
  lemma ExitOfStopbars(x: EdgeKey, g: Topology, t1: NodeTable, t2: NodeTable)
    requires SameStopbars(t1, t2)
    ensures (ExitFound(g, t1, x) <==> ExitFound(g, t2, x))
    ensures ExitStopbars(x, g, t1) == ExitStopbars(x, g, t2) && ExitEdges(x, g, t1) == ExitEdges(x, g, t2)
  {
    VerdictOfStopbars({x}, g, t1, t2, |g.edges| + 1);
    assert forall t :: EndsAtStopbar(t1, t) <==> EndsAtStopbar(t2, t);
    assert DecidingEdges(x, g, t1) == DecidingEdges(x, g, t2);
  }

  /** The exits' stop-bar record is exact on both tables or on neither. */
  lemma ExactOfStopbars(g: Topology, t1: NodeTable, t2: NodeTable, exits: map<EdgeKey, Exit>, sb: StopbarSet)
    requires SameStopbars(t1, t2) && StopbarsExact(g, t1, exits, sb)
    ensures StopbarsExact(g, t2, exits, sb)
  {
    ExitsOfStopbars(g, t1, t2);
    assert StopbarsOf(g, t1, exits.Keys) == StopbarsOf(g, t2, exits.Keys);
    assert PathsOf(g, t1, exits.Keys) == PathsOf(g, t2, exits.Keys);
  }

  /** A walk that re-types no stop bar leaves the stop bars as they were. */
  lemma ClearKeepsStopbars(dir: string, table0: NodeTable, nodes: seq<NodeId>, table: NodeTable)
    requires TableOk(dir, table0, nodes, table) && Clear(table0, nodes)
    ensures SameStopbars(table0, table)
  {
    forall n | n in table0 && n in nodes[2..] ensures table0[n].nodeType != Stopbar {
      var i :| 0 <= i < |nodes[2..]| && nodes[2..][i] == n;
      assert nodes[i + 2] == n;
    }
  }

  /* ---------- the rounds of a walk ---------- */

  /**
   * One continuation `e` of the chain edge at index `k`: a heading-keeping
   * one joins the chain, any other one is searched for stop bars and, when
   * some are found, becomes an exit. The flag says whether `e` joined.
   */
  method Visit(dir: string, start: NodeId, aligned: set<EdgeKey>, ret: set<NodeId>, g: Topology, table0: NodeTable,
               w: Walk, k: nat, e: EdgeKey) returns (r: Result<Walk, RunwayError>, joined: bool)
    requires TopologyOk(g, table0.Keys) && WalkOk(dir, start, aligned, g, table0, w)
    requires k < |w.edges| && Continues(g, w.edges[k], e)
    ensures joined <==> e in aligned
    ensures r.Err? <==> !joined && ExitVerdict(e, g, w.table) == Endless
    ensures r.Err? ==> r.error == EndlessExitSearch(e)
    ensures r.Ok? ==> WalkOk(dir, start, aligned, g, table0, r.value)
    ensures r.Ok? ==> r.value.length == w.length && r.value.rounds == w.rounds
    ensures r.Ok? && joined ==> e.v.Some? && r.value.nodes == w.nodes + [e.v.value] && r.value.edges == w.edges + [e]
                                && r.value.exits == w.exits && r.value.stopbars == w.stopbars
    ensures r.Ok? && !joined ==> r.value.nodes == w.nodes && r.value.edges == w.edges && Recorded(g, w, e, r.value)
  {
    joined := e in aligned;
    if joined {
      ExtendChain(dir, start, aligned, g, table0, w, k, e);
      r := Ok(Joined(dir, table0, w, e));
    } else {
      r := SearchAndRecord(dir, start, aligned, ret, g, table0, w, k, e);
    }
  }

  /**
   * After the search behind `e`: `e` is an exit recorded at the length walked
   * so far exactly when its search finds stop bars, and no other exit changes.
   */
  ghost predicate Recorded(g: Topology, w: Walk, e: EdgeKey, w': Walk)
  {
    if ExitFound(g, w.table, e) then
      && e in w'.exits && w'.exits == w.exits[e := w'.exits[e]] && w'.exits[e].length == w.length
      && Members(w'.exits[e].stopbars) == ExitStopbars(e, g, w.table)
      && w'.stopbars == StopbarSet(w.stopbars.nodes + ExitStopbars(e, g, w.table), w.stopbars.edges + ExitEdges(e, g, w.table))
    else w'.exits == w.exits && w'.stopbars == w.stopbars
  }

  /** A continuation that does not keep the heading: searched for stop bars, and recorded as an exit when some are found. */
  method SearchAndRecord(dir: string, start: NodeId, aligned: set<EdgeKey>, ret: set<NodeId>, g: Topology, table0: NodeTable,
                         w: Walk, k: nat, e: EdgeKey) returns (r: Result<Walk, RunwayError>)
    requires TopologyOk(g, table0.Keys) && WalkOk(dir, start, aligned, g, table0, w)
    requires k < |w.edges| && Continues(g, w.edges[k], e) && e !in aligned
    ensures r.Err? <==> ExitVerdict(e, g, w.table) == Endless
    ensures r.Err? ==> r.error == EndlessExitSearch(e)
    ensures r.Ok? ==> WalkOk(dir, start, aligned, g, table0, r.value)
    ensures r.Ok? ==> r.value.edges == w.edges && r.value.length == w.length
    ensures r.Ok? ==> r.value.nodes == w.nodes && r.value.rounds == w.rounds && Recorded(g, w, e, r.value)
  {
    var x :- SearchExit(e, g, w.table, ret);
    if |x.stopbars| == 0 {
      return Ok(w);
    }
    var ex := Exit(w.length, x.ret, x.stopbars, x.names);
    var w' := WithExit(w, e, x);
    assert w'.exits == w.exits[e := ex] && w'.entries == w.entries[e.Rev() := EntryFor(ex)];
    AddExitStopbars(dir, g, table0, ret, w, e, x);
    AddExitRecorded(aligned, g, w.exits, w.stopbars, e, x, ex);
    AddExitReached(g, w.edges, w.exits, k, e, ex);
    ExitMirror(w.exits, w.entries, e, ex);
    r := Ok(w');
  }

  /**
   * The state inside a round that started from walk `w`: the chain edge at
   * index `k` is still `last`; `now` is the heading-keeping continuation
   * joined last, which ends the chain, and without one the chain is as it was.
   */
  ghost predicate RoundOk(dir: string, start: NodeId, aligned: set<EdgeKey>, g: Topology, table0: NodeTable,
                          w: Walk, k: nat, cur: Walk, now: Option<EdgeKey>)
  {
    && WalkOk(dir, start, aligned, g, table0, cur) && cur.length == w.length && cur.rounds == w.rounds
    && k < |w.edges| <= |cur.edges| && cur.edges[..|w.edges|] == w.edges
    && (now.Some? ==> |cur.edges| > |w.edges| && now.value == cur.edges[|cur.edges| - 1])
    && (now.None? ==> cur.edges == w.edges)
  }

  /**
   * Inside a round that started from walk `w`, once the continuations `done`
   * are visited, for a walk that re-types no stop bar: the exits are the
   * visited edges with stop bars behind them, those visited in this round
   * at the length walked so far.
   */
  ghost predicate RoundExact(aligned: set<EdgeKey>, g: Topology, table0: NodeTable, w: Walk, done: set<EdgeKey>, cur: Walk)
  {
    |w.rounds| > 0 &&
    (Clear(table0, cur.nodes) ==>
       && ExitsExact(aligned, g, table0, cur.exits, cur.stopbars, Visited(g, Prior(w.rounds)) + done)
       && forall x :: x in cur.exits ==> cur.exits[x].length == if x in done then w.length else LengthAtVisit(g, Prior(w.rounds), x))
  }

  /** A heading-keeping continuation joined to the chain ends it. */
  lemma JoinRound(dir: string, start: NodeId, aligned: set<EdgeKey>, g: Topology, table0: NodeTable,
                  w: Walk, k: nat, cur: Walk, now: Option<EdgeKey>, e: EdgeKey, next: Walk)
    requires RoundOk(dir, start, aligned, g, table0, w, k, cur, now)
    requires WalkOk(dir, start, aligned, g, table0, next) && next.length == cur.length && next.rounds == cur.rounds
    requires next.edges == cur.edges + [e]
    ensures RoundOk(dir, start, aligned, g, table0, w, k, next, Some(e))
  {
    assert next.edges[..|w.edges|] == cur.edges[..|w.edges|];
  }

  /** Any other continuation leaves the chain as it was. */
  lemma KeepRound(dir: string, start: NodeId, aligned: set<EdgeKey>, g: Topology, table0: NodeTable,
                  w: Walk, k: nat, cur: Walk, now: Option<EdgeKey>, next: Walk)
    requires RoundOk(dir, start, aligned, g, table0, w, k, cur, now)
    requires WalkOk(dir, start, aligned, g, table0, next) && next.length == cur.length && next.rounds == cur.rounds
    requires next.edges == cur.edges
    ensures RoundOk(dir, start, aligned, g, table0, w, k, next, now)
  {
  }

  /** A heading-keeping continuation joins the chain without changing the exits. */
  lemma JoinExact(aligned: set<EdgeKey>, g: Topology, table0: NodeTable, w: Walk, done: set<EdgeKey>, cur: Walk, e: EdgeKey, n: NodeId, next: Walk)
    requires RoundExact(aligned, g, table0, w, done, cur) && e in aligned
    requires forall x :: x in cur.exits ==> x !in aligned
    requires next.nodes == cur.nodes + [n] && next.exits == cur.exits && next.stopbars == cur.stopbars
    ensures RoundExact(aligned, g, table0, w, done + {e}, next)
  {
    if Clear(table0, next.nodes) {
      assert forall i :: 0 <= i < |cur.nodes| ==> next.nodes[i] == cur.nodes[i];
      assert Clear(table0, cur.nodes);
    }
  }

  /** Another continuation becomes an exit when its search finds stop bars on the table before the walk. */
  lemma RecordExact(dir: string, aligned: set<EdgeKey>, g: Topology, table0: NodeTable, w: Walk, done: set<EdgeKey>,
                    cur: Walk, e: EdgeKey, next: Walk)
    requires RoundExact(aligned, g, table0, w, done, cur) && e !in aligned && cur.length == w.length
    requires TableOk(dir, table0, cur.nodes, cur.table)
    requires next.nodes == cur.nodes && Recorded(g, cur, e, next)
    ensures RoundExact(aligned, g, table0, w, done + {e}, next)
  {
    if Clear(table0, cur.nodes) {
      ClearKeepsStopbars(dir, table0, cur.nodes, cur.table);
      ExitOfStopbars(e, g, table0, cur.table);
      RecordStopbars(g, table0, cur, e, next);
    }
  }

  /** The stop bars recorded behind `e` keep the exit stop-bar record exact. */
  lemma RecordStopbars(g: Topology, table0: NodeTable, cur: Walk, e: EdgeKey, next: Walk)
    requires StopbarsExact(g, table0, cur.exits, cur.stopbars) && Recorded(g, cur, e, next)
    requires ExitFound(g, cur.table, e) <==> ExitFound(g, table0, e)
    requires ExitStopbars(e, g, cur.table) == ExitStopbars(e, g, table0) && ExitEdges(e, g, cur.table) == ExitEdges(e, g, table0)
    ensures StopbarsExact(g, table0, next.exits, next.stopbars)
  {
    if ExitFound(g, table0, e) {
      CollectedOn(g, table0, cur.exits.Keys, e);
      assert next.exits.Keys == cur.exits.Keys + {e};
    }
  }

  /**
   * The state inside the round from the chain edge at index `k`, once the
   * continuations `done` are visited: `now` is the last heading-keeping one
   * of them, none when none keeps the heading.
   */
  ghost predicate Midround(dir: string, start: NodeId, aligned: set<EdgeKey>, g: Topology, table0: NodeTable,
                           w: Walk, k: nat, cur: Walk, now: Option<EdgeKey>, done: set<EdgeKey>)
  {
    && RoundOk(dir, start, aligned, g, table0, w, k, cur, now)
    && RoundExact(aligned, g, table0, w, done, cur)
    && Heading(aligned, g, w.edges[k], now, done)
  }

  /**
   * The continuations `done` of `last` visited so far, and `now` the last
   * heading-keeping one among them: none exactly when none keeps the heading.
   */
  ghost predicate Heading(aligned: set<EdgeKey>, g: Topology, last: EdgeKey, now: Option<EdgeKey>, done: set<EdgeKey>)
  {
    && (forall x :: x in done ==> Continues(g, last, x))
    && (now.None? <==> forall x :: x in done ==> x !in aligned)
    && (now.Some? ==> now.value in aligned && Continues(g, last, now.value))
  }

  /** Visiting one more continuation `e` keeps `now` the last heading-keeping continuation visited. */
  lemma HeadingStep(aligned: set<EdgeKey>, g: Topology, last: EdgeKey, now: Option<EdgeKey>, done: set<EdgeKey>, e: EdgeKey)
    requires Heading(aligned, g, last, now, done) && Continues(g, last, e)
    ensures Heading(aligned, g, last, if e in aligned then Some(e) else now, done + {e})
  {
  }

  /** One pass of the inner `for`: visit `e` and remember it when it joined the chain. */
  method RoundStep(dir: string, start: NodeId, aligned: set<EdgeKey>, ret: set<NodeId>, g: Topology, table0: NodeTable,
                   w: Walk, k: nat, cur: Walk, now: Option<EdgeKey>, ghost done: set<EdgeKey>, e: EdgeKey)
    returns (r: Result<Walk, RunwayError>, now': Option<EdgeKey>)
    requires TopologyOk(g, table0.Keys) && Midround(dir, start, aligned, g, table0, w, k, cur, now, done)
    requires Continues(g, w.edges[k], e)
    ensures r.Err? ==> r.error == EndlessExitSearch(e) && e !in aligned
    ensures now' == if e in aligned then Some(e) else now
    ensures r.Ok? ==> Midround(dir, start, aligned, g, table0, w, k, r.value, now', done + {e})
  {
    var joined;
    r, joined := Visit(dir, start, aligned, ret, g, table0, cur, k, e);
    now' := if joined then Some(e) else now;
    HeadingStep(aligned, g, w.edges[k], now, done, e);
    if r.Ok? {
      if joined {
        JoinRound(dir, start, aligned, g, table0, w, k, cur, now, e, r.value);
        JoinExact(aligned, g, table0, w, done, cur, e, e.v.value, r.value);
      } else {
        KeepRound(dir, start, aligned, g, table0, w, k, cur, now, r.value);
        RecordExact(dir, aligned, g, table0, w, done, cur, e, r.value);
      }
    }
  }

  /** After the last continuation of a round, the exits are those of all rounds so far. */
  lemma EndOfRound(aligned: set<EdgeKey>, g: Topology, table0: NodeTable, w: Walk, cur: Walk)
    requires |w.rounds| > 0 && RoundExact(aligned, g, table0, w, NextOf(g, w.rounds[|w.rounds| - 1]), cur)
    requires w.length == PathLength(g, w.rounds)
    ensures Clear(table0, cur.nodes) ==>
              ExitsExact(aligned, g, table0, cur.exits, cur.stopbars, Visited(g, w.rounds)) && LengthsExact(g, cur.exits, w.rounds)
  {
  }

  /** Listing one more continuation keeps every listed one among those done. */
  lemma Listed(nexts: seq<EdgeKey>, i: nat, done: set<EdgeKey>)
    requires i < |nexts| && forall j :: 0 <= j < i ==> nexts[j] in done
    ensures forall j :: 0 <= j < i + 1 ==> nexts[j] in done + {nexts[i]}
  {
  }

  /** Once every continuation is listed and done, the continuations done are all of them. */
  lemma AllDone(g: Topology, last: EdgeKey, nexts: seq<EdgeKey>, done: set<EdgeKey>)
    requires last in g.next && (forall x :: x in g.next[last] <==> x in nexts)
    requires forall j :: 0 <= j < |nexts| ==> nexts[j] in done
    requires forall x :: x in done ==> Continues(g, last, x)
    ensures done == NextOf(g, last)
  {
    forall x | x in g.next[last] ensures x in done {
      var j :| 0 <= j < |nexts| && nexts[j] == x;
    }
  }

  /**
   * With every continuation done, the round found none keeping the heading
   * exactly when the last chain edge is maximal, and otherwise went on along
   * the last one it found; the exits are those of all rounds so far.
   */
  lemma EndRound(dir: string, start: NodeId, aligned: set<EdgeKey>, g: Topology, table0: NodeTable,
                 w: Walk, k: nat, cur: Walk, now: Option<EdgeKey>, done: set<EdgeKey>)
    requires k == |w.edges| - 1 && |w.rounds| > 0 && w.rounds[|w.rounds| - 1] == w.edges[k] && w.length == PathLength(g, w.rounds)
    requires Midround(dir, start, aligned, g, table0, w, k, cur, now, done) && done == NextOf(g, w.edges[k])
    ensures WalkOk(dir, start, aligned, g, table0, cur) && RoundResult(aligned, g, table0, w, cur, now)
  {
    EndOfRound(aligned, g, table0, w, cur);
  }

  /** Before the first continuation of a round, nothing is visited and the walk is as the round found it. */
  lemma StartRound(dir: string, start: NodeId, aligned: set<EdgeKey>, g: Topology, table0: NodeTable, w: Walk, k: nat)
    requires WalkOk(dir, start, aligned, g, table0, w) && k == |w.edges| - 1 && |w.rounds| > 0
    requires Clear(table0, w.nodes) ==>
               ExitsExact(aligned, g, table0, w.exits, w.stopbars, Visited(g, Prior(w.rounds))) && LengthsExact(g, w.exits, Prior(w.rounds))
    ensures Midround(dir, start, aligned, g, table0, w, k, w, None, {})
  {
    assert w.edges[..|w.edges|] == w.edges;
    assert Visited(g, Prior(w.rounds)) + {} == Visited(g, Prior(w.rounds));
  }

  /**
   * The walk `next` after the round from the last chain edge of `w`: the
   * length and the rounds are those of `w`; the chain goes on from that of
   * `w`, by the last heading-keeping continuation when there is one, and
   * there is none exactly when the last chain edge is maximal; when no
   * re-typed node was a stop bar, the exits are exactly the edges visited
   * with stop bars behind them, each at the length walked when last visited.
   */
  ghost predicate RoundResult(aligned: set<EdgeKey>, g: Topology, table0: NodeTable, w: Walk, next: Walk, now: Option<EdgeKey>)
    requires |w.edges| > 0
  {
    && next.length == w.length && next.rounds == w.rounds
    && |w.edges| <= |next.edges| && next.edges[..|w.edges|] == w.edges
    && (now.None? <==> Maximal(aligned, g, w.edges[|w.edges| - 1]))
    && (now.Some? ==> |next.edges| > |w.edges| && now.value == next.edges[|next.edges| - 1])
    && (now.Some? ==> now.value in aligned && Continues(g, w.edges[|w.edges| - 1], now.value))
    && (now.None? ==> next.edges == w.edges)
    && (Clear(table0, next.nodes) ==>
          ExitsExact(aligned, g, table0, next.exits, next.stopbars, Visited(g, w.rounds)) && LengthsExact(g, next.exits, w.rounds))
  }

  /**
   * The walk at the start of a round: its last chain edge is the last round
   * edge, its length is that of the rounds, and exits and lengths are exact
   * up to the rounds before the last one.
   */
  ghost predicate Ready(dir: string, start: NodeId, aligned: set<EdgeKey>, g: Topology, table0: NodeTable, w: Walk)
  {
    && WalkOk(dir, start, aligned, g, table0, w)
    && |w.rounds| > 0 && w.rounds[|w.rounds| - 1] == w.edges[|w.edges| - 1] && w.length == PathLength(g, w.rounds)
    && (Clear(table0, w.nodes) ==>
          ExitsExact(aligned, g, table0, w.exits, w.stopbars, Visited(g, Prior(w.rounds))) && LengthsExact(g, w.exits, Prior(w.rounds)))
  }

  /**
   * One round of the walk (the inner `for`): every continuation of the last
   * chain edge is visited; the last heading-keeping one is where the walk
   * goes on, and there is none when no continuation keeps the heading.
   */
  method Round(dir: string, start: NodeId, aligned: set<EdgeKey>, ret: set<NodeId>, g: Topology, table0: NodeTable, w: Walk)
    returns (r: Result<Walk, RunwayError>, now: Option<EdgeKey>)
    requires TopologyOk(g, table0.Keys) && Ready(dir, start, aligned, g, table0, w)
    ensures r.Err? ==> r.error.EndlessExitSearch? && Continues(g, w.edges[|w.edges| - 1], r.error.key) && r.error.key !in aligned
    ensures r.Ok? ==> WalkOk(dir, start, aligned, g, table0, r.value) && RoundResult(aligned, g, table0, w, r.value, now)
  {
    var k := |w.edges| - 1;
    var last := w.edges[k];
    var nexts := ListEdges(g.next[last]);
    var cur := w;
    now := None;
    ghost var done: set<EdgeKey> := {};
    StartRound(dir, start, aligned, g, table0, w, k);
    for i := 0 to |nexts|
      invariant Midround(dir, start, aligned, g, table0, w, k, cur, now, done)
      invariant forall j :: 0 <= j < i ==> nexts[j] in done
    {
      var res;
      res, now := RoundStep(dir, start, aligned, ret, g, table0, w, k, cur, now, done, nexts[i]);
      if res.Err? {
        return Err(res.error), now;
      }
      Listed(nexts, i, done);
      cur, done := res.value, done + {nexts[i]};
    }
    AllDone(g, last, nexts, done);
    EndRound(dir, start, aligned, g, table0, w, k, cur, now, done);
    r := Ok(cur);
  }

  /**
   * The state between rounds, `now` being the edge the next round starts
   * from: the length walked is that of the rounds' edges; the rounds are
   * chain edges, start at the threshold edge and go on along heading-keeping
   * continuations, `now` among them; without a next round the last round's
   * edge ends the chain and has no heading-keeping continuation; and when no
   * re-typed node was a stop bar, the exits are exactly the visited edges
   * with stop bars behind them, each at the length walked when last visited.
   */
  ghost predicate RoundsOk(aligned: set<EdgeKey>, g: Topology, table0: NodeTable, w: Walk, now: Option<EdgeKey>)
  {
    && |w.edges| > 0
    && w.length == PathLength(g, w.rounds)
    && RunOk(aligned, g, w.edges[0], w.rounds)
    && (forall i :: 0 <= i < |w.rounds| ==> w.rounds[i] in w.edges)
    && (now.Some? ==> now.value == w.edges[|w.edges| - 1] && RunOk(aligned, g, w.edges[0], w.rounds + [now.value]))
    && (now.None? ==> |w.rounds| > 0 && w.rounds[|w.rounds| - 1] == w.edges[|w.edges| - 1]
                      && Maximal(aligned, g, w.rounds[|w.rounds| - 1]))
    && (Clear(table0, w.nodes) ==> ExitsExact(aligned, g, table0, w.exits, w.stopbars, Visited(g, w.rounds)) && LengthsExact(g, w.exits, w.rounds))
  }

  /** A walk result meets the conditions of a walk of direction `dir` from its only threshold edge when it is not an error. */
  ghost predicate Walking(dir: string, start: NodeId, aligned: set<EdgeKey>, g: Topology, table0: NodeTable, r: Result<Walk, RunwayError>)
  {
    match r
    case Ok(w) => WalkOk(dir, start, aligned, g, table0, w) && start in g.from && g.from[start] == {w.edges[0]}
    case Err(_) => true
  }

  /** A finished walk: a walk from the threshold edge whose last round found no heading-keeping continuation. */
  ghost predicate WalkedFrom(dir: string, start: NodeId, aligned: set<EdgeKey>, g: Topology, table0: NodeTable, r: Result<Walk, RunwayError>)
  {
    Walking(dir, start, aligned, g, table0, r) && (r.Ok? ==> RoundsOk(aligned, g, table0, r.value, None))
  }

  /** A run of heading-keeping edges from the threshold edge, longer than the graph has edges. */
  ghost predicate Circular(aligned: set<EdgeKey>, g: Topology, start: NodeId)
  {
    start in g.from && exists run :: |run| > |g.edges| + 1 && run[0] in g.from[start] && AlignedRun(aligned, g, run)
  }

  /**
   * The walk of one direction: the threshold node must have exactly one
   * outgoing edge, which starts the chain; rounds follow while a
   * heading-keeping continuation exists, each adding the length of the edge
   * it starts from. A walk of more rounds than the graph has edges is
   * reported as endless.
   */
  method WalkDirection(dir: string, start: NodeId, aligned: set<EdgeKey>, ret: set<NodeId>, g: Topology, table0: NodeTable)
    returns (r: Result<Walk, RunwayError>)
    requires TopologyOk(g, table0.Keys) && start in table0
    ensures |g.from[start]| != 1 <==> r == Err(ThresholdEdgeCount(dir, |g.from[start]|))
    ensures r.Err? && r.error.ThresholdEdgeCount? ==> r == Err(ThresholdEdgeCount(dir, |g.from[start]|))
    ensures r.Err? ==> r.error.ThresholdEdgeCount? || r.error == EndlessWalk(dir) || r.error.EndlessExitSearch?
    ensures r.Err? && r.error.EndlessExitSearch? ==> r.error.key in g.edges && r.error.key !in aligned
    ensures r == Err(EndlessWalk(dir)) ==> Circular(aligned, g, start)
    ensures WalkedFrom(dir, start, aligned, g, table0, r)
  {
    var from := g.from[start];
    if |from| != 1 {
      return Err(ThresholdEdgeCount(dir, |from|));
    }
    var e0 :| e0 in from;
    Single(from, e0);
    r := Rounds(dir, start, aligned, ret, g, table0, e0);
  }

  /** The walk from the only threshold edge `e0`, round after round, with at most as many rounds as the graph has edges. */
  method Rounds(dir: string, start: NodeId, aligned: set<EdgeKey>, ret: set<NodeId>, g: Topology, table0: NodeTable, e0: EdgeKey)
    returns (r: Result<Walk, RunwayError>)
    requires TopologyOk(g, table0.Keys) && start in table0 && g.from[start] == {e0}
    ensures r.Err? ==> r.error == EndlessWalk(dir) || r.error.EndlessExitSearch?
    ensures r.Err? && r.error.EndlessExitSearch? ==> r.error.key in g.edges && r.error.key !in aligned
    ensures r == Err(EndlessWalk(dir)) ==> Circular(aligned, g, start)
    ensures WalkedFrom(dir, start, aligned, g, table0, r)
  {
    r := Ok(FirstWalk(start, e0, table0));
    FirstRound(dir, start, aligned, g, table0, e0);
    var now: Option<EdgeKey> := Some(e0);
    var fuel: nat := |g.edges| + 1;
    while r.Ok? && now.Some?
      invariant Walking(dir, start, aligned, g, table0, r)
      invariant r.Ok? ==> RoundsOk(aligned, g, table0, r.value, now) && r.value.edges[0] == e0
      invariant r.Ok? ==> |r.value.rounds| + fuel == |g.edges| + 1
      invariant r.Err? ==> r.error == EndlessWalk(dir) || r.error.EndlessExitSearch?
      invariant r.Err? && r.error.EndlessExitSearch? ==> r.error.key in g.edges && r.error.key !in aligned
      invariant r == Err(EndlessWalk(dir)) ==> Circular(aligned, g, start)
      decreases fuel, r.Ok?
    {
      if fuel == 0 {
        EndlessRounds(aligned, g, table0, start, r.value, now.value);
        r := Err(EndlessWalk(dir));
      } else {
        fuel := fuel - 1;
        r, now := Advance(dir, start, aligned, ret, g, table0, r.value, now.value);
      }
    }
  }

  /** One round of the walk, after adding the length of the chain edge `last` it starts from. */
  method Advance(dir: string, start: NodeId, aligned: set<EdgeKey>, ret: set<NodeId>, g: Topology, table0: NodeTable, w: Walk, last: EdgeKey)
    returns (r: Result<Walk, RunwayError>, now: Option<EdgeKey>)
    requires TopologyOk(g, table0.Keys) && Walking(dir, start, aligned, g, table0, Ok(w))
    requires RoundsOk(aligned, g, table0, w, Some(last))
    ensures r.Err? ==> r.error.EndlessExitSearch? && r.error.key in g.edges && r.error.key !in aligned
    ensures Walking(dir, start, aligned, g, table0, r)
    ensures r.Ok? ==> RoundsOk(aligned, g, table0, r.value, now) && r.value.edges[0] == w.edges[0]
    ensures r.Ok? ==> r.value.rounds == w.rounds + [last]
  {
    ReadyNext(dir, start, aligned, g, table0, w, last);
    var res;
    res, now := Round(dir, start, aligned, ret, g, table0, Rounded(g, w, last));
    r := res;
    if r.Ok? {
      NextRounds(aligned, g, table0, w, last, Rounded(g, w, last), r.value, now);
    }
  }

  /** The walk before its first round: the threshold node, the threshold edge and its end, nothing walked yet. */
  function FirstWalk(start: NodeId, e0: EdgeKey, table0: NodeTable): Walk
    requires e0.v.Some?
  {
    Walk([start, e0.v.value], [e0], [], 0.0, map[], map[], StopbarSet({}, {}), table0)
  }

  /** The walk before its first round is a walk from the threshold edge, with its first round to come from that edge. */
  lemma FirstRound(dir: string, start: NodeId, aligned: set<EdgeKey>, g: Topology, table0: NodeTable, e0: EdgeKey)
    requires TopologyOk(g, table0.Keys) && start in table0 && g.from[start] == {e0}
    ensures e0.v.Some? && Walking(dir, start, aligned, g, table0, Ok(FirstWalk(start, e0, table0)))
    ensures RoundsOk(aligned, g, table0, FirstWalk(start, e0, table0), Some(e0)) && FirstWalk(start, e0, table0).edges[0] == e0
  {
    assert e0 in g.from[start];
  }

  /** A walk whose rounds outnumber the graph's edges, still going on, goes round in a circle. */
  lemma EndlessRounds(aligned: set<EdgeKey>, g: Topology, table0: NodeTable, start: NodeId, w: Walk, now: EdgeKey)
    requires RoundsOk(aligned, g, table0, w, Some(now)) && start in g.from && w.edges[0] in g.from[start]
    requires |w.rounds| == |g.edges| + 1
    ensures Circular(aligned, g, start)
  {
    var run := w.rounds + [now];
    assert run[0] == w.edges[0] && AlignedRun(aligned, g, run);
  }

  /** The walk with `last` added to its rounds and its length. */
  function Rounded(g: Topology, w: Walk, last: EdgeKey): Walk
    requires last in g.edges
  {
    w.(rounds := w.rounds + [last], length := w.length + g.edges[last].length)
  }

  /** Between rounds, with `last` the end of the chain, the walk with `last` added is ready for the next round. */
  lemma ReadyNext(dir: string, start: NodeId, aligned: set<EdgeKey>, g: Topology, table0: NodeTable, w: Walk, last: EdgeKey)
    requires TopologyOk(g, table0.Keys) && WalkOk(dir, start, aligned, g, table0, w)
    requires RoundsOk(aligned, g, table0, w, Some(last))
    ensures last in g.edges && Ready(dir, start, aligned, g, table0, Rounded(g, w, last))
  {
    var w' := w.(rounds := w.rounds + [last], length := w.length + g.edges[last].length);
    Rerounded(dir, start, aligned, g, table0, w, w'.rounds, w'.length);
    PathLengthOn(g, w.rounds, last);
    assert Prior(w'.rounds) == w.rounds;
  }

  /** What a walk must satisfy does not depend on its rounds or its length. */
  lemma Rerounded(dir: string, start: NodeId, aligned: set<EdgeKey>, g: Topology, table0: NodeTable, w: Walk,
                  rounds: seq<EdgeKey>, length: real)
    requires WalkOk(dir, start, aligned, g, table0, w)
    ensures WalkOk(dir, start, aligned, g, table0, w.(rounds := rounds, length := length))
  {
  }

  /** The state after a round from `last`, on the walk `w'` with `last` added, is the state between rounds again. */
  lemma NextRounds(aligned: set<EdgeKey>, g: Topology, table0: NodeTable, w: Walk, last: EdgeKey, w': Walk, next: Walk,
                   now: Option<EdgeKey>)
    requires RoundsOk(aligned, g, table0, w, Some(last)) && last in g.edges
    requires w' == Rounded(g, w, last)
    requires RoundResult(aligned, g, table0, w', next, now)
    ensures RoundsOk(aligned, g, table0, next, now) && next.edges[0] == w.edges[0]
  {
    RoundOn(aligned, g, w.edges, w.rounds, w.length, last, next.edges, next.rounds, next.length, now);
  }

  /** The rounds part of the state between rounds, after one more round from `last`. */
  lemma RoundOn(aligned: set<EdgeKey>, g: Topology, edges: seq<EdgeKey>, rounds: seq<EdgeKey>, length: real, last: EdgeKey,
                edges': seq<EdgeKey>, rounds': seq<EdgeKey>, length': real, now: Option<EdgeKey>)
    requires |edges| > 0 && length == PathLength(g, rounds) && last == edges[|edges| - 1]
    requires RunOk(aligned, g, edges[0], rounds + [last]) && forall i :: 0 <= i < |rounds| ==> rounds[i] in edges
    requires last in g.edges && rounds' == rounds + [last] && length' == length + g.edges[last].length
    requires |edges| <= |edges'| && edges'[..|edges|] == edges
    requires now.None? <==> Maximal(aligned, g, last)
    requires now.Some? ==> now.value == edges'[|edges'| - 1] && now.value in aligned && Continues(g, last, now.value)
    requires now.None? ==> edges' == edges
    ensures length' == PathLength(g, rounds') && RunOk(aligned, g, edges'[0], rounds')
    ensures forall i :: 0 <= i < |rounds'| ==> rounds'[i] in edges'
    ensures now.Some? ==> now.value == edges'[|edges'| - 1] && RunOk(aligned, g, edges'[0], rounds' + [now.value])
    ensures now.None? ==> |rounds'| > 0 && rounds'[|rounds'| - 1] == edges'[|edges'| - 1] && Maximal(aligned, g, rounds'[|rounds'| - 1])
  {
    PathLengthOn(g, rounds, last);
    assert edges'[0] == edges[0];
    forall i | 0 <= i < |rounds'| ensures rounds'[i] in edges' {
      if i < |rounds| {
        var j :| 0 <= j < |edges| && edges[j] == rounds[i];
        assert edges'[..|edges|][j] == edges'[j];
      } else {
        assert edges'[..|edges|][|edges| - 1] == edges'[|edges| - 1];
      }
    }
    if now.Some? {
      RunOn(aligned, g, edges'[0], rounds', now.value);
    }
  }

  /** A round from the graph edge `last` adds the length of `last`. */
  lemma PathLengthOn(g: Topology, rounds: seq<EdgeKey>, last: EdgeKey)
    requires last in g.edges
    ensures PathLength(g, rounds + [last]) == PathLength(g, rounds) + g.edges[last].length
  {
    assert (rounds + [last])[..|rounds|] == rounds;
  }

  /** A run goes on along a heading-keeping continuation of its last edge. */
  lemma RunOn(aligned: set<EdgeKey>, g: Topology, first: EdgeKey, rounds: seq<EdgeKey>, e: EdgeKey)
    requires RunOk(aligned, g, first, rounds) && |rounds| > 0 && e in aligned && Continues(g, rounds[|rounds| - 1], e)
    ensures RunOk(aligned, g, first, rounds + [e])
  {
    var run := rounds + [e];
    forall i | 0 < i < |run| ensures run[i] in aligned && Continues(g, run[i - 1], run[i]) {
      if i < |rounds| {
        assert run[i] == rounds[i] && run[i - 1] == rounds[i - 1];
      }
    }
  }

  /** The elements of a sequence without repetitions are as many as its length. */
  lemma {:induction false} DistinctMembers(s: seq<EdgeKey>)
    requires forall i, j :: 0 <= i < j < |s| ==> s[i] != s[j]
    ensures |Members(s)| == |s|
  {
    if s != [] {
      var init, t := s[..|s| - 1], s[|s| - 1];
      DistinctMembers(init);
      assert Members(s) == Members(init) + {t};
      assert t !in Members(init);
    }
  }

  /** A subset has no more elements than the set. */
  lemma SubsetSize(a: set<EdgeKey>, b: set<EdgeKey>)
    requires a <= b
    ensures |a| <= |b|
  {
    assert b == a + (b - a);
  }

  /** An endless walk goes round in a circle: its run of heading-keeping edges repeats an edge. */
  lemma EndlessWalkCircles(aligned: set<EdgeKey>, g: Topology, nodes: set<NodeId>, start: NodeId)
    requires TopologyOk(g, nodes) && Circular(aligned, g, start) && g.from[start] <= g.edges.Keys
    ensures exists run, i, j :: 0 <= i < j < |run| && run[i] == run[j] && run[0] in g.from[start] && AlignedRun(aligned, g, run)
  {
    var run :| |run| > |g.edges| + 1 && run[0] in g.from[start] && AlignedRun(aligned, g, run);
    assert Members(run) <= g.edges.Keys by {
      forall x | x in Members(run) ensures x in g.edges {
        var i :| 0 <= i < |run| && run[i] == x;
        if i > 0 { assert Continues(g, run[i - 1], run[i]); }
      }
    }
    SubsetSize(Members(run), g.edges.Keys);
    if forall i, j :: 0 <= i < j < |run| ==> run[i] != run[j] {
      DistinctMembers(run);
      assert false;
    }
  }
}
