/**
 * `Layout.enhance_imports` (src/Layout/Layout.py): the adjacency of every
 * node, the stand edges at ramps, the re-typing of service-road
 * intersections, the continuations of every edge by the turn-angle rule,
 * and the edges on which a vehicle may switch direction.
 */
module Enhance {
  import opened Wrappers
  import opened Graph
  import opened Angles
  import opened Edges

  /** The adjacency `enhance_imports` adds to a node. */
  datatype NodeLinks = NodeLinks(
    neighbors: set<Option<NodeId>>,   // an open end adds `None`
    from: set<EdgeKey>,               // edges_from_node
    to: set<EdgeKey>)                 // edges_to_node

  datatype EnhanceError =
    | UnknownEndpoint(key: EdgeKey)     // an end of the key is no node
    | OpenEnd(key: EdgeKey)             // the direction-switch step looks up the missing end node

  /* ---------- adjacency ---------- */

  /** The keys leaving node `n`. */
  function From(keys: set<EdgeKey>, n: NodeId): set<EdgeKey>
  {
    set k | k in keys && k.u == Some(n)
  }

  /** The keys reaching node `n`. */
  function To(keys: set<EdgeKey>, n: NodeId): set<EdgeKey>
  {
    set k | k in keys && k.v == Some(n)
  }

  /** The far ends of the keys leaving `n`, `None` for an open end. */
  function Neighbors(keys: set<EdgeKey>, n: NodeId): set<Option<NodeId>>
  {
    set k | k in keys && k.u == Some(n) :: k.v
  }

  /** What the adjacency step promises for node `n`. */
  function LinksOf(keys: set<EdgeKey>, n: NodeId): NodeLinks
  {
    NodeLinks(Neighbors(keys, n), From(keys, n), To(keys, n))
  }

  /**
   * The nodes the adjacency step looks up for a key exist: the end alone
   * for an open start, the start (and the end if there is one) otherwise.
   */
  predicate EndsKnown(k: EdgeKey, nodes: set<NodeId>)
  {
    if k.u.None? then k.v.Some? && k.v.value in nodes
    else k.u.value in nodes && (k.v.Some? ==> k.v.value in nodes)
  }

  /** One key entered: an open start only touches the end's incoming set. */
  function AddKey(links: map<NodeId, NodeLinks>, k: EdgeKey): (r: map<NodeId, NodeLinks>)
    requires EndsKnown(k, links.Keys)
    ensures r.Keys == links.Keys
  {
    if k.u.None? then
      var v := k.v.value;
      links[v := links[v].(to := links[v].to + {k})]
    else
      var u := k.u.value;
      var l1 := links[u := links[u].(neighbors := links[u].neighbors + {k.v}, from := links[u].from + {k})];
      if k.v.Some? then l1[k.v.value := l1[k.v.value].(to := l1[k.v.value].to + {k})] else l1
  }

  lemma AddKeyLinks(links: map<NodeId, NodeLinks>, done: set<EdgeKey>, k: EdgeKey)
    requires EndsKnown(k, links.Keys)
    requires forall n :: n in links ==> links[n] == LinksOf(done, n)
    ensures forall n :: n in links ==> AddKey(links, k)[n] == LinksOf(done + {k}, n)
  {
    var r := AddKey(links, k);
    forall n | n in links ensures r[n] == LinksOf(done + {k}, n) {
      assert From(done + {k}, n) == From(done, n) + (if k.u == Some(n) then {k} else {});
      assert To(done + {k}, n) == To(done, n) + (if k.v == Some(n) then {k} else {});
      assert Neighbors(done + {k}, n) == Neighbors(done, n) + (if k.u == Some(n) then {k.v} else {});
    }
  }

  /**
   * The adjacency loop over all keys: it fails exactly when some key names
   * a missing node, and otherwise every node gets its neighbors, its
   * outgoing and its incoming keys.
   */
  method BuildAdjacency(nodes: set<NodeId>, keys: set<EdgeKey>) returns (r: Result<map<NodeId, NodeLinks>, EnhanceError>)
    ensures r.Ok? <==> forall k :: k in keys ==> EndsKnown(k, nodes)
    ensures r.Ok? ==> r.value.Keys == nodes && forall n :: n in nodes ==> r.value[n] == LinksOf(keys, n)
  {
    var links := map n | n in nodes :: NodeLinks({}, {}, {});
    var todo := keys;
    while todo != {}
      invariant todo <= keys
      invariant forall k :: k in keys - todo ==> EndsKnown(k, nodes)
      invariant links.Keys == nodes
      invariant forall n :: n in nodes ==> links[n] == LinksOf(keys - todo, n)
      decreases |todo|
    {
      var k :| k in todo;
      if !EndsKnown(k, nodes) {
        return Err(UnknownEndpoint(k));
      }
      AddKeyLinks(links, keys - todo, k);
      assert keys - (todo - {k}) == (keys - todo) + {k};
      links := AddKey(links, k);
      todo := todo - {k};
    }
    assert keys - todo == keys;
    r := Ok(links);
  }

  /** An edge's start sees it leave and its end sees it arrive. */
  lemma AdjacencyAgrees(keys: set<EdgeKey>, k: EdgeKey, a: NodeId, b: NodeId)
    requires k in keys && k == Key(a, b)
    ensures k in LinksOf(keys, a).from && k in LinksOf(keys, b).to && Some(b) in LinksOf(keys, a).neighbors
  {
  }

  /** A key with an open start touches no outgoing set and no neighbour set. */
  lemma OpenStartOnlyIncoming(keys: set<EdgeKey>, k: EdgeKey, n: NodeId)
    requires k in keys && k.u.None?
    ensures k !in LinksOf(keys, n).from
    ensures k in LinksOf(keys, n).to <==> k.v == Some(n)
  {
  }

  /* ---------- ramps ---------- */

  /** The stand edges among a set of keys. */
  function StandEdges(ks: set<EdgeKey>, edges: map<EdgeKey, EdgeRecord>): set<EdgeKey>
  {
    set k | k in ks && k in edges && edges[k].edgeType == Stand
  }

  /** The inner loops of the ramp pass: keep the keys whose edge is a stand edge. */
  method FilterStand(ks: set<EdgeKey>, edges: map<EdgeKey, EdgeRecord>) returns (r: set<EdgeKey>)
    requires ks <= edges.Keys
    ensures r == StandEdges(ks, edges)
  {
    r := {};
    var todo := ks;
    while todo != {}
      invariant todo <= ks
      invariant r == StandEdges(ks - todo, edges)
      decreases |todo|
    {
      var k :| k in todo;
      if edges[k].edgeType == Stand {
        r := r + {k};
      }
      todo := todo - {k};
    }
    assert ks - todo == ks;
  }

  /* ---------- service-road intersections ---------- */

  /** The source's loop with `break`: does every outgoing edge have a service-road type? */
  method AllServiceRoad(from: set<EdgeKey>, edges: map<EdgeKey, EdgeRecord>) returns (b: bool)
    requires from <= edges.Keys
    ensures b <==> forall k :: k in from ==> edges[k].edgeType.IsServiceRoad()
  {
    var todo := from;
    while todo != {}
      invariant todo <= from
      invariant forall k :: k in from - todo ==> edges[k].edgeType.IsServiceRoad()
      decreases |todo|
    {
      var k :| k in todo;
      if !edges[k].edgeType.IsServiceRoad() {
        return false;
      }
      todo := todo - {k};
    }
    assert from - todo == from;
    return true;
  }

  /** A taxiway intersection all of whose outgoing edges are service roads becomes a service-road intersection. */
  function Reclassified(t: NodeType, from: set<EdgeKey>, edges: map<EdgeKey, EdgeRecord>): (r: NodeType)
    requires from <= edges.Keys
    ensures r != t ==> t == TwyIntersection && r == SrIntersection
    ensures t == TwyIntersection ==> (r == SrIntersection <==> forall k :: k in from ==> edges[k].edgeType.IsServiceRoad())
  {
    if t == TwyIntersection && forall k :: k in from ==> edges[k].edgeType.IsServiceRoad() then SrIntersection else t
  }

  /** A taxiway intersection with no outgoing edge at all is re-typed: the test is vacuous. */
  lemma DeadEndBecomesServiceRoad(edges: map<EdgeKey, EdgeRecord>)
    ensures Reclassified(TwyIntersection, {}, edges) == SrIntersection
  {
  }

  /* ---------- continuations ---------- */

  /** The turn between an edge's end heading and the next edge's start heading, in `[0, 180]`. */
  function TurnAngle(hEnd: real, hStart: real): (a: real)
    ensures 0.0 <= a <= 180.0
  {
    Mod360Range(hEnd - hStart);
    Mod360Range(hStart - hEnd);
    TurnAngleBound(hEnd - hStart);
    Min(PyMod(hEnd - hStart, 360.0), PyMod(hStart - hEnd, 360.0))
  }

  function Min(a: real, b: real): real
  {
    if a <= b then a else b
  }

  /** One of `x mod 360` and `-x mod 360` is at most 180: they add up to 360 unless both are 0. */
  lemma {:induction false} TurnAngleBound(x: real)
    ensures PyMod(x, 360.0) <= 180.0 || PyMod(-x, 360.0) <= 180.0
  {
    Mod360Range(x);
    var m := PyMod(x, 360.0);
    var q := (x / 360.0).Floor;
    if m > 0.0 {
      Mod360Unique(-x, -q - 1);
    }
  }

  /** The turn angle does not depend on which heading comes first. */
  lemma TurnAngleSymmetric(h1: real, h2: real)
    ensures TurnAngle(h1, h2) == TurnAngle(h2, h1)
  {
  }

  /** Headings either side of north: 350 to 10 is a 20 degree turn, not 340. */
  lemma TurnAcrossNorth()
    ensures TurnAngle(350.0, 10.0) == 20.0
  {
    Mod360Unique(340.0, 0);
    Mod360Unique(-340.0, -1);
  }

  /** The continuations of `key`: edges leaving its end, not its own reverse, turning less than 135 degrees. */
  function NextEdges(key: EdgeKey, edges: map<EdgeKey, EdgeRecord>): set<EdgeKey>
    requires key in edges
  {
    if key.v.None? then {}
    else set k | k in edges && k.u == key.v && k != key.Rev()
                 && TurnAngle(edges[key].heading.1, edges[k].heading.0) < 135.0
  }

  /** Each continuation is a slow turn when it turns more than 30 degrees. */
  function SlowTurns(key: EdgeKey, edges: map<EdgeKey, EdgeRecord>): map<EdgeKey, bool>
    requires key in edges
  {
    map k | k in NextEdges(key, edges) :: TurnAngle(edges[key].heading.1, edges[k].heading.0) > 30.0
  }

  /** The continuation loop over the edges leaving the end node. */
  method FindContinuations(key: EdgeKey, from: set<EdgeKey>, edges: map<EdgeKey, EdgeRecord>)
    returns (next: set<EdgeKey>, slow: map<EdgeKey, bool>)
    requires key in edges && key.v.Some? && from == From(edges.Keys, key.v.value)
    ensures next == NextEdges(key, edges) && slow == SlowTurns(key, edges)
  {
    next, slow := {}, map[];
    var hEnd := edges[key].heading.1;
    var todo := from;
    while todo != {}
      invariant todo <= from
      invariant next == set k | k in from - todo && k != key.Rev() && TurnAngle(hEnd, edges[k].heading.0) < 135.0
      invariant slow == map k | k in next :: TurnAngle(hEnd, edges[k].heading.0) > 30.0
      decreases |todo|
    {
      var k :| k in todo;
      if k != key.Rev() {
        var diff := TurnAngle(hEnd, edges[k].heading.0);
        if diff < 135.0 {
          next := next + {k};
          slow := slow[k := diff > 30.0];
        }
      }
      todo := todo - {k};
    }
    assert from - todo == from;
  }

  /**
   * The direction-switch edges of `key`: everything leaving its end except
   * the continuations that are not slow turns.
   */
  function DirSwitch(key: EdgeKey, edges: map<EdgeKey, EdgeRecord>): set<EdgeKey>
    requires key in edges && key.v.Some?
  {
    var slow := SlowTurns(key, edges);
    From(edges.Keys, key.v.value) - set k | k in NextEdges(key, edges) && !slow[k]
  }

  /**
   * An edge leaving the end is a direction switch exactly when it is the
   * reverse of `key` or turns more than 30 degrees.
   */
  lemma DirSwitchMembers(key: EdgeKey, edges: map<EdgeKey, EdgeRecord>, k: EdgeKey)
    requires key in edges && key.v.Some?
    ensures k in DirSwitch(key, edges) <==>
              k in edges && k.u == key.v
              && (k == key.Rev() || TurnAngle(edges[key].heading.1, edges[k].heading.0) > 30.0)
  {
  }

  /** Turning back onto the same path is always a direction switch. */
  lemma DirSwitchHasReverse(key: EdgeKey, edges: map<EdgeKey, EdgeRecord>)
    requires key in edges && key.v.Some? && key.Rev() in edges
    ensures key.Rev() in DirSwitch(key, edges)
  {
    DirSwitchMembers(key, edges, key.Rev());
  }

  /* ---------- the loops over all nodes and edges ---------- */

  /** Every node's outgoing set lists keys of the edge map. */
  predicate LinksWithin(links: map<NodeId, NodeLinks>, edges: map<EdgeKey, EdgeRecord>)
  {
    forall n :: n in links ==> links[n].from <= edges.Keys && links[n].to <= edges.Keys
  }

  /** The adjacency of `BuildAdjacency` over the edge map's keys. */
  predicate IsAdjacency(links: map<NodeId, NodeLinks>, edges: map<EdgeKey, EdgeRecord>)
  {
    forall n :: n in links ==> links[n] == LinksOf(edges.Keys, n)
  }

  /** Every node's outgoing set is the keys leaving it. */
  predicate OutgoingLinks(links: map<NodeId, NodeLinks>, edges: map<EdgeKey, EdgeRecord>)
  {
    forall n :: n in links ==> links[n].from == From(edges.Keys, n)
  }

  /** Every node's incoming set is the keys reaching it. */
  predicate IncomingLinks(links: map<NodeId, NodeLinks>, edges: map<EdgeKey, EdgeRecord>)
  {
    forall n :: n in links ==> links[n].to == To(edges.Keys, n)
  }

  /** What the later passes use of the adjacency. */
  lemma AdjacencyParts(links: map<NodeId, NodeLinks>, edges: map<EdgeKey, EdgeRecord>)
    requires IsAdjacency(links, edges)
    ensures LinksWithin(links, edges) && OutgoingLinks(links, edges) && IncomingLinks(links, edges)
  {
  }

  /** The node-type pass over all nodes. */
  method ReclassifyAll(types: map<NodeId, NodeType>, links: map<NodeId, NodeLinks>, edges: map<EdgeKey, EdgeRecord>)
    returns (r: map<NodeId, NodeType>)
    requires types.Keys <= links.Keys && LinksWithin(links, edges)
    ensures r.Keys == types.Keys
    ensures forall n :: n in types ==> r[n] == Reclassified(types[n], links[n].from, edges)
  {
    r := types;
    var todo := types.Keys;
    while todo != {}
      invariant todo <= types.Keys && r.Keys == types.Keys
      invariant forall n :: n in todo ==> r[n] == types[n]
      invariant forall n :: n in types.Keys - todo ==> r[n] == Reclassified(types[n], links[n].from, edges)
      decreases |todo|
    {
      var n :| n in todo;
      if types[n] == TwyIntersection {
        var all := AllServiceRoad(links[n].from, edges);
        if all {
          r := r[n := SrIntersection];
        }
      }
      todo := todo - {n};
    }
  }

  /** The continuation pass over all edges. */
  method AllContinuations(edges: map<EdgeKey, EdgeRecord>, links: map<NodeId, NodeLinks>)
    returns (next: map<EdgeKey, set<EdgeKey>>, slow: map<EdgeKey, map<EdgeKey, bool>>)
    requires OutgoingLinks(links, edges)
    requires forall k :: k in edges && k.v.Some? ==> k.v.value in links
    ensures next.Keys == edges.Keys && slow.Keys == edges.Keys
    ensures forall k :: k in edges ==> next[k] == NextEdges(k, edges) && slow[k] == SlowTurns(k, edges)
  {
    next, slow := map[], map[];
    var todo := edges.Keys;
    while todo != {}
      invariant todo <= edges.Keys && next.Keys <= edges.Keys && slow.Keys == next.Keys
      invariant forall k :: k in edges ==> (k in next <==> k !in todo)
      invariant forall k :: k in next ==> next[k] == NextEdges(k, edges) && slow[k] == SlowTurns(k, edges)
      decreases |todo|
    {
      var k :| k in todo;
      if k.v.Some? {
        var n, s := FindContinuations(k, links[k.v.value].from, edges);
        next, slow := next[k := n], slow[k := s];
      } else {
        next, slow := next[k := {}], slow[k := map[]];
      }
      todo := todo - {k};
    }
  }

  /** The direction-switch pass: it fails on the first edge without an end node. */
  method AllDirSwitches(edges: map<EdgeKey, EdgeRecord>, links: map<NodeId, NodeLinks>)
    returns (r: Result<map<EdgeKey, set<EdgeKey>>, EnhanceError>)
    requires OutgoingLinks(links, edges)
    requires forall k :: k in edges && k.v.Some? ==> k.v.value in links
    ensures r.Ok? <==> forall k :: k in edges ==> k.v.Some?
    ensures r.Ok? ==> r.value.Keys == edges.Keys && forall k :: k in edges ==> k.v.Some? && r.value[k] == DirSwitch(k, edges)
  {
    var m: map<EdgeKey, set<EdgeKey>> := map[];
    var todo := edges.Keys;
    while todo != {}
      invariant todo <= edges.Keys && m.Keys <= edges.Keys
      invariant forall k :: k in edges ==> (k in m <==> k !in todo)
      invariant forall k :: k in m ==> k.v.Some? && m[k] == DirSwitch(k, edges)
      decreases |todo|
    {
      var k :| k in todo;
      if k.v.None? {
        return Err(OpenEnd(k));
      }
      var from := links[k.v.value].from;
      var next, slow := FindContinuations(k, from, edges);
      var regular := set e | e in next && !slow[e];
      m := m[k := from - regular];
      todo := todo - {k};
    }
    r := Ok(m);
  }

  /** A stand edge that touches a ramp node. */
  predicate IsRampEdge(k: EdgeKey, ramps: set<NodeId>, edges: map<EdgeKey, EdgeRecord>)
    requires k in edges
  {
    edges[k].edgeType == Stand && ((k.u.Some? && k.u.value in ramps) || (k.v.Some? && k.v.value in ramps))
  }

  /** All stand edges touching one of `ramps`. */
  function RampEdgeSet(ramps: set<NodeId>, edges: map<EdgeKey, EdgeRecord>): set<EdgeKey>
  {
    set k | k in edges && IsRampEdge(k, ramps, edges)
  }

  /** One more ramp node adds exactly its outgoing and incoming stand edges. */
  lemma RampEdgeSetAdd(ramps: set<NodeId>, n: NodeId, edges: map<EdgeKey, EdgeRecord>)
    ensures RampEdgeSet(ramps + {n}, edges)
            == RampEdgeSet(ramps, edges) + StandEdges(From(edges.Keys, n), edges) + StandEdges(To(edges.Keys, n), edges)
  {
  }

  /** The stand edges leaving and reaching one ramp node. */
  method RampOf(r: NodeId, links: map<NodeId, NodeLinks>, edges: map<EdgeKey, EdgeRecord>)
    returns (f: set<EdgeKey>, t: set<EdgeKey>)
    requires r in links && links[r].from == From(edges.Keys, r) && links[r].to == To(edges.Keys, r)
    ensures f == StandEdges(From(edges.Keys, r), edges) && t == StandEdges(To(edges.Keys, r), edges)
  {
    f := FilterStand(links[r].from, edges);
    t := FilterStand(links[r].to, edges);
  }

  /** What the ramp pass has built once the ramp nodes in `done` are handled. */
  predicate RampsDone(done: set<NodeId>, from: map<NodeId, set<EdgeKey>>, to: map<NodeId, set<EdgeKey>>,
                      all: set<EdgeKey>, edges: map<EdgeKey, EdgeRecord>)
  {
    && from.Keys == done && to.Keys == done
    && (forall m :: m in from ==> from[m] == StandEdges(From(edges.Keys, m), edges))
    && (forall m :: m in to ==> to[m] == StandEdges(To(edges.Keys, m), edges))
    && all == RampEdgeSet(done, edges)
  }

  lemma RampsDoneStep(done: set<NodeId>, from: map<NodeId, set<EdgeKey>>, to: map<NodeId, set<EdgeKey>>,
                      all: set<EdgeKey>, edges: map<EdgeKey, EdgeRecord>, r: NodeId, f: set<EdgeKey>, t: set<EdgeKey>)
    requires RampsDone(done, from, to, all, edges)
    requires f == StandEdges(From(edges.Keys, r), edges) && t == StandEdges(To(edges.Keys, r), edges)
    ensures RampsDone(done + {r}, from[r := f], to[r := t], all + f + t, edges)
  {
    RampEdgeSetAdd(done, r, edges);
  }

  /**
   * The ramp pass: for every ramp node the stand edges leaving and reaching
   * it, and the set of all of them.
   */
  method RampEdges(ramps: set<NodeId>, links: map<NodeId, NodeLinks>, edges: map<EdgeKey, EdgeRecord>)
    returns (from: map<NodeId, set<EdgeKey>>, to: map<NodeId, set<EdgeKey>>, all: set<EdgeKey>)
    requires ramps <= links.Keys && OutgoingLinks(links, edges) && IncomingLinks(links, edges)
    ensures RampsDone(ramps, from, to, all, edges)
  {
    from, to, all := map[], map[], {};
    var todo, done := ramps, {};
    while todo != {}
      invariant todo <= ramps && done <= ramps
      invariant forall m :: m in ramps ==> (m in done <==> m !in todo)
      invariant RampsDone(done, from, to, all, edges)
      decreases |todo|
    {
      var r :| r in todo;
      var f, t := RampOf(r, links, edges);
      RampsDoneStep(done, from, to, all, edges, r, f, t);
      from, to, all := from[r := f], to[r := t], all + f + t;
      todo, done := todo - {r}, done + {r};
    }
    assert done == ramps;
  }

  /* ---------- the whole of enhance_imports ---------- */

  /** Everything `enhance_imports` adds to the node and edge tables. */
  datatype Enhancement = Enhancement(
    links: map<NodeId, NodeLinks>,
    rampFrom: map<NodeId, set<EdgeKey>>,          // edges_from_ramp
    rampTo: map<NodeId, set<EdgeKey>>,            // edges_to_ramp
    rampEdges: set<EdgeKey>,                      // ramp_edges_set
    types: map<NodeId, NodeType>,                 // node types after the service-road pass
    next: map<EdgeKey, set<EdgeKey>>,             // next_edges
    slowTurn: map<EdgeKey, map<EdgeKey, bool>>,   // next_edges_isSlowTurn
    dirSwitch: map<EdgeKey, set<EdgeKey>>)        // next_edges_dirSwitch

  /** Every key's nodes exist and every key has an end node: the lookups of `enhance_imports` succeed. */
  predicate Enhanceable(nodes: set<NodeId>, edges: map<EdgeKey, EdgeRecord>)
  {
    forall k :: k in edges ==> EndsKnown(k, nodes) && k.v.Some?
  }

  /** What `enhance_imports` adds when its lookups succeed. */
  function Enhanced(types: map<NodeId, NodeType>, ramps: set<NodeId>, edges: map<EdgeKey, EdgeRecord>): Enhancement
    requires Enhanceable(types.Keys, edges)
  {
    Enhancement(
      map n | n in types :: LinksOf(edges.Keys, n),
      map m | m in ramps :: StandEdges(From(edges.Keys, m), edges),
      map m | m in ramps :: StandEdges(To(edges.Keys, m), edges),
      RampEdgeSet(ramps, edges),
      map n | n in types :: Reclassified(types[n], From(edges.Keys, n), edges),
      map k | k in edges :: NextEdges(k, edges),
      map k | k in edges :: SlowTurns(k, edges),
      map k | k in edges :: DirSwitch(k, edges))
  }

  lemma LinksAre(types: map<NodeId, NodeType>, keys: set<EdgeKey>, links: map<NodeId, NodeLinks>)
    requires links.Keys == types.Keys && forall n :: n in types ==> links[n] == LinksOf(keys, n)
    ensures links == map n | n in types :: LinksOf(keys, n)
  {
  }

  lemma RampsAre(ramps: set<NodeId>, from: map<NodeId, set<EdgeKey>>, to: map<NodeId, set<EdgeKey>>,
                 all: set<EdgeKey>, edges: map<EdgeKey, EdgeRecord>)
    requires RampsDone(ramps, from, to, all, edges)
    ensures from == map m | m in ramps :: StandEdges(From(edges.Keys, m), edges)
    ensures to == map m | m in ramps :: StandEdges(To(edges.Keys, m), edges)
  {
  }

  lemma TypesAre(types: map<NodeId, NodeType>, edges: map<EdgeKey, EdgeRecord>, retyped: map<NodeId, NodeType>)
    requires retyped.Keys == types.Keys
    requires forall n :: n in types ==> retyped[n] == Reclassified(types[n], From(edges.Keys, n), edges)
    ensures retyped == map n | n in types :: Reclassified(types[n], From(edges.Keys, n), edges)
  {
  }

  lemma ContinuationsAre(edges: map<EdgeKey, EdgeRecord>, next: map<EdgeKey, set<EdgeKey>>,
                         slow: map<EdgeKey, map<EdgeKey, bool>>, switches: map<EdgeKey, set<EdgeKey>>)
    requires forall k :: k in edges ==> k.v.Some?
    requires next.Keys == edges.Keys && slow.Keys == edges.Keys && switches.Keys == edges.Keys
    requires forall k :: k in edges ==> next[k] == NextEdges(k, edges) && slow[k] == SlowTurns(k, edges)
    requires forall k :: k in edges ==> switches[k] == DirSwitch(k, edges)
    ensures next == map k | k in edges :: NextEdges(k, edges)
    ensures slow == map k | k in edges :: SlowTurns(k, edges)
    ensures switches == map k | k in edges :: DirSwitch(k, edges)
  {
  }

  /** The tables built one by one make up the enhancement. */
  lemma Assembled(types: map<NodeId, NodeType>, ramps: set<NodeId>, edges: map<EdgeKey, EdgeRecord>,
                  links: map<NodeId, NodeLinks>, from: map<NodeId, set<EdgeKey>>, to: map<NodeId, set<EdgeKey>>,
                  all: set<EdgeKey>, retyped: map<NodeId, NodeType>, next: map<EdgeKey, set<EdgeKey>>,
                  slow: map<EdgeKey, map<EdgeKey, bool>>, switches: map<EdgeKey, set<EdgeKey>>)
    requires Enhanceable(types.Keys, edges)
    requires links.Keys == types.Keys && forall n :: n in types ==> links[n] == LinksOf(edges.Keys, n)
    requires RampsDone(ramps, from, to, all, edges)
    requires retyped.Keys == types.Keys
    requires forall n :: n in types ==> retyped[n] == Reclassified(types[n], From(edges.Keys, n), edges)
    requires next.Keys == edges.Keys && slow.Keys == edges.Keys && switches.Keys == edges.Keys
    requires forall k :: k in edges ==> next[k] == NextEdges(k, edges) && slow[k] == SlowTurns(k, edges)
    requires forall k :: k in edges ==> switches[k] == DirSwitch(k, edges)
    ensures Enhancement(links, from, to, all, retyped, next, slow, switches) == Enhanced(types, ramps, edges)
  {
    LinksAre(types, edges.Keys, links);
    RampsAre(ramps, from, to, all, edges);
    TypesAre(types, edges, retyped);
    ContinuationsAre(edges, next, slow, switches);
  }

  /**
   * `enhance_imports` over the node types, the ramp nodes and the edge map:
   * it fails exactly when a key names an unknown node or has no end node.
   */
  method EnhanceAll(types: map<NodeId, NodeType>, ramps: set<NodeId>, edges: map<EdgeKey, EdgeRecord>)
    returns (r: Result<Enhancement, EnhanceError>)
    requires ramps <= types.Keys
    ensures r.Ok? <==> Enhanceable(types.Keys, edges)
    ensures r.Ok? ==> r.value == Enhanced(types, ramps, edges)
  {
    var links :- BuildAdjacency(types.Keys, edges.Keys);
    AdjacencyParts(links, edges);
    var from, to, all := RampEdges(ramps, links, edges);
    var retyped := ReclassifyAll(types, links, edges);
    var next, slow := AllContinuations(edges, links);
    var switches :- AllDirSwitches(edges, links);
    Assembled(types, ramps, edges, links, from, to, all, retyped, next, slow, switches);
    r := Ok(Enhancement(links, from, to, all, retyped, next, slow, switches));
  }
}
