/**
 * The strip level of `Layout.create_runway_data` (src/Layout/Layout.py):
 * the special `crossing` and `ahead` edges are filed under the strip or
 * runway direction their name names; each strip walks both directions,
 * hands each direction's exits to the other as entries, follows the
 * special edges to their stop bars, and checks that every stop bar of the
 * strip is accounted for; finally every walked edge becomes a runway edge.
 */
module RunwayStrips {
  import opened Wrappers
  import opened Strings
  import opened Graph
  import opened Edges
  import Nodes
  import Angles
  import opened Runways

  // ---------------------------------------------------------------------------
  // Special edges
  // ---------------------------------------------------------------------------

  /** `k` is the first of `names` that occurs in `s`. */
  ghost predicate IsFirst(names: seq<string>, s: string, k: string)
  {
    exists i :: 0 <= i < |names| && names[i] == k && Contains(s, k) && forall j :: 0 <= j < i ==> !Contains(s, names[j])
  }

  /** The `for k in ...: if k in edge_name: ...; break` lookup. */
  function FirstContained(names: seq<string>, s: string): (r: Option<string>)
    ensures r.Some? ==> IsFirst(names, s, r.value)
    ensures r.None? <==> forall k :: k in names ==> !Contains(s, k)
  {
    if names == [] then None
    else if Contains(s, names[0]) then
      assert IsFirst(names, s, names[0]) by { assert names[0] == names[0]; }
      Some(names[0])
    else
      var rest := FirstContained(names[1..], s);
      assert rest.None? ==> forall k :: k in names ==> !Contains(s, k) by {
        if rest.None? {
          forall k | k in names ensures !Contains(s, k) {
            if k != names[0] { assert k in names[1..]; }
          }
        }
      }
      assert rest.Some? ==> IsFirst(names, s, rest.value) by {
        if rest.Some? {
          var i :| 0 <= i < |names[1..]| && names[1..][i] == rest.value && Contains(s, rest.value)
                   && forall j :: 0 <= j < i ==> !Contains(s, names[1..][j]);
          assert names[i + 1] == rest.value;
          forall j | 0 <= j < i + 1 ensures !Contains(s, names[j]) {
            if j > 0 { assert names[j] == names[1..][j - 1]; }
          }
        }
      }
      rest
  }

  /** Where an edge is filed by its name. */
  datatype Filing =
    | Plain                 // no name, or neither `crossing` nor `ahead` in it
    | Crossing(strip: string)
    | Ahead(dir: string)
    | Unfiled               // a special name that names no strip or direction

  /** The name marks a special edge: it is not empty and holds `crossing` or `ahead`. */
  predicate SpecialName(name: Option<string>)
  {
    name.Some? && name.value != "" && (Contains(name.value, "crossing") || Contains(name.value, "ahead"))
  }

  /**
   * A `crossing` edge goes under the first strip its name contains, any
   * other `ahead` edge under the first runway direction its name contains.
   */
  function FilingOf(name: Option<string>, strips: seq<string>, runways: seq<string>): (f: Filing)
    ensures f == Plain <==> !SpecialName(name)
    ensures f.Crossing? <==> SpecialName(name) && Contains(name.value, "crossing") && exists k :: k in strips && Contains(name.value, k)
    ensures f.Ahead? <==> SpecialName(name) && !Contains(name.value, "crossing") && exists k :: k in runways && Contains(name.value, k)
    ensures f.Crossing? ==> IsFirst(strips, name.value, f.strip)
    ensures f.Ahead? ==> IsFirst(runways, name.value, f.dir)
  {
    if !SpecialName(name) then Plain
    else if Contains(name.value, "crossing") then
      match FirstContained(strips, name.value)
      case Some(k) => Crossing(k)
      case None => Unfiled
    else
      match FirstContained(runways, name.value)
      case Some(k) => Ahead(k)
      case None => Unfiled
  }

  /** The special edges: `crossing` edges per strip, `ahead` edges per runway direction. */
  datatype Special = Special(crossing: map<string, set<EdgeKey>>, ahead: map<string, set<EdgeKey>>)

  /** The error for an edge whose special name names nothing: the failed `assert rwy_strip` or `assert rwy`. */
  function UnfiledError(key: EdgeKey, name: string): RunwayError
  {
    if Contains(name, "crossing") then CrossingWithoutStrip(key) else AheadWithoutRunway(key)
  }

  /** The group key of a filing in the `crossing` groups (`crossing` true) or the `ahead` groups. */
  function GroupKey(f: Filing, crossing: bool): Option<string>
  {
    if crossing && f.Crossing? then Some(f.strip)
    else if !crossing && f.Ahead? then Some(f.dir)
    else None
  }

  /** The group key of every edge, in the `crossing` groups (`crossing` true) or the `ahead` groups. */
  function GroupKeys(edges: map<EdgeKey, EdgeRecord>, strips: seq<string>, runways: seq<string>, crossing: bool)
    : (r: map<EdgeKey, Option<string>>)
    ensures r.Keys == edges.Keys
  {
    map k | k in edges :: GroupKey(FilingOf(edges[k].edgeName, strips, runways), crossing)
  }

  /** Each group holds exactly the edges of `done` with its key, and no group is empty. */
  ghost predicate GroupsExact(keys: map<EdgeKey, Option<string>>, done: set<EdgeKey>, groups: map<string, set<EdgeKey>>)
    requires done <= keys.Keys
  {
    && (forall x :: x in groups ==> groups[x] != {})
    && (forall x, k :: x in groups && k in groups[x] ==> k in done && keys[k] == Some(x))
    && (forall k :: k in done && keys[k].Some? ==> keys[k].value in groups && k in groups[keys[k].value])
  }

  /** Both kinds of group are exact. */
  ghost predicate FiledAs(edges: map<EdgeKey, EdgeRecord>, strips: seq<string>, runways: seq<string>, done: set<EdgeKey>, sp: Special)
    requires done <= edges.Keys
  {
    && GroupsExact(GroupKeys(edges, strips, runways, true), done, sp.crossing)
    && GroupsExact(GroupKeys(edges, strips, runways, false), done, sp.ahead)
  }

  /** `data.setdefault(key, set()).add(edge_id)`, or nothing for an edge without a key. */
  function AddToGroup(groups: map<string, set<EdgeKey>>, k: EdgeKey, key: Option<string>): map<string, set<EdgeKey>>
  {
    match key
    case Some(x) => groups[x := (if x in groups then groups[x] else {}) + {k}]
    case None => groups
  }

  /** Filing one more edge keeps a kind of group exact. */
  lemma AddToGroupExact(keys: map<EdgeKey, Option<string>>, done: set<EdgeKey>, groups: map<string, set<EdgeKey>>, k: EdgeKey)
    requires done <= keys.Keys && k in keys && k !in done && GroupsExact(keys, done, groups)
    ensures GroupsExact(keys, done + {k}, AddToGroup(groups, k, keys[k]))
  {
    var g' := AddToGroup(groups, k, keys[k]);
    forall x, y | x in g' && y in g'[x] ensures y in done + {k} && keys[y] == Some(x) {
      if y != k {
        assert x in groups && y in groups[x];
      }
    }
  }

  /**
   * The first loop of `create_runway_data`: every edge with a special name
   * is filed; it fails on an edge whose special name names no strip or
   * direction.
   */
  method SpecialEdges(edges: map<EdgeKey, EdgeRecord>, strips: seq<string>, runways: seq<string>)
    returns (r: Result<Special, RunwayError>)
    ensures r.Ok? <==> forall k :: k in edges ==> FilingOf(edges[k].edgeName, strips, runways) != Unfiled
    ensures r.Ok? ==> FiledAs(edges, strips, runways, edges.Keys, r.value)
    ensures r.Err? ==> exists k :: k in edges && FilingOf(edges[k].edgeName, strips, runways) == Unfiled
                                  && r.error == UnfiledError(k, edges[k].edgeName.value)
  {
    var sp := Special(map[], map[]);
    var todo, done := edges.Keys, {};
    while todo != {}
      invariant todo <= edges.Keys && done <= edges.Keys
      invariant forall k :: k in edges ==> (k in done <==> k !in todo)
      invariant forall k :: k in done ==> FilingOf(edges[k].edgeName, strips, runways) != Unfiled
      invariant FiledAs(edges, strips, runways, done, sp)
      decreases |todo|
    {
      var k :| k in todo;
      var name := edges[k].edgeName;
      var f := FilingOf(name, strips, runways);
      if f == Unfiled {
        return Err(UnfiledError(k, name.value));
      }
      AddToGroupExact(GroupKeys(edges, strips, runways, true), done, sp.crossing, k);
      AddToGroupExact(GroupKeys(edges, strips, runways, false), done, sp.ahead, k);
      sp := Special(AddToGroup(sp.crossing, k, GroupKey(f, true)), AddToGroup(sp.ahead, k, GroupKey(f, false)));
      todo, done := todo - {k}, done + {k};
    }
    assert done == edges.Keys;
    r := Ok(sp);
  }

  // ---------------------------------------------------------------------------
  // Following special edges to their stop bars
  // ---------------------------------------------------------------------------

  /** What a search from special edges found: the edges it examined and the stop bars it stopped at. */
  datatype Reach = Reach(examined: set<EdgeKey>, stopbars: set<NodeId>)

  /**
   * The search is complete: the continuations of the seeds are examined, and
   * so are those of every examined edge that does not end at a stop bar;
   * every examined edge that ends at a stop bar has its stop bar recorded.
   */
  ghost predicate Complete(g: Topology, table: NodeTable, seeds: set<EdgeKey>, examined: set<EdgeKey>, stopbars: set<NodeId>)
  {
    && (forall s, x :: s in seeds && Continues(g, s, x) ==> x in examined)
    && (forall e, x :: e in examined && !EndsAtStopbar(table, e) && Continues(g, e, x) ==> x in examined)
    && (forall e :: e in examined && EndsAtStopbar(table, e) ==> e.v.value in stopbars)
  }

  /**
   * Edge `x` is a continuation of a seed, or of an examined edge that does
   * not end at a stop bar and was examined before rank `r`.
   */
  ghost predicate ReachedBelow(g: Topology, table: NodeTable, seeds: set<EdgeKey>, examined: set<EdgeKey>,
                               rank: map<EdgeKey, nat>, x: EdgeKey, r: nat)
  {
    || (exists s :: s in seeds && Continues(g, s, x))
    || (exists e :: e in examined && e in rank && rank[e] < r && !EndsAtStopbar(table, e) && Continues(g, e, x))
  }

  /** `rank` orders the examined edges so that each was reached from a seed or from an edge ranked below it. */
  ghost predicate Ranked(g: Topology, table: NodeTable, seeds: set<EdgeKey>, examined: set<EdgeKey>, rank: map<EdgeKey, nat>)
  {
    && examined <= rank.Keys
    && forall x {:trigger x in examined} :: x in examined ==> ReachedBelow(g, table, seeds, examined, rank, x, rank[x])
  }

  /**
   * The search finds nothing else: the examined edges can be ordered so that
   * each was reached from a seed or from an earlier examined edge that does
   * not end at a stop bar, and every stop bar is the end of an examined edge.
   */
  ghost predicate Sound(g: Topology, table: NodeTable, seeds: set<EdgeKey>, examined: set<EdgeKey>, stopbars: set<NodeId>)
  {
    && (exists rank :: Ranked(g, table, seeds, examined, rank))
    && (forall n {:trigger Stopped(table, examined, n)} :: n in stopbars ==> Stopped(table, examined, n))
  }

  /** Node `n` ends an examined edge at a stop bar. */
  ghost predicate Stopped(table: NodeTable, examined: set<EdgeKey>, n: NodeId)
  {
    exists e :: e in examined && EndsAtStopbar(table, e) && e.v == Some(n)
  }

  /**
   * A trail of the search: it starts with a continuation of a seed, each
   * later edge continues the one before it, and every edge but the last is
   * examined and does not end at a stop bar.
   */
  ghost predicate Trail(g: Topology, table: NodeTable, seeds: set<EdgeKey>, examined: set<EdgeKey>, trail: seq<EdgeKey>)
  {
    && |trail| > 0
    && (exists s :: s in seeds && Continues(g, s, trail[0]))
    && (forall i :: 0 < i < |trail| ==> Continues(g, trail[i - 1], trail[i]))
    && (forall i :: 0 <= i < |trail| - 1 ==> trail[i] in examined && !EndsAtStopbar(table, trail[i]))
  }

  /** Every edge a sound search examines is at the end of a trail from a seed. */
  lemma {:induction false} SoundIsRooted(g: Topology, table: NodeTable, seeds: set<EdgeKey>, examined: set<EdgeKey>,
                                         rank: map<EdgeKey, nat>, x: EdgeKey)
    requires Ranked(g, table, seeds, examined, rank) && x in examined
    ensures exists trail :: Trail(g, table, seeds, examined, trail) && trail[|trail| - 1] == x
    decreases rank[x]
  {
    if exists s :: s in seeds && Continues(g, s, x) {
      assert Trail(g, table, seeds, examined, [x]);
    } else {
      var e :| e in examined && e in rank && rank[e] < rank[x] && !EndsAtStopbar(table, e) && Continues(g, e, x);
      SoundIsRooted(g, table, seeds, examined, rank, e);
      var trail :| Trail(g, table, seeds, examined, trail) && trail[|trail| - 1] == e;
      var t := trail + [x];
      assert forall i :: 0 <= i < |trail| ==> t[i] == trail[i];
      assert Trail(g, table, seeds, examined, t);
    }
  }

  /** A sound search from no special edges examines nothing and finds no stop bar. */
  lemma NothingWithoutSeeds(g: Topology, table: NodeTable, examined: set<EdgeKey>, stopbars: set<NodeId>)
    requires Sound(g, table, {}, examined, stopbars)
    ensures examined == {} && stopbars == {}
  {
    var rank :| Ranked(g, table, {}, examined, rank);
    assert examined == {} by {
      if examined != {} {
        var x :| x in examined;
        SoundIsRooted(g, table, {}, examined, rank, x);
        assert false;
      }
    }
    forall n ensures n !in stopbars {
      assert !Stopped(table, examined, n);
    }
  }

  /** Examining one more edge of `all` leaves fewer to examine. */
  lemma FewerLeft(all: set<EdgeKey>, examined: set<EdgeKey>, e: EdgeKey)
    requires e in all && e !in examined
    ensures |all - (examined + {e})| < |all - examined|
  {
    assert all - examined == (all - (examined + {e})) + {e};
  }

  /**
   * The state of the search: what is examined, ranked in the order of
   * examination, and what is still to check, each reached before the next
   * rank.
   */
  ghost predicate SearchState(g: Topology, table: NodeTable, seeds: set<EdgeKey>,
                              todo: set<EdgeKey>, examined: set<EdgeKey>, stopbars: set<NodeId>, rank: map<EdgeKey, nat>)
  {
    && todo <= g.edges.Keys && examined <= g.edges.Keys
    && Ranked(g, table, seeds, examined, rank)
    && (forall x :: x in examined ==> rank[x] < |examined|)
    && (forall x :: x in todo ==> x !in examined && ReachedBelow(g, table, seeds, examined, rank, x, |examined|))
    && (forall s, x :: s in seeds && Continues(g, s, x) ==> x in examined || x in todo)
    && (forall e, x :: e in examined && !EndsAtStopbar(table, e) && Continues(g, e, x) ==> x in examined || x in todo)
    && (forall e :: e in examined && EndsAtStopbar(table, e) ==> e.v.value in stopbars)
    && (forall n {:trigger Stopped(table, examined, n)} :: n in stopbars ==> Stopped(table, examined, n))
  }

  /** Ranking one more edge above all others keeps every edge reached below the rank it was reached below. */
  lemma ReachedGrows(g: Topology, table: NodeTable, seeds: set<EdgeKey>, examined: set<EdgeKey>, rank: map<EdgeKey, nat>,
                     e: EdgeKey, x: EdgeKey, r: nat, r': nat)
    requires e !in examined && examined <= rank.Keys && r <= r'
    requires ReachedBelow(g, table, seeds, examined, rank, x, r)
    ensures ReachedBelow(g, table, seeds, examined + {e}, rank[e := |examined|], x, r')
  {
    if !exists s :: s in seeds && Continues(g, s, x) {
      var e0 :| e0 in examined && e0 in rank && rank[e0] < r && !EndsAtStopbar(table, e0) && Continues(g, e0, x);
      assert e0 != e && e0 in examined + {e};
    }
  }

  /** One pass of the search loop: `e` is examined; its stop bar is recorded, or its continuations are queued. */
  method SearchStep(g: Topology, table: NodeTable, seeds: set<EdgeKey>, todo: set<EdgeKey>, examined: set<EdgeKey>,
                    stopbars: set<NodeId>, ghost rank: map<EdgeKey, nat>, e: EdgeKey)
    returns (todo': set<EdgeKey>, examined': set<EdgeKey>, stopbars': set<NodeId>, ghost rank': map<EdgeKey, nat>)
    requires TopologyOk(g, table.Keys) && SearchState(g, table, seeds, todo, examined, stopbars, rank) && e in todo
    ensures SearchState(g, table, seeds, todo', examined', stopbars', rank')
    ensures examined' == examined + {e}
  {
    examined' := examined + {e};
    rank' := rank[e := |examined|];
    forall x | x in examined' ensures ReachedBelow(g, table, seeds, examined', rank', x, rank'[x]) {
      if x == e {
        ReachedGrows(g, table, seeds, examined, rank, e, x, |examined|, |examined|);
      } else {
        ReachedGrows(g, table, seeds, examined, rank, e, x, rank[x], rank[x]);
      }
    }
    todo' := todo - {e};
    forall x | x in todo' ensures ReachedBelow(g, table, seeds, examined', rank', x, |examined'|) {
      ReachedGrows(g, table, seeds, examined, rank, e, x, |examined|, |examined'|);
    }
    stopbars' := stopbars;
    if EndsAtStopbar(table, e) {
      stopbars' := stopbars + {e.v.value};
    } else {
      var more := g.next[e] - examined';
      forall x | x in more ensures ReachedBelow(g, table, seeds, examined', rank', x, |examined'|) {
        assert e in examined' && rank'[e] < |examined'| && Continues(g, e, x);
      }
      todo' := todo' + more;
    }
    forall n | n in stopbars' ensures Stopped(table, examined', n) {
      if n in stopbars {
        assert Stopped(table, examined, n);
        var e0 :| e0 in examined && EndsAtStopbar(table, e0) && e0.v == Some(n);
        assert e0 in examined';
      } else {
        assert e in examined';
      }
    }
  }

  /**
   * The `while eids_to_check` searches of one group of special edges: the
   * continuations are followed until they end at a stop bar. The searches of
   * the group's edges are one search here, and an edge is examined once.
   */
  method Search(g: Topology, table: NodeTable, seeds: set<EdgeKey>) returns (r: Reach)
    requires TopologyOk(g, table.Keys) && seeds <= g.edges.Keys
    ensures r.examined <= g.edges.Keys
    ensures Complete(g, table, seeds, r.examined, r.stopbars)
    ensures Sound(g, table, seeds, r.examined, r.stopbars)
  {
    var todo := set s, x | s in seeds && x in g.next[s] :: x;
    var examined: set<EdgeKey> := {};
    var stopbars: set<NodeId> := {};
    ghost var rank: map<EdgeKey, nat> := map[];
    while todo != {}
      invariant SearchState(g, table, seeds, todo, examined, stopbars, rank)
      decreases |g.edges.Keys - examined|
    {
      var e :| e in todo;
      FewerLeft(g.edges.Keys, examined, e);
      todo, examined, stopbars, rank := SearchStep(g, table, seeds, todo, examined, stopbars, rank, e);
    }
    r := Reach(examined, stopbars);
    assert Ranked(g, table, seeds, examined, rank);
  }

  /** The edges of a set, each reversed. */
  function Reversed(s: set<EdgeKey>): (r: set<EdgeKey>)
    ensures forall x {:trigger x in r} :: x in r <==> x.Rev() in s
  {
    var r := set e | e in s :: e.Rev();
    assert forall x: EdgeKey :: x.Rev() in s ==> x in r by {
      forall x: EdgeKey | x.Rev() in s ensures x in r { assert x.Rev().Rev() == x; }
    }
    r
  }

  /**
   * The stop-bar record of a group of special edges: the stop bars found, and
   * the special edges with every examined edge in both directions, less the
   * edges already recorded for the exits (and, for crossings, the entries).
   */
  function AroundStopbars(seeds: set<EdgeKey>, r: Reach, taken: set<EdgeKey>): (sb: StopbarSet)
    ensures sb.nodes == r.stopbars
    ensures forall e {:trigger e in sb.edges} :: e in sb.edges <==> e !in taken && (e in seeds || e in r.examined || e.Rev() in r.examined)
  {
    StopbarSet(r.stopbars, (seeds + r.examined + Reversed(r.examined)) - taken)
  }

  // ---------------------------------------------------------------------------
  // One strip
  // ---------------------------------------------------------------------------

  /** A runway direction's threshold: its node, its heading, and the edges whose segment headings keep that heading. */
  datatype Threshold = Threshold(node: NodeId, heading: real, aligned: set<EdgeKey>)

  /** A strip as the walk finds it: its name, its stop bars, its rapid-exit stop bars and the thresholds of its directions. */
  datatype StripInput = StripInput(name: string, stopbars: set<NodeId>, ret: set<NodeId>, thresholds: map<string, Threshold>)

  /** What a runway direction holds after the walk. */
  datatype DirectionData = DirectionData(
    heading: real,
    bearing: real,
    nodes: seq<NodeId>,
    edges: seq<EdgeKey>,
    exits: map<EdgeKey, Exit>,
    stopbarsExits: StopbarSet,
    entries: map<EdgeKey, Entry>,
    stopbarsEntries: StopbarSet,
    crossings: StopbarSet,
    ahead: StopbarSet,
    behind: StopbarSet)

  /** What a strip holds after the walk: its two directions and the runway nodes and edges of both. */
  datatype StripData = StripData(dir1: string, dir2: string, first: DirectionData, second: DirectionData,
                                 rwyNodes: set<NodeId>, rwyEdges: set<EdgeKey>)

  /**
   * A direction's data comes from a walk from its threshold: a chain of
   * heading-keeping edges, exits that leave it towards stop bars known
   * before the walk, each exit recorded reversed as an entry of the
   * opposite direction.
   */
  ghost predicate DirectionOk(t: Threshold, g: Topology, table0: NodeTable, d: DirectionData, opposite: DirectionData)
  {
    && ChainOk(t.node, t.aligned, g, d.nodes, d.edges) && g.from[t.node] == {d.edges[0]}
    && Maximal(t.aligned, g, d.edges[|d.edges| - 1])
    && (exists rounds :: DirectionRounds(t, g, table0, d, opposite, rounds))
    && StopbarsKnown(g, table0, d.stopbarsExits)
    && ExitsRecorded(t.aligned, g, d.exits, d.stopbarsExits)
    && ExitsReached(g, d.edges, d.exits)
    && Runways.Mirrored(d.exits, opposite.entries)
    && d.heading == t.heading && d.bearing == Angles.HeadingToBearing(t.heading)
  }

  /**
   * The rounds of a direction's walk: they start at the threshold edge, go
   * on along heading-keeping continuations among the chain edges and end at
   * its last edge. When neither walk of the strip re-types a stop bar, the
   * exits are exactly the continuations the rounds visited that do not keep
   * the heading and have stop bars behind them on the table before the
   * strip, each with the length walked when it was last visited.
   */
  ghost predicate DirectionRounds(t: Threshold, g: Topology, table0: NodeTable, d: DirectionData, opposite: DirectionData,
                                  rounds: seq<EdgeKey>)
  {
    && |d.edges| > 0 && |rounds| > 0 && rounds[|rounds| - 1] == d.edges[|d.edges| - 1]
    && RunOk(t.aligned, g, d.edges[0], rounds)
    && (forall i :: 0 <= i < |rounds| ==> rounds[i] in d.edges)
    && (Clear(table0, d.nodes) && Clear(table0, opposite.nodes) ==>
          ExitsExact(t.aligned, g, table0, d.exits, d.stopbarsExits, Visited(g, rounds)) && LengthsExact(g, d.exits, rounds))
  }

  /**
   * The node table after both walks: the nodes the second direction walked
   * past its threshold edge carry its name, the others the first walked
   * carry the first's, and the rest are unchanged.
   */
  ghost predicate StripTableOk(d1: string, d2: string, table0: NodeTable, nodes1: seq<NodeId>, nodes2: seq<NodeId>, table: NodeTable)
  {
    && |nodes1| >= 2 && |nodes2| >= 2 && table.Keys == table0.Keys
    && forall n :: n in table0 ==>
         table[n] == if n in nodes2[2..] then Retyped(table0[n], d2)
                     else if n in nodes1[2..] then Retyped(table0[n], d1)
                     else table0[n]
  }

  /** Two walks one after the other re-type the union of what they walked, the later name winning. */
  lemma TwoTables(d1: string, d2: string, table0: NodeTable, nodes1: seq<NodeId>, table1: NodeTable, nodes2: seq<NodeId>, table2: NodeTable)
    requires TableOk(d1, table0, nodes1, table1) && TableOk(d2, table1, nodes2, table2)
    ensures StripTableOk(d1, d2, table0, nodes1, nodes2, table2)
  {
  }

  /** A stop bar after a walk was a stop bar before it: the walk only makes runway intersections. */
  lemma StopbarsBefore(dir: string, g: Topology, table0: NodeTable, nodes: seq<NodeId>, table1: NodeTable, sb: StopbarSet)
    requires TableOk(dir, table0, nodes, table1) && StopbarsKnown(g, table1, sb)
    ensures StopbarsKnown(g, table0, sb)
  {
    forall n | n in sb.nodes ensures n in table0 && table0[n].nodeType == Stopbar {
      assert n in table1;
    }
  }

  /** The walks of both directions, the second on the node table the first left. */
  method WalkBoth(name: string, t1: Threshold, t2: Threshold, d1: string, d2: string, ret: set<NodeId>, g: Topology, table0: NodeTable)
    returns (r: Result<(Walk, Walk), RunwayError>)
    requires TopologyOk(g, table0.Keys) && t1.node in table0 && t2.node in table0
    ensures r.Err? ==> r.error.ThresholdEdgeCount? || r.error.EndlessWalk? || r.error.EndlessExitSearch?
    ensures r.Err? ==> WalkError(d1, t1, d2, t2, g, r.error)
    ensures BothWalked(d1, t1, d2, t2, g, table0, r)
    ensures r.Ok? ==> r.value.1.table.Keys == table0.Keys
  {
    var w1 :- WalkDirection(d1, t1.node, t1.aligned, ret, g, table0);
    var w2 :- WalkDirection(d2, t2.node, t2.aligned, ret, g, w1.table);
    r := Ok((w1, w2));
  }

  /**
   * The cause of a failed walk of either direction: its threshold node has
   * not exactly one outgoing edge, its heading-keeping edges run in a circle,
   * or the search behind one of its exits runs in a circle.
   */
  ghost predicate WalkError(d1: string, t1: Threshold, d2: string, t2: Threshold, g: Topology, e: RunwayError)
  {
    || (e.ThresholdEdgeCount? && e.dir == d1 && t1.node in g.from && e.count == |g.from[t1.node]| && e.count != 1)
    || (e.ThresholdEdgeCount? && e.dir == d2 && t2.node in g.from && e.count == |g.from[t2.node]| && e.count != 1)
    || (e.EndlessWalk? && e.dir == d1 && Circular(t1.aligned, g, t1.node))
    || (e.EndlessWalk? && e.dir == d2 && Circular(t2.aligned, g, t2.node))
    || (e.EndlessExitSearch? && e.key in g.edges && (e.key !in t1.aligned || e.key !in t2.aligned))
  }

  /** Both directions walked from their thresholds, the second continuing the first's node table. */
  ghost predicate BothWalked(d1: string, t1: Threshold, d2: string, t2: Threshold, g: Topology, table0: NodeTable,
                             r: Result<(Walk, Walk), RunwayError>)
  {
    match r
    case Ok((w1, w2)) => Walked(d1, t1, g, table0, Ok(w1)) && Walked(d2, t2, g, w1.table, Ok(w2))
    case Err(_) => true
  }

  /** A successful walk of direction `dir` from threshold `t`. */
  ghost predicate Walked(dir: string, t: Threshold, g: Topology, table0: NodeTable, r: Result<Walk, RunwayError>)
  {
    WalkedFrom(dir, t.node, t.aligned, g, table0, r)
  }

  /** The first direction's record, made of its walk, meets the direction's conditions. */
  lemma FirstDirection(d1: string, t1: Threshold, t2: Threshold, g: Topology, table0: NodeTable, w1: Walk, w2: Walk,
                       crossings: StopbarSet, ahead: StopbarSet, behind: StopbarSet)
    requires Walked(d1, t1, g, table0, Ok(w1))
    ensures DirectionOk(t1, g, table0, Direction(t1, w1, w2, crossings, ahead, behind), Direction(t2, w2, w1, crossings, behind, ahead))
  {
    assert DirectionRounds(t1, g, table0, Direction(t1, w1, w2, crossings, ahead, behind), Direction(t2, w2, w1, crossings, behind, ahead),
                           w1.rounds);
  }

  /** So does the second's, walked on the table the first left, as seen from the table before both. */
  lemma SecondDirection(d1: string, t1: Threshold, d2: string, t2: Threshold, g: Topology, table0: NodeTable, w1: Walk, w2: Walk,
                        crossings: StopbarSet, ahead: StopbarSet, behind: StopbarSet)
    requires Walked(d1, t1, g, table0, Ok(w1)) && Walked(d2, t2, g, w1.table, Ok(w2))
    ensures DirectionOk(t2, g, table0, Direction(t2, w2, w1, crossings, behind, ahead), Direction(t1, w1, w2, crossings, ahead, behind))
  {
    StopbarsBefore(d1, g, table0, w1.nodes, w1.table, w2.stopbars);
    SecondRounds(d1, t1, d2, t2, g, table0, w1, w2, Direction(t2, w2, w1, crossings, behind, ahead),
                 Direction(t1, w1, w2, crossings, ahead, behind));
  }

  /** The second walk's rounds are those of its direction's record, seen from the table before both walks. */
  lemma SecondRounds(d1: string, t1: Threshold, d2: string, t2: Threshold, g: Topology, table0: NodeTable, w1: Walk, w2: Walk,
                     d: DirectionData, opposite: DirectionData)
    requires Walked(d1, t1, g, table0, Ok(w1)) && Walked(d2, t2, g, w1.table, Ok(w2))
    requires d.nodes == w2.nodes && d.edges == w2.edges && d.exits == w2.exits && d.stopbarsExits == w2.stopbars
    requires opposite.nodes == w1.nodes
    ensures exists rounds :: DirectionRounds(t2, g, table0, d, opposite, rounds)
  {
    WalkRounds(d2, t2, g, w1.table, w2);
    SecondExact(d1, t1, d2, t2, g, table0, w1, w2);
    RoundsOfDirection(t2, g, table0, d, opposite, w2.rounds);
  }

  /** The conditions on a direction's rounds, gathered. */
  lemma RoundsOfDirection(t: Threshold, g: Topology, table0: NodeTable, d: DirectionData, opposite: DirectionData, rounds: seq<EdgeKey>)
    requires |d.edges| > 0 && |rounds| > 0 && rounds[|rounds| - 1] == d.edges[|d.edges| - 1]
    requires RunOk(t.aligned, g, d.edges[0], rounds) && forall i :: 0 <= i < |rounds| ==> rounds[i] in d.edges
    requires Clear(table0, d.nodes) && Clear(table0, opposite.nodes) ==>
               ExitsExact(t.aligned, g, table0, d.exits, d.stopbarsExits, Visited(g, rounds)) && LengthsExact(g, d.exits, rounds)
    ensures DirectionRounds(t, g, table0, d, opposite, rounds)
  {
  }

  /** A successful walk ends with its last round's edge, and its rounds keep the heading from its first edge. */
  lemma WalkRounds(dir: string, t: Threshold, g: Topology, table0: NodeTable, w: Walk)
    requires Walked(dir, t, g, table0, Ok(w))
    ensures |w.edges| > 0 && |w.rounds| > 0 && w.rounds[|w.rounds| - 1] == w.edges[|w.edges| - 1]
    ensures RunOk(t.aligned, g, w.edges[0], w.rounds)
    ensures forall i :: 0 <= i < |w.rounds| ==> w.rounds[i] in w.edges
  {
  }

  /**
   * When neither walk re-types a stop bar, the second walk's exits, exact on
   * the table the first left, are exact on the table before both.
   */
  lemma SecondExact(d1: string, t1: Threshold, d2: string, t2: Threshold, g: Topology, table0: NodeTable, w1: Walk, w2: Walk)
    requires Walked(d1, t1, g, table0, Ok(w1)) && Walked(d2, t2, g, w1.table, Ok(w2))
    ensures Clear(table0, w1.nodes) && Clear(table0, w2.nodes) ==>
              ExitsExact(t2.aligned, g, table0, w2.exits, w2.stopbars, Visited(g, w2.rounds)) && LengthsExact(g, w2.exits, w2.rounds)
  {
    if Clear(table0, w1.nodes) && Clear(table0, w2.nodes) {
      ClearKeepsStopbars(d1, table0, w1.nodes, w1.table);
      assert Clear(w1.table, w2.nodes);
      ExitsOfStopbars(g, table0, w1.table);
      ExactOfStopbars(g, w1.table, table0, w2.exits, w2.stopbars);
    }
  }

  /** The table both walks leave behind. */
  lemma StripTables(d1: string, t1: Threshold, d2: string, t2: Threshold, g: Topology, table0: NodeTable, w1: Walk, w2: Walk)
    requires Walked(d1, t1, g, table0, Ok(w1)) && Walked(d2, t2, g, w1.table, Ok(w2))
    ensures StripTableOk(d1, d2, table0, w1.nodes, w2.nodes, w2.table)
  {
    TwoTables(d1, d2, table0, w1.nodes, w1.table, w2.nodes, w2.table);
  }

  /** A direction's record: its own walk, and the opposite walk's exits as its entries. */
  function Direction(t: Threshold, w: Walk, opposite: Walk, crossings: StopbarSet, ahead: StopbarSet, behind: StopbarSet): DirectionData
  {
    DirectionData(t.heading, Angles.HeadingToBearing(t.heading), w.nodes, w.edges, w.exits, w.stopbars,
                  opposite.entries, StopbarSet(opposite.stopbars.nodes, Reversed(opposite.stopbars.edges)),
                  crossings, ahead, behind)
  }

  /** A group of special edges was followed to its stop bars, leaving out the edges already `taken`. */
  ghost predicate AroundOk(g: Topology, table: NodeTable, seeds: set<EdgeKey>, taken: set<EdgeKey>, sb: StopbarSet)
  {
    exists r: Reach :: r.examined <= g.edges.Keys && Complete(g, table, seeds, r.examined, r.stopbars)
                       && Sound(g, table, seeds, r.examined, r.stopbars) && sb == AroundStopbars(seeds, r, taken)
  }

  /** The special edges of a group key, none when the key has no group. */
  function GroupOf(groups: map<string, set<EdgeKey>>, key: string): set<EdgeKey>
  {
    if key in groups then groups[key] else {}
  }

  /** All special edges are edges of the graph. */
  predicate SpecialInGraph(sp: Special, g: Topology)
  {
    && (forall x :: x in sp.crossing ==> sp.crossing[x] <= g.edges.Keys)
    && (forall x :: x in sp.ahead ==> sp.ahead[x] <= g.edges.Keys)
  }

  /** Crossing, ahead and behind stop bars of a strip, with the exit and entry edges left out as the source does. */
  method Surroundings(name: string, d1: string, d2: string, sp: Special, exitEdges: set<EdgeKey>, entryEdges: set<EdgeKey>,
                      g: Topology, table: NodeTable)
    returns (crossing: StopbarSet, ahead: StopbarSet, behind: StopbarSet)
    requires TopologyOk(g, table.Keys) && SpecialInGraph(sp, g)
    ensures AroundOk(g, table, GroupOf(sp.crossing, name), exitEdges + entryEdges, crossing)
    ensures AroundOk(g, table, GroupOf(sp.ahead, d1), exitEdges, ahead)
    ensures AroundOk(g, table, GroupOf(sp.ahead, d2), exitEdges, behind)
    ensures crossing.edges !! exitEdges + entryEdges && ahead.edges !! exitEdges && behind.edges !! exitEdges
  {
    var seeds := GroupOf(sp.crossing, name);
    var found := Search(g, table, seeds);
    crossing := AroundStopbars(seeds, found, exitEdges + entryEdges);
    seeds := GroupOf(sp.ahead, d1);
    found := Search(g, table, seeds);
    ahead := AroundStopbars(seeds, found, exitEdges);
    seeds := GroupOf(sp.ahead, d2);
    found := Search(g, table, seeds);
    behind := AroundStopbars(seeds, found, exitEdges);
  }

  /** The stop bars a strip accounts for: those of its exits, crossings and go-arounds. */
  function Accounted(sd: StripData): set<NodeId>
  {
    sd.first.stopbarsExits.nodes + sd.second.stopbarsExits.nodes
      + sd.first.crossings.nodes + sd.first.ahead.nodes + sd.first.behind.nodes
  }

  /**
   * A processed strip: its directions are the two halves of its name, each
   * walked from its threshold with the other's exits as its entries; the
   * crossings are shared and the go-arounds swap; every stop bar of the
   * strip is accounted for; the runway nodes and edges are those walked.
   */
  ghost predicate StripOk(s: StripInput, sp: Special, g: Topology, table0: NodeTable, sd: StripData, table: NodeTable)
  {
    && Split(s.name, '/') == [sd.dir1, sd.dir2] && sd.dir1 in s.thresholds && sd.dir2 in s.thresholds
    && WalksOk(s.thresholds[sd.dir1], s.thresholds[sd.dir2], g, table0, sd, table)
    && SurroundingsOk(s, sp, g, table, sd)
  }

  /**
   * The walked part of a strip record: both directions meet their conditions
   * on the table before the strip, the table after it re-types what they
   * walked, each direction's entry stop bars are the other's exit stop bars
   * reversed, and the runway nodes and edges are those walked.
   */
  ghost predicate WalksOk(t1: Threshold, t2: Threshold, g: Topology, table0: NodeTable, sd: StripData, table: NodeTable)
  {
    && DirectionOk(t1, g, table0, sd.first, sd.second)
    && DirectionOk(t2, g, table0, sd.second, sd.first)
    && StripTableOk(sd.dir1, sd.dir2, table0, sd.first.nodes, sd.second.nodes, table)
    && sd.first.stopbarsEntries == StopbarSet(sd.second.stopbarsExits.nodes, Reversed(sd.second.stopbarsExits.edges))
    && sd.second.stopbarsEntries == StopbarSet(sd.first.stopbarsExits.nodes, Reversed(sd.first.stopbarsExits.edges))
    && sd.rwyNodes == Members(sd.first.nodes) + Members(sd.second.nodes)
    && sd.rwyEdges == Members(sd.first.edges) + Members(sd.second.edges)
  }

  /**
   * The searched part of a strip record: the crossings are shared, what is
   * ahead of one direction is behind the other, each group of special edges
   * was followed to its stop bars on the table after the walks, and every
   * stop bar of the strip is accounted for.
   */
  ghost predicate SurroundingsOk(s: StripInput, sp: Special, g: Topology, table: NodeTable, sd: StripData)
  {
    && sd.second.crossings == sd.first.crossings && sd.second.ahead == sd.first.behind && sd.second.behind == sd.first.ahead
    && AroundOk(g, table, GroupOf(sp.crossing, s.name),
                sd.first.stopbarsExits.edges + sd.second.stopbarsExits.edges
                  + sd.first.stopbarsEntries.edges + sd.second.stopbarsEntries.edges, sd.first.crossings)
    && AroundOk(g, table, GroupOf(sp.ahead, sd.dir1), sd.first.stopbarsExits.edges + sd.second.stopbarsExits.edges, sd.first.ahead)
    && AroundOk(g, table, GroupOf(sp.ahead, sd.dir2), sd.first.stopbarsExits.edges + sd.second.stopbarsExits.edges, sd.first.behind)
    && s.stopbars <= Accounted(sd)
  }
}

module StripAssembly {
  import opened Wrappers
  import opened Strings
  import opened Graph
  import opened Runways
  import opened RunwayStrips

  /**
   * One strip of `create_runway_data`: its name must be two directions with
   * thresholds; both directions are walked; each hands its exits to the other
   * as entries; crossing and go-around edges are followed to their stop
   * bars, the second direction seeing the first's ahead as behind; and every
   * stop bar of the strip must be accounted for.
   */
  method ProcessStrip(s: StripInput, sp: Special, g: Topology, table0: NodeTable) returns (r: Result<(StripData, NodeTable), RunwayError>)
    requires TopologyOk(g, table0.Keys) && SpecialInGraph(sp, g)
    requires forall d :: d in s.thresholds ==> s.thresholds[d].node in table0
    ensures |Split(s.name, '/')| != 2 ==> r == Err(DirectionCount(s.name, |Split(s.name, '/')|))
    ensures |Split(s.name, '/')| == 2 && Split(s.name, '/')[0] !in s.thresholds ==> r == Err(MissingThreshold(s.name, Split(s.name, '/')[0]))
    ensures |Split(s.name, '/')| == 2 && Split(s.name, '/')[0] in s.thresholds && Split(s.name, '/')[1] !in s.thresholds ==>
              r == Err(MissingThreshold(s.name, Split(s.name, '/')[1]))
    ensures Outcome(s, sp, g, table0, r)
  {
    var dirs := Split(s.name, '/');
    if |dirs| != 2 {
      return Err(DirectionCount(s.name, |dirs|));
    }
    var d1, d2 := dirs[0], dirs[1];
    if d1 !in s.thresholds {
      return Err(MissingThreshold(s.name, d1));
    }
    if d2 !in s.thresholds {
      return Err(MissingThreshold(s.name, d2));
    }
    r := WalkStrip(s, sp, g, table0, d1, d2);
  }

  method WalkStrip(s: StripInput, sp: Special, g: Topology, table0: NodeTable, d1: string, d2: string)
    returns (r: Result<(StripData, NodeTable), RunwayError>)
    requires TopologyOk(g, table0.Keys) && SpecialInGraph(sp, g)
    requires Split(s.name, '/') == [d1, d2] && d1 in s.thresholds && d2 in s.thresholds
    requires s.thresholds[d1].node in table0 && s.thresholds[d2].node in table0
    ensures Outcome(s, sp, g, table0, r)
  {
    var walked := WalkBoth(s.name, s.thresholds[d1], s.thresholds[d2], d1, d2, s.ret, g, table0);
    var around := Surround(s.name, d1, d2, sp, g, table0, walked);
    r := Assemble(s, sp, g, table0, d1, d2, walked, around);
  }

  /** The stop bars found around a strip: by its crossing edges, and ahead of and behind its first direction. */
  datatype Around = Around(crossing: StopbarSet, ahead: StopbarSet, behind: StopbarSet)

  /** The searches around a walked strip, or the error of its walks. */
  method Surround(name: string, d1: string, d2: string, sp: Special, g: Topology, table0: NodeTable,
                  walked: Result<(Walk, Walk), RunwayError>) returns (around: Result<Around, RunwayError>)
    requires TopologyOk(g, table0.Keys) && SpecialInGraph(sp, g)
    requires walked.Ok? ==> walked.value.1.table.Keys == table0.Keys
    ensures walked.Err? ==> around == Err(walked.error)
    ensures around.Err? ==> walked.Err?
    ensures Surrounded(name, d1, d2, sp, g, walked, around)
  {
    if walked.Err? {
      return Err(walked.error);
    }
    var w1, w2 := walked.value.0, walked.value.1;
    var exitEdges := w1.stopbars.edges + w2.stopbars.edges;
    var entryEdges := Reversed(w1.stopbars.edges) + Reversed(w2.stopbars.edges);
    var crossing, ahead, behind := Surroundings(name, d1, d2, sp, exitEdges, entryEdges, g, w2.table);
    around := Ok(Around(crossing, ahead, behind));
  }

  /** The searches around two walks found the stop bars they report. */
  ghost predicate Surrounded(name: string, d1: string, d2: string, sp: Special, g: Topology,
                             walked: Result<(Walk, Walk), RunwayError>, around: Result<Around, RunwayError>)
  {
    match (walked, around)
    case (Ok((w1, w2)), Ok(a)) =>
      var exitEdges := w1.stopbars.edges + w2.stopbars.edges;
      && AroundOk(g, w2.table, GroupOf(sp.crossing, name), exitEdges + (Reversed(w1.stopbars.edges) + Reversed(w2.stopbars.edges)), a.crossing)
      && AroundOk(g, w2.table, GroupOf(sp.ahead, d1), exitEdges, a.ahead)
      && AroundOk(g, w2.table, GroupOf(sp.ahead, d2), exitEdges, a.behind)
    case _ => true
  }

  /** The strip record from its walks and searches, unless a stop bar of the strip is left unaccounted for. */
  method Assemble(s: StripInput, sp: Special, g: Topology, table0: NodeTable, d1: string, d2: string,
                  walked: Result<(Walk, Walk), RunwayError>, around: Result<Around, RunwayError>)
    returns (r: Result<(StripData, NodeTable), RunwayError>)
    requires Split(s.name, '/') == [d1, d2] && d1 in s.thresholds && d2 in s.thresholds
    requires BothWalked(d1, s.thresholds[d1], d2, s.thresholds[d2], g, table0, walked)
    requires walked.Err? ==> WalkError(d1, s.thresholds[d1], d2, s.thresholds[d2], g, walked.error) && around == Err(walked.error)
    requires around.Err? ==> walked.Err?
    requires Surrounded(s.name, d1, d2, sp, g, walked, around)
    ensures Outcome(s, sp, g, table0, r)
    ensures around.Err? ==> r == Err(around.error)
    ensures around.Ok? ==> (r.Ok? <==> s.stopbars <= Found(walked.value.0, walked.value.1, around.value))
    ensures r.Err? && r.error.RemainingStopbars? ==>
              around.Ok? && r.error.stopbars == s.stopbars - Found(walked.value.0, walked.value.1, around.value)
  {
    if around.Err? {
      WalkFailed(s, sp, g, table0, d1, d2, around.error);
      return Err(around.error);
    }
    var w1, w2, a := walked.value.0, walked.value.1, around.value;
    var remaining := s.stopbars - (w1.stopbars.nodes + w2.stopbars.nodes) - a.crossing.nodes - a.ahead.nodes - a.behind.nodes;
    NothingRemains(s.stopbars, w1.stopbars.nodes + w2.stopbars.nodes, a.crossing.nodes, a.ahead.nodes, a.behind.nodes);
    if remaining != {} {
      UnionTakenAway(s.stopbars, w1.stopbars.nodes, w2.stopbars.nodes, a.crossing.nodes, a.ahead.nodes, a.behind.nodes);
      WalkedLeftOver(s, sp, g, table0, d1, d2, walked.value, a);
      return Err(RemainingStopbars(s.name, remaining));
    }
    WalksBuilt(s, g, table0, d1, d2, walked.value, a);
    SurroundingsBuilt(s, sp, g, d1, d2, walked.value, a);
    r := Ok((Build(s, d1, d2, w1, w2, a.crossing, a.ahead, a.behind), w2.table));
  }

  /** Successful walks and searches leave over the stop bars of the strip that they did not find. */
  lemma WalkedLeftOver(s: StripInput, sp: Special, g: Topology, table0: NodeTable, d1: string, d2: string, walks: (Walk, Walk), a: Around)
    requires Split(s.name, '/') == [d1, d2] && d1 in s.thresholds && d2 in s.thresholds
    requires BothWalked(d1, s.thresholds[d1], d2, s.thresholds[d2], g, table0, Ok(walks))
    requires Surrounded(s.name, d1, d2, sp, g, Ok(walks), Ok(a)) && s.stopbars - Found(walks.0, walks.1, a) != {}
    ensures Outcome(s, sp, g, table0, Err(RemainingStopbars(s.name, s.stopbars - Found(walks.0, walks.1, a))))
  {
    assert Unfound(s, sp, g, table0, d1, d2, walks, a, s.stopbars - Found(walks.0, walks.1, a));
  }

  /** A failed walk is a failure of the strip. */
  lemma WalkFailed(s: StripInput, sp: Special, g: Topology, table0: NodeTable, d1: string, d2: string, e: RunwayError)
    requires Split(s.name, '/') == [d1, d2] && d1 in s.thresholds && d2 in s.thresholds
    requires WalkError(d1, s.thresholds[d1], d2, s.thresholds[d2], g, e)
    ensures Outcome(s, sp, g, table0, Err(e))
  {
  }

  /** Two walks make the walked part of the strip record. */
  lemma WalksBuilt(s: StripInput, g: Topology, table0: NodeTable, d1: string, d2: string, walks: (Walk, Walk), a: Around)
    requires d1 in s.thresholds && d2 in s.thresholds
    requires BothWalked(d1, s.thresholds[d1], d2, s.thresholds[d2], g, table0, Ok(walks))
    ensures WalksOk(s.thresholds[d1], s.thresholds[d2], g, table0, Build(s, d1, d2, walks.0, walks.1, a.crossing, a.ahead, a.behind), walks.1.table)
  {
    var w1, w2 := walks.0, walks.1;
    var t1, t2 := s.thresholds[d1], s.thresholds[d2];
    FirstDirection(d1, t1, t2, g, table0, w1, w2, a.crossing, a.ahead, a.behind);
    SecondDirection(d1, t1, d2, t2, g, table0, w1, w2, a.crossing, a.ahead, a.behind);
    StripTables(d1, t1, d2, t2, g, table0, w1, w2);
  }

  /** Complete searches that account for every stop bar of the strip make its searched part. */
  lemma SurroundingsBuilt(s: StripInput, sp: Special, g: Topology, d1: string, d2: string, walks: (Walk, Walk), a: Around)
    requires d1 in s.thresholds && d2 in s.thresholds
    requires Surrounded(s.name, d1, d2, sp, g, Ok(walks), Ok(a))
    requires s.stopbars - (walks.0.stopbars.nodes + walks.1.stopbars.nodes) - a.crossing.nodes - a.ahead.nodes - a.behind.nodes == {}
    ensures SurroundingsOk(s, sp, g, walks.1.table, Build(s, d1, d2, walks.0, walks.1, a.crossing, a.ahead, a.behind))
  {
    var w1, w2 := walks.0, walks.1;
    var sd := Build(s, d1, d2, w1, w2, a.crossing, a.ahead, a.behind);
    NothingRemains(s.stopbars, w1.stopbars.nodes + w2.stopbars.nodes, a.crossing.nodes, a.ahead.nodes, a.behind.nodes);
    assert sd.first.stopbarsExits.edges + sd.second.stopbarsExits.edges == w1.stopbars.edges + w2.stopbars.edges;
    assert sd.first.stopbarsExits.edges + sd.second.stopbarsExits.edges
             + sd.first.stopbarsEntries.edges + sd.second.stopbarsEntries.edges
        == w1.stopbars.edges + w2.stopbars.edges + (Reversed(w1.stopbars.edges) + Reversed(w2.stopbars.edges));
  }

  ghost predicate Outcome(s: StripInput, sp: Special, g: Topology, table0: NodeTable, r: Result<(StripData, NodeTable), RunwayError>)
  {
    match r
    case Ok((sd, table)) => StripOk(s, sp, g, table0, sd, table)
    case Err(e) => StripFailure(s, g, e) && (e.RemainingStopbars? ==> LeftOver(s, sp, g, table0, e.stopbars))
  }

  /**
   * A strip whose two walks and the searches around them succeeded, and
   * left exactly `remaining` of its stop bars found by none of them.
   */
  ghost predicate LeftOver(s: StripInput, sp: Special, g: Topology, table0: NodeTable, remaining: set<NodeId>)
  {
    var dirs := Split(s.name, '/');
    && |dirs| == 2 && dirs[0] in s.thresholds && dirs[1] in s.thresholds
    && exists walks: (Walk, Walk), a: Around :: Unfound(s, sp, g, table0, dirs[0], dirs[1], walks, a, remaining)
  }

  /** Walks and searches of a strip that succeeded and found none of `remaining`, and all of its other stop bars. */
  ghost predicate Unfound(s: StripInput, sp: Special, g: Topology, table0: NodeTable, d1: string, d2: string,
                          walks: (Walk, Walk), a: Around, remaining: set<NodeId>)
    requires d1 in s.thresholds && d2 in s.thresholds
  {
    && BothWalked(d1, s.thresholds[d1], d2, s.thresholds[d2], g, table0, Ok(walks))
    && Surrounded(s.name, d1, d2, sp, g, Ok(walks), Ok(a))
    && remaining == s.stopbars - Found(walks.0, walks.1, a)
  }

  /** Nothing remains of `s` once `a`, `b`, `c` and `d` are taken away exactly when they cover it. */
  lemma NothingRemains(s: set<NodeId>, a: set<NodeId>, b: set<NodeId>, c: set<NodeId>, d: set<NodeId>)
    ensures s - a - b - c - d == {} <==> s <= a + b + c + d
  {
    if s - a - b - c - d == {} {
      forall n | n in s
        ensures n in a + b + c + d
      {
        assert n !in s - a - b - c - d;
      }
    } else {
      var n :| n in s - a - b - c - d;
      assert n !in a + b + c + d;
    }
  }

  /** Taking five sets away one after another takes away their union. */
  lemma UnionTakenAway(s: set<NodeId>, a: set<NodeId>, b: set<NodeId>, c: set<NodeId>, d: set<NodeId>, e: set<NodeId>)
    ensures s - (a + b) - c - d - e == s - (a + b + c + d + e)
  {
  }

  /** The stop bars the walks and the searches around a strip found. */
  function Found(w1: Walk, w2: Walk, a: Around): set<NodeId>
  {
    w1.stopbars.nodes + w2.stopbars.nodes + a.crossing.nodes + a.ahead.nodes + a.behind.nodes
  }

  /**
   * The cause of a failed strip: its name is not two directions, a direction
   * has no threshold, a walk failed, or some of its stop bars were found
   * neither by the walks nor by the searches around it.
   */
  ghost predicate StripFailure(s: StripInput, g: Topology, e: RunwayError)
  {
    || (e.DirectionCount? && e.strip == s.name && e.count == |Split(s.name, '/')| && e.count != 2)
    || (e.MissingThreshold? && e.strip == s.name && e.dir in Split(s.name, '/') && e.dir !in s.thresholds)
    || (e.RemainingStopbars? && e.strip == s.name && e.stopbars != {} && e.stopbars <= s.stopbars)
    || (&& |Split(s.name, '/')| == 2 && Split(s.name, '/')[0] in s.thresholds && Split(s.name, '/')[1] in s.thresholds
        && WalkError(Split(s.name, '/')[0], s.thresholds[Split(s.name, '/')[0]],
                     Split(s.name, '/')[1], s.thresholds[Split(s.name, '/')[1]], g, e))
  }

  /** The strip record made of the two walks and the stop bars around the strip. */
  function Build(s: StripInput, d1: string, d2: string, w1: Walk, w2: Walk,
                 crossing: StopbarSet, ahead: StopbarSet, behind: StopbarSet): StripData
    requires d1 in s.thresholds && d2 in s.thresholds
  {
    StripData(d1, d2,
              Direction(s.thresholds[d1], w1, w2, crossing, ahead, behind),
              Direction(s.thresholds[d2], w2, w1, crossing, behind, ahead),
              Members(w1.nodes) + Members(w2.nodes), Members(w1.edges) + Members(w2.edges))
  }

}
