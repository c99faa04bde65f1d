/**
 * Edge registration of `Layout.import_edges` (src/Layout/Layout.py): every
 * `edge_` path of the drawing becomes a forward record under `(start, end)`
 * and a mirrored record under `(end, start)`; its name string decides the
 * type and name of both, and files the pair under remote-holding access
 * sets, push and pull pools per gate and category, and entry buckets.
 *
 * The paths arrive already extracted from the drawing. Geometry (path
 * parsing, segment lengths, tangent headings, curvature) is computed
 * outside this module: a path brings its segment lengths and the headings
 * of both directions with it.
 */
module Edges {
  import opened Wrappers
  import opened Strings
  import opened Graph
  import opened NodeIds
  import opened EdgeNames
  import Nodes

  /** One `path` element of the drawing, as `import_edges` reads it. */
  datatype PathRecord = PathRecord(
    id: string,
    bound1: string,
    bound2: string,
    nameAttr: string,             // `edgeNameFromXPlane`
    pathType: string,             // `type`
    length: real,                 // `pathLength`
    slope: real,
    segLengths: seq<real>,
    heading: (real, real),        // tangent headings at start and end, forward
    reverseHeading: (real, real)) // the same for the reversed path

  /** What `edges_dict` keeps of an edge besides its geometry. */
  datatype EdgeRecord = EdgeRecord(
    edgeType: EdgeType,
    edgeName: Option<string>,
    svgId: string,
    svgName: string,
    inverse: bool,                // `edge_svg_inverse`
    length: real,
    slope: real,
    maxspan: Span,
    segLengths: seq<real>,
    heading: (real, real))

  /** The wingspan-category buckets of one gate. */
  type Buckets = map<Category, seq<EdgeKey>>

  /** Push or pull pools: per gate, per category, the keys filed so far. */
  type Pools = map<string, Buckets>

  /** The tables `import_edges` fills. */
  datatype EdgeTables = EdgeTables(
    edges: map<EdgeKey, EdgeRecord>,
    svgToEdge: map<string, EdgeKey>,      // svgID_to_edgeID_dict
    entries: map<string, seq<string>>,    // entry bucket -> svg ids
    push: Pools,
    pull: Pools,
    access: map<NodeId, set<EdgeKey>>)    // `edge_ids_access` of each remote-holding node

  datatype EdgeError =
    | UnknownPathType(id: string)         // `type` is none of runway, taxiway, service
    | UnknownHoldingName(hp: string)      // an access name that is no node name
    | NotRemoteHolding(hp: string)        // an access name whose node is no remote holding
    | PullWithoutGates(id: string)        // a pull variant without a second `_` token (`IndexError`)
    | UnreadableMaxspan(id: string)       // a maxspan token that is not a numeral (`ValueError`)
    | UnqualifiedVariant(id: string)      // a `pb@`/`pull@` marker other than `@d`
    | DoublyOpenEdge                      // a path open at both ends makes the final sort fail

  /** The path types the source accepts. */
  predicate IsPathType(s: string)
  {
    s in {"runway", "taxiway", "service"}
  }

  /** The sequence backwards. */
  function Reversed<T>(s: seq<T>): (r: seq<T>)
    ensures |r| == |s|
    ensures forall i :: 0 <= i < |s| ==> r[i] == s[|s| - 1 - i]
  {
    seq(|s|, i requires 0 <= i < |s| => s[|s| - 1 - i])
  }

  /** Reversing twice gives the sequence back. */
  lemma ReversedTwice<T>(s: seq<T>)
    ensures Reversed(Reversed(s)) == s
  {
  }

  /* ---------- one path ---------- */

  /** The prefix of the ids of the paths that are edges; other paths are skipped. */
  const EdgeIdPrefix := "edge_"

  /**
   * The bounds of an edge path can be read: the source reads them before it
   * looks at anything else; the name is read, and refused, by the import.
   */
  predicate PathReadable(p: PathRecord)
  {
    StartsWith(p.id, EdgeIdPrefix) ==> WellFormedRef(p.bound1) && WellFormedRef(p.bound2)
  }

  /** The key of a path: its resolved start and end, `None` for an open end. */
  function PathKey(p: PathRecord, count: nat): (k: EdgeKey)
    requires WellFormedRef(p.bound1) && WellFormedRef(p.bound2)
    ensures k.u.None? <==> !IsRef(p.bound1)
    ensures k.v.None? <==> !IsRef(p.bound2)
  {
    EdgeKey(BoundNode(p.bound1, count), BoundNode(p.bound2, count))
  }

  /** The reference names a node of either kind. */
  predicate IsRef(ref: string)
  {
    StartsWith(ref, "intersection_") || StartsWith(ref, "termination_")
  }

  function Forward(p: PathRecord, d: Decoded): EdgeRecord
  {
    EdgeRecord(d.edgeType, d.edgeName, p.id, d.svgName, false, p.length, p.slope, d.maxspan,
               p.segLengths, p.heading)
  }

  function Backward(p: PathRecord, d: Decoded): EdgeRecord
  {
    EdgeRecord(d.edgeType, d.edgeName, p.id, d.svgName, true, p.length, -p.slope, d.maxspan,
               Reversed(p.segLengths), p.reverseHeading)
  }

  /** The edge map with the path's forward record and, over it for a loop, its reversed record. */
  function Mirrored(edges: map<EdgeKey, EdgeRecord>, key: EdgeKey, p: PathRecord, d: Decoded)
    : (r: map<EdgeKey, EdgeRecord>)
    ensures r.Keys == edges.Keys + {key, key.Rev()}
  {
    edges[key := Forward(p, d)][key.Rev() := Backward(p, d)]
  }

  /** The entry bucket with the path's svg id appended. */
  function Entered(entries: map<string, seq<string>>, bucket: Option<string>, id: string)
    : (r: map<string, seq<string>>)
    ensures bucket.None? ==> r == entries
    ensures bucket.Some? ==> r.Keys == entries.Keys + {bucket.value}
  {
    if bucket.None? then entries
    else entries[bucket.value := (if bucket.value in entries then entries[bucket.value] else []) + [id]]
  }

  /** What one path does to the tables: skipped, refused, or registered with its mirror. */
  function PathStep(t: EdgeTables, nt: Nodes.NodeTables, p: PathRecord): (r: Result<EdgeTables, EdgeError>)
    requires PathReadable(p) && PoolsFull(t.push) && PoolsFull(t.pull)
  {
    if !StartsWith(p.id, EdgeIdPrefix) then Ok(t)
    else
      var key := PathKey(p, nt.intersectionCount);
      if key in t.edges then Ok(t)
      else if !MaxspanReadable(p.nameAttr) then Err(UnreadableMaxspan(p.id))
      else if !IsPathType(p.pathType) then Err(UnknownPathType(p.id))
      else
        var d := DecodeName(p.nameAttr, p.pathType);
        var access :- AccessFold(t.access, nt, d.accessHolds, key);
        if MissingPullGates(d.svgName, p.pathType) then Err(PullWithoutGates(p.id))
        else if !VariantsQualified(d.svgName, p.pathType) then Err(UnqualifiedVariant(p.id))
        else Ok(EdgeTables(Mirrored(t.edges, key, p, d),
                      t.svgToEdge[p.id := key],
                      Entered(t.entries, d.entryKey, p.id),
                      PooledAll(t.push, d.pushFilings, key),
                      PooledAll(t.pull, d.pullFilings, key),
                      access))
  }

  /* ---------- remote-holding access ---------- */

  /** One access name: the pair joins the access set of the named remote-holding node. */
  function AccessStep(access: map<NodeId, set<EdgeKey>>, nt: Nodes.NodeTables, hp: string, key: EdgeKey)
    : (r: Result<map<NodeId, set<EdgeKey>>, EdgeError>)
  {
    if hp !in nt.names then Err(UnknownHoldingName(hp))
    else
      var n := nt.names[hp];
      if n !in nt.remholds then Err(NotRemoteHolding(hp))
      else Ok(access[n := AccessOf(access, n) + {key, key.Rev()}])
  }

  function AccessOf(access: map<NodeId, set<EdgeKey>>, n: NodeId): set<EdgeKey>
  {
    if n in access then access[n] else {}
  }

  /** The access loop over the `&`-separated names seen so far. */
  function AccessFold(access: map<NodeId, set<EdgeKey>>, nt: Nodes.NodeTables, hps: seq<string>, key: EdgeKey)
    : (r: Result<map<NodeId, set<EdgeKey>>, EdgeError>)
  {
    if |hps| == 0 then Ok(access)
    else
      var a :- AccessFold(access, nt, hps[..|hps| - 1], key);
      AccessStep(a, nt, hps[|hps| - 1], key)
  }

  method GrantAccess(access: map<NodeId, set<EdgeKey>>, nt: Nodes.NodeTables, hps: seq<string>, key: EdgeKey)
    returns (r: Result<map<NodeId, set<EdgeKey>>, EdgeError>)
    ensures r == AccessFold(access, nt, hps, key)
  {
    var cur := access;
    var i := 0;
    while i < |hps|
      invariant 0 <= i <= |hps|
      invariant AccessFold(access, nt, hps[..i], key) == Ok(cur)
    {
      assert hps[..i + 1][..i] == hps[..i];
      var step := AccessStep(cur, nt, hps[i], key);
      if step.Err? {
        AccessErrorPersists(access, nt, hps, key, i + 1);
        return step;
      }
      cur := step.value;
      i := i + 1;
    }
    assert hps[..|hps|] == hps;
    r := Ok(cur);
  }

  lemma {:induction false} AccessErrorPersists(access: map<NodeId, set<EdgeKey>>, nt: Nodes.NodeTables,
                                               hps: seq<string>, key: EdgeKey, n: nat)
    requires n <= |hps| && AccessFold(access, nt, hps[..n], key).Err?
    ensures AccessFold(access, nt, hps, key) == AccessFold(access, nt, hps[..n], key)
    decreases |hps| - n
  {
    if n < |hps| {
      assert hps[..n + 1][..n] == hps[..n];
      AccessErrorPersists(access, nt, hps, key, n + 1);
    } else {
      assert hps[..n] == hps;
    }
  }

  /* ---------- push and pull pools ---------- */

  /** A gate's buckets as the source creates them on first use: all seven categories, empty. */
  function EmptyBuckets(): (b: Buckets)
    ensures Full(b)
  {
    var b := map[Standard := [], IcaoA := [], IcaoB := [], IcaoC := [], IcaoD := [], IcaoE := [], IcaoF := []];
    assert Full(b) by {
      forall c: Category ensures c in b {
        assert c.Standard? || c.IcaoA? || c.IcaoB? || c.IcaoC? || c.IcaoD? || c.IcaoE? || c.IcaoF?;
      }
    }
    b
  }

  predicate Full(b: Buckets)
  {
    forall c: Category :: c in b
  }

  predicate PoolsFull(pools: Pools)
  {
    forall g :: g in pools ==> Full(pools[g])
  }

  /** The gate's buckets, or fresh ones. */
  function BucketsOf(pools: Pools, gate: string): (b: Buckets)
    requires PoolsFull(pools)
    ensures Full(b)
  {
    if gate in pools then pools[gate] else EmptyBuckets()
  }

  /** One filing: the key and its reverse appended to the bucket. */
  function Pooled(pools: Pools, f: Filing, key: EdgeKey): (r: Pools)
    requires PoolsFull(pools)
    ensures PoolsFull(r)
    ensures r.Keys == pools.Keys + {f.gate}
  {
    var b := BucketsOf(pools, f.gate);
    pools[f.gate := b[f.category := b[f.category] + [key, key.Rev()]]]
  }

  /** The filings seen so far, in order. */
  function PooledAll(pools: Pools, fs: seq<Filing>, key: EdgeKey): (r: Pools)
    requires PoolsFull(pools)
    ensures PoolsFull(r)
  {
    if |fs| == 0 then pools
    else Pooled(PooledAll(pools, fs[..|fs| - 1], key), fs[|fs| - 1], key)
  }

  method PoolAll(pools: Pools, fs: seq<Filing>, key: EdgeKey) returns (r: Pools)
    requires PoolsFull(pools)
    ensures r == PooledAll(pools, fs, key)
  {
    r := pools;
    var i := 0;
    while i < |fs|
      invariant 0 <= i <= |fs|
      invariant r == PooledAll(pools, fs[..i], key)
    {
      assert fs[..i + 1][..i] == fs[..i];
      r := Pooled(r, fs[i], key);
      i := i + 1;
    }
    assert fs[..|fs|] == fs;
  }

  /* ---------- all paths ---------- */

  function EmptyEdgeTables(): EdgeTables
  {
    EdgeTables(map[], map[], map[], map[], map[], map[])
  }

  predicate PathsReadable(ps: seq<PathRecord>)
  {
    forall i :: 0 <= i < |ps| ==> PathReadable(ps[i])
  }

  /** The path loop over the paths seen so far. */
  function PathFold(t: EdgeTables, nt: Nodes.NodeTables, ps: seq<PathRecord>): (r: Result<EdgeTables, EdgeError>)
    requires PathsReadable(ps) && PoolsFull(t.push) && PoolsFull(t.pull)
    ensures r.Ok? ==> PoolsFull(r.value.push) && PoolsFull(r.value.pull)
  {
    if |ps| == 0 then Ok(t)
    else
      assert forall i :: 0 <= i < |ps| - 1 ==> ps[..|ps| - 1][i] == ps[i];
      var t1 :- PathFold(t, nt, ps[..|ps| - 1]);
      PathStep(t1, nt, ps[|ps| - 1])
  }

  /** `import_edges`: the path loop, then the sort that fails on a key open at both ends. */
  function ImportEdgesSpec(nt: Nodes.NodeTables, ps: seq<PathRecord>): (r: Result<EdgeTables, EdgeError>)
    requires PathsReadable(ps)
  {
    var t :- PathFold(EmptyEdgeTables(), nt, ps);
    if EdgeKey(None, None) in t.edges then Err(DoublyOpenEdge) else Ok(t)
  }

  method ImportPath(t: EdgeTables, nt: Nodes.NodeTables, p: PathRecord) returns (r: Result<EdgeTables, EdgeError>)
    requires PathReadable(p) && PoolsFull(t.push) && PoolsFull(t.pull)
    ensures r == PathStep(t, nt, p)
  {
    if !StartsWith(p.id, EdgeIdPrefix) {
      return Ok(t);
    }
    var key := PathKey(p, nt.intersectionCount);
    if key in t.edges {
      return Ok(t);
    }
    if !MaxspanReadable(p.nameAttr) {
      return Err(UnreadableMaxspan(p.id));
    }
    if !IsPathType(p.pathType) {
      return Err(UnknownPathType(p.id));
    }
    var d := DecodeName(p.nameAttr, p.pathType);
    var access :- GrantAccess(t.access, nt, d.accessHolds, key);
    if MissingPullGates(d.svgName, p.pathType) {
      return Err(PullWithoutGates(p.id));
    }
    if !VariantsQualified(d.svgName, p.pathType) {
      return Err(UnqualifiedVariant(p.id));
    }
    var push := PoolAll(t.push, d.pushFilings, key);
    var pull := PoolAll(t.pull, d.pullFilings, key);
    r := Ok(EdgeTables(Mirrored(t.edges, key, p, d), t.svgToEdge[p.id := key],
                       Entered(t.entries, d.entryKey, p.id), push, pull, access));
  }

  method ImportPaths(t: EdgeTables, nt: Nodes.NodeTables, ps: seq<PathRecord>) returns (r: Result<EdgeTables, EdgeError>)
    requires PathsReadable(ps) && PoolsFull(t.push) && PoolsFull(t.pull)
    ensures r == PathFold(t, nt, ps)
  {
    var cur := t;
    var i := 0;
    while i < |ps|
      invariant 0 <= i <= |ps|
      invariant PathFold(t, nt, ps[..i]) == Ok(cur)
      invariant PoolsFull(cur.push) && PoolsFull(cur.pull)
    {
      assert ps[..i + 1][..i] == ps[..i];
      var step := ImportPath(cur, nt, ps[i]);
      if step.Err? {
        PathErrorPersists(t, nt, ps, i + 1);
        return step;
      }
      cur := step.value;
      i := i + 1;
    }
    assert ps[..|ps|] == ps;
    r := Ok(cur);
  }

  lemma {:induction false} PathErrorPersists(t: EdgeTables, nt: Nodes.NodeTables, ps: seq<PathRecord>, n: nat)
    requires PathsReadable(ps) && PoolsFull(t.push) && PoolsFull(t.pull)
    requires n <= |ps| && PathFold(t, nt, ps[..n]).Err?
    ensures PathFold(t, nt, ps) == PathFold(t, nt, ps[..n])
    decreases |ps| - n
  {
    if n < |ps| {
      assert ps[..n + 1][..n] == ps[..n];
      PathErrorPersists(t, nt, ps, n + 1);
    } else {
      assert ps[..n] == ps;
    }
  }

  method ImportEdges(nt: Nodes.NodeTables, ps: seq<PathRecord>) returns (r: Result<EdgeTables, EdgeError>)
    requires PathsReadable(ps)
    ensures r == ImportEdgesSpec(nt, ps)
  {
    var t :- ImportPaths(EmptyEdgeTables(), nt, ps);
    if EdgeKey(None, None) in t.edges {
      return Err(DoublyOpenEdge);
    }
    r := Ok(t);
  }
}

/*
 * What the edge tables promise once `import_edges` is done: every record
 * has its mirror, the pools hold key pairs of known edges, and every
 * access set and bucket names known edges and paths.
 */
module EdgeProperties {
  import opened Wrappers
  import opened Strings
  import opened Graph
  import opened NodeIds
  import opened EdgeNames
  import opened Edges
  import Nodes

  /** `b` is the record of the same path walked the other way. */
  predicate Mirrors(a: EdgeRecord, b: EdgeRecord)
  {
    a.edgeType == b.edgeType && a.edgeName == b.edgeName && a.svgId == b.svgId && a.svgName == b.svgName
    && a.length == b.length && a.maxspan == b.maxspan
    && b.slope == -a.slope && b.segLengths == Reversed(a.segLengths) && a.inverse != b.inverse
  }

  /**
   * Every key's reverse is a key too; the two records mirror each other,
   * and the record of a loop is the reversed one.
   */
  predicate MirrorClosed(edges: map<EdgeKey, EdgeRecord>)
  {
    forall k :: k in edges ==>
      k.Rev() in edges
      && (k != k.Rev() ==> Mirrors(edges[k], edges[k.Rev()]))
      && (k == k.Rev() ==> edges[k].inverse)
  }

  /** Keys come in pairs: each key at an even position is followed by its reverse. */
  predicate Paired(l: seq<EdgeKey>)
  {
    |l| % 2 == 0 && forall i :: 0 <= i < |l| && i % 2 == 0 ==> i + 1 < |l| && l[i + 1] == l[i].Rev()
  }

  predicate PoolsPaired(pools: Pools)
  {
    forall g, c :: g in pools && c in pools[g] ==> Paired(pools[g][c])
  }

  predicate PoolsWithin(pools: Pools, edges: map<EdgeKey, EdgeRecord>)
  {
    forall g, c, i :: g in pools && c in pools[g] && 0 <= i < |pools[g][c]| ==> pools[g][c][i] in edges
  }

  predicate PoolsSound(pools: Pools, edges: map<EdgeKey, EdgeRecord>)
  {
    PoolsFull(pools) && PoolsPaired(pools) && PoolsWithin(pools, edges)
  }

  /** Each access set holds known edges together with their reverses. */
  predicate AccessSound(access: map<NodeId, set<EdgeKey>>, edges: map<EdgeKey, EdgeRecord>)
  {
    forall n, k :: n in access && k in access[n] ==> k.Rev() in access[n] && k in edges
  }

  /** Entry buckets list registered paths, and registered paths point at known edges. */
  predicate IdsKnown(t: EdgeTables)
  {
    (forall e, i :: e in t.entries && 0 <= i < |t.entries[e]| ==> t.entries[e][i] in t.svgToEdge)
    && (forall s :: s in t.svgToEdge ==> t.svgToEdge[s] in t.edges)
  }

  predicate Sound(t: EdgeTables)
  {
    MirrorClosed(t.edges) && PoolsSound(t.push, t.edges) && PoolsSound(t.pull, t.edges)
    && AccessSound(t.access, t.edges) && IdsKnown(t)
  }

  /* ---------- the mirror ---------- */

  lemma MirrorsSymmetric(a: EdgeRecord, b: EdgeRecord)
    requires Mirrors(a, b)
    ensures Mirrors(b, a)
  {
    ReversedTwice(a.segLengths);
  }

  /** The forward and the backward record of a path mirror each other. */
  lemma ForwardMirrorsBackward(p: PathRecord, d: Decoded)
    ensures Mirrors(Forward(p, d), Backward(p, d)) && Mirrors(Backward(p, d), Forward(p, d))
  {
    MirrorsSymmetric(Forward(p, d), Backward(p, d));
  }

  /**
   * Registering a new key with its mirror keeps the map mirror-closed and
   * leaves every earlier record as it was: the first path for a key wins.
   */
  lemma MirroredClosed(edges: map<EdgeKey, EdgeRecord>, key: EdgeKey, p: PathRecord, d: Decoded)
    requires MirrorClosed(edges) && key !in edges
    ensures MirrorClosed(Mirrored(edges, key, p, d))
    ensures forall k :: k in edges ==> Mirrored(edges, key, p, d)[k] == edges[k]
  {
    var m := Mirrored(edges, key, p, d);
    assert key.Rev().Rev() == key;
    assert key.Rev() !in edges;
    ForwardMirrorsBackward(p, d);
    forall k | k in m
      ensures k.Rev() in m
      ensures k != k.Rev() ==> Mirrors(m[k], m[k.Rev()])
      ensures k == k.Rev() ==> m[k].inverse
    {
      if k == key || k == key.Rev() {
        assert k.Rev() == key || k.Rev() == key.Rev();
      } else {
        assert k in edges;
        assert k.Rev() != key && k.Rev() != key.Rev() by {
          assert k.Rev().Rev() == k && key.Rev().Rev() == key;
        }
      }
    }
  }

  /* ---------- pools ---------- */

  lemma PairedAppend(l: seq<EdgeKey>, key: EdgeKey)
    requires Paired(l)
    ensures Paired(l + [key, key.Rev()])
  {
    var l2 := l + [key, key.Rev()];
    forall i | 0 <= i < |l2| && i % 2 == 0 ensures i + 1 < |l2| && l2[i + 1] == l2[i].Rev() {
      if i < |l| {
        assert i + 1 < |l|;
        assert l2[i] == l[i] && l2[i + 1] == l[i + 1];
      }
    }
  }

  /** A known pair filed once keeps the pools sound. */
  lemma PooledSound(pools: Pools, f: Filing, key: EdgeKey, edges: map<EdgeKey, EdgeRecord>)
    requires PoolsSound(pools, edges) && key in edges && key.Rev() in edges
    ensures PoolsSound(Pooled(pools, f, key), edges)
  {
    var r := Pooled(pools, f, key);
    var b := BucketsOf(pools, f.gate);
    assert r[f.gate] == b[f.category := b[f.category] + [key, key.Rev()]];
    assert PoolsPaired(r) by {
      forall g, c | g in r && c in r[g] ensures Paired(r[g][c]) {
        if g == f.gate && c == f.category {
          PairedAppend(b[f.category], key);
        }
      }
    }
    assert PoolsWithin(r, edges) by {
      forall g, c, i | g in r && c in r[g] && 0 <= i < |r[g][c]| ensures r[g][c][i] in edges {
        if g == f.gate && c == f.category {
          if i < |b[f.category]| { assert r[g][c][i] == b[f.category][i]; }
        }
      }
    }
  }

  lemma {:induction false} PooledAllSound(pools: Pools, fs: seq<Filing>, key: EdgeKey, edges: map<EdgeKey, EdgeRecord>)
    requires PoolsSound(pools, edges) && key in edges && key.Rev() in edges
    ensures PoolsSound(PooledAll(pools, fs, key), edges)
  {
    if |fs| > 0 {
      PooledAllSound(pools, fs[..|fs| - 1], key, edges);
      PooledSound(PooledAll(pools, fs[..|fs| - 1], key), fs[|fs| - 1], key, edges);
    }
  }

  /** Pools stay within a map that grows. */
  lemma PoolsWithinGrow(pools: Pools, edges: map<EdgeKey, EdgeRecord>, bigger: map<EdgeKey, EdgeRecord>)
    requires PoolsSound(pools, edges) && edges.Keys <= bigger.Keys
    ensures PoolsSound(pools, bigger)
  {
  }

  /** Every filing leaves the key and its reverse in its bucket. */
  lemma {:induction false} PooledAllFiles(pools: Pools, fs: seq<Filing>, key: EdgeKey)
    requires PoolsFull(pools)
    ensures var r := PooledAll(pools, fs, key);
            forall i :: 0 <= i < |fs| ==> fs[i].gate in r && key in r[fs[i].gate][fs[i].category]
                                          && key.Rev() in r[fs[i].gate][fs[i].category]
  {
    if |fs| > 0 {
      var init := fs[..|fs| - 1];
      var last := fs[|fs| - 1];
      PooledAllFiles(pools, init, key);
      var m := PooledAll(pools, init, key);
      var r := PooledAll(pools, fs, key);
      assert r == Pooled(m, last, key);
      var b := BucketsOf(m, last.gate);
      assert r[last.gate][last.category] == b[last.category] + [key, key.Rev()];
      forall i | 0 <= i < |fs|
        ensures fs[i].gate in r && key in r[fs[i].gate][fs[i].category] && key.Rev() in r[fs[i].gate][fs[i].category]
      {
        if i < |fs| - 1 {
          assert fs[i] == init[i];
          var f := fs[i];
          if f.gate == last.gate && f.category == last.category {
          } else if f.gate == last.gate {
            assert r[f.gate][f.category] == m[f.gate][f.category];
          } else {
            assert r[f.gate] == m[f.gate];
          }
        }
      }
    }
  }

  /** Gates no filing names keep their buckets. */
  lemma {:induction false} PooledAllLeavesOthers(pools: Pools, fs: seq<Filing>, key: EdgeKey, g: string)
    requires PoolsFull(pools) && g in pools
    requires forall i :: 0 <= i < |fs| ==> fs[i].gate != g
    ensures g in PooledAll(pools, fs, key) && PooledAll(pools, fs, key)[g] == pools[g]
  {
    if |fs| > 0 {
      var init := fs[..|fs| - 1];
      assert forall i :: 0 <= i < |init| ==> init[i] == fs[i];
      PooledAllLeavesOthers(pools, init, key, g);
    }
  }

  /* ---------- access ---------- */

  lemma {:induction false} AccessFoldSound(access: map<NodeId, set<EdgeKey>>, nt: Nodes.NodeTables, hps: seq<string>,
                                           key: EdgeKey, edges: map<EdgeKey, EdgeRecord>)
    requires AccessSound(access, edges) && key in edges && key.Rev() in edges
    ensures AccessFold(access, nt, hps, key).Ok? ==> AccessSound(AccessFold(access, nt, hps, key).value, edges)
  {
    if |hps| > 0 {
      AccessFoldSound(access, nt, hps[..|hps| - 1], key, edges);
      var a := AccessFold(access, nt, hps[..|hps| - 1], key);
      if a.Ok? {
        var r := AccessStep(a.value, nt, hps[|hps| - 1], key);
        if r.Ok? {
          var n := nt.names[hps[|hps| - 1]];
          assert r.value == a.value[n := AccessOf(a.value, n) + {key, key.Rev()}];
          assert key.Rev().Rev() == key;
        }
      }
    }
  }

  /** Every access name is a remote-holding node whose access set then holds the pair. */
  lemma {:induction false} AccessFoldGrants(access: map<NodeId, set<EdgeKey>>, nt: Nodes.NodeTables, hps: seq<string>,
                                            key: EdgeKey)
    requires AccessFold(access, nt, hps, key).Ok?
    ensures forall i :: 0 <= i < |hps| ==>
              hps[i] in nt.names && nt.names[hps[i]] in nt.remholds
              && nt.names[hps[i]] in AccessFold(access, nt, hps, key).value
              && key in AccessFold(access, nt, hps, key).value[nt.names[hps[i]]]
              && key.Rev() in AccessFold(access, nt, hps, key).value[nt.names[hps[i]]]
  {
    if |hps| > 0 {
      var init := hps[..|hps| - 1];
      AccessFoldGrants(access, nt, init, key);
      var a := AccessFold(access, nt, init, key).value;
      var r := AccessFold(access, nt, hps, key).value;
      var n := nt.names[hps[|hps| - 1]];
      assert r == a[n := AccessOf(a, n) + {key, key.Rev()}];
      assert hps[|hps| - 1] in nt.names && n in nt.remholds;
      forall i | 0 <= i < |hps|
        ensures hps[i] in nt.names && nt.names[hps[i]] in nt.remholds
        ensures nt.names[hps[i]] in r && key in r[nt.names[hps[i]]] && key.Rev() in r[nt.names[hps[i]]]
      {
        if i < |hps| - 1 { assert hps[i] == init[i]; }
      }
    }
  }

  /* ---------- one path, all paths ---------- */

  lemma AccessGrow(access: map<NodeId, set<EdgeKey>>, edges: map<EdgeKey, EdgeRecord>, bigger: map<EdgeKey, EdgeRecord>)
    requires AccessSound(access, edges) && edges.Keys <= bigger.Keys
    ensures AccessSound(access, bigger)
  {
  }

  /** The svg id of a registered path is known, and its entry bucket lists it. */
  lemma IdsKnownAfter(t: EdgeTables, id: string, key: EdgeKey, bucket: Option<string>, edges: map<EdgeKey, EdgeRecord>)
    requires IdsKnown(t) && t.edges.Keys <= edges.Keys && key in edges
    ensures IdsKnown(EdgeTables(edges, t.svgToEdge[id := key], Entered(t.entries, bucket, id), t.push, t.pull, t.access))
  {
    var entries := Entered(t.entries, bucket, id);
    var svg := t.svgToEdge[id := key];
    forall e, i | e in entries && 0 <= i < |entries[e]| ensures entries[e][i] in svg {
      if bucket.Some? && e == bucket.value {
        var old_ := if e in t.entries then t.entries[e] else [];
        assert entries[e] == old_ + [id];
        if i < |old_| { assert entries[e][i] == old_[i]; }
      }
    }
  }

  /**
   * One path keeps the tables sound and never changes a record already
   * there: a path whose key is taken is skipped, so the first path wins.
   */
  lemma PathStepSound(t: EdgeTables, nt: Nodes.NodeTables, p: PathRecord)
    requires Sound(t) && PathReadable(p)
    ensures var r := PathStep(t, nt, p);
            r.Ok? ==> Sound(r.value) && t.edges.Keys <= r.value.edges.Keys
                      && forall k :: k in t.edges ==> r.value.edges[k] == t.edges[k]
  {
    if StartsWith(p.id, EdgeIdPrefix) {
      var key := PathKey(p, nt.intersectionCount);
      if key !in t.edges && MaxspanReadable(p.nameAttr) && IsPathType(p.pathType) {
        var d := DecodeName(p.nameAttr, p.pathType);
        var a := AccessFold(t.access, nt, d.accessHolds, key);
        if a.Ok? && !MissingPullGates(d.svgName, p.pathType) && VariantsQualified(d.svgName, p.pathType) {
          var edges := Mirrored(t.edges, key, p, d);
          MirroredClosed(t.edges, key, p, d);
          PoolsWithinGrow(t.push, t.edges, edges);
          PoolsWithinGrow(t.pull, t.edges, edges);
          PooledAllSound(t.push, d.pushFilings, key, edges);
          PooledAllSound(t.pull, d.pullFilings, key, edges);
          AccessGrow(t.access, t.edges, edges);
          AccessFoldSound(t.access, nt, d.accessHolds, key, edges);
          IdsKnownAfter(t, p.id, key, d.entryKey, edges);
          var r := PathStep(t, nt, p);
          assert r.value == EdgeTables(edges, t.svgToEdge[p.id := key], Entered(t.entries, d.entryKey, p.id),
                                       PooledAll(t.push, d.pushFilings, key), PooledAll(t.pull, d.pullFilings, key),
                                       a.value);
        }
      }
    }
  }

  lemma {:induction false} PathFoldSound(t: EdgeTables, nt: Nodes.NodeTables, ps: seq<PathRecord>)
    requires Sound(t) && PathsReadable(ps)
    ensures var r := PathFold(t, nt, ps);
            r.Ok? ==> Sound(r.value) && t.edges.Keys <= r.value.edges.Keys
                      && forall k :: k in t.edges ==> r.value.edges[k] == t.edges[k]
  {
    if |ps| > 0 {
      var init := ps[..|ps| - 1];
      assert forall i :: 0 <= i < |init| ==> init[i] == ps[i];
      PathFoldSound(t, nt, init);
      var m := PathFold(t, nt, init);
      if m.Ok? {
        PathStepSound(m.value, nt, ps[|ps| - 1]);
      }
    }
  }

  /**
   * After `import_edges` every edge has its mirror, every pool bucket holds
   * pairs of known edges, every access set and entry bucket names known
   * edges and paths, and no key is open at both ends.
   */
  lemma ImportEdgesSound(nt: Nodes.NodeTables, ps: seq<PathRecord>)
    requires PathsReadable(ps)
    ensures var r := ImportEdgesSpec(nt, ps);
            r.Ok? ==> Sound(r.value) && EdgeKey(None, None) !in r.value.edges
  {
    PathFoldSound(EmptyEdgeTables(), nt, ps);
  }

  /** Once a path's key is in the map, any later path with the same key changes nothing. */
  lemma PathStepSkipsTakenKey(t: EdgeTables, nt: Nodes.NodeTables, p: PathRecord)
    requires PathReadable(p) && PoolsFull(t.push) && PoolsFull(t.pull)
    requires StartsWith(p.id, EdgeIdPrefix) && PathKey(p, nt.intersectionCount) in t.edges
    ensures PathStep(t, nt, p) == Ok(t)
  {
  }

  lemma PathStepKeepsKeys(t: EdgeTables, nt: Nodes.NodeTables, p: PathRecord)
    requires PathReadable(p) && PoolsFull(t.push) && PoolsFull(t.pull)
    ensures PathStep(t, nt, p).Ok? ==> t.edges.Keys <= PathStep(t, nt, p).value.edges.Keys
  {
  }

  /** Along the prefixes of a successful loop, every prefix succeeded and the keys only grow. */
  lemma {:induction false} KeysGrowAlongPrefixes(t: EdgeTables, nt: Nodes.NodeTables, ps: seq<PathRecord>, m: nat, n: nat)
    requires PathsReadable(ps) && PoolsFull(t.push) && PoolsFull(t.pull)
    requires m <= n <= |ps| && PathFold(t, nt, ps[..n]).Ok?
    ensures PathFold(t, nt, ps[..m]).Ok?
    ensures PathFold(t, nt, ps[..m]).value.edges.Keys <= PathFold(t, nt, ps[..n]).value.edges.Keys
    decreases n - m
  {
    if m < n {
      assert ps[..n][..n - 1] == ps[..n - 1];
      var prev := PathFold(t, nt, ps[..n - 1]);
      assert prev.Ok?;
      PathStepKeepsKeys(prev.value, nt, ps[n - 1]);
      KeysGrowAlongPrefixes(t, nt, ps, m, n - 1);
    }
  }

  /**
   * First wins: when paths `i < j` resolve to the same key, path `j` is
   * skipped and the loop after it is the loop before it.
   */
  lemma DuplicateKeySkipped(nt: Nodes.NodeTables, ps: seq<PathRecord>, i: nat, j: nat)
    requires PathsReadable(ps) && i < j < |ps|
    requires StartsWith(ps[i].id, EdgeIdPrefix) && StartsWith(ps[j].id, EdgeIdPrefix)
    requires PathKey(ps[i], nt.intersectionCount) == PathKey(ps[j], nt.intersectionCount)
    requires PathFold(EmptyEdgeTables(), nt, ps[..j + 1]).Ok?
    ensures PathFold(EmptyEdgeTables(), nt, ps[..j + 1]) == PathFold(EmptyEdgeTables(), nt, ps[..j])
  {
    var e := EmptyEdgeTables();
    KeysGrowAlongPrefixes(e, nt, ps, j, j + 1);
    KeysGrowAlongPrefixes(e, nt, ps, i + 1, j);
    FoldLast(e, nt, ps, i + 1);
    PathStepHasKey(PathFold(e, nt, ps[..i]).value, nt, ps[i]);
    FoldLast(e, nt, ps, j + 1);
    PathStepSkipsTakenKey(PathFold(e, nt, ps[..j]).value, nt, ps[j]);
  }

  /** A successful loop over the first `n` paths is the step of path `n - 1` after the loop over the others. */
  lemma FoldLast(t: EdgeTables, nt: Nodes.NodeTables, ps: seq<PathRecord>, n: nat)
    requires PathsReadable(ps) && PoolsFull(t.push) && PoolsFull(t.pull)
    requires 0 < n <= |ps| && PathFold(t, nt, ps[..n]).Ok?
    ensures PathFold(t, nt, ps[..n - 1]).Ok?
    ensures PathFold(t, nt, ps[..n]) == PathStep(PathFold(t, nt, ps[..n - 1]).value, nt, ps[n - 1])
  {
    assert ps[..n][..n - 1] == ps[..n - 1];
  }

  /** A successful step over an edge path leaves its key in the map. */
  lemma PathStepHasKey(t: EdgeTables, nt: Nodes.NodeTables, p: PathRecord)
    requires PathReadable(p) && PoolsFull(t.push) && PoolsFull(t.pull) && StartsWith(p.id, EdgeIdPrefix)
    requires PathStep(t, nt, p).Ok?
    ensures PathKey(p, nt.intersectionCount) in PathStep(t, nt, p).value.edges
  {
  }

  /**
   * A registered path: its id points at its key, the key holds the forward
   * record and the reverse key the backward one (for a loop only the
   * backward one survives), typed and named by the decision list, with the
   * maxspan marker stripped from the name.
   */
  lemma RegisteredPath(t: EdgeTables, nt: Nodes.NodeTables, p: PathRecord)
    requires PathReadable(p) && PoolsFull(t.push) && PoolsFull(t.pull) && StartsWith(p.id, EdgeIdPrefix)
    requires PathKey(p, nt.intersectionCount) !in t.edges && PathStep(t, nt, p).Ok?
    ensures MaxspanReadable(p.nameAttr) && IsPathType(p.pathType)
    ensures !MissingPullGates(StripMaxspan(p.nameAttr).0, p.pathType) && VariantsQualified(StripMaxspan(p.nameAttr).0, p.pathType)
    ensures var key := PathKey(p, nt.intersectionCount);
            var r := PathStep(t, nt, p).value;
            var d := DecodeName(p.nameAttr, p.pathType);
            r.svgToEdge[p.id] == key && key in r.edges && r.edges[key.Rev()] == Backward(p, d)
            && (key != key.Rev() ==> r.edges[key] == Forward(p, d))
            && (r.edges[key].edgeType, r.edges[key].edgeName) == TypeByPrecedence(r.edges[key].svgName, p.pathType)
            && (r.edges[key].svgName, r.edges[key].maxspan) == StripMaxspan(p.nameAttr)
  {
    DecodeFollowsPrecedence(p.nameAttr, p.pathType);
  }
}
