/**
 * `Layout.create_pushpull_data` (src/Layout/Layout.py): the pools of
 * bidirectional push and pull fragments that `import_edges` filed per gate
 * and category are chained into directed paths, categories without a push
 * path of their own borrow the Standard one, and the ICAO categories are
 * grouped behind a representative whose paths they share.
 */
module Pushback {
  import opened Wrappers
  import opened Graph
  import opened Edges
  import opened EdgeProperties

  /** The ways `create_pushpull_data` stops: a failed lookup, `index` or assertion. */
  datatype PushError =
    | UnknownGate(gate: string)                        // `ramp2node_dict[ramp_id]`
    | StandEdgeCount(gate: string, count: nat)         // the assertion on `edges_from_ramp`
    | MissingReverse(key: EdgeKey)                     // `pot_edges.index(reverse)` finds nothing
    | NoPushPaths(gate: string)                        // `edges_pushback_dict[ramp_id]` for a pull-only gate
    | EmptyPushChain(gate: string, category: Category) // `[-1]` on an empty push path
    | MissingGroupPath(gate: string, category: Category) // a group's representative was dropped as empty

  /* ---------- chaining a pool ---------- */

  /** The first pool entry that starts at `last` (the inner `for` loop with `break`). */
  function FirstStartingAt(pool: seq<EdgeKey>, last: Option<NodeId>): (r: Option<nat>)
    ensures r.Some? ==> r.value < |pool| && pool[r.value].u == last
    ensures r.Some? ==> forall j :: 0 <= j < r.value ==> pool[j].u != last
    ensures r.None? ==> forall j :: 0 <= j < |pool| ==> pool[j].u != last
  {
    FirstStartingFrom(pool, last, 0)
  }

  function FirstStartingFrom(pool: seq<EdgeKey>, last: Option<NodeId>, i: nat): (r: Option<nat>)
    requires i <= |pool|
    ensures r.Some? ==> i <= r.value < |pool| && pool[r.value].u == last
    ensures r.Some? ==> forall j :: i <= j < r.value ==> pool[j].u != last
    ensures r.None? ==> forall j :: i <= j < |pool| ==> pool[j].u != last
    decreases |pool| - i
  {
    if i == |pool| then None
    else if pool[i].u == last then Some(i)
    else FirstStartingFrom(pool, last, i + 1)
  }

  /** Python `pool.index(k)`: the first position holding `k`, `None` for the `ValueError`. */
  function IndexOfKey(pool: seq<EdgeKey>, k: EdgeKey): (r: Option<nat>)
    ensures r.Some? ==> r.value < |pool| && pool[r.value] == k && k !in pool[..r.value]
    ensures r.None? <==> k !in pool
  {
    IndexOfKeyFrom(pool, k, 0)
  }

  function IndexOfKeyFrom(pool: seq<EdgeKey>, k: EdgeKey, i: nat): (r: Option<nat>)
    requires i <= |pool|
    ensures r.Some? ==> i <= r.value < |pool| && pool[r.value] == k && k !in pool[i..r.value]
    ensures r.None? <==> k !in pool[i..]
    decreases |pool| - i
  {
    if i == |pool| then None
    else if pool[i] == k then Some(i)
    else
      assert pool[i..] == [pool[i]] + pool[i + 1..];
      IndexOfKeyFrom(pool, k, i + 1)
  }

  /** Python `pool.pop(i)`. */
  function RemoveAt(pool: seq<EdgeKey>, i: nat): (r: seq<EdgeKey>)
    requires i < |pool|
    ensures |r| == |pool| - 1
  {
    pool[..i] + pool[i + 1..]
  }

  /** `pop(i)` takes exactly one copy of `pool[i]` out. */
  lemma RemoveAtCounts(pool: seq<EdgeKey>, i: nat)
    requires i < |pool|
    ensures multiset(RemoveAt(pool, i)) == multiset(pool) - multiset{pool[i]}
  {
    assert pool == pool[..i] + [pool[i]] + pool[i + 1..];
  }

  /**
   * The chain that starts at `last`: take the first fragment leaving the
   * chain's end, drop it and (the first copy of) its reverse from the pool,
   * and go on from its far end until no fragment leaves the end.
   */
  function ChainFrom(last: Option<NodeId>, pool: seq<EdgeKey>): (r: Result<seq<EdgeKey>, PushError>)
    decreases |pool|
  {
    match FirstStartingAt(pool, last)
    case None => Ok([])
    case Some(i) =>
      var e := pool[i];
      var rest := RemoveAt(pool, i);
      match IndexOfKey(rest, e.Rev())
      case None => Err(MissingReverse(e))
      case Some(j) =>
        var tail :- ChainFrom(e.v, RemoveAt(rest, j));
        Ok([e] + tail)
  }

  /** A chain `acc` already built, followed by what is still to come. */
  function Then(acc: seq<EdgeKey>, r: Result<seq<EdgeKey>, PushError>): Result<seq<EdgeKey>, PushError>
  {
    if r.Ok? then Ok(acc + r.value) else r
  }

  /** The inner `for` loop over the pool. */
  method FindStart(pool: seq<EdgeKey>, last: Option<NodeId>) returns (r: Option<nat>)
    ensures r == FirstStartingAt(pool, last)
  {
    var i := 0;
    while i < |pool|
      invariant 0 <= i <= |pool|
      invariant FirstStartingAt(pool, last) == FirstStartingFrom(pool, last, i)
    {
      if pool[i].u == last {
        return Some(i);
      }
      i := i + 1;
    }
    return None;
  }

  /**
   * The `while pot_edges` loop: the chain from `start`, built on a working
   * copy of the pool from which every matched fragment and its reverse are
   * popped.
   */
  method Chain(start: Option<NodeId>, pool: seq<EdgeKey>) returns (r: Result<seq<EdgeKey>, PushError>)
    ensures r == ChainFrom(start, pool)
  {
    var chain: seq<EdgeKey> := [];
    var pot := pool;
    var last := start;
    assert Then([], ChainFrom(start, pool)) == ChainFrom(start, pool) by {
      if ChainFrom(start, pool).Ok? { assert [] + ChainFrom(start, pool).value == ChainFrom(start, pool).value; }
    }
    while |pot| > 0
      invariant ChainFrom(start, pool) == Then(chain, ChainFrom(last, pot))
      decreases |pot|
    {
      var found := FindStart(pot, last);
      if found.None? {
        break;
      }
      var e := pot[found.value];
      // `index` finds the match itself: no earlier entry starts at `last`.
      var rest := RemoveAt(pot, found.value);
      var j := IndexOfKey(rest, e.Rev());
      if j.None? {
        return Err(MissingReverse(e));
      }
      ThenAppend(chain, e, ChainFrom(e.v, RemoveAt(rest, j.value)));
      chain := chain + [e];
      pot := RemoveAt(rest, j.value);
      last := e.v;
    }
    assert ChainFrom(last, pot) == Ok([]);
    assert chain + [] == chain;
    return Ok(chain);
  }

  lemma ThenAppend(acc: seq<EdgeKey>, e: EdgeKey, r: Result<seq<EdgeKey>, PushError>)
    ensures Then(acc, if r.Ok? then Ok([e] + r.value) else r) == Then(acc + [e], r)
  {
    if r.Ok? {
      assert acc + ([e] + r.value) == acc + [e] + r.value;
    }
  }

  /* ---------- what a chain is ---------- */

  /** Consecutive edges share their meeting node. */
  predicate Linked(c: seq<EdgeKey>)
  {
    forall i :: 0 <= i < |c| - 1 ==> c[i].v == c[i + 1].u
  }

  /** A chain starts at `last` and is linked. */
  lemma {:induction false} ChainIsPath(last: Option<NodeId>, pool: seq<EdgeKey>)
    requires ChainFrom(last, pool).Ok?
    ensures var c := ChainFrom(last, pool).value;
            (|c| > 0 ==> c[0].u == last) && Linked(c)
    decreases |pool|
  {
    match FirstStartingAt(pool, last)
    case None =>
    case Some(i) =>
      var e := pool[i];
      var rest := RemoveAt(pool, i);
      var j := IndexOfKey(rest, e.Rev()).value;
      var left := RemoveAt(rest, j);
      ChainIsPath(e.v, left);
      var tail := ChainFrom(e.v, left).value;
      var c := [e] + tail;
      assert ChainFrom(last, pool).value == c;
      forall k | 0 <= k < |c| - 1 ensures c[k].v == c[k + 1].u {
        if k > 0 { assert c[k] == tail[k - 1] && c[k + 1] == tail[k]; }
      }
  }

  /** A chain uses each pool entry at most once. */
  lemma {:induction false} ChainFromPool(last: Option<NodeId>, pool: seq<EdgeKey>)
    requires ChainFrom(last, pool).Ok?
    ensures multiset(ChainFrom(last, pool).value) <= multiset(pool)
    decreases |pool|
  {
    match FirstStartingAt(pool, last)
    case None =>
    case Some(i) =>
      var e := pool[i];
      var rest := RemoveAt(pool, i);
      var j := IndexOfKey(rest, e.Rev()).value;
      var left := RemoveAt(rest, j);
      ChainFromPool(e.v, left);
      RemoveAtCounts(pool, i);
      RemoveAtCounts(rest, j);
      var tail := ChainFrom(e.v, left).value;
      assert multiset([e] + tail) == multiset{e} + multiset(tail);
  }

  /** Every step uses up two pool entries, so a chain is at most half the pool. */
  lemma {:induction false} ChainBound(last: Option<NodeId>, pool: seq<EdgeKey>)
    requires ChainFrom(last, pool).Ok?
    ensures 2 * |ChainFrom(last, pool).value| <= |pool|
    decreases |pool|
  {
    match FirstStartingAt(pool, last)
    case None =>
    case Some(i) =>
      var rest := RemoveAt(pool, i);
      var j := IndexOfKey(rest, pool[i].Rev()).value;
      ChainBound(pool[i].v, RemoveAt(rest, j));
  }

  /** The chain stops only when no pool fragment leaves its start; otherwise it begins with the first that does. */
  lemma ChainStart(last: Option<NodeId>, pool: seq<EdgeKey>, i: nat)
    requires i < |pool| && pool[i].u == last && ChainFrom(last, pool).Ok?
    ensures |ChainFrom(last, pool).value| > 0
    ensures ChainFrom(last, pool).value[0] == pool[FirstStartingAt(pool, last).value]
  {
  }

  /* ---------- pools that never make `index` fail ---------- */

  /** Every key is as frequent as its reverse, and a key that is its own reverse occurs an even number of times. */
  ghost predicate Balanced(pool: seq<EdgeKey>)
  {
    forall k :: multiset(pool)[k] == multiset(pool)[k.Rev()] && (k == k.Rev() ==> multiset(pool)[k] % 2 == 0)
  }

  /** The pools `import_edges` files are balanced. */
  lemma {:induction false} PairedBalanced(l: seq<EdgeKey>)
    requires Paired(l)
    ensures Balanced(l)
    decreases |l|
  {
    if |l| > 0 {
      var a := l[0];
      var tail := l[2..];
      PairedTail(l);
      PairedBalanced(tail);
      assert l == [a] + ([a.Rev()] + tail);
      forall k: EdgeKey ensures multiset(l)[k] == multiset(l)[k.Rev()] && (k == k.Rev() ==> multiset(l)[k] % 2 == 0) {
        PairBalancedAt(a, tail, k);
      }
    }
  }

  lemma PairedTail(l: seq<EdgeKey>)
    requires Paired(l) && |l| > 0
    ensures |l| >= 2 && l[1] == l[0].Rev() && Paired(l[2..])
  {
    var tail := l[2..];
    forall i | 0 <= i < |tail| && i % 2 == 0 ensures i + 1 < |tail| && tail[i + 1] == tail[i].Rev() {
      assert l[i + 2 + 1] == l[i + 2].Rev();
    }
  }

  lemma PairBalancedAt(a: EdgeKey, tail: seq<EdgeKey>, k: EdgeKey)
    requires multiset(tail)[k] == multiset(tail)[k.Rev()] && (k == k.Rev() ==> multiset(tail)[k] % 2 == 0)
    ensures var m := multiset([a] + ([a.Rev()] + tail));
            m[k] == m[k.Rev()] && (k == k.Rev() ==> m[k] % 2 == 0)
  {
    var m := multiset([a] + ([a.Rev()] + tail));
    assert m == multiset{a} + multiset{a.Rev()} + multiset(tail);
    assert k.Rev().Rev() == k && a.Rev().Rev() == a;
    assert m[k] == (if a == k then 1 else 0) + (if a.Rev() == k then 1 else 0) + multiset(tail)[k];
    assert m[k.Rev()] == (if a == k.Rev() then 1 else 0) + (if a.Rev() == k.Rev() then 1 else 0) + multiset(tail)[k.Rev()];
  }

  /** Popping a fragment and then its reverse keeps a pool balanced; the reverse is always there. */
  lemma PopPairBalanced(pool: seq<EdgeKey>, i: nat)
    requires Balanced(pool) && i < |pool|
    ensures pool[i].Rev() in RemoveAt(pool, i)
    ensures forall j :: 0 <= j < |pool| - 1 && RemoveAt(pool, i)[j] == pool[i].Rev() ==>
              Balanced(RemoveAt(RemoveAt(pool, i), j))
  {
    var e := pool[i];
    var rest := RemoveAt(pool, i);
    RemoveAtCounts(pool, i);
    assert e.Rev().Rev() == e;
    assert multiset(pool)[e] >= 1;
    assert multiset(rest)[e.Rev()] > 0 by {
      if e == e.Rev() {
        assert multiset(rest)[e] == multiset(pool)[e] - 1;
      } else {
        assert multiset(rest)[e.Rev()] == multiset(pool)[e.Rev()];
      }
    }
    forall j | 0 <= j < |rest| && rest[j] == e.Rev() ensures Balanced(RemoveAt(rest, j)) {
      PopTwiceBalanced(pool, i, j);
    }
  }

  lemma PopTwiceBalanced(pool: seq<EdgeKey>, i: nat, j: nat)
    requires Balanced(pool) && i < |pool| && j < |pool| - 1 && RemoveAt(pool, i)[j] == pool[i].Rev()
    ensures Balanced(RemoveAt(RemoveAt(pool, i), j))
  {
    var e := pool[i];
    var rest := RemoveAt(pool, i);
    var left := RemoveAt(rest, j);
    RemoveAtCounts(pool, i);
    RemoveAtCounts(rest, j);
    assert multiset(left) == multiset(pool) - multiset{e} - multiset{e.Rev()};
    forall k: EdgeKey ensures multiset(left)[k] == multiset(left)[k.Rev()] && (k == k.Rev() ==> multiset(left)[k] % 2 == 0) {
      PopBalancedAt(multiset(pool), e, k);
    }
  }

  lemma PopBalancedAt(m: multiset<EdgeKey>, e: EdgeKey, k: EdgeKey)
    requires m[e] >= 1 && (m - multiset{e})[e.Rev()] >= 1
    requires m[k] == m[k.Rev()] && (k == k.Rev() ==> m[k] % 2 == 0)
    ensures var n := m - multiset{e} - multiset{e.Rev()};
            n[k] == n[k.Rev()] && (k == k.Rev() ==> n[k] % 2 == 0)
  {
    assert k.Rev().Rev() == k && e.Rev().Rev() == e;
  }

  /** Chaining a balanced pool never runs into a missing reverse. */
  lemma {:induction false} BalancedChainSucceeds(last: Option<NodeId>, pool: seq<EdgeKey>)
    requires Balanced(pool)
    ensures ChainFrom(last, pool).Ok?
    decreases |pool|
  {
    match FirstStartingAt(pool, last)
    case None =>
    case Some(i) =>
      PopPairBalanced(pool, i);
      var rest := RemoveAt(pool, i);
      var j := IndexOfKey(rest, pool[i].Rev()).value;
      BalancedChainSucceeds(pool[i].v, RemoveAt(rest, j));
  }

  /** A fragment pair picked twice over, as in a push path drawn as two bidirectional pieces from gate 12. */
  lemma TwoFragmentChain()
    ensures ChainFrom(Some(12), [Key(12, 15), Key(15, 12), Key(15, 20), Key(20, 15)]) == Ok([Key(12, 15), Key(15, 20)])
  {
    var pool := [Key(12, 15), Key(15, 12), Key(15, 20), Key(20, 15)];
    var rest := [Key(15, 12), Key(15, 20), Key(20, 15)];
    var left := [Key(15, 20), Key(20, 15)];
    assert FirstStartingAt([], Some(20)) == None;
    assert ChainFrom(Some(20), []) == Ok([]);
    assert FirstStartingAt(left, Some(15)) == Some(0);
    assert RemoveAt(left, 0) == [Key(20, 15)];
    assert Key(15, 20).Rev() == Key(20, 15);
    assert IndexOfKey([Key(20, 15)], Key(20, 15)) == Some(0);
    assert RemoveAt([Key(20, 15)], 0) == [];
    assert [Key(15, 20)] + [] == [Key(15, 20)];
    assert ChainFrom(Some(15), left) == Ok([Key(15, 20)]);
    assert FirstStartingAt(pool, Some(12)) == Some(0);
    assert RemoveAt(pool, 0) == rest;
    assert Key(12, 15).Rev() == Key(15, 12);
    assert IndexOfKey(rest, Key(15, 12)) == Some(0);
    assert RemoveAt(rest, 0) == left;
    assert pool[0].v == Some(15);
    assert [Key(12, 15)] + [Key(15, 20)] == [Key(12, 15), Key(15, 20)];
  }


  /* ---------- push paths of one gate ---------- */

  /** A gate's paths per category; the same shape as its pools. */
  type Chains = map<Category, seq<EdgeKey>>

  /** The push path from a non-empty pool: the gate's stand edge, then the chain from its end. */
  function PushChain(stand: EdgeKey, pool: seq<EdgeKey>): (r: Result<seq<EdgeKey>, PushError>)
  {
    if |pool| == 0 then Ok([])
    else
      var c :- ChainFrom(stand.v, pool);
      Ok([stand] + c)
  }

  /**
   * A push path starts with the stand edge, is linked, and has at most one
   * edge more than half its pool.
   */
  lemma PushChainShape(stand: EdgeKey, pool: seq<EdgeKey>)
    requires |pool| > 0 && PushChain(stand, pool).Ok?
    ensures var p := PushChain(stand, pool).value;
            |p| >= 1 && p[0] == stand && Linked(p) && 2 * (|p| - 1) <= |pool|
  {
    ChainIsPath(stand.v, pool);
    ChainBound(stand.v, pool);
    var c := ChainFrom(stand.v, pool).value;
    var p := [stand] + c;
    forall k | 0 <= k < |p| - 1 ensures p[k].v == p[k + 1].u {
      if k > 0 { assert p[k] == c[k - 1] && p[k + 1] == c[k]; }
    }
  }

  /** The push paths of the categories in `cats`, in that order; the first failure stops it. */
  function PushChains(stand: EdgeKey, b: Buckets, cats: seq<Category>): (r: Result<Chains, PushError>)
    requires Full(b)
    ensures r.Ok? ==> forall c :: c in r.value <==> c in cats
  {
    if |cats| == 0 then Ok(map[])
    else
      var prev :- PushChains(stand, b, cats[..|cats| - 1]);
      var ch :- PushChain(stand, b[cats[|cats| - 1]]);
      assert cats == cats[..|cats| - 1] + [cats[|cats| - 1]];
      Ok(prev[cats[|cats| - 1] := ch])
  }

  lemma {:induction false} PushChainsValues(stand: EdgeKey, b: Buckets, cats: seq<Category>, c: Category)
    requires Full(b) && PushChains(stand, b, cats).Ok? && c in cats
    ensures PushChain(stand, b[c]).Ok? && PushChains(stand, b, cats).value[c] == PushChain(stand, b[c]).value
    decreases |cats|
  {
    var n := |cats| - 1;
    if c != cats[n] {
      assert c in cats[..n] by {
        var i :| 0 <= i < |cats| && cats[i] == c;
        assert cats[..n][i] == c;
      }
      PushChainsValues(stand, b, cats[..n], c);
    }
  }

  /** What `ramp2node_dict` and the enhanced `edges_from_ramp` sets give the push step. */
  predicate RampsLinked(rampNodes: map<string, NodeId>, rampFrom: map<NodeId, set<EdgeKey>>)
  {
    forall g :: g in rampNodes ==> rampNodes[g] in rampFrom
  }

  /**
   * The push paths of one gate: its ramp must exist and have exactly one
   * outgoing stand edge, which starts the path of every category whose pool
   * is not empty.
   */
  ghost function PushOf(gate: string, b: Buckets, rampNodes: map<string, NodeId>, rampFrom: map<NodeId, set<EdgeKey>>)
    : (r: Result<Chains, PushError>)
    requires Full(b) && RampsLinked(rampNodes, rampFrom)
  {
    if gate !in rampNodes then Err(UnknownGate(gate))
    else
      var stands := rampFrom[rampNodes[gate]];
      if |stands| != 1 then Err(StandEdgeCount(gate, |stands|))
      else
        var s :| s in stands;
        PushChains(s, b, AllCategories)
  }

  /** The category loop of one gate. */
  method GatePushPaths(stand: EdgeKey, b: Buckets) returns (r: Result<Chains, PushError>)
    requires Full(b)
    ensures r == PushChains(stand, b, AllCategories)
  {
    var chains: Chains := map[];
    var i := 0;
    while i < |AllCategories|
      invariant 0 <= i <= |AllCategories|
      invariant PushChains(stand, b, AllCategories[..i]) == Ok(chains)
    {
      var c := AllCategories[i];
      PushChainsNext(stand, b, AllCategories, i, chains);
      var path: seq<EdgeKey> := [];
      if |b[c]| > 0 {
        var rest := Chain(stand.v, b[c]);
        if rest.Err? {
          PushChainsErrorPersists(stand, b, AllCategories, i + 1);
          return Err(rest.error);
        }
        path := [stand] + rest.value;
      }
      assert PushChain(stand, b[c]) == Ok(path);
      chains := chains[c := path];
      i := i + 1;
    }
    assert AllCategories[..|AllCategories|] == AllCategories;
    r := Ok(chains);
  }

  /** One more category of the push loop. */
  lemma PushChainsNext(stand: EdgeKey, b: Buckets, cats: seq<Category>, i: nat, chains: Chains)
    requires Full(b) && i < |cats| && PushChains(stand, b, cats[..i]) == Ok(chains)
    ensures PushChains(stand, b, cats[..i + 1])
            == match PushChain(stand, b[cats[i]])
               case Ok(p) => Ok(chains[cats[i] := p])
               case Err(e) => Err(e)
  {
    assert cats[..i + 1][..i] == cats[..i];
  }

  lemma {:induction false} PushChainsErrorPersists(stand: EdgeKey, b: Buckets, cats: seq<Category>, n: nat)
    requires Full(b) && n <= |cats| && PushChains(stand, b, cats[..n]).Err?
    ensures PushChains(stand, b, cats) == PushChains(stand, b, cats[..n])
    decreases |cats|
  {
    if n < |cats| {
      assert cats[..|cats| - 1][..n] == cats[..n];
      PushChainsErrorPersists(stand, b, cats[..|cats| - 1], n);
    } else {
      assert cats[..n] == cats;
    }
  }

  /** The gate loop of the push step. */
  method PushAll(pools: Pools, rampNodes: map<string, NodeId>, rampFrom: map<NodeId, set<EdgeKey>>)
    returns (r: Result<map<string, Chains>, PushError>)
    requires PoolsFull(pools) && RampsLinked(rampNodes, rampFrom)
    ensures r.Ok? <==> forall g :: g in pools ==> PushOf(g, pools[g], rampNodes, rampFrom).Ok?
    ensures r.Ok? ==> r.value.Keys == pools.Keys
                      && forall g :: g in pools ==> r.value[g] == PushOf(g, pools[g], rampNodes, rampFrom).value
  {
    var m: map<string, Chains> := map[];
    var todo := pools.Keys;
    while todo != {}
      invariant todo <= pools.Keys && m.Keys <= pools.Keys
      invariant forall g :: g in pools ==> (g in m <==> g !in todo)
      invariant forall g :: g in m ==> PushOf(g, pools[g], rampNodes, rampFrom) == Ok(m[g])
      decreases |todo|
    {
      var g :| g in todo;
      if g !in rampNodes {
        return Err(UnknownGate(g));
      }
      var stands := rampFrom[rampNodes[g]];
      if |stands| != 1 {
        return Err(StandEdgeCount(g, |stands|));
      }
      var s :| s in stands;
      assert PushOf(g, pools[g], rampNodes, rampFrom) == PushChains(s, pools[g], AllCategories) by {
        forall s' | s' in stands ensures s' == s { OnlyMember(stands, s, s'); }
      }
      var chains := GatePushPaths(s, pools[g]);
      if chains.Err? {
        return Err(chains.error);
      }
      m := m[g := chains.value];
      todo := todo - {g};
    }
    r := Ok(m);
  }

  /** Every category is one of the seven the source lists. */
  lemma CategoriesListed(c: Category)
    ensures c in AllCategories
  {
    assert c.Standard? || c.IcaoA? || c.IcaoB? || c.IcaoC? || c.IcaoD? || c.IcaoE? || c.IcaoF?;
  }

  /** A gate's push paths cover all seven categories. */
  lemma PushChainsFull(stand: EdgeKey, b: Buckets)
    requires Full(b) && PushChains(stand, b, AllCategories).Ok?
    ensures Full(PushChains(stand, b, AllCategories).value)
  {
    forall c: Category ensures c in PushChains(stand, b, AllCategories).value {
      CategoriesListed(c);
    }
  }

  /* ---------- pull paths of one gate ---------- */

  /** A gate's push paths (absent when it has none) and the pull paths built so far. */
  datatype GatePaths = GatePaths(push: Option<Chains>, pull: Chains)

  predicate PathsFull(st: GatePaths)
  {
    Full(st.pull) && (st.push.Some? ==> Full(st.push.value))
  }

  /**
   * One category of the pull step: a category with pull fragments and no
   * push path of its own takes the Standard push path, and its pull path is
   * chained from that push path's last node; an empty pull path is not stored.
   */
  function PullStep(gate: string, pb: Buckets, st: GatePaths, c: Category): (r: Result<GatePaths, PushError>)
    requires Full(pb) && PathsFull(st)
    ensures r.Ok? ==> PathsFull(r.value) && r.value.push.Some? == st.push.Some?
  {
    if |pb[c]| == 0 then Ok(st)
    else if st.push.None? then Err(NoPushPaths(gate))
    else
      var own := st.push.value;
      var p := if own[c] == [] then own[Standard] else own[c];
      if p == [] then Err(EmptyPushChain(gate, c))
      else PullChain(own, c, p, pb[c], st.pull)
  }

  /** The pull path of category `c` chained from the last node of push path `p`; an empty one is not stored. */
  function PullChain(own: Chains, c: Category, p: seq<EdgeKey>, pool: seq<EdgeKey>, pull: Chains)
    : (r: Result<GatePaths, PushError>)
    requires p != []
    ensures r.Ok? ==> r.value.push == Some(own[c := p])
    ensures r.Ok? ==> forall c' :: c' != c && c' in pull ==> c' in r.value.pull && r.value.pull[c'] == pull[c']
  {
    var pc :- ChainFrom(p[|p| - 1].v, pool);
    Ok(GatePaths(Some(own[c := p]), if pc != [] then pull[c := pc] else pull))
  }

  /**
   * What one pull step promises: the category's push path is its own or,
   * when that is empty, the Standard one, and is not empty; a stored pull
   * path starts at that push path's last node and is linked.
   */
  lemma PullStepInherits(gate: string, pb: Buckets, st: GatePaths, c: Category)
    requires Full(pb) && PathsFull(st) && |pb[c]| > 0 && PullStep(gate, pb, st, c).Ok?
    ensures st.push.Some?
    ensures var own := st.push.value;
            var r := PullStep(gate, pb, st, c).value;
            var p := r.push.value[c];
            && p == (if own[c] == [] then own[Standard] else own[c])
            && p != []
            && (r.pull[c] != st.pull[c] ==> r.pull[c][0].u == p[|p| - 1].v && Linked(r.pull[c]))
  {
    var own := st.push.value;
    var p: seq<EdgeKey> := if own[c] == [] then own[Standard] else own[c];
    PullChainLinked(own, c, p, pb[c], st.pull);
  }

  /** A stored pull path starts at the push path's last node and is linked. */
  lemma PullChainLinked(own: Chains, c: Category, p: seq<EdgeKey>, pool: seq<EdgeKey>, pull: Chains)
    requires p != [] && c in pull && PullChain(own, c, p, pool, pull).Ok?
    ensures var r := PullChain(own, c, p, pool, pull).value;
            && r.push.value[c] == p && c in r.pull
            && (r.pull[c] != pull[c] ==> r.pull[c][0].u == p[|p| - 1].v && Linked(r.pull[c]))
  {
    ChainIsPath(p[|p| - 1].v, pool);
  }

  /** The pull step over the categories in `cats`, in order. */
  function PullFold(gate: string, pb: Buckets, st: GatePaths, cats: seq<Category>): (r: Result<GatePaths, PushError>)
    requires Full(pb) && PathsFull(st)
    ensures r.Ok? ==> PathsFull(r.value) && r.value.push.Some? == st.push.Some?
  {
    if |cats| == 0 then Ok(st)
    else
      var prev :- PullFold(gate, pb, st, cats[..|cats| - 1]);
      PullStep(gate, pb, prev, cats[|cats| - 1])
  }

  predicate ChainsFull(push: map<string, Chains>)
  {
    forall g :: g in push ==> Full(push[g])
  }

  /** The pull step of one gate: its ramp must exist; it starts from the gate's push paths and empty pull paths. */
  function PullOf(gate: string, pb: Buckets, push: map<string, Chains>, rampNodes: map<string, NodeId>)
    : (r: Result<GatePaths, PushError>)
    requires Full(pb) && ChainsFull(push)
    ensures r.Ok? ==> PathsFull(r.value) && (r.value.push.Some? <==> gate in push)
  {
    if gate !in rampNodes then Err(UnknownGate(gate))
    else PullFold(gate, pb, GatePaths(if gate in push then Some(push[gate]) else None, EmptyBuckets()), AllCategories)
  }

  /** The body of the category loop of the pull step. */
  method PullCategory(gate: string, pb: Buckets, st: GatePaths, c: Category) returns (r: Result<GatePaths, PushError>)
    requires Full(pb) && PathsFull(st)
    ensures r == PullStep(gate, pb, st, c)
  {
    if |pb[c]| == 0 {
      r := Ok(st);
    } else if st.push.None? {
      r := Err(NoPushPaths(gate));
    } else {
      var own := st.push.value;
      var p: seq<EdgeKey> := if own[c] == [] then own[Standard] else own[c];
      if p == [] {
        r := Err(EmptyPushChain(gate, c));
      } else {
        r := ChainPull(own, c, p, pb[c], st.pull);
      }
    }
  }

  /** The pull chain of one category, by the chain loop. */
  method ChainPull(own: Chains, c: Category, p: seq<EdgeKey>, pool: seq<EdgeKey>, pull: Chains)
    returns (r: Result<GatePaths, PushError>)
    requires p != []
    ensures r == PullChain(own, c, p, pool, pull)
  {
    var pc := Chain(p[|p| - 1].v, pool);
    if pc.Err? {
      return Err(pc.error);
    }
    r := Ok(GatePaths(Some(own[c := p]), if pc.value != [] then pull[c := pc.value] else pull));
  }

  /** The category loop of the pull step for one gate. */
  method GatePullPaths(gate: string, pb: Buckets, st0: GatePaths) returns (r: Result<GatePaths, PushError>)
    requires Full(pb) && PathsFull(st0)
    ensures r == PullFold(gate, pb, st0, AllCategories)
  {
    var st := st0;
    var i := 0;
    while i < |AllCategories|
      invariant 0 <= i <= |AllCategories|
      invariant PullFold(gate, pb, st0, AllCategories[..i]) == Ok(st)
    {
      assert AllCategories[..i + 1][..i] == AllCategories[..i];
      var next := PullCategory(gate, pb, st, AllCategories[i]);
      if next.Err? {
        PullFoldErrorPersists(gate, pb, st0, AllCategories, i + 1);
        return next;
      }
      st := next.value;
      i := i + 1;
    }
    assert AllCategories[..|AllCategories|] == AllCategories;
    r := Ok(st);
  }

  lemma {:induction false} PullFoldErrorPersists(gate: string, pb: Buckets, st: GatePaths, cats: seq<Category>, n: nat)
    requires Full(pb) && PathsFull(st) && n <= |cats| && PullFold(gate, pb, st, cats[..n]).Err?
    ensures PullFold(gate, pb, st, cats) == PullFold(gate, pb, st, cats[..n])
    decreases |cats|
  {
    if n < |cats| {
      assert cats[..|cats| - 1][..n] == cats[..n];
      PullFoldErrorPersists(gate, pb, st, cats[..|cats| - 1], n);
    } else {
      assert cats[..n] == cats;
    }
  }

  /** One gate of the pull step: its ramp is looked up, then its categories are chained. */
  method PullGate(gate: string, pb: Buckets, push: map<string, Chains>, rampNodes: map<string, NodeId>)
    returns (r: Result<GatePaths, PushError>)
    requires Full(pb) && ChainsFull(push)
    ensures r == PullOf(gate, pb, push, rampNodes)
  {
    if gate !in rampNodes {
      return Err(UnknownGate(gate));
    }
    r := GatePullPaths(gate, pb, GatePaths(if gate in push then Some(push[gate]) else None, EmptyBuckets()));
  }

  /**
   * The gate loop of the pull step: the pull paths of every pull gate, and
   * the push paths with the inherited Standard paths filled in.
   */
  method PullAll(pullPools: Pools, push: map<string, Chains>, rampNodes: map<string, NodeId>)
    returns (r: Result<map<string, GatePaths>, PushError>)
    requires PoolsFull(pullPools) && ChainsFull(push)
    ensures r.Ok? <==> forall g :: g in pullPools ==> PullOf(g, pullPools[g], push, rampNodes).Ok?
    ensures r.Ok? ==> r.value.Keys == pullPools.Keys
                      && forall g :: g in pullPools ==> PullOf(g, pullPools[g], push, rampNodes) == Ok(r.value[g])
  {
    var done: map<string, GatePaths> := map[];
    var todo := pullPools.Keys;
    while todo != {}
      invariant todo <= pullPools.Keys && done.Keys <= pullPools.Keys
      invariant forall g :: g in pullPools ==> (g in done <==> g !in todo)
      invariant forall g :: g in done ==> PullOf(g, pullPools[g], push, rampNodes) == Ok(done[g])
      decreases |todo|
    {
      var g :| g in todo;
      var st := PullGate(g, pullPools[g], push, rampNodes);
      if st.Err? {
        return Err(st.error);
      }
      done := done[g := st.value];
      todo := todo - {g};
    }
    r := Ok(done);
  }

  /**
   * `edges_pushback_dict` after the pull step: a pulled gate's push paths
   * with the borrowed Standard paths filled in, every other gate's as built.
   */
  function PushAfterPull(push: map<string, Chains>, pulled: map<string, GatePaths>): (r: map<string, Chains>)
    ensures r.Keys == push.Keys
    ensures forall g :: g in push && g !in pulled ==> r[g] == push[g]
  {
    map g | g in push :: if g in pulled && pulled[g].push.Some? then pulled[g].push.value else push[g]
  }

  /** The merged push paths and the pull paths hold every category. */
  lemma PulledFull(push: map<string, Chains>, pulled: map<string, GatePaths>)
    requires ChainsFull(push) && forall g :: g in pulled ==> PathsFull(pulled[g])
    ensures ChainsFull(PushAfterPull(push, pulled)) && ChainsFull(PullsOf(pulled))
  {
  }

  /** `edges_pull_dict`: the pull paths of every pulled gate. */
  function PullsOf(pulled: map<string, GatePaths>): (r: map<string, Chains>)
    ensures r.Keys == pulled.Keys
  {
    map g | g in pulled :: pulled[g].pull
  }

  /** Imported pools are paired, so no gate's push paths fail on a missing reverse. */
  lemma {:induction false} PairedPushChainsSucceed(stand: EdgeKey, b: Buckets, cats: seq<Category>)
    requires Full(b) && forall c :: c in b ==> Paired(b[c])
    ensures PushChains(stand, b, cats).Ok?
    decreases |cats|
  {
    if |cats| > 0 {
      PairedPushChainsSucceed(stand, b, cats[..|cats| - 1]);
      var pool := b[cats[|cats| - 1]];
      PairedBalanced(pool);
      BalancedChainSucceeds(stand.v, pool);
    }
  }

  /* ---------- category groups ---------- */

  /** A run of categories sharing the paths of its representative. */
  datatype Group = Group(members: seq<Category>, rep: Category)

  /** The grouping loop's variables: the groups closed so far, `temp_lst` and `last_cat`. */
  datatype GroupScan = GroupScan(done: seq<Group>, pending: seq<Category>, last: Category)

  /**
   * One category: an empty one joins the pending run, a non-empty one closes
   * the run under the previous representative and opens its own; Standard
   * is never a member.
   */
  function ScanStep(s: GroupScan, chains: Chains, c: Category): GroupScan
    requires Full(chains)
  {
    if chains[c] == [] then
      if c != Standard then s.(pending := s.pending + [c]) else s
    else if c != Standard then GroupScan(s.done + [Group(s.pending, s.last)], [c], c)
    else s
  }

  function ScanFold(chains: Chains, cats: seq<Category>): GroupScan
    requires Full(chains)
  {
    if |cats| == 0 then GroupScan([], [], Standard)
    else ScanStep(ScanFold(chains, cats[..|cats| - 1]), chains, cats[|cats| - 1])
  }

  /** The groups of a gate, in the order the source's dictionary receives them. */
  function Groups(chains: Chains): (gs: seq<Group>)
    requires Full(chains)
    ensures |gs| > 0
  {
    var s := ScanFold(chains, AllCategories);
    s.done + [Group(s.pending, s.last)]
  }

  /** The grouping loop. */
  method GroupChains(chains: Chains) returns (gs: seq<Group>)
    requires Full(chains)
    ensures gs == Groups(chains)
  {
    var done: seq<Group> := [];
    var temp: seq<Category> := [];
    var last := Standard;
    for i := 0 to |AllCategories|
      invariant ScanFold(chains, AllCategories[..i]) == GroupScan(done, temp, last)
    {
      var c := AllCategories[i];
      assert AllCategories[..i + 1][..i] == AllCategories[..i];
      if chains[c] == [] {
        if c != Standard {
          temp := temp + [c];
        }
      } else if c != Standard {
        done := done + [Group(temp, last)];
        temp := [c];
        last := c;
      }
    }
    assert AllCategories[..|AllCategories|] == AllCategories;
    gs := done + [Group(temp, last)];
  }

  /** The members of the groups, one after the other. */
  function Flatten(gs: seq<Group>): seq<Category>
  {
    if |gs| == 0 then [] else Flatten(gs[..|gs| - 1]) + gs[|gs| - 1].members
  }

  /** The categories other than Standard, in order. */
  function NonStandard(cats: seq<Category>): seq<Category>
  {
    if |cats| == 0 then []
    else NonStandard(cats[..|cats| - 1]) + (if cats[|cats| - 1] != Standard then [cats[|cats| - 1]] else [])
  }

  lemma {:induction false} ScanCovers(chains: Chains, cats: seq<Category>)
    requires Full(chains)
    ensures var s := ScanFold(chains, cats); Flatten(s.done) + s.pending == NonStandard(cats)
    decreases |cats|
  {
    if |cats| > 0 {
      ScanCovers(chains, cats[..|cats| - 1]);
      var s := ScanFold(chains, cats[..|cats| - 1]);
      var c := cats[|cats| - 1];
      if chains[c] != [] && c != Standard {
        var d := s.done + [Group(s.pending, s.last)];
        assert d[..|d| - 1] == s.done;
        assert Flatten(d) == Flatten(s.done) + s.pending;
      }
    }
  }

  /** The group keys, in order, are exactly ICAO-A to ICAO-F: every ICAO category is in one group. */
  lemma GroupsCover(chains: Chains)
    requires Full(chains)
    ensures Flatten(Groups(chains)) == IcaoCategories
  {
    var s := ScanFold(chains, AllCategories);
    ScanCovers(chains, AllCategories);
    var gs := Groups(chains);
    assert gs[..|gs| - 1] == s.done;
    NonStandardIcao();
  }

  /** Leaving out Standard from the seven categories leaves the six ICAO ones. */
  lemma NonStandardIcao()
    ensures NonStandard(AllCategories) == IcaoCategories
  {
    var a := AllCategories;
    assert a[..1][..0] == [];
    assert NonStandard(a[..1]) == [];
    assert a[..2][..1] == a[..1];
    assert NonStandard(a[..2]) == [IcaoA];
    assert a[..3][..2] == a[..2];
    assert NonStandard(a[..3]) == [IcaoA, IcaoB];
    assert a[..4][..3] == a[..3];
    assert NonStandard(a[..4]) == [IcaoA, IcaoB, IcaoC];
    assert a[..5][..4] == a[..4];
    assert NonStandard(a[..5]) == [IcaoA, IcaoB, IcaoC, IcaoD];
    assert a[..6][..5] == a[..5];
    assert NonStandard(a[..6]) == [IcaoA, IcaoB, IcaoC, IcaoD, IcaoE];
    assert a[..6] == a[..|a| - 1];
  }

  /** Every category of the run has no path of its own. */
  predicate AllEmpty(cs: seq<Category>, chains: Chains)
    requires Full(chains)
  {
    forall k :: 0 <= k < |cs| ==> chains[cs[k]] == []
  }

  /** A run led by its representative, which has a path; the rest have none. */
  predicate Led(g: Group, chains: Chains)
    requires Full(chains)
  {
    |g.members| > 0 && g.members[0] == g.rep && chains[g.rep] != [] && AllEmpty(g.members[1..], chains)
  }

  /** The leading run belongs to Standard and has no paths of its own; every later run is led. */
  predicate GroupsLed(gs: seq<Group>, chains: Chains)
    requires Full(chains)
  {
    (|gs| > 0 ==> gs[0].rep == Standard && AllEmpty(gs[0].members, chains))
    && forall i :: 0 < i < |gs| ==> Led(gs[i], chains)
  }

  lemma ExtendEmpty(cs: seq<Category>, c: Category, chains: Chains)
    requires Full(chains) && AllEmpty(cs, chains) && chains[c] == []
    ensures AllEmpty(cs + [c], chains)
  {
  }

  lemma ExtendLed(g: Group, c: Category, chains: Chains)
    requires Full(chains) && Led(g, chains) && chains[c] == []
    ensures Led(Group(g.members + [c], g.rep), chains)
  {
    assert (g.members + [c])[1..] == g.members[1..] + [c];
    ExtendEmpty(g.members[1..], c, chains);
  }

  lemma {:induction false} ScanLed(chains: Chains, cats: seq<Category>)
    requires Full(chains)
    ensures var s := ScanFold(chains, cats);
            GroupsLed(s.done + [Group(s.pending, s.last)], chains)
    decreases |cats|
  {
    if |cats| > 0 {
      ScanLed(chains, cats[..|cats| - 1]);
      var s := ScanFold(chains, cats[..|cats| - 1]);
      var c := cats[|cats| - 1];
      var before := s.done + [Group(s.pending, s.last)];
      var n := |before| - 1;
      assert before[n] == Group(s.pending, s.last);
      if chains[c] == [] && c != Standard {
        var gs := s.done + [Group(s.pending + [c], s.last)];
        assert ScanFold(chains, cats) == GroupScan(s.done, s.pending + [c], s.last);
        if n == 0 {
          ExtendEmpty(s.pending, c, chains);
        } else {
          ExtendLed(before[n], c, chains);
          assert gs[0] == before[0];
          forall i | 0 < i < |gs| ensures Led(gs[i], chains) {
            if i < n { assert gs[i] == before[i]; }
          }
        }
      } else if chains[c] != [] && c != Standard {
        var gs := before + [Group([c], c)];
        assert ScanFold(chains, cats) == GroupScan(before, [c], c);
        assert gs[0] == before[0];
        forall i | 0 < i < |gs| ensures Led(gs[i], chains) {
          if i <= n { assert gs[i] == before[i]; }
        }
      }
    }
  }

  /**
   * The groups of a gate: the leading run's representative is Standard and
   * it holds only categories without paths; every later run starts with its
   * representative, which has a path, followed by categories without one.
   */
  lemma GroupsWellFormed(chains: Chains)
    requires Full(chains)
    ensures GroupsLed(Groups(chains), chains)
  {
    ScanLed(chains, AllCategories);
  }

  /** Some group lists exactly the categories `m`. */
  predicate Lists(gs: seq<Group>, m: seq<Category>)
  {
    exists i :: 0 <= i < |gs| && gs[i].members == m
  }

  lemma ListsSnoc(gs: seq<Group>)
    requires |gs| > 0
    ensures forall m :: Lists(gs, m) <==> m == gs[|gs| - 1].members || Lists(gs[..|gs| - 1], m)
  {
    forall m | Lists(gs[..|gs| - 1], m) ensures Lists(gs, m) {
      var i :| 0 <= i < |gs| - 1 && gs[..|gs| - 1][i].members == m;
      assert gs[i].members == m;
    }
    forall m | Lists(gs, m) && m != gs[|gs| - 1].members ensures Lists(gs[..|gs| - 1], m) {
      var i :| 0 <= i < |gs| && gs[i].members == m;
      assert gs[..|gs| - 1][i] == gs[i];
    }
  }

  /** The source's `groups` dictionary: member tuple to representative, later groups overwriting earlier ones. */
  function GroupMap(gs: seq<Group>): (r: map<seq<Category>, Category>)
    ensures forall m :: m in r <==> Lists(gs, m)
    ensures forall m :: m in r ==> exists i :: 0 <= i < |gs| && gs[i] == Group(m, r[m])
  {
    if |gs| == 0 then map[]
    else
      var prev := GroupMap(gs[..|gs| - 1]);
      var g := gs[|gs| - 1];
      ListsSnoc(gs);
      assert forall m :: m in prev ==> exists i :: 0 <= i < |gs| && gs[i] == Group(m, prev[m]) by {
        forall m | m in prev ensures exists i :: 0 <= i < |gs| && gs[i] == Group(m, prev[m]) {
          var i :| 0 <= i < |gs| - 1 && gs[..|gs| - 1][i] == Group(m, prev[m]);
          assert gs[i] == Group(m, prev[m]);
        }
      }
      prev[g.members := g.rep]
  }

  /** A group whose member list no later group repeats keeps its own representative. */
  lemma {:induction false} GroupMapKeeps(gs: seq<Group>, j: nat)
    requires j < |gs| && forall i :: j < i < |gs| ==> gs[i].members != gs[j].members
    ensures gs[j].members in GroupMap(gs) && GroupMap(gs)[gs[j].members] == gs[j].rep
    decreases |gs|
  {
    assert Lists(gs, gs[j].members);
    if j < |gs| - 1 {
      var init := gs[..|gs| - 1];
      assert init[j] == gs[j];
      forall i | j < i < |init| ensures init[i].members != init[j].members {
        assert init[i] == gs[i];
      }
      GroupMapKeeps(init, j);
    }
  }

  /** In well-formed groups the leading run's member list is not repeated. */
  lemma LeadingRunUnique(gs: seq<Group>, chains: Chains)
    requires Full(chains) && GroupsLed(gs, chains) && |gs| > 0
    ensures forall i :: 0 < i < |gs| ==> gs[i].members != gs[0].members
  {
    forall i | 0 < i < |gs| ensures gs[i].members != gs[0].members {
      assert Led(gs[i], chains);
      if |gs[0].members| > 0 {
        assert chains[gs[0].members[0]] == [];
      }
    }
  }

  /** Python `edges_pushback_dict[ramp_id]` after its empty paths were popped. */
  function Kept(chains: Chains): (r: map<Category, seq<EdgeKey>>)
    ensures forall c :: c in r <==> c in chains && chains[c] != []
    ensures forall c :: c in r ==> r[c] == chains[c]
  {
    map c | c in chains && chains[c] != [] :: chains[c]
  }

  /** Whether a group of categories is pushed back only or pushed and then pulled. */
  datatype Manoeuvre = PushbackOnly | PushPull

  /** The `ramp_dict[...]['pushback'][group]` record. */
  datatype PushbackEntry = PushbackEntry(push: seq<EdgeKey>, pull: Option<seq<EdgeKey>>, kind: Manoeuvre)

  type Entries = map<seq<Category>, PushbackEntry>

  /** A gate's pull side: its pull groups and its pull paths. */
  datatype PullView = PullView(groups: map<seq<Category>, Category>, chains: Chains)

  /** The pull path a member tuple uses, when its pull group exists and has a path. */
  function PullFor(members: seq<Category>, view: Option<PullView>): (r: Option<seq<EdgeKey>>)
    ensures r.Some? <==> view.Some? && members in view.value.groups
                         && view.value.groups[members] in view.value.chains
                         && view.value.chains[view.value.groups[members]] != []
    ensures r.Some? ==> r.value == view.value.chains[view.value.groups[members]]
  {
    if view.Some? && members in view.value.groups then
      var rep := view.value.groups[members];
      if rep in view.value.chains && view.value.chains[rep] != [] then Some(view.value.chains[rep]) else None
    else None
  }

  /** The record of one group: the representative's push path, and its pull path when there is one. */
  function EntryOf(gate: string, members: seq<Category>, rep: Category, kept: map<Category, seq<EdgeKey>>, view: Option<PullView>)
    : (r: Result<PushbackEntry, PushError>)
    requires forall c :: c in kept ==> kept[c] != []
    ensures r.Ok? <==> rep in kept
    ensures r.Err? ==> r.error == MissingGroupPath(gate, rep)
    ensures r.Ok? ==> r.value.push == kept[rep] && r.value.push != []
    ensures r.Ok? ==> r.value.pull == PullFor(members, view)
    ensures r.Ok? ==> (r.value.kind == PushPull <==> r.value.pull.Some?)
    ensures r.Ok? && r.value.pull.Some? ==> r.value.pull.value != []
  {
    if rep !in kept then Err(MissingGroupPath(gate, rep))
    else
      var pull := PullFor(members, view);
      Ok(PushbackEntry(kept[rep], pull, if pull.Some? then PushPull else PushbackOnly))
  }

  /** The records of the groups in `gs`, in order, each looked up through `groups`. */
  function EntriesFold(gate: string, gs: seq<Group>, groups: map<seq<Category>, Category>,
                       kept: map<Category, seq<EdgeKey>>, view: Option<PullView>): (r: Result<Entries, PushError>)
    requires forall i :: 0 <= i < |gs| ==> gs[i].members in groups
    requires forall c :: c in kept ==> kept[c] != []
    ensures r.Ok? <==> forall i :: 0 <= i < |gs| ==> groups[gs[i].members] in kept
    ensures r.Ok? ==> forall m :: m in r.value <==> Lists(gs, m)
    ensures r.Ok? ==> forall m :: m in r.value ==> m in groups && EntryOf(gate, m, groups[m], kept, view) == Ok(r.value[m])
  {
    if |gs| == 0 then Ok(map[])
    else
      var g := gs[|gs| - 1];
      var prev :- EntriesFold(gate, gs[..|gs| - 1], groups, kept, view);
      var e :- EntryOf(gate, g.members, groups[g.members], kept, view);
      ListsSnoc(gs);
      Ok(prev[g.members := e])
  }

  /**
   * The records of one gate: its push groups, each given its
   * representative's push path and, through the pull groups, its pull path.
   */
  function GateEntries(gate: string, push: Chains, pull: Option<Chains>): (r: Result<Entries, PushError>)
    requires Full(push)
  {
    var gs := Groups(push);
    var groups := GroupMap(gs);
    assert forall i :: 0 <= i < |gs| ==> Lists(gs, gs[i].members);
    var view := if pull.Some? && Full(pull.value) then Some(PullView(GroupMap(Groups(pull.value)), pull.value)) else None;
    EntriesFold(gate, gs, groups, Kept(push), view)
  }

  /** A failed group stops the gate: a longer fold fails the same way. */
  lemma {:induction false} EntriesFoldErrorPersists(gate: string, gs: seq<Group>, groups: map<seq<Category>, Category>,
                                                   kept: map<Category, seq<EdgeKey>>, view: Option<PullView>, n: nat)
    requires n <= |gs|
    requires forall i :: 0 <= i < |gs| ==> gs[i].members in groups
    requires forall c :: c in kept ==> kept[c] != []
    requires EntriesFold(gate, gs[..n], groups, kept, view).Err?
    ensures EntriesFold(gate, gs, groups, kept, view) == EntriesFold(gate, gs[..n], groups, kept, view)
    decreases |gs|
  {
    if n < |gs| {
      assert gs[..|gs| - 1][..n] == gs[..n];
      EntriesFoldErrorPersists(gate, gs[..|gs| - 1], groups, kept, view, n);
    } else {
      assert gs[..n] == gs;
    }
  }

  /** The record loop of one gate: one record per group, in order. */
  method EntriesLoop(gate: string, gs: seq<Group>, groups: map<seq<Category>, Category>,
                     kept: map<Category, seq<EdgeKey>>, view: Option<PullView>) returns (r: Result<Entries, PushError>)
    requires forall i :: 0 <= i < |gs| ==> gs[i].members in groups
    requires forall c :: c in kept ==> kept[c] != []
    ensures r == EntriesFold(gate, gs, groups, kept, view)
  {
    var entries: Entries := map[];
    for i := 0 to |gs|
      invariant EntriesFold(gate, gs[..i], groups, kept, view) == Ok(entries)
    {
      assert gs[..i + 1][..i] == gs[..i];
      var members := gs[i].members;
      var e := EntryOf(gate, members, groups[members], kept, view);
      if e.Err? {
        EntriesFoldErrorPersists(gate, gs, groups, kept, view, i + 1);
        return Err(e.error);
      }
      entries := entries[members := e.value];
    }
    assert gs[..|gs|] == gs;
    r := Ok(entries);
  }

  /** The records of one gate, from its push paths and its pull paths. */
  method AssembleGate(gate: string, push: Chains, pull: Option<Chains>) returns (r: Result<Entries, PushError>)
    requires Full(push)
    ensures r == GateEntries(gate, push, pull)
  {
    var gs := GroupChains(push);
    var view: Option<PullView> := None;
    if pull.Some? && Full(pull.value) {
      var pgs := GroupChains(pull.value);
      view := Some(PullView(GroupMap(pgs), pull.value));
    }
    assert forall i :: 0 <= i < |gs| ==> Lists(gs, gs[i].members);
    r := EntriesLoop(gate, gs, GroupMap(gs), Kept(push), view);
  }

  /** A gate's records exist exactly when it has a Standard push path. */
  lemma GateEntriesOk(gate: string, push: Chains, pull: Option<Chains>)
    requires Full(push)
    ensures GateEntries(gate, push, pull).Ok? <==> push[Standard] != []
  {
    var gs := Groups(push);
    var groups := GroupMap(gs);
    GroupsWellFormed(push);
    LeadingRunUnique(gs, push);
    GroupMapKeeps(gs, 0);
    forall i | 0 <= i < |gs| && push[Standard] != [] ensures groups[gs[i].members] in Kept(push) {
      assert Lists(gs, gs[i].members);
      var j :| 0 <= j < |gs| && gs[j] == Group(gs[i].members, groups[gs[i].members]);
      if j > 0 { assert Led(gs[j], push); }
    }
  }

  /**
   * Every record's push path is the path of the group's first category when
   * that category has one, and otherwise the Standard path; a record is
   * push-pull exactly when its pull path exists.
   */
  lemma EntryPaths(gate: string, push: Chains, pull: Option<Chains>)
    requires Full(push) && GateEntries(gate, push, pull).Ok?
    ensures var r := GateEntries(gate, push, pull).value;
            forall m :: m in r ==>
              && r[m].push == (if |m| > 0 && push[m[0]] != [] then push[m[0]] else push[Standard])
              && r[m].push != []
              && (r[m].kind == PushPull <==> r[m].pull.Some?)
  {
    var gs := Groups(push);
    var groups := GroupMap(gs);
    var r := GateEntries(gate, push, pull).value;
    GroupsWellFormed(push);
    forall m | m in r
      ensures r[m].push == (if |m| > 0 && push[m[0]] != [] then push[m[0]] else push[Standard])
    {
      var j :| 0 <= j < |gs| && gs[j] == Group(m, groups[m]);
      if j > 0 {
        assert Led(gs[j], push);
      } else if |m| > 0 {
        assert push[m[0]] == [];
      }
    }
  }

  /** A category inside the flattened groups lies in one of them. */
  lemma {:induction false} InFlatten(gs: seq<Group>, c: Category)
    requires c in Flatten(gs)
    ensures exists i :: 0 <= i < |gs| && c in gs[i].members
    decreases |gs|
  {
    var n := |gs| - 1;
    if c in gs[n].members {
    } else {
      InFlatten(gs[..n], c);
      var i :| 0 <= i < n && c in gs[..n][i].members;
      assert gs[i] == gs[..n][i];
    }
  }

  /** Every ICAO category of a gate with records is covered by one of them. */
  lemma EveryCategoryServed(gate: string, push: Chains, pull: Option<Chains>, c: Category)
    requires Full(push) && GateEntries(gate, push, pull).Ok? && c != Standard
    ensures exists m :: m in GateEntries(gate, push, pull).value && c in m
  {
    var gs := Groups(push);
    GroupsCover(push);
    assert c in IcaoCategories by { CategoriesListed(c); }
    InFlatten(gs, c);
    var i :| 0 <= i < |gs| && c in gs[i].members;
    assert Lists(gs, gs[i].members);
  }

  function PullPathsOf(pulls: map<string, Chains>, gate: string): Option<Chains>
  {
    if gate in pulls then Some(pulls[gate]) else None
  }

  /** What the last loop of `create_pushpull_data` makes of each gate with a ramp and push paths. */
  ghost function Outcomes(rampNodes: map<string, NodeId>, push: map<string, Chains>, pulls: map<string, Chains>)
    : (r: map<string, Result<Entries, PushError>>)
    requires ChainsFull(push)
    ensures forall g :: g in r <==> g in rampNodes && g in push
  {
    map g | g in rampNodes && g in push :: GateEntries(g, push[g], PullPathsOf(pulls, g))
  }

  /** Every gate with a ramp and push paths gets its records. */
  ghost predicate EntriesOk(rampNodes: map<string, NodeId>, push: map<string, Chains>, pulls: map<string, Chains>)
  {
    ChainsFull(push) && forall g :: g in Outcomes(rampNodes, push, pulls) ==> Outcomes(rampNodes, push, pulls)[g].Ok?
  }

  /** The records of every gate with a ramp and push paths. */
  ghost function Records(rampNodes: map<string, NodeId>, push: map<string, Chains>, pulls: map<string, Chains>)
    : (r: map<string, Entries>)
    requires EntriesOk(rampNodes, push, pulls)
  {
    OkValues(Outcomes(rampNodes, push, pulls))
  }

  /** The values of a map of successes. */
  function OkValues(m: map<string, Result<Entries, PushError>>): (r: map<string, Entries>)
    requires forall g :: g in m ==> m[g].Ok?
    ensures r.Keys == m.Keys
  {
    map g | g in m :: m[g].value
  }

  /** A map that pairs every key with the success it holds is the map of their values. */
  lemma OkValuesOf(m: map<string, Result<Entries, PushError>>, out: map<string, Entries>)
    requires forall g :: g in out <==> g in m
    requires forall g :: g in m ==> m[g] == Ok(out[g])
    ensures forall g :: g in m ==> m[g].Ok?
    ensures out == OkValues(m)
  {
  }

  /**
   * The last loop of `create_pushpull_data`: every gate that has a ramp and
   * push paths receives the records of its push groups.
   */
  method Assemble(rampNodes: map<string, NodeId>, push: map<string, Chains>, pulls: map<string, Chains>)
    returns (r: Result<map<string, Entries>, PushError>)
    requires ChainsFull(push)
    ensures r.Ok? <==> EntriesOk(rampNodes, push, pulls)
    ensures r.Ok? ==> r.value == Records(rampNodes, push, pulls)
  {
    var out := AssembleLoop(rampNodes, push, pulls);
    ghost var outcomes := Outcomes(rampNodes, push, pulls);
    if out.Err? {
      ghost var g :| g in rampNodes && g in push && GateEntries(g, push[g], PullPathsOf(pulls, g)) == Err(out.error);
      assert outcomes[g].Err?;
      return Err(out.error);
    }
    OkValuesOf(outcomes, out.value);
    r := Ok(out.value);
  }

  /** The gate loop of the last step: each gate's records, or the first failure. */
  method AssembleLoop(rampNodes: map<string, NodeId>, push: map<string, Chains>, pulls: map<string, Chains>)
    returns (r: Result<map<string, Entries>, PushError>)
    requires ChainsFull(push)
    ensures r.Err? ==> exists g :: g in rampNodes && g in push && GateEntries(g, push[g], PullPathsOf(pulls, g)) == Err(r.error)
    ensures r.Ok? ==> forall g :: g in r.value <==> g in rampNodes && g in push
    ensures r.Ok? ==> forall g :: g in r.value ==> GateEntries(g, push[g], PullPathsOf(pulls, g)) == Ok(r.value[g])
  {
    var out: map<string, Entries> := map[];
    var todo := rampNodes.Keys * push.Keys;
    while todo != {}
      invariant todo <= rampNodes.Keys * push.Keys
      invariant forall g :: g in rampNodes && g in push ==> (g in out <==> g !in todo)
      invariant forall g :: g in out ==> g in rampNodes && g in push && GateEntries(g, push[g], PullPathsOf(pulls, g)) == Ok(out[g])
      decreases |todo|
    {
      var g :| g in todo;
      var e := AssembleGate(g, push[g], PullPathsOf(pulls, g));
      if e.Err? {
        return Err(e.error);
      }
      out := out[g := e.value];
      todo := todo - {g};
    }
    r := Ok(out);
  }

  /* ---------- the whole of create_pushpull_data ---------- */

  /** A gate's push paths hold every category once its push step succeeds. */
  lemma PushOfFull(gate: string, b: Buckets, rampNodes: map<string, NodeId>, rampFrom: map<NodeId, set<EdgeKey>>)
    requires Full(b) && RampsLinked(rampNodes, rampFrom) && PushOf(gate, b, rampNodes, rampFrom).Ok?
    ensures Full(PushOf(gate, b, rampNodes, rampFrom).value)
  {
    var stands := rampFrom[rampNodes[gate]];
    var s :| s in stands;
    assert PushOf(gate, b, rampNodes, rampFrom) == PushChains(s, b, AllCategories) by {
      forall s' | s' in stands ensures s' == s { OnlyMember(stands, s, s'); }
    }
    PushChainsFull(s, b);
  }

  /** Every gate of the push pools gets its push paths. */
  ghost predicate PushesOk(pools: Pools, rampNodes: map<string, NodeId>, rampFrom: map<NodeId, set<EdgeKey>>)
    requires PoolsFull(pools) && RampsLinked(rampNodes, rampFrom)
  {
    forall g :: g in pools ==> PushOf(g, pools[g], rampNodes, rampFrom).Ok?
  }

  /** `edges_pushback_dict` after the push loop. */
  ghost function Pushed(pools: Pools, rampNodes: map<string, NodeId>, rampFrom: map<NodeId, set<EdgeKey>>)
    : (r: map<string, Chains>)
    requires PoolsFull(pools) && RampsLinked(rampNodes, rampFrom) && PushesOk(pools, rampNodes, rampFrom)
    ensures r.Keys == pools.Keys && ChainsFull(r)
  {
    var r := map g | g in pools :: PushOf(g, pools[g], rampNodes, rampFrom).value;
    assert ChainsFull(r) by {
      forall g | g in r ensures Full(r[g]) { PushOfFull(g, pools[g], rampNodes, rampFrom); }
    }
    r
  }

  /** Every gate of the pull pools gets its pull paths. */
  ghost predicate PullsOk(pullPools: Pools, push: map<string, Chains>, rampNodes: map<string, NodeId>)
    requires PoolsFull(pullPools) && ChainsFull(push)
  {
    forall g :: g in pullPools ==> PullOf(g, pullPools[g], push, rampNodes).Ok?
  }

  /** The pull loop's outcome for every pull gate. */
  ghost function Pulled(pullPools: Pools, push: map<string, Chains>, rampNodes: map<string, NodeId>)
    : (r: map<string, GatePaths>)
    requires PoolsFull(pullPools) && ChainsFull(push) && PullsOk(pullPools, push, rampNodes)
    ensures r.Keys == pullPools.Keys && forall g :: g in r ==> PathsFull(r[g])
  {
    map g | g in pullPools :: PullOf(g, pullPools[g], push, rampNodes).value
  }

  /** `edges_pushback_dict` and `edges_pull_dict` once both loops have run. */
  ghost function Paths(pools: Pools, pullPools: Pools, rampNodes: map<string, NodeId>, rampFrom: map<NodeId, set<EdgeKey>>)
    : (r: (map<string, Chains>, map<string, Chains>))
    requires PoolsFull(pools) && PoolsFull(pullPools) && RampsLinked(rampNodes, rampFrom)
    requires PushesOk(pools, rampNodes, rampFrom) && PullsOk(pullPools, Pushed(pools, rampNodes, rampFrom), rampNodes)
    ensures r.0.Keys == pools.Keys && r.1.Keys == pullPools.Keys
    ensures ChainsFull(r.0) && ChainsFull(r.1)
  {
    var push := Pushed(pools, rampNodes, rampFrom);
    var pulled := Pulled(pullPools, push, rampNodes);
    PulledFull(push, pulled);
    (PushAfterPull(push, pulled), PullsOf(pulled))
  }

  /** All three steps of `create_pushpull_data` succeed. */
  ghost predicate PushPullOk(pools: Pools, pullPools: Pools, rampNodes: map<string, NodeId>,
                             rampFrom: map<NodeId, set<EdgeKey>>)
    requires PoolsFull(pools) && PoolsFull(pullPools) && RampsLinked(rampNodes, rampFrom)
  {
    && PushesOk(pools, rampNodes, rampFrom)
    && PullsOk(pullPools, Pushed(pools, rampNodes, rampFrom), rampNodes)
    && EntriesOk(rampNodes, Paths(pools, pullPools, rampNodes, rampFrom).0, Paths(pools, pullPools, rampNodes, rampFrom).1)
  }

  /** The two path loops of `create_pushpull_data`: push paths first, then pull paths. */
  method BuildPaths(pools: Pools, pullPools: Pools, rampNodes: map<string, NodeId>,
                    rampFrom: map<NodeId, set<EdgeKey>>)
    returns (r: Result<(map<string, Chains>, map<string, Chains>), PushError>)
    requires PoolsFull(pools) && PoolsFull(pullPools) && RampsLinked(rampNodes, rampFrom)
    ensures r.Ok? <==> PushesOk(pools, rampNodes, rampFrom) && PullsOk(pullPools, Pushed(pools, rampNodes, rampFrom), rampNodes)
    ensures r.Ok? ==> r.value == Paths(pools, pullPools, rampNodes, rampFrom)
  {
    var push :- PushAll(pools, rampNodes, rampFrom);
    PushedIs(pools, rampNodes, rampFrom, push);
    var pulled :- PullAll(pullPools, push, rampNodes);
    PulledIs(pullPools, push, rampNodes, pulled);
    r := Ok((PushAfterPull(push, pulled), PullsOf(pulled)));
  }

  lemma PushedIs(pools: Pools, rampNodes: map<string, NodeId>, rampFrom: map<NodeId, set<EdgeKey>>,
                 push: map<string, Chains>)
    requires PoolsFull(pools) && RampsLinked(rampNodes, rampFrom) && PushesOk(pools, rampNodes, rampFrom)
    requires push.Keys == pools.Keys
    requires forall g :: g in pools ==> push[g] == PushOf(g, pools[g], rampNodes, rampFrom).value
    ensures push == Pushed(pools, rampNodes, rampFrom)
  {
  }

  lemma PulledIs(pullPools: Pools, push: map<string, Chains>, rampNodes: map<string, NodeId>,
                 pulled: map<string, GatePaths>)
    requires PoolsFull(pullPools) && ChainsFull(push) && PullsOk(pullPools, push, rampNodes)
    requires pulled.Keys == pullPools.Keys
    requires forall g :: g in pullPools ==> PullOf(g, pullPools[g], push, rampNodes) == Ok(pulled[g])
    ensures pulled == Pulled(pullPools, push, rampNodes)
  {
  }
}
