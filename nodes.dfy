/**
 * Node registration of `Layout.import_nodes` (src/Layout/Layout.py): the
 * intersection and termination nodes get their graph ids, and the parking
 * and holding-point markers retype and name them and fill the name maps.
 *
 * The markers arrive already extracted from the drawing; positions, the
 * workbook data of remote-holding points and the runway-threshold records
 * are not part of this module.
 */
module Nodes {
  import opened Wrappers
  import opened Strings
  import opened Graph
  import opened NodeIds

  /** What `nodes_dict` keeps of a node besides its position and its adjacency. */
  datatype NodeRecord = NodeRecord(svgId: string, nodeType: NodeType, nodeName: Option<string>)

  /** A ramp entry of `ramp_dict` as `import_nodes` creates it. */
  datatype RampRecord = RampRecord(name: string, bearing: Option<real>)

  /** A circle of the parking-position group: its id, its `node` attribute if any, its `heading` if it parses. */
  datatype ParkingMarker = ParkingMarker(id: string, node: Option<string>, bearing: Option<real>)

  /** A point of one of the holding-point groups: its id, its `node` attribute, its `type` attribute if any. */
  datatype HoldingMarker = HoldingMarker(name: string, node: string, typeAttr: Option<string>)

  /** The holding-point groups, in the order the source reads them. */
  datatype HoldingGroup = RunwayStopbars | RemoteHoldings | Transfers | DeicingPoints | TaxibotPoints

  /** Everything `import_nodes` reads. */
  datatype NodeInput = NodeInput(
    groupIds: seq<string>,                // ids of the drawing's `g` elements, in document order
    parkings: seq<ParkingMarker>,
    stopbars: seq<HoldingMarker>,
    remoteHoldings: seq<HoldingMarker>,
    transfers: seq<HoldingMarker>,
    deicings: seq<HoldingMarker>,
    taxibots: seq<HoldingMarker>,
    holdingPoints: set<string>)           // the remote-holding names of the workbook's `HPs` table

  /** The tables `import_nodes` fills. */
  datatype NodeTables = NodeTables(
    nodes: map<NodeId, NodeRecord>,
    intersectionCount: nat,
    names: map<string, NodeId>,           // name2node_dict
    rampNodes: map<string, NodeId>,       // ramp2node_dict
    remholdNodes: map<string, NodeId>,    // remhold2node_dict
    remholds: map<NodeId, string>,        // remhold_dict, by node
    stopbarNodes: map<string, NodeId>,    // rwy2node_dict
    transferNodes: map<string, NodeId>,
    deicingNodes: map<string, NodeId>,
    tugPointNodes: map<string, NodeId>,
    ramps: map<NodeId, RampRecord>,       // ramp_dict
    tugBase: set<NodeId>,
    buffer: Option<NodeId>)

  /** The ways `import_nodes` stops: a missing node, or one of its assertions. */
  datatype NodeError =
    | UnknownNode(ref: string)            // the marker's node is not in `nodes_dict`
    | NodeIdUnbound(id: string)           // a marker names no node before any marker set `node_id`
    | UnknownHoldingPoint(name: string)   // a remote holding missing from the `HPs` table
    | RampNamedTud(id: string)            // a ramp id carries `TUD`
    | SecondBuffer(id: string)            // a second buffer stand
    | UnhandledType(name: string)         // a typed deicing point, or a typed taxibot point other than a base
    | NodeTypeUnbound(name: string)       // a tug base before any node type was set in the loops

  /* ---------- ids ---------- */

  /** The reference names an intersection or a termination node. */
  predicate IsNodeRef(ref: string)
  {
    StartsWith(ref, "intersection_") || StartsWith(ref, "termination_")
  }

  /** The id a node reference resolves to. */
  function Resolve(ref: string, count: nat): (k: NodeId)
    requires WellFormedRef(ref) && IsNodeRef(ref)
    ensures BoundNode(ref, count) == Some(k)
  {
    BoundNode(ref, count).value
  }

  predicate IdsReadable(ids: seq<string>)
  {
    forall i :: 0 <= i < |ids| ==> WellFormedRef(ids[i])
  }

  /** The intersection nodes registered by the first loop over the `g` ids, later ids overwriting earlier ones. */
  function Intersections(ids: seq<string>): (m: map<NodeId, NodeRecord>)
    requires IdsReadable(ids)
    ensures forall k :: k in m ==>
              m[k].svgId in ids && StartsWith(m[k].svgId, "intersection_") && WellFormedRef(m[k].svgId)
              && Resolve(m[k].svgId, 0) == k && m[k] == NodeRecord(m[k].svgId, TwyIntersection, None)
    ensures forall i :: 0 <= i < |ids| && StartsWith(ids[i], "intersection_") ==> Resolve(ids[i], 0) in m
  {
    if |ids| == 0 then map[]
    else
      var m := Intersections(ids[..|ids| - 1]);
      var s := ids[|ids| - 1];
      assert forall i :: 0 <= i < |ids| - 1 ==> ids[..|ids| - 1][i] == ids[i];
      if StartsWith(s, "intersection_") then m[Resolve(s, 0) := NodeRecord(s, TwyIntersection, None)] else m
  }

  /** The termination nodes of the second loop, shifted by the intersection count and put over `base`. */
  function Terminations(ids: seq<string>, count: nat, base: map<NodeId, NodeRecord>): (m: map<NodeId, NodeRecord>)
    requires IdsReadable(ids)
    ensures base.Keys <= m.Keys
    ensures forall k :: k in m ==>
              (k in base && m[k] == base[k])
              || (m[k].svgId in ids && !StartsWith(m[k].svgId, "intersection_") && StartsWith(m[k].svgId, "termination_")
                  && WellFormedRef(m[k].svgId) && k >= count && Resolve(m[k].svgId, count) == k
                  && m[k] == NodeRecord(m[k].svgId, TerminationNode, None))
    ensures forall k :: k in base && k < count ==> m[k] == base[k]
    ensures forall i :: 0 <= i < |ids| && !StartsWith(ids[i], "intersection_") && StartsWith(ids[i], "termination_") ==>
              Resolve(ids[i], count) in m
  {
    if |ids| == 0 then base
    else
      var m := Terminations(ids[..|ids| - 1], count, base);
      var s := ids[|ids| - 1];
      assert forall i :: 0 <= i < |ids| - 1 ==> ids[..|ids| - 1][i] == ids[i];
      if StartsWith(s, "termination_") && !StartsWith(s, "intersection_") then
        m[Resolve(s, count) := NodeRecord(s, TerminationNode, None)]
      else m
  }

  /**
   * Later ids overwrite earlier ones: an intersection id that no later
   * intersection id resolves like is the one its node keeps.
   */
  lemma {:induction false} IntersectionsLastWins(ids: seq<string>, i: nat)
    requires IdsReadable(ids) && i < |ids| && StartsWith(ids[i], "intersection_")
    requires forall j :: i < j < |ids| && StartsWith(ids[j], "intersection_") ==> Resolve(ids[j], 0) != Resolve(ids[i], 0)
    ensures Intersections(ids)[Resolve(ids[i], 0)].svgId == ids[i]
  {
    var init := ids[..|ids| - 1];
    assert forall j :: 0 <= j < |init| ==> init[j] == ids[j];
    if i < |ids| - 1 {
      IntersectionsLastWins(init, i);
    }
  }

  /** The last intersection id's node: the value the first loop leaves in `node_id`. */
  function LastIntersection(ids: seq<string>): Option<NodeId>
    requires IdsReadable(ids)
  {
    if |ids| == 0 then None
    else
      var init := ids[..|ids| - 1];
      assert forall j :: 0 <= j < |init| ==> init[j] == ids[j];
      if StartsWith(ids[|ids| - 1], "intersection_") then Some(Resolve(ids[|ids| - 1], 0)) else LastIntersection(init)
  }

  /** The last termination id's node, shifted by `count`: the value the second loop leaves in `node_id`, if it sets it. */
  function LastTermination(ids: seq<string>, count: nat): Option<NodeId>
    requires IdsReadable(ids)
  {
    if |ids| == 0 then None
    else
      var init := ids[..|ids| - 1];
      assert forall j :: 0 <= j < |init| ==> init[j] == ids[j];
      var s := ids[|ids| - 1];
      if StartsWith(s, "termination_") && !StartsWith(s, "intersection_") then Some(Resolve(s, count))
      else LastTermination(init, count)
  }

  /**
   * The `node_id` local once both registration loops are done: the last
   * termination's node if there is one, otherwise the last intersection's,
   * and unbound when there are neither.
   */
  function RegisteredLast(ids: seq<string>, count: nat): Option<NodeId>
    requires IdsReadable(ids)
  {
    var t := LastTermination(ids, count);
    if t.Some? then t else LastIntersection(ids)
  }

  /** The first loop leaves `node_id` unbound exactly when there is no intersection id, and otherwise on a node it registered. */
  lemma {:induction false} LastIntersectionKnown(ids: seq<string>)
    requires IdsReadable(ids)
    ensures LastIntersection(ids).None? <==> forall i :: 0 <= i < |ids| ==> !StartsWith(ids[i], "intersection_")
    ensures LastIntersection(ids).Some? ==> LastIntersection(ids).value in Intersections(ids)
  {
    if |ids| > 0 {
      var init := ids[..|ids| - 1];
      assert forall j :: 0 <= j < |init| ==> init[j] == ids[j];
      LastIntersectionKnown(init);
    }
  }

  /** The second loop sets `node_id` exactly when there is a termination id, and then to a node it registered. */
  lemma {:induction false} LastTerminationKnown(ids: seq<string>, count: nat, base: map<NodeId, NodeRecord>)
    requires IdsReadable(ids)
    ensures LastTermination(ids, count).None? <==> forall i :: 0 <= i < |ids| ==> !StartsWith(ids[i], "termination_")
    ensures LastTermination(ids, count).Some? ==> LastTermination(ids, count).value in Terminations(ids, count, base)
  {
    if |ids| > 0 {
      var init := ids[..|ids| - 1];
      assert forall j :: 0 <= j < |init| ==> init[j] == ids[j];
      LastTerminationKnown(init, count, base);
      var s := ids[|ids| - 1];
      if StartsWith(s, "termination_") {
        assert s[0] == 't';
        assert !StartsWith(s, "intersection_");
        assert ids[|ids| - 1] == s;
      }
    }
  }

  /** The `node_id` the registration leaves behind is unbound exactly when no id names a node, and otherwise a registered node. */
  lemma RegisteredLastKnown(ids: seq<string>)
    requires IdsReadable(ids)
    ensures var (nodes, count) := Registered(ids);
            var last := RegisteredLast(ids, count);
            (last.None? <==> forall i :: 0 <= i < |ids| ==> !IsNodeRef(ids[i]))
            && (last.Some? ==> last.value in nodes)
  {
    var inter := Intersections(ids);
    LastIntersectionKnown(ids);
    LastTerminationKnown(ids, |inter.Keys|, inter);
  }

  /** The node table after both loops, with the intersection count. */
  function Registered(ids: seq<string>): (r: (map<NodeId, NodeRecord>, nat))
    requires IdsReadable(ids)
  {
    var inter := Intersections(ids);
    var count := |inter.Keys|;
    (Terminations(ids, count, inter), count)
  }

  /** The first registration loop, with the `node_id` it leaves behind. */
  method RegisterIntersections(ids: seq<string>) returns (nodes: map<NodeId, NodeRecord>, last: Option<NodeId>)
    requires IdsReadable(ids)
    ensures nodes == Intersections(ids)
    ensures last == LastIntersection(ids)
  {
    nodes, last := map[], None;
    var i := 0;
    while i < |ids|
      invariant 0 <= i <= |ids|
      invariant nodes == Intersections(ids[..i])
      invariant last == LastIntersection(ids[..i])
    {
      var prefix := ids[..i + 1];
      assert prefix[..i] == ids[..i] && prefix[i] == ids[i];
      if StartsWith(ids[i], "intersection_") {
        last := Some(Resolve(ids[i], 0));
        nodes := nodes[last.value := NodeRecord(ids[i], TwyIntersection, None)];
      }
      i := i + 1;
    }
    assert ids[..|ids|] == ids;
  }

  /**
   * The second registration loop. It also sees the ids that start with
   * `intersection_`; those never start with `termination_`.
   */
  method RegisterTerminations(ids: seq<string>, count: nat, base: map<NodeId, NodeRecord>, last0: Option<NodeId>)
    returns (nodes: map<NodeId, NodeRecord>, last: Option<NodeId>)
    requires IdsReadable(ids)
    ensures nodes == Terminations(ids, count, base)
    ensures last == if LastTermination(ids, count).Some? then LastTermination(ids, count) else last0
  {
    nodes, last := base, last0;
    var i := 0;
    while i < |ids|
      invariant 0 <= i <= |ids|
      invariant nodes == Terminations(ids[..i], count, base)
      invariant last == if LastTermination(ids[..i], count).Some? then LastTermination(ids[..i], count) else last0
    {
      TerminationStep(ids, i, count, base);
      if StartsWith(ids[i], "termination_") && !StartsWith(ids[i], "intersection_") {
        last := Some(Resolve(ids[i], count));
        nodes := nodes[last.value := NodeRecord(ids[i], TerminationNode, None)];
      }
      i := i + 1;
    }
    assert ids[..|ids|] == ids;
  }

  /** One more id extends the terminations and the last termination by that id alone. */
  lemma TerminationStep(ids: seq<string>, i: nat, count: nat, base: map<NodeId, NodeRecord>)
    requires IdsReadable(ids) && i < |ids|
    ensures var c := StartsWith(ids[i], "termination_") && !StartsWith(ids[i], "intersection_");
            && Terminations(ids[..i + 1], count, base)
               == (if c then Terminations(ids[..i], count, base)[Resolve(ids[i], count) := NodeRecord(ids[i], TerminationNode, None)]
                   else Terminations(ids[..i], count, base))
            && LastTermination(ids[..i + 1], count) == (if c then Some(Resolve(ids[i], count)) else LastTermination(ids[..i], count))
  {
    var prefix := ids[..i + 1];
    assert prefix[..i] == ids[..i] && prefix[i] == ids[i];
  }

  /** Both loops, the count of distinct intersection ids taken in between, and the `node_id` they leave behind. */
  method RegisterNodes(ids: seq<string>) returns (nodes: map<NodeId, NodeRecord>, count: nat, last: Option<NodeId>)
    requires IdsReadable(ids)
    ensures (nodes, count) == Registered(ids)
    ensures last == RegisteredLast(ids, count)
  {
    var inter, last1 := RegisterIntersections(ids);
    count := |inter.Keys|;
    nodes, last := RegisterTerminations(ids, count, inter, last1);
  }

  /**
   * Every registered node's svg id resolves to the node's own id by the rule
   * `import_edges` applies to path bounds, so the svg-id-to-node-id map and
   * the bound resolution agree.
   */
  lemma RegisteredRefsResolve(ids: seq<string>)
    requires IdsReadable(ids)
    ensures var (nodes, count) := Registered(ids);
            forall k :: k in nodes ==>
              WellFormedRef(nodes[k].svgId) && IsNodeRef(nodes[k].svgId) && Resolve(nodes[k].svgId, count) == k
  {
    var (nodes, count) := Registered(ids);
    var inter := Intersections(ids);
    forall k | k in nodes
      ensures WellFormedRef(nodes[k].svgId) && IsNodeRef(nodes[k].svgId) && Resolve(nodes[k].svgId, count) == k
    {
      if k in inter && nodes[k] == inter[k] {
        assert Resolve(inter[k].svgId, 0) == k;
      }
    }
  }

  /**
   * When the intersections are numbered below their count (that is, `0` to
   * `count - 1`), no termination replaces an intersection: every
   * intersection keeps its record and every termination id is at least the
   * count.
   */
  lemma ContiguousNumberingKeepsIntersections(ids: seq<string>)
    requires IdsReadable(ids)
    requires forall k :: k in Intersections(ids) ==> k < |Intersections(ids).Keys|
    ensures var (nodes, count) := Registered(ids);
            forall k :: k in Intersections(ids) ==> k in nodes && nodes[k] == Intersections(ids)[k]
    ensures var (nodes, count) := Registered(ids);
            forall k :: k in nodes && nodes[k].nodeType == TerminationNode ==> k >= count
  {
  }

  /**
   * The tables and the last values of the source's `node_type` and
   * `node_id` locals, which the loops over the markers share.
   */
  datatype Scan = Scan(tables: NodeTables, lastType: Option<NodeType>, lastNode: Option<NodeId>)

  /* ---------- parking markers ---------- */

  /** The word in a marker id that makes a ramp a buffer stand. */
  const BufferWord := "BUFFER"

  /** A parking marker's node number can be read: a marker without `node` is skipped. */
  predicate ParkingReadable(p: ParkingMarker)
  {
    p.node.Some? ==> WellFormedRef(p.node.value)
  }

  /**
   * The source's `node_id` local after reading a `node` attribute: the node
   * it names, or, when it names neither kind, the value the previous marker
   * of any of the loops left behind; before the first marker, the value the
   * registration loops left (`RegisteredLast`).
   */
  function MarkerNode(ref: string, count: nat, last: Option<NodeId>): (r: Option<NodeId>)
    requires WellFormedRef(ref)
    ensures IsNodeRef(ref) ==> r == BoundNode(ref, count)
    ensures !IsNodeRef(ref) ==> r == last
  {
    if IsNodeRef(ref) then Some(Resolve(ref, count)) else last
  }

  /** What one parking marker does to the tables and to the `node_id` local. */
  function ParkingStep(s: Scan, p: ParkingMarker, holdingPoints: set<string>): (r: Result<Scan, NodeError>)
    requires ParkingReadable(p)
  {
    if p.node.None? then Ok(s)
    else
      var t := s.tables;
      var node := MarkerNode(p.node.value, t.intersectionCount, s.lastNode);
      match ClassifyParking(p.id)
      case Err(_) => Err(RampNamedTud(p.id))
      case Ok(kind) =>
        if node.None? then Err(NodeIdUnbound(p.id))
        else if node.value !in t.nodes then Err(UnknownNode(p.node.value))
        else if kind.nodeType == RemoteHolding && kind.name !in holdingPoints then Err(UnknownHoldingPoint(kind.name))
        else
          var t' :- ApplyParking(t, node.value, kind, Contains(p.id, BufferWord), p.bearing);
          Ok(s.(tables := t', lastNode := node))
  }

  /**
   * A classified marker on a known node: retype and rename the node, record
   * the name, and file the node as remote holding, tug base or ramp; a second
   * buffer stand stops the import. A ramp's name is its marker id.
   */
  function ApplyParking(t: NodeTables, k: NodeId, kind: ParkingKind, isBuffer: bool, bearing: Option<real>)
    : (r: Result<NodeTables, NodeError>)
    requires k in t.nodes
  {
    if kind.nodeType == RemoteHolding then Ok(WithRemoteHolding(t, k, kind))
    else if kind.nodeType == TetBase then Ok(WithTugBase(t, k, kind))
    else if kind.nodeType == Ramp then
      if isBuffer && t.buffer.Some? then Err(SecondBuffer(kind.name))
      else Ok(WithRamp(t, k, kind, isBuffer, bearing))
    else Ok(Renamed(t, k, kind))
  }

  /** The parking loop over the markers seen so far. */
  function ParkingFold(s: Scan, ps: seq<ParkingMarker>, hp: set<string>): (r: Result<Scan, NodeError>)
    requires forall i :: 0 <= i < |ps| ==> ParkingReadable(ps[i])
  {
    if |ps| == 0 then Ok(s)
    else
      assert forall i :: 0 <= i < |ps| - 1 ==> ps[..|ps| - 1][i] == ps[i];
      var r := ParkingFold(s, ps[..|ps| - 1], hp);
      if r.Err? then r else ParkingStep(r.value, ps[|ps| - 1], hp)
  }

  method ImportParkings(s: Scan, ps: seq<ParkingMarker>, hp: set<string>) returns (r: Result<Scan, NodeError>)
    requires forall i :: 0 <= i < |ps| ==> ParkingReadable(ps[i])
    ensures r == ParkingFold(s, ps, hp)
  {
    var cur := s;
    var i := 0;
    while i < |ps|
      invariant 0 <= i <= |ps|
      invariant ParkingFold(s, ps[..i], hp) == Ok(cur)
    {
      assert ps[..i + 1][..i] == ps[..i];
      var step := ParkingStep(cur, ps[i], hp);
      if step.Err? {
        PrefixErrorPersists(s, ps, hp, i + 1);
        return step;
      }
      cur := step.value;
      i := i + 1;
    }
    assert ps[..|ps|] == ps;
    r := Ok(cur);
  }

  /** Once the parking loop has stopped, later markers do not matter. */
  lemma {:induction false} PrefixErrorPersists(s: Scan, ps: seq<ParkingMarker>, hp: set<string>, n: nat)
    requires forall i :: 0 <= i < |ps| ==> ParkingReadable(ps[i])
    requires n <= |ps|
    requires ParkingFold(s, ps[..n], hp).Err?
    ensures ParkingFold(s, ps, hp) == ParkingFold(s, ps[..n], hp)
    decreases |ps| - n
  {
    if n < |ps| {
      assert ps[..n + 1][..n] == ps[..n];
      PrefixErrorPersists(s, ps, hp, n + 1);
    } else {
      assert ps[..n] == ps;
    }
  }

  /** The marker is a ramp marker of a buffer stand. */
  predicate IsBufferRamp(p: ParkingMarker)
  {
    p.node.Some? && ClassifyParking(p.id) == Ok(ParkingKind(Ramp, p.id)) && Contains(p.id, BufferWord)
  }

  /** Some ramp marker among `ps` names a buffer stand. */
  predicate SomeBuffer(ps: seq<ParkingMarker>)
  {
    exists i :: 0 <= i < |ps| && IsBufferRamp(ps[i])
  }

  lemma SomeBufferSnoc(init: seq<ParkingMarker>, last: ParkingMarker)
    ensures SomeBuffer(init + [last]) <==> SomeBuffer(init) || IsBufferRamp(last)
  {
    var ps := init + [last];
    if SomeBuffer(init) {
      var i :| 0 <= i < |init| && IsBufferRamp(init[i]);
      assert ps[i] == init[i];
    }
    if SomeBuffer(ps) {
      var i :| 0 <= i < |ps| && IsBufferRamp(ps[i]);
      if i < |init| {
        assert ps[i] == init[i];
      }
    }
    if IsBufferRamp(last) {
      assert ps[|init|] == last;
    }
  }

  /**
   * Starting without a buffer, a successful parking loop sets the buffer
   * exactly when some ramp marker names a buffer stand.
   */
  lemma {:induction false} BufferSetExactly(s: Scan, ps: seq<ParkingMarker>, hp: set<string>)
    requires forall i :: 0 <= i < |ps| ==> ParkingReadable(ps[i])
    requires s.tables.buffer.None?
    requires ParkingFold(s, ps, hp).Ok?
    ensures ParkingFold(s, ps, hp).value.tables.buffer.Some? <==> SomeBuffer(ps)
  {
    if |ps| > 0 {
      var init, last := ps[..|ps| - 1], ps[|ps| - 1];
      assert forall i :: 0 <= i < |init| ==> init[i] == ps[i];
      assert ParkingFold(s, init, hp).Ok?;
      BufferSetExactly(s, init, hp);
      var mid := ParkingFold(s, init, hp).value;
      assert ParkingFold(s, ps, hp) == ParkingStep(mid, last, hp);
      BufferStep(mid, last, hp);
      assert ps == init + [last];
      SomeBufferSnoc(init, last);
    }
  }

  /**
   * The buffer-stand assertion: starting without a buffer, the parking loop
   * only succeeds when at most one ramp marker names a buffer stand.
   */
  lemma {:induction false} AtMostOneBuffer(s: Scan, ps: seq<ParkingMarker>, hp: set<string>)
    requires forall i :: 0 <= i < |ps| ==> ParkingReadable(ps[i])
    requires s.tables.buffer.None?
    requires ParkingFold(s, ps, hp).Ok?
    ensures forall i, j :: 0 <= i < j < |ps| && IsBufferRamp(ps[i]) ==> !IsBufferRamp(ps[j])
  {
    if |ps| > 0 {
      var init, last := ps[..|ps| - 1], ps[|ps| - 1];
      assert forall i :: 0 <= i < |init| ==> init[i] == ps[i];
      assert ParkingFold(s, init, hp).Ok?;
      AtMostOneBuffer(s, init, hp);
      BufferSetExactly(s, init, hp);
      var mid := ParkingFold(s, init, hp).value;
      assert ParkingFold(s, ps, hp) == ParkingStep(mid, last, hp);
      BufferStep(mid, last, hp);
      forall i, j | 0 <= i < j < |ps| && IsBufferRamp(ps[i]) ensures !IsBufferRamp(ps[j]) {
        if j == |ps| - 1 {
          assert IsBufferRamp(init[i]);
        } else {
          assert init[i] == ps[i] && init[j] == ps[j];
        }
      }
    }
  }

  /** One marker sets the buffer exactly when it is a buffer ramp, and only when none was set. */
  lemma BufferStep(s: Scan, p: ParkingMarker, hp: set<string>)
    requires ParkingReadable(p) && ParkingStep(s, p, hp).Ok?
    ensures IsBufferRamp(p) ==> s.tables.buffer.None? && ParkingStep(s, p, hp).value.tables.buffer.Some?
    ensures !IsBufferRamp(p) ==> ParkingStep(s, p, hp).value.tables.buffer == s.tables.buffer
  {
    if p.node.Some? {
      var t := s.tables;
      var c := ClassifyParking(p.id);
      var node := MarkerNode(p.node.value, t.intersectionCount, s.lastNode);
      if c.Ok? && node.Some? && node.value in t.nodes {
        var isBuffer := Contains(p.id, BufferWord);
        assert ParkingStep(s, p, hp).value.tables == ApplyParking(t, node.value, c.value, isBuffer, p.bearing).value;
        if c.value.nodeType == Ramp {
          assert c.value == ParkingKind(Ramp, p.id);
          assert IsBufferRamp(p) == isBuffer;
        } else {
          assert !IsBufferRamp(p);
        }
      }
    }
  }

  /* ---------- holding-point groups ---------- */

  /** A holding marker's node number can be read the way its group reads it. */
  predicate HoldingReadable(g: HoldingGroup, m: HoldingMarker)
  {
    if g == TaxibotPoints then WellFormedRef(m.node)
    else IsNumeral(RemoveAll(m.node, IntersectionPrefix))
  }

  /**
   * The `node_id` a holding marker leaves: the intersection number; for
   * taxibot points a node of either kind, or the previous `node_id` when the
   * attribute names neither.
   */
  function HoldingNode(g: HoldingGroup, m: HoldingMarker, count: nat, last: Option<NodeId>): Option<NodeId>
    requires HoldingReadable(g, m)
  {
    if g == TaxibotPoints then MarkerNode(m.node, count, last)
    else Some(NumeralValue(RemoveAll(m.node, IntersectionPrefix)))
  }

  /** Node `k` retyped and renamed, and its name recorded in `names`. */
  function Retyped(t: NodeTables, k: NodeId, ty: NodeType, name: string): (r: NodeTables)
    requires k in t.nodes
    ensures r.nodes.Keys == t.nodes.Keys && r.intersectionCount == t.intersectionCount
    ensures r.nodes[k].nodeType == ty && r.nodes[k].nodeName == Some(name) && name in r.names && r.names[name] == k
    ensures r.tugBase == t.tugBase && r.buffer == t.buffer
  {
    t.(nodes := t.nodes[k := t.nodes[k].(nodeType := ty, nodeName := Some(name))],
       names := t.names[name := k])
  }

  /** Renames the node and records it under its name in `names` and in the group's own map. */
  function Register(t: NodeTables, g: HoldingGroup, k: NodeId, ty: NodeType, name: string): (r: NodeTables)
    requires k in t.nodes
    ensures r.nodes.Keys == t.nodes.Keys && r.intersectionCount == t.intersectionCount
    ensures r.nodes[k].nodeType == ty && r.nodes[k].nodeName == Some(name) && name in r.names && r.names[name] == k
    ensures r.tugBase == t.tugBase
  {
    Filed(Retyped(t, k, ty, name), g, name, k)
  }

  /** `name` filed under node `k` in the map of group `g`; nothing else changes. */
  function Filed(t: NodeTables, g: HoldingGroup, name: string, k: NodeId): (r: NodeTables)
    ensures r.nodes == t.nodes && r.names == t.names && r.intersectionCount == t.intersectionCount
    ensures r.tugBase == t.tugBase
  {
    match g
    case RunwayStopbars => t.(stopbarNodes := t.stopbarNodes[name := k])
    case RemoteHoldings => t.(remholdNodes := t.remholdNodes[name := k])
    case Transfers => t.(transferNodes := t.transferNodes[name := k])
    case DeicingPoints => t.(deicingNodes := t.deicingNodes[name := k])
    case TaxibotPoints => t.(tugPointNodes := t.tugPointNodes[name := k])
  }

  /** What one holding marker of group `g` does. */
  function HoldingStep(s: Scan, g: HoldingGroup, m: HoldingMarker): (r: Result<Scan, NodeError>)
    requires HoldingReadable(g, m)
  {
    var t := s.tables;
    var node := HoldingNode(g, m, t.intersectionCount, s.lastNode);
    var k := if node.Some? then node.value else 0;
    match g
    case RunwayStopbars =>
      if k !in t.nodes then Err(UnknownNode(m.node))
      else Ok(s.(tables := Register(t, g, k, Stopbar, m.name), lastNode := node))
    case RemoteHoldings =>
      if k !in t.nodes then Err(UnknownNode(m.node))
      else Ok(s.(tables := Register(t, g, k, RemoteHolding, m.name), lastNode := node))
    case Transfers =>
      if k !in t.nodes then Err(UnknownNode(m.node))
      else Ok(s.(tables := Register(t, g, k, Transfer, m.name), lastNode := node))
    case DeicingPoints =>
      if m.typeAttr.Some? then Err(UnhandledType(m.name))
      else if k !in t.nodes then Err(UnknownNode(m.node))
      else Ok(Scan(Register(t, g, k, Deicing, m.name), Some(Deicing), node))
    case TaxibotPoints =>
      if m.typeAttr.Some? then
        if IndexOf(Lower(m.typeAttr.value), "base") < 0 then Err(UnhandledType(m.name))
        else if node.None? then Err(NodeIdUnbound(m.name))
        else if s.lastType.None? then Err(NodeTypeUnbound(m.name))
        else if k !in t.nodes then Err(UnknownNode(m.node))
        else
          var t1 := t.(tugBase := t.tugBase + {k});
          Ok(s.(tables := Register(t1, g, k, s.lastType.value, m.name), lastNode := node))
      else if node.None? then Err(NodeIdUnbound(m.name))
      else if k !in t.nodes then Err(UnknownNode(m.node))
      else Ok(Scan(Register(t, g, k, Tugs, m.name), Some(Tugs), node))
  }

  /** One holding group's loop over the markers seen so far. */
  function HoldingFold(s: Scan, g: HoldingGroup, ms: seq<HoldingMarker>): (r: Result<Scan, NodeError>)
    requires forall i :: 0 <= i < |ms| ==> HoldingReadable(g, ms[i])
  {
    if |ms| == 0 then Ok(s)
    else
      assert forall i :: 0 <= i < |ms| - 1 ==> ms[..|ms| - 1][i] == ms[i];
      var r := HoldingFold(s, g, ms[..|ms| - 1]);
      if r.Err? then r else HoldingStep(r.value, g, ms[|ms| - 1])
  }

  method ImportHoldings(s: Scan, g: HoldingGroup, ms: seq<HoldingMarker>) returns (r: Result<Scan, NodeError>)
    requires forall i :: 0 <= i < |ms| ==> HoldingReadable(g, ms[i])
    ensures r == HoldingFold(s, g, ms)
  {
    var cur := s;
    var i := 0;
    while i < |ms|
      invariant 0 <= i <= |ms|
      invariant HoldingFold(s, g, ms[..i]) == Ok(cur)
    {
      HoldingFoldStep(s, g, ms, i, cur);
      var step := HoldingStep(cur, g, ms[i]);
      if step.Err? {
        HoldingErrorPersists(s, g, ms, i + 1);
        return step;
      }
      cur := step.value;
      i := i + 1;
    }
    assert ms[..|ms|] == ms;
    r := Ok(cur);
  }

  /** One more marker folds the step into the scan reached so far. */
  lemma HoldingFoldStep(s: Scan, g: HoldingGroup, ms: seq<HoldingMarker>, i: nat, cur: Scan)
    requires forall j :: 0 <= j < |ms| ==> HoldingReadable(g, ms[j])
    requires i < |ms| && HoldingFold(s, g, ms[..i]) == Ok(cur)
    ensures HoldingFold(s, g, ms[..i + 1]) == HoldingStep(cur, g, ms[i])
  {
    assert ms[..i + 1][..i] == ms[..i];
  }

  lemma {:induction false} HoldingErrorPersists(s: Scan, g: HoldingGroup, ms: seq<HoldingMarker>, n: nat)
    requires forall i :: 0 <= i < |ms| ==> HoldingReadable(g, ms[i])
    requires n <= |ms|
    requires HoldingFold(s, g, ms[..n]).Err?
    ensures HoldingFold(s, g, ms) == HoldingFold(s, g, ms[..n])
    decreases |ms| - n
  {
    if n < |ms| {
      assert ms[..n + 1][..n] == ms[..n];
      HoldingErrorPersists(s, g, ms, n + 1);
    } else {
      assert ms[..n] == ms;
    }
  }

  /* ---------- the whole of import_nodes ---------- */

  predicate InputReadable(input: NodeInput)
  {
    IdsReadable(input.groupIds)
    && (forall i :: 0 <= i < |input.parkings| ==> ParkingReadable(input.parkings[i]))
    && (forall i :: 0 <= i < |input.stopbars| ==> HoldingReadable(RunwayStopbars, input.stopbars[i]))
    && (forall i :: 0 <= i < |input.remoteHoldings| ==> HoldingReadable(RemoteHoldings, input.remoteHoldings[i]))
    && (forall i :: 0 <= i < |input.transfers| ==> HoldingReadable(Transfers, input.transfers[i]))
    && (forall i :: 0 <= i < |input.deicings| ==> HoldingReadable(DeicingPoints, input.deicings[i]))
    && (forall i :: 0 <= i < |input.taxibots| ==> HoldingReadable(TaxibotPoints, input.taxibots[i]))
  }

  /** The tables right after registration, before any marker. */
  function FreshTables(nodes: map<NodeId, NodeRecord>, count: nat): NodeTables
  {
    NodeTables(nodes, count, map[], map[], map[], map[], map[], map[], map[], map[], map[], {}, None)
  }

  /**
   * A first marker whose `node` names neither kind is filed on the node the
   * registration loops left in `node_id`; it is unbound only in a drawing
   * without intersection and termination ids.
   */
  lemma FirstMarkerTakesRegisteredNode(ids: seq<string>, ref: string)
    requires IdsReadable(ids) && WellFormedRef(ref) && !IsNodeRef(ref)
    ensures var (nodes, count) := Registered(ids);
            var node := MarkerNode(ref, count, RegisteredLast(ids, count));
            (node.None? <==> forall i :: 0 <= i < |ids| ==> !IsNodeRef(ids[i]))
            && (node.Some? ==> node.value in nodes)
  {
    RegisteredLastKnown(ids);
  }

  /** `import_nodes` from registration to the last taxibot point. */
  function ImportNodesSpec(input: NodeInput): (r: Result<NodeTables, NodeError>)
    requires InputReadable(input)
  {
    var (nodes, count) := Registered(input.groupIds);
    var s1 :- ParkingFold(Scan(FreshTables(nodes, count), None, RegisteredLast(input.groupIds, count)), input.parkings, input.holdingPoints);
    var s2 :- HoldingFold(s1, RunwayStopbars, input.stopbars);
    var s3 :- HoldingFold(s2, RemoteHoldings, input.remoteHoldings);
    var s4 :- HoldingFold(s3, Transfers, input.transfers);
    var s5 :- HoldingFold(s4, DeicingPoints, input.deicings);
    var s6 :- HoldingFold(s5, TaxibotPoints, input.taxibots);
    Ok(s6.tables)
  }

  method ImportNodes(input: NodeInput) returns (r: Result<NodeTables, NodeError>)
    requires InputReadable(input)
    ensures r == ImportNodesSpec(input)
  {
    var nodes, count, last := RegisterNodes(input.groupIds);
    var s1 :- ImportParkings(Scan(FreshTables(nodes, count), None, last), input.parkings, input.holdingPoints);
    var s2 :- ImportHoldings(s1, RunwayStopbars, input.stopbars);
    var s3 :- ImportHoldings(s2, RemoteHoldings, input.remoteHoldings);
    var s4 :- ImportHoldings(s3, Transfers, input.transfers);
    var s5 :- ImportHoldings(s4, DeicingPoints, input.deicings);
    var s6 :- ImportHoldings(s5, TaxibotPoints, input.taxibots);
    r := Ok(s6.tables);
  }

  /* ---------- invariants of the tables ---------- */

  /**
   * Every map points at registered nodes, and every name recorded in one of
   * the group maps is also a key of `names`.
   */
  predicate Consistent(t: NodeTables)
  {
    MapsPointIntoNodes(t) && TablesWithinNodes(t) && GroupNamesKnown(t)
  }

  predicate MapsPointIntoNodes(t: NodeTables)
  {
    PointsInto(t.names, t.nodes.Keys) && PointsInto(t.rampNodes, t.nodes.Keys)
    && PointsInto(t.remholdNodes, t.nodes.Keys) && PointsInto(t.stopbarNodes, t.nodes.Keys)
    && PointsInto(t.transferNodes, t.nodes.Keys) && PointsInto(t.deicingNodes, t.nodes.Keys)
    && PointsInto(t.tugPointNodes, t.nodes.Keys)
  }

  predicate TablesWithinNodes(t: NodeTables)
  {
    t.remholds.Keys <= t.nodes.Keys && t.ramps.Keys <= t.nodes.Keys && t.tugBase <= t.nodes.Keys
    && (t.buffer.Some? ==> t.buffer.value in t.ramps)
  }

  predicate GroupNamesKnown(t: NodeTables)
  {
    t.rampNodes.Keys <= t.names.Keys && t.remholdNodes.Keys <= t.names.Keys
    && t.stopbarNodes.Keys <= t.names.Keys && t.transferNodes.Keys <= t.names.Keys
    && t.deicingNodes.Keys <= t.names.Keys && t.tugPointNodes.Keys <= t.names.Keys
  }

  /** Every name of `m` is mapped to one of `ids`. */
  predicate PointsInto(m: map<string, NodeId>, ids: set<NodeId>)
  {
    forall n :: n in m ==> m[n] in ids
  }

  /** Registering a known node under a name keeps the tables consistent. */
  lemma RegisterConsistent(t: NodeTables, g: HoldingGroup, k: NodeId, ty: NodeType, name: string)
    requires Consistent(t) && k in t.nodes
    ensures Consistent(Register(t, g, k, ty, name))
    ensures Register(t, g, k, ty, name).nodes.Keys == t.nodes.Keys
    ensures Register(t, g, k, ty, name).intersectionCount == t.intersectionCount
  {
    var r := Register(t, g, k, ty, name);
    assert r.nodes.Keys == t.nodes.Keys;
    assert r.names.Keys == t.names.Keys + {name};
    assert PointsInto(r.names, r.nodes.Keys);
    match g
    case RunwayStopbars => assert PointsInto(r.stopbarNodes, r.nodes.Keys);
    case RemoteHoldings => assert PointsInto(r.remholdNodes, r.nodes.Keys);
    case Transfers => assert PointsInto(r.transferNodes, r.nodes.Keys);
    case DeicingPoints => assert PointsInto(r.deicingNodes, r.nodes.Keys);
    case TaxibotPoints => assert PointsInto(r.tugPointNodes, r.nodes.Keys);
  }

  /** Renaming a known node and recording its name keeps the tables consistent. */
  lemma RenameConsistent(t: NodeTables, k: NodeId, ty: NodeType, name: string)
    requires k in t.nodes && Consistent(t)
    ensures var t1 := t.(nodes := t.nodes[k := t.nodes[k].(nodeType := ty, nodeName := Some(name))],
                         names := t.names[name := k]);
            Consistent(t1) && t1.nodes.Keys == t.nodes.Keys && t1.names.Keys == t.names.Keys + {name}
  {
    var t1 := t.(nodes := t.nodes[k := t.nodes[k].(nodeType := ty, nodeName := Some(name))],
                 names := t.names[name := k]);
    assert t1.nodes.Keys == t.nodes.Keys;
    assert t1.names.Keys == t.names.Keys + {name};
    assert PointsInto(t1.names, t1.nodes.Keys);
    assert MapsPointIntoNodes(t1) && TablesWithinNodes(t1) && GroupNamesKnown(t1);
  }

  /** The tables after a parking marker renamed node `k`. */
  function Renamed(t: NodeTables, k: NodeId, kind: ParkingKind): (r: NodeTables)
    requires k in t.nodes
    ensures r.nodes.Keys == t.nodes.Keys && r.intersectionCount == t.intersectionCount
    ensures r.buffer == t.buffer
  {
    Retyped(t, k, kind.nodeType, kind.name)
  }

  /** The tables after a remote-holding marker on node `k`. */
  function WithRemoteHolding(t: NodeTables, k: NodeId, kind: ParkingKind): (r: NodeTables)
    requires k in t.nodes
    ensures r.nodes.Keys == t.nodes.Keys && r.intersectionCount == t.intersectionCount
    ensures r.buffer == t.buffer
  {
    Renamed(t, k, kind).(remholdNodes := t.remholdNodes[kind.name := k], remholds := t.remholds[k := kind.name])
  }

  /** The tables after a tug-base marker on node `k`. */
  function WithTugBase(t: NodeTables, k: NodeId, kind: ParkingKind): (r: NodeTables)
    requires k in t.nodes
    ensures r.nodes.Keys == t.nodes.Keys && r.intersectionCount == t.intersectionCount
    ensures r.buffer == t.buffer
  {
    Renamed(t, k, kind).(tugBase := t.tugBase + {k})
  }

  lemma RemoteHoldingConsistent(t: NodeTables, k: NodeId, kind: ParkingKind)
    requires k in t.nodes && Consistent(t)
    ensures Consistent(WithRemoteHolding(t, k, kind))
  {
    RenameConsistent(t, k, kind.nodeType, kind.name);
    var v := WithRemoteHolding(t, k, kind);
    assert PointsInto(v.remholdNodes, v.nodes.Keys);
    assert MapsPointIntoNodes(v) && TablesWithinNodes(v) && GroupNamesKnown(v);
  }

  /** The tables after a ramp marker on node `k`. */
  function WithRamp(t: NodeTables, k: NodeId, kind: ParkingKind, isBuffer: bool, bearing: Option<real>): (r: NodeTables)
    requires k in t.nodes
    ensures r.nodes.Keys == t.nodes.Keys && r.intersectionCount == t.intersectionCount
    ensures r.buffer == if isBuffer then Some(k) else t.buffer
  {
    Renamed(t, k, kind).(rampNodes := t.rampNodes[kind.name := k],
                         ramps := t.ramps[k := RampRecord(kind.name, bearing)],
                         buffer := if isBuffer then Some(k) else t.buffer)
  }

  /** A ramp marker keeps the tables consistent. */
  lemma RampConsistent(t: NodeTables, k: NodeId, kind: ParkingKind, isBuffer: bool, bearing: Option<real>)
    requires k in t.nodes && Consistent(t)
    ensures Consistent(WithRamp(t, k, kind, isBuffer, bearing))
  {
    var v := WithRamp(t, k, kind, isBuffer, bearing);
    assert v.names == t.names[kind.name := k] && v.rampNodes == t.rampNodes[kind.name := k];
    assert v.ramps.Keys == t.ramps.Keys + {k};
    assert v.remholdNodes == t.remholdNodes && v.stopbarNodes == t.stopbarNodes && v.transferNodes == t.transferNodes;
    assert v.deicingNodes == t.deicingNodes && v.tugPointNodes == t.tugPointNodes;
    assert v.remholds == t.remholds && v.tugBase == t.tugBase;
  }

  /** A classified marker keeps the tables consistent. */
  lemma ApplyParkingConsistent(t: NodeTables, k: NodeId, kind: ParkingKind, isBuffer: bool, bearing: Option<real>)
    requires k in t.nodes && Consistent(t)
    ensures var r := ApplyParking(t, k, kind, isBuffer, bearing);
            r.Ok? ==> Consistent(r.value)
  {
    if kind.nodeType == RemoteHolding {
      RemoteHoldingConsistent(t, k, kind);
    } else if kind.nodeType == TetBase {
      TugBaseConsistent(t, k, kind);
    } else if kind.nodeType == Ramp {
      RampConsistent(t, k, kind, isBuffer, bearing);
    } else {
      RenameConsistent(t, k, kind.nodeType, kind.name);
    }
  }

  lemma TugBaseConsistent(t: NodeTables, k: NodeId, kind: ParkingKind)
    requires k in t.nodes && Consistent(t)
    ensures Consistent(WithTugBase(t, k, kind))
  {
    RenameConsistent(t, k, kind.nodeType, kind.name);
    var t1 := Renamed(t, k, kind);
    var v := WithTugBase(t, k, kind);
    assert v.nodes == t1.nodes && v.names == t1.names;
    assert MapsPointIntoNodes(v) && TablesWithinNodes(v) && GroupNamesKnown(v);
  }

  /** A parking marker keeps the tables consistent and never adds or drops a node. */
  lemma ParkingStepConsistent(s: Scan, p: ParkingMarker, hp: set<string>)
    requires ParkingReadable(p) && Consistent(s.tables)
    ensures var r := ParkingStep(s, p, hp);
            r.Ok? ==> Consistent(r.value.tables) && r.value.tables.nodes.Keys == s.tables.nodes.Keys
                      && r.value.tables.intersectionCount == s.tables.intersectionCount
  {
    if p.node.Some? {
      var t := s.tables;
      var node := MarkerNode(p.node.value, t.intersectionCount, s.lastNode);
      var c := ClassifyParking(p.id);
      if c.Ok? && node.Some? && node.value in t.nodes {
        ApplyParkingConsistent(t, node.value, c.value, Contains(p.id, BufferWord), p.bearing);
      }
    }
  }

  /** A holding marker keeps the tables consistent and never adds or drops a node. */
  lemma HoldingStepConsistent(s: Scan, g: HoldingGroup, m: HoldingMarker)
    requires HoldingReadable(g, m) && Consistent(s.tables)
    ensures HoldingStep(s, g, m).Ok? ==> Consistent(HoldingStep(s, g, m).value.tables)
    ensures HoldingStep(s, g, m).Ok? ==> HoldingStep(s, g, m).value.tables.nodes.Keys == s.tables.nodes.Keys
    ensures HoldingStep(s, g, m).Ok? ==>
              HoldingStep(s, g, m).value.tables.intersectionCount == s.tables.intersectionCount
  {
    var t := s.tables;
    var node := HoldingNode(g, m, t.intersectionCount, s.lastNode);
    var k := if node.Some? then node.value else 0;
    if k in t.nodes {
      if g == TaxibotPoints && m.typeAttr.Some? && s.lastType.Some? {
        RegisterConsistent(t.(tugBase := t.tugBase + {k}), g, k, s.lastType.value, m.name);
      } else {
        RegisterConsistent(t, g, k, Stopbar, m.name);
        RegisterConsistent(t, g, k, RemoteHolding, m.name);
        RegisterConsistent(t, g, k, Transfer, m.name);
        RegisterConsistent(t, g, k, Deicing, m.name);
        RegisterConsistent(t, g, k, Tugs, m.name);
      }
    }
  }

  lemma {:induction false} ParkingFoldConsistent(s: Scan, ps: seq<ParkingMarker>, hp: set<string>)
    requires forall i :: 0 <= i < |ps| ==> ParkingReadable(ps[i])
    requires Consistent(s.tables)
    ensures var r := ParkingFold(s, ps, hp);
            r.Ok? ==> Consistent(r.value.tables) && r.value.tables.nodes.Keys == s.tables.nodes.Keys
                      && r.value.tables.intersectionCount == s.tables.intersectionCount
  {
    if |ps| > 0 {
      assert forall i :: 0 <= i < |ps| - 1 ==> ps[..|ps| - 1][i] == ps[i];
      ParkingFoldConsistent(s, ps[..|ps| - 1], hp);
      var r := ParkingFold(s, ps[..|ps| - 1], hp);
      if r.Ok? {
        ParkingStepConsistent(r.value, ps[|ps| - 1], hp);
      }
    }
  }

  lemma {:induction false} HoldingFoldConsistent(s: Scan, g: HoldingGroup, ms: seq<HoldingMarker>)
    requires forall i :: 0 <= i < |ms| ==> HoldingReadable(g, ms[i])
    requires Consistent(s.tables)
    ensures HoldingFold(s, g, ms).Ok? ==> Consistent(HoldingFold(s, g, ms).value.tables)
    ensures HoldingFold(s, g, ms).Ok? ==> HoldingFold(s, g, ms).value.tables.nodes.Keys == s.tables.nodes.Keys
    ensures HoldingFold(s, g, ms).Ok? ==>
              HoldingFold(s, g, ms).value.tables.intersectionCount == s.tables.intersectionCount
  {
    if |ms| > 0 {
      assert forall i :: 0 <= i < |ms| - 1 ==> ms[..|ms| - 1][i] == ms[i];
      HoldingFoldConsistent(s, g, ms[..|ms| - 1]);
      var r := HoldingFold(s, g, ms[..|ms| - 1]);
      if r.Ok? {
        HoldingStepConsistent(r.value, g, ms[|ms| - 1]);
      }
    }
  }

  /**
   * After `import_nodes` the tables are consistent, the node set is the
   * registered one, and the intersection count is the number of distinct
   * intersection ids.
   */
  lemma ImportNodesConsistent(input: NodeInput)
    requires InputReadable(input)
    requires ImportNodesSpec(input).Ok?
    ensures Consistent(ImportNodesSpec(input).value)
    ensures ImportNodesSpec(input).value.nodes.Keys == Registered(input.groupIds).0.Keys
    ensures ImportNodesSpec(input).value.intersectionCount == |Intersections(input.groupIds).Keys|
  {
    var (nodes, count) := Registered(input.groupIds);
    var s0 := Scan(FreshTables(nodes, count), None, RegisteredLast(input.groupIds, count));
    ParkingFoldConsistent(s0, input.parkings, input.holdingPoints);
    var s1 := ParkingFold(s0, input.parkings, input.holdingPoints).value;
    HoldingFoldConsistent(s1, RunwayStopbars, input.stopbars);
    var s2 := HoldingFold(s1, RunwayStopbars, input.stopbars).value;
    HoldingFoldConsistent(s2, RemoteHoldings, input.remoteHoldings);
    var s3 := HoldingFold(s2, RemoteHoldings, input.remoteHoldings).value;
    HoldingFoldConsistent(s3, Transfers, input.transfers);
    var s4 := HoldingFold(s3, Transfers, input.transfers).value;
    HoldingFoldConsistent(s4, DeicingPoints, input.deicings);
    var s5 := HoldingFold(s4, DeicingPoints, input.deicings).value;
    HoldingFoldConsistent(s5, TaxibotPoints, input.taxibots);
  }

  /**
   * A tug-base point of the taxibot group sets no node type of its own: its
   * node takes whatever type the previous holding point left in the loop
   * variable, here a deicing point's.
   */
  lemma TugBaseTakesPreviousType(t: NodeTables, d: HoldingMarker, b: HoldingMarker)
    requires HoldingReadable(DeicingPoints, d) && d.typeAttr.None?
    requires HoldingReadable(TaxibotPoints, b) && b.typeAttr == Some("base")
    requires IsNodeRef(b.node)
    requires HoldingNode(DeicingPoints, d, t.intersectionCount, None).value in t.nodes
    requires HoldingNode(TaxibotPoints, b, t.intersectionCount, None).value in t.nodes
    ensures HoldingStep(Scan(t, None, None), DeicingPoints, d).Ok?
    ensures var s := HoldingStep(Scan(t, None, None), DeicingPoints, d).value;
            var r := HoldingStep(s, TaxibotPoints, b);
            var k := HoldingNode(TaxibotPoints, b, t.intersectionCount, None).value;
            r.Ok? && r.value.tables.nodes[k].nodeType == Deicing && k in r.value.tables.tugBase
  {
    var s := HoldingStep(Scan(t, None, None), DeicingPoints, d).value;
    assert s.lastType == Some(Deicing);
    assert s.tables.nodes.Keys == t.nodes.Keys;
    assert s.tables.intersectionCount == t.intersectionCount;
    assert IndexOf(Lower("base"), "base") >= 0 by {
      assert Lower("base") == "base";
      assert OccursAt("base", "base", 0);
    }
  }
}
