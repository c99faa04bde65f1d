/**
 * Node ids and node names of `Layout.import_nodes` and of the path bounds in
 * `Layout.import_edges` (src/Layout/Layout.py).
 *
 * An SVG node id is `intersection_node_<k>` or `termination_node_<k>`; the
 * graph id of the first is `k`, of the second `k` plus the number of
 * intersection nodes, so that both kinds share one id space.
 */
module NodeIds {
  import opened Wrappers
  import opened Strings
  import opened Graph

  const IntersectionPrefix: string := "intersection_node_"
  const TerminationPrefix: string := "termination_node_"

  /** The reference can be read: its number after removing the marker is a decimal numeral. */
  predicate WellFormedRef(ref: string)
  {
    (StartsWith(ref, "intersection_") ==> IsNumeral(RemoveAll(ref, IntersectionPrefix)))
    && (!StartsWith(ref, "intersection_") && StartsWith(ref, "termination_") ==>
          IsNumeral(RemoveAll(ref, TerminationPrefix)))
  }

  /**
   * The node a path bound (or a marker's `node` attribute) refers to:
   * `None` when it names neither an intersection nor a termination, which is
   * an open end of the drawing.
   */
  function BoundNode(ref: string, intersectionCount: nat): (r: Option<NodeId>)
    requires WellFormedRef(ref)
    ensures r.None? <==> !StartsWith(ref, "intersection_") && !StartsWith(ref, "termination_")
    ensures StartsWith(ref, "intersection_") ==> r == Some(NumeralValue(RemoveAll(ref, IntersectionPrefix)))
    ensures !StartsWith(ref, "intersection_") && StartsWith(ref, "termination_") ==>
              r.Some? && r.value >= intersectionCount
  {
    if StartsWith(ref, "intersection_") then Some(NumeralValue(RemoveAll(ref, IntersectionPrefix)))
    else if StartsWith(ref, "termination_") then
      Some(NumeralValue(RemoveAll(ref, TerminationPrefix)) + intersectionCount)
    else None
  }

  /** A pattern that starts with a letter never occurs in a numeral. */
  lemma LetterPatternNotInNumeral(digits: string, pat: string)
    requires IsNumeral(digits) && |pat| > 0 && !IsDigit(pat[0])
    ensures IndexOf(digits, pat) == -1
  {
    forall j | 0 <= j && j + |pat| <= |digits| ensures !OccursAt(digits, pat, j) {
      assert digits[j..j + |pat|][0] == digits[j];
    }
  }

  /** Removing a letter-led prefix from `prefix + numeral` leaves the numeral. */
  lemma {:induction false} RemovePrefixMarker(prefix: string, digits: string)
    requires IsNumeral(digits) && |prefix| > 0 && !IsDigit(prefix[0])
    ensures RemoveAll(prefix + digits, prefix) == digits
  {
    var s := prefix + digits;
    assert OccursAt(s, prefix, 0) by { assert s[0..|prefix|] == prefix; }
    assert IndexOf(s, prefix) == 0;
    assert s[|prefix|..] == digits;
    LetterPatternNotInNumeral(digits, prefix);
  }

  /** The id written into `intersection_node_<k>` is `k`. */
  lemma {:induction false} IntersectionRefRoundTrip(k: nat, intersectionCount: nat)
    ensures WellFormedRef(IntersectionPrefix + NatToString(k))
    ensures BoundNode(IntersectionPrefix + NatToString(k), intersectionCount) == Some(k)
  {
    var ref := IntersectionPrefix + NatToString(k);
    assert StartsWith(ref, "intersection_") by { assert ref[..13] == "intersection_"; }
    RemovePrefixMarker(IntersectionPrefix, NatToString(k));
    NumeralOfNatToString(k);
  }

  /** The id written into `termination_node_<k>` is `k` plus the intersection count. */
  lemma {:induction false} TerminationRefRoundTrip(k: nat, intersectionCount: nat)
    ensures WellFormedRef(TerminationPrefix + NatToString(k))
    ensures BoundNode(TerminationPrefix + NatToString(k), intersectionCount) == Some(k + intersectionCount)
  {
    var ref := TerminationPrefix + NatToString(k);
    assert StartsWith(ref, "termination_") by { assert ref[..12] == "termination_"; }
    assert !StartsWith(ref, "intersection_") by { assert ref[0] != 'i'; }
    RemovePrefixMarker(TerminationPrefix, NatToString(k));
    NumeralOfNatToString(k);
  }

  /** What a parking-position marker makes of its node. */
  datatype ParkingKind = ParkingKind(nodeType: NodeType, name: string)

  datatype ParkingError = RampWithTudSuffix(id: string)

  /**
   * The classification of a parking-position marker by its id: remote
   * holding, tug base, decoupling point, all-clear point, or a ramp; a ramp
   * id must not carry `TUD`.
   */
  function ClassifyParking(id: string): (r: Result<ParkingKind, ParkingError>)
    ensures r.Err? <==>
              !Contains(id, "remhold") && !Contains(id, "TET_base") && !Contains(id, "TET_decouple")
              && !Contains(id, "TET_allclear") && Contains(id, "TUD")
    ensures r.Ok? && r.value.nodeType == DecouplingPoint ==> EndsWith(r.value.name, "_dcp")
    ensures r.Ok? && r.value.nodeType == AllClearPoint ==> EndsWith(r.value.name, "_acp")
    ensures r.Ok? && r.value.nodeType == Ramp ==> r.value.name == id && !Contains(id, "TUD")
    ensures r.Ok? ==> r.value.nodeType in {RemoteHolding, TetBase, DecouplingPoint, AllClearPoint, Ramp}
  {
    if Contains(id, "remhold") then
      Ok(ParkingKind(RemoteHolding, RemoveSuffix(RemovePrefix(id, "remhold_"), "_TUD")))
    else if Contains(id, "TET_base") then
      Ok(ParkingKind(TetBase, RemoveSuffix(id, "_TUD")))
    else if Contains(id, "TET_decouple") then
      var name := RemoveSuffix(RemovePrefix(id, "TET_decouple_"), "_TUD") + "_dcp";
      assert name[|name| - 4..] == "_dcp";
      Ok(ParkingKind(DecouplingPoint, name))
    else if Contains(id, "TET_allclear") then
      var name := RemoveSuffix(RemovePrefix(id, "TET_allclear_"), "_TUD") + "_acp";
      assert name[|name| - 4..] == "_acp";
      Ok(ParkingKind(AllClearPoint, name))
    else if Contains(id, "TUD") then Err(RampWithTudSuffix(id))
    else Ok(ParkingKind(Ramp, id))
  }

  /** Names ending in `_dcp` and in `_acp` differ. */
  lemma SuffixesDiffer(x: string, y: string)
    requires EndsWith(x, "_dcp") && EndsWith(y, "_acp")
    ensures x != y
  {
    assert x[|x| - 4..][1] == 'd' && y[|y| - 4..][1] == 'a';
  }

  /** A decoupling point's name never equals an all-clear point's name: the suffixes keep them apart. */
  lemma DecouplingAndAllClearNamesDiffer(a: string, b: string)
    requires ClassifyParking(a).Ok? && ClassifyParking(a).value.nodeType == DecouplingPoint
    requires ClassifyParking(b).Ok? && ClassifyParking(b).value.nodeType == AllClearPoint
    ensures ClassifyParking(a).value.name != ClassifyParking(b).value.name
  {
    SuffixesDiffer(ClassifyParking(a).value.name, ClassifyParking(b).value.name);
  }

  /** A remote-holding marker `remhold_<name>_TUD` names its point `<name>`. */
  lemma {:induction false} RemoteHoldingName(name: string)
    ensures ClassifyParking("remhold_" + name + "_TUD") == Ok(ParkingKind(RemoteHolding, name))
  {
    var id := "remhold_" + name + "_TUD";
    assert OccursAt(id, "remhold", 0) by { assert id[0..7] == "remhold"; }
    assert StartsWith(id, "remhold_") by { assert id[..8] == "remhold_"; }
    var rest := RemovePrefix(id, "remhold_");
    assert rest == name + "_TUD";
    assert EndsWith(rest, "_TUD") by { assert rest[|rest| - 4..] == "_TUD"; }
    assert RemoveSuffix(rest, "_TUD") == name;
  }
}
