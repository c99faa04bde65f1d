/**
 * Decoding of the name string an X-Plane edge carries
 * (`edgeNameFromXPlane`, src/Layout/Layout.py `import_edges`): the wingspan
 * marker `maxspan_<n>`, the edge type and name, the remote-holding points an
 * `entry_exit` edge serves, the push and pull paths the edge belongs to, and
 * the entry bucket.
 */
module EdgeNames {
  import opened Wrappers
  import opened Strings
  import opened Graph

  /** One `(gate, category)` bucket the edge is filed under. */
  datatype Filing = Filing(gate: string, category: Category)

  /** Everything the name string decides about an edge. */
  datatype Decoded = Decoded(
    svgName: string,              // the name without its maxspan marker
    maxspan: Span,
    edgeType: EdgeType,
    edgeName: Option<string>,
    accessHolds: seq<string>,     // remote-holding points this edge is an access edge of
    pushFilings: seq<Filing>,
    pullFilings: seq<Filing>,
    entryKey: Option<string>)     // the entry bucket, the name's first `_` token

  /* ---------- the wingspan marker ---------- */

  /** The text after `maxspan_` up to the next `_`. */
  function MaxspanToken(name: string): (tok: string)
    requires Contains(name, "maxspan")
    ensures '_' !in tok
  {
    var idx := IndexOf(name, "maxspan") + 8;
    Split(if idx <= |name| then name[idx..] else "", '_')[0]
  }

  /** `int(...)` accepts the token (only decimal numerals are modelled). */
  predicate MaxspanReadable(name: string)
  {
    Contains(name, "maxspan") ==> IsNumeral(MaxspanToken(name))
  }

  /**
   * The marker handling as the source writes it: the bound is read with
   * `int`, and the text removed is rebuilt from that number with `str`.
   */
  function StripMaxspanAsWritten(name: string): (r: (string, Span))
    requires MaxspanReadable(name)
    ensures !Contains(name, "maxspan") ==> r == (name, Unlimited)
    ensures Contains(name, "maxspan") ==> r.1 == AtMost(NumeralValue(MaxspanToken(name)))
  {
    if !Contains(name, "maxspan") then (name, Unlimited)
    else
      var n := NumeralValue(MaxspanToken(name));
      (RemoveAll(name, "_maxspan_" + NatToString(n)), AtMost(n))
  }

  /** The marker handling with the text removed exactly as it was written in the name. */
  function StripMaxspan(name: string): (r: (string, Span))
    requires MaxspanReadable(name)
    ensures !Contains(name, "maxspan") ==> r == (name, Unlimited)
    ensures Contains(name, "maxspan") ==> r.1 == AtMost(NumeralValue(MaxspanToken(name)))
    ensures |r.0| <= |name|
  {
    if !Contains(name, "maxspan") then (name, Unlimited)
    else (RemoveAll(name, "_maxspan_" + MaxspanToken(name)), AtMost(NumeralValue(MaxspanToken(name))))
  }

  /** A numeral holds no `_`. */
  lemma NumeralHasNoUnderscore(tok: string)
    requires IsNumeral(tok)
    ensures '_' !in tok
  {
    forall i | 0 <= i < |tok| ensures tok[i] != '_' {
      assert IsDigit(tok[i]);
    }
  }

  /** In `a + "_maxspan_" + tok + b`, the first `maxspan` is the one of the marker. */
  lemma {:induction false} MarkerFound(a: string, tok: string, b: string)
    requires '_' !in a && !Contains(a, "maxspan")
    ensures var s := a + "_maxspan_" + tok + b;
            Contains(s, "maxspan") && IndexOf(s, "maxspan") == |a| + 1
  {
    var s := a + "_maxspan_" + tok + b;
    assert s[|a| + 1..|a| + 8] == "maxspan";
    assert OccursAt(s, "maxspan", |a| + 1);
    assert IndexOf(a, "maxspan") == -1;
    forall j | 0 <= j <= |a| ensures !OccursAt(s, "maxspan", j) {
      if j + 7 <= |a| {
        assert !OccursAt(a, "maxspan", j);
        assert s[j..j + 7] == a[j..j + 7];
      } else {
        assert s[j..j + 7][|a| - j] == s[|a|] == '_';
      }
    }
  }

  /** The token after the marker is read up to the next `_`. */
  lemma {:induction false} MarkerToken(a: string, tok: string, b: string)
    requires '_' !in a && !Contains(a, "maxspan") && IsNumeral(tok) && (b == [] || b[0] == '_')
    ensures Contains(a + "_maxspan_" + tok + b, "maxspan")
    ensures MaxspanToken(a + "_maxspan_" + tok + b) == tok
  {
    var s := a + "_maxspan_" + tok + b;
    MarkerFound(a, tok, b);
    assert s[|a| + 9..] == tok + b;
    NumeralHasNoUnderscore(tok);
    if b == [] {
      assert tok + b == tok;
      SplitWithoutSep(tok, '_');
    } else {
      assert tok + b == tok + ['_'] + b[1..];
      SplitAtFirstSep(tok, b[1..], '_');
    }
  }

  /** Removing `"_maxspan_" + tok` leaves `a + b` when it occurs nowhere else. */
  lemma {:induction false} MarkerRemoval(a: string, tok: string, b: string)
    requires '_' !in a && !Contains(b, "maxspan")
    ensures RemoveAll(a + "_maxspan_" + tok + b, "_maxspan_" + tok) == a + b
  {
    var m := "_maxspan_" + tok;
    var s := a + m + b;
    assert s == a + "_maxspan_" + tok + b;
    assert s[|a|..|a| + |m|] == m;
    assert OccursAt(s, m, |a|);
    forall j | 0 <= j < |a| ensures !OccursAt(s, m, j) {
      assert s[j..j + |m|][0] == s[j] == a[j];
    }
    assert IndexOf(s, m) == |a|;
    assert s[..|a|] == a;
    assert s[|a| + |m|..] == b;
    assert IndexOf(b, "maxspan") == -1;
    assert m[1..8] == "maxspan";
    assert |m| >= 9;
    forall j | 0 <= j && j + |m| <= |b| ensures !OccursAt(b, m, j) {
      assert !OccursAt(b, "maxspan", j + 1);
      if OccursAt(b, m, j) {
        OccursInside(b, m, j, 1, 7);
      }
    }
    assert IndexOf(b, m) == -1;
  }

  /**
   * Whatever numeral follows the marker, the wingspan bound is its value and
   * the marker disappears from the name.
   */
  lemma {:induction false} StripMaxspanRemovesMarker(a: string, tok: string, b: string)
    requires '_' !in a && !Contains(a, "maxspan") && !Contains(b, "maxspan")
    requires IsNumeral(tok) && (b == [] || b[0] == '_')
    ensures MaxspanReadable(a + "_maxspan_" + tok + b)
    ensures StripMaxspan(a + "_maxspan_" + tok + b) == (a + b, AtMost(NumeralValue(tok)))
  {
    MarkerFound(a, tok, b);
    MarkerToken(a, tok, b);
    MarkerRemoval(a, tok, b);
  }

  /** With the number written the way `str` writes it, the source strips the marker as intended. */
  lemma {:induction false} StripMaxspanAsWrittenCanonical(a: string, n: nat, b: string)
    requires '_' !in a && !Contains(a, "maxspan") && !Contains(b, "maxspan")
    requires b == [] || b[0] == '_'
    ensures MaxspanReadable(a + "_maxspan_" + NatToString(n) + b)
    ensures StripMaxspanAsWritten(a + "_maxspan_" + NatToString(n) + b) == (a + b, AtMost(n))
  {
    NumeralOfNatToString(n);
    AsWrittenAgreesOnToken(a, NatToString(n), b, n);
  }

  lemma AsWrittenAgreesOnToken(a: string, tok: string, b: string, n: nat)
    requires '_' !in a && !Contains(a, "maxspan") && !Contains(b, "maxspan")
    requires b == [] || b[0] == '_'
    requires IsNumeral(tok) && NumeralValue(tok) == n && tok == NatToString(n)
    ensures MaxspanReadable(a + "_maxspan_" + tok + b)
    ensures StripMaxspanAsWritten(a + "_maxspan_" + tok + b) == (a + b, AtMost(n))
  {
    var s := a + "_maxspan_" + tok + b;
    MarkerToken(a, tok, b);
    StripMaxspanRemovesMarker(a, tok, b);
    assert MaxspanToken(s) == tok;
    assert "_maxspan_" + NatToString(NumeralValue(MaxspanToken(s))) == "_maxspan_" + tok;
  }

  /**
   * A bound written with a leading zero is read, but the text `str` rebuilds
   * from it does not occur: `A_maxspan_07_TUD` keeps its marker.
   */
  lemma LeadingZeroKeepsMarker()
    ensures MaxspanReadable("A_maxspan_07_TUD")
    ensures StripMaxspanAsWritten("A_maxspan_07_TUD") == ("A_maxspan_07_TUD", AtMost(7))
  {
    var a, tok, b := "A", "07", "_TUD";
    var s := a + "_maxspan_" + tok + b;
    assert s == "A_maxspan_07_TUD";
    assert IndexOf(a, "maxspan") == -1;
    assert IsNumeral(tok);
    MarkerToken(a, tok, b);
    assert NumeralValue(tok) == 7 by { assert tok[..1] == "0"; assert "0"[..0] == ""; }
    assert NatToString(7) == "7";
    var m := "_maxspan_7";
    RebuiltMarkerAbsent();
    assert RemoveAll(s, m) == s;
    assert MaxspanToken(s) == tok;
    assert "_maxspan_" + NatToString(7) == m;
    assert StripMaxspanAsWritten(s) == (RemoveAll(s, m), AtMost(7));
    assert StripMaxspanAsWritten(s) == (s, AtMost(7));
  }

  /** The text `str` rebuilds from the bound 7 does not occur in `A_maxspan_07_TUD`. */
  lemma RebuiltMarkerAbsent()
    ensures IndexOf("A_maxspan_07_TUD", "_maxspan_7") == -1
  {
    forall j | 0 <= j ensures !OccursAt("A_maxspan_07_TUD", "_maxspan_7", j) {
      RebuiltMarkerNotAt(j);
    }
  }

  /** `_maxspan_7` does not start at position `j` of `A_maxspan_07_TUD`. */
  lemma RebuiltMarkerNotAt(j: int)
    ensures !OccursAt("A_maxspan_07_TUD", "_maxspan_7", j)
  {
    var s, m := "A_maxspan_07_TUD", "_maxspan_7";
    if 0 <= j && j + |m| <= |s| {
      if j == 1 {
        assert s[j..j + |m|][9] == '0';
      } else {
        assert s[j..j + |m|][0] == s[j] != '_';
      }
    }
  }

  /** The same name read with the marker text taken as written: the marker goes, the bound stays 7. */
  lemma LeadingZeroMarkerRemoved()
    ensures MaxspanReadable("A_maxspan_07_TUD")
    ensures StripMaxspan("A_maxspan_07_TUD") == ("A_TUD", AtMost(7))
  {
    var a, tok, b := "A", "07", "_TUD";
    assert a + "_maxspan_" + tok + b == "A_maxspan_07_TUD";
    assert a + b == "A_TUD";
    assert IndexOf(a, "maxspan") == -1;
    assert IndexOf(b, "maxspan") == -1;
    assert IsNumeral(tok);
    assert NumeralValue(tok) == 7 by { assert tok[..1] == "0"; assert "0"[..0] == ""; }
    StripMaxspanRemovesMarker(a, tok, b);
  }

  /* ---------- types and names ---------- */

  /** `'pb'` occurs after the first character, or `'pull'` occurs, in the lower-cased name. */
  predicate IsPushPullName(svgName: string)
  {
    IndexOf(Lower(svgName), "pb") > 0 || Contains(Lower(svgName), "pull")
  }

  /** Only names with `TUD` (or any service-road path) and without `Linear Feature` are decoded. */
  predicate IsDecodedName(svgName: string, pathType: string)
  {
    (Contains(svgName, "TUD") || pathType == "service") && !Contains(svgName, "Linear Feature")
  }

  /** The dash-separated variants of a push/pull name, taken before its first `_TUD`. */
  function Variants(svgName: string): (vs: seq<string>)
    ensures |vs| >= 1
  {
    Split(BeforeFirst(svgName, "_TUD"), '-')
  }

  predicate IsPushVariant(v: string)
  {
    !Contains(v, "TWY") && !Contains(Lower(v), "pull")
  }

  predicate IsPullVariant(v: string)
  {
    !Contains(v, "TWY") && Contains(Lower(v), "pull")
  }

  /**
   * A variant whose category the source can read: a category marker
   * `pb@`/`pull@` must be `pb@d`/`pull@d`.
   */
  predicate VariantReadable(v: string)
  {
    (IsPushVariant(v) && Contains(Lower(v), "pb@") ==> Contains(Lower(v), "pb@d"))
    && (IsPullVariant(v) && Contains(Lower(v), "pull@") ==> Contains(Lower(v), "pull@d"))
  }

  /** A pull variant without a second `_` token, where the source's `split('_')[1]` raises `IndexError`. */
  predicate LacksPullGates(v: string)
  {
    IsPullVariant(v) && |Split(v, '_')| < 2
  }

  /** Some variant of a decoded push/pull name is a pull variant without its gate token. */
  predicate MissingPullGates(svgName: string, pathType: string)
  {
    IsDecodedName(svgName, pathType) && IsPushPullName(svgName)
    && exists i :: 0 <= i < |Variants(svgName)| && LacksPullGates(Variants(svgName)[i])
  }

  /** `marker@d` selects ICAO-D, no `marker@` selects Standard. */
  function VariantCategory(v: string, marker: string): (c: Category)
    ensures c in {Standard, IcaoD}
  {
    if !Contains(Lower(v), marker + "@") then Standard else IcaoD
  }

  /** Push variants name their gates in the first `_` token, pull variants in the second. */
  function PushGates(v: string): seq<string>
  {
    Split(Split(v, '_')[0], '&')
  }

  /** The gates of a pull variant; none without a second token, a name the import refuses (`MissingPullGates`). */
  function PullGates(v: string): seq<string>
  {
    var tokens := Split(v, '_');
    if |tokens| >= 2 then Split(tokens[1], '&') else []
  }

  function FilingsOf(gates: seq<string>, c: Category): (fs: seq<Filing>)
    ensures |fs| == |gates|
    ensures forall i :: 0 <= i < |gates| ==> fs[i] == Filing(gates[i], c)
  {
    seq(|gates|, i requires 0 <= i < |gates| => Filing(gates[i], c))
  }

  /** The push buckets of the variants, in order. */
  function PushFilings(vs: seq<string>): seq<Filing>
  {
    if |vs| == 0 then []
    else
      var here := if IsPushVariant(vs[0]) then FilingsOf(PushGates(vs[0]), VariantCategory(vs[0], "pb")) else [];
      here + PushFilings(vs[1..])
  }

  /** The pull buckets of the variants, in order. */
  function PullFilings(vs: seq<string>): seq<Filing>
  {
    if |vs| == 0 then []
    else
      var here := if IsPullVariant(vs[0]) then FilingsOf(PullGates(vs[0]), VariantCategory(vs[0], "pull")) else [];
      here + PullFilings(vs[1..])
  }

  /** The name string can be decoded: the path type is known and the maxspan token is a numeral. */
  predicate NameReadable(nameAttr: string, pathType: string)
  {
    pathType in {"runway", "taxiway", "service"} && MaxspanReadable(nameAttr)
  }

  /** Every category marker of the push/pull variants of a decoded name is `@d`. */
  predicate VariantsQualified(svgName: string, pathType: string)
  {
    IsDecodedName(svgName, pathType) && IsPushPullName(svgName) ==>
      forall i :: 0 <= i < |Variants(svgName)| ==> VariantReadable(Variants(svgName)[i])
  }

  /**
   * The decoding in the order the source applies it: each later test may
   * overwrite what an earlier one set.
   */
  function DecodeName(nameAttr: string, pathType: string): (d: Decoded)
    requires NameReadable(nameAttr, pathType)
    ensures (d.svgName, d.maxspan) == StripMaxspan(nameAttr)
    ensures !IsDecodedName(d.svgName, pathType) ==>
              d.edgeType == TwyEdge && d.edgeName.None? && d.accessHolds == [] && d.pushFilings == []
              && d.pullFilings == [] && d.entryKey.None?
  {
    var (svg, maxspan) := StripMaxspan(nameAttr);
    var low := Lower(svg);
    if IsDecodedName(svg, pathType) then
      var name0 := if Contains(svg, "TUD") then Some(BeforeFirst(svg, "_TUD")) else None;
      var (t1, n1) := if Contains(low, "serviceroad") then (ServiceRoad, None) else (TwyEdge, name0);
      var (t2, n2) :=
        if Contains(low, "center_serviceroad") then (CenterServiceRoad, None)
        else if Contains(low, "stand") then (Stand, Some(Split(svg, '_')[0]))
        else (t1, n1);
      var access := if Contains(low, "entry_exit") then Split(Split(svg, '_')[0], '&') else [];
      var (t3, n3) := if IsPushPullName(svg) && !Contains(svg, "TWY") then (PushPullPlaceholder, None) else (t2, n2);
      var vs := if IsPushPullName(svg) then Variants(svg) else [];
      var entry := if Contains(low, "entry") then Some(Split(svg, '_')[0]) else None;
      var (t4, n4) := if entry.Some? then (EntryPlaceholder, None) else (t3, n3);
      Decoded(svg, maxspan, t4, n4, access, PushFilings(vs), PullFilings(vs), entry)
    else
      Decoded(svg, maxspan, TwyEdge, None, [], [], [], None)
  }

  /**
   * The edge type and name as a decision list, the first matching rule
   * winning: entries, then push/pull paths, centre service roads, stands,
   * service roads, and finally taxiway edges named by the text before `_TUD`.
   */
  function TypeByPrecedence(svg: string, pathType: string): (tn: (EdgeType, Option<string>))
  {
    var low := Lower(svg);
    if !IsDecodedName(svg, pathType) then (TwyEdge, None)
    else if Contains(low, "entry") then (EntryPlaceholder, None)
    else if IsPushPullName(svg) && !Contains(svg, "TWY") then (PushPullPlaceholder, None)
    else if Contains(low, "center_serviceroad") then (CenterServiceRoad, None)
    else if Contains(low, "stand") then (Stand, Some(Split(svg, '_')[0]))
    else if Contains(low, "serviceroad") then (ServiceRoad, None)
    else if Contains(svg, "TUD") then (TwyEdge, Some(BeforeFirst(svg, "_TUD")))
    else (TwyEdge, None)
  }

  /** The overwriting tests of the source pick the type and name of the decision list. */
  lemma DecodeFollowsPrecedence(nameAttr: string, pathType: string)
    requires NameReadable(nameAttr, pathType)
    ensures var d := DecodeName(nameAttr, pathType);
            (d.edgeType, d.edgeName) == TypeByPrecedence(d.svgName, pathType)
  {
  }

  /** A name is filed under a push bucket exactly when some push variant lists that gate. */
  lemma {:induction false} PushFilingsMembership(vs: seq<string>, f: Filing)
    ensures f in PushFilings(vs) <==>
              exists i :: 0 <= i < |vs| && IsPushVariant(vs[i]) && f.gate in PushGates(vs[i])
                          && f.category == VariantCategory(vs[i], "pb")
  {
    if |vs| > 0 {
      PushFilingsMembership(vs[1..], f);
      var here := if IsPushVariant(vs[0]) then FilingsOf(PushGates(vs[0]), VariantCategory(vs[0], "pb")) else [];
      assert PushFilings(vs) == here + PushFilings(vs[1..]);
      assert f in here <==> IsPushVariant(vs[0]) && f.gate in PushGates(vs[0]) && f.category == VariantCategory(vs[0], "pb") by {
        if IsPushVariant(vs[0]) && f.gate in PushGates(vs[0]) && f.category == VariantCategory(vs[0], "pb") {
          var k :| 0 <= k < |PushGates(vs[0])| && PushGates(vs[0])[k] == f.gate;
          assert here[k] == f;
        }
      }
      if f in PushFilings(vs[1..]) {
        var i :| 0 <= i < |vs[1..]| && IsPushVariant(vs[1..][i]) && f.gate in PushGates(vs[1..][i])
                 && f.category == VariantCategory(vs[1..][i], "pb");
        assert vs[i + 1] == vs[1..][i];
      }
      if exists i :: 0 < i < |vs| && IsPushVariant(vs[i]) && f.gate in PushGates(vs[i])
                     && f.category == VariantCategory(vs[i], "pb") {
        var i :| 0 < i < |vs| && IsPushVariant(vs[i]) && f.gate in PushGates(vs[i])
                 && f.category == VariantCategory(vs[i], "pb");
        assert vs[1..][i - 1] == vs[i];
      }
    }
  }

  /** A name is filed under a pull bucket exactly when some pull variant lists that gate in its second token. */
  lemma {:induction false} PullFilingsMembership(vs: seq<string>, f: Filing)
    ensures f in PullFilings(vs) <==>
              exists i :: 0 <= i < |vs| && IsPullVariant(vs[i]) && f.gate in PullGates(vs[i])
                          && f.category == VariantCategory(vs[i], "pull")
  {
    if |vs| > 0 {
      PullFilingsMembership(vs[1..], f);
      var here := if IsPullVariant(vs[0]) then FilingsOf(PullGates(vs[0]), VariantCategory(vs[0], "pull")) else [];
      assert PullFilings(vs) == here + PullFilings(vs[1..]);
      assert f in here <==> IsPullVariant(vs[0]) && f.gate in PullGates(vs[0]) && f.category == VariantCategory(vs[0], "pull") by {
        if IsPullVariant(vs[0]) && f.gate in PullGates(vs[0]) && f.category == VariantCategory(vs[0], "pull") {
          var k :| 0 <= k < |PullGates(vs[0])| && PullGates(vs[0])[k] == f.gate;
          assert here[k] == f;
        }
      }
      if f in PullFilings(vs[1..]) {
        var i :| 0 <= i < |vs[1..]| && IsPullVariant(vs[1..][i]) && f.gate in PullGates(vs[1..][i])
                 && f.category == VariantCategory(vs[1..][i], "pull");
        assert vs[i + 1] == vs[1..][i];
      }
      if exists i :: 0 < i < |vs| && IsPullVariant(vs[i]) && f.gate in PullGates(vs[i])
                     && f.category == VariantCategory(vs[i], "pull") {
        var i :| 0 < i < |vs| && IsPullVariant(vs[i]) && f.gate in PullGates(vs[i])
                 && f.category == VariantCategory(vs[i], "pull");
        assert vs[1..][i - 1] == vs[i];
      }
    }
  }

  /** Variants that mention `TWY` are never filed, whatever else they say. */
  lemma TwyVariantsNotFiled(v: string)
    requires Contains(v, "TWY")
    ensures PushFilings([v]) == [] && PullFilings([v]) == []
  {
    assert [v][1..] == [];
  }
}
