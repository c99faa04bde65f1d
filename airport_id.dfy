/**
 * The airport code and optional version taken from the layout file's name
 * (the start of `Layout.__init__`): the last path component without its
 * `.svg` suffix is `<ICAO code>` or `<ICAO code>-<version>`, and the code
 * must have exactly four characters.
 */
module AirportId {
  import opened Wrappers
  import opened Strings

  datatype AirportName = AirportName(airportId: string, version: Option<string>)

  datatype NameError =
    | CodeNotFourCharacters(code: string)   // first assertion of the constructor
    | CodeEqualsVersion(code: string)       // second assertion of the constructor
    | NoVersionSeparator(stem: string)      // only raised by the corrected parser

  /** Python `s.replace(a, b)` for single characters. */
  function ReplaceChar(s: string, a: char, b: char): (r: string)
    ensures |r| == |s|
    ensures forall i :: 0 <= i < |s| ==> r[i] == if s[i] == a then b else s[i]
  {
    seq(|s|, i requires 0 <= i < |s| => if s[i] == a then b else s[i])
  }

  /** Python's reading of a slice bound `k` against a sequence of length `n`. */
  function SliceBound(k: int, n: nat): (b: nat)
    ensures b <= n
    ensures 0 <= k <= n ==> b == k
  {
    if k < 0 then (if n + k < 0 then 0 else n + k) else if k > n then n else k
  }

  /** Python `s[i:j]`, including negative bounds counted from the end. */
  function PySlice(s: string, i: int, j: int): (r: string)
    ensures 0 <= i <= j <= |s| ==> r == s[i..j]
  {
    var a, b := SliceBound(i, |s|), SliceBound(j, |s|);
    if a < b then s[a..b] else ""
  }

  /** The file-name stem: between the last `/` and the last `.svg`, after `\` became `/`. */
  function Stem(svgPath: string): string
  {
    var p := ReplaceChar(svgPath, '\\', '/');
    PySlice(p, LastIndexOf(p, "/") + 1, LastIndexOf(p, ".svg"))
  }

  /** The parsing in `Layout.__init__` exactly as the source writes it. */
  function ParseAirportNameAsWritten(svgPath: string): (r: Result<AirportName, NameError>)
    ensures r.Ok? ==> |r.value.airportId| == 4
  {
    var stem := Stem(svgPath);
    var (code, version) :=
      if |stem| > 4 then
        var dash := LastIndexOf(stem, "-");
        (PySlice(stem, 0, dash), Some(PySlice(stem, dash + 1, |stem|)))
      else (stem, None);
    Checked(code, version)
  }

  /** The two assertions of the constructor on the code and the version. */
  function Checked(code: string, version: Option<string>): (r: Result<AirportName, NameError>)
    ensures r.Ok? ==> r == Ok(AirportName(code, version)) && |code| == 4 && version != Some(code)
  {
    if |code| != 4 then Err(CodeNotFourCharacters(code))
    else if version == Some(code) then Err(CodeEqualsVersion(code))
    else Ok(AirportName(code, version))
  }

  /**
   * A five-character stem without `-` is accepted: the slice before the
   * missing separator drops the last character, and the version is the whole
   * stem, so `ABCDE.svg` reads as airport `ABCD`, version `ABCDE`.
   */
  lemma FiveCharacterStemAccepted()
    ensures ParseAirportNameAsWritten("ABCDE.svg") == Ok(AirportName("ABCD", Some("ABCDE")))
  {
    var p := "ABCDE.svg";
    assert ReplaceChar(p, '\\', '/') == p;
    AbsentChar(p, '/');
    assert OccursAt(p, ".svg", 5);
    assert LastIndexOf(p, ".svg") == 5;
    var stem := Stem(p);
    assert stem == "ABCDE";
    AbsentChar(stem, '-');
    assert PySlice(stem, 0, -1) == "ABCD";
    assert PySlice(stem, 0, |stem|) == "ABCDE";
  }

  /**
   * The parsing with the evidently intended guard: a stem longer than four
   * characters must hold a `-` between code and version.
   */
  function ParseAirportName(svgPath: string): (r: Result<AirportName, NameError>)
    ensures r.Ok? ==> |r.value.airportId| == 4
    ensures r.Ok? && r.value.version.None? ==> Stem(svgPath) == r.value.airportId
    ensures r.Ok? && r.value.version.Some? ==>
              Stem(svgPath) == r.value.airportId + "-" + r.value.version.value
    ensures r.Ok? ==> r.value.version != Some(r.value.airportId)
  {
    var stem := Stem(svgPath);
    if |stem| > 4 && LastIndexOf(stem, "-") < 0 then Err(NoVersionSeparator(stem))
    else
      var (code, version) :=
        if |stem| > 4 then
          var dash := LastIndexOf(stem, "-");
          assert stem[dash] == '-' by { assert OccursAt(stem, "-", dash); }
          assert stem == stem[..dash] + "-" + stem[dash + 1..];
          (stem[..dash], Some(stem[dash + 1..]))
        else (stem, None);
      Checked(code, version)
  }

  /** The corrected parser agrees with the source wherever the stem has a `-` or at most four characters. */
  lemma {:induction false} CorrectedAgreesWithSource(svgPath: string)
    requires var stem := Stem(svgPath); |stem| <= 4 || LastIndexOf(stem, "-") >= 0
    ensures ParseAirportName(svgPath) == ParseAirportNameAsWritten(svgPath)
  {
    var stem := Stem(svgPath);
    if |stem| > 4 {
      var dash := LastIndexOf(stem, "-");
      assert PySlice(stem, 0, dash) == stem[..dash];
      assert 0 <= dash < |stem|;
      assert stem[dash + 1..] == stem[dash + 1..|stem|];
      assert PySlice(stem, dash + 1, |stem|) == stem[dash + 1..];
      assert ParseAirportNameAsWritten(svgPath) == Checked(stem[..dash], Some(stem[dash + 1..]));
    } else {
      assert ParseAirportNameAsWritten(svgPath) == Checked(stem, None);
    }
  }

  /** The corrected parser refuses the five-character stem without separator. */
  lemma FiveCharacterStemRefused()
    ensures ParseAirportName("ABCDE.svg").Err?
  {
    var p := "ABCDE.svg";
    assert ReplaceChar(p, '\\', '/') == p;
    AbsentChar(p, '/');
    assert OccursAt(p, ".svg", 5);
    assert LastIndexOf(p, ".svg") == 5;
    assert Stem(p) == "ABCDE";
    AbsentChar("ABCDE", '-');
  }

  /** A character absent from `s` does not occur in it. */
  lemma AbsentChar(s: string, c: char)
    requires c !in s
    ensures LastIndexOf(s, [c]) == -1
  {
    forall j | 0 <= j < |s| ensures !OccursAt(s, [c], j) {
      assert s[j..j + 1] == [s[j]];
    }
  }

  /** The last `c` of `a + [c] + b` is the one after `a` when `b` holds none. */
  lemma LastCharAfterPrefix(a: string, c: char, b: string)
    requires c !in b
    ensures LastIndexOf(a + [c] + b, [c]) == |a|
  {
    var s := a + [c] + b;
    assert s[|a|..|a| + 1] == [c];
    assert OccursAt(s, [c], |a|);
    forall j | |a| < j < |s| ensures !OccursAt(s, [c], j) {
      assert s[j..j + 1] == [s[j]];
      assert s[j] == b[j - |a| - 1];
    }
  }

  /** No `/` (and no `\`) in `s`. */
  predicate NoSlash(s: string)
  {
    '/' !in s && '\\' !in s
  }

  /** The stem of `<dir>/<name>.svg` is `<name>` whenever the name holds no slash. */
  lemma {:induction false} StemOfPath(dir: string, name: string)
    requires NoSlash(name)
    ensures Stem(dir + "/" + name + ".svg") == name
  {
    var path := dir + "/" + name + ".svg";
    var p := ReplaceChar(path, '\\', '/');
    var d := |dir|;
    var rest := name + ".svg";
    assert p == ReplaceChar(dir, '\\', '/') + "/" + rest;
    assert '/' !in rest by {
      forall i | 0 <= i < |rest| ensures rest[i] != '/' {
        if i < |name| { assert rest[i] == name[i]; } else { assert rest[i] == ".svg"[i - |name|]; }
      }
    }
    LastCharAfterPrefix(ReplaceChar(dir, '\\', '/'), '/', rest);
    assert LastIndexOf(p, "/") == d;
    assert OccursAt(p, ".svg", |p| - 4);
    assert LastIndexOf(p, ".svg") == |p| - 4;
    assert p[d + 1..|p| - 4] == name;
  }

  /** `<dir>/<code>.svg` parses to the code without version. */
  lemma {:induction false} ParseUnversioned(dir: string, code: string)
    requires |code| == 4 && NoSlash(code)
    ensures ParseAirportName(dir + "/" + code + ".svg") == Ok(AirportName(code, None))
    ensures ParseAirportNameAsWritten(dir + "/" + code + ".svg") == Ok(AirportName(code, None))
  {
    StemOfPath(dir, code);
  }

  /** `<code>-<version>` holds no slash when neither part does. */
  lemma VersionedNameNoSlash(code: string, version: string)
    requires NoSlash(code) && NoSlash(version)
    ensures NoSlash(code + "-" + version)
  {
    var name := code + "-" + version;
    forall i | 0 <= i < |name| ensures name[i] != '/' && name[i] != '\\' {
      if i < |code| { assert name[i] == code[i]; }
      else if i > |code| { assert name[i] == version[i - |code| - 1]; }
    }
  }

  /** `<dir>/<code>-<version>.svg` parses back to code and version. */
  lemma {:induction false} ParseVersioned(dir: string, code: string, version: string)
    requires |code| == 4 && NoSlash(code) && NoSlash(version)
    requires '-' !in version && code != version
    ensures ParseAirportName(dir + "/" + code + "-" + version + ".svg") == Ok(AirportName(code, Some(version)))
    ensures ParseAirportNameAsWritten(dir + "/" + code + "-" + version + ".svg") == Ok(AirportName(code, Some(version)))
  {
    var name := code + "-" + version;
    VersionedNameNoSlash(code, version);
    assert dir + "/" + code + "-" + version + ".svg" == dir + "/" + name + ".svg";
    StemOfPath(dir, name);
    LastCharAfterPrefix(code, '-', version);
    assert LastIndexOf(name, "-") == 4;
    assert name[..4] == code;
    assert name[5..] == version;
    CorrectedAgreesWithSource(dir + "/" + name + ".svg");
  }
}
