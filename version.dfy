/** `chromogenic/version.py`: the requirements reader used by the package set-up
    and the version strings. */
module Version {
  import opened Outcomes
  import opened Text

  const GitMarker := "git+git"
  const EggMarker := "#egg="

  /** What one line of the requirements file contributes. Empty lines nothing;
      in git mode the git links themselves; otherwise plain requirements, and for
      a git link the egg name after "#egg=" (nothing without one, a ValueError
      when the unpacking finds more than one). */
  function LineDeps(line: string, git: bool): Outcome<seq<string>> {
    if line == "" then Ok([])
    else if Contains(line, GitMarker) then
      if git then Ok([line])
      else
        var parts := SplitStr(line, EggMarker);
        if |parts| == 1 then Ok([])
        else if |parts| == 2 then Ok([parts[1]])
        else Raised("ValueError: too many values to unpack")
    else if git then Ok([])
    else Ok([line])
  }

  /** The dependencies of the lines in order; the first raise ends the loop. */
  function Requirements(lines: seq<string>, git: bool): Outcome<seq<string>> {
    if lines == [] then Ok([])
    else
      var prev := Requirements(lines[..|lines| - 1], git);
      var d := LineDeps(lines[|lines| - 1], git);
      if prev.Raised? then prev
      else if d.Raised? then d
      else Ok(prev.value + d.value)
  }

  /** Once a prefix raises, the whole list raises the same way. */
  lemma {:induction false} RaiseEndsLoop(lines: seq<string>, i: nat, git: bool)
    requires i <= |lines| && Requirements(lines[..i], git).Raised?
    ensures Requirements(lines, git) == Requirements(lines[..i], git)
    decreases |lines| - i
  {
    if i < |lines| {
      assert lines[..|lines| - 1][..i] == lines[..i];
      RaiseEndsLoop(lines[..|lines| - 1], i, git);
    } else {
      assert lines[..i] == lines;
    }
  }

  /** `read_requirements(requirements_file, git)` over the file's text. */
  method ReadRequirements(text: string, git: bool) returns (r: Outcome<seq<string>>)
    ensures r == Requirements(SplitStr(text, "\n"), git)
  {
    var lines := SplitStr(text, "\n");
    var deps := [];
    for i := 0 to |lines|
      invariant Requirements(lines[..i], git) == Ok(deps)
    {
      var line := lines[i];
      assert lines[..i + 1][..i] == lines[..i];
      assert lines[..i + 1][i] == line;
      if line == "" {
        assert deps + [] == deps;
        continue;
      }
      if Contains(line, GitMarker) {
        if git {
          deps := deps + [line];
        } else {
          var depSplit := SplitStr(line, EggMarker);
          if |depSplit| > 1 {
            if |depSplit| != 2 {
              assert Requirements(lines[..i + 1], git).Raised?;
              RaiseEndsLoop(lines, i + 1, git);
              return Raised("ValueError: too many values to unpack");
            }
            var egg := depSplit[1];
            deps := deps + [egg];
          } else {
            assert deps + [] == deps;
          }
        }
      } else if !git {
        deps := deps + [line];
      } else {
        assert deps + [] == deps;
      }
    }
    assert lines[..|lines|] == lines;
    return Ok(deps);
  }

  /** The lines that name a git link, in order. */
  function GitLines(lines: seq<string>): seq<string> {
    if lines == [] then []
    else GitLines(lines[..|lines| - 1]) + (if Contains(lines[|lines| - 1], GitMarker) then [lines[|lines| - 1]] else [])
  }

  /** The non-empty lines, in order. */
  function NonEmptyLines(lines: seq<string>): seq<string> {
    if lines == [] then []
    else NonEmptyLines(lines[..|lines| - 1]) + (if lines[|lines| - 1] != "" then [lines[|lines| - 1]] else [])
  }

  /** Git mode never raises and yields exactly the git-link lines, verbatim and
      in order. */
  lemma {:induction false} GitModeLines(lines: seq<string>)
    ensures Requirements(lines, true) == Ok(GitLines(lines))
    decreases |lines|
  {
    if lines != [] {
      GitModeLines(lines[..|lines| - 1]);
      var last := lines[|lines| - 1];
      if last == "" {
        assert !OccursAt(last, GitMarker, 0);
      }
    }
  }

  /** Without git links, the plain mode keeps every non-empty line verbatim and in
      order. */
  lemma {:induction false} PlainModeLines(lines: seq<string>)
    requires forall k :: 0 <= k < |lines| ==> !Contains(lines[k], GitMarker)
    ensures Requirements(lines, false) == Ok(NonEmptyLines(lines))
    decreases |lines|
  {
    if lines != [] {
      PlainModeLines(lines[..|lines| - 1]);
    }
  }

  /** A git link `url#egg=name` contributes just the egg name in plain mode. */
  lemma EggName(url: string, egg: string)
    requires Contains(url, GitMarker) && !Contains(url, EggMarker) && !Contains(egg, EggMarker)
    ensures LineDeps(url + EggMarker + egg, false) == Ok([egg])
    ensures LineDeps(url + EggMarker + egg, true) == Ok([url + EggMarker + egg])
  {
    var line := url + EggMarker + egg;
    var i :| 0 <= i <= |url| - |GitMarker| && OccursAt(url, GitMarker, i);
    assert line[i..i + |GitMarker|] == url[i..i + |GitMarker|];
    assert OccursAt(line, GitMarker, i);
    assert forall k :: 1 <= k < |EggMarker| ==> EggMarker[k] != EggMarker[0];
    SplitOnce(url, EggMarker, egg);
    SplitAbsent(egg, EggMarker);
  }

  /** VERSION = (major, minor, tertiary, type, type_num). */
  datatype VersionInfo = VersionInfo(major: nat, minor: nat, tertiary: nat, kind: string, kindNum: nat)

  const VERSION := VersionInfo(0, 0, 1, "dev", 0)

  /** "major.minor", with ".tertiary" when tertiary is not zero. */
  function ShortVersion(v: VersionInfo): string {
    NatToString(v.major) + "." + NatToString(v.minor) + (if v.tertiary != 0 then "." + NatToString(v.tertiary) else "")
  }

  /** The short form, then the type and its number, separated by spaces. */
  function NormalVersion(v: VersionInfo): string {
    ShortVersion(v) + " " + v.kind + " " + NatToString(v.kindNum)
  }

  /** A digit string holds no '.'. */
  lemma NumberLacksDot(n: nat)
    ensures !Contains(NatToString(n), ".")
  {
    NatToStringRoundTrip(n);
    var s := NatToString(n);
    assert forall i :: 0 <= i < |s| ==> s[i] != '.';
    CharAbsent(s, '.');
  }

  /** The decimal numbers the short form is made of. */
  function VersionPieces(v: VersionInfo): seq<string> {
    [NatToString(v.major), NatToString(v.minor)] + (if v.tertiary != 0 then [NatToString(v.tertiary)] else [])
  }

  /** The short form is its pieces joined by '.'. */
  lemma ShortVersionIsJoin(v: VersionInfo)
    ensures ShortVersion(v) == Join(".", VersionPieces(v))
  {
    var a, b, c := NatToString(v.major), NatToString(v.minor), NatToString(v.tertiary);
    JoinCons(".", a, [b]);
    if v.tertiary != 0 {
      JoinCons(".", b, [c]);
      JoinCons(".", a, [b, c]);
      assert Join(".", VersionPieces(v)) == a + "." + b + "." + c;
    } else {
      assert Join(".", VersionPieces(v)) == a + "." + b;
    }
  }

  /** The short form parses back: split at '.', its pieces are the decimal
      numbers of the version, the tertiary one only when it is not zero. */
  lemma ShortVersionParses(v: VersionInfo)
    ensures var pieces := SplitStr(ShortVersion(v), ".");
      pieces == [NatToString(v.major), NatToString(v.minor)] + (if v.tertiary != 0 then [NatToString(v.tertiary)] else []) &&
      (forall k :: 0 <= k < |pieces| ==> IsDigits(pieces[k])) &&
      DigitsValue(pieces[0]) == v.major && DigitsValue(pieces[1]) == v.minor &&
      (v.tertiary != 0 ==> DigitsValue(pieces[2]) == v.tertiary)
  {
    var pieces := VersionPieces(v);
    NumberLacksDot(v.major);
    NumberLacksDot(v.minor);
    NumberLacksDot(v.tertiary);
    NatToStringRoundTrip(v.major);
    NatToStringRoundTrip(v.minor);
    NatToStringRoundTrip(v.tertiary);
    ShortVersionIsJoin(v);
    SplitJoinChar(pieces, '.');
  }

  /** What `get_version` returns: a version string, the dictionary of all
      forms, or None for an unknown form. */
  datatype VersionResult = VersionText(text: string) | AllVersions(versions: map<string, string>) | NoVersion

  /** `get_version(form)` with the output of `git_sha()` as `sha` (None when the
      `git` call failed). The verbose form and every form after it concatenate
      the sha, which raises for None. */
  method GetVersion(v: VersionInfo, form: string, sha: Option<string>) returns (r: Outcome<VersionResult>)
    ensures form == "short" ==> r == Ok(VersionText(ShortVersion(v)))
    ensures form == "normal" ==> r == Ok(VersionText(NormalVersion(v)))
    ensures form != "short" && form != "normal" && sha.None? ==> r.Raised?
    ensures form == "verbose" && sha.Some? ==> r == Ok(VersionText(NormalVersion(v) + " @" + sha.value))
    ensures form == "all" && sha.Some? ==> (r.Ok? && r.value.AllVersions? &&
      r.value.versions.Keys == {"branch", "short", "normal", "verbose"} + (if v.tertiary != 0 then {"tertiary"} else {}) &&
      r.value.versions["branch"] == NatToString(v.major) + "." + NatToString(v.minor) &&
      (v.tertiary != 0 ==> r.value.versions["tertiary"] == "." + NatToString(v.tertiary)) &&
      r.value.versions["short"] == ShortVersion(v) && r.value.versions["normal"] == NormalVersion(v) &&
      r.value.versions["verbose"] == NormalVersion(v) + " @" + sha.value)
    ensures form !in {"short", "normal", "verbose", "all"} && sha.Some? ==> r == Ok(NoVersion)
  {
    var versions: map<string, string> := map[];
    var branch := NatToString(v.major) + "." + NatToString(v.minor);
    versions := versions["branch" := branch];
    var s := versions["branch"];
    if v.tertiary != 0 {
      versions := versions["tertiary" := "." + NatToString(v.tertiary)];
      s := s + versions["tertiary"];
    } else {
      assert s + "" == s;
    }
    assert s == ShortVersion(v);
    versions := versions["short" := s];
    if form == "short" {
      return Ok(VersionText(s));
    }
    s := s + " " + v.kind + " " + NatToString(v.kindNum);
    assert s == NormalVersion(v);
    versions := versions["normal" := s];
    if form == "normal" {
      return Ok(VersionText(s));
    }
    if sha.None? {
      return Raised("TypeError: cannot concatenate 'str' and 'NoneType' objects");
    }
    s := s + " @" + sha.value;
    versions := versions["verbose" := s];
    if form == "verbose" {
      return Ok(VersionText(s));
    }
    if form == "all" {
      return Ok(AllVersions(versions));
    }
    return Ok(NoVersion);
  }
}
