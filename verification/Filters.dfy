/** Selecting tests by name: framework/ldtest/filter.go. */
module Filters {
  import opened Text
  import opened TestResults

  /** Go's regexp engine, of which nothing is assumed. A compiled expression is known by its source text. */
  datatype Engine = Engine(compiles: string -> bool, matches: (string, string) -> bool)

  type TestIDPattern = seq<string>

  datatype RegexFilters = RegexFilters(mustMatch: seq<TestIDPattern>, mustNotMatch: seq<TestIDPattern>)

  // ---- What matching means ----

  predicate Matches(e: Engine, p: TestIDPattern, id: TestID, includeParents: bool) {
    && (|p| <= |id| || includeParents)
    && forall i | 0 <= i < |p| && i < |id| :: e.matches(p[i], id[i])
  }

  predicate MatchesAny(e: Engine, l: seq<TestIDPattern>, id: TestID, includeParents: bool) {
    exists k | 0 <= k < |l| :: Matches(e, l[k], id, includeParents)
  }

  predicate Selects(e: Engine, f: RegexFilters, id: TestID) {
    && (f.mustMatch == [] || MatchesAny(e, f.mustMatch, id, true))
    && !MatchesAny(e, f.mustNotMatch, id, false)
  }

  /** The pattern agrees with the id as far as both go. */
  predicate Agrees(e: Engine, p: TestIDPattern, id: TestID) {
    forall i | 0 <= i < |p| && i < |id| :: e.matches(p[i], id[i])
  }

  /** A test is selected if and only if, when there are patterns to run, one of them agrees with the id as far as both
      go, and no pattern to skip that is no longer than the id does. */
  lemma SelectsIff(e: Engine, f: RegexFilters, id: TestID)
    ensures Selects(e, f, id) <==>
      && (f.mustMatch == [] || exists p | p in f.mustMatch :: Agrees(e, p, id))
      && forall p | p in f.mustNotMatch && |p| <= |id| :: !Agrees(e, p, id)
  {
    if exists p | p in f.mustMatch :: Agrees(e, p, id) {
      var p :| p in f.mustMatch && Agrees(e, p, id);
      var k :| 0 <= k < |f.mustMatch| && f.mustMatch[k] == p;
      assert Matches(e, f.mustMatch[k], id, true);
    }
    if MatchesAny(e, f.mustMatch, id, true) {
      var k :| 0 <= k < |f.mustMatch| && Matches(e, f.mustMatch[k], id, true);
      assert Agrees(e, f.mustMatch[k], id);
    }
    forall p | p in f.mustNotMatch && |p| <= |id|
      ensures Agrees(e, p, id) ==> MatchesAny(e, f.mustNotMatch, id, false)
    {
      var k :| 0 <= k < |f.mustNotMatch| && f.mustNotMatch[k] == p;
      assert Agrees(e, p, id) ==> Matches(e, f.mustNotMatch[k], id, false);
    }
    if MatchesAny(e, f.mustNotMatch, id, false) {
      var k :| 0 <= k < |f.mustNotMatch| && Matches(e, f.mustNotMatch[k], id, false);
      assert Agrees(e, f.mustNotMatch[k], id);
    }
  }

  method Match(e: Engine, p: TestIDPattern, id: TestID, includeParents: bool) returns (r: bool)
    ensures r == Matches(e, p, id, includeParents)
    ensures r <==> (|p| <= |id| || includeParents) && forall i | 0 <= i < |p| && i < |id| :: e.matches(p[i], id[i])
  {
    var min := |p|;
    if min > |id| {
      if !includeParents {
        return false;
      }
      min := |id|;
    }
    for i := 0 to min
      invariant forall j | 0 <= j < i :: e.matches(p[j], id[j])
    {
      if !e.matches(p[i], id[i]) {
        return false;
      }
    }
    return true;
  }

  method AnyMatch(e: Engine, l: seq<TestIDPattern>, id: TestID, includeParents: bool) returns (r: bool)
    ensures r == MatchesAny(e, l, id, includeParents)
  {
    for k := 0 to |l|
      invariant forall j | 0 <= j < k :: !Matches(e, l[j], id, includeParents)
    {
      var m := Match(e, l[k], id, includeParents);
      if m {
        return true;
      }
    }
    return false;
  }

  method FilterMatch(e: Engine, f: RegexFilters, id: TestID) returns (r: bool)
    ensures r == Selects(e, f, id)
    ensures r <==>
      && (f.mustMatch == [] || exists p | p in f.mustMatch :: Agrees(e, p, id))
      && forall p | p in f.mustNotMatch && |p| <= |id| :: !Agrees(e, p, id)
  {
    SelectsIff(e, f, id);
    var isDefined := |f.mustMatch| != 0;
    if isDefined {
      var must := AnyMatch(e, f.mustMatch, id, true);
      if !must {
        return false;
      }
    }
    var mustNot := AnyMatch(e, f.mustNotMatch, id, false);
    return !mustNot;
  }

  // ---- Ancestors and descendants ----

  /** A filter that keeps the ancestors of every test it keeps. */
  ghost predicate AncestorClosed(keep: TestID -> bool) {
    forall id, k | keep(id) && 0 <= k <= |id| :: keep(id[..k])
  }

  /** The filter as the test runner sees it. */
  function Filter(e: Engine, f: RegexFilters): TestID -> bool {
    id => Selects(e, f, id)
  }

  /** Whatever the expressions are: a test that is selected has all its ancestors selected. */
  lemma SelectedAncestors(e: Engine, f: RegexFilters, id: TestID, k: nat)
    requires k <= |id| && Selects(e, f, id)
    ensures Selects(e, f, id[..k])
  {
    if f.mustMatch != [] {
      var m :| 0 <= m < |f.mustMatch| && Matches(e, f.mustMatch[m], id, true);
      assert Matches(e, f.mustMatch[m], id[..k], true);
    }
    forall m | 0 <= m < |f.mustNotMatch| ensures !Matches(e, f.mustNotMatch[m], id[..k], false) {
      assert !Matches(e, f.mustNotMatch[m], id, false);
      if |f.mustNotMatch[m]| <= k {
        SubtestsFollow(e, f.mustNotMatch[m], id[..k], id[k..], false);
        assert id[..k] + id[k..] == id;
      }
    }
  }

  lemma FilterAncestorClosed(e: Engine, f: RegexFilters)
    ensures AncestorClosed(Filter(e, f))
  {
    forall id, k | Filter(e, f)(id) && 0 <= k <= |id| ensures Filter(e, f)(id[..k]) {
      SelectedAncestors(e, f, id, k);
    }
  }

  /** A pattern that is no longer than a test's id decides for the test and its subtests alike: `--run` with the
      name of a test also runs its subtests, and `--skip` also skips them. */
  lemma SubtestsFollow(e: Engine, p: TestIDPattern, id: TestID, sub: TestID, includeParents: bool)
    requires |p| <= |id|
    ensures Matches(e, p, id, includeParents) <==> Matches(e, p, id + sub, includeParents)
  {
    assert forall i | 0 <= i < |p| :: (id + sub)[i] == id[i];
  }

  /** The root of the test tree is selected if and only if no pattern to skip is empty. */
  lemma RootSelectedIff(e: Engine, f: RegexFilters)
    ensures Selects(e, f, []) <==> [] !in f.mustNotMatch
  {
    if f.mustMatch != [] {
      assert Matches(e, f.mustMatch[0], [], true);
    }
    if [] in f.mustNotMatch {
      var k :| 0 <= k < |f.mustNotMatch| && f.mustNotMatch[k] == [];
      assert Matches(e, f.mustNotMatch[k], [], false);
    }
  }

  // ---- Pattern texts ----

  /** Parsing: one expression for each slash-separated part, if they all compile. */
  function Parsed(e: Engine, s: string): Option<TestIDPattern> {
    var parts := Split(s, '/');
    if forall i | 0 <= i < |parts| :: e.compiles(parts[i]) then Some(parts) else None
  }

  function PatternString(p: TestIDPattern): string {
    Join(p, '/')
  }

  method ParseTestIDPattern(e: Engine, s: string) returns (r: Option<TestIDPattern>)
    ensures r == Parsed(e, s)
  {
    var parts := Split(s, '/');
    var ret: seq<string> := [];
    for i := 0 to |parts|
      invariant ret == parts[..i]
      invariant forall j | 0 <= j < i :: e.compiles(parts[j])
    {
      if !e.compiles(parts[i]) {
        return None;
      }
      ret := ret + [parts[i]];
    }
    assert ret == parts;
    return Some(ret);
  }

  /** Printing a pattern that was parsed gives back the text it was parsed from. */
  lemma PrintParsed(e: Engine, s: string)
    requires Parsed(e, s).Some?
    ensures PatternString(Parsed(e, s).value) == s
    ensures Parsed(e, s).value != []
  {
    JoinSplit(s, '/');
  }

  /** Parsing what a pattern prints gives the pattern back if and only if it has components, they compile, and
      none contains a slash. */
  lemma ParsePrintedIff(e: Engine, p: TestIDPattern)
    ensures Parsed(e, PatternString(p)) == Some(p) <==>
      p != [] && FreeOf(p, '/') && forall i | 0 <= i < |p| :: e.compiles(p[i])
  {
    SplitFreeOf(PatternString(p), '/');
    if p != [] && FreeOf(p, '/') {
      SplitJoin(p, '/');
    }
  }

  // ---- The documented reading ----

  /** The rule that is documented: the pattern, as one expression, is matched against the full path of the test. */
  predicate FullPathMatches(e: Engine, p: TestIDPattern, id: TestID) {
    e.matches(PatternString(p), IDString(id))
  }

  predicate ReadingsAgree(e: Engine, p: TestIDPattern, id: TestID, includeParents: bool) {
    Matches(e, p, id, includeParents) <==> FullPathMatches(e, p, id)
  }

  lemma JoinIsLonger(parts: seq<string>)
    requires |parts| > 1
    ensures |Join(parts, '/')| > |parts[0]|
  {
  }

  /** Whatever engine is used, matching by components is matching of the full path: this is so if and only if the
      pattern has one component and the test is not a subtest. For others it depends on the engine. */
  lemma ReadingsAgreeIff(p: TestIDPattern, id: TestID, includeParents: bool)
    ensures (forall e: Engine :: ReadingsAgree(e, p, id, includeParents)) <==> |p| == 1 && |id| == 1
  {
    hide Join;
    var all := Engine(s => true, (r, s) => true);
    var none := Engine(s => true, (r, s) => false);
    var exact := Engine(s => true, (r, s) => r == PatternString(p) && s == IDString(id));
    if |p| == 1 && |id| == 1 {
      JoinOne(p);
      JoinOne(id);
    } else if p == [] || id == [] {
      assert !ReadingsAgree(none, p, id, includeParents) || !ReadingsAgree(all, p, id, includeParents);
    } else {
      if |p| > 1 {
        JoinIsLonger(p);
      }
      if |id| > 1 {
        JoinIsLonger(id);
      }
      assert !exact.matches(p[0], id[0]);
      assert !ReadingsAgree(exact, p, id, includeParents);
    }
  }

  lemma JoinOne(parts: seq<string>)
    requires |parts| == 1
    ensures Join(parts, '/') == parts[0]
  {
  }

  /** The engine for expressions without special characters: it looks for the text of the expression. */
  const LITERAL := Engine(s => true, (r, s) => Contains(s, r))

  /** Neither reading implies the other: `--run x` leaves out the subtest x of a, whose full path matches, and
      `--run a/b` runs the subtest b of ax, whose full path does not. */
  lemma ReadingsDiffer(includeParents: bool)
    ensures !Matches(LITERAL, ["x"], ["a", "x"], includeParents) && FullPathMatches(LITERAL, ["x"], ["a", "x"])
    ensures Matches(LITERAL, ["a", "b"], ["ax", "b"], includeParents)
    ensures !FullPathMatches(LITERAL, ["a", "b"], ["ax", "b"])
  {
    assert ["a", "x"][1..] == ["x"] && ["a", "b"][1..] == ["b"] && ["ax", "b"][1..] == ["b"];
    assert IDString(["a", "x"]) == "a/x" && PatternString(["a", "b"]) == "a/b" && IDString(["ax", "b"]) == "ax/b";
    assert OccursAt("a/x", "x", 2) && OccursAt("ax", "a", 0) && OccursAt("b", "b", 0);
    forall i | 0 <= i <= 4 ensures !OccursAt("ax/b", "a/b", i) {
      assert i <= 1 ==> "ax/b"[i..i + 3][1 - i] == "ax/b"[1] != "a/b"[1 - i];
    }
    assert "a"[0..1][0] != "x"[0];
  }

  /** `TestIDPatternList` as the command line parser fills it. */
  class PatternListFlag {
    var patterns: seq<TestIDPattern>

    constructor ()
      ensures patterns == []
    {
      patterns := [];
    }

    method Set(e: Engine, value: string) returns (ok: bool)
      modifies this
      ensures ok <==> Parsed(e, value).Some?
      ensures patterns == old(patterns) + if ok then [Parsed(e, value).value] else []
      ensures [] !in old(patterns) ==> [] !in patterns
    {
      var p := ParseTestIDPattern(e, value);
      if p.None? {
        return false;
      }
      patterns := patterns + [p.value];
      return true;
    }
  }
}
