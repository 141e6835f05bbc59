/** Running only some of the tests. A filter prunes the test tree as it is walked; the result should be what
    an unfiltered run reports about the tests that the filter selects. */
module Pruning {
  import opened Text
  import opened TestResults
  import opened TestScope
  import Filters

  function Unfiltered(capabilities: seq<string>): Config {
    Config(None, capabilities)
  }

  function FilteredBy(keep: TestID -> bool, capabilities: seq<string>): Config {
    Config(Some(keep), capabilities)
  }

  /** The filtered run reports exactly what the unfiltered run reports about the selected tests. */
  ghost predicate Exact(keep: TestID -> bool, capabilities: seq<string>, b: Body) {
    Tests(FilteredBy(keep, capabilities), [], b) == Restrict(Tests(Unfiltered(capabilities), [], b), keep)
  }

  // ---- If the filter is closed under taking ancestors ----

  predicate AllBelow(id: TestID, rs: seq<TestResult>) {
    forall i | 0 <= i < |rs| :: id <= rs[i].id
  }

  lemma {:induction false} ResultsBelow(cfg: Config, id: TestID, b: Body)
    ensures AllBelow(id, SubtestResults(cfg, id, b)) && AllBelow(id, Tests(cfg, id, b))
    decreases b, 0
  {
    match b
    case End =>
    case Then(c, rest) =>
      ResultsBelow(cfg, id, rest);
      CommandResultsBelow(cfg, id, c);
  }

  lemma {:induction false} CommandResultsBelow(cfg: Config, id: TestID, c: Command)
    ensures AllBelow(id, CommandResults(cfg, id, c))
    decreases c, 0
  {
    if c.Run? || c.RunIfCapable? {
      var sub := Plus(id, c.name);
      ResultsBelow(cfg, sub, c.body);
      assert id <= sub;
      assert forall i | 0 <= i < |Tests(cfg, sub, c.body)| :: sub <= Tests(cfg, sub, c.body)[i].id;
    }
  }

  /** A subtest that is pruned would have contributed nothing that is selected. */
  lemma PrunedIsEmpty(cfg: Config, keep: TestID -> bool, id: TestID, b: Body)
    requires Filters.AncestorClosed(keep) && !keep(id)
    ensures Restrict(Tests(cfg, id, b), keep) == []
  {
    var rs := Tests(cfg, id, b);
    ResultsBelow(cfg, id, b);
    forall i | 0 <= i < |rs| ensures !keep(rs[i].id) {
      assert id <= rs[i].id;
      assert rs[i].id[..|id|] == id;
    }
    RestrictNone(rs, keep);
  }

  lemma {:induction false} ScopePrunes(keep: TestID -> bool, capabilities: seq<string>, id: TestID, b: Body)
    requires Filters.AncestorClosed(keep) && keep(id)
    ensures Tests(FilteredBy(keep, capabilities), id, b) == Restrict(Tests(Unfiltered(capabilities), id, b), keep)
    decreases b, 1
  {
    BodyPrunes(keep, capabilities, id, b);
    if !EndingOf(capabilities, b).SkippedBecause? {
      var own := [TestResult(id, Errors(capabilities, b))];
      RestrictConcat(SubtestResults(Unfiltered(capabilities), id, b), own, keep);
      assert own[1..] == [];
    }
  }

  lemma {:induction false} BodyPrunes(keep: TestID -> bool, capabilities: seq<string>, id: TestID, b: Body)
    requires Filters.AncestorClosed(keep)
    ensures SubtestResults(FilteredBy(keep, capabilities), id, b)
      == Restrict(SubtestResults(Unfiltered(capabilities), id, b), keep)
    decreases b, 0
  {
    match b
    case End =>
    case Then(c, rest) =>
      CommandPrunes(keep, capabilities, id, c);
      BodyPrunes(keep, capabilities, id, rest);
      var all := Unfiltered(capabilities);
      RestrictConcat(CommandResults(all, id, c), SubtestResults(all, id, rest), keep);
  }

  lemma {:induction false} CommandPrunes(keep: TestID -> bool, capabilities: seq<string>, id: TestID, c: Command)
    requires Filters.AncestorClosed(keep)
    ensures CommandResults(FilteredBy(keep, capabilities), id, c)
      == Restrict(CommandResults(Unfiltered(capabilities), id, c), keep)
    decreases c, 0
  {
    if c.Run? || c.RunIfCapable? {
      var sub := Plus(id, c.name);
      if keep(sub) {
        ScopePrunes(keep, capabilities, sub, c.body);
      } else {
        PrunedIsEmpty(Unfiltered(capabilities), keep, sub, c.body);
      }
    }
  }

  // ---- Only if ----

  /** The tree that consists of the ancestors of one test and the test itself. */
  function Chain(id: TestID): Body {
    if id == [] then End else Then(Command.Run(id[0], Chain(id[1..])), End)
  }

  /** What a run of a chain reports: the test, then each of its ancestors, up to the starting point. */
  lemma {:induction false} ChainReports(cfg: Config, start: TestID, path: TestID)
    requires cfg.filter.None?
    ensures |Tests(cfg, start, Chain(path))| > 0 && Tests(cfg, start, Chain(path))[0].id == start + path
    decreases |path|
  {
    if path == [] {
      assert start + path == start;
      assert Errors(cfg.capabilities, End) == [];
      assert Tests(cfg, start, End) == [TestResult(start, [])];
    } else {
      var sub := Plus(start, path[0]);
      ChainReports(cfg, sub, path[1..]);
      assert sub + path[1..] == start + path;
      var c := Command.Run(path[0], Chain(path[1..]));
      assert CommandResults(cfg, start, c) == Tests(cfg, sub, Chain(path[1..]));
      assert SubtestResults(cfg, start, Then(c, End)) == CommandResults(cfg, start, c);
    }
  }

  /** Everything a filtered run reports below its starting point has been let through on the way. */
  lemma {:induction false} ReportedWasAllowed(cfg: Config, id: TestID, b: Body, r: TestResult, k: nat)
    requires cfg.filter.Some? && r in Tests(cfg, id, b)
    requires |id| < k <= |r.id|
    ensures cfg.filter.value(r.id[..k])
    decreases b, 1
  {
    assert r != TestResult(id, Errors(cfg.capabilities, b));
    SubtestWasAllowed(cfg, id, b, r, k);
  }

  lemma {:induction false} SubtestWasAllowed(cfg: Config, id: TestID, b: Body, r: TestResult, k: nat)
    requires cfg.filter.Some? && r in SubtestResults(cfg, id, b)
    requires |id| < k <= |r.id|
    ensures cfg.filter.value(r.id[..k])
    decreases b, 0
  {
    var c, rest := b.first, b.rest;
    if r in CommandResults(cfg, id, c) {
      var sub := Plus(id, c.name);
      if k > |sub| {
        ReportedWasAllowed(cfg, sub, c.body, r, k);
      } else {
        ResultsBelow(cfg, sub, c.body);
        assert r.id[..k] == sub;
      }
    } else {
      SubtestWasAllowed(cfg, id, rest, r, k);
    }
  }

  /** Filtering is exact on every test tree, with whatever failures, skips and panics, if and only if the filter
      selects the root and is closed under taking ancestors. */
  lemma PruningIsExactIff(keep: TestID -> bool)
    ensures (forall capabilities, b :: Exact(keep, capabilities, b)) <==> keep([]) && Filters.AncestorClosed(keep)
  {
    if keep([]) && Filters.AncestorClosed(keep) {
      forall capabilities, b ensures Exact(keep, capabilities, b) {
        ScopePrunes(keep, capabilities, [], b);
      }
    }
    if forall capabilities, b :: Exact(keep, capabilities, b) {
      assert keep([]) by {
        ExactSelectsRoot(keep);
      }
      forall id, k | keep(id) && 0 <= k <= |id| ensures keep(id[..k]) {
        if k > 0 {
          ExactSelectsAncestor(keep, id, k);
        } else {
          assert id[..k] == [];
        }
      }
    }
  }

  lemma ExactSelectsRoot(keep: TestID -> bool)
    requires Exact(keep, [], End)
    ensures keep([])
  {
    assert Errors([], End) == [];
    assert Tests(FilteredBy(keep, []), [], End) == [] + [TestResult([], [])];
    assert TestResult([], []) in Tests(FilteredBy(keep, []), [], End);
    RestrictMember(Tests(Unfiltered([]), [], End), keep, TestResult([], []));
  }

  lemma ExactSelectsAncestor(keep: TestID -> bool, id: TestID, k: nat)
    requires Exact(keep, [], Chain(id)) && keep(id) && 0 < k <= |id|
    ensures keep(id[..k])
  {
    hide Tests, Chain, Exact;
    ChainReports(Unfiltered([]), [], id);
    assert [] + id == id;
    ReportedAncestor(keep, Chain(id), Tests(Unfiltered([]), [], Chain(id))[0], k);
  }

  lemma ReportedAncestor(keep: TestID -> bool, b: Body, r: TestResult, k: nat)
    requires Exact(keep, [], b) && r in Tests(Unfiltered([]), [], b) && keep(r.id)
    requires 0 < k <= |r.id|
    ensures keep(r.id[..k])
  {
    RestrictMember(Tests(Unfiltered([]), [], b), keep, r);
    ReportedWasAllowed(FilteredBy(keep, []), [], b, r, k);
  }

  // ---- The filters of the command line ----

  /** `--run` and `--skip` are exact on every test tree if and only if no pattern to skip is empty. */
  lemma RegexFiltersAreExactIff(e: Filters.Engine, f: Filters.RegexFilters)
    ensures (forall capabilities, b :: Exact(Filters.Filter(e, f), capabilities, b)) <==> [] !in f.mustNotMatch
  {
    Filters.RootSelectedIff(e, f);
    Filters.FilterAncestorClosed(e, f);
    PruningIsExactIff(Filters.Filter(e, f));
  }

  /** A pattern to skip that came from the command line is never empty, so filtering is exact: the filtered run
      reports the tests, and the failures, that the unfiltered run reports for the selected ids, in the same order
      and with the same errors. */
  lemma CommandLineFiltersAreExact(
      e: Filters.Engine, f: Filters.RegexFilters, texts: seq<string>, capabilities: seq<string>, b: Body)
    requires |texts| == |f.mustNotMatch|
    requires forall i | 0 <= i < |texts| :: Filters.Parsed(e, texts[i]) == Some(f.mustNotMatch[i])
    ensures var keep := Filters.Filter(e, f);
      var all, selected := Tests(Unfiltered(capabilities), [], b), Tests(FilteredBy(keep, capabilities), [], b);
      && selected == Restrict(all, keep)
      && WithErrors(selected) == Restrict(WithErrors(all), keep)
  {
    forall i | 0 <= i < |texts| ensures f.mustNotMatch[i] != [] {
      Filters.PrintParsed(e, texts[i]);
      assert Filters.Parsed(e, texts[i]) == Some(f.mustNotMatch[i]);
    }
    RegexFiltersAreExactIff(e, f);
    assert Exact(Filters.Filter(e, f), capabilities, b);
    RestrictThenErrors(Tests(Unfiltered(capabilities), [], b), Filters.Filter(e, f));
  }

  /** What `--run` and `--skip` select: a filtered run lists a test if and only if the unfiltered run lists it, some
      pattern to run, if there are any, agrees with its id as far as both go, and no pattern to skip that is no longer
      than its id does. */
  lemma FilteredRunListsIff(
      e: Filters.Engine, f: Filters.RegexFilters, capabilities: seq<string>, b: Body, r: TestResult)
    requires [] !in f.mustNotMatch
    ensures r in Tests(FilteredBy(Filters.Filter(e, f), capabilities), [], b) <==>
      && r in Tests(Unfiltered(capabilities), [], b)
      && (f.mustMatch == [] || exists p | p in f.mustMatch :: Filters.Agrees(e, p, r.id))
      && forall p | p in f.mustNotMatch && |p| <= |r.id| :: !Filters.Agrees(e, p, r.id)
  {
    hide Tests;
    RegexFiltersAreExactIff(e, f);
    assert Exact(Filters.Filter(e, f), capabilities, b);
    RestrictMember(Tests(Unfiltered(capabilities), [], b), Filters.Filter(e, f), r);
    Filters.SelectsIff(e, f, r.id);
  }
}
