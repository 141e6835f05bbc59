/** What the results of a run mean: which scopes they list, whose errors they hold, and how they depend on the
    capabilities of the test service. */
module Outcomes {
  import opened Text
  import opened TestResults
  import opened TestScope

  // ---- Failures and OK ----

  /** The failures are an order-preserving sublist of the tests, and there are none exactly when no test has an
      error. */
  lemma OKIff(rs: seq<TestResult>)
    ensures Results(rs, WithErrors(rs)).OK() <==> forall i | 0 <= i < |rs| :: rs[i].errors == []
    ensures forall r :: r in WithErrors(rs) <==> r in rs && r.errors != []
    ensures Subsequence(WithErrors(rs), rs)
  {
    hide WithErrors, Subsequence;
    WithErrorsMember(rs);
    WithErrorsInOrder(rs);
    if WithErrors(rs) != [] {
      assert WithErrors(rs)[0] in rs;
    }
    forall i | 0 <= i < |rs| && rs[i].errors != [] ensures rs[i] in WithErrors(rs) {}
  }

  lemma {:induction false} WithErrorsMember(rs: seq<TestResult>)
    ensures forall r :: r in WithErrors(rs) <==> r in rs && r.errors != []
  {
    if rs != [] {
      WithErrorsMember(rs[1..]);
      assert rs == [rs[0]] + rs[1..];
    }
  }

  lemma {:induction false} WithErrorsInOrder(rs: seq<TestResult>)
    ensures Subsequence(WithErrors(rs), rs)
  {
    if rs != [] {
      var tail := WithErrors(rs[1..]);
      WithErrorsInOrder(rs[1..]);
      assert ([rs[0]] + tail)[1..] == tail && [] + tail == tail;
    }
  }

  // ---- Which scopes are recorded ----

  /** Within scope `id` with body `b`, a scope `sub` with body `s` is run: it is that scope itself, or it is run
      within a subtest that the body gets to and that the filter lets through. */
  predicate Executes(cfg: Config, id: TestID, b: Body, sub: TestID, s: Body)
    decreases b, 1
  {
    (sub == id && s == b) || ExecutesBelow(cfg, id, b, sub, s)
  }

  predicate ExecutesBelow(cfg: Config, id: TestID, b: Body, sub: TestID, s: Body)
    decreases b, 0
  {
    match b
    case End => false
    case Then(c, rest) =>
      || (RunsSubtest(cfg, id, c) && Executes(cfg, Plus(id, c.name), c.body, sub, s))
      || (Exit(cfg.capabilities, c).None? && ExecutesBelow(cfg, id, rest, sub, s))
  }

  predicate RunsSubtest(cfg: Config, id: TestID, c: Command) {
    && (c.Run? || (c.RunIfCapable? && c.capability in cfg.capabilities))
    && Allowed(cfg, Plus(id, c.name))
  }

  /** A scope that is run, and is not skipped, gives this result. */
  ghost predicate Reports(cfg: Config, id: TestID, b: Body, r: TestResult, s: Body) {
    && Executes(cfg, id, b, r.id, s)
    && !EndingOf(cfg.capabilities, s).SkippedBecause?
    && r.errors == Errors(cfg.capabilities, s)
  }

  ghost predicate ReportsBelow(cfg: Config, id: TestID, b: Body, r: TestResult, s: Body) {
    && ExecutesBelow(cfg, id, b, r.id, s)
    && !EndingOf(cfg.capabilities, s).SkippedBecause?
    && r.errors == Errors(cfg.capabilities, s)
  }

  /** A result is listed if and only if it is the result of a scope that is run and is not skipped; the subtests of
      a skipped scope that ran before the skip are no exception. */
  lemma {:induction false} ListedIff(cfg: Config, id: TestID, b: Body, r: TestResult)
    ensures r in Tests(cfg, id, b) <==> exists s :: Reports(cfg, id, b, r, s)
    decreases b, 1
  {
    ListedBelowIff(cfg, id, b, r);
    if r in SubtestResults(cfg, id, b) {
      var s :| ReportsBelow(cfg, id, b, r, s);
      assert Reports(cfg, id, b, r, s);
    } else if r in Tests(cfg, id, b) {
      assert Reports(cfg, id, b, r, b);
    }
    if exists s :: Reports(cfg, id, b, r, s) {
      var s :| Reports(cfg, id, b, r, s);
      if ExecutesBelow(cfg, id, b, r.id, s) {
        assert ReportsBelow(cfg, id, b, r, s);
      }
    }
  }

  lemma {:induction false} ListedBelowIff(cfg: Config, id: TestID, b: Body, r: TestResult)
    ensures r in SubtestResults(cfg, id, b) <==> exists s :: ReportsBelow(cfg, id, b, r, s)
    decreases b, 0
  {
    if b.Then? {
      var c, rest := b.first, b.rest;
      ListedBelowIff(cfg, id, rest, r);
      if RunsSubtest(cfg, id, c) {
        ListedIff(cfg, Plus(id, c.name), c.body, r);
      }
      if r in CommandResults(cfg, id, c) {
        var s :| Reports(cfg, Plus(id, c.name), c.body, r, s);
        assert ReportsBelow(cfg, id, b, r, s);
      } else if r in SubtestResults(cfg, id, b) {
        var s :| ReportsBelow(cfg, id, rest, r, s);
        assert ReportsBelow(cfg, id, b, r, s);
      }
      if exists s :: ReportsBelow(cfg, id, b, r, s) {
        var s :| ReportsBelow(cfg, id, b, r, s);
        if RunsSubtest(cfg, id, c) && Executes(cfg, Plus(id, c.name), c.body, r.id, s) {
          assert Reports(cfg, Plus(id, c.name), c.body, r, s);
        } else {
          assert ReportsBelow(cfg, id, rest, r, s);
        }
      }
    }
  }

  /** Post-order: a scope's own result comes after those of everything below it. */
  lemma OwnResultComesLast(cfg: Config, id: TestID, b: Body)
    ensures var rs, own := Tests(cfg, id, b), TestResult(id, Errors(cfg.capabilities, b));
      if EndingOf(cfg.capabilities, b).SkippedBecause? then StrictlyBelow(id, rs)
      else rs != [] && rs[|rs| - 1] == own && StrictlyBelow(id, rs[..|rs| - 1])
  {
    SubtestsStrictlyBelow(cfg, id, b);
    if !EndingOf(cfg.capabilities, b).SkippedBecause? {
      assert Tests(cfg, id, b)[..|Tests(cfg, id, b)| - 1] == SubtestResults(cfg, id, b);
    }
  }

  predicate StrictlyBelow(id: TestID, rs: seq<TestResult>) {
    forall i | 0 <= i < |rs| :: id < rs[i].id
  }

  lemma {:induction false} SubtestsStrictlyBelow(cfg: Config, id: TestID, b: Body)
    ensures StrictlyBelow(id, SubtestResults(cfg, id, b))
    decreases b, 0
  {
    match b
    case End =>
    case Then(c, rest) =>
      SubtestsStrictlyBelow(cfg, id, rest);
      if RunsSubtest(cfg, id, c) {
        CommandStrictlyBelow(cfg, id, c);
      }
  }

  lemma {:induction false} CommandStrictlyBelow(cfg: Config, id: TestID, c: Command)
    requires RunsSubtest(cfg, id, c)
    ensures StrictlyBelow(id, CommandResults(cfg, id, c))
    decreases c, 0
  {
    var sub := Plus(id, c.name);
    SubtestsStrictlyBelow(cfg, sub, c.body);
    assert id < sub;
    forall i | 0 <= i < |Tests(cfg, sub, c.body)| ensures id < Tests(cfg, sub, c.body)[i].id {
      assert sub <= Tests(cfg, sub, c.body)[i].id;
    }
  }

  /** When the text of a failure cannot be laid out, the panic ends the test like any stray panic: the failure and
      the panic are both recorded, and nothing after the Errorf is run. */
  lemma FormattingPanicIsRecorded(cfg: Config, id: TestID, message: string, rest: Body)
    requires ErrorFormatting.Reformatted(message).None?
    ensures Tests(cfg, id, Then(Errorf(message), rest))
      == [TestResult(id, [Message(message), UnexpectedPanic(INDEX_PANIC)])]
  {
    hide ErrorFormatting.Reformatted;
    var b := Then(Errorf(message), rest);
    var errors := [Message(message), UnexpectedPanic(INDEX_PANIC)];
    assert SubtestResults(cfg, id, b) == [];
    assert Errors(cfg.capabilities, b) == [Message(message)] + [UnexpectedPanic(INDEX_PANIC)] == errors;
    assert [] + [TestResult(id, errors)] == [TestResult(id, errors)];
  }

  // ---- A child never changes its parent's record ----

  /** The same body with every subtest emptied. */
  function Childless(b: Body): Body {
    match b
    case End => End
    case Then(Run(name, _), rest) => Then(Command.Run(name, End), Childless(rest))
    case Then(RunIfCapable(capability, name, _), rest) => Then(RunIfCapable(capability, name, End), Childless(rest))
    case Then(c, rest) => Then(c, Childless(rest))
  }

  /** Two bodies that differ only in what their subtests do end in the same way, with the same errors and the same
      cleanups: a failure, a skip or a panic in a subtest does not reach its parent. */
  lemma {:induction false} ChildrenDoNotMatter(capabilities: seq<string>, a: Body, b: Body)
    requires Childless(a) == Childless(b)
    ensures EndingOf(capabilities, a) == EndingOf(capabilities, b)
    ensures Errors(capabilities, a) == Errors(capabilities, b)
    ensures Registered(capabilities, a) == Registered(capabilities, b)
  {
    if a.Then? {
      assert b.Then? && Exit(capabilities, a.first) == Exit(capabilities, b.first);
      SameReports(capabilities, a, b);
      ChildrenDoNotMatter(capabilities, a.rest, b.rest);
    }
  }

  lemma {:induction false} SameReports(capabilities: seq<string>, a: Body, b: Body)
    requires Childless(a) == Childless(b)
    ensures Reported(capabilities, a) == Reported(capabilities, b)
  {
    if a.Then? {
      SameReports(capabilities, a.rest, b.rest);
    }
  }

  // ---- Capabilities ----

  predicate Subsequence(a: seq<TestResult>, b: seq<TestResult>) {
    if a == [] then true
    else if b == [] then false
    else (a[0] == b[0] && Subsequence(a[1..], b[1..])) || Subsequence(a, b[1..])
  }

  lemma {:induction false} SubsequenceConcat(
      a: seq<TestResult>, b: seq<TestResult>, c: seq<TestResult>, d: seq<TestResult>)
    requires Subsequence(a, b) && Subsequence(c, d)
    ensures Subsequence(a + c, b + d)
    decreases |b|
  {
    if b == [] {
      assert a + c == c && b + d == d;
    } else {
      assert (b + d)[0] == b[0] && (b + d)[1..] == b[1..] + d;
      if a != [] && a[0] == b[0] && Subsequence(a[1..], b[1..]) {
        assert (a + c)[0] == a[0] && (a + c)[1..] == a[1..] + c;
        SubsequenceConcat(a[1..], b[1..], c, d);
      } else {
        SubsequenceConcat(a, b[1..], c, d);
      }
    }
  }

  lemma {:induction false} SubsequenceErrors(a: seq<TestResult>, b: seq<TestResult>)
    requires Subsequence(a, b)
    ensures Subsequence(WithErrors(a), WithErrors(b))
    decreases |b|
  {
    if b != [] {
      if a != [] && a[0] == b[0] && Subsequence(a[1..], b[1..]) {
        SubsequenceErrors(a[1..], b[1..]);
        var head := if a[0].errors != [] then [a[0]] else [];
        SubsequenceConcat(head, head, WithErrors(a[1..]), WithErrors(b[1..]));
      } else {
        SubsequenceErrors(a, b[1..]);
        SubsequenceConcat([], if b[0].errors != [] then [b[0]] else [], WithErrors(a), WithErrors(b[1..]));
        assert [] + WithErrors(a) == WithErrors(a);
      }
    }
  }

  ghost predicate Within(fewer: seq<string>, more: seq<string>) {
    forall c | c in fewer :: c in more
  }

  /** A scope that is not skipped for want of a capability does the same with more of them. */
  lemma {:induction false} MoreCapabilitiesSameRecord(fewer: seq<string>, more: seq<string>, b: Body)
    requires Within(fewer, more) && !EndingOf(fewer, b).SkippedBecause?
    ensures EndingOf(more, b) == EndingOf(fewer, b)
    ensures Reported(more, b) == Reported(fewer, b)
  {
    if b.Then? && Exit(fewer, b.first).None? {
      assert Exit(more, b.first).None?;
      MoreCapabilitiesSameRecord(fewer, more, b.rest);
    }
  }

  lemma {:induction false} ScopeMonotone(
      filter: Option<TestID -> bool>, fewer: seq<string>, more: seq<string>, id: TestID, b: Body)
    requires Within(fewer, more)
    ensures Subsequence(Tests(Config(filter, fewer), id, b), Tests(Config(filter, more), id, b))
    decreases b, 1
  {
    var few, many := Config(filter, fewer), Config(filter, more);
    BodyMonotone(filter, fewer, more, id, b);
    if !EndingOf(fewer, b).SkippedBecause? {
      MoreCapabilitiesSameRecord(fewer, more, b);
      var own := [TestResult(id, Errors(fewer, b))];
      SubsequenceConcat(SubtestResults(few, id, b), SubtestResults(many, id, b), own, own);
    } else if !EndingOf(more, b).SkippedBecause? {
      var own := [TestResult(id, Errors(more, b))];
      SubsequenceConcat(SubtestResults(few, id, b), SubtestResults(many, id, b), [], own);
      assert SubtestResults(few, id, b) + [] == SubtestResults(few, id, b);
    }
  }

  lemma {:induction false} BodyMonotone(
      filter: Option<TestID -> bool>, fewer: seq<string>, more: seq<string>, id: TestID, b: Body)
    requires Within(fewer, more)
    ensures Subsequence(SubtestResults(Config(filter, fewer), id, b), SubtestResults(Config(filter, more), id, b))
    decreases b, 0
  {
    match b
    case End =>
    case Then(c, rest) =>
      var few, many := Config(filter, fewer), Config(filter, more);
      CommandMonotone(filter, fewer, more, id, c);
      BodyMonotone(filter, fewer, more, id, rest);
      if Exit(fewer, c).None? {
        assert Exit(more, c).None?;
        SubsequenceConcat(CommandResults(few, id, c), CommandResults(many, id, c),
                          SubtestResults(few, id, rest), SubtestResults(many, id, rest));
      } else if Exit(more, c).None? {
        assert c.RequireCapability?;
      }
  }

  lemma {:induction false} CommandMonotone(
      filter: Option<TestID -> bool>, fewer: seq<string>, more: seq<string>, id: TestID, c: Command)
    requires Within(fewer, more)
    ensures Subsequence(CommandResults(Config(filter, fewer), id, c), CommandResults(Config(filter, more), id, c))
    decreases c, 0
  {
    if c.Run? || c.RunIfCapable? {
      ScopeMonotone(filter, fewer, more, Plus(id, c.name), c.body);
    }
  }

  /** A test service with more capabilities is tested more: every result that a run with fewer capabilities reports
      is reported by a run with more of them, in the same order and with the same errors, and so are the failures. */
  lemma MoreCapabilitiesMoreTests(filter: Option<TestID -> bool>, fewer: seq<string>, more: seq<string>, b: Body)
    requires Within(fewer, more)
    ensures Subsequence(Tests(Config(filter, fewer), [], b), Tests(Config(filter, more), [], b))
    ensures Subsequence(WithErrors(Tests(Config(filter, fewer), [], b)), WithErrors(Tests(Config(filter, more), [], b)))
  {
    ScopeMonotone(filter, fewer, more, [], b);
    SubsequenceErrors(Tests(Config(filter, fewer), [], b), Tests(Config(filter, more), [], b));
  }
}
