/** The rules of the test runner, one for each way in which a test body can go: what is recorded, what is logged, which
    cleanups are called, and how the test is reported to have ended. */
module ScopeRules {
  import opened Text
  import opened TestResults
  import opened TestScope
  import TraceShape

  // ---- A body: commands that let it go on, and one that leaves it ----

  /** The command lets the body go on. */
  predicate Passes(capabilities: seq<string>, c: Command) {
    match c
    case Errorf(message) => ErrorFormatting.Reformatted(message).Some?
    case RequireCapability(name) => name in capabilities
    case Defer(_) => true
    case Run(_, _) => true
    case RunIfCapable(_, _, _) => true
    case _ => false
  }

  predicate AllPass(capabilities: seq<string>, cs: seq<Command>) {
    forall i | 0 <= i < |cs| :: Passes(capabilities, cs[i])
  }

  /** A body that starts with these commands and goes on with `tail`. */
  function Sequel(cs: seq<Command>, tail: Body): Body {
    if cs == [] then tail else Then(cs[0], Sequel(cs[1..], tail))
  }

  /** The texts given to Errorf. */
  function Texts(cs: seq<Command>): seq<TestError> {
    if cs == [] then []
    else (if cs[0].Errorf? then [Message(cs[0].message)] else []) + Texts(cs[1..])
  }

  /** The cleanups given to Defer. */
  function Tokens(cs: seq<Command>): seq<nat> {
    if cs == [] then []
    else (if cs[0].Defer? then [cs[0].token] else []) + Tokens(cs[1..])
  }

  /** Whether the command starts a subtest. */
  predicate Starts(cfg: Config, c: Command) {
    c.Run? || (c.RunIfCapable? && c.capability in cfg.capabilities)
  }

  /** The results of the subtests that the filter lets through, in order. */
  function ResultsBelow(cfg: Config, id: TestID, cs: seq<Command>): seq<TestResult> {
    if cs == [] then []
    else
      (if Starts(cfg, cs[0]) && (cfg.filter.Some? ==> cfg.filter.value(id + [cs[0].name]))
       then Tests(cfg, id + [cs[0].name], cs[0].body) else [])
      + ResultsBelow(cfg, id, cs[1..])
  }

  /** What the commands show: the failures, as they are laid out, and the subtests. */
  function Shown(cfg: Config, id: TestID, cs: seq<Command>): seq<Event>
    requires AllPass(cfg.capabilities, cs)
  {
    if cs == [] then []
    else
      (if cs[0].Errorf? then [Error(id, Message(ErrorFormatting.Reformatted(cs[0].message).value))]
       else if Starts(cfg, cs[0]) then SubtestTrace(cfg, id + [cs[0].name], cs[0].body) else [])
      + Shown(cfg, id, cs[1..])
  }

  /** The cleanups are called from the last one back to the first. */
  function Cleanups(id: TestID, tokens: seq<nat>): seq<Event> {
    seq(|tokens|, i requires 0 <= i < |tokens| => CleanedUp(id, tokens[|tokens| - 1 - i]))
  }

  /** Every body is of this kind: it runs to its end, or it has a first command that leaves it. */
  lemma {:induction false} EveryBodySplits(capabilities: seq<string>, b: Body) returns (cs: seq<Command>, tail: Body)
    ensures AllPass(capabilities, cs) && b == Sequel(cs, tail)
    ensures tail == End || !Passes(capabilities, tail.first)
  {
    if b == End || !Passes(capabilities, b.first) {
      cs, tail := [], b;
    } else {
      cs, tail := EveryBodySplits(capabilities, b.rest);
      assert ([b.first] + cs)[1..] == cs;
      cs := [b.first] + cs;
    }
  }

  // ---- What passing commands contribute ----

  lemma PassesIff(capabilities: seq<string>, c: Command)
    ensures Passes(capabilities, c) <==> Exit(capabilities, c).None?
  {
  }

  lemma {:induction false} PrefixEnds(capabilities: seq<string>, cs: seq<Command>, tail: Body)
    requires AllPass(capabilities, cs)
    ensures EndingOf(capabilities, Sequel(cs, tail)) == EndingOf(capabilities, tail)
    ensures Reported(capabilities, Sequel(cs, tail)) == Texts(cs) + Reported(capabilities, tail)
    ensures Registered(capabilities, Sequel(cs, tail)) == Tokens(cs) + Registered(capabilities, tail)
  {
    hide Exit, Passes;
    if cs != [] {
      var rest := Sequel(cs[1..], tail);
      PassesIff(capabilities, cs[0]);
      PrefixEnds(capabilities, cs[1..], tail);
      var text := if cs[0].Errorf? then [Message(cs[0].message)] else [];
      var token := if cs[0].Defer? then [cs[0].token] else [];
      assert text + (Texts(cs[1..]) + Reported(capabilities, tail)) == Texts(cs) + Reported(capabilities, tail);
      assert token + (Tokens(cs[1..]) + Registered(capabilities, tail)) == Tokens(cs) + Registered(capabilities, tail);
    }
  }

  lemma {:induction false} PrefixResults(cfg: Config, id: TestID, cs: seq<Command>, tail: Body)
    requires AllPass(cfg.capabilities, cs)
    ensures SubtestResults(cfg, id, Sequel(cs, tail)) == ResultsBelow(cfg, id, cs) + SubtestResults(cfg, id, tail)
  {
    hide Exit, Passes, Tests;
    if cs != [] {
      PassesIff(cfg.capabilities, cs[0]);
      PrefixResults(cfg, id, cs[1..], tail);
      assert CommandResults(cfg, id, cs[0]) + (ResultsBelow(cfg, id, cs[1..]) + SubtestResults(cfg, id, tail))
        == ResultsBelow(cfg, id, cs) + SubtestResults(cfg, id, tail);
    }
  }

  lemma CommandShows(cfg: Config, id: TestID, c: Command)
    requires Passes(cfg.capabilities, c)
    ensures CommandTrace(cfg, id, c) ==
      if c.Errorf? then [Error(id, Message(ErrorFormatting.Reformatted(c.message).value))]
      else if Starts(cfg, c) then SubtestTrace(cfg, id + [c.name], c.body) else []
  {
    hide SubtestTrace, ErrorFormatting.Reformatted;
  }

  lemma Assoc(a: seq<Event>, b: seq<Event>, c: seq<Event>)
    ensures a + b + c == a + (b + c)
  {
  }

  lemma {:induction false} PrefixTrace(cfg: Config, id: TestID, cs: seq<Command>, tail: Body)
    requires AllPass(cfg.capabilities, cs)
    ensures BodyTrace(cfg, id, Sequel(cs, tail)) == Shown(cfg, id, cs) + BodyTrace(cfg, id, tail)
  {
    hide Exit, Passes, CommandTrace, SubtestTrace, ErrorFormatting.Reformatted, Starts;
    if cs == [] {
      assert [] + BodyTrace(cfg, id, tail) == BodyTrace(cfg, id, tail);
    } else {
      var now := CommandTrace(cfg, id, cs[0]);
      PassesIff(cfg.capabilities, cs[0]);
      assert AllPass(cfg.capabilities, cs[1..]);
      PrefixTrace(cfg, id, cs[1..], tail);
      CommandShows(cfg, id, cs[0]);
      assert Shown(cfg, id, cs) == now + Shown(cfg, id, cs[1..]);
      Assoc(now, Shown(cfg, id, cs[1..]), BodyTrace(cfg, id, tail));
    }
  }

  lemma CleanupsAre(id: TestID, tokens: seq<nat>)
    ensures CleanedUpAll(id, tokens) == Cleanups(id, tokens)
  {
    TraceShape.CleanupsReversed(id, tokens);
  }

  // ---- The rules ----

  /** A scope that is recorded: with these errors, after these log events of its own. */
  ghost predicate RecordedAs(
      cfg: Config, id: TestID, cs: seq<Command>, b: Body, errors: seq<TestError>, logged: seq<Event>)
    requires AllPass(cfg.capabilities, cs)
  {
    && Tests(cfg, id, b) == ResultsBelow(cfg, id, cs) + [TestResult(id, errors)]
    && Trace(cfg, id, b)
       == Shown(cfg, id, cs) + logged + [Recorded(TestResult(id, errors))] + Cleanups(id, Tokens(cs))
    && (Allowed(cfg, id) ==>
          SubtestTrace(cfg, id, b) == [Started(id)] + Trace(cfg, id, b) + [Finished(id, errors != [])])
  }

  /** A scope that is skipped: no result of its own and no cleanup, only what happened before. */
  ghost predicate SkippedFor(cfg: Config, id: TestID, cs: seq<Command>, b: Body, why: SkipReason)
    requires AllPass(cfg.capabilities, cs)
  {
    && Tests(cfg, id, b) == ResultsBelow(cfg, id, cs)
    && Trace(cfg, id, b) == Shown(cfg, id, cs)
    && (Allowed(cfg, id) ==> SubtestTrace(cfg, id, b) == [Started(id)] + Trace(cfg, id, b) + [Skipped(id, why)])
  }

  /** The last command of a body: what it adds to the scope's lists, and to the trace. */
  lemma LastCommand(cfg: Config, id: TestID, c: Command, rest: Body)
    requires !Passes(cfg.capabilities, c)
    ensures var caps, b := cfg.capabilities, Then(c, rest);
      && Some(EndingOf(caps, b)) == Exit(caps, c)
      && Reported(caps, b) == (if c.Errorf? then [Message(c.message)] else [])
      && Registered(caps, b) == [] && SubtestResults(cfg, id, b) == [] && BodyTrace(cfg, id, b) == []
  {
  }

  lemma RecordRule(cfg: Config, id: TestID, cs: seq<Command>, tail: Body)
    requires AllPass(cfg.capabilities, cs) && !EndingOf(cfg.capabilities, tail).SkippedBecause?
    requires SubtestResults(cfg, id, tail) == [] && BodyTrace(cfg, id, tail) == []
    requires Registered(cfg.capabilities, tail) == []
    ensures var errors := Texts(cs) + Reported(cfg.capabilities, tail);
      var added := ExitErrors(errors, EndingOf(cfg.capabilities, tail));
      RecordedAs(cfg, id, cs, Sequel(cs, tail), errors + added, ErrorEvents(id, added))
  {
    hide AllPass, Sequel, EndingOf, Reported, Registered, SubtestResults, BodyTrace, ErrorEvents, ExitErrors;
    hide CleanedUpAll, Cleanups, Shown, ResultsBelow, Texts, Tokens;
    var caps, b := cfg.capabilities, Sequel(cs, tail);
    PrefixEnds(caps, cs, tail);
    PrefixResults(cfg, id, cs, tail);
    PrefixTrace(cfg, id, cs, tail);
    assert Tokens(cs) + [] == Tokens(cs) && ResultsBelow(cfg, id, cs) + [] == ResultsBelow(cfg, id, cs);
    assert Shown(cfg, id, cs) + [] == Shown(cfg, id, cs);
    CleanupsAre(id, Tokens(cs));
    var errors := Texts(cs) + Reported(caps, tail);
    var added := ExitErrors(errors, EndingOf(caps, tail));
    assert Errors(caps, b) == errors + added;
    assert Trace(cfg, id, b) == Shown(cfg, id, cs)
      + (ErrorEvents(id, added) + [Recorded(TestResult(id, errors + added))] + Cleanups(id, Tokens(cs)));
  }

  lemma SkipRule(cfg: Config, id: TestID, cs: seq<Command>, tail: Body)
    requires AllPass(cfg.capabilities, cs) && EndingOf(cfg.capabilities, tail).SkippedBecause?
    requires SubtestResults(cfg, id, tail) == [] && BodyTrace(cfg, id, tail) == []
    ensures SkippedFor(cfg, id, cs, Sequel(cs, tail), EndingOf(cfg.capabilities, tail).why)
  {
    hide AllPass, Sequel, EndingOf, SubtestResults, BodyTrace, Shown, ResultsBelow;
    PrefixEnds(cfg.capabilities, cs, tail);
    PrefixResults(cfg, id, cs, tail);
    PrefixTrace(cfg, id, cs, tail);
    assert ResultsBelow(cfg, id, cs) + [] == ResultsBelow(cfg, id, cs);
    assert Shown(cfg, id, cs) + [] == Shown(cfg, id, cs);
  }

  lemma OneLogged(id: TestID, err: TestError)
    ensures ErrorEvents(id, [err]) == [Error(id, err)] && ErrorEvents(id, []) == []
  {
    assert [err][1..] == [];
  }

  /** A body that runs to its end: the texts that it reported are its errors, and it has failed if there are any. */
  lemma CompletedRule(cfg: Config, id: TestID, cs: seq<Command>)
    requires AllPass(cfg.capabilities, cs)
    ensures RecordedAs(cfg, id, cs, Sequel(cs, End), Texts(cs), [])
  {
    hide RecordedAs;
    RecordRule(cfg, id, cs, End);
    OneLogged(id, NoFailureMessage);
    assert Texts(cs) + [] + [] == Texts(cs);
  }

  /** FailNow adds an error if nothing was reported, and only then. */
  lemma FailNowRule(cfg: Config, id: TestID, cs: seq<Command>, rest: Body)
    requires AllPass(cfg.capabilities, cs)
    ensures var b := Sequel(cs, Then(FailNow, rest));
      if Texts(cs) == [] then RecordedAs(cfg, id, cs, b, [NoFailureMessage], [Error(id, NoFailureMessage)])
      else RecordedAs(cfg, id, cs, b, Texts(cs), [])
  {
    hide RecordedAs;
    LastCommand(cfg, id, FailNow, rest);
    RecordRule(cfg, id, cs, Then(FailNow, rest));
    OneLogged(id, NoFailureMessage);
    assert Texts(cs) + [] == Texts(cs) && [] + [NoFailureMessage] == [NoFailureMessage];
  }

  /** A stray panic is recorded after the texts that were reported. */
  lemma PanicRule(cfg: Config, id: TestID, cs: seq<Command>, value: string, rest: Body)
    requires AllPass(cfg.capabilities, cs)
    ensures RecordedAs(cfg, id, cs, Sequel(cs, Then(Panic(value), rest)), Texts(cs) + [UnexpectedPanic(value)],
                       [Error(id, UnexpectedPanic(value))])
  {
    hide RecordedAs;
    LastCommand(cfg, id, Panic(value), rest);
    RecordRule(cfg, id, cs, Then(Panic(value), rest));
    OneLogged(id, UnexpectedPanic(value));
    assert Texts(cs) + [] == Texts(cs);
  }

  /** So is the panic that comes of a text that cannot be laid out; the text itself is recorded but not logged. */
  lemma LayoutPanicRule(cfg: Config, id: TestID, cs: seq<Command>, message: string, rest: Body)
    requires AllPass(cfg.capabilities, cs) && ErrorFormatting.Reformatted(message).None?
    ensures var panic := UnexpectedPanic("runtime error: index out of range [0] with length 0");
      RecordedAs(cfg, id, cs, Sequel(cs, Then(Errorf(message), rest)), Texts(cs) + [Message(message), panic],
                 [Error(id, panic)])
  {
    hide RecordedAs, ErrorFormatting.Reformatted;
    LastCommand(cfg, id, Errorf(message), rest);
    RecordRule(cfg, id, cs, Then(Errorf(message), rest));
    OneLogged(id, UnexpectedPanic(INDEX_PANIC));
    assert Texts(cs) + [Message(message)] + [UnexpectedPanic(INDEX_PANIC)]
      == Texts(cs) + [Message(message), UnexpectedPanic(INDEX_PANIC)];
  }

  /** Whatever was reported before: Skip, SkipWithReason, and a capability that is missing leave the scope without a
      result, and give their reasons. */
  lemma SkipRules(cfg: Config, id: TestID, cs: seq<Command>, text: string, rest: Body)
    requires AllPass(cfg.capabilities, cs)
    ensures SkippedFor(cfg, id, cs, Sequel(cs, Then(Skip, rest)), Given(""))
    ensures SkippedFor(cfg, id, cs, Sequel(cs, Then(SkipWithReason(text), rest)), Given(text))
    ensures text !in cfg.capabilities ==>
      SkippedFor(cfg, id, cs, Sequel(cs, Then(RequireCapability(text), rest)), MissingCapability(text))
  {
    hide SkippedFor;
    LastCommand(cfg, id, Skip, rest);
    SkipRule(cfg, id, cs, Then(Skip, rest));
    LastCommand(cfg, id, SkipWithReason(text), rest);
    SkipRule(cfg, id, cs, Then(SkipWithReason(text), rest));
    if text !in cfg.capabilities {
      LastCommand(cfg, id, RequireCapability(text), rest);
      SkipRule(cfg, id, cs, Then(RequireCapability(text), rest));
    }
  }

  lemma RequirementMissing(cfg: Config, id: TestID, name: string, rest: Body)
    requires name !in cfg.capabilities
    ensures var b := Then(RequireCapability(name), rest);
      && Tests(cfg, id, b) == [] && Trace(cfg, id, b) == []
      && (Allowed(cfg, id) ==> SubtestTrace(cfg, id, b) == [Started(id), Skipped(id, MissingCapability(name))])
  {
    hide Tests, Trace, SubtestTrace;
    SkipRules(cfg, id, [], name, rest);
    assert Sequel([], Then(RequireCapability(name), rest)) == Then(RequireCapability(name), rest);
    assert [Started(id)] + [] + [Skipped(id, MissingCapability(name))]
      == [Started(id), Skipped(id, MissingCapability(name))];
  }

  lemma RequirementHeld(cfg: Config, id: TestID, name: string, rest: Body)
    requires name in cfg.capabilities
    ensures var caps, b := cfg.capabilities, Then(RequireCapability(name), rest);
      && EndingOf(caps, b) == EndingOf(caps, rest) && Reported(caps, b) == Reported(caps, rest)
      && Registered(caps, b) == Registered(caps, rest)
      && SubtestResults(cfg, id, b) == SubtestResults(cfg, id, rest)
      && BodyTrace(cfg, id, b) == BodyTrace(cfg, id, rest)
  {
    assert [] + SubtestResults(cfg, id, rest) == SubtestResults(cfg, id, rest);
    assert [] + BodyTrace(cfg, id, rest) == BodyTrace(cfg, id, rest);
    assert [] + Reported(cfg.capabilities, rest) == Reported(cfg.capabilities, rest);
    assert [] + Registered(cfg.capabilities, rest) == Registered(cfg.capabilities, rest);
  }

  /** A body that starts by requiring a capability: without it the body does nothing and is skipped for that reason;
      with it, it is the rest of the body. */
  lemma RequirementRule(cfg: Config, id: TestID, name: string, rest: Body)
    ensures var b := Then(RequireCapability(name), rest);
      if name !in cfg.capabilities then
        && Tests(cfg, id, b) == [] && Trace(cfg, id, b) == []
        && (Allowed(cfg, id) ==> SubtestTrace(cfg, id, b) == [Started(id), Skipped(id, MissingCapability(name))])
      else
        && Tests(cfg, id, b) == Tests(cfg, id, rest) && Trace(cfg, id, b) == Trace(cfg, id, rest)
        && SubtestTrace(cfg, id, b) == SubtestTrace(cfg, id, rest)
  {
    if name !in cfg.capabilities {
      RequirementMissing(cfg, id, name, rest);
    } else {
      hide EndingOf, Reported, Registered, SubtestResults, BodyTrace;
      RequirementHeld(cfg, id, name, rest);
    }
  }

  /** A subtest that the filter leaves out is started and skipped, and nothing of it is run. */
  lemma FilteredRule(cfg: Config, id: TestID, name: string, body: Body)
    requires cfg.filter.Some? && !cfg.filter.value(id + [name])
    ensures ResultsBelow(cfg, id, [Command.Run(name, body)]) == []
    ensures SubtestTrace(cfg, id + [name], body)
      == [Started(id + [name]), Skipped(id + [name], ExcludedByFilter)]
  {
    assert [Command.Run(name, body)][1..] == [];
  }
}
