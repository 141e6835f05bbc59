/** The errors that a run logs, against the errors that it records. */
module ErrorLog {
  import opened TestResults
  import opened TestScope
  import opened Outcomes
  import ScopesInRuns

  // ---- The log of one scope ----

  /** The errors that a trace logs for exactly this scope. */
  function OwnErrors(id: TestID, trace: seq<Event>): seq<TestError> {
    if trace == [] then [] else OwnError(id, trace[0]) + OwnErrors(id, trace[1..])
  }

  function OwnError(id: TestID, e: Event): seq<TestError> {
    if e.Error? && e.id == id then [e.err] else []
  }

  /** How the errors of a scope are logged: a reported text as it is laid out, or not at all if that panics; the two
      errors that the runner makes up as they are. */
  function LoggedAs(errs: seq<TestError>): seq<TestError> {
    if errs == [] then [] else LoggedError(errs[0]) + LoggedAs(errs[1..])
  }

  function LoggedError(err: TestError): seq<TestError> {
    match err
    case Message(text) =>
      (match ErrorFormatting.Reformatted(text) case Some(t) => [Message(t)] case None => [])
    case _ => [err]
  }

  /** What a scope puts into the log; the errors that a skipped scope reported are there too. */
  function Log(capabilities: seq<string>, b: Body): seq<TestError> {
    LoggedAs(if EndingOf(capabilities, b).SkippedBecause? then Reported(capabilities, b) else Errors(capabilities, b))
  }

  lemma Assoc(a: seq<TestError>, b: seq<TestError>, c: seq<TestError>)
    ensures a + b + c == a + (b + c)
  {
  }

  lemma OwnErrorsFrom(id: TestID, trace: seq<Event>)
    requires trace != []
    ensures OwnErrors(id, trace) == OwnError(id, trace[0]) + OwnErrors(id, trace[1..])
  {
  }

  lemma {:induction false} OwnErrorsConcat(id: TestID, a: seq<Event>, b: seq<Event>)
    ensures OwnErrors(id, a + b) == OwnErrors(id, a) + OwnErrors(id, b)
  {
    if a == [] {
      assert a + b == b;
    } else {
      hide OwnErrors, OwnError;
      assert (a + b)[0] == a[0] && (a + b)[1..] == a[1..] + b;
      OwnErrorsConcat(id, a[1..], b);
      OwnErrorsFrom(id, a);
      OwnErrorsFrom(id, a + b);
      Assoc(OwnError(id, a[0]), OwnErrors(id, a[1..]), OwnErrors(id, b));
    }
  }

  lemma LoggedAsFrom(errs: seq<TestError>)
    requires errs != []
    ensures LoggedAs(errs) == LoggedError(errs[0]) + LoggedAs(errs[1..])
  {
  }

  lemma {:induction false} LoggedAsConcat(a: seq<TestError>, b: seq<TestError>)
    ensures LoggedAs(a + b) == LoggedAs(a) + LoggedAs(b)
  {
    if a == [] {
      assert a + b == b;
    } else {
      hide LoggedAs, LoggedError;
      assert (a + b)[0] == a[0] && (a + b)[1..] == a[1..] + b;
      LoggedAsConcat(a[1..], b);
      LoggedAsFrom(a);
      LoggedAsFrom(a + b);
      Assoc(LoggedError(a[0]), LoggedAs(a[1..]), LoggedAs(b));
    }
  }

  /** All errors in a trace are those of one scope. */
  predicate OnlyErrorsOf(id: TestID, trace: seq<Event>) {
    forall i | 0 <= i < |trace| && trace[i].Error? :: trace[i].id == id
  }

  /** All errors in a trace are those of scopes more than `length` names deep. */
  predicate Deeper(length: nat, trace: seq<Event>) {
    forall i | 0 <= i < |trace| && trace[i].Error? :: |trace[i].id| > length
  }

  lemma {:induction false} NoOwnErrors(id: TestID, trace: seq<Event>)
    requires forall i | 0 <= i < |trace| && trace[i].Error? :: trace[i].id != id
    ensures OwnErrors(id, trace) == []
  {
    if trace != [] {
      NoOwnErrors(id, trace[1..]);
    }
  }

  lemma {:induction false} ErrorEventsLog(id: TestID, errs: seq<TestError>)
    ensures OwnErrors(id, ErrorEvents(id, errs)) == errs && OnlyErrorsOf(id, ErrorEvents(id, errs))
  {
    if errs != [] {
      ErrorEventsLog(id, errs[1..]);
      assert ErrorEvents(id, errs)[1..] == ErrorEvents(id, errs[1..]);
    }
  }

  lemma {:induction false} CleanupsLogNothing(id: TestID, tokens: seq<nat>)
    ensures forall i | 0 <= i < |CleanedUpAll(id, tokens)| :: CleanedUpAll(id, tokens)[i].CleanedUp?
  {
    if tokens != [] {
      CleanupsLogNothing(id, tokens[..|tokens| - 1]);
    }
  }

  lemma RecordLogsNothing(id: TestID, r: TestResult, tokens: seq<nat>)
    ensures OwnErrors(id, [Recorded(r)] + CleanedUpAll(id, tokens)) == []
    ensures OnlyErrorsOf(id, [Recorded(r)] + CleanedUpAll(id, tokens))
  {
    CleanupsLogNothing(id, tokens);
    NoOwnErrors(id, [Recorded(r)] + CleanedUpAll(id, tokens));
  }

  lemma OnlyErrorsOfConcat(id: TestID, a: seq<Event>, b: seq<Event>)
    requires OnlyErrorsOf(id, a) && OnlyErrorsOf(id, b)
    ensures OnlyErrorsOf(id, a + b)
  {
  }

  lemma ClosingLogs(cfg: Config, id: TestID, b: Body)
    ensures OwnErrors(id, Closing(cfg, id, b)) ==
      if EndingOf(cfg.capabilities, b).SkippedBecause? then []
      else ExitErrors(Reported(cfg.capabilities, b), EndingOf(cfg.capabilities, b))
    ensures OnlyErrorsOf(id, Closing(cfg, id, b))
  {
    hide ErrorEvents, CleanedUpAll, Reported, EndingOf, ExitErrors, Errors, Registered, OnlyErrorsOf, OwnErrors;
    var caps := cfg.capabilities;
    NoOwnErrors(id, []);
    if EndingOf(caps, b).SkippedBecause? {
      ErrorEventsLog(id, []);
      assert ErrorEvents(id, []) == [] by {
        NoErrorEvents(id);
      }
    } else {
      var errs := ExitErrors(Reported(caps, b), EndingOf(caps, b));
      var exit, record := ErrorEvents(id, errs), [Recorded(TestResult(id, Errors(caps, b)))];
      var after := record + CleanedUpAll(id, Registered(caps, b));
      ErrorEventsLog(id, errs);
      RecordLogsNothing(id, TestResult(id, Errors(caps, b)), Registered(caps, b));
      OwnErrorsConcat(id, exit, after);
      OnlyErrorsOfConcat(id, exit, after);
      assert errs + [] == errs;
      assert Closing(cfg, id, b) == exit + after by {
        assert exit + record + CleanedUpAll(id, Registered(caps, b)) == exit + after;
      }
    }
  }

  lemma NoErrorEvents(id: TestID)
    ensures ErrorEvents(id, []) == []
  {
  }

  lemma DeeperConcat(length: nat, a: seq<Event>, b: seq<Event>)
    requires Deeper(length, a) && Deeper(length, b)
    ensures Deeper(length, a + b)
  {
  }

  lemma {:induction false} SubtestLogsDeeper(cfg: Config, id: TestID, length: nat, b: Body)
    requires length < |id|
    ensures Deeper(length, SubtestTrace(cfg, id, b))
    decreases b, 1
  {
    hide BodyTrace, Closing, LastEvent;
    BodyLogsDeeper(cfg, id, length, b);
    ClosingLogs(cfg, id, b);
    LastIsNoError(cfg.capabilities, id, b);
    DeeperConcat(length, BodyTrace(cfg, id, b), Closing(cfg, id, b));
    DeeperConcat(length, [Started(id)], Trace(cfg, id, b));
    DeeperConcat(length, [Started(id)] + Trace(cfg, id, b), [LastEvent(cfg.capabilities, id, b)]);
  }

  lemma {:induction false} BodyLogsDeeper(cfg: Config, id: TestID, length: nat, b: Body)
    requires length < |id|
    ensures Deeper(length, BodyTrace(cfg, id, b))
    decreases b, 0
  {
    if b.Then? {
      hide SubtestTrace, ErrorFormatting.Reformatted;
      BodyLogsDeeper(cfg, id, length, b.rest);
      if b.first.Run? || b.first.RunIfCapable? {
        SubtestLogsDeeper(cfg, Plus(id, b.first.name), length, b.first.body);
      }
      DeeperConcat(length, CommandTrace(cfg, id, b.first), BodyTrace(cfg, id, b.rest));
    }
  }

  lemma CommandLogs(cfg: Config, id: TestID, c: Command)
    ensures OwnErrors(id, CommandTrace(cfg, id, c)) == LoggedAs(if c.Errorf? then [Message(c.message)] else [])
  {
    hide ErrorFormatting.Reformatted;
    if c.Run? || c.RunIfCapable? {
      hide SubtestTrace;
      SubtestLogsDeeper(cfg, Plus(id, c.name), |id|, c.body);
      NoOwnErrors(id, SubtestTrace(cfg, Plus(id, c.name), c.body));
    }
  }

  lemma {:induction false} BodyLogs(cfg: Config, id: TestID, b: Body)
    ensures OwnErrors(id, BodyTrace(cfg, id, b)) == LoggedAs(Reported(cfg.capabilities, b))
  {
    hide CommandTrace, LoggedAs, LoggedError, OwnErrors;
    match b
    case End =>
      NoOwnErrors(id, []);
      assert LoggedAs([]) == [] by {
        LoggedNothing();
      }
    case Then(c, rest) =>
      CommandLogs(cfg, id, c);
      BodyLogs(cfg, id, rest);
      OwnErrorsConcat(id, CommandTrace(cfg, id, c), BodyTrace(cfg, id, rest));
      LoggedAsConcat(if c.Errorf? then [Message(c.message)] else [], Reported(cfg.capabilities, rest));
  }

  lemma LoggedNothing()
    ensures LoggedAs([]) == []
  {
  }

  lemma ExitLogs(reported: seq<TestError>, ending: Ending)
    ensures LoggedAs(ExitErrors(reported, ending)) == ExitErrors(reported, ending)
  {
  }

  /** What is logged for a scope, in any tree: if it is not skipped, the errors that are recorded for it, each laid
      out, without those whose layout panics; if it is skipped, those that it reported although none are recorded. */
  lemma ScopeLogs(cfg: Config, id: TestID, b: Body)
    ensures OwnErrors(id, Trace(cfg, id, b)) == Log(cfg.capabilities, b)
  {
    hide BodyTrace, Closing, LoggedAs, OwnErrors, Reported, EndingOf, ExitErrors;
    var caps := cfg.capabilities;
    BodyLogs(cfg, id, b);
    ClosingLogs(cfg, id, b);
    OwnErrorsConcat(id, BodyTrace(cfg, id, b), Closing(cfg, id, b));
    ExitLogs(Reported(caps, b), EndingOf(caps, b));
    LoggedAsConcat(Reported(caps, b), ExitErrors(Reported(caps, b), EndingOf(caps, b)));
  }

  /** A scope that skips has laid out every text that it reported: the log of a skipped scope has them all. */
  lemma {:induction false} SkippedLogsAll(capabilities: seq<string>, b: Body)
    requires EndingOf(capabilities, b).SkippedBecause?
    ensures |LoggedAs(Reported(capabilities, b))| == |Reported(capabilities, b)|
  {
    var c := b.first;
    if Exit(capabilities, c).None? {
      SkippedLogsAll(capabilities, b.rest);
      LoggedAsConcat(if c.Errorf? then [Message(c.message)] else [], Reported(capabilities, b.rest));
    }
  }

  // ---- The log of a run that is OK ----

  predicate IsError(e: Event) {
    e.Error?
  }

  predicate LogsAnError(trace: seq<Event>) {
    exists i | 0 <= i < |trace| :: IsError(trace[i])
  }

  lemma {:induction false} OwnErrorsAreErrors(id: TestID, trace: seq<Event>)
    requires OwnErrors(id, trace) != []
    ensures LogsAnError(trace)
  {
    if OwnError(id, trace[0]) != [] {
      assert IsError(trace[0]);
    } else {
      OwnErrorsAreErrors(id, trace[1..]);
      var i :| 0 <= i < |trace[1..]| && IsError(trace[1..][i]);
      assert IsError(trace[i + 1]);
    }
  }

  lemma LogsAnErrorConcat(a: seq<Event>, b: seq<Event>)
    ensures LogsAnError(a + b) <==> LogsAnError(a) || LogsAnError(b)
  {
    if LogsAnError(a) {
      var i :| 0 <= i < |a| && IsError(a[i]);
      assert IsError((a + b)[i]);
    }
    if LogsAnError(b) {
      var i :| 0 <= i < |b| && IsError(b[i]);
      assert IsError((a + b)[|a| + i]);
    }
    if LogsAnError(a + b) {
      var i :| 0 <= i < |a + b| && IsError((a + b)[i]);
      assert if i < |a| then IsError(a[i]) else IsError(b[i - |a|]);
    }
  }

  lemma {:induction false} ErrorsAreOwn(id: TestID, trace: seq<Event>)
    requires OnlyErrorsOf(id, trace)
    ensures LogsAnError(trace) <==> OwnErrors(id, trace) != []
  {
    if trace != [] {
      ErrorsAreOwn(id, trace[1..]);
      assert trace == [trace[0]] + trace[1..];
      LogsAnErrorConcat([trace[0]], trace[1..]);
      assert LogsAnError([trace[0]]) <==> IsError([trace[0]][0]);
    }
  }

  /** An error in the log of a scope and everything below it comes from a scope that is executed. */
  lemma {:induction false} ErrorHasScope(cfg: Config, id: TestID, b: Body) returns (sub: TestID, s: Body)
    requires LogsAnError(Trace(cfg, id, b))
    ensures Executes(cfg, id, b, sub, s) && Log(cfg.capabilities, s) != []
    decreases b, 1
  {
    hide Log, BodyTrace, Closing;
    if Log(cfg.capabilities, b) != [] {
      return id, b;
    }
    ScopeLogs(cfg, id, b);
    OwnErrorsConcat(id, BodyTrace(cfg, id, b), Closing(cfg, id, b));
    ClosingLogs(cfg, id, b);
    ErrorsAreOwn(id, Closing(cfg, id, b));
    LogsAnErrorConcat(BodyTrace(cfg, id, b), Closing(cfg, id, b));
    sub, s := ErrorHasScopeBelow(cfg, id, b);
  }

  lemma {:induction false} ErrorHasScopeBelow(cfg: Config, id: TestID, b: Body) returns (sub: TestID, s: Body)
    requires LogsAnError(BodyTrace(cfg, id, b)) && OwnErrors(id, BodyTrace(cfg, id, b)) == []
    ensures ExecutesBelow(cfg, id, b, sub, s) && Log(cfg.capabilities, s) != []
    decreases b, 0
  {
    hide Log, CommandTrace, OwnErrors;
    var c, rest := b.first, b.rest;
    var tail := if Exit(cfg.capabilities, c).Some? then [] else BodyTrace(cfg, id, rest);
    assert BodyTrace(cfg, id, b) == CommandTrace(cfg, id, c) + tail;
    OwnErrorsConcat(id, CommandTrace(cfg, id, c), tail);
    LogsAnErrorConcat(CommandTrace(cfg, id, c), tail);
    if c.Errorf? {
      ErrorfLogsItself(cfg, id, c.message);
    }
    if LogsAnError(CommandTrace(cfg, id, c)) {
      ErrorInSubtest(cfg, id, c);
      sub, s := ErrorHasScope(cfg, Plus(id, c.name), c.body);
    } else {
      sub, s := ErrorHasScopeBelow(cfg, id, rest);
    }
  }

  lemma ErrorfLogsItself(cfg: Config, id: TestID, message: string)
    ensures LogsAnError(CommandTrace(cfg, id, Errorf(message)))
      ==> OwnErrors(id, CommandTrace(cfg, id, Errorf(message))) != []
  {
    hide ErrorFormatting.Reformatted;
    ErrorsAreOwn(id, CommandTrace(cfg, id, Errorf(message)));
  }

  lemma ErrorInSubtest(cfg: Config, id: TestID, c: Command)
    requires !c.Errorf? && LogsAnError(CommandTrace(cfg, id, c))
    ensures RunsSubtest(cfg, id, c) && LogsAnError(Trace(cfg, Plus(id, c.name), c.body))
  {
    hide Trace, LastEvent;
    var trace := CommandTrace(cfg, id, c);
    var i :| 0 <= i < |trace| && IsError(trace[i]);
    if RunsSubtest(cfg, id, c) {
      var child := Plus(id, c.name);
      LastIsNoError(cfg.capabilities, child, c.body);
      assert trace == [Started(child)] + Trace(cfg, child, c.body) + [LastEvent(cfg.capabilities, child, c.body)];
      assert trace[i] == Trace(cfg, child, c.body)[i - 1];
    }
  }

  lemma LastIsNoError(capabilities: seq<string>, id: TestID, b: Body)
    ensures !LastEvent(capabilities, id, b).Error?
  {
  }

  lemma LogOfScopeShows(cfg: Config, b: Body, sub: TestID, s: Body)
    requires Executes(cfg, [], b, sub, s) && Log(cfg.capabilities, s) != []
    ensures LogsAnError(Trace(cfg, [], b))
  {
    hide Log, Trace, Executes;
    var pre, post := ScopesInRuns.ScopeIsOnePiece(cfg, b, sub, s);
    ScopeLogs(cfg, sub, s);
    OwnErrorsAreErrors(sub, Trace(cfg, sub, s));
    LogsAnErrorConcat(pre, Trace(cfg, sub, s));
    LogsAnErrorConcat(pre + Trace(cfg, sub, s), post);
  }

  /** A scope that reports a failure and is skipped after all. */
  ghost predicate SkipsAfterError(cfg: Config, b: Body, sub: TestID, s: Body) {
    && Executes(cfg, [], b, sub, s)
    && EndingOf(cfg.capabilities, s).SkippedBecause?
    && Reported(cfg.capabilities, s) != []
  }

  lemma QuietUnlessSkipped(cfg: Config, b: Body, sub: TestID, s: Body)
    requires Results(Tests(cfg, [], b), WithErrors(Tests(cfg, [], b))).OK()
    requires Executes(cfg, [], b, sub, s) && !EndingOf(cfg.capabilities, s).SkippedBecause?
    ensures Log(cfg.capabilities, s) == []
  {
    hide Executes, Tests, EndingOf;
    var own := TestResult(sub, Errors(cfg.capabilities, s));
    assert Reports(cfg, [], b, own, s);
    ListedIff(cfg, [], b, own);
    OKIff(Tests(cfg, [], b));
  }

  /** A run that is OK may have logged errors all the same: it has if and only if some scope that it executed reported
      a failure and was skipped after that. */
  lemma OKRunLogsAnErrorIff(cfg: Config, b: Body)
    requires Results(Tests(cfg, [], b), WithErrors(Tests(cfg, [], b))).OK()
    ensures LogsAnError(Trace(cfg, [], b)) <==> exists sub, s :: SkipsAfterError(cfg, b, sub, s)
  {
    if LogsAnError(Trace(cfg, [], b)) {
      var sub, s := ErrorHasScope(cfg, [], b);
      if !EndingOf(cfg.capabilities, s).SkippedBecause? {
        QuietUnlessSkipped(cfg, b, sub, s);
      }
      LoggedNothing();
      assert SkipsAfterError(cfg, b, sub, s);
    } else {
      forall sub, s ensures !SkipsAfterError(cfg, b, sub, s) {
        if SkipsAfterError(cfg, b, sub, s) {
          SkippedLogsAll(cfg.capabilities, s);
          LogOfScopeShows(cfg, b, sub, s);
        }
      }
    }
  }

  /** A run that fails an assertion and then skips is OK and lists no test, and has logged the failure. */
  lemma FailureThenSkipIsOK(cfg: Config, message: string)
    requires '\n' !in message
    ensures var b := Then(Errorf(message), Then(Skip, End));
      Tests(cfg, [], b) == [] && Trace(cfg, [], b) == [Error([], Message(message))]
  {
    hide ErrorFormatting.Reformatted, EndingOf, Tests, SubtestResults, Trace, BodyTrace;
    hide Reported, Registered, WithErrors;
    var errorf: Command, skip: Command := Errorf(message), Skip;
    ErrorFormatting.OneLineStays(message);
    BodyLeaves(cfg, [], skip, End);
    BodyContinues(cfg, [], errorf, Then(skip, End));
    ScopeSkipped(cfg, [], Then(errorf, Then(skip, End)));
    assert CommandTrace(cfg, [], errorf) + [] == CommandTrace(cfg, [], errorf) == [Error([], Message(message))];
  }
}
