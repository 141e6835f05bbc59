/** What every run of every test tree looks like from outside: its scopes open and close like brackets, each scope
    that is not skipped is recorded once, and its cleanups come after that. */
module TraceShape {
  import opened Text
  import opened TestResults
  import opened TestScope

  // ---- An automaton that accepts only well-formed traces ----

  /** An open scope, and whether its result is recorded yet: if so, whether it failed. */
  datatype Frame = Frame(id: TestID, recorded: Option<bool>)

  /** One event, against the stack of open scopes; `None` when the event is out of place. */
  function StepEvent(stack: seq<Frame>, e: Event): Option<seq<Frame>> {
    if stack == [] then None
    else
      var outer, top := stack[..|stack| - 1], stack[|stack| - 1];
      match e
      case Started(id) =>
        if id != [] && Frame(id[..|id| - 1], None) == top then Some(stack + [Frame(id, None)]) else None
      case Error(id, _) =>
        if Frame(id, None) == top then Some(stack) else None
      case Recorded(result) =>
        if Frame(result.id, None) == top then Some(outer + [Frame(result.id, Some(result.errors != []))]) else None
      case CleanedUp(id, _) =>
        if top.id == id && top.recorded.Some? then Some(stack) else None
      case Finished(id, failed) =>
        if outer != [] && Frame(id, Some(failed)) == top then Some(outer) else None
      case Skipped(id, _) =>
        if outer != [] && Frame(id, None) == top then Some(outer) else None
  }

  function Replay(stack: seq<Frame>, trace: seq<Event>): Option<seq<Frame>>
    decreases |trace|
  {
    if trace == [] then Some(stack)
    else
      match StepEvent(stack, trace[0])
      case None => None
      case Some(next) => Replay(next, trace[1..])
  }

  lemma {:induction false} ReplayConcat(stack: seq<Frame>, a: seq<Event>, b: seq<Event>)
    requires Replay(stack, a).Some?
    ensures Replay(stack, a + b) == Replay(Replay(stack, a).value, b)
    decreases |a|
  {
    if a == [] {
      assert a + b == b;
    } else {
      assert (a + b)[1..] == a[1..] + b;
      ReplayConcat(StepEvent(stack, a[0]).value, a[1..], b);
    }
  }

  lemma {:induction false} ReplayOne(stack: seq<Frame>, e: Event)
    requires StepEvent(stack, e).Some?
    ensures Replay(stack, [e]) == StepEvent(stack, e)
  {
    assert [e][1..] == [];
  }

  lemma {:induction false} ErrorsReplay(stack: seq<Frame>, id: TestID, errs: seq<TestError>)
    requires stack != [] && stack[|stack| - 1] == Frame(id, None)
    ensures Replay(stack, ErrorEvents(id, errs)) == Some(stack)
  {
    if errs != [] {
      ErrorsReplay(stack, id, errs[1..]);
      ReplayOne(stack, Error(id, errs[0]));
      ReplayConcat(stack, [Error(id, errs[0])], ErrorEvents(id, errs[1..]));
    }
  }

  lemma {:induction false} CleanupsReplay(stack: seq<Frame>, id: TestID, tokens: seq<nat>)
    requires stack != [] && stack[|stack| - 1].id == id && stack[|stack| - 1].recorded.Some?
    ensures Replay(stack, CleanedUpAll(id, tokens)) == Some(stack)
  {
    if tokens != [] {
      var e, init := CleanedUp(id, tokens[|tokens| - 1]), tokens[..|tokens| - 1];
      CleanupsReplay(stack, id, init);
      ReplayOne(stack, e);
      ReplayConcat(stack, [e], CleanedUpAll(id, init));
    }
  }

  /** How a scope leaves its frame: recorded, with its verdict, unless it is skipped. */
  function ClosedFrame(capabilities: seq<string>, id: TestID, b: Body): Frame {
    Frame(id, if EndingOf(capabilities, b).SkippedBecause? then None else Some(Errors(capabilities, b) != []))
  }

  lemma ClosingReplays(cfg: Config, outer: seq<Frame>, id: TestID, b: Body)
    ensures Replay(outer + [Frame(id, None)], Closing(cfg, id, b))
      == Some(outer + [ClosedFrame(cfg.capabilities, id, b)])
  {
    var caps := cfg.capabilities;
    if !EndingOf(caps, b).SkippedBecause? {
      var stack, closed := outer + [Frame(id, None)], outer + [ClosedFrame(caps, id, b)];
      var errs := ErrorEvents(id, ExitErrors(Reported(caps, b), EndingOf(caps, b)));
      var record := Recorded(TestResult(id, Errors(caps, b)));
      ErrorsReplay(stack, id, ExitErrors(Reported(caps, b), EndingOf(caps, b)));
      assert stack[..|stack| - 1] == outer;
      ReplayOne(stack, record);
      ReplayConcat(stack, errs, [record]);
      CleanupsReplay(closed, id, Registered(caps, b));
      ReplayConcat(stack, errs + [record], CleanedUpAll(id, Registered(caps, b)));
    }
  }

  lemma {:induction false} ScopeReplays(cfg: Config, outer: seq<Frame>, id: TestID, b: Body)
    ensures Replay(outer + [Frame(id, None)], Trace(cfg, id, b)) == Some(outer + [ClosedFrame(cfg.capabilities, id, b)])
    decreases b, 1
  {
    BodyReplays(cfg, outer + [Frame(id, None)], id, b);
    ClosingReplays(cfg, outer, id, b);
    ReplayConcat(outer + [Frame(id, None)], BodyTrace(cfg, id, b), Closing(cfg, id, b));
  }

  lemma {:induction false} BodyReplays(cfg: Config, stack: seq<Frame>, id: TestID, b: Body)
    requires stack != [] && stack[|stack| - 1] == Frame(id, None)
    ensures Replay(stack, BodyTrace(cfg, id, b)) == Some(stack)
    decreases b, 0
  {
    match b
    case End =>
    case Then(c, rest) =>
      CommandReplays(cfg, stack, id, c);
      BodyReplays(cfg, stack, id, rest);
      ReplayConcat(stack, CommandTrace(cfg, id, c), BodyTrace(cfg, id, rest));
  }

  lemma {:induction false} CommandReplays(cfg: Config, stack: seq<Frame>, id: TestID, c: Command)
    requires stack != [] && stack[|stack| - 1] == Frame(id, None)
    ensures Replay(stack, CommandTrace(cfg, id, c)) == Some(stack)
    decreases c, 0
  {
    match c
    case Errorf(m) =>
      var text := ErrorFormatting.Reformatted(m);
      if text.Some? {
        ReplayOne(stack, Error(id, Message(text.value)));
      }
    case Run(name, body) => SubtestReplays(cfg, stack, Plus(id, name), body);
    case RunIfCapable(_, name, body) => SubtestReplays(cfg, stack, Plus(id, name), body);
    case _ =>
  }

  lemma {:induction false} SubtestReplays(cfg: Config, stack: seq<Frame>, id: TestID, b: Body)
    requires stack != [] && id != [] && stack[|stack| - 1] == Frame(id[..|id| - 1], None)
    ensures Replay(stack, SubtestTrace(cfg, id, b)) == Some(stack)
    decreases b, 2
  {
    var inner := stack + [Frame(id, None)];
    assert inner[..|inner| - 1] == stack;
    ReplayOne(stack, Started(id));
    if !Allowed(cfg, id) {
      ReplayOne(inner, Skipped(id, ExcludedByFilter));
      ReplayConcat(stack, [Started(id)], [Skipped(id, ExcludedByFilter)]);
    } else {
      var closed := stack + [ClosedFrame(cfg.capabilities, id, b)];
      var last := LastEvent(cfg.capabilities, id, b);
      ScopeReplays(cfg, stack, id, b);
      ReplayConcat(stack, [Started(id)], Trace(cfg, id, b));
      assert closed[..|closed| - 1] == stack;
      ReplayOne(closed, last);
      ReplayConcat(stack, [Started(id)] + Trace(cfg, id, b), [last]);
    }
  }

  /** Every run, whatever its bodies do: each start is closed by one finish or skip, properly nested; errors name
      the innermost open scope, and come before its result; a scope that finishes has been recorded once, with the
      verdict it finishes with; a skipped scope is not recorded; cleanups come after the record. */
  lemma RunIsWellFormed(cfg: Config, b: Body)
    ensures Replay([Frame([], None)], Trace(cfg, [], b)) == Some([ClosedFrame(cfg.capabilities, [], b)])
  {
    ScopeReplays(cfg, [], [], b);
    assert [] + [Frame([], None)] == [Frame([], None)];
    assert [] + [ClosedFrame(cfg.capabilities, [], b)] == [ClosedFrame(cfg.capabilities, [], b)];
  }

  /** What the automaton accepts is balanced: scopes that end, and scopes left open, are all the scopes that start. */
  lemma {:induction false} ReplayBalances(stack: seq<Frame>, trace: seq<Event>)
    requires Replay(stack, trace).Some?
    ensures |stack| + Starts(trace) == |Replay(stack, trace).value| + Ends(trace)
    decreases |trace|
  {
    if trace != [] {
      ReplayBalances(StepEvent(stack, trace[0]).value, trace[1..]);
    }
  }

  function Starts(trace: seq<Event>): nat {
    if trace == [] then 0 else (if trace[0].Started? then 1 else 0) + Starts(trace[1..])
  }

  function Ends(trace: seq<Event>): nat {
    if trace == [] then 0 else (if trace[0].Finished? || trace[0].Skipped? then 1 else 0) + Ends(trace[1..])
  }

  lemma StartsEqualEnds(cfg: Config, b: Body)
    ensures Starts(Trace(cfg, [], b)) == Ends(Trace(cfg, [], b))
  {
    RunIsWellFormed(cfg, b);
    ReplayBalances([Frame([], None)], Trace(cfg, [], b));
  }

  // ---- The results are what the trace records ----

  function RecordedIn(trace: seq<Event>): seq<TestResult> {
    if trace == [] then []
    else (if trace[0].Recorded? then [trace[0].result] else []) + RecordedIn(trace[1..])
  }

  lemma {:induction false} RecordedConcat(a: seq<Event>, b: seq<Event>)
    ensures RecordedIn(a + b) == RecordedIn(a) + RecordedIn(b)
  {
    if a == [] {
      assert a + b == b;
    } else {
      RecordedConcat(a[1..], b);
      assert (a + b)[0] == a[0] && (a + b)[1..] == a[1..] + b;
      var head := if a[0].Recorded? then [a[0].result] else [];
      assert head + (RecordedIn(a[1..]) + RecordedIn(b)) == head + RecordedIn(a[1..]) + RecordedIn(b);
    }
  }

  lemma {:induction false} NothingRecorded(trace: seq<Event>)
    requires forall i | 0 <= i < |trace| :: !trace[i].Recorded?
    ensures RecordedIn(trace) == []
  {
    if trace != [] {
      NothingRecorded(trace[1..]);
    }
  }

  lemma {:induction false} ErrorEventsOnly(id: TestID, errs: seq<TestError>)
    ensures |ErrorEvents(id, errs)| == |errs|
    ensures forall i | 0 <= i < |errs| :: ErrorEvents(id, errs)[i] == Error(id, errs[i])
  {
    if errs != [] {
      ErrorEventsOnly(id, errs[1..]);
    }
  }

  /** Cleanups are called in reverse order of registration, each once. */
  lemma {:induction false} CleanupsReversed(id: TestID, tokens: seq<nat>)
    ensures |CleanedUpAll(id, tokens)| == |tokens|
    ensures forall i | 0 <= i < |tokens| :: CleanedUpAll(id, tokens)[i] == CleanedUp(id, tokens[|tokens| - 1 - i])
  {
    if tokens != [] {
      CleanupsReversed(id, tokens[..|tokens| - 1]);
    }
  }

  lemma ClosingRecords(cfg: Config, id: TestID, b: Body)
    ensures RecordedIn(Closing(cfg, id, b)) ==
      if EndingOf(cfg.capabilities, b).SkippedBecause? then [] else [TestResult(id, Errors(cfg.capabilities, b))]
  {
    var caps := cfg.capabilities;
    if !EndingOf(caps, b).SkippedBecause? {
      var exit := ExitErrors(Reported(caps, b), EndingOf(caps, b));
      var record := Recorded(TestResult(id, Errors(caps, b)));
      ErrorEventsOnly(id, exit);
      NothingRecorded(ErrorEvents(id, exit));
      CleanupsReversed(id, Registered(caps, b));
      NothingRecorded(CleanedUpAll(id, Registered(caps, b)));
      RecordedConcat(ErrorEvents(id, exit), [record]);
      RecordedConcat(ErrorEvents(id, exit) + [record], CleanedUpAll(id, Registered(caps, b)));
      assert [record][1..] == [];
    }
  }

  lemma {:induction false} ScopeRecords(cfg: Config, id: TestID, b: Body)
    ensures RecordedIn(Trace(cfg, id, b)) == Tests(cfg, id, b)
    decreases b, 1
  {
    BodyRecords(cfg, id, b);
    ClosingRecords(cfg, id, b);
    RecordedConcat(BodyTrace(cfg, id, b), Closing(cfg, id, b));
  }

  lemma {:induction false} BodyRecords(cfg: Config, id: TestID, b: Body)
    ensures RecordedIn(BodyTrace(cfg, id, b)) == SubtestResults(cfg, id, b)
    decreases b, 0
  {
    match b
    case End =>
    case Then(c, rest) =>
      CommandRecords(cfg, id, c);
      BodyRecords(cfg, id, rest);
      RecordedConcat(CommandTrace(cfg, id, c), BodyTrace(cfg, id, rest));
  }

  lemma {:induction false} CommandRecords(cfg: Config, id: TestID, c: Command)
    ensures RecordedIn(CommandTrace(cfg, id, c)) == CommandResults(cfg, id, c)
    decreases c, 0
  {
    match c
    case Errorf(_) => NothingRecorded(CommandTrace(cfg, id, c));
    case Run(name, body) => SubtestRecords(cfg, Plus(id, name), body);
    case RunIfCapable(_, name, body) => SubtestRecords(cfg, Plus(id, name), body);
    case _ =>
  }

  lemma {:induction false} SubtestRecords(cfg: Config, id: TestID, b: Body)
    ensures RecordedIn(SubtestTrace(cfg, id, b)) == if Allowed(cfg, id) then Tests(cfg, id, b) else []
    decreases b, 2
  {
    if !Allowed(cfg, id) {
      NothingRecorded(SubtestTrace(cfg, id, b));
    } else {
      var last := [LastEvent(cfg.capabilities, id, b)];
      NothingRecorded([Started(id)]);
      NothingRecorded(last);
      ScopeRecords(cfg, id, b);
      RecordedConcat([Started(id)], Trace(cfg, id, b));
      RecordedConcat([Started(id)] + Trace(cfg, id, b), last);
    }
  }

  // ---- Cleanups ----

  /** An event of a scope strictly inside `id`, or one that neither records nor cleans up. */
  predicate Inside(id: TestID, e: Event) {
    && (e.CleanedUp? ==> |e.id| > |id|)
    && (e.Recorded? ==> |e.result.id| > |id|)
  }

  predicate AllInside(id: TestID, trace: seq<Event>) {
    forall i | 0 <= i < |trace| :: Inside(id, trace[i])
  }

  lemma {:induction false} BodyInside(cfg: Config, id: TestID, outer: TestID, b: Body)
    requires |outer| <= |id|
    ensures AllInside(outer, BodyTrace(cfg, id, b))
    decreases b, 0
  {
    match b
    case End =>
    case Then(c, rest) =>
      BodyInside(cfg, id, outer, rest);
      CommandInside(cfg, id, outer, c);
  }

  lemma {:induction false} CommandInside(cfg: Config, id: TestID, outer: TestID, c: Command)
    requires |outer| <= |id|
    ensures AllInside(outer, CommandTrace(cfg, id, c))
    decreases c, 0
  {
    match c
    case Run(name, body) => SubtestInside(cfg, Plus(id, name), outer, body);
    case RunIfCapable(_, name, body) => SubtestInside(cfg, Plus(id, name), outer, body);
    case _ =>
  }

  lemma ClosingInside(cfg: Config, id: TestID, outer: TestID, b: Body)
    requires |outer| < |id|
    ensures AllInside(outer, Closing(cfg, id, b))
  {
    var caps := cfg.capabilities;
    if !EndingOf(caps, b).SkippedBecause? {
      ErrorEventsOnly(id, ExitErrors(Reported(caps, b), EndingOf(caps, b)));
      CleanupsReversed(id, Registered(caps, b));
      assert AllInside(outer, ErrorEvents(id, ExitErrors(Reported(caps, b), EndingOf(caps, b))));
      assert AllInside(outer, CleanedUpAll(id, Registered(caps, b)));
    }
  }

  lemma {:induction false} SubtestInside(cfg: Config, id: TestID, outer: TestID, b: Body)
    requires |outer| < |id|
    ensures AllInside(outer, SubtestTrace(cfg, id, b))
    decreases b, 1
  {
    BodyInside(cfg, id, outer, b);
    ClosingInside(cfg, id, outer, b);
    assert AllInside(outer, Trace(cfg, id, b));
  }

  /** In the trace of a scope that is not skipped there is one place where its result is recorded; everything before
      it belongs to the body and its subtests, with their own records and cleanups; what follows it are the scope's
      cleanups, each once, in reverse order of registration, and nothing else. */
  lemma CleanupsFollowTheRecord(cfg: Config, id: TestID, b: Body) returns (k: nat)
    requires !EndingOf(cfg.capabilities, b).SkippedBecause?
    ensures var trace, tokens := Trace(cfg, id, b), Registered(cfg.capabilities, b);
      && |trace| == k + 1 + |tokens|
      && trace[k] == Recorded(TestResult(id, Errors(cfg.capabilities, b)))
      && (forall i | 0 <= i < k :: Inside(id, trace[i]))
      && (forall i | k < i < |trace| :: trace[i] == CleanedUp(id, tokens[|trace| - 1 - i]))
  {
    var caps := cfg.capabilities;
    var exit := ErrorEvents(id, ExitErrors(Reported(caps, b), EndingOf(caps, b)));
    BodyInside(cfg, id, id, b);
    ErrorEventsOnly(id, ExitErrors(Reported(caps, b), EndingOf(caps, b)));
    CleanupsReversed(id, Registered(caps, b));
    k := |BodyTrace(cfg, id, b)| + |exit|;
  }

  /** The cleanups of the scope itself that a trace calls. */
  function OwnCleanups(id: TestID, trace: seq<Event>): seq<nat> {
    if trace == [] then []
    else
      OwnCleanup(id, trace[0]) + OwnCleanups(id, trace[1..])
  }

  function OwnCleanup(id: TestID, e: Event): seq<nat> {
    if e.CleanedUp? && e.id == id then [e.token] else []
  }

  lemma {:induction false} OwnCleanupsConcat(id: TestID, a: seq<Event>, b: seq<Event>)
    ensures OwnCleanups(id, a + b) == OwnCleanups(id, a) + OwnCleanups(id, b)
  {
    if a == [] {
      assert a + b == b;
    } else {
      hide OwnCleanup;
      var ab, head := a + b, OwnCleanup(id, a[0]);
      assert ab[0] == a[0] && ab[1..] == a[1..] + b;
      assert OwnCleanups(id, ab) == head + OwnCleanups(id, ab[1..]);
      OwnCleanupsConcat(id, a[1..], b);
      var tail := OwnCleanups(id, a[1..]);
      assert head + (tail + OwnCleanups(id, b)) == head + tail + OwnCleanups(id, b);
    }
  }

  lemma {:induction false} NoOwnCleanups(id: TestID, trace: seq<Event>)
    requires forall i | 0 <= i < |trace| :: trace[i].CleanedUp? ==> trace[i].id != id
    ensures OwnCleanups(id, trace) == []
  {
    if trace != [] {
      NoOwnCleanups(id, trace[1..]);
    }
  }

  function Reversed(tokens: seq<nat>): (r: seq<nat>)
    ensures |r| == |tokens|
  {
    if tokens == [] then [] else [tokens[|tokens| - 1]] + Reversed(tokens[..|tokens| - 1])
  }

  lemma {:induction false} OwnCleanupsReversed(id: TestID, tokens: seq<nat>)
    ensures OwnCleanups(id, CleanedUpAll(id, tokens)) == Reversed(tokens)
  {
    if tokens != [] {
      var init, last := tokens[..|tokens| - 1], tokens[|tokens| - 1];
      OwnCleanupsReversed(id, init);
      assert CleanedUpAll(id, tokens)[1..] == CleanedUpAll(id, init);
    }
  }

  /** `Defer` is documented to run its function when the scope exits for any reason. It does so, for all of
      them, in reverse order, if and only if the scope is not skipped or has registered none. */
  lemma CleanupsRunIff(cfg: Config, id: TestID, b: Body)
    ensures OwnCleanups(id, Trace(cfg, id, b)) == Reversed(Registered(cfg.capabilities, b))
      <==> !EndingOf(cfg.capabilities, b).SkippedBecause? || Registered(cfg.capabilities, b) == []
  {
    var caps := cfg.capabilities;
    var tokens := Registered(caps, b);
    BodyInside(cfg, id, id, b);
    NoOwnCleanups(id, BodyTrace(cfg, id, b));
    OwnCleanupsConcat(id, BodyTrace(cfg, id, b), Closing(cfg, id, b));
    if !EndingOf(caps, b).SkippedBecause? {
      var exit := ErrorEvents(id, ExitErrors(Reported(caps, b), EndingOf(caps, b)));
      var before := exit + [Recorded(TestResult(id, Errors(caps, b)))];
      ErrorEventsOnly(id, ExitErrors(Reported(caps, b), EndingOf(caps, b)));
      NoOwnCleanups(id, before);
      OwnCleanupsConcat(id, before, CleanedUpAll(id, tokens));
      OwnCleanupsReversed(id, tokens);
    } else {
      assert |Reversed(tokens)| == |tokens|;
    }
  }

  /** A scope that registers a cleanup and then skips leaves it uncalled. */
  lemma SkippedScopeKeepsItsCleanup(cfg: Config, id: TestID, token: nat)
    ensures OwnCleanups(id, Trace(cfg, id, Then(Defer(token), Then(Skip, End)))) == []
    ensures Registered(cfg.capabilities, Then(Defer(token), Then(Skip, End))) == [token]
  {
    var b := Then(Defer(token), Then(Skip, End));
    assert BodyTrace(cfg, id, b) == [];
    assert EndingOf(cfg.capabilities, b) == SkippedBecause(Given(""));
  }
}
