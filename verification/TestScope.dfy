/** The test runner: framework/ldtest/test_scope.go. A test body is the list of things it does to its scope, in
    the order in which it does them. */
module TestScope {
  import opened Text
  import opened TestResults
  import ErrorFormatting

  datatype Command =
    | Errorf(message: string)
    | FailNow
    | Skip
    | SkipWithReason(reason: string)
    | RequireCapability(name: string)
    | Panic(value: string)                                            // any panic that is not the scope's own
    | Defer(token: nat)                                               // a cleanup, known by its token
    | Run(name: string, body: Body)
    | RunIfCapable(capability: string, name: string, body: Body)      // Run, guarded by Capabilities().Has

  datatype Body = End | Then(first: Command, rest: Body)

  datatype SkipReason = Given(reason: string) | MissingCapability(name: string) | ExcludedByFilter

  /** What the run does that can be observed, in order: calls of the test logger, results recorded, and
      cleanups called. */
  datatype Event =
    | Started(id: TestID)
    | Error(id: TestID, err: TestError)
    | Finished(id: TestID, failed: bool)
    | Skipped(id: TestID, why: SkipReason)
    | Recorded(result: TestResult)
    | CleanedUp(id: TestID, token: nat)

  datatype Config = Config(filter: Option<TestID -> bool>, capabilities: seq<string>)

  const INDEX_PANIC: string := "runtime error: index out of range [0] with length 0"

  // ---- What a body amounts to, read off the tree ----

  /** How a body ends: it runs to its end, or one of its commands leaves it. */
  datatype Ending = Completed | FailedNow | SkippedBecause(why: SkipReason) | Crashed(value: string)

  function Exit(capabilities: seq<string>, c: Command): Option<Ending> {
    match c
    case Errorf(m) => if ErrorFormatting.Reformatted(m).None? then Some(Crashed(INDEX_PANIC)) else None
    case FailNow => Some(FailedNow)
    case Skip => Some(SkippedBecause(Given("")))
    case SkipWithReason(reason) => Some(SkippedBecause(Given(reason)))
    case RequireCapability(name) => if name in capabilities then None else Some(SkippedBecause(MissingCapability(name)))
    case Panic(value) => Some(Crashed(value))
    case Defer(_) => None
    case Run(_, _) => None
    case RunIfCapable(_, _, _) => None
  }

  function EndingOf(capabilities: seq<string>, b: Body): Ending {
    match b
    case End => Completed
    case Then(c, rest) =>
      match Exit(capabilities, c)
      case Some(ending) => ending
      case None => EndingOf(capabilities, rest)
  }

  /** The texts a body reports with Errorf before it ends. */
  function Reported(capabilities: seq<string>, b: Body): seq<TestError> {
    match b
    case End => []
    case Then(c, rest) =>
      var now := if c.Errorf? then [Message(c.message)] else [];
      if Exit(capabilities, c).Some? then now else now + Reported(capabilities, rest)
  }

  /** The cleanups a body registers before it ends, in order of registration. */
  function Registered(capabilities: seq<string>, b: Body): seq<nat> {
    match b
    case End => []
    case Then(c, rest) =>
      var now := if c.Defer? then [c.token] else [];
      if Exit(capabilities, c).Some? then now else now + Registered(capabilities, rest)
  }

  /** The error that is added for the way a body ends. */
  function ExitErrors(reported: seq<TestError>, ending: Ending): seq<TestError> {
    match ending
    case FailedNow => if reported == [] then [NoFailureMessage] else []
    case Crashed(value) => [UnexpectedPanic(value)]
    case _ => []
  }

  function Errors(capabilities: seq<string>, b: Body): seq<TestError> {
    Reported(capabilities, b) + ExitErrors(Reported(capabilities, b), EndingOf(capabilities, b))
  }

  predicate Allowed(cfg: Config, id: TestID) {
    cfg.filter.None? || cfg.filter.value(id)
  }

  /** The results of a scope's subtests, in the order in which they end, then its own unless it is skipped. */
  function Tests(cfg: Config, id: TestID, b: Body): seq<TestResult>
    decreases b, 1
  {
    var subtests := SubtestResults(cfg, id, b);
    if EndingOf(cfg.capabilities, b).SkippedBecause? then subtests
    else subtests + [TestResult(id, Errors(cfg.capabilities, b))]
  }

  function SubtestResults(cfg: Config, id: TestID, b: Body): seq<TestResult>
    decreases b, 0
  {
    match b
    case End => []
    case Then(c, rest) =>
      var now := CommandResults(cfg, id, c);
      if Exit(cfg.capabilities, c).Some? then now else now + SubtestResults(cfg, id, rest)
  }

  function CommandResults(cfg: Config, id: TestID, c: Command): seq<TestResult>
    decreases c, 0
  {
    match c
    case Run(name, body) =>
      if Allowed(cfg, Plus(id, name)) then Tests(cfg, Plus(id, name), body) else []
    case RunIfCapable(capability, name, body) =>
      if capability in cfg.capabilities && Allowed(cfg, Plus(id, name)) then Tests(cfg, Plus(id, name), body) else []
    case _ => []
  }

  // ---- The trace of a run ----

  function CleanedUpAll(id: TestID, tokens: seq<nat>): seq<Event> {
    if tokens == [] then []
    else [CleanedUp(id, tokens[|tokens| - 1])] + CleanedUpAll(id, tokens[..|tokens| - 1])
  }

  function ErrorEvents(id: TestID, errs: seq<TestError>): seq<Event> {
    if errs == [] then [] else [Error(id, errs[0])] + ErrorEvents(id, errs[1..])
  }

  /** What happens when a scope's body has ended. */
  function Closing(cfg: Config, id: TestID, b: Body): seq<Event> {
    var ending, reported := EndingOf(cfg.capabilities, b), Reported(cfg.capabilities, b);
    if ending.SkippedBecause? then []
    else
      ErrorEvents(id, ExitErrors(reported, ending))
      + [Recorded(TestResult(id, Errors(cfg.capabilities, b)))]
      + CleanedUpAll(id, Registered(cfg.capabilities, b))
  }

  function Trace(cfg: Config, id: TestID, b: Body): seq<Event>
    decreases b, 1
  {
    BodyTrace(cfg, id, b) + Closing(cfg, id, b)
  }

  function BodyTrace(cfg: Config, id: TestID, b: Body): seq<Event>
    decreases b, 0
  {
    match b
    case End => []
    case Then(c, rest) =>
      var now := CommandTrace(cfg, id, c);
      if Exit(cfg.capabilities, c).Some? then now else now + BodyTrace(cfg, id, rest)
  }

  function CommandTrace(cfg: Config, id: TestID, c: Command): seq<Event>
    decreases c, 0
  {
    match c
    case Errorf(m) =>
      (match ErrorFormatting.Reformatted(m) case Some(text) => [Error(id, Message(text))] case None => [])
    case Run(name, body) => SubtestTrace(cfg, Plus(id, name), body)
    case RunIfCapable(capability, name, body) =>
      if capability in cfg.capabilities then SubtestTrace(cfg, Plus(id, name), body) else []
    case _ => []
  }

  function SubtestTrace(cfg: Config, id: TestID, b: Body): seq<Event>
    decreases b, 2
  {
    if !Allowed(cfg, id) then [Started(id), Skipped(id, ExcludedByFilter)]
    else [Started(id)] + Trace(cfg, id, b) + [LastEvent(cfg.capabilities, id, b)]
  }

  function LastEvent(capabilities: seq<string>, id: TestID, b: Body): Event {
    match EndingOf(capabilities, b)
    case SkippedBecause(why) => Skipped(id, why)
    case _ => Finished(id, Errors(capabilities, b) != [])
  }

  // ---- One command at a time ----

  /** What a run adds to the trace and to the results. */
  datatype Outputs = Outputs(trace: seq<Event>, tests: seq<TestResult>, failures: seq<TestResult>)

  const NO_OUTPUTS: Outputs := Outputs([], [], [])

  function Extend(a: Outputs, b: Outputs): Outputs {
    Outputs(a.trace + b.trace, a.tests + b.tests, a.failures + b.failures)
  }

  /** All that a command or a body adds, to the scope's own lists as well. */
  datatype Effects = Effects(errors: seq<TestError>, cleanups: seq<nat>, outputs: Outputs)

  const NO_EFFECTS: Effects := Effects([], [], NO_OUTPUTS)

  function Append(a: Effects, b: Effects): Effects {
    Effects(a.errors + b.errors, a.cleanups + b.cleanups, Extend(a.outputs, b.outputs))
  }

  function CommandOutputs(cfg: Config, id: TestID, c: Command): Outputs {
    Outputs(CommandTrace(cfg, id, c), CommandResults(cfg, id, c), WithErrors(CommandResults(cfg, id, c)))
  }

  function BodyOutputs(cfg: Config, id: TestID, b: Body): Outputs {
    Outputs(BodyTrace(cfg, id, b), SubtestResults(cfg, id, b), WithErrors(SubtestResults(cfg, id, b)))
  }

  function ScopeOutputs(cfg: Config, id: TestID, b: Body): Outputs {
    Outputs(Trace(cfg, id, b), Tests(cfg, id, b), WithErrors(Tests(cfg, id, b)))
  }

  function SubtestOutputs(cfg: Config, id: TestID, b: Body): Outputs {
    var results := if Allowed(cfg, id) then Tests(cfg, id, b) else [];
    Outputs(SubtestTrace(cfg, id, b), results, WithErrors(results))
  }

  function Events(events: seq<Event>): Outputs {
    Outputs(events, [], [])
  }

  function ResultOutputs(r: TestResult): Outputs {
    Outputs([Recorded(r)], [r], WithErrors([r]))
  }

  function CommandEffects(cfg: Config, id: TestID, c: Command): Effects {
    Effects(if c.Errorf? then [Message(c.message)] else [],
            if c.Defer? then [c.token] else [],
            CommandOutputs(cfg, id, c))
  }

  function BodyEffects(cfg: Config, id: TestID, b: Body): Effects {
    Effects(Reported(cfg.capabilities, b), Registered(cfg.capabilities, b), BodyOutputs(cfg, id, b))
  }

  lemma AppendLaws(a: Effects, b: Effects, c: Effects)
    ensures Append(Append(a, b), c) == Append(a, Append(b, c))
    ensures Append(a, NO_EFFECTS) == a
  {
  }

  /** The outputs of a scope that is not skipped: its body, the error of its ending, its result, its cleanups. */
  lemma ScopeCloses(start: Outputs, cfg: Config, id: TestID, b: Body)
    requires !EndingOf(cfg.capabilities, b).SkippedBecause?
    ensures var caps := cfg.capabilities;
      var body := Extend(start, BodyOutputs(cfg, id, b));
      var ended := Extend(body, Events(ErrorEvents(id, ExitErrors(Reported(caps, b), EndingOf(caps, b)))));
      var recorded := Extend(ended, ResultOutputs(TestResult(id, Errors(caps, b))));
      Extend(recorded, Events(CleanedUpAll(id, Registered(caps, b)))) == Extend(start, ScopeOutputs(cfg, id, b))
  {
    hide BodyOutputs, ScopeOutputs, ResultOutputs, Events, Extend, Errors, ErrorEvents, CleanedUpAll, Registered;
    var caps := cfg.capabilities;
    var body, record := BodyOutputs(cfg, id, b), ResultOutputs(TestResult(id, Errors(caps, b)));
    var exit := Events(ErrorEvents(id, ExitErrors(Reported(caps, b), EndingOf(caps, b))));
    ScopeOutputsAre(cfg, id, b);
    ExtendLaw(start, body, exit);
    ExtendLaw(start, Extend(body, exit), record);
    ExtendLaw(start, Extend(Extend(body, exit), record), Events(CleanedUpAll(id, Registered(caps, b))));
  }

  lemma ExtendLaw(a: Outputs, b: Outputs, c: Outputs)
    ensures Extend(Extend(a, b), c) == Extend(a, Extend(b, c))
  {
  }

  lemma ScopeOutputsAre(cfg: Config, id: TestID, b: Body)
    requires !EndingOf(cfg.capabilities, b).SkippedBecause?
    ensures var caps := cfg.capabilities;
      var exit := Events(ErrorEvents(id, ExitErrors(Reported(caps, b), EndingOf(caps, b))));
      var ended := Extend(BodyOutputs(cfg, id, b), exit);
      var recorded := Extend(ended, ResultOutputs(TestResult(id, Errors(caps, b))));
      ScopeOutputs(cfg, id, b) == Extend(recorded, Events(CleanedUpAll(id, Registered(caps, b))))
  {
    hide ErrorEvents, CleanedUpAll, EndingOf, Reported, Registered, Errors, SubtestResults, BodyTrace, WithErrors;
    var result := TestResult(id, Errors(cfg.capabilities, b));
    WithErrorsConcat(SubtestResults(cfg, id, b), [result]);
    assert WithErrors(SubtestResults(cfg, id, b)) + [] + WithErrors([result]) + []
      == WithErrors(SubtestResults(cfg, id, b)) + WithErrors([result]);
  }

  lemma ScopeSkipped(cfg: Config, id: TestID, b: Body)
    requires EndingOf(cfg.capabilities, b).SkippedBecause?
    ensures ScopeOutputs(cfg, id, b) == BodyOutputs(cfg, id, b)
  {
  }

  /** A body that runs to its end adds no error, and nothing to the trace for one. */
  lemma CompletedQuietly(start: Outputs, cfg: Config, id: TestID, b: Body)
    requires EndingOf(cfg.capabilities, b) == Completed
    ensures Errors(cfg.capabilities, b) == Reported(cfg.capabilities, b)
    ensures Extend(start, Events(ErrorEvents(id, ExitErrors(Reported(cfg.capabilities, b), Completed)))) == start
  {
  }

  lemma SubtestRuns(start: Outputs, cfg: Config, id: TestID, b: Body)
    requires Allowed(cfg, id)
    ensures Extend(Extend(Extend(start, Events([Started(id)])), ScopeOutputs(cfg, id, b)),
                   Events([LastEvent(cfg.capabilities, id, b)]))
      == Extend(start, SubtestOutputs(cfg, id, b))
  {
    hide Trace, Tests, LastEvent;
  }

  /** Only failures and subtests show in the outputs. */
  lemma QuietCommand(cfg: Config, id: TestID, c: Command)
    requires !c.Errorf? && !c.Run?
    requires c.RunIfCapable? ==> c.capability !in cfg.capabilities
    ensures CommandOutputs(cfg, id, c) == NO_OUTPUTS
  {
  }

  lemma ErrorfOutputs(cfg: Config, id: TestID, message: string)
    ensures CommandOutputs(cfg, id, Errorf(message)) ==
      match ErrorFormatting.Reformatted(message)
      case Some(text) => Events([Error(id, Message(text))])
      case None => NO_OUTPUTS
  {
    hide ErrorFormatting.Reformatted;
    assert CommandResults(cfg, id, Errorf(message)) == [];
  }

  lemma SubtestCommand(cfg: Config, id: TestID, c: Command)
    requires c.Run? || (c.RunIfCapable? && c.capability in cfg.capabilities)
    ensures CommandOutputs(cfg, id, c) == SubtestOutputs(cfg, Plus(id, c.name), c.body)
  {
  }

  lemma EmptyBody(cfg: Config, id: TestID)
    ensures BodyEffects(cfg, id, End) == NO_EFFECTS && EndingOf(cfg.capabilities, End) == Completed
  {
  }

  lemma BodyLeaves(cfg: Config, id: TestID, c: Command, rest: Body)
    requires Exit(cfg.capabilities, c).Some?
    ensures BodyEffects(cfg, id, Then(c, rest)) == CommandEffects(cfg, id, c)
    ensures Some(EndingOf(cfg.capabilities, Then(c, rest))) == Exit(cfg.capabilities, c)
  {
  }

  lemma BodyContinues(cfg: Config, id: TestID, c: Command, rest: Body)
    requires Exit(cfg.capabilities, c).None?
    ensures BodyEffects(cfg, id, Then(c, rest)) == Append(CommandEffects(cfg, id, c), BodyEffects(cfg, id, rest))
    ensures EndingOf(cfg.capabilities, Then(c, rest)) == EndingOf(cfg.capabilities, rest)
  {
    WithErrorsConcat(CommandResults(cfg, id, c), SubtestResults(cfg, id, rest));
  }

  lemma OneErrorEvent(id: TestID, errs: seq<TestError>)
    ensures errs == [] ==> ErrorEvents(id, errs) == []
    ensures |errs| == 1 ==> ErrorEvents(id, errs) == [Error(id, errs[0])]
  {
  }

  lemma ExitIsNotCompleted(capabilities: seq<string>, c: Command)
    ensures Exit(capabilities, c) != Some(Completed)
  {
  }

  // ---- The runner ----

  /** How control leaves a command or a body. */
  datatype Outcome = Returned | PanickedWithT | PanickedOther(value: string)

  function OutcomeOf(e: Option<Ending>): Outcome {
    match e
    case None => Returned
    case Some(Completed) => Returned
    case Some(Crashed(value)) => PanickedOther(value)
    case Some(_) => PanickedWithT
  }

  class Environment {
    const config: Config
    var results: Results
    var trace: seq<Event>

    constructor (config: Config)
      ensures this.config == config && SoFar() == NO_OUTPUTS
    {
      this.config := config;
      results, trace := Results([], []), [];
    }

    function SoFar(): Outputs
      reads this
    {
      Outputs(trace, results.tests, results.failures)
    }

    method Log(e: Event)
      modifies this`trace
      ensures SoFar() == Extend(old(SoFar()), Events([e]))
    {
      trace := trace + [e];
    }
  }

  class T {
    const env: Environment
    const id: TestID
    var failed: bool
    var skipped: bool
    var skipReason: SkipReason
    var cleanups: seq<nat>
    var errors: seq<TestError>

    constructor (env: Environment, id: TestID)
      ensures this.env == env && this.id == id
      ensures !failed && !skipped && skipReason == Given("") && cleanups == [] && errors == []
    {
      this.env, this.id := env, id;
      failed, skipped, skipReason, cleanups, errors := false, false, Given(""), [], [];
    }

    /** Only the skipping commands touch these two fields, and they end the body. */
    predicate Skipping(e: Option<Ending>)
      reads this
    {
      if e.Some? && e.value.SkippedBecause? then skipped && skipReason == e.value.why
      else !skipped && skipReason == Given("")
    }

    method Errorf(message: string) returns (o: Outcome)
      modifies this`failed, this`errors, env`trace
      ensures failed && errors == old(errors) + [Message(message)]
      ensures o == OutcomeOf(Exit(env.config.capabilities, Command.Errorf(message)))
      ensures env.SoFar() == Extend(old(env.SoFar()), CommandOutputs(env.config, id, Command.Errorf(message)))
    {
      hide CommandOutputs, ErrorFormatting.Reformatted;
      failed := true;
      errors := errors + [Message(message)];
      var text := ErrorFormatting.ReformatError(message);
      ErrorfOutputs(env.config, id, message);
      if text.None? {
        return PanickedOther(INDEX_PANIC);
      }
      env.Log(Error(id, Message(text.value)));
      return Returned;
    }

    method FailNow() returns (o: Outcome)
      ensures o == PanickedWithT
    {
      return PanickedWithT;
    }

    method Skip() returns (o: Outcome)
      modifies this`skipped
      ensures skipped && o == PanickedWithT
    {
      skipped := true;
      return PanickedWithT;
    }

    method SkipWithReason(reason: SkipReason) returns (o: Outcome)
      modifies this`skipped, this`skipReason
      ensures skipped && skipReason == reason && o == PanickedWithT
    {
      skipReason := reason;
      o := Skip();
    }

    method RequireCapability(name: string) returns (o: Outcome)
      requires !skipped && skipReason == Given("")
      modifies this`skipped, this`skipReason
      ensures skipped <==> name !in env.config.capabilities
      ensures skipped ==> skipReason == MissingCapability(name) && o == PanickedWithT
      ensures !skipped ==> skipReason == Given("") && o == Returned
      ensures o == OutcomeOf(Exit(env.config.capabilities, Command.RequireCapability(name)))
      ensures Skipping(Exit(env.config.capabilities, Command.RequireCapability(name)))
    {
      if name !in env.config.capabilities {
        o := SkipWithReason(MissingCapability(name));
      } else {
        o := Returned;
      }
    }

    method Defer(token: nat)
      modifies this`cleanups
      ensures cleanups == old(cleanups) + [token]
    {
      cleanups := cleanups + [token];
    }

    /** Everything that has happened so far. */
    function SoFar(): Effects
      reads this, env
    {
      Effects(errors, cleanups, env.SoFar())
    }

    method Perform(c: Command) returns (o: Outcome)
      requires !skipped && skipReason == Given("")
      requires failed <==> errors != []
      modifies this, env
      ensures o == OutcomeOf(Exit(env.config.capabilities, c))
      ensures Skipping(Exit(env.config.capabilities, c))
      ensures failed <==> errors != []
      ensures SoFar() == Append(old(SoFar()), CommandEffects(env.config, id, c))
      decreases c, 0
    {
      hide CommandOutputs, SubtestOutputs, ErrorFormatting.Reformatted;
      if c.Run? || (c.RunIfCapable? && c.capability in env.config.capabilities) {
        SubtestCommand(env.config, id, c);
      } else if !c.Errorf? {
        QuietCommand(env.config, id, c);
      }
      match c
      case Errorf(message) => o := Errorf(message);
      case FailNow => o := FailNow();
      case Skip => o := Skip();
      case SkipWithReason(reason) => o := SkipWithReason(Given(reason));
      case RequireCapability(name) => o := RequireCapability(name);
      case Panic(value) => o := PanickedOther(value);
      case Defer(token) =>
        Defer(token);
        o := Returned;
      case Run(name, body) =>
        Run(name, body);
        o := Returned;
      case RunIfCapable(capability, name, body) =>
        if capability in env.config.capabilities {
          Run(name, body);
        }
        o := Returned;
    }

    /** The body itself: one command after the other, until one panics. */
    method Act(b: Body) returns (o: Outcome)
      requires !skipped && skipReason == Given("")
      requires failed <==> errors != []
      modifies this, env
      ensures o == OutcomeOf(Some(EndingOf(env.config.capabilities, b)))
      ensures Skipping(Some(EndingOf(env.config.capabilities, b)))
      ensures failed <==> errors != []
      ensures SoFar() == Append(old(SoFar()), BodyEffects(env.config, id, b))
      decreases b, 0
    {
      hide Exit, EndingOf, Append, CommandEffects, BodyEffects;
      match b
      case End =>
        EmptyBody(env.config, id);
        AppendLaws(SoFar(), NO_EFFECTS, NO_EFFECTS);
        o := Returned;
      case Then(c, rest) =>
        ExitIsNotCompleted(env.config.capabilities, c);
        o := Perform(c);
        if o != Returned {
          BodyLeaves(env.config, id, c, rest);
        } else {
          BodyContinues(env.config, id, c, rest);
          AppendLaws(old(SoFar()), CommandEffects(env.config, id, c), BodyEffects(env.config, id, rest));
          o := Act(rest);
        }
    }

    /** What the deferred function of `run` does with a recovered panic. */
    method Recover(o: Outcome, ghost b: Body)
      requires o != Returned && !skipped && (failed <==> errors != [])
      requires o == OutcomeOf(Some(EndingOf(env.config.capabilities, b)))
      requires !EndingOf(env.config.capabilities, b).SkippedBecause?
      requires errors == Reported(env.config.capabilities, b)
      modifies this`failed, this`errors, env`trace
      ensures failed && errors == Errors(env.config.capabilities, b) && errors != []
      ensures o.PanickedWithT? ==> errors == if old(errors) == [] then [NoFailureMessage] else old(errors)
      ensures o.PanickedOther? ==> errors == old(errors) + [UnexpectedPanic(o.value)]
      ensures env.SoFar() == Extend(old(env.SoFar()),
        Events(ErrorEvents(id, ExitErrors(old(errors), EndingOf(env.config.capabilities, b)))))
    {
      failed := true;
      var addError: Option<TestError> := None;
      if o.PanickedWithT? {
        if |errors| == 0 {
          addError := Some(NoFailureMessage);
        }
      } else {
        addError := Some(UnexpectedPanic(o.value));
      }
      OneErrorEvent(id, ExitErrors(errors, EndingOf(env.config.capabilities, b)));
      if addError.Some? {
        errors := errors + [addError.value];
        env.Log(Error(id, addError.value));
      }
    }

    method CallCleanups()
      modifies env`trace
      ensures env.SoFar() == Extend(old(env.SoFar()), Events(CleanedUpAll(id, cleanups)))
    {
      assert cleanups[..|cleanups|] == cleanups;
      var i := |cleanups| - 1;
      while i >= 0
        invariant -1 <= i < |cleanups|
        invariant env.trace + CleanedUpAll(id, cleanups[..i + 1]) == old(env.trace) + CleanedUpAll(id, cleanups)
      {
        assert cleanups[..i + 1][..i] == cleanups[..i];
        env.Log(CleanedUp(id, cleanups[i]));
        i := i - 1;
      }
    }

    method RecordResult()
      requires failed <==> errors != []
      modifies env
      ensures env.SoFar() == Extend(old(env.SoFar()), ResultOutputs(TestResult(id, errors)))
    {
      var result := TestResult(id, errors);
      assert WithErrors([result]) == if failed then [result] else [] by {
        assert [result][1..] == [];
      }
      env.results := env.results.(tests := env.results.tests + [result]);
      env.Log(Recorded(result));
      if failed {
        env.results := env.results.(failures := env.results.failures + [result]);
      }
    }

    /** `run`: the body, then the deferred function that recovers its panic, records the result and calls the
        cleanups. */
    method RunBody(b: Body)
      requires !failed && !skipped && skipReason == Given("") && cleanups == [] && errors == []
      modifies this, env
      ensures Skipping(Some(EndingOf(env.config.capabilities, b)))
      ensures !skipped ==> (failed <==> Errors(env.config.capabilities, b) != [])
      ensures env.SoFar() == Extend(old(env.SoFar()), ScopeOutputs(env.config, id, b))
      decreases b, 1
    {
      hide Reported, Registered, BodyOutputs, ScopeOutputs, ResultOutputs, ErrorEvents, CleanedUpAll, Extend, Events;
      ghost var caps := env.config.capabilities;
      var o := Act(b);
      assert errors == Reported(caps, b) && cleanups == Registered(caps, b);
      if o != Returned {
        if skipped {
          ScopeSkipped(env.config, id, b);
          return;
        }
        Recover(o, b);
      } else {
        CompletedQuietly(env.SoFar(), env.config, id, b);
      }
      ScopeCloses(old(env.SoFar()), env.config, id, b);
      RecordResult();
      CallCleanups();
    }

    /** `T.Run`: a subtest in a scope of its own. */
    method Run(name: string, b: Body)
      modifies env
      ensures env.SoFar() == Extend(old(env.SoFar()), SubtestOutputs(env.config, Plus(id, name), b))
      decreases b, 2
    {
      hide Trace, Tests, Errors;
      var subID := Plus(id, name);
      env.Log(Started(subID));
      if env.config.filter.Some? && !env.config.filter.value(subID) {
        env.Log(Skipped(subID, ExcludedByFilter));
        return;
      }
      var c1 := new T(env, subID);
      c1.RunBody(b);
      if c1.skipped {
        env.Log(Skipped(subID, c1.skipReason));
      } else {
        env.Log(Finished(subID, c1.failed));
      }
      SubtestRuns(old(env.SoFar()), env.config, subID, b);
    }
  }

  /** A whole test run. Its results and its trace are those that the tree says. */
  method Run(config: Config, b: Body) returns (results: Results, trace: seq<Event>)
    ensures results == Results(Tests(config, [], b), WithErrors(Tests(config, [], b)))
    ensures trace == Trace(config, [], b)
  {
    var env := new Environment(config);
    var t := new T(env, []);
    t.RunBody(b);
    return env.results, env.trace;
  }
}
