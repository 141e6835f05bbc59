/** A test's whole conversation with its SSE client, as one concurrent system: the callback pipeline at one end, and at
    the other a test that calls `IgnoreErrorHere` and `AwaitMessage` as it likes. One step of the test is one thing that
    the pipeline can observe: a call of `AwaitMessage` is as many steps as its loop has rounds. */
module ClientRuns {
  import opened Text
  import opened MessageSorting
  import opened SseClient
  import CallbackPipeline

  type Sizes = CallbackPipeline.Sizes

  datatype State = State(
    pipe: CallbackPipeline.State,
    awaiting: bool,  // the test is inside AwaitMessage
    ignoreNextError: bool,
    history: seq<ClientEvent>,
    returned: seq<ReceivedMessage>)

  datatype Step =
    | Pipe(step: CallbackPipeline.Step)  // a step of a handler or of the decoding goroutine
    | CallIgnore                         // IgnoreErrorHere
    | CallAwait                          // AwaitMessage is called
    | ReadItem                           // it takes an item, and returns the message or drops it and goes on
    | TimeOut                            // its deadline wins the select

  function Items(ts: seq<CallbackPipeline.Tagged>): seq<Item> {
    seq(|ts|, i requires 0 <= i < |ts| => ts[i].item)
  }

  /** What the loop of `AwaitMessage` sees. */
  function View(s: State): Reader {
    Reader(Items(s.pipe.output), s.ignoreNextError, s.history)
  }

  predicate Enabled(z: Sizes, s: State, step: Step) {
    match step
    case Pipe(p) => !p.Pull? && CallbackPipeline.Enabled(z, s.pipe, p)
    case CallIgnore => !s.awaiting
    case CallAwait => !s.awaiting
    case ReadItem => s.awaiting && s.pipe.output != []
    case TimeOut => s.awaiting
  }

  function Apply(decode: Decoder, z: Sizes, s: State, step: Step): State
    requires Enabled(z, s, step)
  {
    match step
    case Pipe(p) => s.(pipe := CallbackPipeline.Apply(decode, z, s.pipe, p))
    case CallIgnore => s.(ignoreNextError := true, history := s.history + [Ignoring])
    case CallAwait => s.(awaiting := true)
    case ReadItem =>
      var r := View(s);
      State(CallbackPipeline.Apply(decode, z, s.pipe, CallbackPipeline.Pull),
            Drops(r), ReadOne(r).ignoreNextError, ReadOne(r).history,
            s.returned + if Drops(r) then [] else [r.channel[0].message])
    case TimeOut => s.(awaiting := false)
  }

  function Init(calls: seq<Numbered>, errors: seq<ClientError>): State {
    State(CallbackPipeline.Init(calls, errors), false, false, [], [])
  }

  predicate IsRun(decode: Decoder, z: Sizes, start: State, steps: seq<Step>)
    decreases |steps|, 0
  {
    steps == [] ||
    (IsRun(decode, z, start, steps[..|steps| - 1]) &&
     Enabled(z, After(decode, z, start, steps[..|steps| - 1]), steps[|steps| - 1]))
  }

  function After(decode: Decoder, z: Sizes, start: State, steps: seq<Step>): State
    requires IsRun(decode, z, start, steps)
    decreases |steps|, 1
  {
    if steps == [] then start
    else Apply(decode, z, After(decode, z, start, steps[..|steps| - 1]), steps[|steps| - 1])
  }

  // ---- The pipeline's part in a run ----

  function PipeSteps(steps: seq<Step>): seq<CallbackPipeline.Step> {
    if steps == [] then []
    else
      PipeSteps(steps[..|steps| - 1]) +
      match steps[|steps| - 1]
      case Pipe(p) => [p]
      case ReadItem => [CallbackPipeline.Pull]
      case _ => []
  }

  /** Seen from the pipeline, the test is a reader like any other. */
  lemma {:induction false} PipeRun(
      decode: Decoder, z: Sizes, calls: seq<Numbered>, errors: seq<ClientError>, steps: seq<Step>)
    requires IsRun(decode, z, Init(calls, errors), steps)
    ensures var start := CallbackPipeline.Init(calls, errors);
      && CallbackPipeline.IsRun(decode, z, start, PipeSteps(steps))
      && CallbackPipeline.After(decode, z, start, PipeSteps(steps)) == After(decode, z, Init(calls, errors), steps).pipe
  {
    if steps != [] {
      hide CallbackPipeline.Enabled, CallbackPipeline.Apply;
      var init, last := steps[..|steps| - 1], steps[|steps| - 1];
      PipeRun(decode, z, calls, errors, init);
      if last.Pipe? || last.ReadItem? {
        var p := if last.Pipe? then last.step else CallbackPipeline.Pull;
        assert PipeSteps(steps) == PipeSteps(init) + [p];
        assert PipeSteps(steps)[..|PipeSteps(steps)| - 1] == PipeSteps(init);
        PullEnabled(z, After(decode, z, Init(calls, errors), init).pipe);
      } else {
        assert PipeSteps(steps) == PipeSteps(init);
      }
    }
  }

  lemma PullEnabled(z: Sizes, s: CallbackPipeline.State)
    ensures CallbackPipeline.Enabled(z, s, CallbackPipeline.Pull) <==> s.output != []
  {
  }

  // ---- A call that is interleaved with arrivals is a call of the specification function ----

  /** From `start`, after these arrivals and selects, a call of `Await` has come to `r`: whatever comes then, going on
      from `r` gives what the whole call gives. */
  ghost predicate Continues(start: Reader, arriving: seq<Item>, selects: nat, r: Reader) {
    forall more: seq<Item>, d: nat :: Await(start, arriving + more, selects + d) == Await(r, more, d)
  }

  lemma CallStarts(r: Reader)
    ensures Continues(r, [], 0, r)
  {
    hide Await;
    forall more: seq<Item>, d: nat ensures Await(r, [] + more, 0 + d) == Await(r, more, d) {
      assert [] + more == more;
    }
  }

  lemma ItemsArrive(start: Reader, arriving: seq<Item>, selects: nat, r: Reader, items: seq<Item>)
    requires Continues(start, arriving, selects, r)
    ensures Continues(start, arriving + items, selects, Arrived(r, items))
  {
    hide Await;
    forall more: seq<Item>, d: nat
      ensures Await(start, arriving + items + more, selects + d) == Await(Arrived(r, items), more, d)
    {
      assert arriving + items + more == arriving + (items + more);
      assert Await(start, arriving + (items + more), selects + d) == Await(r, items + more, d);
      ArrivalsMayComeFirst(r, items + more, d);
      ArrivalsMayComeFirst(Arrived(r, items), more, d);
      assert Arrived(Arrived(r, items), more) == Arrived(r, items + more);
    }
  }

  lemma ItemDropped(start: Reader, arriving: seq<Item>, selects: nat, r: Reader)
    requires Continues(start, arriving, selects, r) && r.channel != [] && Drops(r)
    ensures Continues(start, arriving, selects + 1, ReadOne(r))
  {
    forall more: seq<Item>, d: nat
      ensures Await(start, arriving + more, selects + 1 + d) == Await(ReadOne(r), more, d)
    {
      assert Await(start, arriving + more, selects + (d + 1)) == Await(r, more, d + 1);
      assert r.channel + more != [];
    }
  }

  lemma ItemReturned(start: Reader, arriving: seq<Item>, selects: nat, r: Reader)
    requires Continues(start, arriving, selects, r) && r.channel != [] && !Drops(r)
    ensures Await(start, arriving, selects + 1) == (ReadOne(r), Received(r.channel[0].message))
  {
    assert arriving + [] == arriving && r.channel + [] == r.channel;
    assert Await(start, arriving + [], selects + 1) == Await(r, [], 1);
    assert Arrived(ReadOne(r), []) == ReadOne(r);
  }

  lemma CallTimesOut(start: Reader, arriving: seq<Item>, selects: nat, r: Reader)
    requires Continues(start, arriving, selects, r)
    ensures Await(start, arriving, selects) == (r, TimedOut)
  {
    assert arriving + [] == arriving && Arrived(r, []) == r;
    assert Await(start, arriving + [], selects + 0) == Await(r, [], 0);
  }

  // ---- Every run is a session of whole calls ----

  function Entered(s: State): seq<Item> {
    Items(s.pipe.read + s.pipe.output)
  }

  function SessionOf(s: State): Session {
    Session(View(s), s.returned, Entered(s))
  }

  /** The operations so far, and the call under way if there is one, account for the state. */
  ghost predicate Performs(ops: seq<Op>, arriving: seq<Item>, selects: nat, s: State) {
    if !s.awaiting then PerformAll(ops) == SessionOf(s)
    else
      var before := PerformAll(ops);
      && Continues(before.reader, arriving, selects, View(s))
      && before.returned == s.returned
      && before.arrived + arriving == Entered(s)
  }

  lemma OneMoreOp(ops: seq<Op>, op: Op)
    ensures PerformAll(ops + [op]) == Perform(PerformAll(ops), op)
  {
    assert (ops + [op])[..|ops|] == ops;
  }

  /** What a step of the pipeline puts into the output channel. */
  function Pushed(s: CallbackPipeline.State, p: CallbackPipeline.Step): seq<Item> {
    match p
    case Push => CallbackPipeline.Held(s)
    case PushError(i) => if i < |s.errors| then [ErrorItem(s.errors[i])] else []
    case _ => []
  }

  lemma PipePushes(decode: Decoder, z: Sizes, s: State, p: CallbackPipeline.Step)
    requires Enabled(z, s, Pipe(p))
    ensures var s' := Apply(decode, z, s, Pipe(p));
      View(s') == Arrived(View(s), Pushed(s.pipe, p)) && Entered(s') == Entered(s) + Pushed(s.pipe, p)
    ensures |Pushed(s.pipe, p)| <= 1
  {
  }

  lemma PipePerforms(
      decode: Decoder, z: Sizes, ops: seq<Op>, arriving: seq<Item>, selects: nat, s: State, p: CallbackPipeline.Step)
      returns (ops': seq<Op>, arriving': seq<Item>)
    requires Performs(ops, arriving, selects, s) && Enabled(z, s, Pipe(p))
    ensures Performs(ops', arriving', selects, Apply(decode, z, s, Pipe(p)))
  {
    hide Await, PerformAll, Continues, View, Entered;
    var items := Pushed(s.pipe, p);
    PipePushes(decode, z, s, p);
    ops', arriving' := ops, arriving;
    if s.awaiting {
      var before := PerformAll(ops);
      ItemsArrive(before.reader, arriving, selects, View(s), items);
      arriving' := arriving + items;
      assert before.arrived + (arriving + items) == before.arrived + arriving + items;
    } else if items != [] {
      assert items == [items[0]];
      OneMoreOp(ops, Arrive(items[0]));
      ops' := ops + [Arrive(items[0])];
    } else {
      assert Arrived(View(s), []) == View(s) && Entered(s) + [] == Entered(s);
    }
  }

  lemma ReadMoves(decode: Decoder, z: Sizes, s: State)
    requires Enabled(z, s, ReadItem)
    ensures View(s).channel != [] && View(Apply(decode, z, s, ReadItem)) == ReadOne(View(s))
    ensures Entered(Apply(decode, z, s, ReadItem)) == Entered(s)
  {
    var s' := Apply(decode, z, s, ReadItem);
    assert s'.pipe.read + s'.pipe.output == s.pipe.read + s.pipe.output;
  }

  lemma ReadPerforms(decode: Decoder, z: Sizes, ops: seq<Op>, arriving: seq<Item>, selects: nat, s: State)
      returns (ops': seq<Op>)
    requires Performs(ops, arriving, selects, s) && Enabled(z, s, ReadItem)
    ensures Performs(ops', arriving, selects + 1, Apply(decode, z, s, ReadItem))
  {
    hide Await, PerformAll, Continues, Entered, Drops, ReadOne;
    var before, r := PerformAll(ops), View(s);
    ReadMoves(decode, z, s);
    if Drops(r) {
      ItemDropped(before.reader, arriving, selects, r);
      assert s.returned + [] == s.returned;
      ops' := ops;
    } else {
      ItemReturned(before.reader, arriving, selects, r);
      OneMoreOp(ops, AwaitOp(arriving, selects + 1));
      ops' := ops + [AwaitOp(arriving, selects + 1)];
    }
  }

  lemma TimeOutPerforms(ops: seq<Op>, arriving: seq<Item>, selects: nat, s: State)
    requires Performs(ops, arriving, selects, s) && s.awaiting
    ensures PerformAll(ops + [AwaitOp(arriving, selects)]) == SessionOf(s)
  {
    hide Await, PerformAll, Continues, View, Entered;
    var before := PerformAll(ops);
    CallTimesOut(before.reader, arriving, selects, View(s));
    OneMoreOp(ops, AwaitOp(arriving, selects));
    assert before.returned + [] == before.returned;
  }

  lemma {:induction false} RunPerforms(
      decode: Decoder, z: Sizes, calls: seq<Numbered>, errors: seq<ClientError>, steps: seq<Step>)
      returns (ops: seq<Op>, arriving: seq<Item>, selects: nat)
    requires IsRun(decode, z, Init(calls, errors), steps)
    ensures Performs(ops, arriving, selects, After(decode, z, Init(calls, errors), steps))
  {
    ops, arriving, selects := [], [], 0;
    if steps != [] {
      hide Performs;
      var s, step := After(decode, z, Init(calls, errors), steps[..|steps| - 1]), steps[|steps| - 1];
      ops, arriving, selects := RunPerforms(decode, z, calls, errors, steps[..|steps| - 1]);
      match step
      case Pipe(p) => ops, arriving := PipePerforms(decode, z, ops, arriving, selects, s, p);
      case CallIgnore => ops := IgnorePerforms(ops, arriving, selects, s);
      case CallAwait => arriving, selects := AwaitPerforms(ops, arriving, selects, s);
      case ReadItem =>
        ops := ReadPerforms(decode, z, ops, arriving, selects, s);
        selects := selects + 1;
      case TimeOut => ops := StopPerforms(ops, arriving, selects, s);
    }
  }

  lemma IgnorePerforms(ops: seq<Op>, arriving: seq<Item>, selects: nat, s: State) returns (ops': seq<Op>)
    requires Performs(ops, arriving, selects, s) && !s.awaiting
    ensures Performs(ops', arriving, selects, s.(ignoreNextError := true, history := s.history + [Ignoring]))
  {
    hide PerformAll;
    OneMoreOp(ops, Ignore);
    ops' := ops + [Ignore];
  }

  lemma AwaitPerforms(ops: seq<Op>, arriving: seq<Item>, selects: nat, s: State)
      returns (arriving': seq<Item>, selects': nat)
    requires Performs(ops, arriving, selects, s) && !s.awaiting
    ensures Performs(ops, arriving', selects', s.(awaiting := true))
  {
    hide PerformAll, Continues, Entered;
    arriving', selects' := [], 0;
    CallStarts(View(s));
    assert Entered(s) == Entered(s.(awaiting := true)) && Entered(s) + [] == Entered(s) by {
      SamePipe(s, s.(awaiting := true));
    }
  }

  lemma SamePipe(s: State, s': State)
    requires s'.pipe == s.pipe
    ensures Entered(s') == Entered(s)
  {
  }

  lemma StopPerforms(ops: seq<Op>, arriving: seq<Item>, selects: nat, s: State) returns (ops': seq<Op>)
    requires Performs(ops, arriving, selects, s) && s.awaiting
    ensures Performs(ops', arriving, selects, s.(awaiting := false))
  {
    hide PerformAll, Continues;
    TimeOutPerforms(ops, arriving, selects, s);
    ops' := ops + [AwaitOp(arriving, selects)];
  }

  /** Every interleaving of the test with the pipeline, at every moment, is a session in which each call of
      `AwaitMessage` happens at once (the call under way, if any, as if it timed out now). */
  lemma EveryRunIsASession(
      decode: Decoder, z: Sizes, calls: seq<Numbered>, errors: seq<ClientError>, steps: seq<Step>)
      returns (ops: seq<Op>)
    requires IsRun(decode, z, Init(calls, errors), steps)
    ensures PerformAll(ops) == SessionOf(After(decode, z, Init(calls, errors), steps))
  {
    hide IsRun, After, SessionOf, Continues;
    var done, arriving, selects := RunPerforms(decode, z, calls, errors, steps);
    var s := After(decode, z, Init(calls, errors), steps);
    ops := done;
    if s.awaiting {
      TimeOutPerforms(done, arriving, selects, s);
      ops := done + [AwaitOp(arriving, selects)];
    }
  }

  // ---- And every call can happen in one piece ----

  lemma OneMoreStep(decode: Decoder, z: Sizes, start: State, steps: seq<Step>, step: Step)
    requires IsRun(decode, z, start, steps) && Enabled(z, After(decode, z, start, steps), step)
    ensures IsRun(decode, z, start, steps + [step])
    ensures After(decode, z, start, steps + [step]) == Apply(decode, z, After(decode, z, start, steps), step)
  {
    assert (steps + [step])[..|steps|] == steps;
  }

  lemma {:induction false} LoopCanRun(decode: Decoder, z: Sizes, start: State, steps: seq<Step>, deadlineAt: nat)
      returns (all: seq<Step>)
    requires IsRun(decode, z, start, steps) && After(decode, z, start, steps).awaiting
    ensures IsRun(decode, z, start, all)
    ensures var s, s' := After(decode, z, start, steps), After(decode, z, start, all);
      var (r, result) := Await(View(s), [], deadlineAt);
      && !s'.awaiting && View(s') == r
      && s'.returned == s.returned + if result.Received? then [result.message] else []
    decreases deadlineAt
  {
    hide IsRun, After, View, Drops, ReadOne;
    var s := After(decode, z, start, steps);
    ChannelIsOutput(s);
    assert Arrived(View(s), []) == View(s) && View(s).channel + [] == View(s).channel && s.returned + [] == s.returned;
    if deadlineAt == 0 || s.pipe.output == [] {
      OneMoreStep(decode, z, start, steps, TimeOut);
      all := steps + [TimeOut];
      SameView(s, After(decode, z, start, all));
    } else {
      OneMoreStep(decode, z, start, steps, ReadItem);
      ReadMoves(decode, z, s);
      all := steps + [ReadItem];
      assert Arrived(ReadOne(View(s)), []) == ReadOne(View(s));
      if Drops(View(s)) {
        all := LoopCanRun(decode, z, start, all, deadlineAt - 1);
      }
    }
  }

  lemma ChannelIsOutput(s: State)
    ensures |View(s).channel| == |s.pipe.output|
  {
  }

  lemma SameView(s: State, s': State)
    requires s' == s.(awaiting := s'.awaiting)
    ensures View(s') == View(s)
  {
  }

  /** The converse: between calls, in any state that a run reaches, a call of `AwaitMessage` with any deadline can
      happen in one piece, with just the result and the effect of the specification function. */
  lemma EveryCallIsPossible(decode: Decoder, z: Sizes, start: State, steps: seq<Step>, deadlineAt: nat)
      returns (all: seq<Step>)
    requires IsRun(decode, z, start, steps) && !After(decode, z, start, steps).awaiting
    ensures IsRun(decode, z, start, all)
    ensures var s, s' := After(decode, z, start, steps), After(decode, z, start, all);
      var (r, result) := Await(View(s), [], deadlineAt);
      && !s'.awaiting && View(s') == r
      && s'.returned == s.returned + if result.Received? then [result.message] else []
  {
    hide IsRun, After, View, Await;
    OneMoreStep(decode, z, start, steps, CallAwait);
    SameView(After(decode, z, start, steps), After(decode, z, start, steps + [CallAwait]));
    all := LoopCanRun(decode, z, start, steps + [CallAwait], deadlineAt);
  }

  // ---- What the test gets ----

  lemma {:induction false} NoHandlerItems(ts: seq<CallbackPipeline.Tagged>)
    requires CallbackPipeline.HandlerItems(ts) == []
    ensures CallbackPipeline.QueueItems(ts) == Items(ts)
  {
    if ts != [] {
      NoHandlerItems(ts[..|ts| - 1]);
    }
  }

  lemma ReadBefore(before: seq<Item>, read: seq<CallbackPipeline.Tagged>, output: seq<CallbackPipeline.Tagged>)
    requires before + Items(output) == Items(read + output)
    ensures before == Items(read)
  {
    assert Items(read + output) == Items(read) + Items(output);
    assert |before| == |read|;
    assert before == (before + Items(output))[..|before|];
    assert Items(read) == (Items(read) + Items(output))[..|read|];
  }

  /** Whatever the counters, in every interleaving at every moment: the messages that the test has got are those of
      the items read, in order, less the errors that it asked to ignore; of the items read, those that came through
      the queue are, in order, images of what a sequence of the calls so far releases first. When nothing is left to
      read they are the images of all that a sequence of all the calls releases, and the others are the errors of the
      handlers, once each. */
  lemma EveryRunReads(decode: Decoder, z: Sizes, calls: seq<Numbered>, errors: seq<ClientError>, steps: seq<Step>)
      returns (order: seq<Numbered>)
    requires IsRun(decode, z, Init(calls, errors), steps)
    ensures var s := After(decode, z, Init(calls, errors), steps);
      var fromQueue := CallbackPipeline.QueueItems(s.pipe.read);
      && s.returned == MessagesKept(s.history) && DropsExplained(s.history)
      && ItemsRead(s.history) == Items(s.pipe.read)
      && multiset(order) + multiset(s.pipe.queue.pending) == multiset(calls)
      && fromQueue <= ItemsOf(decode, AcceptAll(order).sent)
      && (CallbackPipeline.Stuck(z, s.pipe) && z.outputCapacity >= 1 ==>
        && multiset(order) == multiset(calls)
        && fromQueue == ItemsOf(decode, AcceptAll(order).sent)
        && multiset(CallbackPipeline.HandlerItems(s.pipe.read)) == multiset(CallbackPipeline.ErrorItems(errors)))
  {
    hide IsRun, After, AcceptAll, ItemsOf, PipeSteps, Items, ItemsRead, MessagesKept, DropsExplained, PerformAll;
    hide CallbackPipeline.IsRun, CallbackPipeline.After, CallbackPipeline.QueueItems, CallbackPipeline.HandlerItems;
    hide CallbackPipeline.Stuck, CallbackPipeline.ErrorItems;
    var s := After(decode, z, Init(calls, errors), steps);
    PipeRun(decode, z, calls, errors, steps);
    order := CallbackPipeline.EveryRunIsSequential(decode, z, calls, errors, PipeSteps(steps));
    var ops := EveryRunIsASession(decode, z, calls, errors, steps);
    EveryItemAccountedFor(ops);
    ReadBefore(ItemsRead(s.history), s.pipe.read, s.pipe.output);
  }

  function MessagesOf(items: seq<Item>): seq<ReceivedMessage> {
    seq(|items|, i requires 0 <= i < |items| => items[i].message)
  }

  lemma {:induction false} KeptUnlessIgnored(h: seq<ClientEvent>)
    requires DropsExplained(h) && IgnoreCount(h) == 0
    ensures MessagesKept(h) == MessagesOf(ItemsRead(h))
  {
    if h != [] {
      var init, last := h[..|h| - 1], h[|h| - 1];
      assert forall p | 0 <= p < |init| :: DropExplained(h, p) ==> DropExplained(init, p);
      KeptUnlessIgnored(init);
      assert DropExplained(h, |h| - 1);
      NoIgnoring(h);
    }
  }

  lemma {:induction false} NoIgnoring(h: seq<ClientEvent>)
    requires IgnoreCount(h) == 0
    ensures forall p | 0 <= p < |h| :: h[p].Read?
  {
    if h != [] {
      NoIgnoring(h[..|h| - 1]);
      assert forall p | 0 <= p < |h| - 1 :: h[p] == h[..|h| - 1][p];
    }
  }

  /** With distinct counters and no rejected request, a test for which nothing is left to read has read the images of
      all that sequential sorting releases, in that order; and if it never called `IgnoreErrorHere`, their messages are
      just what it got. */
  lemma TestGetsEverything(decode: Decoder, z: Sizes, calls: seq<Numbered>, steps: seq<Step>)
    requires z.outputCapacity >= 1
    requires Distinct(calls) && IsRun(decode, z, Init(calls, []), steps)
    ensures var s, items := After(decode, z, Init(calls, []), steps), ItemsOf(decode, AcceptAll(calls).sent);
      CallbackPipeline.Stuck(z, s.pipe) ==>
        && ItemsRead(s.history) == items
        && s.returned == MessagesKept(s.history) && DropsExplained(s.history)
        && (IgnoreCount(s.history) == 0 ==> s.returned == MessagesOf(items))
  {
    hide IsRun, After, AcceptAll, ItemsOf, Items, ItemsRead, MessagesKept, DropsExplained, IgnoreCount, MessagesOf;
    hide CallbackPipeline.QueueItems, CallbackPipeline.HandlerItems, CallbackPipeline.Stuck, Distinct;
    var s := After(decode, z, Init(calls, []), steps);
    var order := EveryRunReads(decode, z, calls, [], steps);
    if CallbackPipeline.Stuck(z, s.pipe) {
      DistinctPermuted(calls, order);
      OrderIndependence(order, calls);
      var own := CallbackPipeline.HandlerItems(s.pipe.read);
      assert |multiset(own)| == |own| && CallbackPipeline.ErrorItems([]) == [];
      NoHandlerItems(s.pipe.read);
      if IgnoreCount(s.history) == 0 {
        KeptUnlessIgnored(s.history);
      }
    }
  }

  /** With distinct counters, no rejected request, messages that all decode, and no call of `IgnoreErrorHere`: a test
      for which nothing is left to read has got exactly the decoded messages, one for each message that sequential
      sorting releases, in that order. */
  lemma TestGetsDecodedMessages(decode: Decoder, z: Sizes, calls: seq<Numbered>, steps: seq<Step>)
    requires z.outputCapacity >= 1
    requires Distinct(calls) && IsRun(decode, z, Init(calls, []), steps)
    requires forall i | 0 <= i < |AcceptAll(calls).sent| :: decode(AcceptAll(calls).sent[i]).Some?
    ensures var s, sent := After(decode, z, Init(calls, []), steps), AcceptAll(calls).sent;
      CallbackPipeline.Stuck(z, s.pipe) && IgnoreCount(s.history) == 0 ==>
        && |s.returned| == |sent|
        && forall i | 0 <= i < |sent| :: s.returned[i] == decode(sent[i]).value
  {
    hide IsRun, After, AcceptAll, ItemsOf, ItemsRead, MessagesKept, DropsExplained, IgnoreCount, Distinct;
    hide CallbackPipeline.Stuck;
    var sent := AcceptAll(calls).sent;
    TestGetsEverything(decode, z, calls, steps);
    OneItemEach(decode, sent);
    forall i | 0 <= i < |sent| ensures ItemsOf(decode, sent)[i] == Item(decode(sent[i]).value, None) {
      ItemsOfAt(decode, sent, i);
    }
  }

  lemma OneItemEach(decode: Decoder, data: seq<Message>)
    ensures |ItemsOf(decode, data)| == |data|
  {
  }
}
