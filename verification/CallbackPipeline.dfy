/** The whole callback path as one concurrent system: any number of callback handlers, the sorting queue
    with its lock and bounded channel, the decoding goroutine, the bounded output channel, and the test that reads
    it. Handler-side errors enter the output channel directly, at any moment. */
module CallbackPipeline {
  import opened Text
  import opened MessageSorting
  import opened SseClient
  import QueueMachine

  /** Where an output item comes from. */
  datatype Tagged = FromQueue(item: Item) | FromHandler(item: Item)

  datatype State = State(
    queue: QueueMachine.State,  // its `consumed` is what the decoding goroutine has received
    hand: Option<Item>,         // the item the decoding goroutine is blocked on sending, if any
    errors: seq<ClientError>,   // errors whose handlers have not got them into the output channel yet
    output: seq<Tagged>,        // the buffer of outputCh
    read: seq<Tagged>)          // what the test has taken out of it, in order

  datatype Step =
    | Queue(step: QueueMachine.Step)  // a step of a callback handler inside Accept
    | Take(step: QueueMachine.Step)   // the decoding goroutine receives from C and decodes
    | Push                            // ... and its send on outputCh completes
    | PushError(i: nat)               // the i-th waiting handler's send on outputCh completes
    | Pull                            // the test reads one item

  datatype Sizes = Sizes(queueCapacity: nat, outputCapacity: nat)

  predicate IsReceive(step: QueueMachine.Step) {
    step.Receive? || step.Handoff?
  }

  predicate Enabled(z: Sizes, s: State, step: Step) {
    match step
    case Queue(q) => !IsReceive(q) && QueueMachine.Enabled(z.queueCapacity, s.queue, q)
    case Take(q) => IsReceive(q) && s.hand.None? && QueueMachine.Enabled(z.queueCapacity, s.queue, q)
    case Push => s.hand.Some? && |s.output| < z.outputCapacity
    case PushError(i) => i < |s.errors| && |s.output| < z.outputCapacity
    case Pull => s.output != []
  }

  function Apply(decode: Decoder, z: Sizes, s: State, step: Step): State
    requires Enabled(z, s, step)
  {
    match step
    case Queue(q) => s.(queue := QueueMachine.Apply(z.queueCapacity, s.queue, q))
    case Take(q) =>
      var queue := QueueMachine.Apply(z.queueCapacity, s.queue, q);
      s.(queue := queue, hand := Some(ItemOf(decode, queue.consumed[|queue.consumed| - 1])))
    case Push => s.(hand := None, output := s.output + [FromQueue(s.hand.value)])
    case PushError(i) =>
      s.(errors := s.errors[..i] + s.errors[i + 1..], output := s.output + [FromHandler(ErrorItem(s.errors[i]))])
    case Pull => s.(output := s.output[1..], read := s.read + [s.output[0]])
  }

  function Init(calls: seq<Numbered>, errors: seq<ClientError>): State {
    State(QueueMachine.Init(calls), None, errors, [], [])
  }

  predicate IsRun(decode: Decoder, z: Sizes, start: State, steps: seq<Step>)
    decreases |steps|, 0
  {
    steps == [] ||
    (IsRun(decode, z, start, steps[..|steps| - 1]) &&
     Enabled(z, After(decode, z, start, steps[..|steps| - 1]), steps[|steps| - 1]))
  }

  function After(decode: Decoder, z: Sizes, start: State, steps: seq<Step>): State
    requires IsRun(decode, z, start, steps)
    decreases |steps|, 1
  {
    if steps == [] then start
    else Apply(decode, z, After(decode, z, start, steps[..|steps| - 1]), steps[|steps| - 1])
  }

  ghost predicate Stuck(z: Sizes, s: State) {
    forall step: Step :: !Enabled(z, s, step)
  }

  // ---- What the output channel carries ----

  function QueueItems(ts: seq<Tagged>): seq<Item> {
    if ts == [] then []
    else QueueItems(ts[..|ts| - 1]) + (if ts[|ts| - 1].FromQueue? then [ts[|ts| - 1].item] else [])
  }

  function HandlerItems(ts: seq<Tagged>): seq<Item> {
    if ts == [] then []
    else HandlerItems(ts[..|ts| - 1]) + (if ts[|ts| - 1].FromHandler? then [ts[|ts| - 1].item] else [])
  }

  function ErrorItems(errors: seq<ClientError>): seq<Item> {
    seq(|errors|, i requires 0 <= i < |errors| => ErrorItem(errors[i]))
  }

  function Held(s: State): seq<Item> {
    match s.hand case None => [] case Some(item) => [item]
  }

  /** One output item for every message taken from the queue, in order; every error held or delivered once. */
  ghost predicate OutputInv(decode: Decoder, z: Sizes, errors: multiset<Item>, s: State) {
    && QueueItems(s.read + s.output) + Held(s) == ItemsOf(decode, s.queue.consumed)
    && multiset(HandlerItems(s.read + s.output)) + multiset(ErrorItems(s.errors)) == errors
    && |s.output| <= z.outputCapacity
  }

  ghost predicate Inv(decode: Decoder, z: Sizes, acc: Accepted, errors: multiset<Item>, s: State) {
    QueueMachine.Inv(acc, z.queueCapacity, s.queue) && OutputInv(decode, z, errors, s)
  }

  lemma OutputGrows(ts: seq<Tagged>, t: Tagged)
    ensures QueueItems(ts + [t]) == QueueItems(ts) + (if t.FromQueue? then [t.item] else [])
    ensures HandlerItems(ts + [t]) == HandlerItems(ts) + (if t.FromHandler? then [t.item] else [])
  {
    assert (ts + [t])[..|ts + [t]| - 1] == ts;
  }

  lemma TakeOutput(decode: Decoder, z: Sizes, errors: multiset<Item>, s: State, q: QueueMachine.Step)
    requires OutputInv(decode, z, errors, s) && Enabled(z, s, Take(q))
    ensures OutputInv(decode, z, errors, Apply(decode, z, s, Take(q)))
  {
    hide QueueItems, HandlerItems, ErrorItems;
    var s' := Apply(decode, z, s, Take(q));
    var data := s'.queue.consumed[|s'.queue.consumed| - 1];
    assert s'.queue.consumed == s.queue.consumed + [data];
    assert ItemsOf(decode, s'.queue.consumed) == ItemsOf(decode, s.queue.consumed) + [ItemOf(decode, data)];
  }

  lemma PushOutput(decode: Decoder, z: Sizes, errors: multiset<Item>, s: State)
    requires OutputInv(decode, z, errors, s) && Enabled(z, s, Push)
    ensures OutputInv(decode, z, errors, Apply(decode, z, s, Push))
  {
    hide ItemsOf, QueueItems, HandlerItems, ErrorItems;
    var s' := Apply(decode, z, s, Push);
    OutputGrows(s.read + s.output, FromQueue(s.hand.value));
    assert s'.read + s'.output == s.read + s.output + [FromQueue(s.hand.value)];
  }

  lemma ErrorLeaves(errors: seq<ClientError>, i: nat)
    requires i < |errors|
    ensures multiset(ErrorItems(errors))
      == multiset(ErrorItems(errors[..i] + errors[i + 1..])) + multiset{ErrorItem(errors[i])}
  {
    var all := ErrorItems(errors);
    assert all == all[..i] + [all[i]] + all[i + 1..];
    assert ErrorItems(errors[..i] + errors[i + 1..]) == all[..i] + all[i + 1..];
  }

  lemma PushErrorOutput(decode: Decoder, z: Sizes, errors: multiset<Item>, s: State, i: nat)
    requires OutputInv(decode, z, errors, s) && Enabled(z, s, PushError(i))
    ensures OutputInv(decode, z, errors, Apply(decode, z, s, PushError(i)))
  {
    hide ItemsOf, QueueItems, HandlerItems, ErrorItems;
    var s' := Apply(decode, z, s, PushError(i));
    var t := FromHandler(ErrorItem(s.errors[i]));
    OutputGrows(s.read + s.output, t);
    ErrorLeaves(s.errors, i);
    assert s'.read + s'.output == s.read + s.output + [t];
    assert QueueItems(s.read + s.output) + [] == QueueItems(s.read + s.output);
  }

  lemma StepOutput(decode: Decoder, z: Sizes, errors: multiset<Item>, s: State, step: Step)
    requires OutputInv(decode, z, errors, s) && Enabled(z, s, step)
    ensures OutputInv(decode, z, errors, Apply(decode, z, s, step))
  {
    hide ItemsOf, QueueItems, HandlerItems, ErrorItems;
    match step
    case Queue(q) =>
    case Take(q) => TakeOutput(decode, z, errors, s, q);
    case Push => PushOutput(decode, z, errors, s);
    case PushError(i) => PushErrorOutput(decode, z, errors, s, i);
    case Pull =>
      var s' := Apply(decode, z, s, step);
      assert s'.read + s'.output == s.read + s.output;
  }

  /** Every step of every goroutine keeps the invariant. */
  lemma StepInv(decode: Decoder, z: Sizes, acc: Accepted, errors: multiset<Item>, s: State, step: Step)
    requires Inv(decode, z, acc, errors, s) && Enabled(z, s, step)
    ensures Inv(decode, z, acc, errors, Apply(decode, z, s, step))
  {
    hide OutputInv, QueueMachine.Inv, QueueMachine.Apply, QueueMachine.Enabled;
    StepOutput(decode, z, errors, s, step);
    match step
    case Queue(q) => QueueMachine.StepInv(acc, z.queueCapacity, s.queue, q);
    case Take(q) => QueueMachine.StepInv(acc, z.queueCapacity, s.queue, q);
    case _ =>
  }

  lemma {:induction false} RunInv(
      decode: Decoder, z: Sizes, calls: seq<Numbered>, errors: seq<ClientError>, steps: seq<Step>)
    requires Distinct(calls) && IsRun(decode, z, Init(calls, errors), steps)
    ensures Inv(decode, z, AsMap(calls), multiset(ErrorItems(errors)), After(decode, z, Init(calls, errors), steps))
  {
    if steps == [] {
      QueueMachine.InitInv(calls, z.queueCapacity);
    } else {
      RunInv(decode, z, calls, errors, steps[..|steps| - 1]);
      StepInv(decode, z, AsMap(calls), multiset(ErrorItems(errors)),
              After(decode, z, Init(calls, errors), steps[..|steps| - 1]), steps[|steps| - 1]);
    }
  }

  // ---- Every run ends ----

  function Work(s: State): nat {
    3 * QueueMachine.Work(s.queue) + 2 * |Held(s)| + 2 * |s.errors| + |s.output|
  }

  lemma StepWorks(decode: Decoder, z: Sizes, s: State, step: Step)
    requires Enabled(z, s, step)
    ensures Work(Apply(decode, z, s, step)) < Work(s)
  {
    match step
    case Queue(q) => QueueMachine.StepWorks(z.queueCapacity, s.queue, q);
    case Take(q) => QueueMachine.StepWorks(z.queueCapacity, s.queue, q);
    case Push =>
    case PushError(i) =>
    case Pull =>
  }

  lemma {:induction false} RunIsBounded(decode: Decoder, z: Sizes, start: State, steps: seq<Step>)
    requires IsRun(decode, z, start, steps)
    ensures |steps| + Work(After(decode, z, start, steps)) <= Work(start)
  {
    if steps != [] {
      RunIsBounded(decode, z, start, steps[..|steps| - 1]);
      StepWorks(decode, z, After(decode, z, start, steps[..|steps| - 1]), steps[|steps| - 1]);
    }
  }

  /** A step for every state in which something is left to do. */
  function NextStep(s: State): Step {
    if s.output != [] then Pull
    else if s.hand.Some? then Push
    else if s.errors != [] then PushError(0)
    else var q := QueueMachine.NextStep(s.queue);
      if IsReceive(q) then Take(q) else Queue(q)
  }

  lemma StuckIff(z: Sizes, s: State)
    requires z.outputCapacity >= 1
    ensures Stuck(z, s) <==>
      QueueMachine.Stuck(z.queueCapacity, s.queue) && s.hand.None? && s.errors == [] && s.output == []
  {
    QueueMachine.StuckIff(z.queueCapacity, s.queue);
    if !(QueueMachine.Stuck(z.queueCapacity, s.queue) && s.hand.None? && s.errors == [] && s.output == []) {
      assert Enabled(z, s, NextStep(s));
    }
  }

  /** Without the reader, everything gets on until the pipeline is idle or the output channel is full: with room in
      it, nothing but a lack of work stops the goroutines; when it is full, handlers with errors wait, and so does the
      decoding goroutine if it holds an item. */
  lemma BlocksWithoutReaderIff(z: Sizes, s: State)
    ensures (forall step: Step | !step.Pull? :: !Enabled(z, s, step)) <==>
      if |s.output| < z.outputCapacity then
        QueueMachine.Stuck(z.queueCapacity, s.queue) && s.hand.None? && s.errors == []
      else if s.hand.None? then QueueMachine.Stuck(z.queueCapacity, s.queue)
      else forall q: QueueMachine.Step | !IsReceive(q) :: !QueueMachine.Enabled(z.queueCapacity, s.queue, q)
  {
    hide QueueMachine.Enabled;
    if forall step: Step | !step.Pull? :: !Enabled(z, s, step) {
      assert !Enabled(z, s, Push) && !Enabled(z, s, PushError(0));
      forall q: QueueMachine.Step | s.hand.None? || !IsReceive(q)
        ensures !QueueMachine.Enabled(z.queueCapacity, s.queue, q)
      {
        assert !Enabled(z, s, Take(q)) && !Enabled(z, s, Queue(q));
      }
    }
  }

  // ---- End to end ----

  /** In every interleaving, at every moment: the items that came through the queue and have been read are, in
      order, the images of the first few callbacks by counter; and no handler's error is lost or repeated. */
  lemma AlwaysInOrder(decode: Decoder, z: Sizes, calls: seq<Numbered>, errors: seq<ClientError>, steps: seq<Step>)
    requires Distinct(calls) && IsRun(decode, z, Init(calls, errors), steps)
    ensures var s := After(decode, z, Init(calls, errors), steps);
      && InOrder(AsMap(calls), s.queue.consumed)
      && QueueItems(s.read) <= ItemsOf(decode, s.queue.consumed)
      && multiset(HandlerItems(s.read + s.output)) + multiset(ErrorItems(s.errors)) == multiset(ErrorItems(errors))
  {
    hide IsRun, After, QueueItems, HandlerItems, ItemsOf, ErrorItems;
    RunInv(decode, z, calls, errors, steps);
    var s := After(decode, z, Init(calls, errors), steps);
    QueueItemsPrefix(s.read, s.output);
    assert InOrder(AsMap(calls), s.queue.consumed) by {
      hide AsMap;
      assert forall i | 0 <= i < |s.queue.consumed| :: s.queue.consumed[i] == QueueMachine.Released(s.queue)[i];
    }
  }

  lemma {:induction false} QueueItemsPrefix(a: seq<Tagged>, b: seq<Tagged>)
    ensures QueueItems(a) <= QueueItems(a + b)
  {
    if b == [] {
      assert a + b == a;
    } else {
      QueueItemsPrefix(a, b[..|b| - 1]);
      OutputGrows(a + b[..|b| - 1], b[|b| - 1]);
      assert a + b == a + b[..|b| - 1] + [b[|b| - 1]];
    }
  }

  // ---- Calls with any counters ----

  lemma StepFollows(
      decode: Decoder, z: Sizes, calls: seq<Numbered>, order: seq<Numbered>, s: State, step: Step)
      returns (next: seq<Numbered>)
    requires QueueMachine.Follows(calls, order, s.queue) && Enabled(z, s, step)
    ensures QueueMachine.Follows(calls, next, Apply(decode, z, s, step).queue)
  {
    hide QueueMachine.Follows, QueueMachine.Apply, QueueMachine.Enabled;
    match step
    case Queue(q) => next := QueueMachine.StepFollows(calls, order, z.queueCapacity, s.queue, q);
    case Take(q) => next := QueueMachine.StepFollows(calls, order, z.queueCapacity, s.queue, q);
    case _ => next := order;
  }

  lemma {:induction false} RunFollows(
      decode: Decoder, z: Sizes, calls: seq<Numbered>, errors: seq<ClientError>, steps: seq<Step>)
      returns (order: seq<Numbered>)
    requires IsRun(decode, z, Init(calls, errors), steps)
    ensures var s := After(decode, z, Init(calls, errors), steps);
      QueueMachine.Follows(calls, order, s.queue) && OutputInv(decode, z, multiset(ErrorItems(errors)), s)
  {
    if steps == [] {
      order := [];
    } else {
      hide QueueMachine.Follows, OutputInv, Apply, Enabled;
      var s, step := After(decode, z, Init(calls, errors), steps[..|steps| - 1]), steps[|steps| - 1];
      order := RunFollows(decode, z, calls, errors, steps[..|steps| - 1]);
      order := StepFollows(decode, z, calls, order, s, step);
      StepOutput(decode, z, multiset(ErrorItems(errors)), s, step);
    }
  }

  lemma ItemsOfPrefix(decode: Decoder, a: seq<Message>, b: seq<Message>)
    requires a <= b
    ensures ItemsOf(decode, a) <= ItemsOf(decode, b)
  {
  }

  /** Whatever the counters, repeated ones included, and at every moment: the items that came through the queue and
      have been read are, in order, images of what some sequence of the calls so far releases first; and a run that
      has nothing left to do has read the images of all that a sequence of all the calls releases. */
  lemma EveryRunIsSequential(
      decode: Decoder, z: Sizes, calls: seq<Numbered>, errors: seq<ClientError>, steps: seq<Step>)
      returns (order: seq<Numbered>)
    requires IsRun(decode, z, Init(calls, errors), steps)
    ensures var s := After(decode, z, Init(calls, errors), steps);
      && multiset(order) + multiset(s.queue.pending) == multiset(calls)
      && QueueItems(s.read) <= ItemsOf(decode, AcceptAll(order).sent)
      && (Stuck(z, s) && z.outputCapacity >= 1 ==>
        && multiset(order) == multiset(calls)
        && QueueItems(s.read) == ItemsOf(decode, AcceptAll(order).sent)
        && multiset(HandlerItems(s.read)) == multiset(ErrorItems(errors)))
  {
    hide AcceptAll, IsRun, After, Stuck, QueueItems, HandlerItems, ItemsOf;
    var s := After(decode, z, Init(calls, errors), steps);
    order := RunFollows(decode, z, calls, errors, steps);
    QueueItemsPrefix(s.read, s.output);
    QueueMachine.DrainExtends(QueueMachine.View(s.queue));
    ItemsOfPrefix(decode, s.queue.consumed, AcceptAll(order).sent);
    if Stuck(z, s) && z.outputCapacity >= 1 {
      StuckIff(z, s);
      QueueMachine.StuckIff(z.queueCapacity, s.queue);
      assert s.read + s.output == s.read;
      assert QueueMachine.Released(s.queue) == s.queue.consumed;
    }
  }

  /** Every run ends, and in the end the test has read one item for each message that sequential sorting
      releases, in that order, and every handler's error once. */
  lemma EveryMaximalRunDelivers(
      decode: Decoder, z: Sizes, calls: seq<Numbered>, errors: seq<ClientError>, steps: seq<Step>)
    requires z.outputCapacity >= 1
    requires Distinct(calls) && IsRun(decode, z, Init(calls, errors), steps)
    ensures |steps| <= 12 * |calls| + 2 * |errors|
    ensures var s := After(decode, z, Init(calls, errors), steps);
      Stuck(z, s) ==>
        && QueueItems(s.read) == ItemsOf(decode, AcceptAll(calls).sent)
        && multiset(HandlerItems(s.read)) == multiset(ErrorItems(errors))
  {
    hide AcceptAll, IsRun, After, Stuck, QueueItems, HandlerItems, ItemsOf, Distinct;
    RunIsBounded(decode, z, Init(calls, errors), steps);
    var order := EveryRunIsSequential(decode, z, calls, errors, steps);
    if Stuck(z, After(decode, z, Init(calls, errors), steps)) {
      DistinctPermuted(calls, order);
      OrderIndependence(order, calls);
    }
  }

  // ---- And the errors of handlers can come in any order ----

  lemma OneMoreStep(decode: Decoder, z: Sizes, start: State, steps: seq<Step>, step: Step)
    requires IsRun(decode, z, start, steps) && Enabled(z, After(decode, z, start, steps), step)
    ensures IsRun(decode, z, start, steps + [step])
    ensures After(decode, z, start, steps + [step]) == Apply(decode, z, After(decode, z, start, steps), step)
  {
    assert (steps + [step])[..|steps|] == steps;
  }

  function HandlerErrors(order: seq<ClientError>): seq<Tagged> {
    seq(|order|, i requires 0 <= i < |order| => FromHandler(ErrorItem(order[i])))
  }

  lemma StillWaiting(errors: seq<ClientError>, order: seq<ClientError>, err: ClientError, waiting: seq<ClientError>)
      returns (i: nat)
    requires multiset(order) + multiset{err} <= multiset(errors) == multiset(order) + multiset(waiting)
    ensures i < |waiting| && waiting[i] == err
    ensures multiset(order) + multiset{err} + multiset(waiting[..i] + waiting[i + 1..]) == multiset(errors)
  {
    var before, after := multiset(order) + multiset{err}, multiset(order) + multiset(waiting);
    assert multiset(order)[err] + 1 == before[err] <= after[err] == multiset(order)[err] + multiset(waiting)[err];
    i :| 0 <= i < |waiting| && waiting[i] == err;
    assert waiting == waiting[..i] + [err] + waiting[i + 1..];
  }

  lemma ErrorPasses(decode: Decoder, z: Sizes, s: State, i: nat)
    requires i < |s.errors| && s.output == [] && z.outputCapacity >= 1
    ensures Enabled(z, s, PushError(i)) && Enabled(z, Apply(decode, z, s, PushError(i)), Pull)
    ensures Apply(decode, z, Apply(decode, z, s, PushError(i)), Pull)
      == s.(errors := s.errors[..i] + s.errors[i + 1..], read := s.read + [FromHandler(ErrorItem(s.errors[i]))])
  {
    var t := FromHandler(ErrorItem(s.errors[i]));
    assert [] + [t] == [t] && [t][1..] == [];
  }

  lemma OneMoreError(order: seq<ClientError>, err: ClientError)
    ensures HandlerErrors(order + [err]) == HandlerErrors(order) + [FromHandler(ErrorItem(err))]
  {
  }

  lemma {:induction false} ErrorsCanPass(
      decode: Decoder, z: Sizes, calls: seq<Numbered>, errors: seq<ClientError>, order: seq<ClientError>)
      returns (steps: seq<Step>, waiting: seq<ClientError>)
    requires z.outputCapacity >= 1 && multiset(order) <= multiset(errors)
    ensures multiset(order) + multiset(waiting) == multiset(errors)
    ensures IsRun(decode, z, Init(calls, errors), steps)
    ensures After(decode, z, Init(calls, errors), steps)
      == State(QueueMachine.Init(calls), None, waiting, [], HandlerErrors(order))
  {
    if order == [] {
      steps, waiting := [], errors;
    } else {
      hide IsRun, After, Enabled, Apply, HandlerErrors;
      var start := Init(calls, errors);
      var init, last := order[..|order| - 1], order[|order| - 1];
      assert order == init + [last];
      steps, waiting := ErrorsCanPass(decode, z, calls, errors, init);
      var i := StillWaiting(errors, init, last, waiting);
      ErrorPasses(decode, z, After(decode, z, start, steps), i);
      OneMoreStep(decode, z, start, steps, PushError(i));
      OneMoreStep(decode, z, start, steps + [PushError(i)], Pull);
      OneMoreError(init, last);
      steps, waiting := steps + [PushError(i)] + [Pull], waiting[..i] + waiting[i + 1..];
    }
  }

  /** The order in which handlers get their errors into the output channel is open: each order of them is read in some
      run, with no call handled yet. */
  lemma EveryErrorOrderIsPossible(
      decode: Decoder, z: Sizes, calls: seq<Numbered>, errors: seq<ClientError>, order: seq<ClientError>)
      returns (steps: seq<Step>)
    requires z.outputCapacity >= 1 && multiset(order) == multiset(errors)
    ensures IsRun(decode, z, Init(calls, errors), steps)
    ensures var s := After(decode, z, Init(calls, errors), steps);
      s.errors == [] && |s.read| == |order| && forall i | 0 <= i < |order| :: s.read[i].item == ErrorItem(order[i])
  {
    hide IsRun, After;
    var waiting: seq<ClientError>;
    steps, waiting := ErrorsCanPass(decode, z, calls, errors, order);
    assert |multiset(order) + multiset(waiting)| == |order| + |waiting|;
    assert |multiset(errors)| == |multiset(order)| == |order|;
  }

  // ---- When no error of the harness reads as a message ----

  ghost predicate NoErrors(items: seq<Item>) {
    forall i | 0 <= i < |items| :: items[i].err.None?
  }

  ghost predicate NoErrorsRead(ts: seq<Tagged>) {
    forall i | 0 <= i < |ts| :: ts[i].item.err.None?
  }

  lemma {:induction false} NoErrorsReadIff(ts: seq<Tagged>)
    ensures NoErrorsRead(ts) <==> NoErrors(QueueItems(ts)) && NoErrors(HandlerItems(ts))
  {
    if ts != [] {
      var init, last := ts[..|ts| - 1], ts[|ts| - 1];
      NoErrorsReadIff(init);
      assert NoErrorsRead(ts) <==> NoErrorsRead(init) && last.item.err.None?;
      NoErrorsAppend(QueueItems(init), last.item);
      NoErrorsAppend(HandlerItems(init), last.item);
      assert QueueItems(init) + [] == QueueItems(init) && HandlerItems(init) + [] == HandlerItems(init);
    }
  }

  lemma NoErrorsAppend(items: seq<Item>, last: Item)
    ensures NoErrors(items + [last]) <==> NoErrors(items) && last.err.None?
  {
    assert (items + [last])[|items|] == last;
    assert forall i | 0 <= i < |items| :: (items + [last])[i] == items[i];
  }

  /** `AwaitMessage` gives an item's message without its error, so the test reads an error of the harness as a blank
      message. A run that has nothing left to do is free of that if and only if every handler accepted its request
      and every message that sequential sorting releases could be decoded. */
  lemma NoBlankMessagesIff(
      decode: Decoder, z: Sizes, calls: seq<Numbered>, errors: seq<ClientError>, steps: seq<Step>)
    requires z.outputCapacity >= 1
    requires Distinct(calls) && IsRun(decode, z, Init(calls, errors), steps)
    ensures var s, sent := After(decode, z, Init(calls, errors), steps), AcceptAll(calls).sent;
      Stuck(z, s) ==>
        ((forall i | 0 <= i < |s.read| :: s.read[i].item.err.None?)
          <==> errors == [] && forall i | 0 <= i < |sent| :: decode(sent[i]).Some?)
  {
    hide AcceptAll, IsRun, After, QueueItems, HandlerItems;
    var s, sent := After(decode, z, Init(calls, errors), steps), AcceptAll(calls).sent;
    EveryMaximalRunDelivers(decode, z, calls, errors, steps);
    if Stuck(z, s) {
      NoErrorsReadIff(s.read);
      NoErrorsSameItems(HandlerItems(s.read), ErrorItems(errors));
      assert NoErrors(ErrorItems(errors)) <==> errors == [] by {
        assert errors != [] ==> ErrorItems(errors)[0].err.Some?;
      }
      assert NoErrors(ItemsOf(decode, sent)) <==> forall i | 0 <= i < |sent| :: decode(sent[i]).Some? by {
        assert forall i | 0 <= i < |sent| :: ItemsOf(decode, sent)[i].err.None? <==> decode(sent[i]).Some?;
      }
    }
  }

  lemma NoErrorsSameItems(a: seq<Item>, b: seq<Item>)
    requires multiset(a) == multiset(b)
    ensures NoErrors(a) <==> NoErrors(b)
  {
    forall i | 0 <= i < |a| ensures a[i] in b {
      assert a[i] in multiset(b);
    }
    forall i | 0 <= i < |b| ensures b[i] in a {
      assert b[i] in multiset(a);
    }
  }
}
