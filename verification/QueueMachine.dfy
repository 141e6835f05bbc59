/** `Accept` called by any number of goroutines, with one lock, blocking sends on a bounded channel that
    are made while the lock is held, and a consumer on the other end. One step is one thing that the
    other goroutines can observe: what happens under the lock between two channel operations is one step. */
module QueueMachine {
  import opened MessageSorting

  /** What the goroutine that holds the lock is about to do. */
  datatype Holder =
    | Free                       // nobody holds the lock
    | Sending(message: Message)  // blocked, or about to be, in `C <- message`
    | Draining                   // at the head of the drain loop

  datatype State = State(
    pending: seq<Numbered>,    // calls of Accept that do not have the lock yet
    lastCounter: int,
    deferred: seq<Numbered>,
    holder: Holder,
    channel: seq<Message>,     // the buffer of C
    consumed: seq<Message>)    // what the consumer has received, in order

  datatype Step =
    | Acquire(i: nat)  // the i-th pending call gets the lock; it defers its message or starts to send it
    | Send             // the holder's send completes: there is room in the buffer
    | Handoff          // the holder's send completes: the buffer is empty and the consumer is receiving
    | DrainNext        // the drain loop takes the first deferred message
    | Unlock           // the drain loop ends
    | Receive          // the consumer takes the oldest message of the buffer

  predicate Enabled(capacity: nat, s: State, step: Step) {
    match step
    case Acquire(i) => s.holder.Free? && i < |s.pending|
    case Send => s.holder.Sending? && |s.channel| < capacity
    case Handoff => s.holder.Sending? && s.channel == []
    case DrainNext => s.holder.Draining? && s.deferred != [] && s.deferred[0].counter == s.lastCounter + 1
    case Unlock => s.holder.Draining? && !(s.deferred != [] && s.deferred[0].counter == s.lastCounter + 1)
    case Receive => s.channel != []
  }

  function Apply(capacity: nat, s: State, step: Step): State
    requires Enabled(capacity, s, step)
  {
    match step
    case Acquire(i) =>
      var call := s.pending[i];
      var rest := s.(pending := s.pending[..i] + s.pending[i + 1..]);
      if call.counter > s.lastCounter + 1 then
        rest.(deferred := SortByCounter(s.deferred + [call]))
      else
        rest.(lastCounter := call.counter, holder := Sending(call.message))
    case Send => s.(channel := s.channel + [s.holder.message], holder := Draining)
    case Handoff => s.(consumed := s.consumed + [s.holder.message], holder := Draining)
    case DrainNext =>
      s.(lastCounter := s.lastCounter + 1, deferred := s.deferred[1..], holder := Sending(s.deferred[0].message))
    case Unlock => s.(holder := Free)
    case Receive => s.(channel := s.channel[1..], consumed := s.consumed + [s.channel[0]])
  }

  function Init(calls: seq<Numbered>): State {
    State(calls, 0, [], Free, [], [])
  }

  /** A run is the list of its steps. */
  predicate IsRun(capacity: nat, start: State, steps: seq<Step>)
    decreases |steps|, 0
  {
    steps == [] ||
    (IsRun(capacity, start, steps[..|steps| - 1]) &&
     Enabled(capacity, After(capacity, start, steps[..|steps| - 1]), steps[|steps| - 1]))
  }

  function After(capacity: nat, start: State, steps: seq<Step>): State
    requires IsRun(capacity, start, steps)
    decreases |steps|, 1
  {
    if steps == [] then start
    else Apply(capacity, After(capacity, start, steps[..|steps| - 1]), steps[|steps| - 1])
  }

  ghost predicate Stuck(capacity: nat, s: State) {
    forall step: Step :: !Enabled(capacity, s, step)
  }

  // ---- The invariant ----

  function InHand(s: State): seq<Message> {
    if s.holder.Sending? then [s.holder.message] else []
  }

  /** Everything released: consumed, buffered, or in the hand of the lock holder. */
  function Released(s: State): seq<Message> {
    s.consumed + s.channel + InHand(s)
  }

  /** The calls that still wait for the lock, seen against everything that will ever be accepted. */
  ghost predicate StillToCome(acc: Accepted, s: State) {
    && (forall i | 0 <= i < |s.pending| ::
      && s.lastCounter < s.pending[i].counter
      && s.pending[i].counter in acc
      && acc[s.pending[i].counter] == s.pending[i].message
      && !HasCounter(s.deferred, s.pending[i].counter))
    && (forall i, j | 0 <= i < j < |s.pending| :: s.pending[i].counter != s.pending[j].counter)
  }

  ghost predicate NothingLost(acc: Accepted, s: State) {
    forall c | c in acc :: 1 <= c && (c <= s.lastCounter || HasCounter(s.deferred, c) || HasCounter(s.pending, c))
  }

  ghost predicate Inv(acc: Accepted, capacity: nat, s: State) {
    && s.lastCounter == |Released(s)|
    && InOrder(acc, Released(s))
    && Waiting(acc, s.deferred, s.lastCounter)
    && (s.holder.Free? ==> !HasCounter(s.deferred, s.lastCounter + 1))
    && StillToCome(acc, s)
    && NothingLost(acc, s)
    && |s.channel| <= capacity
  }

  lemma InitInv(calls: seq<Numbered>, capacity: nat)
    requires Distinct(calls)
    ensures Inv(AsMap(calls), capacity, Init(calls))
  {
    AsMapMember(calls);
    forall c | c in AsMap(calls) ensures 1 <= c && HasCounter(calls, c) {
      var i :| 0 <= i < |calls| && calls[i].counter == c;
    }
  }

  lemma RemovedCounter(s: seq<Numbered>, i: nat, c: int)
    requires i < |s| && HasCounter(s, c) && s[i].counter != c
    ensures HasCounter(s[..i] + s[i + 1..], c)
  {
    var k :| 0 <= k < |s| && s[k].counter == c;
    var rest := s[..i] + s[i + 1..];
    assert if k < i then rest[k] == s[k] else rest[k - 1] == s[k];
  }

  lemma PendingRest(acc: Accepted, s: State, s': State, i: nat)
    requires StillToCome(acc, s) && i < |s.pending|
    requires s'.pending == s.pending[..i] + s.pending[i + 1..] && s'.lastCounter == s.lastCounter
    requires forall c :: HasCounter(s'.deferred, c) <==> HasCounter(s.deferred, c) || c == s.pending[i].counter
    ensures StillToCome(acc, s')
  {
    forall k | 0 <= k < |s'.pending| ensures s'.pending[k] == s.pending[if k < i then k else k + 1] {}
  }

  lemma AcquireDefersInv(acc: Accepted, capacity: nat, s: State, i: nat)
    requires Inv(acc, capacity, s) && Enabled(capacity, s, Acquire(i))
    requires s.pending[i].counter > s.lastCounter + 1
    ensures Inv(acc, capacity, Apply(capacity, s, Acquire(i)))
  {
    var call, s' := s.pending[i], Apply(capacity, s, Acquire(i));
    DeferIsInsert(s.deferred, call);
    InsertWaits(acc, s.deferred, s.lastCounter, call);
    forall c ensures HasCounter(s'.deferred, c) <==> HasCounter(s.deferred, c) || c == call.counter {
      InsertCounter(s.deferred, call, c);
    }
    PendingRest(acc, s, s', i);
    assert NothingLost(acc, s') by {
      forall c | c in acc && HasCounter(s.pending, c) ensures c == call.counter || HasCounter(s'.pending, c) {
        if c != call.counter {
          RemovedCounter(s.pending, i, c);
        }
      }
    }
    assert Released(s') == Released(s);
  }

  lemma AcquireSendsInv(acc: Accepted, capacity: nat, s: State, i: nat)
    requires Inv(acc, capacity, s) && Enabled(capacity, s, Acquire(i))
    requires s.pending[i].counter <= s.lastCounter + 1
    ensures Inv(acc, capacity, Apply(capacity, s, Acquire(i)))
  {
    var call, s' := s.pending[i], Apply(capacity, s, Acquire(i));
    assert call.counter == s.lastCounter + 1;
    assert Released(s') == Released(s) + [call.message];
    PendingAfterSend(acc, s, s', i);
    assert Inv(acc, capacity, s') by {
      hide StillToCome, NothingLost;
      forall k | 0 <= k < |s.deferred| ensures s.deferred[k].counter != call.counter {}
    }
  }

  lemma PendingAfterSend(acc: Accepted, s: State, s': State, i: nat)
    requires StillToCome(acc, s) && NothingLost(acc, s) && i < |s.pending|
    requires s.pending[i].counter == s.lastCounter + 1 == s'.lastCounter && s'.deferred == s.deferred
    requires s'.pending == s.pending[..i] + s.pending[i + 1..]
    ensures StillToCome(acc, s') && NothingLost(acc, s')
  {
    forall k | 0 <= k < |s'.pending| ensures s'.pending[k] == s.pending[if k < i then k else k + 1] {}
    forall c | c in acc ensures c <= s'.lastCounter || HasCounter(s'.deferred, c) || HasCounter(s'.pending, c) {
      if c > s'.lastCounter && HasCounter(s.pending, c) {
        RemovedCounter(s.pending, i, c);
      }
    }
  }

  lemma DrainNextInv(acc: Accepted, capacity: nat, s: State)
    requires Inv(acc, capacity, s) && Enabled(capacity, s, DrainNext)
    ensures Inv(acc, capacity, Apply(capacity, s, DrainNext))
  {
    var s' := Apply(capacity, s, DrainNext);
    assert s.deferred[0].counter == s'.lastCounter;
    assert Released(s') == Released(s) + [s.deferred[0].message];
    forall k | 0 <= k < |s'.deferred| ensures s'.lastCounter < s'.deferred[k].counter {
      assert s.deferred[0].counter < s.deferred[k + 1].counter;
    }
    forall k | 0 <= k < |s.pending|
      ensures s.pending[k].counter != s'.lastCounter && !HasCounter(s'.deferred, s.pending[k].counter)
    {
      assert HasCounter(s.deferred, s'.lastCounter);
      forall j | 0 <= j < |s'.deferred| ensures s'.deferred[j].counter != s.pending[k].counter {
        assert s.deferred[j + 1] == s'.deferred[j];
      }
    }
    forall c | c in acc && c > s'.lastCounter && HasCounter(s.deferred, c) ensures HasCounter(s'.deferred, c) {
      RemovedCounter(s.deferred, 0, c);
      assert s.deferred[..0] + s.deferred[1..] == s'.deferred;
    }
  }

  /** Every step of every goroutine keeps the invariant. */
  lemma StepInv(acc: Accepted, capacity: nat, s: State, step: Step)
    requires Inv(acc, capacity, s) && Enabled(capacity, s, step)
    ensures Inv(acc, capacity, Apply(capacity, s, step))
  {
    var s' := Apply(capacity, s, step);
    match step
    case Acquire(i) =>
      if s.pending[i].counter > s.lastCounter + 1 {
        AcquireDefersInv(acc, capacity, s, i);
      } else {
        AcquireSendsInv(acc, capacity, s, i);
      }
    case Send => assert Released(s') == Released(s);
    case Handoff => assert Released(s') == Released(s);
    case DrainNext => DrainNextInv(acc, capacity, s);
    case Unlock =>
      forall k | 0 <= k < |s.deferred| ensures s.deferred[k].counter != s.lastCounter + 1 {
        assert k > 0 ==> s.deferred[0].counter < s.deferred[k].counter;
      }
      assert Released(s') == Released(s);
    case Receive => assert Released(s') == Released(s);
  }

  // ---- Safety in every interleaving ----

  lemma {:induction false} RunInv(calls: seq<Numbered>, capacity: nat, steps: seq<Step>)
    requires Distinct(calls) && IsRun(capacity, Init(calls), steps)
    ensures Inv(AsMap(calls), capacity, After(capacity, Init(calls), steps))
  {
    if steps == [] {
      InitInv(calls, capacity);
    } else {
      RunInv(calls, capacity, steps[..|steps| - 1]);
      StepInv(AsMap(calls), capacity, After(capacity, Init(calls), steps[..|steps| - 1]), steps[|steps| - 1]);
    }
  }

  /** In every interleaving, at every moment: consumed, then buffered, then in hand are exactly
      messages 1 to lastCounter, in order. */
  lemma AlwaysInOrder(calls: seq<Numbered>, capacity: nat, steps: seq<Step>)
    requires Distinct(calls) && IsRun(capacity, Init(calls), steps)
    ensures var s := After(capacity, Init(calls), steps);
      && s.lastCounter == |s.consumed + s.channel + InHand(s)|
      && InOrder(AsMap(calls), s.consumed + s.channel + InHand(s))
      && InOrder(AsMap(calls), s.consumed)
  {
    RunInv(calls, capacity, steps);
    var s := After(capacity, Init(calls), steps);
    assert forall i | 0 <= i < |s.consumed| :: s.consumed[i] == Released(s)[i];
  }

  // ---- No deadlock, no endless run ----

  /** A step for every state that still has something to do. */
  function NextStep(s: State): Step {
    if s.channel != [] then Receive
    else match s.holder
      case Free => Acquire(0)
      case Sending(_) => Handoff
      case Draining =>
        if s.deferred != [] && s.deferred[0].counter == s.lastCounter + 1 then DrainNext else Unlock
  }

  /** The system stops only when every call has returned and the buffer is empty. */
  lemma StuckIff(capacity: nat, s: State)
    ensures Stuck(capacity, s) <==> s.pending == [] && s.holder.Free? && s.channel == []
  {
    if !(s.pending == [] && s.holder.Free? && s.channel == []) {
      assert Enabled(capacity, s, NextStep(s));
    }
  }

  function Work(s: State): nat {
    4 * |s.pending| + 3 * |s.deferred| + |s.channel| +
    (match s.holder case Free => 0 case Sending(_) => 3 case Draining => 1)
  }

  lemma SortLength(d: seq<Numbered>, x: Numbered)
    ensures |SortByCounter(d + [x])| == |d| + 1
  {
    SortByCounterSorts(d + [x]);
    assert |multiset(SortByCounter(d + [x]))| == |multiset(d + [x])|;
  }

  lemma StepWorks(capacity: nat, s: State, step: Step)
    requires Enabled(capacity, s, step)
    ensures Work(Apply(capacity, s, step)) < Work(s)
  {
    if step.Acquire? {
      SortLength(s.deferred, s.pending[step.i]);
    }
  }

  lemma {:induction false} RunIsBounded(capacity: nat, start: State, steps: seq<Step>)
    requires IsRun(capacity, start, steps)
    ensures |steps| + Work(After(capacity, start, steps)) <= Work(start)
  {
    if steps != [] {
      RunIsBounded(capacity, start, steps[..|steps| - 1]);
      StepWorks(capacity, After(capacity, start, steps[..|steps| - 1]), steps[|steps| - 1]);
    }
  }

  /** Where the machine stops, it has settled: the consumer has the whole gap-free prefix. */
  lemma StuckSettles(acc: Accepted, capacity: nat, s: State)
    requires Inv(acc, capacity, s) && Stuck(capacity, s)
    ensures Settled(acc, QueueState(s.lastCounter, s.deferred, s.consumed))
  {
    StuckIff(capacity, s);
    assert Released(s) == s.consumed;
    assert s.lastCounter + 1 in acc ==> HasCounter(s.deferred, s.lastCounter + 1);
  }

  /** Every run ends, after at most four steps a call, and wherever it ends the consumer has received
      just what calling `Accept` on one goroutine, in the order given, would have released. The
      interleaving, the order of arrival and the size of the channel make no difference. */
  lemma EveryMaximalRunAgrees(calls: seq<Numbered>, capacity: nat, steps: seq<Step>)
    requires Distinct(calls) && IsRun(capacity, Init(calls), steps)
    ensures |steps| <= 4 * |calls|
    ensures var s := After(capacity, Init(calls), steps);
      Stuck(capacity, s) ==> QueueState(s.lastCounter, s.deferred, s.consumed) == AcceptAll(calls)
  {
    RunIsBounded(capacity, Init(calls), steps);
    RunInv(calls, capacity, steps);
    var s := After(capacity, Init(calls), steps);
    if Stuck(capacity, s) {
      StuckSettles(AsMap(calls), capacity, s);
      AcceptAllSettles(calls);
      SettledUnique(AsMap(calls), QueueState(s.lastCounter, s.deferred, s.consumed), AcceptAll(calls));
    }
  }

  // ---- Calls with any counters: the lock makes every run a sequential one ----

  /** The state of the queue, with everything that is released counted as sent. */
  function View(s: State): QueueState {
    QueueState(s.lastCounter, s.deferred, Released(s))
  }

  /** The calls that have had the lock, in the order in which they got it, account for the state: between calls it is
      what calling them one after the other gives, and within a call it is on the way there. */
  ghost predicate Follows(calls: seq<Numbered>, order: seq<Numbered>, s: State) {
    && multiset(order) + multiset(s.pending) == multiset(calls)
    && AcceptAll(order) == if s.holder.Free? then View(s) else Drain(View(s))
  }

  lemma AcquireFollows(calls: seq<Numbered>, order: seq<Numbered>, capacity: nat, s: State, i: nat)
    requires Follows(calls, order, s) && Enabled(capacity, s, Acquire(i))
    ensures Follows(calls, order + [s.pending[i]], Apply(capacity, s, Acquire(i)))
  {
    hide SortByCounter, Drain, AcceptAll;
    var call, s' := s.pending[i], Apply(capacity, s, Acquire(i));
    OneMoreCall(order, call);
    assert s.pending == s.pending[..i] + [call] + s.pending[i + 1..];
    assert Released(s') == Released(s) + (if s'.holder.Free? then [] else [call.message]);
  }

  lemma DrainOnce(q: QueueState)
    ensures Drain(q) ==
      if q.deferred != [] && q.deferred[0].counter == q.lastCounter + 1 then
        Drain(QueueState(q.lastCounter + 1, q.deferred[1..], q.sent + [q.deferred[0].message]))
      else q
  {
  }

  lemma DrainFollows(calls: seq<Numbered>, order: seq<Numbered>, capacity: nat, s: State, step: Step)
    requires Follows(calls, order, s) && Enabled(capacity, s, step) && (step.DrainNext? || step.Unlock?)
    ensures Follows(calls, order, Apply(capacity, s, step))
  {
    hide AcceptAll, Drain;
    var s' := Apply(capacity, s, step);
    DrainOnce(View(s));
    assert Released(s') == Released(s) + if step.DrainNext? then [s.deferred[0].message] else [];
  }

  lemma StepFollows(calls: seq<Numbered>, order: seq<Numbered>, capacity: nat, s: State, step: Step)
      returns (next: seq<Numbered>)
    requires Follows(calls, order, s) && Enabled(capacity, s, step)
    ensures Follows(calls, next, Apply(capacity, s, step))
  {
    next := order;
    if step.Acquire? {
      AcquireFollows(calls, order, capacity, s, step.i);
      next := order + [s.pending[step.i]];
    } else if step.DrainNext? || step.Unlock? {
      DrainFollows(calls, order, capacity, s, step);
    } else {
      hide AcceptAll, Drain;
      assert Released(Apply(capacity, s, step)) == Released(s);
    }
  }

  lemma {:induction false} RunFollows(calls: seq<Numbered>, capacity: nat, steps: seq<Step>)
      returns (order: seq<Numbered>)
    requires IsRun(capacity, Init(calls), steps)
    ensures Follows(calls, order, After(capacity, Init(calls), steps))
  {
    if steps == [] {
      order := [];
    } else {
      order := RunFollows(calls, capacity, steps[..|steps| - 1]);
      order := StepFollows(
        calls, order, capacity, After(capacity, Init(calls), steps[..|steps| - 1]), steps[|steps| - 1]);
    }
  }

  lemma {:induction false} DrainExtends(q: QueueState)
    ensures q.sent <= Drain(q).sent
    decreases |q.deferred|
  {
    if q.deferred != [] && q.deferred[0].counter == q.lastCounter + 1 {
      DrainExtends(QueueState(q.lastCounter + 1, q.deferred[1..], q.sent + [q.deferred[0].message]));
    }
  }

  /** Whatever the counters, repeated ones included, and at every moment: what is released is the beginning of what
      some sequence of the calls so far releases on one goroutine; and where the system stops, all calls are in that
      sequence and it leaves the very same state. */
  lemma EveryRunIsSequential(calls: seq<Numbered>, capacity: nat, steps: seq<Step>) returns (order: seq<Numbered>)
    requires IsRun(capacity, Init(calls), steps)
    ensures var s := After(capacity, Init(calls), steps);
      && multiset(order) + multiset(s.pending) == multiset(calls)
      && s.consumed + s.channel + InHand(s) <= AcceptAll(order).sent
      && (Stuck(capacity, s) ==>
        && multiset(order) == multiset(calls)
        && QueueState(s.lastCounter, s.deferred, s.consumed) == AcceptAll(order))
  {
    hide AcceptAll, Stuck;
    var s := After(capacity, Init(calls), steps);
    order := RunFollows(calls, capacity, steps);
    StuckIff(capacity, s);
    DrainExtends(View(s));
  }

  /** Concurrent calls leave the queue within its contract if and only if their counters are distinct and positive:
      no interleaving repairs a repeated counter, and none breaks distinct ones. */
  lemma ContractHoldsInRunsIff(calls: seq<Numbered>, capacity: nat, steps: seq<Step>)
    requires IsRun(capacity, Init(calls), steps)
    ensures var s := After(capacity, Init(calls), steps);
      Stuck(capacity, s) ==>
        ((exists acc :: Settled(acc, QueueState(s.lastCounter, s.deferred, s.consumed))) <==> Distinct(calls))
  {
    hide AcceptAll, Settled, Distinct;
    var order := EveryRunIsSequential(calls, capacity, steps);
    if Stuck(capacity, After(capacity, Init(calls), steps)) {
      ContractHoldsIff(order);
      if Distinct(order) {
        DistinctPermuted(order, calls);
      }
      if Distinct(calls) {
        DistinctPermuted(calls, order);
      }
    }
  }

  // ---- And every sequential behaviour is that of some run ----

  /** Without the consumer, the callers get on until every call has returned, or the one that has the lock finds the
      buffer full; nothing else blocks them. */
  lemma CallersBlockIff(capacity: nat, s: State)
    ensures (forall step: Step | !step.Receive? && !step.Handoff? :: !Enabled(capacity, s, step)) <==>
      (s.holder.Free? && s.pending == []) || (s.holder.Sending? && |s.channel| >= capacity)
  {
    var next :=
      match s.holder
      case Free => Acquire(0)
      case Sending(_) => Send
      case Draining =>
        if s.deferred != [] && s.deferred[0].counter == s.lastCounter + 1 then DrainNext else Unlock;
    if !((s.holder.Free? && s.pending == []) || (s.holder.Sending? && |s.channel| >= capacity)) {
      assert Enabled(capacity, s, next);
    }
  }

  lemma OneMoreStep(capacity: nat, start: State, steps: seq<Step>, step: Step)
    requires IsRun(capacity, start, steps) && Enabled(capacity, After(capacity, start, steps), step)
    ensures IsRun(capacity, start, steps + [step])
    ensures After(capacity, start, steps + [step]) == Apply(capacity, After(capacity, start, steps), step)
  {
    assert (steps + [step])[..|steps|] == steps;
  }

  /** Between calls, with the consumer up to date. */
  predicate AtRest(s: State, pending: seq<Numbered>, q: QueueState) {
    s == State(pending, q.lastCounter, q.deferred, Free, [], q.sent)
  }

  /** The call that has the lock can go on to its end while the consumer takes each message as it is sent. */
  lemma {:induction false} CallCanFinish(capacity: nat, start: State, steps: seq<Step>) returns (all: seq<Step>)
    requires IsRun(capacity, start, steps)
    requires After(capacity, start, steps).holder.Sending? && After(capacity, start, steps).channel == []
    ensures IsRun(capacity, start, all)
    ensures var s := After(capacity, start, steps); AtRest(After(capacity, start, all), s.pending, Drain(View(s)))
    decreases |After(capacity, start, steps).deferred|
  {
    hide IsRun, After, Drain;
    var s := After(capacity, start, steps);
    OneMoreStep(capacity, start, steps, Handoff);
    all := steps + [Handoff];
    var s' := After(capacity, start, all);
    assert Released(s) == s'.consumed;
    DrainOnce(View(s));
    if s.deferred != [] && s.deferred[0].counter == s.lastCounter + 1 {
      OneMoreStep(capacity, start, all, DrainNext);
      all := all + [DrainNext];
      assert Released(After(capacity, start, all)) == s'.consumed + [s.deferred[0].message];
      all := CallCanFinish(capacity, start, all);
    } else {
      OneMoreStep(capacity, start, all, Unlock);
      all := all + [Unlock];
    }
  }

  lemma CallCanRun(
      capacity: nat, start: State, steps: seq<Step>, pending: seq<Numbered>, q: QueueState, i: nat)
      returns (all: seq<Step>)
    requires IsRun(capacity, start, steps) && AtRest(After(capacity, start, steps), pending, q) && i < |pending|
    ensures IsRun(capacity, start, all)
    ensures AtRest(After(capacity, start, all), pending[..i] + pending[i + 1..], AfterAccept(q, pending[i]))
  {
    hide IsRun, After, Drain, SortByCounter;
    OneMoreStep(capacity, start, steps, Acquire(i));
    all := steps + [Acquire(i)];
    var s := After(capacity, start, all);
    if s.holder.Sending? {
      assert Released(s) == q.sent + [pending[i].message];
      all := CallCanFinish(capacity, start, all);
    }
  }

  lemma StillPending(calls: seq<Numbered>, order: seq<Numbered>, call: Numbered, pending: seq<Numbered>)
      returns (i: nat)
    requires multiset(order) + multiset{call} <= multiset(calls) == multiset(order) + multiset(pending)
    ensures i < |pending| && pending[i] == call
    ensures multiset(order) + multiset{call} + multiset(pending[..i] + pending[i + 1..]) == multiset(calls)
  {
    var before, after := multiset(order) + multiset{call}, multiset(order) + multiset(pending);
    assert multiset(order)[call] + 1 == before[call] <= after[call] == multiset(order)[call] + multiset(pending)[call];
    i :| 0 <= i < |pending| && pending[i] == call;
    assert pending == pending[..i] + [call] + pending[i + 1..];
  }

  lemma {:induction false} SequenceCanRun(calls: seq<Numbered>, capacity: nat, order: seq<Numbered>)
      returns (steps: seq<Step>, pending: seq<Numbered>)
    requires multiset(order) <= multiset(calls)
    ensures IsRun(capacity, Init(calls), steps)
    ensures AtRest(After(capacity, Init(calls), steps), pending, AcceptAll(order))
    ensures multiset(order) + multiset(pending) == multiset(calls)
  {
    hide AfterAccept;
    if order == [] {
      steps, pending := [], calls;
    } else {
      hide IsRun, After;
      var init, last := order[..|order| - 1], order[|order| - 1];
      assert order == init + [last];
      steps, pending := SequenceCanRun(calls, capacity, init);
      var i := StillPending(calls, init, last, pending);
      steps := CallCanRun(capacity, Init(calls), steps, pending, AcceptAll(init), i);
      pending := pending[..i] + pending[i + 1..];
    }
  }

  /** The converse of `EveryRunIsSequential`: whatever the size of the channel, each order of the calls is that of some
      run that stops in the state which this order leaves. */
  lemma EverySequenceIsARun(calls: seq<Numbered>, capacity: nat, order: seq<Numbered>) returns (steps: seq<Step>)
    requires multiset(order) == multiset(calls)
    ensures IsRun(capacity, Init(calls), steps)
    ensures var s := After(capacity, Init(calls), steps);
      Stuck(capacity, s) && QueueState(s.lastCounter, s.deferred, s.consumed) == AcceptAll(order)
  {
    hide IsRun, After, AcceptAll, Stuck;
    var pending: seq<Numbered>;
    steps, pending := SequenceCanRun(calls, capacity, order);
    assert |multiset(order) + multiset(pending)| == |order| + |pending|;
    StuckIff(capacity, After(capacity, Init(calls), steps));
  }
}
