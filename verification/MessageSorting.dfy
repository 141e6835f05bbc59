/** The reorder buffer of framework/harness/message_sorting_queue.go. */
module MessageSorting {
  import opened Bytes

  /** A callback body; its content plays no part in the sorting. */
  type Message = Bytes

  datatype Numbered = Numbered(counter: int, message: Message)

  /** What a queue holds, and everything it has sent to its channel so far. */
  datatype QueueState = QueueState(lastCounter: int, deferred: seq<Numbered>, sent: seq<Message>)

  const EMPTY: QueueState := QueueState(0, [], [])

  // ---- sort.Slice by counter ----

  function Insert(sorted: seq<Numbered>, x: Numbered): seq<Numbered> {
    if sorted == [] then [x]
    else
      var last := sorted[|sorted| - 1];
      if last.counter <= x.counter then sorted + [x]
      else Insert(sorted[..|sorted| - 1], x) + [last]
  }

  function SortByCounter(s: seq<Numbered>): seq<Numbered> {
    if s == [] then [] else Insert(SortByCounter(s[..|s| - 1]), s[|s| - 1])
  }

  predicate StrictlySorted(s: seq<Numbered>) {
    forall i, j | 0 <= i < j < |s| :: s[i].counter < s[j].counter
  }

  ghost predicate HasCounter(s: seq<Numbered>, c: int) {
    exists i :: 0 <= i < |s| && s[i].counter == c
  }

  // ---- Accept, as a function of the state ----

  /** The drain loop: release deferred messages for as long as the first one is next in line. */
  function Drain(q: QueueState): QueueState
    decreases |q.deferred|
  {
    if q.deferred != [] && q.deferred[0].counter == q.lastCounter + 1 then
      Drain(QueueState(q.lastCounter + 1, q.deferred[1..], q.sent + [q.deferred[0].message]))
    else q
  }

  function AfterAccept(q: QueueState, call: Numbered): QueueState {
    if call.counter > q.lastCounter + 1 then
      q.(deferred := SortByCounter(q.deferred + [call]))
    else
      Drain(QueueState(call.counter, q.deferred, q.sent + [call.message]))
  }

  function AcceptAll(calls: seq<Numbered>): QueueState {
    if calls == [] then EMPTY
    else AfterAccept(AcceptAll(calls[..|calls| - 1]), calls[|calls| - 1])
  }

  class MessageSortingQueue {
    var sent: seq<Message>  // everything sent on channel C, in order
    var lastCounter: int
    var deferred: seq<Numbered>

    function State(): QueueState
      reads this
    {
      QueueState(lastCounter, deferred, sent)
    }

    constructor ()
      ensures State() == EMPTY
    {
      sent, lastCounter, deferred := [], 0, [];
    }

    method Accept(counter: int, message: Message)
      modifies this
      ensures State() == AfterAccept(old(State()), Numbered(counter, message))
    {
      if counter > lastCounter + 1 {
        deferred := deferred + [Numbered(counter, message)];
        deferred := SortByCounter(deferred);
        return;
      }
      lastCounter := counter;
      sent := sent + [message];
      ghost var start := State();
      while |deferred| > 0
        invariant Drain(State()) == Drain(start)
        decreases |deferred|
      {
        var next := deferred[0];
        if next.counter != lastCounter + 1 {
          break;
        }
        deferred := deferred[1..];
        lastCounter := lastCounter + 1;
        sent := sent + [next.message];
      }
    }

    method Deferred() returns (ret: seq<Message>)
      ensures |ret| == |deferred| && forall i | 0 <= i < |ret| :: ret[i] == deferred[i].message
    {
      ret := [];
      for i := 0 to |deferred|
        invariant |ret| == i && forall j | 0 <= j < i :: ret[j] == deferred[j].message
      {
        ret := ret + [deferred[i].message];
      }
    }
  }

  // ---- What the queue promises, without saying how ----

  /** The messages handed to `Accept` so far, by counter. */
  type Accepted = map<int, Message>

  /** `out` is messages 1, 2, ..., |out| in order. */
  ghost predicate InOrder(acc: Accepted, out: seq<Message>) {
    forall c | 1 <= c <= |out| :: c in acc && out[c - 1] == acc[c]
  }

  /** Every waiting message was accepted, comes after `low`, and has a counter of its own. */
  ghost predicate Waiting(acc: Accepted, deferred: seq<Numbered>, low: int) {
    && StrictlySorted(deferred)
    && forall i | 0 <= i < |deferred| ::
      && low < deferred[i].counter
      && deferred[i].counter in acc
      && acc[deferred[i].counter] == deferred[i].message
  }

  /** Between two sends: all that is released is in order, and nothing accepted is lost. */
  ghost predicate Consistent(acc: Accepted, q: QueueState) {
    && q.lastCounter == |q.sent|
    && InOrder(acc, q.sent)
    && Waiting(acc, q.deferred, q.lastCounter)
    && forall c | c in acc :: 1 <= c && (c <= q.lastCounter || HasCounter(q.deferred, c))
  }

  /** At rest: messages 1..m are released for the largest m with 1..m all accepted; the others wait. */
  ghost predicate Settled(acc: Accepted, q: QueueState) {
    Consistent(acc, q) && q.lastCounter + 1 !in acc
  }

  function AsMap(calls: seq<Numbered>): Accepted {
    if calls == [] then map[]
    else AsMap(calls[..|calls| - 1])[calls[|calls| - 1].counter := calls[|calls| - 1].message]
  }

  /** What the test service promises about its callbacks: counters from 1 up, none used twice. */
  ghost predicate Distinct(calls: seq<Numbered>) {
    && (forall i | 0 <= i < |calls| :: calls[i].counter >= 1)
    && (forall i, j | 0 <= i < j < |calls| :: calls[i].counter != calls[j].counter)
  }

  // ---- Sorting ----

  lemma {:induction false} InsertSorted(s: seq<Numbered>, x: Numbered)
    requires StrictlySorted(s) && !HasCounter(s, x.counter)
    ensures StrictlySorted(Insert(s, x))
    ensures forall y :: y in Insert(s, x) <==> y in s || y == x
  {
    if s != [] {
      var init, last := s[..|s| - 1], s[|s| - 1];
      assert s == init + [last];
      assert last.counter != x.counter;
      if last.counter > x.counter {
        forall i | 0 <= i < |init| ensures init[i].counter != x.counter {
          assert s[i] == init[i];
        }
        InsertSorted(init, x);
        forall i | 0 <= i < |Insert(init, x)| ensures Insert(init, x)[i].counter < last.counter {
          assert Insert(init, x)[i] in Insert(init, x);
        }
      }
    }
  }

  lemma {:induction false} SortOfSorted(s: seq<Numbered>)
    requires StrictlySorted(s)
    ensures SortByCounter(s) == s
  {
    if s != [] {
      SortOfSorted(s[..|s| - 1]);
      assert s == s[..|s| - 1] + [s[|s| - 1]];
      if |s| > 1 {
        assert s[|s| - 2].counter < s[|s| - 1].counter;
      }
    }
  }

  predicate Ordered(s: seq<Numbered>) {
    forall i, j | 0 <= i < j < |s| :: s[i].counter <= s[j].counter
  }

  lemma {:induction false} InsertPermutes(s: seq<Numbered>, x: Numbered)
    ensures multiset(Insert(s, x)) == multiset(s) + multiset{x}
  {
    if s != [] {
      assert s == s[..|s| - 1] + [s[|s| - 1]];
      InsertPermutes(s[..|s| - 1], x);
    }
  }

  lemma {:induction false} InsertOrders(s: seq<Numbered>, x: Numbered)
    requires Ordered(s)
    ensures Ordered(Insert(s, x))
  {
    if s != [] && s[|s| - 1].counter > x.counter {
      var init, last := s[..|s| - 1], s[|s| - 1];
      InsertOrders(init, x);
      InsertPermutes(init, x);
      forall i | 0 <= i < |Insert(init, x)| ensures Insert(init, x)[i].counter <= last.counter {
        assert Insert(init, x)[i] in multiset(Insert(init, x));
        assert Insert(init, x)[i] in init || Insert(init, x)[i] == x;
      }
    }
  }

  /** Sorting orders the list by counter and keeps every element of it, repeated counters included. */
  lemma {:induction false} SortByCounterSorts(s: seq<Numbered>)
    ensures Ordered(SortByCounter(s)) && multiset(SortByCounter(s)) == multiset(s)
  {
    if s != [] {
      assert s == s[..|s| - 1] + [s[|s| - 1]];
      SortByCounterSorts(s[..|s| - 1]);
      InsertOrders(SortByCounter(s[..|s| - 1]), s[|s| - 1]);
      InsertPermutes(SortByCounter(s[..|s| - 1]), s[|s| - 1]);
    }
  }

  lemma SameEmptiness(a: seq<Numbered>, b: seq<Numbered>)
    requires forall x :: x in a <==> x in b
    ensures a == [] <==> b == []
  {
    if a != [] {
      assert a[0] in b;
    }
    if b != [] {
      assert b[0] in a;
    }
  }

  /** A strictly sorted list is determined by its elements. */
  lemma {:induction false} SortedUnique(a: seq<Numbered>, b: seq<Numbered>)
    requires StrictlySorted(a) && StrictlySorted(b)
    requires forall x :: x in a <==> x in b
    ensures a == b
  {
    SameEmptiness(a, b);
    if a != [] {
      assert a[0] in b;
      assert b[0] in a;
      assert a[0] == b[0];
      forall x ensures x in a[1..] <==> x in b[1..] {
        assert x in a[1..] <==> x in a && x != a[0] by { TailMember(a, x); }
        assert x in b[1..] <==> x in b && x != b[0] by { TailMember(b, x); }
      }
      SortedUnique(a[1..], b[1..]);
      assert a == [a[0]] + a[1..] && b == [b[0]] + b[1..];
    }
  }

  lemma TailMember(a: seq<Numbered>, x: Numbered)
    requires a != [] && StrictlySorted(a)
    ensures x in a[1..] <==> x in a && x != a[0]
  {
    if x in a[1..] {
      var i :| 0 <= i < |a[1..]| && a[1..][i] == x;
      assert a[i + 1] == x;
    }
    if x in a && x != a[0] {
      var i :| 0 <= i < |a| && a[i] == x;
      assert a[1..][i - 1] == x;
    }
  }

  // ---- Draining and accepting ----

  lemma {:induction false} DrainSettles(acc: Accepted, q: QueueState)
    requires Consistent(acc, q)
    ensures Settled(acc, Drain(q))
    decreases |q.deferred|
  {
    if q.deferred != [] && q.deferred[0].counter == q.lastCounter + 1 {
      var next := QueueState(q.lastCounter + 1, q.deferred[1..], q.sent + [q.deferred[0].message]);
      forall c | c in acc ensures c <= next.lastCounter || HasCounter(next.deferred, c) {
        if c > next.lastCounter {
          var i :| 0 <= i < |q.deferred| && q.deferred[i].counter == c;
          assert next.deferred[i - 1].counter == c;
        }
      }
      forall i | 0 <= i < |next.deferred| ensures next.lastCounter < next.deferred[i].counter {
        assert q.deferred[0].counter < q.deferred[i + 1].counter;
      }
      DrainSettles(acc, next);
    } else if q.lastCounter + 1 in acc {
      assert HasCounter(q.deferred, q.lastCounter + 1);
    }
  }

  lemma InsertCounter(s: seq<Numbered>, x: Numbered, c: int)
    requires StrictlySorted(s) && !HasCounter(s, x.counter)
    ensures HasCounter(Insert(s, x), c) <==> HasCounter(s, c) || c == x.counter
  {
    InsertSorted(s, x);
    if HasCounter(s, c) || c == x.counter {
      var y := if c == x.counter then x else
        (var i :| 0 <= i < |s| && s[i].counter == c; s[i]);
      assert y in Insert(s, x);
    }
    if HasCounter(Insert(s, x), c) {
      var i :| 0 <= i < |Insert(s, x)| && Insert(s, x)[i].counter == c;
      assert Insert(s, x)[i] in Insert(s, x);
    }
  }

  lemma InsertWaits(acc: Accepted, d: seq<Numbered>, low: int, x: Numbered)
    requires Waiting(acc, d, low) && !HasCounter(d, x.counter)
    requires low < x.counter && x.counter in acc && acc[x.counter] == x.message
    ensures Waiting(acc, Insert(d, x), low)
  {
    InsertSorted(d, x);
    forall i | 0 <= i < |Insert(d, x)| ensures Insert(d, x)[i] in d || Insert(d, x)[i] == x {
      assert Insert(d, x)[i] in Insert(d, x);
    }
  }

  /** Deferring a new message leaves a sorted list with that one message put in its place. */
  lemma DeferIsInsert(d: seq<Numbered>, x: Numbered)
    requires StrictlySorted(d)
    ensures SortByCounter(d + [x]) == Insert(d, x)
  {
    SortOfSorted(d);
    assert (d + [x])[..|d|] == d;
  }

  lemma DeferSettles(acc: Accepted, q: QueueState, call: Numbered)
    requires Settled(acc, q) && call.counter > q.lastCounter + 1 && call.counter !in acc
    ensures Settled(acc[call.counter := call.message], q.(deferred := Insert(q.deferred, call)))
  {
    var acc' := acc[call.counter := call.message];
    assert Waiting(acc', q.deferred, q.lastCounter);
    InsertWaits(acc', q.deferred, q.lastCounter, call);
    forall c ensures HasCounter(Insert(q.deferred, call), c) <==> HasCounter(q.deferred, c) || c == call.counter {
      InsertCounter(q.deferred, call, c);
    }
  }

  /** One call with a new counter: a settled queue settles again, one message richer. */
  lemma AcceptSettles(acc: Accepted, q: QueueState, call: Numbered)
    requires Settled(acc, q) && call.counter >= 1 && call.counter !in acc
    ensures Settled(acc[call.counter := call.message], AfterAccept(q, call))
  {
    if call.counter > q.lastCounter + 1 {
      DeferIsInsert(q.deferred, call);
      DeferSettles(acc, q, call);
    } else {
      var next := QueueState(call.counter, q.deferred, q.sent + [call.message]);
      assert call.counter == q.lastCounter + 1 by {
        assert call.counter <= q.lastCounter ==> call.counter in acc;
      }
      forall i | 0 <= i < |q.deferred| ensures next.lastCounter < q.deferred[i].counter {
        assert q.deferred[i].counter != call.counter;
      }
      DrainSettles(acc[call.counter := call.message], next);
    }
  }

  /** A queue that follows the contract settles in exactly one state, so the order of arrival cannot matter. */
  lemma SettledUnique(acc: Accepted, a: QueueState, b: QueueState)
    requires Settled(acc, a) && Settled(acc, b)
    ensures a == b
  {
    assert a.lastCounter < b.lastCounter ==> a.lastCounter + 1 in acc;
    assert b.lastCounter < a.lastCounter ==> b.lastCounter + 1 in acc;
    forall i | 0 <= i < |a.sent| ensures a.sent[i] == b.sent[i] {
      assert a.sent[i + 1 - 1] == acc[i + 1] == b.sent[i + 1 - 1];
    }
    forall x ensures x in a.deferred <==> x in b.deferred {
      WaitingMember(acc, a, x);
      WaitingMember(acc, b, x);
    }
    SortedUnique(a.deferred, b.deferred);
  }

  /** The deferred list holds precisely the accepted messages beyond the last one released. */
  lemma WaitingMember(acc: Accepted, q: QueueState, x: Numbered)
    requires Consistent(acc, q)
    ensures x in q.deferred <==> x.counter > q.lastCounter && x.counter in acc && acc[x.counter] == x.message
  {
    if x.counter > q.lastCounter && x.counter in acc && acc[x.counter] == x.message {
      var i :| 0 <= i < |q.deferred| && q.deferred[i].counter == x.counter;
      assert q.deferred[i] == x;
    }
  }

  lemma {:induction false} AsMapMember(calls: seq<Numbered>)
    ensures forall c :: c in AsMap(calls) <==> HasCounter(calls, c)
    ensures Distinct(calls) ==>
      forall i | 0 <= i < |calls| ::
        calls[i].counter in AsMap(calls) && AsMap(calls)[calls[i].counter] == calls[i].message
  {
    if calls != [] {
      var init, last := calls[..|calls| - 1], calls[|calls| - 1];
      AsMapMember(init);
      forall c ensures c in AsMap(calls) <==> HasCounter(calls, c) {
        if HasCounter(init, c) {
          var i :| 0 <= i < |init| && init[i].counter == c;
          assert calls[i].counter == c;
        }
        if HasCounter(calls, c) && c != last.counter {
          var i :| 0 <= i < |calls| && calls[i].counter == c;
          assert init[i].counter == c;
        }
        if c == last.counter {
          assert calls[|calls| - 1].counter == c;
        }
      }
      if Distinct(calls) {
        forall i | 0 <= i < |calls|
          ensures calls[i].counter in AsMap(calls) && AsMap(calls)[calls[i].counter] == calls[i].message
        {
          if i < |init| {
            assert init[i] == calls[i];
          }
        }
      }
    }
  }

  // ---- Whole sequences of calls ----

  /** After any sequence of callbacks with distinct counters, the queue is where its contract says. */
  lemma {:induction false} AcceptAllSettles(calls: seq<Numbered>)
    requires Distinct(calls)
    ensures Settled(AsMap(calls), AcceptAll(calls))
  {
    if calls != [] {
      var init, last := calls[..|calls| - 1], calls[|calls| - 1];
      AcceptAllSettles(init);
      AsMapMember(init);
      forall i | 0 <= i < |init| ensures init[i].counter != last.counter {
        assert init[i] == calls[i];
      }
      AcceptSettles(AsMap(init), AcceptAll(init), last);
    }
  }

  lemma OrderIndependence(a: seq<Numbered>, b: seq<Numbered>)
    requires Distinct(a) && Distinct(b)
    requires multiset(a) == multiset(b)
    ensures AcceptAll(a) == AcceptAll(b)
  {
    AcceptAllSettles(a);
    AcceptAllSettles(b);
    SameMap(a, b);
    SettledUnique(AsMap(a), AcceptAll(a), AcceptAll(b));
  }

  lemma SameCounters(a: seq<Numbered>, b: seq<Numbered>, c: int)
    requires multiset(a) == multiset(b) && HasCounter(a, c)
    ensures HasCounter(b, c)
  {
    var i :| 0 <= i < |a| && a[i].counter == c;
    assert a[i] in multiset(b);
  }

  lemma SameMap(a: seq<Numbered>, b: seq<Numbered>)
    requires Distinct(a) && Distinct(b) && multiset(a) == multiset(b)
    ensures AsMap(a) == AsMap(b)
  {
    hide AsMap;
    AsMapMember(a);
    AsMapMember(b);
    forall c ensures HasCounter(a, c) <==> HasCounter(b, c) {
      if HasCounter(a, c) {
        SameCounters(a, b, c);
      }
      if HasCounter(b, c) {
        SameCounters(b, a, c);
      }
    }
    forall c ensures c in AsMap(a) <==> c in AsMap(b) {}
    assert AsMap(a).Keys == AsMap(b).Keys;
    forall c | c in AsMap(a) ensures AsMap(a)[c] == AsMap(b)[c] {
      var i :| 0 <= i < |a| && a[i].counter == c;
      assert a[i] in multiset(b);
      var j :| 0 <= j < |b| && b[j] == a[i];
    }
  }

  /** Callbacks 1..n in any order: all of them come out, in counter order, and none is left waiting. */
  lemma PermutationComesOutSorted(calls: seq<Numbered>, n: nat)
    requires Distinct(calls)
    requires forall c :: HasCounter(calls, c) <==> 1 <= c <= n
    ensures AcceptAll(calls).lastCounter == n && AcceptAll(calls).deferred == []
    ensures |AcceptAll(calls).sent| == n && InOrder(AsMap(calls), AcceptAll(calls).sent)
  {
    var q := AcceptAll(calls);
    AcceptAllSettles(calls);
    AsMapMember(calls);
    assert q.lastCounter < n ==> q.lastCounter + 1 in AsMap(calls);
    assert n < q.lastCounter ==> n + 1 in AsMap(calls);
    assert q.lastCounter == n;
    forall x ensures x in q.deferred <==> x in [] {
      WaitingMember(AsMap(calls), q, x);
    }
    SameEmptiness(q.deferred, []);
  }

  // ---- What one call does, in any state ----

  /** Draining releases deferred messages from the first on, for as long as each has the next counter, and stops. */
  lemma {:induction false} DrainReleases(q: QueueState) returns (k: nat)
    ensures k <= |q.deferred|
    ensures forall i | 0 <= i < k :: q.deferred[i].counter == q.lastCounter + 1 + i
    ensures k < |q.deferred| ==> q.deferred[k].counter != q.lastCounter + 1 + k
    ensures Drain(q).lastCounter == q.lastCounter + k && Drain(q).deferred == q.deferred[k..]
    ensures |Drain(q).sent| == |q.sent| + k && q.sent <= Drain(q).sent
    ensures forall i | 0 <= i < k :: Drain(q).sent[|q.sent| + i] == q.deferred[i].message
    decreases |q.deferred|
  {
    k := 0;
    if q.deferred != [] && q.deferred[0].counter == q.lastCounter + 1 {
      var next := QueueState(q.lastCounter + 1, q.deferred[1..], q.sent + [q.deferred[0].message]);
      var n := DrainReleases(next);
      k := n + 1;
      forall i | 0 <= i < k
        ensures q.deferred[i].counter == q.lastCounter + 1 + i
        ensures Drain(q).sent[|q.sent| + i] == q.deferred[i].message
      {
        if i > 0 {
          assert next.deferred[i - 1] == q.deferred[i];
          assert Drain(next).sent[|next.sent| + (i - 1)] == q.deferred[i].message;
        } else {
          assert Drain(next).sent[|q.sent|] == next.sent[|q.sent|];
        }
      }
      assert k < |q.deferred| ==> next.deferred[n] == q.deferred[k];
    }
  }

  /** In any state, for any counter: a call that is too early only waits, sorted in among the others; any other call,
      repeated or not, is released at once, and `k` deferred messages that follow it without a gap are released
      after it, and no more. */
  lemma OneCall(q: QueueState, call: Numbered) returns (k: nat)
    ensures var q' := AfterAccept(q, call);
      if call.counter > q.lastCounter + 1 then
        && q'.sent == q.sent && q'.lastCounter == q.lastCounter
        && Ordered(q'.deferred) && multiset(q'.deferred) == multiset(q.deferred) + multiset{call}
      else
        && k <= |q.deferred| && q'.deferred == q.deferred[k..] && q'.lastCounter == call.counter + k
        && |q'.sent| == |q.sent| + 1 + k && q.sent + [call.message] <= q'.sent
        && (forall i | 0 <= i < k ::
              q.deferred[i].counter == call.counter + 1 + i && q'.sent[|q.sent| + 1 + i] == q.deferred[i].message)
        && (k < |q.deferred| ==> q.deferred[k].counter != call.counter + 1 + k)
  {
    k := 0;
    if call.counter > q.lastCounter + 1 {
      SortByCounterSorts(q.deferred + [call]);
    } else {
      k := DrainReleases(QueueState(call.counter, q.deferred, q.sent + [call.message]));
    }
  }

  // ---- Exactly which calls the contract covers ----

  lemma {:induction false} DrainKeepsGap(q: QueueState)
    ensures |Drain(q).sent| - Drain(q).lastCounter == |q.sent| - q.lastCounter
    decreases |q.deferred|
  {
    if q.deferred != [] && q.deferred[0].counter == q.lastCounter + 1 {
      DrainKeepsGap(QueueState(q.lastCounter + 1, q.deferred[1..], q.sent + [q.deferred[0].message]));
    }
  }

  /** A call keeps the contract if and only if its counter is past the last one released and is not already
      waiting. A counter repeated, zero or negative breaks it in every other case. */
  lemma AcceptKeepsContractIff(acc: Accepted, q: QueueState, call: Numbered)
    requires Settled(acc, q)
    ensures (exists acc' :: Settled(acc', AfterAccept(q, call)))
      <==> call.counter > q.lastCounter && !HasCounter(q.deferred, call.counter)
  {
    if call.counter <= q.lastCounter {
      DrainKeepsGap(QueueState(call.counter, q.deferred, q.sent + [call.message]));
    } else if HasCounter(q.deferred, call.counter) {
      assert call.counter > q.lastCounter + 1 by {
        var i :| 0 <= i < |q.deferred| && q.deferred[i].counter == call.counter;
      }
      DeferIsInsert(q.deferred, call);
      InsertRepeated(q.deferred, call);
    } else {
      assert call.counter in acc ==> HasCounter(q.deferred, call.counter);
      AcceptSettles(acc, q, call);
    }
  }

  lemma {:induction false} InsertRepeated(s: seq<Numbered>, x: Numbered)
    requires HasCounter(s, x.counter)
    ensures !StrictlySorted(Insert(s, x))
  {
    var init, last := s[..|s| - 1], s[|s| - 1];
    var i :| 0 <= i < |s| && s[i].counter == x.counter;
    if last.counter <= x.counter {
      assert (s + [x])[i].counter == (s + [x])[|s|].counter;
    } else {
      assert init[i] == s[i];
      InsertRepeated(init, x);
      var a, b :| 0 <= a < b < |Insert(init, x)| && Insert(init, x)[a].counter >= Insert(init, x)[b].counter;
      assert Insert(s, x)[a] == Insert(init, x)[a] && Insert(s, x)[b] == Insert(init, x)[b];
    }
  }

  // ---- Exactly which sequences of calls the contract covers ----

  /** How many more messages have been sent than the last counter accounts for. */
  function Gap(q: QueueState): int {
    |q.sent| - q.lastCounter
  }

  ghost predicate Stale(q: QueueState) {
    exists i :: 0 <= i < |q.deferred| && q.deferred[i].counter <= q.lastCounter
  }

  ghost predicate Repeated(s: seq<Numbered>) {
    exists i, j :: 0 <= i < j < |s| && s[i].counter == s[j].counter
  }

  /** Damage that no later call repairs: too much has been sent, or a message waits that cannot be next in line, or
      two of them wait for the same place. */
  ghost predicate Damaged(q: QueueState) {
    Gap(q) > 0 || (Gap(q) == 0 && (Stale(q) || Repeated(q.deferred)))
  }

  lemma SettledNotDamaged(acc: Accepted, q: QueueState)
    requires Settled(acc, q)
    ensures !Damaged(q)
  {
  }

  lemma {:induction false} DrainKeepsDamage(q: QueueState)
    requires Damaged(q)
    ensures Damaged(Drain(q))
    decreases |q.deferred|
  {
    DrainKeepsGap(q);
    if q.deferred != [] && q.deferred[0].counter == q.lastCounter + 1 {
      var next := QueueState(q.lastCounter + 1, q.deferred[1..], q.sent + [q.deferred[0].message]);
      assert Gap(next) == Gap(q);
      if Gap(q) == 0 {
        if Stale(q) {
          var i :| 0 <= i < |q.deferred| && q.deferred[i].counter <= q.lastCounter;
          assert next.deferred[i - 1] == q.deferred[i];
        } else {
          var i, j :| 0 <= i < j < |q.deferred| && q.deferred[i].counter == q.deferred[j].counter;
          assert next.deferred[j - 1] == q.deferred[j];
          assert i > 0 ==> next.deferred[i - 1] == q.deferred[i];
        }
      }
      DrainKeepsDamage(next);
    }
  }

  /** Two elements with the same counter are still there when the list is sorted. */
  lemma {:induction false} InsertKeepsRepeated(s: seq<Numbered>, x: Numbered)
    requires Repeated(s) || HasCounter(s, x.counter)
    ensures Repeated(Insert(s, x))
  {
    var init, last, t := s[..|s| - 1], s[|s| - 1], Insert(s, x);
    if last.counter <= x.counter {
      if Repeated(s) {
        var i, j :| 0 <= i < j < |s| && s[i].counter == s[j].counter;
        assert t[i] == s[i] && t[j] == s[j];
      } else {
        var i :| 0 <= i < |s| && s[i].counter == x.counter;
        assert t[i] == s[i] && t[|s|] == x;
      }
    } else {
      InsertCounters(init, x);
      if Repeated(init) || HasCounter(init, x.counter) {
        InsertKeepsRepeated(init, x);
        var i, j :| 0 <= i < j < |Insert(init, x)| && Insert(init, x)[i].counter == Insert(init, x)[j].counter;
        assert t[i] == Insert(init, x)[i] && t[j] == Insert(init, x)[j];
      } else {
        assert HasCounter(init, last.counter) by {
          LastRepeats(s, x);
        }
        var i :| 0 <= i < |Insert(init, x)| && Insert(init, x)[i].counter == last.counter;
        assert t[i] == Insert(init, x)[i] && t[|t| - 1] == last;
      }
    }
  }

  lemma LastRepeats(s: seq<Numbered>, x: Numbered)
    requires s != [] && s[|s| - 1].counter > x.counter
    requires Repeated(s) || HasCounter(s, x.counter)
    requires !Repeated(s[..|s| - 1]) && !HasCounter(s[..|s| - 1], x.counter)
    ensures HasCounter(s[..|s| - 1], s[|s| - 1].counter)
  {
    var init := s[..|s| - 1];
    assert forall i | 0 <= i < |init| :: init[i] == s[i];
    var i, j :| 0 <= i < j < |s| && s[i].counter == s[j].counter;
    assert init[i].counter == s[j].counter;
  }

  lemma {:induction false} InsertCounters(s: seq<Numbered>, x: Numbered)
    ensures forall c :: HasCounter(Insert(s, x), c) <==> HasCounter(s, c) || c == x.counter
  {
    InsertPermutes(s, x);
    forall c ensures HasCounter(Insert(s, x), c) <==> HasCounter(s, c) || c == x.counter {
      assert multiset(s + [x]) == multiset(Insert(s, x));
      if HasCounter(Insert(s, x), c) {
        SameCounters(Insert(s, x), s + [x], c);
        var i :| 0 <= i < |s + [x]| && (s + [x])[i].counter == c;
        assert i < |s| ==> s[i].counter == c;
      }
      if HasCounter(s, c) || c == x.counter {
        var i := if c == x.counter then |s| else var k :| 0 <= k < |s| && s[k].counter == c; k;
        assert (s + [x])[i].counter == c;
        SameCounters(s + [x], Insert(s, x), c);
      }
    }
  }

  lemma {:induction false} SortKeepsRepeated(s: seq<Numbered>)
    requires Repeated(s)
    ensures Repeated(SortByCounter(s))
  {
    var init, last := s[..|s| - 1], s[|s| - 1];
    var i, j :| 0 <= i < j < |s| && s[i].counter == s[j].counter;
    if j < |init| {
      assert init[i] == s[i] && init[j] == s[j];
      SortKeepsRepeated(init);
    } else {
      assert init[i].counter == last.counter;
      SortByCounterSorts(init);
      SameCounters(init, SortByCounter(init), last.counter);
    }
    InsertKeepsRepeated(SortByCounter(init), last);
  }

  lemma DeferKeepsDamage(q: QueueState, call: Numbered)
    requires Damaged(q) && Gap(q) == 0
    ensures Damaged(q.(deferred := SortByCounter(q.deferred + [call])))
  {
    hide SortByCounter;
    var s := q.deferred + [call];
    if Stale(q) {
      var i :| 0 <= i < |q.deferred| && q.deferred[i].counter <= q.lastCounter;
      assert s[i].counter == q.deferred[i].counter;
      SortByCounterSorts(s);
      SameCounters(s, SortByCounter(s), q.deferred[i].counter);
    } else {
      var i, j :| 0 <= i < j < |q.deferred| && q.deferred[i].counter == q.deferred[j].counter;
      assert s[i].counter == s[j].counter;
      SortKeepsRepeated(s);
    }
  }

  /** No call repairs a damaged queue. */
  lemma AcceptKeepsDamage(q: QueueState, call: Numbered)
    requires Damaged(q)
    ensures Damaged(AfterAccept(q, call))
  {
    hide SortByCounter, Drain, Repeated;
    if call.counter > q.lastCounter + 1 {
      if Gap(q) == 0 {
        DeferKeepsDamage(q, call);
      }
    } else {
      var next := QueueState(call.counter, q.deferred, q.sent + [call.message]);
      assert Gap(next) == Gap(q) + 1 + q.lastCounter - call.counter;
      if Gap(next) == 0 && Stale(q) {
        var i :| 0 <= i < |q.deferred| && q.deferred[i].counter <= q.lastCounter;
        assert next.deferred[i].counter <= next.lastCounter;
      }
      DrainKeepsDamage(next);
    }
  }

  /** The first call that breaks the contract damages the queue. */
  lemma BadCallDamages(acc: Accepted, q: QueueState, call: Numbered)
    requires Settled(acc, q)
    requires call.counter < 1 || call.counter in acc
    ensures Damaged(AfterAccept(q, call))
  {
    if call.counter <= q.lastCounter {
      DrainKeepsDamage(QueueState(call.counter, q.deferred, q.sent + [call.message]));
    } else {
      var i :| 0 <= i < |q.deferred| && q.deferred[i].counter == call.counter;
      var s := q.deferred + [call];
      assert s[i].counter == s[|q.deferred|].counter;
      SortKeepsRepeated(s);
    }
  }

  lemma {:induction false} IndistinctDamages(calls: seq<Numbered>)
    requires !Distinct(calls)
    ensures Damaged(AcceptAll(calls))
  {
    var init, last := calls[..|calls| - 1], calls[|calls| - 1];
    if !Distinct(init) {
      IndistinctDamages(init);
      AcceptKeepsDamage(AcceptAll(init), last);
    } else {
      AcceptAllSettles(init);
      AsMapMember(init);
      if last.counter >= 1 {
        LastIsRepeated(calls);
      }
      BadCallDamages(AsMap(init), AcceptAll(init), last);
    }
  }

  lemma LastIsRepeated(calls: seq<Numbered>)
    requires calls != [] && !Distinct(calls) && Distinct(calls[..|calls| - 1]) && calls[|calls| - 1].counter >= 1
    ensures HasCounter(calls[..|calls| - 1], calls[|calls| - 1].counter)
  {
    var init := calls[..|calls| - 1];
    assert forall i | 0 <= i < |init| :: init[i] == calls[i];
    var i, j :| 0 <= i < j < |calls| && calls[i].counter == calls[j].counter;
    assert init[i].counter == calls[j].counter;
  }

  /** A whole sequence of calls leaves the queue within its contract if and only if the counters are distinct and
      positive; after one in which they are not, nothing brings the queue back. */
  lemma ContractHoldsIff(calls: seq<Numbered>)
    ensures (exists acc :: Settled(acc, AcceptAll(calls))) <==> Distinct(calls)
  {
    if Distinct(calls) {
      AcceptAllSettles(calls);
      assert exists acc :: acc == AsMap(calls) && Settled(acc, AcceptAll(calls));
    } else {
      IndistinctDamages(calls);
      forall acc ensures !Settled(acc, AcceptAll(calls)) {
        if Settled(acc, AcceptAll(calls)) {
          SettledNotDamaged(acc, AcceptAll(calls));
        }
      }
    }
  }

  lemma OneMoreCall(calls: seq<Numbered>, call: Numbered)
    ensures AcceptAll(calls + [call]) == AfterAccept(AcceptAll(calls), call)
  {
    assert (calls + [call])[..|calls|] == calls;
  }

  lemma Once(s: seq<Numbered>, x: Numbered)
    requires Distinct(s)
    ensures multiset(s)[x] <= 1
  {
    if x in s {
      var i :| 0 <= i < |s| && s[i] == x;
      assert s == s[..i] + [x] + s[i + 1..];
      assert x !in s[..i] && x !in s[i + 1..];
    }
  }

  lemma DistinctPermuted(a: seq<Numbered>, b: seq<Numbered>)
    requires Distinct(a) && multiset(a) == multiset(b)
    ensures Distinct(b)
  {
    forall i | 0 <= i < |b| ensures b[i].counter >= 1 {
      assert b[i] in multiset(a);
    }
    forall i, j | 0 <= i < j < |b| ensures b[i].counter != b[j].counter {
      assert b[i] in multiset(a) && b[j] in multiset(a);
      if b[i] == b[j] {
        assert b == b[..i] + [b[i]] + b[i + 1..j] + [b[j]] + b[j + 1..];
        Once(a, b[i]);
      }
    }
  }

  /** The contract does fail: callback 1 sent twice is released twice. */
  lemma RepeatedCallbackIsReleasedAgain(a: Message, b: Message)
    ensures AcceptAll([Numbered(1, a), Numbered(1, b)]) == QueueState(1, [], [a, b])
  {
    var x, y := Numbered(1, a), Numbered(1, b);
    OneMoreCall([], x);
    OneMoreCall([x], y);
    assert [] + [x] == [x] && [x] + [y] == [x, y];
    assert AfterAccept(EMPTY, x) == QueueState(1, [], [a]);
  }

  /** And callback 2 sent twice ahead of callback 1 leaves its second copy at the head of the deferred list. */
  lemma RepeatedCallbackBlocksTheQueue(a: Message, b: Message)
    ensures AcceptAll([Numbered(2, b), Numbered(2, b), Numbered(1, a)]) == QueueState(2, [Numbered(2, b)], [a, b])
  {
    var x, y := Numbered(1, a), Numbered(2, b);
    OneMoreCall([], y);
    OneMoreCall([y], y);
    OneMoreCall([y, y], x);
    assert [] + [y] == [y] && [y] + [y] == [y, y] && [y, y] + [x] == [y, y, x];
    assert [y][..0] == [] && [y, y][..1] == [y];
    assert SortByCounter([y]) == [y];
    assert SortByCounter([y, y]) == [y, y];
    assert AfterAccept(EMPTY, y) == QueueState(0, [y], []);
    assert AfterAccept(QueueState(0, [y], []), y) == QueueState(0, [y, y], []);
    assert [y, y][1..] == [y] && [] + [a] == [a] && [a] + [b] == [a, b];
    assert Drain(QueueState(2, [y], [a, b])) == QueueState(2, [y], [a, b]);
    assert Drain(QueueState(1, [y, y], [a])) == QueueState(2, [y], [a, b]);
  }

  lemma {:induction false} SortOfOrdered(s: seq<Numbered>)
    requires Ordered(s)
    ensures SortByCounter(s) == s
  {
    if s != [] {
      var init, last := s[..|s| - 1], s[|s| - 1];
      assert Ordered(init) && s == init + [last];
      SortOfOrdered(init);
      InsertAtTheEnd(init, last);
    }
  }

  lemma InsertAtTheEnd(s: seq<Numbered>, x: Numbered)
    requires forall i | 0 <= i < |s| :: s[i].counter <= x.counter
    ensures Insert(s, x) == s + [x]
  {
  }

  lemma {:induction false} InsertKeepsHead(s: seq<Numbered>, x: Numbered)
    requires s != [] && s[0].counter <= x.counter
    ensures Insert(s, x)[0] == s[0]
  {
    if s[|s| - 1].counter > x.counter {
      InsertKeepsHead(s[..|s| - 1], x);
    }
  }

  /** A counter that is stuck at the head stays there, and holds back all that is deferred, through every call whose
      counter is past the last one released. */
  lemma StuckCopyStaysUnlessReleasedAgain(q: QueueState, call: Numbered)
    requires Ordered(q.deferred) && q.deferred != [] && q.deferred[0].counter <= q.lastCounter < call.counter
    ensures var q' := AfterAccept(q, call);
      && Ordered(q'.deferred) && q'.deferred != [] && q'.deferred[0].counter == q.deferred[0].counter
      && q'.deferred[0].counter <= q'.lastCounter
      && q'.sent == q.sent + (if call.counter == q.lastCounter + 1 then [call.message] else [])
  {
    if call.counter > q.lastCounter + 1 {
      var s := q.deferred + [call];
      assert s[..|s| - 1] == q.deferred;
      SortByCounterSorts(s);
      SortOfOrdered(q.deferred);
      InsertKeepsHead(q.deferred, call);
    }
  }

  /** It need not stay for good: a repeat of callback 1 moves the last counter back, and the copy is released too. */
  lemma RepeatReleasesStuckCopy(a: Message, b: Message, c: Message)
    ensures AcceptAll([Numbered(2, b), Numbered(2, b), Numbered(1, a), Numbered(1, c)])
      == QueueState(2, [], [a, b, c, b])
  {
    var w, x, y := Numbered(1, c), Numbered(1, a), Numbered(2, b);
    RepeatedCallbackBlocksTheQueue(a, b);
    OneMoreCall([y, y, x], w);
    assert [y, y, x] + [w] == [y, y, x, w];
    assert [a, b] + [c] == [a, b, c] && [a, b, c] + [b] == [a, b, c, b] && [y][1..] == [];
    assert Drain(QueueState(1, [y], [a, b, c])) == Drain(QueueState(2, [], [a, b, c, b]));
  }
}
