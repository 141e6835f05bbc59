/** From the callback URL that a test service is given to the messages that the test reads: the router, the callback
    handler, the sorting queue and the decoder, end to end. */
module CallbackAddressing {
  import opened Bytes
  import opened Text
  import opened MessageSorting
  import opened SseClient
  import MockEndpoints
  import CallbackPipeline

  /** The path of a callback: the endpoint's base path, a slash, and the counter in decimal. */
  function CallbackPath(endpoint: nat, counter: nat): string {
    MockEndpoints.BasePath(Itoa(endpoint)) + "/" + Itoa(counter)
  }

  /** What the handler of an open endpoint makes of a request, if the router hands it over: a request for another
      path goes elsewhere or gets 404, and one whose body cannot be read gets 500 from the router. */
  function Handled(endpoint: nat, path: string, body: RequestBody): Option<Dispatched> {
    match MockEndpoints.Route(path)
    case None => None
    case Some(target) =>
      if target.id != Itoa(endpoint) || body.Unreadable? then None else Some(Dispatch(target.subpath, body))
  }

  /** The handler of an endpoint gets a request if and only if its path is the endpoint's own with a subpath, and its
      body can be read; what it makes of it depends on the subpath and the body. */
  lemma HandledIff(endpoint: nat, path: string, body: RequestBody, d: Dispatched)
    ensures Handled(endpoint, path, body) == Some(d) <==>
      && !body.Unreadable?
      && exists sub :: MockEndpoints.IsSubpath(sub) && path == "/endpoints/" + Itoa(endpoint) + sub
                       && d == Dispatch(MockEndpoints.Seen(sub), body)
  {
    hide MockEndpoints.Route, Dispatch;
    var id := Itoa(endpoint);
    if Handled(endpoint, path, body) == Some(d) {
      MockEndpoints.RouteIff(path, id, MockEndpoints.Route(path).value.subpath);
    }
    if sub :| MockEndpoints.IsSubpath(sub) && path == "/endpoints/" + id + sub
              && d == Dispatch(MockEndpoints.Seen(sub), body)
    {
      MockEndpoints.RouteIff(path, id, MockEndpoints.Seen(sub));
      assert '/' !in id;
    }
  }

  /** For every endpoint and every counter: the path selects that endpoint, and the handler recovers that counter. */
  lemma AddressRoundTrip(endpoint: nat, counter: nat, data: Message)
    requires counter <= MAX_INT
    ensures CallbackPath(endpoint, counter) == "/endpoints/" + Itoa(endpoint) + "/" + Itoa(counter)
    ensures MockEndpoints.Route(CallbackPath(endpoint, counter))
      == Some(MockEndpoints.Target(Itoa(endpoint), "/" + Itoa(counter)))
    ensures Handled(endpoint, CallbackPath(endpoint, counter), Data(data)) == Some(Call(Numbered(counter, data)))
  {
    hide MockEndpoints.Route, Atoi;
    var sub := "/" + Itoa(counter);
    assert CallbackPath(endpoint, counter) == MockEndpoints.BasePath(Itoa(endpoint)) + sub;
    MockEndpoints.RouteToEndpoint(endpoint, sub);
    assert sub[1..] == Itoa(counter);
    AtoiItoa(counter);
  }

  /** Two callbacks share a path only if they are for the same endpoint and have the same counter. */
  lemma AddressesDistinct(e1: nat, c1: nat, e2: nat, c2: nat)
    requires c1 <= MAX_INT && c2 <= MAX_INT
    ensures CallbackPath(e1, c1) == CallbackPath(e2, c2) <==> e1 == e2 && c1 == c2
  {
    AddressRoundTrip(e1, c1, []);
    AddressRoundTrip(e2, c2, []);
    if e1 != e2 {
      ItoaDistinct(e1, e2);
    }
  }

  /** A base URL posted to as it stands carries no counter: the handler sees "/" and rejects it. */
  lemma BareURLIsRejected(endpoint: nat, data: Message)
    ensures Handled(endpoint, MockEndpoints.BasePath(Itoa(endpoint)), Data(data)) == Some(Rejected(InvalidPath("/")))
  {
    var base := MockEndpoints.BasePath(Itoa(endpoint));
    MockEndpoints.RouteToEndpoint(endpoint, "");
    assert base + "" == base;
    assert "/"[1..] == "";
  }

  // ---- Everything that is posted ----

  /** A callback, posted to its own path, or any other request. */
  datatype Posting = Callback(counter: nat, message: Message) | Stray(path: string, body: RequestBody)

  function Outcome(endpoint: nat, p: Posting): Option<Dispatched> {
    match p
    case Callback(counter, message) => Handled(endpoint, CallbackPath(endpoint, counter), Data(message))
    case Stray(path, body) => Handled(endpoint, path, body)
  }

  /** The calls that the handler makes of the sorting queue. */
  function Calls(endpoint: nat, ps: seq<Posting>): seq<Numbered> {
    if ps == [] then []
    else (match Outcome(endpoint, ps[0]) case Some(Call(call)) => [call] case _ => []) + Calls(endpoint, ps[1..])
  }

  /** The errors that the handler puts into the output channel. */
  function Rejections(endpoint: nat, ps: seq<Posting>): seq<ClientError> {
    if ps == [] then []
    else
      (match Outcome(endpoint, ps[0]) case Some(Rejected(err)) => [err] case _ => []) + Rejections(endpoint, ps[1..])
  }

  /** Each request that the handler rejects adds its error, in order, and no other request adds any. */
  lemma {:induction false} RejectionsLaw(endpoint: nat, before: seq<Posting>, p: Posting, after: seq<Posting>)
    ensures Rejections(endpoint, []) == []
    ensures Rejections(endpoint, before + [p] + after) ==
      Rejections(endpoint, before)
      + (if Outcome(endpoint, p).Some? && Outcome(endpoint, p).value.Rejected? then [Outcome(endpoint, p).value.err]
         else [])
      + Rejections(endpoint, after)
  {
    hide Outcome;
    var all := before + [p] + after;
    if before == [] {
      assert all == [p] + after && all[1..] == after;
    } else {
      assert all[0] == before[0] && all[1..] == before[1..] + [p] + after;
      RejectionsLaw(endpoint, before[1..], p, after);
    }
  }

  function Callbacks(ps: seq<Posting>): seq<Numbered> {
    if ps == [] then []
    else (if ps[0].Callback? then [Numbered(ps[0].counter, ps[0].message)] else []) + Callbacks(ps[1..])
  }

  predicate MakesCall(o: Option<Dispatched>) {
    o.Some? && o.value.Call?
  }

  /** Requests other than callbacks do not look like callbacks, and counters fit an int. */
  ghost predicate Sensible(endpoint: nat, ps: seq<Posting>) {
    forall i | 0 <= i < |ps| ::
      match ps[i]
      case Callback(counter, _) => counter <= MAX_INT
      case Stray(_, _) => !MakesCall(Outcome(endpoint, ps[i]))
  }

  lemma {:induction false} CallsAreTheCallbacks(endpoint: nat, ps: seq<Posting>)
    requires Sensible(endpoint, ps)
    ensures Calls(endpoint, ps) == Callbacks(ps)
  {
    hide Handled;
    if ps != [] {
      if ps[0].Callback? {
        AddressRoundTrip(endpoint, ps[0].counter, ps[0].message);
      }
      assert Sensible(endpoint, ps[1..]) by {
        assert forall i | 0 <= i < |ps[1..]| :: ps[1..][i] == ps[i + 1];
      }
      CallsAreTheCallbacks(endpoint, ps[1..]);
    }
  }

  lemma CallbackCounters(ps: seq<Posting>, i: nat)
    requires i < |ps| && ps[i].Callback?
    ensures HasCounter(Callbacks(ps), ps[i].counter)
  {
    var first := if ps[0].Callback? then [Numbered(ps[0].counter, ps[0].message)] else [];
    if i == 0 {
      assert Callbacks(ps)[0].counter == ps[0].counter;
    } else {
      CallbackCounters(ps[1..], i - 1);
      var k :| 0 <= k < |Callbacks(ps[1..])| && Callbacks(ps[1..])[k].counter == ps[i].counter;
      assert Callbacks(ps)[|first| + k].counter == ps[i].counter;
    }
  }

  /** A test service that numbers its callbacks from 1 and posts each to its own path, in any order and at any time,
      next to any requests that are no callbacks: in every run that has nothing left to do the test has read the n
      decoded messages in the order of their numbers, and one error for each request that the handler rejected. */
  lemma CallbacksAreReadInOrder(
      decode: Decoder, z: CallbackPipeline.Sizes, endpoint: nat, ps: seq<Posting>, n: nat,
      steps: seq<CallbackPipeline.Step>)
    requires z.outputCapacity >= 1
    requires Distinct(Callbacks(ps)) && n <= MAX_INT && forall c :: HasCounter(Callbacks(ps), c) <==> 1 <= c <= n
    requires forall i | 0 <= i < |ps| && ps[i].Stray? :: !MakesCall(Outcome(endpoint, ps[i]))
    requires CallbackPipeline.IsRun(
      decode, z, CallbackPipeline.Init(Calls(endpoint, ps), Rejections(endpoint, ps)), steps)
    ensures var start := CallbackPipeline.Init(Calls(endpoint, ps), Rejections(endpoint, ps));
      var s := CallbackPipeline.After(decode, z, start, steps);
      var fromQueue := CallbackPipeline.QueueItems(s.read);
      CallbackPipeline.Stuck(z, s) ==>
        && |fromQueue| == n
        && (forall c | 1 <= c <= n ::
              && c in AsMap(Callbacks(ps))
              && match decode(AsMap(Callbacks(ps))[c])
                 case Some(m) => fromQueue[c - 1] == Item(m, None)
                 case None => fromQueue[c - 1] == ErrorItem(MalformedJSON(AsMap(Callbacks(ps))[c])))
        && multiset(CallbackPipeline.HandlerItems(s.read))
          == multiset(CallbackPipeline.ErrorItems(Rejections(endpoint, ps)))
  {
    hide Calls, Callbacks, Rejections, Outcome, AcceptAll, Settled;
    hide CallbackPipeline.IsRun, CallbackPipeline.After, CallbackPipeline.QueueItems, CallbackPipeline.HandlerItems;
    forall i | 0 <= i < |ps| && ps[i].Callback? ensures ps[i].counter <= MAX_INT {
      CallbackCounters(ps, i);
    }
    CallsAreTheCallbacks(endpoint, ps);
    CallbackPipeline.EveryMaximalRunDelivers(decode, z, Callbacks(ps), Rejections(endpoint, ps), steps);
    PermutationComesOutSorted(Callbacks(ps), n);
  }
}
