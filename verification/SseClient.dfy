/** The harness's side of a test service's SSE client, from ssetests/testapi_sse_client.go: callbacks come in
    over HTTP, are sorted, decoded and queued, and are read by the test one at a time. */
module SseClient {
  import opened Bytes
  import opened Text
  import opened MessageSorting

  datatype EventMessage = EventMessage(eventType: string, data: string, id: string)

  datatype ReceivedMessage =
    ReceivedMessage(kind: string, event: Option<EventMessage>, comment: string, error: string, raw: Message)

  const ZERO_MESSAGE := ReceivedMessage("", None, "", "", [])

  datatype ClientError =
    | NoBody
    | BodyUnreadable
    | InvalidPath(path: string)
    | MalformedJSON(data: Message)

  /** `messageOrError`: a decoded message, or an error beside a zero message. */
  datatype Item = Item(message: ReceivedMessage, err: Option<ClientError>)

  /** `json.Unmarshal` into a message that already holds the raw data; `None` when the data is malformed. */
  type Decoder = Message -> Option<ReceivedMessage>

  function ErrorItem(err: ClientError): Item {
    Item(ZERO_MESSAGE, Some(err))
  }

  /** The one output item that comes of one message out of the sorting queue. */
  function ItemOf(decode: Decoder, data: Message): Item {
    match decode(data)
    case Some(m) => Item(m, None)
    case None => ErrorItem(MalformedJSON(data))
  }

  function ItemsOf(decode: Decoder, data: seq<Message>): seq<Item> {
    seq(|data|, i requires 0 <= i < |data| => ItemOf(decode, data[i]))
  }

  /** One item for each message, in order: a message that decodes comes as it was decoded, without an error; one that
      does not comes as an error beside a blank message. */
  lemma ItemsOfAt(decode: Decoder, data: seq<Message>, i: nat)
    requires i < |data|
    ensures |ItemsOf(decode, data)| == |data|
    ensures match decode(data[i])
      case Some(m) => ItemsOf(decode, data)[i] == Item(m, None)
      case None =>
        ItemsOf(decode, data)[i] == Item(ReceivedMessage("", None, "", "", []), Some(MalformedJSON(data[i])))
  {
  }

  // ---- One callback request ----

  datatype Dispatched = Call(call: Numbered) | Rejected(err: ClientError)

  /** What a callback request asks for: a numbered message for the sorting queue, or nothing that makes sense. */
  function Dispatch(path: string, body: RequestBody): Dispatched {
    match body
    case Missing => Rejected(NoBody)
    case Unreadable => Rejected(BodyUnreadable)
    case Data(data) =>
      if path == "" then Rejected(InvalidPath(path))
      else match Atoi(path[1..])
        case None => Rejected(InvalidPath(path))
        case Some(counter) => Call(Numbered(counter, data))
  }

  // ---- Reading, with one-shot suppression of errors ----

  /** What a test does to the client, and what it takes out of the output channel, in order. */
  datatype ClientEvent = Ignoring | Read(item: Item, dropped: bool)

  datatype Reader = Reader(channel: seq<Item>, ignoreNextError: bool, history: seq<ClientEvent>)

  datatype AwaitResult = Received(message: ReceivedMessage) | TimedOut

  function Arrived(r: Reader, items: seq<Item>): Reader {
    r.(channel := r.channel + items)
  }

  /** Whether the next item is dropped: it is an error, and one was to be ignored. */
  predicate Drops(r: Reader)
    requires r.channel != []
  {
    r.ignoreNextError && r.channel[0].message.kind == "error"
  }

  /** The next item is read, dropped or not. */
  function ReadOne(r: Reader): Reader
    requires r.channel != []
  {
    Reader(r.channel[1..], false, r.history + [Read(r.channel[0], Drops(r))])
  }

  /** `AwaitMessage`, when the deadline wins the `deadlineAt`-th select of the loop, or one that blocks on an empty
      channel with nothing more to come. The items in `arriving` are put into the channel while the call is under
      way: one by one as the loop blocks for want of an item, and the rest by the time it returns. */
  function Await(r: Reader, arriving: seq<Item>, deadlineAt: nat): (Reader, AwaitResult)
    decreases deadlineAt, |arriving|
  {
    if deadlineAt == 0 || r.channel + arriving == [] then (Arrived(r, arriving), TimedOut)
    else if r.channel == [] then Await(Arrived(r, arriving[..1]), arriving[1..], deadlineAt)
    else if Drops(r) then Await(ReadOne(r), arriving, deadlineAt - 1)
    else (Arrived(ReadOne(r), arriving), Received(r.channel[0].message))
  }

  /** What arrives while the call is under way, be it blocked or not, might as well have arrived before it. */
  lemma {:induction false} ArrivalsMayComeFirst(r: Reader, arriving: seq<Item>, deadlineAt: nat)
    ensures Await(r, arriving, deadlineAt) == Await(Arrived(r, arriving), [], deadlineAt)
    decreases deadlineAt, |arriving|
  {
    var all := Arrived(r, arriving);
    assert Arrived(all, []) == all && all.channel + [] == all.channel;
    if deadlineAt > 0 && all.channel != [] {
      if r.channel == [] {
        ArrivalsMayComeFirst(Arrived(r, arriving[..1]), arriving[1..], deadlineAt);
        assert Arrived(Arrived(r, arriving[..1]), arriving[1..]) == all;
      } else {
        var next := ReadOne(r);
        assert all.channel[0] == r.channel[0] && all.channel[1..] == next.channel + arriving;
        assert Arrived(Arrived(next, arriving), []) == Arrived(next, arriving);
        if Drops(r) {
          ArrivalsMayComeFirst(next, arriving, deadlineAt - 1);
        }
      }
    }
  }

  function IgnoreError(r: Reader): Reader {
    r.(ignoreNextError := true, history := r.history + [Ignoring])
  }

  /** An error of the harness itself is not what `IgnoreErrorHere` is about: the test gets a blank message for it,
      with no sign of the error, and a suppression that was pending is used up all the same. */
  lemma HarnessErrorReadsAsBlankMessage(r: Reader, err: ClientError, deadlineAt: nat)
    requires r.channel != [] && r.channel[0] == ErrorItem(err) && deadlineAt > 0
    ensures Await(r, [], deadlineAt) ==
      (Reader(r.channel[1..], false, r.history + [Read(ErrorItem(err), false)]),
       Received(ReceivedMessage("", None, "", "", [])))
  {
    assert r.channel[1..] + [] == r.channel[1..];
    assert |ErrorItem(err).message.kind| == 0 && |"error"| == 5;
  }

  class SSEClient {
    const decode: Decoder
    const callbackQueue: MessageSortingQueue
    var consumed: nat  // how many of the messages sent on callbackQueue.C have been received from it
    var outputCh: seq<Item>
    var ignoreNextError: bool
    ghost var history: seq<ClientEvent>

    ghost predicate Valid()
      reads this, callbackQueue
    {
      consumed <= |callbackQueue.sent|
    }

    ghost function View(): Reader
      reads this
    {
      Reader(outputCh, ignoreNextError, history)
    }

    constructor (decode: Decoder)
      ensures Valid() && fresh(callbackQueue)
      ensures this.decode == decode && callbackQueue.State() == EMPTY && consumed == 0
      ensures View() == Reader([], false, [])
    {
      this.decode := decode;
      callbackQueue := new MessageSortingQueue();
      consumed, outputCh, ignoreNextError, history := 0, [], false, [];
    }

    method OutputError(err: ClientError)
      modifies this`outputCh
      ensures outputCh == old(outputCh) + [ErrorItem(err)]
    {
      outputCh := outputCh + [ErrorItem(err)];
    }

    method HandleCallback(path: string, body: RequestBody) returns (status: int)
      modifies this`outputCh, callbackQueue
      ensures body.Missing? ==> status == 400 && outputCh == old(outputCh) + [Item(ZERO_MESSAGE, Some(NoBody))]
      ensures body.Unreadable? ==>
        status == 400 && outputCh == old(outputCh) + [Item(ZERO_MESSAGE, Some(BodyUnreadable))]
      ensures body.Data? && (path == "" || Atoi(path[1..]).None?) ==>
        status == 400 && outputCh == old(outputCh) + [Item(ZERO_MESSAGE, Some(InvalidPath(path)))]
      ensures body.Data? && path != "" && Atoi(path[1..]).Some? ==>
        && status == 202 && outputCh == old(outputCh)
        && callbackQueue.State() == AfterAccept(old(callbackQueue.State()), Numbered(Atoi(path[1..]).value, body.data))
      ensures match Dispatch(path, body)
        case Call(call) =>
          && status == 202 && outputCh == old(outputCh)
          && callbackQueue.State() == AfterAccept(old(callbackQueue.State()), call)
        case Rejected(err) =>
          && status == 400 && outputCh == old(outputCh) + [ErrorItem(err)]
          && callbackQueue.State() == old(callbackQueue.State())
    {
      if body.Missing? {
        OutputError(NoBody);
        return 400;
      }
      if body.Unreadable? {
        OutputError(BodyUnreadable);
        return 400;
      }
      if path != "" {
        var counter := Atoi(path[1..]);
        if counter.Some? {
          callbackQueue.Accept(counter.value, body.data);
          return 202;
        }
      }
      OutputError(InvalidPath(path));
      return 400;
    }

    /** The consumer goroutine, until it finds the queue's channel empty. */
    method ConsumeCallbacks()
      requires Valid()
      modifies this`outputCh, this`consumed
      ensures Valid() && consumed == |callbackQueue.sent|
      ensures outputCh == old(outputCh) + ItemsOf(decode, callbackQueue.sent[old(consumed)..])
      ensures |outputCh| == |old(outputCh)| + |callbackQueue.sent| - old(consumed)
      ensures forall i | old(consumed) <= i < |callbackQueue.sent| ::
        var item := outputCh[|old(outputCh)| + i - old(consumed)];
        match decode(callbackQueue.sent[i])
        case Some(m) => item == Item(m, None)
        case None => item == Item(ReceivedMessage("", None, "", "", []), Some(MalformedJSON(callbackQueue.sent[i])))
    {
      ghost var start := consumed;
      while consumed < |callbackQueue.sent|
        invariant start <= consumed <= |callbackQueue.sent|
        invariant outputCh == old(outputCh) + ItemsOf(decode, callbackQueue.sent[start..consumed])
      {
        var data := callbackQueue.sent[consumed];
        var message := decode(data);
        consumed := consumed + 1;
        assert callbackQueue.sent[start..consumed] == callbackQueue.sent[start..consumed - 1] + [data];
        if message.None? {
          OutputError(MalformedJSON(data));
          continue;
        }
        outputCh := outputCh + [Item(message.value, None)];
      }
      assert callbackQueue.sent[start..consumed] == callbackQueue.sent[start..];
    }

    /** A select that finds the channel empty blocks until the next of the items in `arriving` comes. */
    method AwaitMessage(arriving: seq<Item>, deadlineAt: nat) returns (r: AwaitResult)
      modifies this`outputCh, this`ignoreNextError, this`history
      ensures (View(), r) == Await(old(View()), arriving, deadlineAt)
    {
      var selects, coming := 0, arriving;
      while selects < deadlineAt && (outputCh != [] || coming != [])
        invariant selects <= deadlineAt
        invariant Await(View(), coming, deadlineAt - selects) == Await(old(View()), arriving, deadlineAt)
        decreases deadlineAt - selects, |coming|
      {
        if outputCh == [] {
          outputCh, coming := outputCh + coming[..1], coming[1..];
          continue;
        }
        var item := outputCh[0];
        outputCh := outputCh[1..];
        selects := selects + 1;
        if ignoreNextError {
          ignoreNextError := false;
          if item.message.kind == "error" {
            history := history + [Read(item, true)];
            continue;
          }
        }
        history := history + [Read(item, false)];
        outputCh := outputCh + coming;
        return Received(item.message);
      }
      outputCh := outputCh + coming;
      return TimedOut;
    }

    method IgnoreErrorHere()
      modifies this`ignoreNextError, this`history
      ensures View() == IgnoreError(old(View()))
    {
      ignoreNextError := true;
      history := history + [Ignoring];
    }
  }

  // ---- Every run of a test against the client ----

  datatype Op = Arrive(item: Item) | Ignore | AwaitOp(arriving: seq<Item>, deadlineAt: nat)

  datatype Session = Session(reader: Reader, returned: seq<ReceivedMessage>, arrived: seq<Item>)

  const START: Session := Session(Reader([], false, []), [], [])

  function Perform(s: Session, op: Op): Session {
    match op
    case Arrive(item) =>
      Session(Arrived(s.reader, [item]), s.returned, s.arrived + [item])
    case Ignore => s.(reader := IgnoreError(s.reader))
    case AwaitOp(arriving, deadlineAt) =>
      var (reader, result) := Await(s.reader, arriving, deadlineAt);
      Session(reader, s.returned + (if result.Received? then [result.message] else []), s.arrived + arriving)
  }

  function PerformAll(ops: seq<Op>): Session {
    if ops == [] then START else Perform(PerformAll(ops[..|ops| - 1]), ops[|ops| - 1])
  }

  /** The items read so far, dropped ones included. */
  function ItemsRead(h: seq<ClientEvent>): seq<Item> {
    if h == [] then [] else ItemsRead(h[..|h| - 1]) + ItemIn(h[|h| - 1])
  }

  function ItemIn(e: ClientEvent): seq<Item> {
    match e case Ignoring => [] case Read(item, _) => [item]
  }

  function MessagesKept(h: seq<ClientEvent>): seq<ReceivedMessage> {
    if h == [] then [] else MessagesKept(h[..|h| - 1]) + MessageIn(h[|h| - 1])
  }

  function MessageIn(e: ClientEvent): seq<ReceivedMessage> {
    if e.Read? && !e.dropped then [e.item.message] else []
  }

  function DropCount(h: seq<ClientEvent>): nat {
    if h == [] then 0 else DropCount(h[..|h| - 1]) + (if h[|h| - 1].Read? && h[|h| - 1].dropped then 1 else 0)
  }

  function IgnoreCount(h: seq<ClientEvent>): nat {
    if h == [] then 0 else IgnoreCount(h[..|h| - 1]) + (if h[|h| - 1].Ignoring? then 1 else 0)
  }

  lemma HistoryGrows(h: seq<ClientEvent>, e: ClientEvent)
    ensures ItemsRead(h + [e]) == ItemsRead(h) + ItemIn(e)
    ensures MessagesKept(h + [e]) == MessagesKept(h) + MessageIn(e)
    ensures DropCount(h + [e]) == DropCount(h) + (if e.Read? && e.dropped then 1 else 0)
    ensures IgnoreCount(h + [e]) == IgnoreCount(h) + (if e.Ignoring? then 1 else 0)
  {
    assert (h + [e])[..|h + [e]| - 1] == h;
  }

  /** An item is dropped exactly when it is an error and the first thing read after an `IgnoreErrorHere`. */
  ghost predicate DropExplained(h: seq<ClientEvent>, p: nat)
    requires p < |h|
  {
    h[p].Read? ==> (h[p].dropped <==> h[p].item.message.kind == "error" && p > 0 && h[p - 1].Ignoring?)
  }

  ghost predicate DropsExplained(h: seq<ClientEvent>) {
    forall p | 0 <= p < |h| :: DropExplained(h, p)
  }

  ghost predicate SessionInv(s: Session) {
    var h := s.reader.history;
    && ItemsRead(h) + s.reader.channel == s.arrived
    && MessagesKept(h) == s.returned
    && DropsExplained(h)
    && DropCount(h) + (if s.reader.ignoreNextError then 1 else 0) <= IgnoreCount(h)
    && (s.reader.ignoreNextError <==> h != [] && h[|h| - 1].Ignoring?)
  }

  lemma DropsGrow(h: seq<ClientEvent>, e: ClientEvent)
    requires DropsExplained(h)
    requires e.Read? ==> (e.dropped <==> e.item.message.kind == "error" && h != [] && h[|h| - 1].Ignoring?)
    ensures DropsExplained(h + [e])
  {
    forall p | 0 <= p < |h + [e]| ensures DropExplained(h + [e], p) {
      assert p < |h| ==> DropExplained(h, p);
    }
  }

  /** One item read off the channel. */
  lemma ReadInv(s: Session)
    requires SessionInv(s) && s.reader.channel != []
    ensures var kept := if Drops(s.reader) then [] else [s.reader.channel[0].message];
      SessionInv(Session(ReadOne(s.reader), s.returned + kept, s.arrived))
  {
    hide ItemsRead, MessagesKept, DropCount, IgnoreCount, DropsExplained;
    var item := s.reader.channel[0];
    HistoryGrows(s.reader.history, Read(item, Drops(s.reader)));
    DropsGrow(s.reader.history, Read(item, Drops(s.reader)));
    assert s.reader.channel == [item] + s.reader.channel[1..];
  }

  lemma {:induction false} AwaitInv(s: Session, deadlineAt: nat)
    requires SessionInv(s)
    ensures SessionInv(Perform(s, AwaitOp([], deadlineAt)))
    decreases deadlineAt
  {
    hide SessionInv;
    var r := s.reader;
    assert Arrived(r, []) == r && s.arrived + [] == s.arrived && s.returned + [] == s.returned;
    if deadlineAt > 0 && r.channel != [] {
      var next := ReadOne(r);
      ReadInv(s);
      assert Arrived(next, []) == next;
      if Drops(r) {
        AwaitInv(Session(next, s.returned, s.arrived), deadlineAt - 1);
        assert Await(r, [], deadlineAt) == Await(next, [], deadlineAt - 1);
      }
    }
  }

  lemma ArriveInv(s: Session, items: seq<Item>)
    requires SessionInv(s)
    ensures SessionInv(Session(Arrived(s.reader, items), s.returned, s.arrived + items))
  {
    assert ItemsRead(s.reader.history) + (s.reader.channel + items) == s.arrived + items;
  }

  lemma IgnoreInv(s: Session)
    requires SessionInv(s)
    ensures SessionInv(Perform(s, Ignore))
  {
    hide ItemsRead, MessagesKept, DropCount, IgnoreCount, DropsExplained;
    HistoryGrows(s.reader.history, Ignoring);
    DropsGrow(s.reader.history, Ignoring);
    assert ItemsRead(s.reader.history) + [] == ItemsRead(s.reader.history);
    assert MessagesKept(s.reader.history) + [] == MessagesKept(s.reader.history);
  }

  lemma PerformInv(s: Session, op: Op)
    requires SessionInv(s)
    ensures SessionInv(Perform(s, op))
  {
    hide SessionInv, Await;
    match op
    case Arrive(item) => ArriveInv(s, [item]);
    case Ignore => IgnoreInv(s);
    case AwaitOp(arriving, deadlineAt) =>
      var first := Session(Arrived(s.reader, arriving), s.returned, s.arrived + arriving);
      ArriveInv(s, arriving);
      ArrivalsMayComeFirst(s.reader, arriving, deadlineAt);
      AwaitInv(first, deadlineAt);
      assert first.arrived + [] == first.arrived;
  }

  /** In every run, at every point: what was returned and what was dropped are, together and in order, the
      items read; those followed by the channel are all that arrived; an item is dropped exactly when it is an error
      and the first one read after an `IgnoreErrorHere`; and there are no more drops than such calls. */
  lemma {:induction false} EveryItemAccountedFor(ops: seq<Op>)
    ensures SessionInv(PerformAll(ops))
  {
    if ops != [] {
      EveryItemAccountedFor(ops[..|ops| - 1]);
      PerformInv(PerformAll(ops[..|ops| - 1]), ops[|ops| - 1]);
    }
  }
}
