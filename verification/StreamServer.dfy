/** The stream that a test sends to an SSE client: ssetests/testapi_stream_server.go. */
module StreamServer {
  import opened Bytes
  import opened Text

  /** `data` is `None` for Go's nil slice, which is not the same as an empty one. */
  datatype Chunk = Chunk(data: Option<Bytes>, delayAfter: int)

  // ---- Cutting data into chunks ----

  /** The chunks of a text, from its start; each but the last has the full size and the delay. */
  function ChunksOf(data: Bytes, size: nat, delay: int): seq<Chunk>
    requires size > 0
    decreases |data|
  {
    if data == [] then []
    else if |data| <= size then [Chunk(Some(data), 0)]
    else [Chunk(Some(data[..size]), delay)] + ChunksOf(data[size..], size, delay)
  }

  /** The bytes of a list of chunks that are all to be written. */
  function Concat(chunks: seq<Chunk>): Bytes {
    if chunks == [] then []
    else Concat(chunks[..|chunks| - 1]) + match chunks[|chunks| - 1].data case None => [] case Some(d) => d
  }

  lemma {:induction false} ConcatAppend(a: seq<Chunk>, b: seq<Chunk>)
    ensures Concat(a + b) == Concat(a) + Concat(b)
  {
    if b == [] {
      assert a + b == a;
    } else {
      assert (a + b)[..|a + b| - 1] == a + b[..|b| - 1];
      ConcatAppend(a, b[..|b| - 1]);
    }
  }

  lemma ConcatNothing()
    ensures Concat([]) == []
  {
  }

  lemma ConcatOne(data: Bytes, delay: int)
    ensures Concat([Chunk(Some(data), delay)]) == data
  {
    assert [Chunk(Some(data), delay)][..0] == [];
  }

  /** The chunks are a partition of the data. */
  lemma {:induction false} ChunksPartition(data: Bytes, size: nat, delay: int)
    requires size > 0
    ensures Concat(ChunksOf(data, size, delay)) == data
    decreases |data|
  {
    hide Concat;
    if data == [] {
      ConcatNothing();
    } else if |data| <= size {
      ConcatOne(data, 0);
    } else {
      ChunksPartition(data[size..], size, delay);
      ConcatOne(data[..size], delay);
      ConcatAppend([Chunk(Some(data[..size]), delay)], ChunksOf(data[size..], size, delay));
      assert data == data[..size] + data[size..];
    }
  }

  /** A chunk that is neither nil nor empty; every chunk but the last is full and is followed by the delay. */
  predicate IsPiece(cs: seq<Chunk>, i: nat, size: nat, delay: int)
    requires i < |cs|
  {
    && cs[i].data.Some?
    && 0 < |cs[i].data.value| <= size
    && (if i == |cs| - 1 then cs[i].delayAfter == 0 else |cs[i].data.value| == size && cs[i].delayAfter == delay)
  }

  predicate AllPieces(cs: seq<Chunk>, size: nat, delay: int) {
    forall i | 0 <= i < |cs| :: IsPiece(cs, i, size, delay)
  }

  lemma {:induction false} ChunkSizes(data: Bytes, size: nat, delay: int)
    requires size > 0
    ensures AllPieces(ChunksOf(data, size, delay), size, delay)
    decreases |data|
  {
    if |data| > size {
      var cs, rest := ChunksOf(data, size, delay), ChunksOf(data[size..], size, delay);
      ChunkSizes(data[size..], size, delay);
      forall i | 0 <= i < |cs| ensures IsPiece(cs, i, size, delay) {
        assert i > 0 ==> IsPiece(rest, i - 1, size, delay);
      }
    }
  }

  /** There are as many chunks as are needed, and no more: the number of chunks is the length over the size, rounded
      up. */
  lemma {:induction false} ChunkCount(data: Bytes, size: nat, delay: int)
    requires size > 0
    ensures var k := |ChunksOf(data, size, delay)|;
      (k - 1) * size < |data| <= k * size || (k == 0 && data == [])
    decreases |data|
  {
    if |data| > size {
      ChunkCount(data[size..], size, delay);
      var k := |ChunksOf(data[size..], size, delay)|;
      assert (k + 1) * size == k * size + size;
      assert (k + 1 - 1) * size == (k - 1) * size + size;
    }
  }

  lemma OneMoreChunk(data: Bytes, pos: nat, size: nat, delay: int)
    requires size > 0 && pos < |data|
    ensures var max := if pos + size > |data| then |data| else pos + size;
      ChunksOf(data[pos..], size, delay)
        == [Chunk(Some(data[pos..max]), if max < |data| then delay else 0)] + ChunksOf(data[max..], size, delay)
  {
    assert pos + size <= |data| ==> data[pos..][..size] == data[pos..pos + size];
    assert pos + size <= |data| ==> data[pos..][size..] == data[pos + size..];
    assert data[pos..|data|] == data[pos..] && data[|data|..] == [];
  }

  // ---- The sender ----

  datatype SendResult = Sent | SliceOutOfRange | Sending

  function Copies(c: Chunk, n: nat): seq<Chunk> {
    seq(n, _ => c)
  }

  /** What comes of at most `rounds` rounds of the chunking loop: it is done, it is still at work, or it has hit a
      slice out of range; and these chunks are sent. */
  function SentWithin(data: Bytes, size: int, delay: int, rounds: nat): (SendResult, seq<Chunk>) {
    if data == [] then (Sent, [])
    else if size < 0 then (if rounds == 0 then Sending else SliceOutOfRange, [])
    else if size == 0 then (Sending, Copies(Chunk(Some([]), delay), rounds))
    else
      var chunks := ChunksOf(data, size, delay);
      if |chunks| <= rounds then (Sent, chunks) else (Sending, chunks[..rounds])
  }

  /** Sending in chunks comes to an end in good order if and only if the chunk size is positive or there is nothing
      to send. */
  lemma LoopEndsIff(data: Bytes, size: int, delay: int)
    ensures (exists rounds: nat :: SentWithin(data, size, delay, rounds).0 == Sent) <==> size > 0 || data == []
  {
    if size > 0 || data == [] {
      var rounds := if data == [] then 0 else |ChunksOf(data, size, delay)|;
      assert SentWithin(data, size, delay, rounds).0 == Sent;
    }
  }

  /** What the chunk is that the loop sends at this position. */
  function ChunkAt(data: Bytes, size: nat, delay: int, pos: nat): Chunk
    requires pos < |data|
  {
    var max := if pos + size > |data| then |data| else pos + size;
    Chunk(Some(data[pos..max]), if max < |data| then delay else 0)
  }

  /** After `n` rounds the loop is at position `pos`: the chunks from there on are still to be sent. */
  ghost predicate AtRound(data: Bytes, size: int, delay: int, n: nat, pos: nat) {
    if size <= 0 then pos == 0 && (size == 0 || n == 0)
    else
      var chunks := ChunksOf(data, size, delay);
      && n <= |chunks|
      && chunks[n..] == ChunksOf(if pos < |data| then data[pos..] else [], size, delay)
  }

  lemma FirstRound(data: Bytes, size: int, delay: int)
    ensures AtRound(data, size, delay, 0, 0) && SentWithin(data, size, delay, 0).1 == []
  {
    assert data[0..] == data;
  }

  lemma NextRound(data: Bytes, size: nat, delay: int, n: nat, pos: nat)
    requires pos < |data| && AtRound(data, size, delay, n, pos)
    ensures AtRound(data, size, delay, n + 1, pos + size)
    ensures SentWithin(data, size, delay, n + 1).1
      == SentWithin(data, size, delay, n).1 + [ChunkAt(data, size, delay, pos)]
  {
    if size > 0 {
      hide ChunksOf;
      var chunks := ChunksOf(data, size, delay);
      OneMoreChunk(data, pos, size, delay);
      assert pos + size >= |data| ==> data[|data|..] == [];
      assert chunks[n..][1..] == chunks[n + 1..] && chunks[n] == chunks[n..][0];
      assert chunks[..n + 1] == chunks[..n] + [chunks[n]] && chunks[..|chunks|] == chunks;
    }
  }

  lemma RoundsLeft(data: Bytes, size: int, delay: int, n: nat, pos: nat)
    requires AtRound(data, size, delay, n, pos)
    ensures SentWithin(data, size, delay, n).0 == Sending <==> pos < |data|
    ensures pos >= |data| ==>
      forall m: nat | n <= m :: SentWithin(data, size, delay, m) == (Sent, SentWithin(data, size, delay, n).1)
    ensures pos < |data| && size < 0 ==>
      SentWithin(data, size, delay, n).1 == []
      && forall m: nat | n < m :: SentWithin(data, size, delay, m) == (SliceOutOfRange, [])
  {
    if size > 0 {
      var chunks := ChunksOf(data, size, delay);
      assert |chunks[n..]| == |chunks| - n;
      assert chunks[..|chunks|] == chunks;
    }
  }

  lemma SentMeans(before: seq<Chunk>, data: Bytes, size: int, delay: int, rounds: nat)
    ensures var (r, sent) := SentWithin(data, size, delay, rounds);
      && (data == [] ==> r == Sent && sent == [])
      && (data != [] && size < 0 ==> sent == [] && (rounds > 0 ==> r == SliceOutOfRange))
      && (data != [] && size == 0 ==>
            r == Sending && |sent| == rounds && forall i | 0 <= i < rounds :: sent[i] == Chunk(Some([]), delay))
      && (size > 0 && r == Sent ==> Concat(before + sent) == Concat(before) + data)
  {
    if size > 0 {
      ConcatAppend(before, ChunksOf(data, size, delay));
      ChunksPartition(data, size, delay);
    }
  }

  class StreamConnection {
    var sendCh: seq<Chunk>  // everything sent on the channel, in order

    constructor ()
      ensures sendCh == []
    {
      sendCh := [];
    }

    method Send(data: Bytes)
      modifies this
      ensures sendCh == old(sendCh) + [Chunk(Some(data), 0)]
    {
      sendCh := sendCh + [Chunk(Some(data), 0)];
    }

    /** The loop need not end, so it is followed for `rounds` rounds only, any number of them. */
    method SendInChunks(data: Bytes, chunkSize: int, delayBetween: int, rounds: nat) returns (r: SendResult)
      modifies this
      ensures r == SentWithin(data, chunkSize, delayBetween, rounds).0
      ensures sendCh == old(sendCh) + SentWithin(data, chunkSize, delayBetween, rounds).1
      ensures data == [] ==> r == Sent && sendCh == old(sendCh)
      ensures data != [] && chunkSize < 0 ==> sendCh == old(sendCh) && (rounds > 0 ==> r == SliceOutOfRange)
      ensures data != [] && chunkSize == 0 ==>
        && r == Sending && |sendCh| == |old(sendCh)| + rounds
        && (forall i | |old(sendCh)| <= i < |sendCh| :: sendCh[i] == Chunk(Some([]), delayBetween))
      ensures chunkSize > 0 && r == Sent ==> Concat(sendCh) == Concat(old(sendCh)) + data
    {
      SentMeans(sendCh, data, chunkSize, delayBetween, rounds);
      hide AtRound, SentWithin;
      FirstRound(data, chunkSize, delayBetween);
      var pos, n := 0, 0;
      while pos < |data|
        invariant 0 <= pos && 0 <= n <= rounds && AtRound(data, chunkSize, delayBetween, n, pos)
        invariant sendCh == old(sendCh) + SentWithin(data, chunkSize, delayBetween, n).1
        decreases rounds - n
      {
        RoundsLeft(data, chunkSize, delayBetween, n, pos);
        if n == rounds {
          return Sending;
        }
        var max := pos + chunkSize;
        if max > |data| {
          max := |data|;
        }
        if max < pos {
          return SliceOutOfRange;
        }
        var chunk := Chunk(Some(data[pos..max]), 0);
        if max < |data| {
          chunk := chunk.(delayAfter := delayBetween);
        }
        NextRound(data, chunkSize, delayBetween, n, pos);
        sendCh := sendCh + [chunk];
        pos, n := pos + chunkSize, n + 1;
      }
      RoundsLeft(data, chunkSize, delayBetween, n, pos);
      return Sent;
    }

    method BreakConnection()
      modifies this
      ensures sendCh == old(sendCh) + [Chunk(None, 0)]
    {
      sendCh := sendCh + [Chunk(None, 0)];
    }
  }

  // ---- What a test sends ----

  datatype SenderOp =
    | SendAll(data: Bytes)
    | SendPieces(data: Bytes, size: nat, delay: int)
    | Break

  predicate Sendable(op: SenderOp) {
    op.SendPieces? ==> op.size > 0
  }

  function ChunksFor(op: SenderOp): seq<Chunk>
    requires Sendable(op)
  {
    match op
    case SendAll(data) => [Chunk(Some(data), 0)]
    case SendPieces(data, size, delay) => ChunksOf(data, size, delay)
    case Break => [Chunk(None, 0)]
  }

  function AllChunks(ops: seq<SenderOp>): seq<Chunk>
    requires forall i | 0 <= i < |ops| :: Sendable(ops[i])
  {
    if ops == [] then [] else ChunksFor(ops[0]) + AllChunks(ops[1..])
  }

  /** The texts sent before the connection is broken, however they are cut. */
  function Payload(ops: seq<SenderOp>): Bytes {
    if ops == [] || ops[0].Break? then [] else ops[0].data + Payload(ops[1..])
  }

  // ---- The handler ----

  /** The chunks before the first nil one. */
  function BeforeBreak(chunks: seq<Chunk>): seq<Chunk> {
    if chunks == [] || chunks[0].data.None? then [] else [chunks[0]] + BeforeBreak(chunks[1..])
  }

  predicate NoBreak(chunks: seq<Chunk>) {
    forall i | 0 <= i < |chunks| :: chunks[i].data.Some?
  }

  lemma {:induction false} BeforeBreakConcat(a: seq<Chunk>, b: seq<Chunk>)
    requires NoBreak(a)
    ensures BeforeBreak(a + b) == a + BeforeBreak(b)
  {
    if a == [] {
      assert a + b == b;
    } else {
      assert (a + b)[0] == a[0] && (a + b)[1..] == a[1..] + b;
      BeforeBreakConcat(a[1..], b);
      assert [a[0]] + (a[1..] + BeforeBreak(b)) == a + BeforeBreak(b);
    }
  }

  /** How far the first `n` chunks get, when none of them is nil. */
  lemma CleanPrefix(chunks: seq<Chunk>, n: nat)
    requires n <= |chunks| && NoBreak(chunks[..n])
    ensures chunks[..n] <= BeforeBreak(chunks)
    ensures n < |chunks| && chunks[n].data.None? ==> BeforeBreak(chunks) == chunks[..n]
    ensures n == |chunks| ==> BeforeBreak(chunks) == chunks
  {
    BeforeBreakConcat(chunks[..n], chunks[n..]);
    assert chunks == chunks[..n] + chunks[n..];
  }

  lemma PiecesDoNotBreak(cs: seq<Chunk>, size: nat, delay: int)
    requires AllPieces(cs, size, delay)
    ensures NoBreak(cs)
  {
    forall i | 0 <= i < |cs| ensures cs[i].data.Some? {
      assert IsPiece(cs, i, size, delay);
    }
  }

  /** Any mix of whole sends and sends in chunks, of whatever size, puts the same bytes on the wire. */
  lemma {:induction false} ChunkingIsInvisible(ops: seq<SenderOp>)
    requires forall i | 0 <= i < |ops| :: Sendable(ops[i])
    ensures Concat(BeforeBreak(AllChunks(ops))) == Payload(ops)
  {
    if ops != [] {
      var first := ChunksFor(ops[0]);
      ChunkingIsInvisible(ops[1..]);
      if ops[0].Break? {
        assert AllChunks(ops)[0] == Chunk(None, 0);
      } else {
        if ops[0].SendPieces? {
          ChunksPartition(ops[0].data, ops[0].size, ops[0].delay);
          ChunkSizes(ops[0].data, ops[0].size, ops[0].delay);
          PiecesDoNotBreak(first, ops[0].size, ops[0].delay);
        } else {
          ConcatOne(ops[0].data, 0);
        }
        assert Concat(first) == ops[0].data;
        BeforeBreakConcat(first, AllChunks(ops[1..]));
        ConcatAppend(first, BeforeBreak(AllChunks(ops[1..])));
      }
    }
  }

  datatype Stop = Running | Broken | Cancelled

  /** The loop of the stream handler on the chunks that are in the channel; the request is cancelled at the
      `cancelAt`-th select, if the loop gets that far. */
  method HandleStream(chunks: seq<Chunk>, cancelAt: nat) returns (written: Bytes, stop: Stop)
    ensures stop.Broken? ==> written == Concat(BeforeBreak(chunks)) && |BeforeBreak(chunks)| < |chunks|
    ensures stop.Running? ==> written == Concat(chunks) && BeforeBreak(chunks) == chunks
    ensures stop.Cancelled? ==> cancelAt <= |chunks| && written == Concat(chunks[..cancelAt])
    ensures stop.Cancelled? <==> cancelAt <= |BeforeBreak(chunks)|
  {
    hide BeforeBreak;
    written := [];
    var n := 0;
    while true
      invariant n <= |chunks| && n <= cancelAt
      invariant NoBreak(chunks[..n])
      invariant written == Concat(chunks[..n])
      decreases |chunks| - n
    {
      CleanPrefix(chunks, n);
      if n == cancelAt {
        return written, Cancelled;
      }
      if n == |chunks| {
        assert chunks[..n] == chunks;
        return written, Running;  // blocked in the select
      }
      var chunk := chunks[n];
      if chunk.data.None? {
        return written, Broken;
      }
      written := written + chunk.data.value;
      assert chunks[..n + 1][..n] == chunks[..n];
      n := n + 1;
    }
  }

  // ---- Sender and handler together ----

  /** `todo` is what the test has yet to send; the sender blocks when the channel is full. */
  datatype State = State(todo: seq<Chunk>, channel: seq<Chunk>, received: seq<Chunk>, written: Bytes, stop: Stop)

  datatype Step = Push | Receive | Cancel

  predicate Enabled(capacity: nat, s: State, step: Step) {
    match step
    case Push => s.todo != [] && |s.channel| < capacity
    case Receive => s.stop.Running? && s.channel != []
    case Cancel => s.stop.Running?
  }

  function Apply(capacity: nat, s: State, step: Step): State
    requires Enabled(capacity, s, step)
  {
    match step
    case Push => s.(todo := s.todo[1..], channel := s.channel + [s.todo[0]])
    case Receive =>
      var chunk := s.channel[0];
      var rest := s.(channel := s.channel[1..], received := s.received + [chunk]);
      (match chunk.data
       case None => rest.(stop := Broken)
       case Some(d) => rest.(written := s.written + d))
    case Cancel => s.(stop := Cancelled)
  }

  function Init(chunks: seq<Chunk>): State {
    State(chunks, [], [], [], Running)
  }

  predicate IsRun(capacity: nat, start: State, steps: seq<Step>)
    decreases |steps|, 0
  {
    steps == [] ||
    (IsRun(capacity, start, steps[..|steps| - 1]) &&
     Enabled(capacity, After(capacity, start, steps[..|steps| - 1]), steps[|steps| - 1]))
  }

  function After(capacity: nat, start: State, steps: seq<Step>): State
    requires IsRun(capacity, start, steps)
    decreases |steps|, 1
  {
    if steps == [] then start
    else Apply(capacity, After(capacity, start, steps[..|steps| - 1]), steps[|steps| - 1])
  }

  ghost predicate Inv(chunks: seq<Chunk>, capacity: nat, s: State) {
    && s.received + s.channel + s.todo == chunks
    && |s.channel| <= capacity
    && 0 <= Count(s)
    && NoBreak(s.received[..Count(s)])
    && s.written == Concat(s.received[..Count(s)])
    && (s.stop.Broken? ==> s.received != [] && s.received[|s.received| - 1].data.None?)
  }

  /** How many of the chunks received have been written: all of them, but for the nil one that broke the connection. */
  function Count(s: State): int {
    if s.stop.Broken? then |s.received| - 1 else |s.received|
  }

  lemma ReceiveInv(chunks: seq<Chunk>, capacity: nat, s: State)
    requires Inv(chunks, capacity, s) && Enabled(capacity, s, Receive)
    ensures Inv(chunks, capacity, Apply(capacity, s, Receive))
  {
    var s', chunk := Apply(capacity, s, Receive), s.channel[0];
    assert s.channel == [chunk] + s.channel[1..];
    assert s.received + s.channel + s.todo == s'.received + s'.channel + s'.todo;
    assert s.received[..|s.received|] == s.received;
    assert s'.received[..|s'.received|] == s'.received;
    assert s'.received[..|s.received|] == s.received;
  }

  lemma StepInv(chunks: seq<Chunk>, capacity: nat, s: State, step: Step)
    requires Inv(chunks, capacity, s) && Enabled(capacity, s, step)
    ensures Inv(chunks, capacity, Apply(capacity, s, step))
  {
    var s' := Apply(capacity, s, step);
    match step
    case Push =>
      assert s.todo == [s.todo[0]] + s.todo[1..];
      assert s.received + s.channel + s.todo == s'.received + s'.channel + s'.todo;
    case Receive => ReceiveInv(chunks, capacity, s);
    case Cancel =>
  }

  lemma {:induction false} RunInv(chunks: seq<Chunk>, capacity: nat, steps: seq<Step>)
    requires IsRun(capacity, Init(chunks), steps)
    ensures Inv(chunks, capacity, After(capacity, Init(chunks), steps))
  {
    if steps != [] {
      RunInv(chunks, capacity, steps[..|steps| - 1]);
      StepInv(chunks, capacity, After(capacity, Init(chunks), steps[..|steps| - 1]), steps[|steps| - 1]);
    }
  }

  /** At every moment of every run: the bytes written are those of the first few chunks sent; while the handler runs
      they are the bytes of all it has received, empty chunks and all; and if it has stopped on a break they are
      exactly what was sent before the first nil chunk. */
  lemma WrittenIsAPrefix(chunks: seq<Chunk>, capacity: nat, steps: seq<Step>)
    requires IsRun(capacity, Init(chunks), steps)
    ensures var s := After(capacity, Init(chunks), steps);
      && 0 <= Count(s) <= |chunks|
      && s.written == Concat(chunks[..Count(s)])
      && (s.stop.Broken? ==> chunks[..Count(s)] == BeforeBreak(chunks) && Count(s) < |chunks|)
      && (!s.stop.Broken? ==> chunks[..Count(s)] == s.received && NoBreak(s.received))
  {
    RunInv(chunks, capacity, steps);
    var s := After(capacity, Init(chunks), steps);
    InvMeans(chunks, capacity, s);
  }

  lemma InvMeans(chunks: seq<Chunk>, capacity: nat, s: State)
    requires Inv(chunks, capacity, s)
    ensures Count(s) <= |chunks| && chunks[..Count(s)] == s.received[..Count(s)]
    ensures s.stop.Broken? ==> chunks[..Count(s)] == BeforeBreak(chunks) && Count(s) < |chunks|
    ensures !s.stop.Broken? ==> s.received[..Count(s)] == s.received
  {
    assert chunks == s.received + (s.channel + s.todo);
    assert chunks[..Count(s)] == s.received[..Count(s)];
    CleanPrefix(chunks, Count(s));
    if s.stop.Broken? {
      assert chunks[Count(s)] == s.received[Count(s)];
    }
  }

  function Work(s: State): nat {
    2 * |s.todo| + |s.channel| + (if s.stop.Running? then 1 else 0)
  }

  /** Every run ends: a chunk is sent once and received at most once, and the handler stops at most once. */
  lemma {:induction false} RunIsBounded(capacity: nat, start: State, steps: seq<Step>)
    requires IsRun(capacity, start, steps)
    ensures |steps| + Work(After(capacity, start, steps)) <= Work(start)
  {
    if steps != [] {
      RunIsBounded(capacity, start, steps[..|steps| - 1]);
    }
  }

  /** A run that cannot go on, of a request that was not cancelled: the bytes written are the payload of what the
      test sent, however it was cut. The sender is through unless the connection is broken and more chunks come
      after the break than the channel holds: then it is blocked for good. */
  lemma EveryMaximalRunWritesThePayload(ops: seq<SenderOp>, capacity: nat, steps: seq<Step>)
    requires capacity >= 1
    requires forall i | 0 <= i < |ops| :: Sendable(ops[i])
    requires IsRun(capacity, Init(AllChunks(ops)), steps)
    ensures var s, chunks := After(capacity, Init(AllChunks(ops)), steps), AllChunks(ops);
      && !s.stop.Cancelled? && !Enabled(capacity, s, Push) && !Enabled(capacity, s, Receive) ==>
        && s.written == Payload(ops)
        && (s.todo == [] <==> !s.stop.Broken? || |chunks| - |BeforeBreak(chunks)| - 1 <= capacity)
  {
    var chunks := AllChunks(ops);
    RunInv(chunks, capacity, steps);
    ChunkingIsInvisible(ops);
    var s := After(capacity, Init(chunks), steps);
    InvMeans(chunks, capacity, s);
    if !s.stop.Cancelled? && !Enabled(capacity, s, Push) && !Enabled(capacity, s, Receive) {
      StoppedRun(chunks, capacity, s);
    }
  }

  lemma StoppedRun(chunks: seq<Chunk>, capacity: nat, s: State)
    requires capacity >= 1 && Inv(chunks, capacity, s)
    requires !s.stop.Cancelled? && !Enabled(capacity, s, Push) && !Enabled(capacity, s, Receive)
    ensures s.written == Concat(BeforeBreak(chunks))
    ensures s.todo == [] <==> !s.stop.Broken? || |chunks| - |BeforeBreak(chunks)| - 1 <= capacity
  {
    InvMeans(chunks, capacity, s);
    assert |chunks| == |s.received| + |s.channel| + |s.todo|;
    if s.stop.Running? {
      assert s.received == chunks;
      CleanPrefix(chunks, |chunks|);
    }
  }

  // ---- And a request can be cancelled at any point ----

  lemma OneMoreStep(capacity: nat, start: State, steps: seq<Step>, step: Step)
    requires IsRun(capacity, start, steps) && Enabled(capacity, After(capacity, start, steps), step)
    ensures IsRun(capacity, start, steps + [step])
    ensures After(capacity, start, steps + [step]) == Apply(capacity, After(capacity, start, steps), step)
  {
    assert (steps + [step])[..|steps|] == steps;
  }

  lemma ChunkPasses(capacity: nat, s: State)
    requires capacity >= 1 && s.todo != [] && s.todo[0].data.Some? && s.channel == [] && s.stop.Running?
    ensures Enabled(capacity, s, Push) && Enabled(capacity, Apply(capacity, s, Push), Receive)
    ensures Apply(capacity, Apply(capacity, s, Push), Receive)
      == State(s.todo[1..], [], s.received + [s.todo[0]], s.written + s.todo[0].data.value, Running)
  {
    var chunk := s.todo[0];
    assert [] + [chunk] == [chunk] && [chunk][1..] == [];
  }

  lemma OneMoreWritten(chunks: seq<Chunk>, chunk: Chunk)
    requires chunk.data.Some?
    ensures Concat(chunks + [chunk]) == Concat(chunks) + chunk.data.value
  {
    assert (chunks + [chunk])[..|chunks|] == chunks;
  }

  lemma {:induction false} ChunksCanPass(chunks: seq<Chunk>, capacity: nat, n: nat) returns (steps: seq<Step>)
    requires capacity >= 1 && n <= |chunks| && NoBreak(chunks[..n])
    ensures IsRun(capacity, Init(chunks), steps)
    ensures After(capacity, Init(chunks), steps) == State(chunks[n..], [], chunks[..n], Concat(chunks[..n]), Running)
  {
    if n == 0 {
      steps := [];
      assert chunks[0..] == chunks && Concat([]) == [];
    } else {
      hide IsRun, After, Enabled, Apply, Concat;
      var start, chunk := Init(chunks), chunks[n - 1];
      assert chunks[..n][n - 1].data.Some?;
      assert chunks[..n][..n - 1] == chunks[..n - 1];
      assert NoBreak(chunks[..n - 1]) by {
        assert forall i | 0 <= i < n - 1 :: chunks[..n - 1][i] == chunks[..n][i];
      }
      steps := ChunksCanPass(chunks, capacity, n - 1);
      ChunkPasses(capacity, After(capacity, start, steps));
      OneMoreStep(capacity, start, steps, Push);
      OneMoreStep(capacity, start, steps + [Push], Receive);
      steps := steps + [Push] + [Receive];
      assert chunks[n - 1..][1..] == chunks[n..] && chunks[..n - 1] + [chunk] == chunks[..n];
      OneMoreWritten(chunks[..n - 1], chunk);
    }
  }

  /** The converse of `WrittenIsAPrefix`: a run can stop, cancelled, with exactly the bytes of the first `n` chunks
      written, for any `n` up to the first nil chunk, and for no other. */
  lemma CancelledAfterIff(chunks: seq<Chunk>, capacity: nat, n: nat)
    requires capacity >= 1 && n <= |chunks|
    ensures (exists steps ::
               && IsRun(capacity, Init(chunks), steps)
               && After(capacity, Init(chunks), steps).stop.Cancelled?
               && After(capacity, Init(chunks), steps).received == chunks[..n]
               && After(capacity, Init(chunks), steps).written == Concat(chunks[..n]))
      <==> n <= |BeforeBreak(chunks)|
  {
    hide IsRun, After, Concat;
    if n <= |BeforeBreak(chunks)| {
      BeforeBreakIsClean(chunks, n);
      var steps := ChunksCanPass(chunks, capacity, n);
      OneMoreStep(capacity, Init(chunks), steps, Cancel);
      assert IsRun(capacity, Init(chunks), steps + [Cancel]);
    }
    if steps :| IsRun(capacity, Init(chunks), steps)
                && After(capacity, Init(chunks), steps).stop.Cancelled?
                && After(capacity, Init(chunks), steps).received == chunks[..n]
                && After(capacity, Init(chunks), steps).written == Concat(chunks[..n])
    {
      WrittenIsAPrefix(chunks, capacity, steps);
      CleanPrefix(chunks, n);
    }
  }

  lemma {:induction false} BeforeBreakIsClean(chunks: seq<Chunk>, n: nat)
    requires n <= |BeforeBreak(chunks)|
    ensures n <= |chunks| && NoBreak(chunks[..n])
  {
    if n > 0 {
      BeforeBreakIsClean(chunks[1..], n - 1);
      assert forall i | 0 < i < n :: chunks[..n][i] == chunks[1..][..n - 1][i - 1];
    }
  }
}
