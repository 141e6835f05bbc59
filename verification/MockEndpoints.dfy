/** The registry of mock endpoints and the router in front of them: framework/harness/mock_endpoints.go. */
module MockEndpoints {
  import opened Bytes
  import opened Text

  const PATH_PREFIX: string := "/endpoints/"
  const MAX_QUEUED: nat := 100  // capacity of newConns

  /** What a handler is told about a request; the content is of no interest to the router. */
  datatype RequestInfo = RequestInfo(headers: map<string, string>, method_: string, body: Option<Bytes>)

  const ZERO_INFO := RequestInfo(map[], "", None)

  // ---- Paths ----

  datatype Target = Target(id: string, subpath: string)

  function IndexOf(s: string, c: char): (i: nat)
    ensures i <= |s| && c !in s[..i]
    ensures i < |s| ==> s[i] == c
  {
    if s == "" || s[0] == c then 0
    else
      var i := 1 + IndexOf(s[1..], c);
      assert s[..i] == [s[0]] + s[1..][..i - 1];
      i
  }

  /** An endpoint id ends at the first slash; what follows is the subpath, "/" if nothing does. */
  function SplitPath(rest: string): Target {
    var slash := IndexOf(rest, '/');
    if slash < |rest| then Target(rest[..slash], rest[slash..]) else Target(rest, "/")
  }

  /** The endpoint id and the subpath that a URL path asks for; `None` when it is not an endpoint path. */
  function Route(path: string): Option<Target> {
    if HasPrefix(path, PATH_PREFIX) then Some(SplitPath(TrimPrefix(path, PATH_PREFIX))) else None
  }

  function BasePath(id: string): string {
    PATH_PREFIX + id
  }

  /** A subpath as a client appends it to a base URL. */
  predicate IsSubpath(sub: string) {
    sub == "" || sub[0] == '/'
  }

  /** The handler sees the subpath, or "/" if there is none. */
  function Seen(sub: string): string {
    if sub == "" then "/" else sub
  }

  lemma {:induction false} IndexOfUnique(s: string, c: char, i: nat)
    requires i <= |s| && c !in s[..i] && (i < |s| ==> s[i] == c)
    ensures IndexOf(s, c) == i
  {
    if i > 0 {
      assert s[..i][0] == s[0] && s[..i][1..] == s[1..][..i - 1];
      IndexOfUnique(s[1..], c, i - 1);
    }
  }

  lemma SplitPathForward(rest: string)
    ensures var target := SplitPath(rest);
      '/' !in target.id && exists sub :: IsSubpath(sub) && rest == target.id + sub && target.subpath == Seen(sub)
  {
    var slash := IndexOf(rest, '/');
    var sub := rest[slash..];
    assert rest == rest[..slash] + sub && rest[..|rest|] == rest;
    assert IsSubpath(sub) && rest == SplitPath(rest).id + sub && SplitPath(rest).subpath == Seen(sub);
  }

  lemma SplitPathBack(id: string, sub: string)
    requires '/' !in id && IsSubpath(sub)
    ensures SplitPath(id + sub) == Target(id, Seen(sub))
  {
    var rest := id + sub;
    assert rest[..|id|] == id && rest[|id|..] == sub;
    IndexOfUnique(rest, '/', |id|);
    if sub == "" {
      assert rest == id;
    }
  }

  lemma RouteBack(id: string, sub: string)
    requires '/' !in id && IsSubpath(sub)
    ensures Route(BasePath(id) + sub) == Some(Target(id, Seen(sub)))
  {
    assert BasePath(id) + sub == PATH_PREFIX + (id + sub);
    assert TrimPrefix(PATH_PREFIX + (id + sub), PATH_PREFIX) == id + sub;
    SplitPathBack(id, sub);
  }

  /** Routing undoes the paths that endpoints hand out, and nothing else: a path leads to an endpoint id exactly
      when it is that endpoint's base path followed by a subpath, and the subpath is what the handler sees. */
  lemma RouteIff(path: string, id: string, seen: string)
    ensures Route(path) == Some(Target(id, seen)) <==>
      '/' !in id && exists sub :: IsSubpath(sub) && path == "/endpoints/" + id + sub && seen == Seen(sub)
  {
    hide SplitPath;
    if Route(path) == Some(Target(id, seen)) {
      var rest := TrimPrefix(path, PATH_PREFIX);
      SplitPathForward(rest);
      var sub :| IsSubpath(sub) && rest == id + sub && seen == Seen(sub);
      assert path == PATH_PREFIX + rest;
      assert path == BasePath(id) + sub;
    }
    if '/' !in id && exists sub :: IsSubpath(sub) && path == "/endpoints/" + id + sub && seen == Seen(sub) {
      var sub :| IsSubpath(sub) && path == "/endpoints/" + id + sub && seen == Seen(sub);
      RouteBack(id, sub);
    }
  }

  /** The path of the endpoint with a given number, and anything below it, leads to that endpoint. */
  lemma RouteToEndpoint(n: nat, sub: string)
    requires IsSubpath(sub)
    ensures Route(BasePath(Itoa(n)) + sub) == Some(Target(Itoa(n), Seen(sub)))
  {
    assert forall k | 0 <= k < |Itoa(n)| :: IsDigit(Itoa(n)[k]);
    RouteBack(Itoa(n), sub);
  }

  // ---- Connections of one endpoint ----

  datatype Connections = Connections(queued: seq<RequestInfo>, active: Option<RequestInfo>)

  /** A request arrives: it becomes the active one, and is queued unless the queue is full. */
  function Arrive(c: Connections, r: RequestInfo): Connections {
    Connections(if |c.queued| < MAX_QUEUED then c.queued + [r] else c.queued, Some(r))
  }

  class MockEndpoint {
    const owner: MockEndpointsManager
    const id: string
    const basePath: string
    var newConns: seq<RequestInfo>
    var activeConn: Option<RequestInfo>
    var closed: bool  // closing has been done: newConns is closed

    constructor (owner: MockEndpointsManager, id: string)
      ensures this.owner == owner && this.id == id && basePath == BasePath(id)
      ensures newConns == [] && activeConn == None && !closed
    {
      this.owner, this.id, this.basePath := owner, id, PATH_PREFIX + id;
      newConns, activeConn, closed := [], None, false;
    }

    function Conns(): Connections
      reads this
    {
      Connections(newConns, activeConn)
    }

    /** The part of serveHTTP that concerns the endpoint it has found. */
    method Accept(incoming: RequestInfo)
      modifies this`activeConn, this`newConns
      ensures Conns() == Arrive(old(Conns()), incoming)
    {
      activeConn := Some(incoming);
      if |newConns| < MAX_QUEUED {  // non-blocking push
        newConns := newConns + [incoming];
      }
    }

    /** Waits for a request; `timeout` says that the deadline comes first. With no deadline the wait ends because
        there is a request or the channel is closed. */
    method AwaitConnection(timeout: bool) returns (r: Option<RequestInfo>)
      requires timeout || newConns != [] || closed
      modifies this`newConns
      ensures timeout ==> r == None && newConns == old(newConns)
      ensures !timeout && old(newConns) != [] ==> r == Some(old(newConns)[0]) && newConns == old(newConns)[1..]
      ensures !timeout && old(newConns) == [] ==> r == Some(RequestInfo(map[], "", None)) && newConns == []
      ensures timeout || old(newConns) != [] ==> forall returned: seq<RequestInfo> ::
        PerformOp(ConnectionRun(old(Conns()), returned), if timeout then TimeOut else TakeOne)
          == ConnectionRun(Conns(), returned + if r.Some? then [r.value] else [])
    {
      if timeout {
        assert forall returned: seq<RequestInfo> :: returned + [] == returned;
        return None;
      }
      if newConns == [] {
        return Some(ZERO_INFO);
      }
      r := Some(newConns[0]);
      newConns := newConns[1..];
    }

    method Close()
      requires owner.Valid() && this in owner.created
      modifies owner`endpoints, this`closed
      ensures owner.Valid() && closed
      ensures old(closed) ==> owner.endpoints == old(owner.endpoints)
      ensures owner.endpoints == old(owner.endpoints) - {id}
    {
      if closed {
        owner.ClosedIsGone(this);
        return;
      }
      owner.endpoints := owner.endpoints - {id};
      closed := true;
      owner.ValidAfterClose(this);
    }
  }

  datatype Served =
    | NotFound                                            // 404
    | BodyError                                           // 500
    | Handled(endpoint: MockEndpoint, subpath: string)    // the endpoint's handler is called

  class MockEndpointsManager {
    var endpoints: map<string, MockEndpoint>
    var lastEndpointID: nat
    ghost var created: seq<MockEndpoint>  // every endpoint ever made, in order

    /** The i-th endpoint made has id i. The map holds, under their own ids, those that have not been closed. */
    ghost predicate Valid()
      reads this, created
    {
      && lastEndpointID == |created|
      && (forall i | 0 <= i < |created| ::
        && created[i].owner == this
        && created[i].id == Itoa(i + 1)
        && created[i].basePath == BasePath(created[i].id)
        && (if created[i].closed then created[i].id !in endpoints
            else created[i].id in endpoints && endpoints[created[i].id] == created[i]))
      && (forall k | k in endpoints :: endpoints[k] in created && endpoints[k].id == k)
    }

    constructor ()
      ensures Valid() && created == []
    {
      endpoints, lastEndpointID, created := map[], 0, [];
    }

    lemma ClosedIsGone(e: MockEndpoint)
      requires Valid() && e in created && e.closed
      ensures e.id !in endpoints && endpoints - {e.id} == endpoints
    {
      var i :| 0 <= i < |created| && created[i] == e;
    }

    /** Ids are pairwise distinct. */
    lemma IdsDistinct(i: nat, j: nat)
      requires Valid() && i < |created| && j < |created| && i != j
      ensures created[i].id != created[j].id
    {
      ItoaDistinct(i + 1, j + 1);
    }

    twostate lemma ValidAfterClose(e: MockEndpoint)
      requires old(Valid()) && e in old(created) && !old(e.closed)
      requires created == old(created) && lastEndpointID == old(lastEndpointID)
      requires endpoints == old(endpoints) - {e.id} && e.closed
      requires forall x | x in created && x != e :: unchanged(x)
      ensures Valid()
    {
      forall i | 0 <= i < |created| && created[i] != e
        ensures created[i].id != e.id && created[i].closed == old(created[i].closed)
      {
        assert created[i] in created;
        var j :| 0 <= j < |created| && created[j] == e;
        ItoaDistinct(i + 1, j + 1);
      }
    }

    method NewMockEndpoint() returns (e: MockEndpoint)
      requires Valid()
      modifies this
      ensures Valid() && fresh(e)
      ensures created == old(created) + [e]
      ensures e.id !in old(endpoints) && endpoints == old(endpoints)[e.id := e]
      ensures forall x | x in old(created) :: x.id != e.id
      ensures e.newConns == [] && e.activeConn == None && !e.closed
    {
      hide Itoa;
      lastEndpointID := lastEndpointID + 1;
      e := new MockEndpoint(this, Itoa(lastEndpointID));
      forall i | 0 <= i < |created| ensures created[i].id != e.id {
        ItoaDistinct(i + 1, lastEndpointID);
      }
      endpoints := endpoints[e.id := e];
      created := created + [e];
    }

    method ServeHTTP(path: string, request: RequestInfo, body: RequestBody) returns (served: Served)
      requires Valid()
      modifies set e | e in created :: e
      ensures Valid() && endpoints == old(endpoints)
      ensures served.NotFound? <==> Route(path).None? || Route(path).value.id !in endpoints
      ensures !served.NotFound? ==>
        if body.Unreadable? then served.BodyError?
        else
          var target := Route(path).value;
          var e := endpoints[target.id];
          && served == Handled(e, target.subpath)
          && e.Conns() == Arrive(old(e.Conns()), request.(body := if body.Missing? then None else Some(body.data)))
      ensures forall x | x in created :: (served.Handled? && x == served.endpoint) || unchanged(x)
      ensures forall x | x in created :: x.closed == old(x.closed)
    {
      if !HasPrefix(path, PATH_PREFIX) {
        return NotFound;
      }
      var rest := TrimPrefix(path, PATH_PREFIX);
      var endpointID := rest;
      var slashPos := IndexOf(rest, '/');
      var subpath := "/";
      if slashPos < |rest| {
        endpointID := rest[..slashPos];
        subpath := rest[slashPos..];
      }
      if endpointID !in endpoints {
        return NotFound;
      }
      var e := endpoints[endpointID];
      if body.Unreadable? {
        return BodyError;
      }
      var incoming := request.(body := if body.Missing? then None else Some(body.data));
      e.Accept(incoming);
      return Handled(e, subpath);
    }

    /** A request for an endpoint's URL, or for anything below it, reaches the endpoint's handler if and only if the
        endpoint is still open: the path selects the endpoint's own entry, and that entry is there. */
    lemma ReachesHandlerIffOpen(e: MockEndpoint, sub: string)
      requires Valid() && e in created && IsSubpath(sub)
      ensures Route(e.basePath + sub) == Some(Target(e.id, Seen(sub)))
      ensures e.id in endpoints <==> !e.closed
      ensures !e.closed ==> endpoints[e.id] == e
    {
      var i :| 0 <= i < |created| && created[i] == e;
      RouteToEndpoint(i + 1, sub);
    }

    /** And no other path reaches it. */
    lemma ReachedFromItsURLOnly(path: string)
      requires Valid() && Route(path).Some? && Route(path).value.id in endpoints
      ensures var e := endpoints[Route(path).value.id];
        && e in created && !e.closed
        && exists sub :: IsSubpath(sub) && path == e.basePath + sub && Route(path).value.subpath == Seen(sub)
    {
      var target := Route(path).value;
      var e := endpoints[target.id];
      var i :| 0 <= i < |created| && created[i] == e;
      RouteIff(path, target.id, target.subpath);
    }
  }

  // ---- Every run of one endpoint ----

  datatype ConnectionOp = Request(info: RequestInfo) | TakeOne | TimeOut

  datatype ConnectionRun = ConnectionRun(conns: Connections, returned: seq<RequestInfo>)

  /** The effect of AwaitConnection on an open endpoint; waiting with nothing there can only time out. */
  function PerformOp(s: ConnectionRun, op: ConnectionOp): ConnectionRun {
    match op
    case Request(info) => s.(conns := Arrive(s.conns, info))
    case TakeOne =>
      if s.conns.queued == [] then s
      else ConnectionRun(s.conns.(queued := s.conns.queued[1..]), s.returned + [s.conns.queued[0]])
    case TimeOut => s
  }

  function PerformOps(ops: seq<ConnectionOp>): ConnectionRun {
    if ops == [] then ConnectionRun(Connections([], None), [])
    else PerformOp(PerformOps(ops[..|ops| - 1]), ops[|ops| - 1])
  }

  function Requests(ops: seq<ConnectionOp>): seq<RequestInfo> {
    if ops == [] then []
    else Requests(ops[..|ops| - 1]) + (if ops[|ops| - 1].Request? then [ops[|ops| - 1].info] else [])
  }

  /** Whether the i-th operation is a request that finds the queue with room. */
  predicate HadRoom(ops: seq<ConnectionOp>, i: nat)
    requires i < |ops|
  {
    ops[i].Request? && |PerformOps(ops[..i]).conns.queued| < 100
  }

  /** The requests that arrived while there was room, in order. */
  function RequestsWithRoom(ops: seq<ConnectionOp>): seq<RequestInfo> {
    if ops == [] then []
    else RequestsWithRoom(ops[..|ops| - 1]) + (if HadRoom(ops, |ops| - 1) then [ops[|ops| - 1].info] else [])
  }

  /** What has been returned, and what is queued after it, are exactly the requests that found room when they
      came, in order of arrival; and the active connection is the last arrival, queued or not. */
  lemma {:induction false} LostOnlyWhenFull(ops: seq<ConnectionOp>)
    ensures var s := PerformOps(ops);
      && s.returned + s.conns.queued == RequestsWithRoom(ops)
      && |s.conns.queued| <= 100
      && s.conns.active == (if Requests(ops) == [] then None else Some(Requests(ops)[|Requests(ops)| - 1]))
  {
    if ops != [] {
      var init, op := ops[..|ops| - 1], ops[|ops| - 1];
      LostOnlyWhenFull(init);
      var before, after := PerformOps(init), PerformOps(ops);
      match op
      case Request(info) =>
        assert before.returned + (before.conns.queued + [info]) == before.returned + before.conns.queued + [info];
      case TakeOne =>
        if before.conns.queued != [] {
          assert before.conns.queued == [before.conns.queued[0]] + before.conns.queued[1..];
          assert after.returned + after.conns.queued == before.returned + before.conns.queued;
        }
      case TimeOut =>
    }
  }

  /** Nothing is lost if and only if every request finds fewer than 100 connections waiting. */
  lemma {:induction false} NothingLostIff(ops: seq<ConnectionOp>)
    ensures var s := PerformOps(ops);
      s.returned + s.conns.queued == Requests(ops) <==> forall i | 0 <= i < |ops| && ops[i].Request? :: HadRoom(ops, i)
  {
    LostOnlyWhenFull(ops);
    RoomCount(ops);
  }

  lemma {:induction false} RoomCount(ops: seq<ConnectionOp>)
    ensures |RequestsWithRoom(ops)| <= |Requests(ops)|
    ensures (forall i | 0 <= i < |ops| && ops[i].Request? :: HadRoom(ops, i)) ==> RequestsWithRoom(ops) == Requests(ops)
    ensures (exists i | 0 <= i < |ops| && ops[i].Request? :: !HadRoom(ops, i)) ==>
      |RequestsWithRoom(ops)| < |Requests(ops)|
  {
    if ops != [] {
      var init := ops[..|ops| - 1];
      RoomCount(init);
      forall i | 0 <= i < |init| ensures HadRoom(ops, i) <==> HadRoom(init, i) {
        assert init[..i] == ops[..i];
      }
    }
  }
}
