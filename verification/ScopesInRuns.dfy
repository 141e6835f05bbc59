/** Where the scopes of a run show in its trace: what is said elsewhere of the trace of one scope holds of each scope
    that a run executes. */
module ScopesInRuns {
  import opened TestResults
  import opened TestScope
  import opened Outcomes

  lemma {:induction false} ExecutedBelowIsDeeper(cfg: Config, id: TestID, b: Body, sub: TestID, s: Body)
    requires ExecutesBelow(cfg, id, b, sub, s)
    ensures |sub| > |id|
    decreases b
  {
    var c := b.first;
    if RunsSubtest(cfg, id, c) && Executes(cfg, Plus(id, c.name), c.body, sub, s) {
      if ExecutesBelow(cfg, Plus(id, c.name), c.body, sub, s) {
        ExecutedBelowIsDeeper(cfg, Plus(id, c.name), c.body, sub, s);
      }
    } else {
      ExecutedBelowIsDeeper(cfg, id, b.rest, sub, s);
    }
  }

  /** What a subtest puts into the trace of its parent. */
  function Bracketed(cfg: Config, sub: TestID, s: Body): seq<Event> {
    [Started(sub)] + Trace(cfg, sub, s) + [LastEvent(cfg.capabilities, sub, s)]
  }

  lemma Nest(a: seq<Event>, pre: seq<Event>, mid: seq<Event>, post: seq<Event>, z: seq<Event>)
    ensures a + (pre + mid + post) + z == (a + pre) + mid + (post + z)
  {
  }

  /** A scope that is run below another one leaves its whole trace, between its start and its end, in one piece of the
      other's. */
  lemma {:induction false} BelowIsOnePiece(cfg: Config, id: TestID, b: Body, sub: TestID, s: Body)
    returns (pre: seq<Event>, post: seq<Event>)
    requires ExecutesBelow(cfg, id, b, sub, s)
    ensures BodyTrace(cfg, id, b) == pre + Bracketed(cfg, sub, s) + post
    decreases b, 0
  {
    hide Trace, LastEvent;
    var c, rest := b.first, b.rest;
    var tail := if Exit(cfg.capabilities, c).Some? then [] else BodyTrace(cfg, id, rest);
    assert BodyTrace(cfg, id, b) == CommandTrace(cfg, id, c) + tail;
    if RunsSubtest(cfg, id, c) && Executes(cfg, Plus(id, c.name), c.body, sub, s) {
      var child := Plus(id, c.name);
      assert CommandTrace(cfg, id, c) == Bracketed(cfg, child, c.body);
      if ExecutesBelow(cfg, child, c.body, sub, s) {
        pre, post := InsideItsParent(cfg, child, c.body, sub, s);
        Nest([Started(child)], pre, Bracketed(cfg, sub, s), post, [LastEvent(cfg.capabilities, child, c.body)]);
        Nest([], [Started(child)] + pre, Bracketed(cfg, sub, s),
             post + [LastEvent(cfg.capabilities, child, c.body)], tail);
        pre, post := [] + ([Started(child)] + pre), post + [LastEvent(cfg.capabilities, child, c.body)] + tail;
      } else {
        pre, post := [], tail;
        assert pre + Bracketed(cfg, sub, s) == Bracketed(cfg, sub, s);
      }
    } else {
      pre, post := BelowIsOnePiece(cfg, id, rest, sub, s);
      Nest(CommandTrace(cfg, id, c), pre, Bracketed(cfg, sub, s), post, []);
      pre, post := CommandTrace(cfg, id, c) + pre, post + [];
    }
  }

  lemma InsideItsParent(cfg: Config, id: TestID, b: Body, sub: TestID, s: Body)
    returns (pre: seq<Event>, post: seq<Event>)
    requires ExecutesBelow(cfg, id, b, sub, s)
    ensures Trace(cfg, id, b) == pre + Bracketed(cfg, sub, s) + post
    decreases b, 1
  {
    hide BodyTrace, Closing, LastEvent, ExecutesBelow;
    pre, post := BelowIsOnePiece(cfg, id, b, sub, s);
    Nest([], pre, Bracketed(cfg, sub, s), post, Closing(cfg, id, b));
    pre, post := [] + pre, post + Closing(cfg, id, b);
  }

  /** The trace of every scope that a run executes is one piece of the trace of the run; that of a subtest stands
      between its start and its end. */
  lemma ScopeIsOnePiece(cfg: Config, b: Body, sub: TestID, s: Body) returns (pre: seq<Event>, post: seq<Event>)
    requires Executes(cfg, [], b, sub, s)
    ensures Trace(cfg, [], b) == pre + Trace(cfg, sub, s) + post
    ensures sub == [] ==> pre == [] && post == []
    ensures sub != [] ==>
      && pre != [] && pre[|pre| - 1] == Started(sub)
      && post != [] && post[0] == LastEvent(cfg.capabilities, sub, s)
  {
    hide Trace, LastEvent, ExecutesBelow;
    if ExecutesBelow(cfg, [], b, sub, s) {
      ExecutedBelowIsDeeper(cfg, [], b, sub, s);
      pre, post := InsideItsParent(cfg, [], b, sub, s);
      Nest(pre, [Started(sub)], Trace(cfg, sub, s), [LastEvent(cfg.capabilities, sub, s)], post);
      pre, post := pre + [Started(sub)], [LastEvent(cfg.capabilities, sub, s)] + post;
    } else {
      pre, post := [], [];
      assert [] + Trace(cfg, sub, s) + [] == Trace(cfg, sub, s);
    }
  }

  /** In a run, the record of every scope that is executed and not skipped is followed at once by all of its
      cleanups, in reverse order of registration, and then, for a subtest, by its end. */
  lemma EveryScopeCleansUp(cfg: Config, b: Body, sub: TestID, s: Body) returns (pre: seq<Event>, post: seq<Event>)
    requires Executes(cfg, [], b, sub, s) && !EndingOf(cfg.capabilities, s).SkippedBecause?
    ensures Trace(cfg, [], b)
      == pre + ([Recorded(TestResult(sub, Errors(cfg.capabilities, s)))]
                + CleanedUpAll(sub, Registered(cfg.capabilities, s))) + post
    ensures if sub == [] then post == []
      else post != [] && post[0] == Finished(sub, Errors(cfg.capabilities, s) != [])
  {
    hide Executes, ErrorEvents, CleanedUpAll, Errors, BodyTrace;
    var caps := cfg.capabilities;
    var first := BodyTrace(cfg, sub, s) + ErrorEvents(sub, ExitErrors(Reported(caps, s), EndingOf(caps, s)));
    var last := [Recorded(TestResult(sub, Errors(caps, s)))] + CleanedUpAll(sub, Registered(caps, s));
    pre, post := ScopeIsOnePiece(cfg, b, sub, s);
    assert Trace(cfg, sub, s) == first + last + [];
    Nest(pre, first, last, [], post);
    assert [] + post == post;
    pre := pre + first;
  }

  lemma SkipClosesNothing(cfg: Config, sub: TestID, s: Body)
    requires EndingOf(cfg.capabilities, s).SkippedBecause?
    ensures Trace(cfg, sub, s) == BodyTrace(cfg, sub, s)
    ensures LastEvent(cfg.capabilities, sub, s) == Skipped(sub, EndingOf(cfg.capabilities, s).why)
  {
    assert BodyTrace(cfg, sub, s) + [] == BodyTrace(cfg, sub, s);
  }

  /** A subtest that is executed and skipped leaves in the run's trace only what its body did: between that and its end
      there is no record and no cleanup. */
  lemma EverySkipIsBare(cfg: Config, b: Body, sub: TestID, s: Body) returns (pre: seq<Event>, post: seq<Event>)
    requires Executes(cfg, [], b, sub, s) && EndingOf(cfg.capabilities, s).SkippedBecause? && sub != []
    ensures Trace(cfg, [], b)
      == pre + ([Started(sub)] + BodyTrace(cfg, sub, s) + [Skipped(sub, EndingOf(cfg.capabilities, s).why)]) + post
  {
    hide Executes, Trace, BodyTrace, EndingOf, LastEvent;
    pre, post := ScopeIsOnePiece(cfg, b, sub, s);
    SkipClosesNothing(cfg, sub, s);
    var head, tail := pre[..|pre| - 1], post[1..];
    assert pre == head + [Started(sub)] && post == [post[0]] + tail;
    Nest(head, [Started(sub)], BodyTrace(cfg, sub, s), [post[0]], tail);
    pre, post := head, tail;
  }
}
