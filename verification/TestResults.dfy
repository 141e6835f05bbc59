/** Test ids and results: framework/ldtest/result.go. */
module TestResults {
  import opened Text

  type TestID = seq<string>

  function IDString(id: TestID): string {
    Join(id, '/')
  }

  function Plus(id: TestID, name: string): TestID {
    id + [name]
  }

  /** What a scope can report: text given to Errorf, or one of the two errors the runner makes up. */
  datatype TestError =
    | Message(text: string)
    | NoFailureMessage
    | UnexpectedPanic(value: string)

  datatype TestResult = TestResult(id: TestID, errors: seq<TestError>)

  datatype Results = Results(tests: seq<TestResult>, failures: seq<TestResult>) {
    predicate OK() {
      |failures| == 0
    }
  }

  /** The results that report an error, in order. */
  function WithErrors(rs: seq<TestResult>): seq<TestResult> {
    if rs == [] then []
    else (if rs[0].errors != [] then [rs[0]] else []) + WithErrors(rs[1..])
  }

  /** The results whose id is selected, in order. */
  function Restrict(rs: seq<TestResult>, keep: TestID -> bool): seq<TestResult> {
    if rs == [] then []
    else (if keep(rs[0].id) then [rs[0]] else []) + Restrict(rs[1..], keep)
  }

  lemma {:induction false} WithErrorsConcat(a: seq<TestResult>, b: seq<TestResult>)
    ensures WithErrors(a + b) == WithErrors(a) + WithErrors(b)
  {
    if a == [] {
      assert a + b == b;
    } else {
      var head := if a[0].errors != [] then [a[0]] else [];
      assert (a + b)[0] == a[0] && (a + b)[1..] == a[1..] + b;
      WithErrorsConcat(a[1..], b);
      assert head + (WithErrors(a[1..]) + WithErrors(b)) == head + WithErrors(a[1..]) + WithErrors(b);
    }
  }

  lemma {:induction false} RestrictConcat(a: seq<TestResult>, b: seq<TestResult>, keep: TestID -> bool)
    ensures Restrict(a + b, keep) == Restrict(a, keep) + Restrict(b, keep)
  {
    if a == [] {
      assert a + b == b;
    } else {
      var head := if keep(a[0].id) then [a[0]] else [];
      assert (a + b)[0] == a[0] && (a + b)[1..] == a[1..] + b;
      RestrictConcat(a[1..], b, keep);
      assert head + (Restrict(a[1..], keep) + Restrict(b, keep)) == head + Restrict(a[1..], keep) + Restrict(b, keep);
    }
  }

  lemma {:induction false} RestrictNone(rs: seq<TestResult>, keep: TestID -> bool)
    requires forall i | 0 <= i < |rs| :: !keep(rs[i].id)
    ensures Restrict(rs, keep) == []
  {
    if rs != [] {
      RestrictNone(rs[1..], keep);
    }
  }

  lemma {:induction false} RestrictMember(rs: seq<TestResult>, keep: TestID -> bool, r: TestResult)
    ensures r in Restrict(rs, keep) <==> r in rs && keep(r.id)
  {
    if rs != [] {
      RestrictMember(rs[1..], keep, r);
      assert rs == [rs[0]] + rs[1..];
    }
  }

  lemma {:induction false} RestrictThenErrors(rs: seq<TestResult>, keep: TestID -> bool)
    ensures WithErrors(Restrict(rs, keep)) == Restrict(WithErrors(rs), keep)
  {
    if rs != [] {
      RestrictThenErrors(rs[1..], keep);
      WithErrorsConcat(if keep(rs[0].id) then [rs[0]] else [], Restrict(rs[1..], keep));
      RestrictConcat(if rs[0].errors != [] then [rs[0]] else [], WithErrors(rs[1..]), keep);
    }
  }

  /** Ids print differently when they are different, unless a name contains a slash or an id is empty. */
  lemma IDStringInjective(a: TestID, b: TestID)
    requires a != [] && b != [] && FreeOf(a, '/') && FreeOf(b, '/')
    requires IDString(a) == IDString(b)
    ensures a == b
  {
    SplitJoin(a, '/');
    SplitJoin(b, '/');
  }

  /** A non-empty id can be recovered from its text if and only if none of its names contains a slash. */
  lemma IDStringRecoverableIff(id: TestID)
    ensures Split(IDString(id), '/') == id <==> id != [] && FreeOf(id, '/')
  {
    SplitFreeOf(IDString(id), '/');
    if id != [] && FreeOf(id, '/') {
      SplitJoin(id, '/');
    }
  }
}
