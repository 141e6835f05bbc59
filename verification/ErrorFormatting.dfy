/** Taking apart testify's failure messages and laying them out again: framework/ldtest/error_formatting.go. */
module ErrorFormatting {
  import opened Text

  const TRACE_MARK: string := "Error Trace:"
  const ERROR_MARK: string := "Error:"
  const UNEXPECTED: string := "Received unexpected error:"
  const RUNNER_FILE: string := "test_scope.go"

  datatype Parts = Parts(traces: seq<string>, messages: seq<string>, ok: bool)

  // ---- The reference: where the marks are decides everything ----

  /** The trimmed lines that are not blank. */
  function NonBlank(lines: seq<string>): seq<string> {
    if lines == [] then []
    else
      var line := TrimSpace(lines[|lines| - 1]);
      NonBlank(lines[..|lines| - 1]) + if line == "" then [] else [line]
  }

  /** The first line from `start` on that contains the mark, or the number of lines if there is none. */
  function FirstWith(lines: seq<string>, mark: string, start: nat): (k: nat)
    requires start <= |lines|
    ensures start <= k <= |lines|
    ensures forall i | start <= i < k :: !Contains(lines[i], mark)
    ensures k < |lines| ==> Contains(lines[k], mark)
    decreases |lines| - start
  {
    if start == |lines| || Contains(lines[start], mark) then start else FirstWith(lines, mark, start + 1)
  }

  function Strip(line: string, mark: string): string {
    TrimSpace(TrimPrefix(line, mark))
  }

  function TraceOf(lines: seq<string>, traceMark: string, i: nat, j: nat): seq<string>
    requires i < j <= |lines|
  {
    [Strip(lines[i], traceMark)] + lines[i + 1..j]
  }

  function MessageOf(lines: seq<string>, errorMark: string, j: nat): seq<string>
    requires j < |lines|
  {
    [Strip(lines[j], errorMark)] + lines[j + 1..]
  }

  /** Skip to the trace mark; the trace runs up to the error mark; the message is the rest. */
  function SplitAt(lines: seq<string>, traceMark: string, errorMark: string): Parts {
    var i := FirstWith(lines, traceMark, 0);
    if i == |lines| then Parts([], [], false)
    else
      var j := FirstWith(lines, errorMark, i + 1);
      if j == |lines| then Parts(TraceOf(lines, traceMark, i, j), [], false)
      else Parts(TraceOf(lines, traceMark, i, j), MessageOf(lines, errorMark, j), true)
  }

  function SplitAtMarks(lines: seq<string>): Parts {
    SplitAt(lines, TRACE_MARK, ERROR_MARK)
  }

  function Lines(msg: string): seq<string> {
    NonBlank(Split(msg, '\n'))
  }

  // ---- The line-driven state machine ----

  lemma FirstWithUnique(lines: seq<string>, mark: string, start: nat, k: nat)
    requires start <= k <= |lines|
    requires forall i | start <= i < k :: !Contains(lines[i], mark)
    requires k < |lines| ==> Contains(lines[k], mark)
    ensures FirstWith(lines, mark, start) == k
  {
    assert FirstWith(lines, mark, start) < |lines| ==> Contains(lines[FirstWith(lines, mark, start)], mark);
  }

  lemma FirstWithGrows(lines: seq<string>, line: string, mark: string, start: nat)
    requires start <= |lines|
    ensures var k := FirstWith(lines, mark, start);
      FirstWith(lines + [line], mark, start) ==
        if k < |lines| then k else if Contains(line, mark) then |lines| else |lines| + 1
  {
    var k := FirstWith(lines, mark, start);
    var k' := if k < |lines| then k else if Contains(line, mark) then |lines| else |lines| + 1;
    var all := lines + [line];
    forall i | start <= i < k' ensures !Contains(all[i], mark) {
      if i < |lines| {
        assert all[i] == lines[i];
      }
    }
    FirstWithUnique(all, mark, start, k');
  }

  lemma TraceGrows(lines: seq<string>, line: string, traceMark: string, i: nat, j: nat)
    requires i < j <= |lines|
    ensures TraceOf(lines + [line], traceMark, i, j) == TraceOf(lines, traceMark, i, j) != []
    ensures TraceOf(lines + [line], traceMark, i, |lines| + 1) == TraceOf(lines, traceMark, i, |lines|) + [line]
  {
    hide Strip;
    var all := lines + [line];
    assert all[i + 1..j] == lines[i + 1..j];
    assert all[i + 1..|all|] == lines[i + 1..|lines|] + [line];
  }

  lemma MessageGrows(lines: seq<string>, line: string, errorMark: string, j: nat)
    requires j < |lines|
    ensures MessageOf(lines + [line], errorMark, j) == MessageOf(lines, errorMark, j) + [line]
    ensures MessageOf(lines, errorMark, j) != []
  {
    hide Strip;
    assert (lines + [line])[j + 1..] == lines[j + 1..] + [line];
  }

  lemma MessageStarts(lines: seq<string>, line: string, errorMark: string)
    ensures MessageOf(lines + [line], errorMark, |lines|) == [Strip(line, errorMark)]
  {
    hide Strip;
    assert (lines + [line])[|lines| + 1..] == [];
  }

  /** One more line: what the machine does with it, by the lengths of the two lists alone. */
  function Feed(p: Parts, line: string, traceMark: string, errorMark: string): Parts {
    if |p.messages| > 0 then p.(messages := p.messages + [line])
    else if |p.traces| > 0 then
      if Contains(line, errorMark) then Parts(p.traces, [Strip(line, errorMark)], true)
      else p.(traces := p.traces + [line])
    else if Contains(line, traceMark) then p.(traces := [Strip(line, traceMark)])
    else p
  }

  lemma FeedBeforeTrace(lines: seq<string>, line: string, traceMark: string, errorMark: string)
    requires FirstWith(lines, traceMark, 0) == |lines|
    ensures Feed(SplitAt(lines, traceMark, errorMark), line, traceMark, errorMark)
      == SplitAt(lines + [line], traceMark, errorMark)
  {
    var all := lines + [line];
    FirstWithGrows(lines, line, traceMark, 0);
    if Contains(line, traceMark) {
      FirstWithUnique(all, errorMark, |all|, |all|);
    }
  }

  lemma FeedInTrace(lines: seq<string>, line: string, traceMark: string, errorMark: string, i: nat)
    requires i == FirstWith(lines, traceMark, 0) < |lines|
    requires FirstWith(lines, errorMark, i + 1) == |lines|
    ensures Feed(SplitAt(lines, traceMark, errorMark), line, traceMark, errorMark)
      == SplitAt(lines + [line], traceMark, errorMark)
  {
    hide Strip, Contains, TraceOf, MessageOf;
    FirstWithGrows(lines, line, traceMark, 0);
    FirstWithGrows(lines, line, errorMark, i + 1);
    TraceGrows(lines, line, traceMark, i, |lines|);
    MessageStarts(lines, line, errorMark);
  }

  lemma FeedInMessage(lines: seq<string>, line: string, traceMark: string, errorMark: string, i: nat, j: nat)
    requires i == FirstWith(lines, traceMark, 0) < |lines|
    requires j == FirstWith(lines, errorMark, i + 1) < |lines|
    ensures Feed(SplitAt(lines, traceMark, errorMark), line, traceMark, errorMark)
      == SplitAt(lines + [line], traceMark, errorMark)
  {
    hide Strip, Contains, TraceOf, MessageOf;
    FirstWithGrows(lines, line, traceMark, 0);
    FirstWithGrows(lines, line, errorMark, i + 1);
    TraceGrows(lines, line, traceMark, i, j);
    MessageGrows(lines, line, errorMark, j);
  }

  lemma NothingFed(traceMark: string, errorMark: string)
    ensures SplitAt([], traceMark, errorMark) == Parts([], [], false)
  {
  }

  /** Line by line, the machine keeps to the reference. */
  lemma FeedFollowsMarks(lines: seq<string>, line: string, traceMark: string, errorMark: string)
    ensures Feed(SplitAt(lines, traceMark, errorMark), line, traceMark, errorMark)
      == SplitAt(lines + [line], traceMark, errorMark)
  {
    if FirstWith(lines, traceMark, 0) == |lines| {
      FeedBeforeTrace(lines, line, traceMark, errorMark);
    } else {
      var i := FirstWith(lines, traceMark, 0);
      var j := FirstWith(lines, errorMark, i + 1);
      if j == |lines| {
        FeedInTrace(lines, line, traceMark, errorMark, i);
      } else {
        FeedInMessage(lines, line, traceMark, errorMark, i, j);
      }
    }
  }

  /** Trimming cannot create a mark, and marks do not span lines: a text without a mark has no line with one. */
  lemma {:induction false} LinesContain(lines: seq<string>, mark: string, k: nat)
    requires k < |NonBlank(lines)| && Contains(NonBlank(lines)[k], mark)
    ensures exists n :: 0 <= n < |lines| && Contains(lines[n], mark)
  {
    var init, last := lines[..|lines| - 1], lines[|lines| - 1];
    if k < |NonBlank(init)| {
      LinesContain(init, mark, k);
      var n :| 0 <= n < |init| && Contains(init[n], mark);
      assert Contains(lines[n], mark);
    } else {
      assert NonBlank(lines)[k] == TrimSpace(last);
      TrimSpaceWindow(last);
      var a, b :| 0 <= a <= b <= |last| && TrimSpace(last) == last[a..b];
      ContainsWindow(last, a, b, mark);
      assert Contains(lines[|lines| - 1], mark);
    }
  }

  lemma {:induction false} PartInWhole(parts: seq<string>, sep: char, n: nat)
    requires n < |parts|
    ensures exists a, b :: 0 <= a <= b <= |Join(parts, sep)| && Join(parts, sep)[a..b] == parts[n]
  {
    var s := Join(parts, sep);
    if |parts| == 1 {
      assert s[0..|s|] == parts[0];
    } else if n == 0 {
      assert s[0..|parts[0]|] == parts[0];
    } else {
      PartInWhole(parts[1..], sep, n - 1);
      var rest := Join(parts[1..], sep);
      var a, b :| 0 <= a <= b <= |rest| && rest[a..b] == parts[1..][n - 1];
      var d := |parts[0]| + 1;
      assert s[d..] == rest;
      assert s[d + a..d + b] == s[d..][a..b];
    }
  }

  lemma NoMarkNoParts(msg: string)
    requires !Contains(msg, TRACE_MARK)
    ensures SplitAtMarks(Lines(msg)) == Parts([], [], false)
  {
    var lines := Split(msg, '\n');
    var i := FirstWith(Lines(msg), TRACE_MARK, 0);
    if i < |Lines(msg)| {
      LinesContain(lines, TRACE_MARK, i);
      var n :| 0 <= n < |lines| && Contains(lines[n], TRACE_MARK);
      JoinSplit(msg, '\n');
      PartInWhole(lines, '\n', n);
      var a, b :| 0 <= a <= b <= |msg| && msg[a..b] == lines[n];
      ContainsWindow(msg, a, b, TRACE_MARK);
      assert false;
    }
  }

  // ---- What the text is taken apart into, and laid out as ----

  /** The k-th line is the first one from `start` on that contains the mark. */
  ghost predicate FirstMark(lines: seq<string>, mark: string, start: nat, k: nat) {
    && start <= k < |lines| && Contains(lines[k], mark)
    && forall n | start <= n < k :: !Contains(lines[n], mark)
  }

  /** The i-th line has the first trace mark, and the j-th the first error mark on a later line. */
  ghost predicate Marked(lines: seq<string>, i: nat, j: nat) {
    FirstMark(lines, "Error Trace:", 0, i) && FirstMark(lines, "Error:", i + 1, j)
  }

  /** The trace: what stands beside its mark, and the lines up to the error mark. */
  function TraceLines(lines: seq<string>, i: nat, j: nat): seq<string>
    requires i < j < |lines|
  {
    [TrimSpace(TrimPrefix(lines[i], "Error Trace:"))] + lines[i + 1..j]
  }

  /** The message: what stands beside its mark, and all lines below. */
  function MessageLines(lines: seq<string>, j: nat): seq<string>
    requires j < |lines|
  {
    [TrimSpace(TrimPrefix(lines[j], "Error:"))] + lines[j + 1..]
  }

  lemma MarksSplit(lines: seq<string>, i: nat, j: nat)
    requires Marked(lines, i, j)
    ensures SplitAtMarks(lines) == Parts(TraceLines(lines, i, j), MessageLines(lines, j), true)
  {
    hide Contains, TrimSpace, TrimPrefix;
    FirstWithUnique(lines, TRACE_MARK, 0, i);
    FirstWithUnique(lines, ERROR_MARK, i + 1, j);
  }

  lemma UnmarkedSplit(lines: seq<string>)
    requires forall i: nat, j: nat :: !Marked(lines, i, j)
    ensures !SplitAtMarks(lines).ok
  {
    hide Contains;
    var i := FirstWith(lines, TRACE_MARK, 0);
    if i < |lines| {
      assert !Marked(lines, i, FirstWith(lines, ERROR_MARK, i + 1));
    }
  }

  /** The first `m` trace lines are those above the test runner's own. */
  ghost predicate AboveRunner(traces: seq<string>, m: nat) {
    && m <= |traces|
    && (forall n | 0 <= n < m :: !Contains(traces[n], "test_scope.go"))
    && (m < |traces| ==> Contains(traces[m], "test_scope.go"))
  }

  /** The text reads, line by line: the message, "Error: " in front of an unexpected error's own text; the words
      "Error trace:"; the trace as far as it is above the runner, indented. */
  ghost predicate Reads(text: string, lines: seq<string>, i: nat, j: nat, m: nat)
    requires i < j < |lines| && m <= |TraceLines(lines, i, j)|
  {
    var message := MessageLines(lines, j);
    var shown :=
      if message[0] != "Received unexpected error:" then message
      else if |message| > 1 then ["Error: " + message[1]] + message[2..] else [];
    Split(text, '\n')
      == shown + ["  Error trace:"]
         + seq(m, n requires 0 <= n < m => "    " + TraceLines(lines, i, j)[n])
  }

  lemma {:induction false} NonBlankFree(lines: seq<string>, c: char)
    requires FreeOf(lines, c)
    ensures FreeOf(NonBlank(lines), c)
  {
    if lines != [] {
      var init, last := lines[..|lines| - 1], lines[|lines| - 1];
      assert FreeOf(init, c) by {
        assert forall i | 0 <= i < |init| :: init[i] == lines[i];
      }
      NonBlankFree(init, c);
      TrimFree(last, c);
    }
  }

  lemma TrimFree(s: string, c: char)
    requires c !in s
    ensures c !in TrimSpace(s)
  {
    var a, b := TrimSpaceCuts(s);
  }

  lemma StripFree(line: string, mark: string, c: char)
    requires c !in line
    ensures c !in TrimSpace(TrimPrefix(line, mark))
  {
    hide TrimSpace;
    TrimFree(TrimPrefix(line, mark), c);
  }

  lemma PartsFree(lines: seq<string>, i: nat, j: nat)
    requires FreeOf(lines, '\n') && i < j < |lines|
    ensures FreeOf(TraceLines(lines, i, j), '\n') && FreeOf(MessageLines(lines, j), '\n')
  {
    hide TrimSpace, TrimPrefix;
    StripFree(lines[i], "Error Trace:", '\n');
    StripFree(lines[j], "Error:", '\n');
  }

  lemma LinesFree(msg: string)
    ensures FreeOf(Lines(msg), '\n')
  {
    SplitFreeOf(msg, '\n');
    NonBlankFree(Split(msg, '\n'), '\n');
  }

  lemma IndentedAbove(traces: seq<string>, m: nat)
    requires AboveRunner(traces, m)
    ensures Indented(traces) == seq(m, n requires 0 <= n < m => "    " + traces[n])
  {
    hide Contains;
    IndentedUpToRunner(traces);
    FirstWithUnique(traces, RUNNER_FILE, 0, m);
  }

  lemma LayoutSplits(messages: seq<string>, traces: seq<string>, m: nat)
    requires FreeOf(messages, '\n') && FreeOf(traces, '\n') && AboveRunner(traces, m)
    ensures Split(Layout(messages, traces), '\n')
      == messages + ["  Error trace:"] + seq(m, n requires 0 <= n < m => "    " + traces[n])
  {
    hide Contains, Split, Join;
    IndentedAbove(traces, m);
    var pieces := messages + ["  Error trace:"] + Indented(traces);
    forall k | 0 <= k < |pieces| ensures '\n' !in pieces[k] {
      if k > |messages| {
        assert pieces[k] == "    " + traces[k - |messages| - 1];
      } else if k < |messages| {
        assert pieces[k] == messages[k];
      }
    }
    SplitJoin(pieces, '\n');
  }

  /** Whatever the text: without the two marks it is logged as it is; with them, an unexpected error with no text of
      its own panics, and in every other case the text that is logged reads as described. */
  lemma ReformattedReads(err: string, i: nat, j: nat, m: nat)
    requires Marked(Lines(err), i, j) && AboveRunner(TraceLines(Lines(err), i, j), m)
    ensures match Reformatted(err)
      case None => j == |Lines(err)| - 1 && MessageLines(Lines(err), j) == ["Received unexpected error:"]
      case Some(text) =>
        MessageLines(Lines(err), j) != ["Received unexpected error:"] && Reads(text, Lines(err), i, j, m)
  {
    hide Contains, Lines, Split, Layout, TrimSpace, TrimPrefix, AboveRunner, Marked;
    var lines := Lines(err);
    assert i < j < |lines| by {
      MarksInRange(lines, i, j);
    }
    MarksSplit(lines, i, j);
    LinesFree(err);
    PartsFree(lines, i, j);
    var traces, message := TraceLines(lines, i, j), MessageLines(lines, j);
    if message[0] != UNEXPECTED {
      LayoutSplits(message, traces, m);
    } else if |message| > 1 {
      var shown := ["Error: " + message[1]] + message[2..];
      assert FreeOf(shown, '\n');
      LayoutSplits(shown, traces, m);
    }
  }

  lemma MarksInRange(lines: seq<string>, i: nat, j: nat)
    requires Marked(lines, i, j)
    ensures i < j < |lines|
  {
  }

  lemma UnmarkedStays(err: string)
    requires forall i: nat, j: nat :: !Marked(Lines(err), i, j)
    ensures Reformatted(err) == Some(err)
  {
    hide Lines, SplitAtMarks;
    UnmarkedSplit(Lines(err));
  }

  /** The lines that are looked at are those of the text, trimmed, without the blank ones, in order. */
  lemma {:induction false} NonBlankLaws(a: seq<string>, b: seq<string>, line: string)
    ensures NonBlank([]) == []
    ensures NonBlank(a + [line] + b) ==
      NonBlank(a) + (if TrimSpace(line) == "" then [] else [TrimSpace(line)]) + NonBlank(b)
  {
    hide TrimSpace;
    var all, one := a + [line] + b, if TrimSpace(line) == "" then [] else [TrimSpace(line)];
    if b == [] {
      assert all == a + [line] && all[..|all| - 1] == a;
      assert NonBlank(a) + one + [] == NonBlank(a) + one;
    } else {
      var init, last := b[..|b| - 1], TrimSpace(b[|b| - 1]);
      assert all[..|all| - 1] == a + [line] + init;
      NonBlankLaws(a, init, line);
      var end := if last == "" then [] else [last];
      assert NonBlank(a) + one + (NonBlank(init) + end) == NonBlank(a) + one + NonBlank(init) + end;
    }
  }

  lemma PartsReads(msg: string)
    ensures forall i: nat, j: nat | Marked(Lines(msg), i, j) ::
      i < j < |Lines(msg)|
      && SplitAtMarks(Lines(msg)) == Parts(TraceLines(Lines(msg), i, j), MessageLines(Lines(msg), j), true)
    ensures (forall i: nat, j: nat :: !Marked(Lines(msg), i, j)) ==> !SplitAtMarks(Lines(msg)).ok
  {
    hide Lines, Marked, TraceLines, MessageLines, SplitAtMarks;
    forall i: nat, j: nat | Marked(Lines(msg), i, j)
      ensures i < j < |Lines(msg)|
        && SplitAtMarks(Lines(msg)) == Parts(TraceLines(Lines(msg), i, j), MessageLines(Lines(msg), j), true)
    {
      MarksInRange(Lines(msg), i, j);
      MarksSplit(Lines(msg), i, j);
    }
    if forall i: nat, j: nat :: !Marked(Lines(msg), i, j) {
      UnmarkedSplit(Lines(msg));
    }
  }

  method ParseTestifyFailureMessage(msg: string) returns (p: Parts)
    ensures p == SplitAtMarks(Lines(msg))
    ensures forall i: nat, j: nat | Marked(Lines(msg), i, j) ::
      i < j < |Lines(msg)| && p == Parts(TraceLines(Lines(msg), i, j), MessageLines(Lines(msg), j), true)
    ensures (forall i: nat, j: nat :: !Marked(Lines(msg), i, j)) ==> !p.ok
  {
    hide TrimSpace, TrimPrefix, Contains, SplitAt, Marked, TraceLines, MessageLines;
    if !Contains(msg, TRACE_MARK) {
      NoMarkNoParts(msg);
      PartsReads(msg);
      return Parts([], [], false);
    }
    var traces: seq<string>, messages: seq<string> := [], [];
    NothingFed(TRACE_MARK, ERROR_MARK);
    var lines := Split(msg, '\n');
    for n := 0 to |lines|
      invariant Parts(traces, messages, |traces| > 0 && |messages| > 0) == SplitAtMarks(NonBlank(lines[..n]))
    {
      assert lines[..n + 1][..n] == lines[..n];
      var line := TrimSpace(lines[n]);
      ghost var before := NonBlank(lines[..n]);
      assert NonBlank(lines[..n + 1]) == before + if line == "" then [] else [line];
      if line == "" {
        assert before + [] == before;
        continue;
      }
      FeedFollowsMarks(before, line, TRACE_MARK, ERROR_MARK);
      if |messages| > 0 {
        messages := messages + [line];
      } else if |traces| > 0 {
        if Contains(line, ERROR_MARK) {
          messages := messages + [TrimSpace(TrimPrefix(line, ERROR_MARK))];
        } else {
          traces := traces + [line];
        }
      } else if Contains(line, TRACE_MARK) {
        traces := traces + [TrimSpace(TrimPrefix(line, TRACE_MARK))];
      }
    }
    assert lines[..|lines|] == lines;
    PartsReads(msg);
    return Parts(traces, messages, |traces| > 0 && |messages| > 0);
  }

  /** The two lists are returned as a success exactly when a trace mark is followed, on a later line, by an error
      mark. */
  lemma ParsedIff(lines: seq<string>)
    ensures SplitAtMarks(lines).ok <==>
      exists i, j :: 0 <= i < j < |lines| && Contains(lines[i], TRACE_MARK) && Contains(lines[j], ERROR_MARK)
  {
    var i := FirstWith(lines, TRACE_MARK, 0);
    if i < |lines| {
      var j := FirstWith(lines, ERROR_MARK, i + 1);
      assert j < |lines| ==> Contains(lines[i], TRACE_MARK) && Contains(lines[j], ERROR_MARK);
    }
  }

  // ---- reformatError ----

  function Indented(traces: seq<string>): seq<string> {
    if traces == [] || Contains(traces[0], RUNNER_FILE) then []
    else ["    " + traces[0]] + Indented(traces[1..])
  }

  /** The trace is cut at the first line that is in the test runner itself. */
  lemma {:induction false} IndentedUpToRunner(traces: seq<string>)
    ensures |Indented(traces)| == FirstWith(traces, RUNNER_FILE, 0)
    ensures forall i | 0 <= i < |Indented(traces)| :: Indented(traces)[i] == "    " + traces[i]
  {
    hide Contains;
    if traces != [] && !Contains(traces[0], RUNNER_FILE) {
      var n := FirstWith(traces[1..], RUNNER_FILE, 0);
      IndentedUpToRunner(traces[1..]);
      forall i | 0 <= i < n + 1 ensures !Contains(traces[i], RUNNER_FILE) {
        if i > 0 {
          assert traces[i] == traces[1..][i - 1];
        }
      }
      FirstWithUnique(traces, RUNNER_FILE, 0, n + 1);
    }
  }

  function Layout(messages: seq<string>, traces: seq<string>): string {
    Join(messages + ["  Error trace:"] + Indented(traces), '\n')
  }

  /** The text that is logged for an error; `None` when laying it out panics with an index out of range. */
  function Reformatted(err: string): Option<string> {
    var p := SplitAtMarks(Lines(err));
    if !p.ok then Some(err)
    else if p.messages[0] != UNEXPECTED then Some(Layout(p.messages, p.traces))
    else if |p.messages| == 1 then None
    else Some(Layout(["Error: " + p.messages[1]] + p.messages[2..], p.traces))
  }

  /** Everything that is cut out of a message is already trimmed. */
  lemma {:induction false} NonBlankTrimmed(lines: seq<string>, k: nat)
    requires k < |NonBlank(lines)|
    ensures Trimmed(NonBlank(lines)[k]) && NonBlank(lines)[k] != ""
  {
    var init := lines[..|lines| - 1];
    if k < |NonBlank(init)| {
      NonBlankTrimmed(init, k);
    } else {
      TrimSpaceWindow(lines[|lines| - 1]);
    }
  }

  lemma FirstMessageTrimmed(lines: seq<string>)
    requires SplitAtMarks(lines).ok
    ensures TrimSpace(SplitAtMarks(lines).messages[0]) == SplitAtMarks(lines).messages[0]
  {
    var j := FirstWith(lines, ERROR_MARK, FirstWith(lines, TRACE_MARK, 0) + 1);
    TrimSpaceWindow(TrimPrefix(lines[j], ERROR_MARK));
    TrimKeepsTrimmed(Strip(lines[j], ERROR_MARK));
  }

  lemma SplitHasMessages(lines: seq<string>)
    ensures SplitAtMarks(lines).ok ==> SplitAtMarks(lines).messages != []
  {
  }

  lemma ReformatReads(err: string)
    ensures (forall i: nat, j: nat :: !Marked(Lines(err), i, j)) ==> Reformatted(err) == Some(err)
    ensures forall i: nat, j: nat, m: nat | Marked(Lines(err), i, j) && AboveRunner(TraceLines(Lines(err), i, j), m) ::
      if MessageLines(Lines(err), j) == ["Received unexpected error:"] then Reformatted(err) == None
      else Reformatted(err).Some? && Reads(Reformatted(err).value, Lines(err), i, j, m)
  {
    hide Reformatted, Lines, Reads, Contains;
    if forall i: nat, j: nat :: !Marked(Lines(err), i, j) {
      UnmarkedStays(err);
    }
    forall i: nat, j: nat, m: nat | Marked(Lines(err), i, j) && AboveRunner(TraceLines(Lines(err), i, j), m)
      ensures if MessageLines(Lines(err), j) == ["Received unexpected error:"] then Reformatted(err) == None
        else Reformatted(err).Some? && Reads(Reformatted(err).value, Lines(err), i, j, m)
    {
      ReformattedReads(err, i, j, m);
    }
  }

  method ReformatError(err: string) returns (r: Option<string>)
    ensures r == Reformatted(err)
    ensures (forall i: nat, j: nat :: !Marked(Lines(err), i, j)) ==> r == Some(err)
    ensures forall i: nat, j: nat, m: nat | Marked(Lines(err), i, j) && AboveRunner(TraceLines(Lines(err), i, j), m) ::
      if MessageLines(Lines(err), j) == ["Received unexpected error:"] then r == None
      else r.Some? && Reads(r.value, Lines(err), i, j, m)
  {
    ReformatReads(err);
    hide TrimSpace, TrimPrefix, Contains, SplitAt, Lines, Marked, AboveRunner, Reads, TraceLines, MessageLines;
    SplitHasMessages(Lines(err));
    var p := ParseTestifyFailureMessage(err);
    if !p.ok {
      return Some(err);
    }
    var messages := p.messages;
    FirstMessageTrimmed(Lines(err));
    if |messages| > 0 && TrimSpace(messages[0]) == UNEXPECTED {
      messages := messages[1..];
      if |messages| == 0 {
        return None;  // messages[0] is out of range
      }
      messages := messages[0 := "Error: " + messages[0]];
    }
    var out := messages;
    out := out + ["  Error trace:"];
    ghost var head := out;
    var n := 0;
    while n < |p.traces|
      invariant n <= |p.traces|
      invariant out + Indented(p.traces[n..]) == head + Indented(p.traces)
    {
      var line := p.traces[n];
      if Contains(line, RUNNER_FILE) {
        break;
      }
      out := out + ["    " + line];
      assert p.traces[n..][1..] == p.traces[n + 1..];
      n := n + 1;
    }
    assert out == head + Indented(p.traces);
    assert p.messages[0] == UNEXPECTED ==> messages == ["Error: " + p.messages[1]] + p.messages[2..];
    return Some(Join(out, '\n'));
  }

  /** The two lines "Error Trace:" and "Error:Received unexpected error:". */
  const TWO_LINES: seq<string> := [TRACE_MARK, ERROR_MARK + UNEXPECTED]
  const PANIC_TEXT: string := TRACE_MARK + "\n" + (ERROR_MARK + UNEXPECTED)

  lemma PanicTextLines()
    ensures Lines(PANIC_TEXT) == TWO_LINES
  {
    hide Lines;
    TwoLineText(TRACE_MARK, ERROR_MARK + UNEXPECTED);
    assert TRACE_MARK + "\n" + (ERROR_MARK + UNEXPECTED) == PANIC_TEXT;
  }

  lemma PanicTextMarks()
    ensures FirstWith(TWO_LINES, TRACE_MARK, 0) == 0 && FirstWith(TWO_LINES, ERROR_MARK, 1) == 1
  {
    hide FirstWith;
    assert OccursAt(TWO_LINES[0], TRACE_MARK, 0) && OccursAt(TWO_LINES[1], ERROR_MARK, 0);
    FirstWithUnique(TWO_LINES, TRACE_MARK, 0, 0);
    FirstWithUnique(TWO_LINES, ERROR_MARK, 1, 1);
  }

  lemma PanicTextError()
    ensures Strip(TWO_LINES[1], ERROR_MARK) == UNEXPECTED
  {
    hide TrimSpace;
    TrimKeepsTrimmed(UNEXPECTED);
    assert TrimPrefix(TWO_LINES[1], ERROR_MARK) == UNEXPECTED;
  }

  /** Formatting does panic, on those two lines. */
  lemma ReformatCanPanic()
    ensures Reformatted(PANIC_TEXT) == None
  {
    hide Reformatted, Lines, FirstWith, Strip;
    PanicTextLines();
    PanicTextMarks();
    PanicTextError();
    ReformatPanicsIff(PANIC_TEXT);
  }

  lemma TwoLines(a: string, b: string)
    requires TrimSpace(a) == a != "" && TrimSpace(b) == b != ""
    ensures NonBlank([a, b]) == [a, b]
  {
    hide TrimSpace;
    assert [a, b][..1] == [a] && [a][..0] == [];
    assert NonBlank([a]) == [] + [a];
  }

  /** Laying out a message panics if and only if, in the lines after the first trace mark, the first error
      mark is on the very last line and introduces an unexpected error with no text below it. */
  lemma ReformatPanicsIff(err: string)
    ensures var lines := Lines(err);
      var i := FirstWith(lines, TRACE_MARK, 0);
      Reformatted(err).None? <==>
        && i < |lines|
        && FirstWith(lines, ERROR_MARK, i + 1) == |lines| - 1
        && Strip(lines[|lines| - 1], ERROR_MARK) == UNEXPECTED
  {
    hide Strip, Contains, Lines;
    var lines := Lines(err);
    var i := FirstWith(lines, TRACE_MARK, 0);
    SplitHasMessages(lines);
    if i < |lines| {
      var j := FirstWith(lines, ERROR_MARK, i + 1);
      if j < |lines| {
        assert SplitAtMarks(lines).messages == [Strip(lines[j], ERROR_MARK)] + lines[j + 1..];
      }
    }
  }

  /** A text of one line is logged as it is. */
  lemma OneLineStays(err: string)
    requires '\n' !in err
    ensures Reformatted(err) == Some(err)
  {
    SplitNoSeparator(err, '\n');
    assert [err][..0] == [];
    ParsedIff(Lines(err));
  }

  // ---- An example of a failure as testify writes it ----

  const FAILURE_TEXT: string := "Error Trace:\ta.go:1" + "\n" + "Error:\tx"

  lemma TwoLineText(a: string, b: string)
    requires a != "" && b != "" && Trimmed(a) && Trimmed(b) && '\n' !in a && '\n' !in b
    ensures Lines(a + "\n" + b) == [a, b]
  {
    hide TrimSpace, Trimmed, NonBlank;
    SplitCons(a, b, '\n');
    SplitNoSeparator(b, '\n');
    assert ['\n'] == "\n" && Split(a + "\n" + b, '\n') == [a, b];
    TrimKeepsTrimmed(a);
    TrimKeepsTrimmed(b);
    TwoLines(a, b);
  }

  lemma TabsAreTrimmed(s: string)
    requires Trimmed(s)
    ensures TrimSpace("\t" + s) == s
  {
    assert ("\t" + s)[1..] == s;
    TrimKeepsTrimmed(s);
  }

  lemma FailureTextParts()
    ensures SplitAtMarks(["Error Trace:\ta.go:1", "Error:\tx"]) == Parts(["a.go:1"], ["x"], true)
  {
    hide TrimSpace, FirstWith;
    var first, second := "Error Trace:\ta.go:1", "Error:\tx";
    var lines := [first, second];
    assert OccursAt(first, TRACE_MARK, 0) && OccursAt(second, ERROR_MARK, 0);
    FirstWithUnique(lines, TRACE_MARK, 0, 0);
    FirstWithUnique(lines, ERROR_MARK, 1, 1);
    assert TrimPrefix(first, TRACE_MARK) == "\t" + "a.go:1" && TrimPrefix(second, ERROR_MARK) == "\t" + "x";
    TabsAreTrimmed("a.go:1");
    TabsAreTrimmed("x");
    assert lines[1..1] == [] && lines[2..] == [];
  }

  lemma OneTraceLine(message: string, line: string)
    requires !Contains(line, RUNNER_FILE)
    ensures Layout([message], [line]) == message + "\n" + ("  Error trace:" + "\n" + ("    " + line))
  {
    hide Contains;
    var pieces := [message, "  Error trace:", "    " + line];
    assert [line][1..] == [] && [message] + ["  Error trace:"] + Indented([line]) == pieces;
    assert pieces[1..] == ["  Error trace:", "    " + line] && pieces[1..][1..] == ["    " + line];
    assert ['\n'] == "\n" && Join(pieces[1..], '\n') == "  Error trace:" + "\n" + ("    " + line);
  }

  /** A failure as testify writes it: the message comes first, and the trace after it. */
  lemma ReformatExample()
    ensures Reformatted(FAILURE_TEXT) == Some("x\n  Error trace:\n    a.go:1")
  {
    hide Lines, SplitAtMarks, Layout, Reformatted, Contains;
    TwoLineText("Error Trace:\ta.go:1", "Error:\tx");
    FailureTextParts();
    NotInRunner();
    PlainLayout(FAILURE_TEXT, "x", "a.go:1");
    ExampleText();
  }

  lemma NotInRunner()
    ensures !Contains("a.go:1", RUNNER_FILE)
  {
  }

  lemma PlainLayout(err: string, message: string, line: string)
    requires SplitAtMarks(Lines(err)) == Parts([line], [message], true)
    requires |message| < |UNEXPECTED| && !Contains(line, RUNNER_FILE)
    ensures Reformatted(err) == Some(message + "\n" + ("  Error trace:" + "\n" + ("    " + line)))
  {
    hide Lines, SplitAtMarks, Layout, Contains;
    OneTraceLine(message, line);
  }

  lemma ExampleText()
    ensures "x" + "\n" + ("  Error trace:" + "\n" + ("    " + "a.go:1")) == "x\n  Error trace:\n    a.go:1"
  {
  }
}
