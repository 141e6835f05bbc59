/** What the two readings of a test name pattern come to for expressions without special characters. */
module LiteralPatterns {
  import opened Text
  import opened TestResults
  import opened Filters

  predicate HasSuffix(s: string, suffix: string) {
    |suffix| <= |s| && s[|s| - |suffix|..] == suffix
  }

  /** The parts of a pattern lie along the names of an id from the k-th on: the first ends a name, the last begins one,
      those between are whole names; a single part may be anywhere in its name. */
  predicate LinesUp(p: seq<string>, id: seq<string>, k: nat) {
    && p != [] && k + |p| <= |id|
    && if |p| == 1 then Contains(id[k], p[0])
       else HasSuffix(id[k], p[0]) && Continues(p[1..], id[k + 1..])
  }

  /** The parts are whole names, from the first on, but for the last one, which begins a name. */
  predicate Continues(p: seq<string>, id: seq<string>) {
    && p != [] && |p| <= |id|
    && if |p| == 1 then HasPrefix(id[0], p[0]) else p[0] == id[0] && Continues(p[1..], id[1..])
  }

  predicate LinesUpSomewhere(p: seq<string>, id: seq<string>) {
    exists k | 0 <= k < |id| :: LinesUp(p, id, k)
  }

  // ---- Texts and their parts ----

  lemma SplitStep(s: string)
    requires s != ""
    ensures Split("", '/') == [""]
    ensures Split(s, '/') ==
      if s[0] == '/' then [""] + Split(s[1..], '/')
      else [[s[0]] + Split(s[1..], '/')[0]] + Split(s[1..], '/')[1..]
  {
  }

  lemma PrefixStep(s: string, t: string)
    requires s != "" && t != ""
    ensures HasPrefix(s, t) <==> s[0] == t[0] && HasPrefix(s[1..], t[1..])
  {
    if |t| <= |s| {
      assert s[..|t|] == [s[0]] + s[1..][..|t| - 1];
      assert t == [t[0]] + t[1..];
      assert s[..|t|][1..] == s[1..][..|t| - 1];
    }
  }

  lemma SuffixStep(s: string, t: string)
    requires s != ""
    ensures HasSuffix(s, t) <==> s == t || HasSuffix(s[1..], t)
  {
    if |t| < |s| {
      assert s[|s| - |t|..] == s[1..][|s[1..]| - |t|..];
    }
  }

  lemma ContainsStep(s: string, t: string)
    requires s != ""
    ensures Contains(s, t) <==> HasPrefix(s, t) || Contains(s[1..], t)
  {
    if Contains(s, t) {
      var i :| 0 <= i <= |s| && OccursAt(s, t, i);
      if i > 0 {
        var rest := s[1..];
        assert forall j | 0 <= j < |t| :: t[j] == s[i..i + |t|][j] == rest[i - 1 + j];
        assert rest[i - 1..i - 1 + |t|] == t;
        assert OccursAt(s[1..], t, i - 1);
      }
    }
    if HasPrefix(s, t) {
      assert OccursAt(s, t, 0);
    }
    if Contains(s[1..], t) {
      var i :| 0 <= i <= |s[1..]| && OccursAt(s[1..], t, i);
      assert s[i + 1..i + 1 + |t|] == s[1..][i..i + |t|];
      assert OccursAt(s, t, i + 1);
    }
  }

  lemma ContainsInNothing(t: string)
    ensures Contains("", t) <==> t == ""
  {
    assert t == "" ==> OccursAt("", t, 0);
  }

  /** A text begins another if and only if its parts do. */
  lemma {:induction false} PrefixByParts(s: string, t: string)
    ensures HasPrefix(s, t) <==> Continues(Split(t, '/'), Split(s, '/'))
  {
    hide Split;
    if t == "" {
      assert Split(t, '/') == [""] by {
        SplitStep("/");
      }
    } else if s == "" {
      SplitStep(t);
    } else {
      SplitStep(s);
      SplitStep(t);
      PrefixStep(s, t);
      PrefixByParts(s[1..], t[1..]);
      var p, q := Split(t[1..], '/'), Split(s[1..], '/');
      assert ([""] + p)[1..] == p && ([""] + q)[1..] == q;
      PrefixStep([s[0]] + q[0], [t[0]] + p[0]);
      assert ([s[0]] + q[0])[1..] == q[0] && ([t[0]] + p[0])[1..] == p[0];
    }
  }

  /** One more name in front, or one more letter at the front of the first name. */
  lemma LinesUpBehind(p: seq<string>, head: string, id: seq<string>, k: nat)
    ensures LinesUp(p, [head] + id, k + 1) <==> LinesUp(p, id, k)
  {
    if k < |id| {
      assert ([head] + id)[k + 1 + 1..] == id[k + 1..];
    }
  }

  lemma NothingInFront(p: seq<string>, id: seq<string>)
    requires p != [] && id != []
    ensures LinesUp(p, [""] + id, 0) <==> Continues(p, [""] + id)
  {
    ContainsInNothing(p[0]);
    assert ([""] + id)[1..] == id;
  }

  lemma LetterInFront(p: seq<string>, c: char, id: seq<string>)
    requires p != [] && id != []
    ensures var more := [[c] + id[0]] + id[1..];
      LinesUp(p, more, 0) <==> Continues(p, more) || LinesUp(p, id, 0)
  {
    var first := [c] + id[0];
    assert first[1..] == id[0] && ([first] + id[1..])[1..] == id[1..];
    ContainsStep(first, p[0]);
    SuffixStep(first, p[0]);
  }

  lemma SomewhereBehind(p: seq<string>, head: string, id: seq<string>)
    ensures LinesUpSomewhere(p, [head] + id) <==> LinesUp(p, [head] + id, 0) || LinesUpSomewhere(p, id)
  {
    if LinesUpSomewhere(p, [head] + id) {
      var k :| 0 <= k < |[head] + id| && LinesUp(p, [head] + id, k);
      if k > 0 {
        LinesUpBehind(p, head, id, k - 1);
      }
    }
    if LinesUpSomewhere(p, id) {
      var k :| 0 <= k < |id| && LinesUp(p, id, k);
      LinesUpBehind(p, head, id, k);
    }
  }

  /** A text occurs in another if and only if its parts line up with the other's somewhere. */
  lemma {:induction false} ContainsByParts(s: string, t: string)
    ensures Contains(s, t) <==> LinesUpSomewhere(Split(t, '/'), Split(s, '/'))
  {
    hide Split, LinesUp, Continues, Contains, HasPrefix;
    var p, q := Split(t, '/'), Split(s, '/');
    if s == "" {
      ContainsInNothing(t);
      NothingByParts(t);
    } else {
      var rest := Split(s[1..], '/');
      SplitStep(s);
      ContainsStep(s, t);
      ContainsByParts(s[1..], t);
      PrefixByParts(s, t);
      if s[0] == '/' {
        NothingInFront(p, rest);
        SomewhereBehind(p, "", rest);
      } else {
        LetterInFront(p, s[0], rest);
        SomewhereBehind(p, [s[0]] + rest[0], rest[1..]);
        assert rest == [rest[0]] + rest[1..];
        SomewhereBehind(p, rest[0], rest[1..]);
      }
    }
  }

  lemma NothingByParts(t: string)
    ensures LinesUpSomewhere(Split(t, '/'), Split("", '/')) <==> t == ""
  {
    hide Split;
    SplitStep(if t == "" then "/" else t);
    var p, q := Split(t, '/'), Split("", '/');
    ContainsInNothing(p[0]);
    JoinSplit(t, '/');
    if LinesUpSomewhere(p, q) {
      var k :| 0 <= k < |q| && LinesUp(p, q, k);
    }
    if t == "" {
      assert LinesUp(p, q, 0);
    }
  }

  // ---- The two readings ----

  /** For any pattern and any id: the full path contains the text of the pattern if and only if the parts of the one
      line up with the parts of the other somewhere. */
  lemma LiteralFullPathIff(p: TestIDPattern, id: TestID)
    ensures FullPathMatches(LITERAL, p, id)
      <==> LinesUpSomewhere(Split(PatternString(p), '/'), Split(IDString(id), '/'))
  {
    ContainsByParts(IDString(id), PatternString(p));
  }

  lemma LinedUpMatches(p: TestIDPattern, id: TestID, includeParents: bool)
    requires LinesUp(p, id, 0)
    ensures Matches(LITERAL, p, id, includeParents)
  {
    if |p| > 1 {
      SuffixIsContained(id[0], p[0]);
      ContinuedMatches(p[1..], id[1..]);
      forall i | 0 <= i < |p| ensures Contains(id[i], p[i]) {
        assert i > 0 ==> p[i] == p[1..][i - 1] && id[i] == id[1..][i - 1];
      }
    }
  }

  lemma SuffixIsContained(s: string, t: string)
    requires HasSuffix(s, t)
    ensures Contains(s, t)
  {
    assert s[|s| - |t|..|s|] == s[|s| - |t|..];
    assert OccursAt(s, t, |s| - |t|);
  }

  lemma {:induction false} ContinuedMatches(p: seq<string>, id: seq<string>)
    requires Continues(p, id)
    ensures forall i | 0 <= i < |p| :: Contains(id[i], p[i])
  {
    assert HasPrefix(id[0], p[0]) by {
      assert id[0][..|id[0]|] == id[0];
    }
    assert OccursAt(id[0], p[0], 0);
    if |p| > 1 {
      ContinuedMatches(p[1..], id[1..]);
      assert forall i | 0 < i < |p| :: p[i] == p[1..][i - 1] && id[i] == id[1..][i - 1];
    }
  }

  /** For a pattern and an id whose parts are free of slashes, as the command line makes patterns: the readings agree
      if and only if, where the parts match one by one, they also line up somewhere, and where they do not, they
      do not line up further down either. */
  lemma LiteralReadingsAgreeIff(p: TestIDPattern, id: TestID, includeParents: bool)
    requires p != [] && id != [] && FreeOf(p, '/') && FreeOf(id, '/')
    ensures ReadingsAgree(LITERAL, p, id, includeParents) <==>
      if Matches(LITERAL, p, id, includeParents) then LinesUpSomewhere(p, id)
      else forall k | 1 <= k < |id| :: !LinesUp(p, id, k)
  {
    hide LinesUp, Matches;
    SplitJoin(p, '/');
    SplitJoin(id, '/');
    LiteralFullPathIff(p, id);
    if LinesUp(p, id, 0) {
      LinedUpMatches(p, id, includeParents);
    }
  }

  /** For a single part: the readings agree if and only if the top name has it, or no name does. */
  lemma SinglePartAgreesIff(part: string, id: TestID, includeParents: bool)
    requires id != [] && '/' !in part && FreeOf(id, '/')
    ensures ReadingsAgree(LITERAL, [part], id, includeParents) <==>
      Contains(id[0], part) || forall k | 0 <= k < |id| :: !Contains(id[k], part)
  {
    hide Contains;
    LiteralReadingsAgreeIff([part], id, includeParents);
    assert forall k | 0 <= k < |id| :: LinesUp([part], id, k) <==> Contains(id[k], part);
  }
}
