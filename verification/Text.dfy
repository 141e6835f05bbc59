/** The pieces of Go's `strings` and `strconv` packages that the harness relies on. */
module Text {
  datatype Option<+T> = None | Some(value: T)

  // ---- strings.Split / strings.Join on a one-character separator ----

  function Split(s: string, sep: char): (parts: seq<string>)
    ensures |parts| >= 1
  {
    if s == "" then [""]
    else
      var parts := Split(s[1..], sep);
      if s[0] == sep then [""] + parts else [[s[0]] + parts[0]] + parts[1..]
  }

  function Join(parts: seq<string>, sep: char): string {
    if |parts| == 0 then ""
    else if |parts| == 1 then parts[0]
    else parts[0] + [sep] + Join(parts[1..], sep)
  }

  ghost predicate FreeOf(parts: seq<string>, sep: char) {
    forall i | 0 <= i < |parts| :: sep !in parts[i]
  }

  lemma {:induction false} SplitFreeOf(s: string, sep: char)
    ensures FreeOf(Split(s, sep), sep)
  {
    if s != "" {
      SplitFreeOf(s[1..], sep);
    }
  }

  lemma {:induction false} JoinCons(head: string, tail: seq<string>, sep: char)
    requires |tail| >= 1
    ensures Join([head] + tail, sep) == head + [sep] + Join(tail, sep)
  {
    assert ([head] + tail)[1..] == tail;
  }

  lemma JoinGrows(c: char, parts: seq<string>, sep: char)
    requires |parts| >= 1
    ensures Join([[c] + parts[0]] + parts[1..], sep) == [c] + Join(parts, sep)
  {
    if |parts| > 1 {
      JoinCons([c] + parts[0], parts[1..], sep);
      assert [c] + parts[0] + [sep] + Join(parts[1..], sep) == [c] + (parts[0] + [sep] + Join(parts[1..], sep));
    }
  }

  lemma {:induction false} JoinSplit(s: string, sep: char)
    ensures Join(Split(s, sep), sep) == s
  {
    if s != "" {
      var parts := Split(s[1..], sep);
      JoinSplit(s[1..], sep);
      if s[0] == sep {
        JoinCons("", parts, sep);
      } else {
        JoinGrows(s[0], parts, sep);
      }
    }
  }

  /** Splitting a text whose first part is known and free of the separator. */
  lemma {:induction false} SplitCons(head: string, rest: string, sep: char)
    requires sep !in head
    ensures Split(head + [sep] + rest, sep) == [head] + Split(rest, sep)
  {
    var s := head + [sep] + rest;
    if head == "" {
      assert s[1..] == rest;
    } else {
      assert s[1..] == head[1..] + [sep] + rest;
      SplitCons(head[1..], rest, sep);
      assert [s[0]] + head[1..] == head;
    }
  }

  lemma {:induction false} SplitNoSeparator(s: string, sep: char)
    requires sep !in s
    ensures Split(s, sep) == [s]
  {
    if s != "" {
      SplitNoSeparator(s[1..], sep);
      assert [s[0]] + s[1..] == s;
    }
  }

  lemma {:induction false} SplitJoin(parts: seq<string>, sep: char)
    requires |parts| >= 1 && FreeOf(parts, sep)
    ensures Split(Join(parts, sep), sep) == parts
  {
    if |parts| == 1 {
      SplitNoSeparator(parts[0], sep);
    } else {
      SplitCons(parts[0], Join(parts[1..], sep), sep);
      SplitJoin(parts[1..], sep);
    }
  }

  // ---- strings.Contains, HasPrefix, TrimPrefix, TrimSpace ----

  predicate OccursAt(s: string, sub: string, i: nat) {
    i + |sub| <= |s| && s[i..i + |sub|] == sub
  }

  predicate Contains(s: string, sub: string) {
    exists i | 0 <= i <= |s| :: OccursAt(s, sub, i)
  }

  predicate HasPrefix(s: string, prefix: string) {
    prefix <= s
  }

  function TrimPrefix(s: string, prefix: string): string {
    if HasPrefix(s, prefix) then s[|prefix|..] else s
  }

  /** `unicode.IsSpace`. */
  predicate IsSpace(c: char) {
    c in {' ', '\t', '\n', '\U{0b}', '\U{0c}', '\r', '\U{85}', '\U{a0}',
          '\U{1680}', '\U{2028}', '\U{2029}', '\U{202f}', '\U{205f}', '\U{3000}'}
    || '\U{2000}' <= c <= '\U{200a}'
  }

  function TrimLeft(s: string): string {
    if s != "" && IsSpace(s[0]) then TrimLeft(s[1..]) else s
  }

  function TrimRight(s: string): string {
    if s != "" && IsSpace(s[|s| - 1]) then TrimRight(s[..|s| - 1]) else s
  }

  function TrimSpace(s: string): string {
    TrimRight(TrimLeft(s))
  }

  /** A text without blanks at either end: what `TrimSpace` leaves alone. */
  predicate Trimmed(s: string) {
    s == "" || (!IsSpace(s[0]) && !IsSpace(s[|s| - 1]))
  }

  lemma {:induction false} TrimLeftSuffix(s: string)
    ensures exists a :: 0 <= a <= |s| && TrimLeft(s) == s[a..]
    ensures TrimLeft(s) == "" || !IsSpace(TrimLeft(s)[0])
  {
    if s != "" && IsSpace(s[0]) {
      TrimLeftSuffix(s[1..]);
      var a :| 0 <= a <= |s[1..]| && TrimLeft(s[1..]) == s[1..][a..];
      assert s[1..][a..] == s[a + 1..];
    } else {
      assert s == s[0..];
    }
  }

  lemma {:induction false} TrimRightPrefix(s: string)
    ensures exists b :: 0 <= b <= |s| && TrimRight(s) == s[..b]
    ensures TrimRight(s) == "" || !IsSpace(TrimRight(s)[|TrimRight(s)| - 1])
  {
    if s != "" && IsSpace(s[|s| - 1]) {
      TrimRightPrefix(s[..|s| - 1]);
      var b :| 0 <= b <= |s| - 1 && TrimRight(s[..|s| - 1]) == s[..|s| - 1][..b];
      assert s[..|s| - 1][..b] == s[..b];
    } else {
      assert s == s[..|s|];
    }
  }

  /** Trimming cuts out a window of the text, and leaves no blank at either end of it. */
  lemma TrimSpaceWindow(s: string)
    ensures Trimmed(TrimSpace(s))
    ensures exists a, b :: 0 <= a <= b <= |s| && TrimSpace(s) == s[a..b]
  {
    TrimLeftSuffix(s);
    var a :| 0 <= a <= |s| && TrimLeft(s) == s[a..];
    TrimRightPrefix(s[a..]);
    var b :| 0 <= b <= |s| - a && TrimRight(s[a..]) == s[a..][..b];
    assert s[a..][..b] == s[a..a + b];
  }

  predicate AllSpace(s: string) {
    forall i | 0 <= i < |s| :: IsSpace(s[i])
  }

  lemma {:induction false} TrimLeftCuts(s: string) returns (a: nat)
    ensures a <= |s| && TrimLeft(s) == s[a..] && AllSpace(s[..a])
  {
    a := 0;
    if s != "" && IsSpace(s[0]) {
      var n := TrimLeftCuts(s[1..]);
      a := n + 1;
      assert s[..a] == [s[0]] + s[1..][..n];
    }
  }

  lemma {:induction false} TrimRightCuts(s: string) returns (b: nat)
    ensures b <= |s| && TrimRight(s) == s[..b] && AllSpace(s[b..])
  {
    b := |s|;
    if s != "" && IsSpace(s[|s| - 1]) {
      b := TrimRightCuts(s[..|s| - 1]);
      assert s[b..] == s[..|s| - 1][b..] + [s[|s| - 1]];
    }
  }

  /** Trimming takes away blanks and nothing else, from both ends, as long as there are any. */
  lemma TrimSpaceCuts(s: string) returns (a: nat, b: nat)
    ensures a <= b <= |s| && TrimSpace(s) == s[a..b]
    ensures AllSpace(s[..a]) && AllSpace(s[b..]) && Trimmed(s[a..b])
  {
    a := TrimLeftCuts(s);
    var n := TrimRightCuts(s[a..]);
    b := a + n;
    assert s[a..][..n] == s[a..b] && s[a..][n..] == s[b..];
    TrimSpaceWindow(s);
  }

  lemma ContainsWindow(s: string, a: nat, b: nat, sub: string)
    requires a <= b <= |s| && Contains(s[a..b], sub)
    ensures Contains(s, sub)
  {
    var i :| 0 <= i <= b - a && OccursAt(s[a..b], sub, i);
    var j := i + |sub|;
    assert |s[a..b]| == b - a;
    forall k | i <= k < j ensures s[a..b][k] == s[a + k] {}
    assert s[a..b][i..j] == s[a + i..a + j];
    assert OccursAt(s, sub, a + i);
  }

  lemma TrimKeepsTrimmed(s: string)
    requires Trimmed(s)
    ensures TrimSpace(s) == s
  {
  }

  // ---- strconv.Itoa / strconv.Atoi ----

  const MAX_INT: int := 9223372036854775807  // Go's int on a 64-bit platform

  const DIGITS: string := "0123456789"

  predicate IsDigit(c: char) {
    '0' <= c <= '9'
  }

  function DigitChar(d: int): (c: char)
    requires 0 <= d < 10
    ensures IsDigit(c) && DigitValue(c) == d
  {
    DIGITS[d]
  }

  function DigitValue(c: char): int
    requires IsDigit(c)
  {
    c as int - '0' as int
  }

  ghost predicate AllDigits(s: string) {
    forall i | 0 <= i < |s| :: IsDigit(s[i])
  }

  function Itoa(n: nat): (s: string)
    ensures |s| >= 1 && AllDigits(s)
  {
    if n < 10 then [DigitChar(n)] else Itoa(n / 10) + [DigitChar(n % 10)]
  }

  /** The value of a run of decimal digits; `None` when there is none or a character is not a digit. */
  function ParseDigits(s: string): Option<int> {
    if s == "" || !IsDigit(s[|s| - 1]) then None
    else if |s| == 1 then Some(DigitValue(s[0]))
    else
      match ParseDigits(s[..|s| - 1])
      case None => None
      case Some(v) => Some(10 * v + DigitValue(s[|s| - 1]))
  }

  /** `strconv.Atoi`: an optional sign, decimal digits, and a value that fits an int. */
  function Atoi(s: string): Option<int> {
    if s == "" then None
    else
      var signed := s[0] == '-' || s[0] == '+';
      match ParseDigits(if signed then s[1..] else s)
      case None => None
      case Some(v) =>
        if s[0] == '-' then (if v <= MAX_INT + 1 then Some(-v) else None)
        else if v <= MAX_INT then Some(v) else None
  }

  lemma {:induction false} ParseItoa(n: nat)
    ensures ParseDigits(Itoa(n)) == Some(n)
  {
    if n >= 10 {
      ParseItoa(n / 10);
      assert Itoa(n)[..|Itoa(n)| - 1] == Itoa(n / 10);
    }
  }

  lemma AtoiItoa(n: nat)
    requires n <= MAX_INT
    ensures Atoi(Itoa(n)) == Some(n)
  {
    ParseItoa(n);
    assert IsDigit(Itoa(n)[0]);
  }

  // ---- What Atoi accepts ----

  function Pow10(n: nat): nat {
    if n == 0 then 1 else 10 * Pow10(n - 1)
  }

  /** The number that a run of decimal digits stands for, by the places of its digits. */
  function Value(digits: string): int {
    if digits == "" then 0
    else (digits[0] as int - '0' as int) * Pow10(|digits| - 1) + Value(digits[1..])
  }

  lemma {:induction false} ValueSnoc(digits: string, c: char)
    ensures Value(digits + [c]) == 10 * Value(digits) + (c as int - '0' as int)
  {
    var all := digits + [c];
    if digits != "" {
      ValueSnoc(digits[1..], c);
      assert all[1..] == digits[1..] + [c];
      var d := digits[0] as int - '0' as int;
      assert d * Pow10(|digits|) == 10 * (d * Pow10(|digits| - 1));
    } else {
      assert all[1..] == "" && Pow10(0) == 1;
    }
  }

  lemma {:induction false} ParseDigitsIff(s: string)
    ensures ParseDigits(s) == if s != "" && AllDigits(s) then Some(Value(s)) else None
  {
    if s != "" && IsDigit(s[|s| - 1]) {
      var init, last := s[..|s| - 1], s[|s| - 1];
      assert s == init + [last];
      ValueSnoc(init, last);
      if |s| > 1 {
        ParseDigitsIff(init);
        assert AllDigits(s) <==> AllDigits(init);
      } else {
        assert init == "" && s[0] == last;
      }
    }
  }

  /** A text is an int if and only if it is an optional sign and at least one digit, nothing else, whose value fits
      into 64 bits; and that value is the int. */
  lemma AtoiIff(s: string, n: int)
    ensures Atoi(s) == Some(n) <==>
      exists digits: string ::
        && digits != "" && AllDigits(digits)
        && (((s == digits || s == "+" + digits) && n == Value(digits) <= 9223372036854775807)
            || (s == "-" + digits && n == -Value(digits) >= -9223372036854775808))
  {
    if Atoi(s) == Some(n) {
      var digits := if s[0] == '-' || s[0] == '+' then s[1..] else s;
      ParseDigitsIff(digits);
      assert s == digits || s == [s[0]] + digits;
    }
    if digits: string :|
      && digits != "" && AllDigits(digits)
      && (((s == digits || s == "+" + digits) && n == Value(digits) <= 9223372036854775807)
          || (s == "-" + digits && n == -Value(digits) >= -9223372036854775808))
    {
      ParseDigitsIff(digits);
      assert IsDigit(digits[0]);
      assert s != digits ==> s[1..] == digits;
    }
  }

  /** Different numbers are printed differently. */
  lemma ItoaDistinct(a: nat, b: nat)
    requires a != b
    ensures Itoa(a) != Itoa(b)
  {
    ParseItoa(a);
    ParseItoa(b);
  }
}
