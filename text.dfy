/** The Kotlin standard-library string operations the extension is built from
    (`indexOf`, `lastIndexOf`, `substringBefore`, `substringAfter`,
    `substringAfterLast`, `startsWith`, `endsWith`, `trim`, `isBlank`,
    `lines`, `split`, `joinToString`, `lowercase`), each defined as Kotlin
    defines it on `String` and characterised by its contract. */
module Text {

  /** `d` occurs in `s` at index `i`. */
  predicate IsAt(s: string, d: string, i: nat) {
    i + |d| <= |s| && s[i..i + |d|] == d
  }

  predicate StartsWith(s: string, p: string) {
    |p| <= |s| && s[..|p|] == p
  }

  predicate EndsWith(s: string, p: string) {
    |p| <= |s| && s[|s| - |p|..] == p
  }

  /** A one-character delimiter occurs exactly where that character is. */
  lemma CharAt(s: string, c: char, j: nat)
    ensures IsAt(s, [c], j) <==> j < |s| && s[j] == c
  {
    if j < |s| {
      assert s[j..j + 1] == [s[j]];
    }
  }

  /** First occurrence of `d` at or after `k` (Java's `indexOf(d, k)`). */
  function IndexFrom(s: string, d: string, k: nat): (r: int)
    requires k <= |s|
    decreases |s| - k
    ensures r == -1 || (k <= r <= |s| && IsAt(s, d, r))
  {
    if k + |d| > |s| then -1
    else if s[k..k + |d|] == d then k
    else IndexFrom(s, d, k + 1)
  }

  /** Kotlin's `s.indexOf(d)`: the first occurrence, or -1. */
  function IndexOf(s: string, d: string): (r: int)
    ensures -1 <= r <= |s|
    ensures r >= 0 ==> IsAt(s, d, r)
  {
    IndexFrom(s, d, 0)
  }

  lemma {:induction false} IndexFromIsFirst(s: string, d: string, k: nat)
    requires k <= |s|
    decreases |s| - k
    ensures IndexFrom(s, d, k) >= 0 ==> forall j :: k <= j < IndexFrom(s, d, k) ==> !IsAt(s, d, j)
    ensures IndexFrom(s, d, k) == -1 ==> forall j :: k <= j <= |s| ==> !IsAt(s, d, j)
  {
    if k + |d| <= |s| && s[k..k + |d|] != d {
      IndexFromIsFirst(s, d, k + 1);
    }
  }

  /** `indexOf` finds the first occurrence: none lies before it, and -1 means
      there is none at all. */
  lemma IndexOfIsFirst(s: string, d: string)
    ensures IndexOf(s, d) >= 0 ==> forall j :: 0 <= j < IndexOf(s, d) ==> !IsAt(s, d, j)
    ensures IndexOf(s, d) == -1 ==> forall j :: 0 <= j <= |s| ==> !IsAt(s, d, j)
  {
    IndexFromIsFirst(s, d, 0);
  }

  /** An occurrence with none before it is the one `indexOf` finds. */
  lemma FirstOccurrence(s: string, d: string, p: nat)
    requires IsAt(s, d, p)
    requires forall j :: 0 <= j < p ==> !IsAt(s, d, j)
    ensures IndexOf(s, d) == p
  {
    IndexOfIsFirst(s, d);
  }

  /** With no occurrence at all, `indexOf` gives -1. */
  lemma NoOccurrence(s: string, d: string)
    requires forall j :: 0 <= j <= |s| ==> !IsAt(s, d, j)
    ensures IndexOf(s, d) == -1
  {
  }

  /** Last occurrence of `d` starting at or before `k`. */
  function LastIndexFrom(s: string, d: string, k: int): (r: int)
    requires -1 <= k < |s|
    decreases k + 1
    ensures -1 <= r <= k
    ensures r >= 0 ==> IsAt(s, d, r)
  {
    if k < 0 then -1
    else if IsAt(s, d, k) then k
    else LastIndexFrom(s, d, k - 1)
  }

  /** Kotlin's `s.lastIndexOf(d)`, which searches from `s.lastIndex` down. */
  function LastIndexOf(s: string, d: string): (r: int)
    ensures -1 <= r < |s|
    ensures r >= 0 ==> IsAt(s, d, r)
  {
    LastIndexFrom(s, d, |s| - 1)
  }

  lemma {:induction false} LastIndexFromIsLast(s: string, d: string, k: int)
    requires -1 <= k < |s|
    decreases k + 1
    ensures forall j :: LastIndexFrom(s, d, k) < j <= k ==> !IsAt(s, d, j)
  {
    if k >= 0 && !IsAt(s, d, k) {
      LastIndexFromIsLast(s, d, k - 1);
    }
  }

  /** An occurrence with none after it (before the end) is the one
      `lastIndexOf` finds. */
  lemma LastOccurrence(s: string, d: string, p: nat)
    requires p < |s| && IsAt(s, d, p)
    requires forall j :: p < j < |s| ==> !IsAt(s, d, j)
    ensures LastIndexOf(s, d) == p
  {
    LastIndexFromIsLast(s, d, |s| - 1);
  }

  /** Kotlin's `s.substringBefore(d)`: the part before the first `d`, or all
      of `s` when `d` does not occur. */
  function SubstringBefore(s: string, d: string): (r: string)
    ensures r <= s
    ensures r == s || IsAt(s, d, |r|)
  {
    var i := IndexOf(s, d);
    if i == -1 then s else s[..i]
  }

  /** No `d` starts inside what `substringBefore` keeps. */
  lemma SubstringBeforeIsFirst(s: string, d: string)
    ensures forall j :: 0 <= j < |SubstringBefore(s, d)| ==> !IsAt(s, d, j)
  {
    IndexOfIsFirst(s, d);
  }

  /** A one-character delimiter never occurs in what precedes its first
      occurrence. */
  lemma SubstringBeforeExcludes(s: string, c: char)
    ensures c !in SubstringBefore(s, [c])
  {
    var r := SubstringBefore(s, [c]);
    SubstringBeforeIsFirst(s, [c]);
    forall j | 0 <= j < |r| ensures r[j] != c {
      CharAt(s, c, j);
    }
  }

  /** Kotlin's `s.substringAfter(d, missing)`. */
  function SubstringAfter(s: string, d: string, missing: string): (r: string)
    ensures IndexOf(s, d) == -1 ==> r == missing
    ensures IndexOf(s, d) >= 0 ==> s == s[..IndexOf(s, d)] + d + r
  {
    var i := IndexOf(s, d);
    if i == -1 then missing else s[i + |d|..]
  }

  /** Kotlin's `s.substringAfterLast(d, missing)`. */
  function SubstringAfterLast(s: string, d: string, missing: string): (r: string)
    ensures LastIndexOf(s, d) == -1 ==> r == missing
    ensures LastIndexOf(s, d) >= 0 ==> s == s[..LastIndexOf(s, d)] + d + r
  {
    var i := LastIndexOf(s, d);
    if i == -1 then missing else s[i + |d|..]
  }

  /** Kotlin's `Char.isWhitespace()`: Java's `Character.isWhitespace` or
      `Character.isSpaceChar`. */
  predicate IsWhitespace(c: char) {
    || c == ' '
    || '\t' <= c <= '\r'
    || '\U{1C}' <= c <= '\U{1F}'
    || c == '\U{A0}' || c == '\U{1680}'
    || '\U{2000}' <= c <= '\U{200A}'
    || c == '\U{2028}' || c == '\U{2029}' || c == '\U{202F}' || c == '\U{205F}' || c == '\U{3000}'
  }

  /** Kotlin's `isBlank()`. */
  predicate IsBlank(s: string) {
    forall i :: 0 <= i < |s| ==> IsWhitespace(s[i])
  }

  function TrimStart(s: string): (r: string)
    ensures |r| <= |s| && r == s[|s| - |r|..]
    ensures r == [] || !IsWhitespace(r[0])
  {
    if |s| > 0 && IsWhitespace(s[0]) then TrimStart(s[1..]) else s
  }

  function TrimEnd(s: string): (r: string)
    ensures r <= s
    ensures r == [] || !IsWhitespace(r[|r| - 1])
  {
    if |s| > 0 && IsWhitespace(s[|s| - 1]) then TrimEnd(s[..|s| - 1]) else s
  }

  /** What `TrimStart` drops is whitespace. */
  lemma {:induction false} TrimStartDropsBlank(s: string)
    ensures IsBlank(s[..|s| - |TrimStart(s)|])
  {
    if |s| > 0 && IsWhitespace(s[0]) {
      TrimStartDropsBlank(s[1..]);
      var n := |s| - |TrimStart(s)|;
      assert forall i :: 1 <= i < n ==> s[..n][i] == s[1..][..n - 1][i - 1];
    }
  }

  /** What `TrimEnd` drops is whitespace. */
  lemma {:induction false} TrimEndDropsBlank(s: string)
    ensures IsBlank(s[|TrimEnd(s)|..])
  {
    if |s| > 0 && IsWhitespace(s[|s| - 1]) {
      TrimEndDropsBlank(s[..|s| - 1]);
      var r := TrimEnd(s);
      var t := s[..|s| - 1];
      assert forall k :: 0 <= k < |t| - |r| ==> s[|r|..][k] == t[|r|..][k];
    }
  }

  /** Kotlin's `trim()`: drops leading and trailing whitespace. */
  function Trim(s: string): string {
    TrimEnd(TrimStart(s))
  }

  predicate IsLineBreak(c: char) {
    c == '\n' || c == '\r'
  }

  /** Kotlin's `lines()`: splits at "\r\n", "\n" and "\r"; a trailing line
      break yields a final empty line, and "" is one empty line. */
  function Lines(s: string): (r: seq<string>)
    ensures |r| >= 1
  {
    if s == [] then [[]]
    else if s[0] == '\r' && |s| >= 2 && s[1] == '\n' then [[]] + Lines(s[2..])
    else if IsLineBreak(s[0]) then [[]] + Lines(s[1..])
    else
      var rest := Lines(s[1..]);
      [[s[0]] + rest[0]] + rest[1..]
  }

  /** No line holds a line break. */
  lemma {:induction false} LinesHaveNoBreaks(s: string)
    ensures forall i :: 0 <= i < |Lines(s)| ==> '\n' !in Lines(s)[i] && '\r' !in Lines(s)[i]
  {
    if s != [] {
      if s[0] == '\r' && |s| >= 2 && s[1] == '\n' {
        LinesHaveNoBreaks(s[2..]);
      } else if IsLineBreak(s[0]) {
        LinesHaveNoBreaks(s[1..]);
      } else {
        LinesHaveNoBreaks(s[1..]);
      }
    }
  }

  /** Kotlin's `split(c)` for a one-character delimiter. */
  function Split(s: string, c: char): (r: seq<string>)
    ensures |r| >= 1
    ensures forall i :: 0 <= i < |r| ==> c !in r[i]
  {
    if s == [] then [[]]
    else
      var rest := Split(s[1..], c);
      if s[0] == c then [[]] + rest else [[s[0]] + rest[0]] + rest[1..]
  }

  /** Kotlin's `joinToString(c.toString())`. */
  function Join(xs: seq<string>, c: char): string {
    if |xs| == 0 then ""
    else if |xs| == 1 then xs[0]
    else xs[0] + [c] + Join(xs[1..], c)
  }

  /** Joining the pieces of a split gives back the string. */
  lemma {:induction false} JoinSplit(s: string, c: char)
    ensures Join(Split(s, c), c) == s
  {
    if s != [] {
      JoinSplit(s[1..], c);
      var rest := Split(s[1..], c);
      if s[0] == c {
        assert Split(s, c) == [[]] + rest;
        assert ([[]] + rest)[1..] == rest;
      } else {
        var r := Split(s, c);
        assert r == [[s[0]] + rest[0]] + rest[1..];
        if |rest| == 1 {
          assert rest == [rest[0]];
        } else {
          assert rest == [rest[0]] + rest[1..];
          assert r[1..] == rest[1..];
          assert Join(rest, c) == rest[0] + [c] + Join(rest[1..], c);
        }
      }
    }
  }

  /** Splitting a join of pieces free of the delimiter gives back the pieces. */
  lemma {:induction false} SplitJoin(xs: seq<string>, c: char)
    requires |xs| >= 1
    requires forall i :: 0 <= i < |xs| ==> c !in xs[i]
    ensures Split(Join(xs, c), c) == xs
  {
    if |xs| == 1 {
      SplitNoDelimiter(xs[0], c);
    } else {
      SplitJoin(xs[1..], c);
      SplitPrefix(xs[0], Join(xs[1..], c), c);
      assert xs == [xs[0]] + xs[1..];
    }
  }

  lemma {:induction false} SplitNoDelimiter(s: string, c: char)
    requires c !in s
    ensures Split(s, c) == [s]
  {
    if s != [] {
      SplitNoDelimiter(s[1..], c);
      assert [s[0]] + s[1..] == s;
    }
  }

  lemma {:induction false} SplitPrefix(a: string, b: string, c: char)
    requires c !in a
    ensures Split(a + [c] + b, c) == [a] + Split(b, c)
  {
    if a == [] {
      assert a + [c] + b == [c] + b;
      assert ([c] + b)[1..] == b;
    } else {
      SplitPrefix(a[1..], b, c);
      var s := a + [c] + b;
      assert s[0] == a[0] && s[1..] == a[1..] + [c] + b;
      assert [a[0]] + a[1..] == a;
    }
  }

  /** Without carriage returns, `lines()` is `split('\n')`. */
  lemma {:induction false} LinesAreSplit(s: string)
    requires '\r' !in s
    ensures Lines(s) == Split(s, '\n')
  {
    if s != [] {
      LinesAreSplit(s[1..]);
    }
  }

  /** Lines joined with "\n" are read back by `lines()`. */
  lemma LinesOfJoin(ls: seq<string>)
    requires |ls| >= 1
    requires forall i :: 0 <= i < |ls| ==> '\n' !in ls[i] && '\r' !in ls[i]
    ensures Lines(Join(ls, '\n')) == ls
  {
    JoinHasNo(ls, '\n', '\r');
    LinesAreSplit(Join(ls, '\n'));
    SplitJoin(ls, '\n');
  }

  lemma {:induction false} JoinHasNo(xs: seq<string>, c: char, x: char)
    requires x != c
    requires forall i :: 0 <= i < |xs| ==> x !in xs[i]
    ensures x !in Join(xs, c)
  {
    if |xs| > 1 {
      JoinHasNo(xs[1..], c, x);
    }
  }

  /** ASCII lower-casing of one character. */
  function LowerChar(c: char): char {
    if 'A' <= c <= 'Z' then (c as int + 32) as char else c
  }

  /** Kotlin's `lowercase()`, for the ASCII letters. */
  function ToLower(s: string): (r: string)
    ensures |r| == |s|
    ensures forall i :: 0 <= i < |s| ==> r[i] == LowerChar(s[i])
  {
    seq(|s|, i requires 0 <= i < |s| => LowerChar(s[i]))
  }
}
