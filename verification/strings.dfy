/** The Kotlin standard-library string helpers the sign software relies on:
    whitespace tests, trimming, take/takeLast, case-insensitive search and
    splitting on a delimiter.  Case mapping is the ASCII one. */
module Strings {

  /** Kotlin's `Char.isWhitespace`: Java whitespace or a Unicode space separator. */
  predicate IsWhitespace(c: char) {
    || c == ' ' || c == '\t' || c == '\n' || c == '\r' || c == '\U{000B}' || c == '\U{000C}'
    || ('\U{001C}' <= c <= '\U{001F}')
    || c == '\U{00A0}' || c == '\U{1680}' || ('\U{2000}' <= c <= '\U{200A}')
    || c == '\U{2028}' || c == '\U{2029}' || c == '\U{202F}' || c == '\U{205F}' || c == '\U{3000}'
  }

  /** `isBlank()`: empty or whitespace only. */
  predicate IsBlank(s: string) {
    forall i :: 0 <= i < |s| ==> IsWhitespace(s[i])
  }

  /** `filter { it.isNotBlank() }`: the items that are not blank, in order. */
  function NonBlank(lines: seq<string>): (kept: seq<string>)
    ensures |kept| <= |lines|
    ensures forall i :: 0 <= i < |kept| ==> !IsBlank(kept[i]) && kept[i] in lines
    ensures (forall i :: 0 <= i < |lines| ==> !IsBlank(lines[i])) ==> kept == lines
  {
    if |lines| == 0 then []
    else
      var rest := NonBlank(lines[1..]);
      assert forall i :: 1 <= i < |lines| ==> lines[i] == lines[1..][i - 1];
      if IsBlank(lines[0]) then rest else [lines[0]] + rest
  }

  /** `trimStart()`: leading whitespace removed. */
  function TrimStart(s: string): (t: string)
    ensures |t| <= |s|
    ensures t == s[|s| - |t|..]
    ensures forall k :: 0 <= k < |s| - |t| ==> IsWhitespace(s[k])
    ensures t == [] || !IsWhitespace(t[0])
  {
    if |s| > 0 && IsWhitespace(s[0]) then TrimStart(s[1..]) else s
  }

  /** `trimEnd()`: trailing whitespace removed. */
  function TrimEnd(s: string): (t: string)
    ensures |t| <= |s|
    ensures t == s[..|t|]
    ensures forall k :: |t| <= k < |s| ==> IsWhitespace(s[k])
    ensures t == [] || !IsWhitespace(t[|t| - 1])
  {
    if |s| > 0 && IsWhitespace(s[|s| - 1]) then TrimEnd(s[..|s| - 1]) else s
  }

  /** `trim()`: leading and trailing whitespace removed. */
  function Trim(s: string): (t: string)
    ensures t == [] || (!IsWhitespace(t[0]) && !IsWhitespace(t[|t| - 1]))
    ensures |t| <= |s|
  {
    TrimEnd(TrimStart(s))
  }

  /** `take(n)`. */
  function Take(s: string, n: nat): (t: string)
    ensures |t| == if n < |s| then n else |s|
    ensures t <= s
  {
    if n < |s| then s[..n] else s
  }

  /** `takeLast(n)`. */
  function TakeLast(s: string, n: nat): (t: string)
    ensures |t| == if n < |s| then n else |s|
    ensures t == s[|s| - |t|..]
  {
    if n < |s| then s[|s| - n..] else s
  }

  function LowerChar(c: char): char {
    if 'A' <= c <= 'Z' then (c as int + 32) as char else c
  }

  /** `lowercase()` restricted to the ASCII letters. */
  function Lowercase(s: string): (t: string)
    ensures |t| == |s|
    ensures forall i :: 0 <= i < |s| ==> t[i] == LowerChar(s[i])
  {
    seq(|s|, i requires 0 <= i < |s| => LowerChar(s[i]))
  }

  /** `Char.equals(other, ignoreCase = true)`. */
  predicate CharEqIgnoreCase(a: char, b: char) {
    LowerChar(a) == LowerChar(b)
  }

  /** `p` occurs in `s` at offset `i`, ignoring case. */
  predicate MatchesAtIgnoreCase(s: string, p: string, i: nat)
    requires i + |p| <= |s|
  {
    forall k :: 0 <= k < |p| ==> CharEqIgnoreCase(s[i + k], p[k])
  }

  /** `contains(p, ignoreCase = true)`; the empty pattern is contained everywhere. */
  predicate ContainsIgnoreCase(s: string, p: string) {
    exists i: nat :: i + |p| <= |s| && MatchesAtIgnoreCase(s, p, i)
  }

  /** `contains(p)` with exact comparison. */
  predicate Contains(s: string, p: string) {
    exists i: nat :: i + |p| <= |s| && OccursAt(s, p, i)
  }

  predicate OccursAt(s: string, p: string, i: nat) {
    i + |p| <= |s| && s[i..i + |p|] == p
  }

  /** `startsWith(p, ignoreCase = true)`. */
  predicate StartsWithIgnoreCase(s: string, p: string) {
    |p| <= |s| && MatchesAtIgnoreCase(s, p, 0)
  }

  /** Index of the first `d` in `s`, or `|s|` when there is none. */
  function IndexOfChar(s: string, d: char): (i: nat)
    ensures i <= |s|
    ensures i < |s| ==> s[i] == d
    ensures forall k :: 0 <= k < i ==> s[k] != d
  {
    if |s| == 0 then 0
    else if s[0] == d then 0
    else 1 + IndexOfChar(s[1..], d)
  }

  /** `split("$d")`: the pieces between successive delimiters. */
  function Split(s: string, d: char): (parts: seq<string>)
    ensures |parts| >= 1
    decreases |s|
  {
    var i := IndexOfChar(s, d);
    if i == |s| then [s] else [s[..i]] + Split(s[i + 1..], d)
  }

  /** `joinToString("$d")`. */
  function Join(parts: seq<string>, d: char): string {
    if |parts| == 0 then []
    else if |parts| == 1 then parts[0]
    else parts[0] + [d] + Join(parts[1..], d)
  }

  /** Splitting and re-joining on the same delimiter gives the string back. */
  lemma {:induction false} JoinSplit(s: string, d: char)
    ensures Join(Split(s, d), d) == s
    decreases |s|
  {
    var i := IndexOfChar(s, d);
    if i < |s| {
      var parts, rest := Split(s, d), Split(s[i + 1..], d);
      assert parts == [s[..i]] + rest;
      assert parts[1..] == rest;
      assert Join(parts, d) == s[..i] + [d] + Join(rest, d);
      JoinSplit(s[i + 1..], d);
      assert s == s[..i] + [d] + s[i + 1..];
    } else {
      assert Split(s, d) == [s];
    }
  }

  /** No piece produced by `Split` contains the delimiter. */
  lemma {:induction false} SplitPiecesAreDelimiterFree(s: string, d: char)
    ensures forall k, j :: 0 <= k < |Split(s, d)| && 0 <= j < |Split(s, d)[k]| ==> Split(s, d)[k][j] != d
    decreases |s|
  {
    var i := IndexOfChar(s, d);
    if i < |s| {
      SplitPiecesAreDelimiterFree(s[i + 1..], d);
    }
  }

  /** A delimiter-free string is a single piece. */
  lemma SplitOfDelimiterFree(s: string, d: char)
    requires forall j :: 0 <= j < |s| ==> s[j] != d
    ensures Split(s, d) == [s]
  {
  }

  /** `a + [d] + b` with `a` delimiter-free splits into `a` followed by the pieces of `b`. */
  lemma SplitAtFirst(a: string, d: char, b: string)
    requires forall j :: 0 <= j < |a| ==> a[j] != d
    ensures Split(a + [d] + b, d) == [a] + Split(b, d)
  {
    var s := a + [d] + b;
    assert IndexOfChar(s, d) == |a| by {
      assert s[|a|] == d;
      assert forall k :: 0 <= k < |a| ==> s[k] == a[k];
    }
    assert s[..|a|] == a;
    assert s[|a| + 1..] == b;
  }

  /** `split(" ").drop(1).joinToString(" ")`: what follows the first blank,
      or the empty string when there is none. */
  function AfterFirstSpace(s: string): (r: string)
    ensures IndexOfChar(s, ' ') < |s| ==> r == s[IndexOfChar(s, ' ') + 1..]
    ensures IndexOfChar(s, ' ') == |s| ==> r == []
  {
    var parts := Split(s, ' ');
    var i := IndexOfChar(s, ' ');
    if i < |s| then
      JoinSplit(s[i + 1..], ' ');
      Join(parts[1..], ' ')
    else
      Join(parts[1..], ' ')
  }
}
