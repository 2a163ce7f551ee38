/** Line-oriented text files as the sign software writes and reads them:
    `Iterable.toFile` writes each item followed by a newline, Kotlin's
    `String.lines()` splits on `\r\n`, `\n` and `\r`, and
    `BufferedReader.lineSequence()` does the same but yields no final empty
    line. */
module TextFile {

  predicate IsLineBreak(c: char) {
    c == '\n' || c == '\r'
  }

  /** The line holds no line-break character. */
  predicate IsSingleLine(s: string) {
    forall i :: 0 <= i < |s| ==> !IsLineBreak(s[i])
  }

  /** Index of the first line break, or `|s|`. */
  function BreakIndex(s: string): (i: nat)
    ensures i <= |s|
    ensures i < |s| ==> IsLineBreak(s[i])
    ensures IsSingleLine(s[..i])
  {
    if |s| == 0 || IsLineBreak(s[0]) then 0
    else
      var j := BreakIndex(s[1..]);
      assert s[..1 + j] == [s[0]] + s[1..][..j];
      1 + j
  }

  /** `String.lines()`: a trailing terminator yields a final empty line. */
  function Lines(s: string): (ls: seq<string>)
    ensures 1 <= |ls|
    ensures forall k :: 0 <= k < |ls| ==> IsSingleLine(ls[k])
    decreases |s|
  {
    var i := BreakIndex(s);
    if i == |s| then [s]
    else if s[i] == '\r' && i + 1 < |s| && s[i + 1] == '\n' then [s[..i]] + Lines(s[i + 2..])
    else [s[..i]] + Lines(s[i + 1..])
  }

  /** `BufferedReader.lineSequence()`: the lines of `s`, with no final empty
      line for a terminated (or empty) file. */
  function ReaderLines(s: string): (ls: seq<string>)
    ensures forall k :: 0 <= k < |ls| ==> IsSingleLine(ls[k])
    ensures |ls| <= |Lines(s)|
  {
    var all := Lines(s);
    if all[|all| - 1] == [] then all[..|all| - 1] else all
  }

  /** `toFile`: every item followed by a newline. */
  function WriteFile(lines: seq<string>): string {
    if |lines| == 0 then [] else lines[0] + "\n" + WriteFile(lines[1..])
  }

  /** A single line followed by `\n` is split off as one line. */
  lemma LinesCons(l: string, rest: string)
    requires IsSingleLine(l)
    ensures Lines(l + "\n" + rest) == [l] + Lines(rest)
  {
    var s := l + "\n" + rest;
    assert s[|l|] == '\n';
    assert forall k :: 0 <= k < |l| ==> s[k] == l[k];
    assert BreakIndex(s) == |l| by {
      BreakIndexOfSingleLine(l, s);
    }
    assert s[..|l|] == l;
    assert s[|l| + 1..] == rest;
  }

  /** The first break of `l + rest` is at `|l|` when `rest` starts with one. */
  lemma {:induction false} BreakIndexOfSingleLine(l: string, s: string)
    requires IsSingleLine(l)
    requires |l| < |s| && s[..|l|] == l && IsLineBreak(s[|l|])
    ensures BreakIndex(s) == |l|
    decreases |l|
  {
    if |l| > 0 {
      assert s[0] == l[0];
      BreakIndexOfSingleLine(l[1..], s[1..]);
    }
  }

  /** The lines of a written file are the items written, then one empty line. */
  lemma {:induction false} LinesOfWriteFile(lines: seq<string>)
    requires forall k :: 0 <= k < |lines| ==> IsSingleLine(lines[k])
    ensures Lines(WriteFile(lines)) == lines + [[]]
  {
    if |lines| > 0 {
      LinesOfWriteFile(lines[1..]);
      LinesCons(lines[0], WriteFile(lines[1..]));
      assert lines == [lines[0]] + lines[1..];
    }
  }

  /** Reading back a written file yields exactly the items written, provided
      none of them contains a line break. */
  lemma ReadWriteRoundTrip(lines: seq<string>)
    requires forall k :: 0 <= k < |lines| ==> IsSingleLine(lines[k])
    ensures ReaderLines(WriteFile(lines)) == lines
  {
    LinesOfWriteFile(lines);
    assert (lines + [[]])[..|lines|] == lines;
  }

  /** An item that holds a line break comes back as more than one item. */
  lemma LineBreakSplitsItem(a: string, b: string)
    requires IsSingleLine(a) && IsSingleLine(b)
    ensures ReaderLines(WriteFile([a + "\n" + b])) == [a, b]
  {
    var x := a + "\n" + b;
    var w := WriteFile([x]);
    assert w == x + "\n" + WriteFile([]);
    assert w == a + "\n" + (b + "\n" + []);
    LinesCons(b, []);
    LinesCons(a, b + "\n" + []);
    assert Lines([]) == [[]];
    var ls := Lines(w);
    assert ls == [a, b, []];
    assert ReaderLines(w) == ls[..2];
  }
}
