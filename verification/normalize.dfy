/** `String.toNormalized()`: replaces look-alike Unicode punctuation by ASCII
    and then drops every remaining non-ASCII character, so that a message
    can be shown on the sign's ASCII font. */
module StringExt {
  import opened Wrappers

  /** One entry of the look-alike table as the `forEach` loop sees it. */
  datatype Rule = Rule(from: char, to: string)

  /** The look-alike table (a `HashMap` keyed by one-character strings):
      the ASCII stand-in of `c`, if the table has one. The entries are
      written in three blocks by code point, each a lookup of its own. */
  function Replacement(c: char): Option<string> {
    if c < '\U{2000}' then LetterBlock(c)
    else if c < '\U{2100}' then PunctuationBlock(c)
    else SymbolBlock(c)
  }

  /** The entries below U+2000: Latin, spacing modifiers, combining marks,
      Armenian, Hebrew and Arabic. */
  function LetterBlock(c: char): Option<string> {
    match c
    case '\U{00AB}' => Some("\"")
    case '\U{00AD}' => Some("-")
    case '\U{00B4}' => Some("'")
    case '\U{00BB}' => Some("\"")
    case '\U{00F7}' => Some("/")
    case '\U{01C0}' => Some("|")
    case '\U{01C3}' => Some("!")
    case '\U{02B9}' => Some("'")
    case '\U{02BA}' => Some("\"")
    case '\U{02BC}' => Some("'")
    case '\U{02C4}' => Some("^")
    case '\U{02C6}' => Some("^")
    case '\U{02C8}' => Some("'")
    case '\U{02CB}' => Some("`")
    case '\U{02CD}' => Some("_")
    case '\U{02DC}' => Some("~")
    case '\U{0300}' => Some("`")
    case '\U{0301}' => Some("'")
    case '\U{0302}' => Some("^")
    case '\U{0303}' => Some("~")
    case '\U{030B}' => Some("\"")
    case '\U{030E}' => Some("\"")
    case '\U{0331}' => Some("_")
    case '\U{0332}' => Some("_")
    case '\U{0338}' => Some("/")
    case '\U{0589}' => Some(":")
    case '\U{05C0}' => Some("|")
    case '\U{05C3}' => Some(":")
    case '\U{066A}' => Some("%")
    case '\U{066D}' => Some("*")
    case _ => None
  }

  /** The entries in the General Punctuation and combining-symbol blocks. */
  function PunctuationBlock(c: char): Option<string> {
    match c
    case '\U{200B}' => Some(" ")
    case '\U{2010}' => Some("-")
    case '\U{2011}' => Some("-")
    case '\U{2012}' => Some("-")
    case '\U{2013}' => Some("-")
    case '\U{2014}' => Some("-")
    case '\U{2015}' => Some("--")
    case '\U{2016}' => Some("||")
    case '\U{2017}' => Some("_")
    case '\U{2018}' => Some("'")
    case '\U{2019}' => Some("'")
    case '\U{201A}' => Some(",")
    case '\U{201B}' => Some("'")
    case '\U{201C}' => Some("\"")
    case '\U{201D}' => Some("\"")
    case '\U{201E}' => Some("\"")
    case '\U{201F}' => Some("\"")
    case '\U{2032}' => Some("'")
    case '\U{2033}' => Some("\"")
    case '\U{2034}' => Some("''")
    case '\U{2035}' => Some("`")
    case '\U{2036}' => Some("\"")
    case '\U{2037}' => Some("''")
    case '\U{2038}' => Some("^")
    case '\U{2039}' => Some("<")
    case '\U{203A}' => Some(">")
    case '\U{203D}' => Some("?")
    case '\U{2044}' => Some("/")
    case '\U{204E}' => Some("*")
    case '\U{2052}' => Some("%")
    case '\U{2053}' => Some("~")
    case '\U{2060}' => Some(" ")
    case '\U{20E5}' => Some("\\")
    case _ => None
  }

  /** The entries from U+2100 on: mathematical operators, technical and
      CJK symbols, and the byte-order mark. */
  function SymbolBlock(c: char): Option<string> {
    match c
    case '\U{2212}' => Some("-")
    case '\U{2215}' => Some("/")
    case '\U{2216}' => Some("\\")
    case '\U{2217}' => Some("*")
    case '\U{2223}' => Some("|")
    case '\U{2236}' => Some(":")
    case '\U{223C}' => Some("~")
    case '\U{2264}' => Some("<=")
    case '\U{2265}' => Some(">=")
    case '\U{2266}' => Some("<=")
    case '\U{2267}' => Some(">=")
    case '\U{2303}' => Some("^")
    case '\U{2329}' => Some("<")
    case '\U{232A}' => Some(">")
    case '\U{266F}' => Some("#")
    case '\U{2731}' => Some("*")
    case '\U{2758}' => Some("|")
    case '\U{2762}' => Some("!")
    case '\U{27E6}' => Some("[")
    case '\U{27E8}' => Some("<")
    case '\U{27E9}' => Some(">")
    case '\U{2983}' => Some("{")
    case '\U{2984}' => Some("}")
    case '\U{3003}' => Some("\"")
    case '\U{3008}' => Some("<")
    case '\U{3009}' => Some(">")
    case '\U{301B}' => Some("]")
    case '\U{301C}' => Some("~")
    case '\U{301D}' => Some("\"")
    case '\U{301E}' => Some("\"")
    case '\U{FEFF}' => Some(" ")
    case _ => None
  }

  predicate IsAscii(c: char) {
    c as int < 0x80
  }

  predicate AllAscii(s: string) {
    forall i :: 0 <= i < |s| ==> IsAscii(s[i])
  }

  /** Every key lies outside ASCII and every replacement inside it: once a
      character is replaced, no later entry can touch the result. */
  lemma TableSeparated(c: char)
    ensures Replacement(c).Some? ==> !IsAscii(c) && AllAscii(Replacement(c).value)
  {
    if c < '\U{2000}' {
      LetterBlockSeparated(c);
    } else if c < '\U{2100}' {
      PunctuationBlockSeparated(c);
    } else {
      SymbolBlockSeparated(c);
    }
  }

  lemma LetterBlockSeparated(c: char)
    ensures LetterBlock(c).Some? ==> !IsAscii(c) && AllAscii(LetterBlock(c).value)
  {
  }

  lemma PunctuationBlockSeparated(c: char)
    ensures PunctuationBlock(c).Some? ==> AllAscii(PunctuationBlock(c).value)
  {
  }

  lemma SymbolBlockSeparated(c: char)
    ensures SymbolBlock(c).Some? ==> AllAscii(SymbolBlock(c).value)
  {
  }

  /** No two entries share a key. */
  predicate DistinctKeys(rules: seq<Rule>) {
    forall i, j :: 0 <= i < j < |rules| ==> rules[i].from != rules[j].from
  }

  /** `rules` lists the entries of `t`, each once, in some order: a possible
      iteration order of the `HashMap`. */
  predicate IsIterationOrder(rules: seq<Rule>) {
    && DistinctKeys(rules)
    && (forall i :: 0 <= i < |rules| ==> Replacement(rules[i].from) == Some(rules[i].to))
    && (forall c :: Replacement(c).Some? ==> exists i :: 0 <= i < |rules| && rules[i].from == c)
  }

  /** `replace(from, to)` with a one-character pattern: every occurrence. */
  function ReplaceChar(s: string, from: char, to: string): (t: string)
    ensures (forall i :: 0 <= i < |s| ==> s[i] != from) ==> t == s
  {
    if |s| == 0 then []
    else (if s[0] == from then to else [s[0]]) + ReplaceChar(s[1..], from, to)
  }

  /** The `forEach` over the entries, one `replace` after another. */
  function ReplaceAll(s: string, rules: seq<Rule>): string
    decreases |rules|
  {
    if |rules| == 0 then s else ReplaceAll(ReplaceChar(s, rules[0].from, rules[0].to), rules[1..])
  }

  /** `replace(Regex("[^\\p{ASCII}]"), "")`. */
  function StripNonAscii(s: string): (t: string)
    ensures AllAscii(t)
    ensures |t| <= |s|
    ensures AllAscii(s) ==> t == s
  {
    if |s| == 0 then [] else (if IsAscii(s[0]) then [s[0]] else []) + StripNonAscii(s[1..])
  }

  /** `toNormalized()` as written, for the iteration order `rules`: the
      replacements one after another, then the strip. */
  function NormalizeWith(s: string, rules: seq<Rule>): string {
    StripNonAscii(ReplaceAll(s, rules))
  }

  /** What one character becomes: its table replacement, itself when it is
      ASCII, and nothing otherwise. */
  function NormalizeChar(c: char): (t: string)
    ensures AllAscii(t)
  {
    TableSeparated(c);
    match Replacement(c)
    case Some(r) => r
    case None => if IsAscii(c) then [c] else []
  }

  /** `toNormalized()`, character by character. */
  function Normalize(s: string): (t: string)
    ensures AllAscii(t)
  {
    FlatMapAscii(s, NormalizeChar);
    FlatMap(s, NormalizeChar)
  }

  /** Every character of `s` replaced by the string `f` gives it. */
  function FlatMap(s: string, f: char -> string): string {
    if |s| == 0 then [] else f(s[0]) + FlatMap(s[1..], f)
  }

  lemma {:induction false} FlatMapAscii(s: string, f: char -> string)
    requires forall c :: AllAscii(f(c))
    ensures AllAscii(FlatMap(s, f))
  {
    if |s| > 0 {
      FlatMapAscii(s[1..], f);
      var h, t := f(s[0]), FlatMap(s[1..], f);
      assert forall i :: 0 <= i < |h| ==> (h + t)[i] == h[i];
      assert forall i :: |h| <= i < |h + t| ==> (h + t)[i] == t[i - |h|];
    }
  }

  lemma {:induction false} FlatMapAppend(a: string, b: string, f: char -> string)
    ensures FlatMap(a + b, f) == FlatMap(a, f) + FlatMap(b, f)
  {
    if |a| > 0 {
      FlatMapAppend(a[1..], b, f);
      assert (a + b)[0] == a[0];
      assert (a + b)[1..] == a[1..] + b;
      var h := f(a[0]);
      assert FlatMap(a + b, f) == h + (FlatMap(a[1..], f) + FlatMap(b, f));
      assert h + (FlatMap(a[1..], f) + FlatMap(b, f)) == (h + FlatMap(a[1..], f)) + FlatMap(b, f);
    } else {
      assert a + b == b;
    }
  }

  // ---------------------------------------------------------------------
  // The sequential loop equals per-character substitution.

  /** The replacement the first matching rule gives `c`, or `c` itself. */
  function Lookup(rules: seq<Rule>, c: char): string {
    if |rules| == 0 then [c]
    else if rules[0].from == c then rules[0].to
    else Lookup(rules[1..], c)
  }

  lemma {:induction false} LookupFinds(rules: seq<Rule>, c: char, k: nat)
    requires DistinctKeys(rules)
    requires k < |rules| && rules[k].from == c
    ensures Lookup(rules, c) == rules[k].to
  {
    if k > 0 {
      assert rules[0].from != c;
      LookupFinds(rules[1..], c, k - 1);
    }
  }

  lemma {:induction false} LookupMisses(rules: seq<Rule>, c: char)
    requires forall i :: 0 <= i < |rules| ==> rules[i].from != c
    ensures Lookup(rules, c) == [c]
  {
    if |rules| > 0 {
      LookupMisses(rules[1..], c);
    }
  }

  /** Every character replaced independently by `Lookup`. */
  function Subst(s: string, rules: seq<Rule>): string {
    if |s| == 0 then [] else Lookup(rules, s[0]) + Subst(s[1..], rules)
  }

  lemma {:induction false} SubstAppend(a: string, b: string, rules: seq<Rule>)
    ensures Subst(a + b, rules) == Subst(a, rules) + Subst(b, rules)
  {
    if |a| > 0 {
      SubstAppend(a[1..], b, rules);
      assert (a + b)[0] == a[0];
      assert (a + b)[1..] == a[1..] + b;
      var h := Lookup(rules, a[0]);
      assert Subst(a + b, rules) == h + (Subst(a[1..], rules) + Subst(b, rules));
      assert h + (Subst(a[1..], rules) + Subst(b, rules)) == (h + Subst(a[1..], rules)) + Subst(b, rules);
    } else {
      assert a + b == b;
    }
  }

  lemma {:induction false} StripAppend(a: string, b: string)
    ensures StripNonAscii(a + b) == StripNonAscii(a) + StripNonAscii(b)
  {
    if |a| > 0 {
      StripAppend(a[1..], b);
      assert (a + b)[0] == a[0];
      assert (a + b)[1..] == a[1..] + b;
      var h := if IsAscii(a[0]) then [a[0]] else [];
      assert StripNonAscii(a + b) == h + (StripNonAscii(a[1..]) + StripNonAscii(b));
      assert h + (StripNonAscii(a[1..]) + StripNonAscii(b)) == (h + StripNonAscii(a[1..])) + StripNonAscii(b);
    } else {
      assert a + b == b;
    }
  }

  /** Rules whose keys all lie outside ASCII leave ASCII text alone. */
  lemma {:induction false} SubstOfAscii(s: string, rules: seq<Rule>)
    requires forall i :: 0 <= i < |rules| ==> !IsAscii(rules[i].from)
    requires AllAscii(s)
    ensures Subst(s, rules) == s
  {
    if |s| > 0 {
      LookupMisses(rules, s[0]);
      SubstOfAscii(s[1..], rules);
    }
  }

  lemma {:induction false} SubstIdentity(s: string)
    ensures Subst(s, []) == s
  {
    if |s| > 0 {
      SubstIdentity(s[1..]);
    }
  }

  /** The rules are distinct, keyed outside ASCII and replace into ASCII. */
  predicate WellFormed(rules: seq<Rule>) {
    && DistinctKeys(rules)
    && (forall i :: 0 <= i < |rules| ==> !IsAscii(rules[i].from) && AllAscii(rules[i].to))
  }

  /** One `replace` followed by the substitution of the remaining rules is
      the substitution of all of them. */
  lemma {:induction false} ReplaceThenSubst(s: string, rules: seq<Rule>)
    requires |rules| > 0 && WellFormed(rules)
    ensures Subst(ReplaceChar(s, rules[0].from, rules[0].to), rules[1..]) == Subst(s, rules)
  {
    if |s| > 0 {
      var rest := ReplaceChar(s[1..], rules[0].from, rules[0].to);
      var head := if s[0] == rules[0].from then rules[0].to else [s[0]];
      assert ReplaceChar(s, rules[0].from, rules[0].to) == head + rest;
      SubstAppend(head, rest, rules[1..]);
      ReplaceThenSubst(s[1..], rules);
      if s[0] == rules[0].from {
        SubstOfAscii(rules[0].to, rules[1..]);
      } else {
        assert Subst(head, rules[1..]) == Lookup(rules[1..], s[0]) + Subst([], rules[1..]);
      }
    }
  }

  /** The sequential loop over well-formed rules is a per-character substitution. */
  lemma {:induction false} ReplaceAllIsSubst(s: string, rules: seq<Rule>)
    requires WellFormed(rules)
    ensures ReplaceAll(s, rules) == Subst(s, rules)
    decreases |rules|
  {
    if |rules| == 0 {
      SubstIdentity(s);
    } else {
      assert WellFormed(rules[1..]);
      ReplaceAllIsSubst(ReplaceChar(s, rules[0].from, rules[0].to), rules[1..]);
      ReplaceThenSubst(s, rules);
    }
  }

  /** In an iteration order of the table, `Lookup` followed by the strip is
      `NormalizeChar`. */
  lemma LookupIsNormalizeChar(rules: seq<Rule>, c: char)
    requires IsIterationOrder(rules)
    ensures StripNonAscii(Lookup(rules, c)) == NormalizeChar(c)
  {
    TableSeparated(c);
    if Replacement(c).Some? {
      var k :| 0 <= k < |rules| && rules[k].from == c;
      LookupFinds(rules, c, k);
    } else {
      LookupMisses(rules, c);
    }
  }

  lemma {:induction false} StripSubstIsNormalize(s: string, rules: seq<Rule>)
    requires IsIterationOrder(rules)
    ensures StripNonAscii(Subst(s, rules)) == Normalize(s)
  {
    if |s| > 0 {
      StripAppend(Lookup(rules, s[0]), Subst(s[1..], rules));
      LookupIsNormalizeChar(rules, s[0]);
      StripSubstIsNormalize(s[1..], rules);
    }
  }

  /** The `forEach` loop as written computes `Normalize`, whatever order the
      `HashMap` hands it the entries in. */
  lemma NormalizeAnyOrder(s: string, rules: seq<Rule>)
    requires IsIterationOrder(rules)
    ensures NormalizeWith(s, rules) == Normalize(s)
  {
    forall i | 0 <= i < |rules|
      ensures !IsAscii(rules[i].from) && AllAscii(rules[i].to)
    {
      TableSeparated(rules[i].from);
    }
    assert WellFormed(rules);
    ReplaceAllIsSubst(s, rules);
    StripSubstIsNormalize(s, rules);
  }

  // ---------------------------------------------------------------------
  // Properties of the result.

  /** ASCII text is left unchanged. */
  lemma {:induction false} NormalizeKeepsAscii(s: string)
    requires AllAscii(s)
    ensures Normalize(s) == s
  {
    if |s| > 0 {
      TableSeparated(s[0]);
      NormalizeKeepsAscii(s[1..]);
    }
  }

  /** Normalizing twice is normalizing once. */
  lemma NormalizeIdempotent(s: string)
    ensures Normalize(Normalize(s)) == Normalize(s)
  {
    NormalizeKeepsAscii(Normalize(s));
  }

  /** Normalization commutes with concatenation. */
  lemma NormalizeAppend(a: string, b: string)
    ensures Normalize(a + b) == Normalize(a) + Normalize(b)
  {
    FlatMapAppend(a, b, NormalizeChar);
  }

  /** One character alone becomes its replacement. */
  lemma NormalizeSingle(c: char)
    ensures Normalize([c]) == NormalizeChar(c)
  {
    assert FlatMap([c], NormalizeChar) == NormalizeChar(c) + FlatMap([], NormalizeChar);
  }

  /** A right single quotation mark becomes an apostrophe. */
  lemma NormalizeQuoteExample()
    ensures Normalize("it\U{2019}s") == "it's"
  {
    assert "it\U{2019}s" == "it" + ("\U{2019}" + "s");
    NormalizeAppend("it", "\U{2019}" + "s");
    NormalizeAppend("\U{2019}", "s");
    NormalizeKeepsAscii("it");
    NormalizeKeepsAscii("s");
    NormalizeSingle('\U{2019}');
  }

  /** A less-than-or-equal sign becomes two characters. */
  lemma NormalizeLessEqualExample()
    ensures Normalize("x\U{2264}y") == "x<=y"
  {
    assert "x\U{2264}y" == "x" + ("\U{2264}" + "y");
    NormalizeAppend("x", "\U{2264}" + "y");
    NormalizeAppend("\U{2264}", "y");
    NormalizeKeepsAscii("x");
    NormalizeKeepsAscii("y");
    NormalizeSingle('\U{2264}');
  }

  /** A letter outside the table and outside ASCII is dropped. */
  lemma NormalizeDropExample()
    ensures Normalize("caf\U{00E9}") == "caf"
  {
    NormalizeAppend("caf", "\U{00E9}");
    NormalizeKeepsAscii("caf");
    NormalizeSingle('\U{00E9}');
  }
}
