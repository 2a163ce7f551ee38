/** The advertisement-script parser with its emoji literals as the source
    spells them. Both manager files hold every emoji literal as the emoji's
    UTF-8 bytes read back as Windows-1252 text, with the bytes Windows-1252
    leaves undefined (0x8F, 0x90, 0x9D) gone: `"🆑"` appears as the four
    characters U+00F0 U+0178 U+2020 U+2018, and so on. Each literal starts
    with U+00F0 (U+00E2 for the red heart), which no emoji is and which a
    script of real emoji does not contain.

    `AdScript` reads the emoji these literals encode, which is what the
    script format means; this module keeps the literals as written and
    states where the two part: real glyphs are never recognised, clocks are
    never counted, hearts never colour, icons are always the first invader,
    and a line that starts with the spelled-out invader but holds no emoji
    throws. */
module AdScriptAsWritten {
  import opened Wrappers
  import opened Strings
  import opened Message
  import opened Platform
  import StringExt
  import TextFile
  import Decimal
  import AdScript

  // ---------------------------------------------------------------------
  // The literals, character by character

  const CLOCK_LIT: string := "\U{F0}\U{178}\U{2022}\U{B0}"
  const CHONKY_LIT: string := "\U{F0}\U{178}\U{2020}\U{2018}"
  const ONE_BY_ONE_LIT: string := "\U{F0}\U{178}\U{2026}\U{BE}"
  const TRACK_LIT: string := "\U{F0}\U{178}\U{203A}\U{A4}"
  const INVADER_LIT: string := "\U{F0}\U{178}\U{2018}\U{BE}"
  const ALIEN_LIT: string := "\U{F0}\U{178}\U{2018}\U{BD}"
  const COLLISION_LIT: string := "\U{F0}\U{178}\U{2019}\U{A5}"
  const AB_BUTTON_LIT: string := "\U{F0}\U{178}\U{2020}\U{17D}"
  const SHEEP_LIT: string := "\U{F0}\U{178}\U{2018}"
  const MILKY_WAY_LIT: string := "\U{F0}\U{178}\U{152}\U{152}"
  const BLOSSOM_LIT: string := "\U{F0}\U{178}\U{152}\U{BC}"

  /** The colour literals of `emojiToColor`, in the order they are tried. */
  const ColourLiterals: seq<(string, Palette)> := [
    ("\U{F0}\U{178}\U{2019}\U{203A}", Instagram),
    ("\U{F0}\U{178}\U{201D}\U{B4}", InstaHandle),
    ("\U{E2}\U{A4}\U{EF}\U{B8}", InstaHandle),
    ("\U{F0}\U{178}\U{2019}\U{2122}", Twitter),
    ("\U{F0}\U{178}\U{A7}\U{A1}", SoundCloud),
    ("\U{F0}\U{178}\U{2019}\U{153}", Twitch),
    ("\U{F0}\U{178}\U{2019}\U{161}", Green),
    ("\U{F0}\U{178}\U{2019}\U{2014}", Pink)
  ]

  /** `startsWith(p)` with exact comparison. */
  predicate StartsWith(s: string, p: string) {
    OccursAt(s, p, 0)
  }

  // ---------------------------------------------------------------------
  // The parser as written

  /** The first colour of `table` whose literal the line contains. */
  function FirstColour(line: string, table: seq<(string, Palette)>): (r: Option<Palette>)
    ensures r.None? <==> forall k :: 0 <= k < |table| ==> !Contains(line, table[k].0)
    ensures r.Some? ==> exists k :: (0 <= k < |table| && Contains(line, table[k].0)
      && table[k].1 == r.value
      && forall j :: 0 <= j < k ==> !Contains(line, table[j].0))
  {
    if |table| == 0 then None
    else if Contains(line, table[0].0) then Some(table[0].1)
    else
      var r := FirstColour(line, table[1..]);
      assert forall k :: 1 <= k < |table| ==> table[k] == table[1..][k - 1];
      if r.Some? then
        var k :| 0 <= k < |table[1..]| && Contains(line, table[1..][k].0)
          && table[1..][k].1 == r.value
          && forall j :: 0 <= j < k ==> !Contains(line, table[1..][j].0);
        assert Contains(line, table[k + 1].0) && table[k + 1].1 == r.value;
        assert forall j :: 0 <= j < k + 1 ==> !Contains(line, table[j].0) by {
          forall j | 0 <= j < k + 1
            ensures !Contains(line, table[j].0)
          {
            if j > 0 {
              assert table[j] == table[1..][j - 1];
            }
          }
        }
        r
      else r
  }

  /** `emojiToColor` with the source's literals. */
  function EmojiToColor(line: string): (r: Option<Palette>)
    ensures r.None? <==> forall k :: 0 <= k < |ColourLiterals| ==> !Contains(line, ColourLiterals[k].0)
    ensures r.Some? ==> exists k :: (0 <= k < |ColourLiterals| && Contains(line, ColourLiterals[k].0)
      && ColourLiterals[k].1 == r.value
      && forall j :: 0 <= j < k ==> !Contains(line, ColourLiterals[j].0))
  {
    FirstColour(line, ColourLiterals)
  }

  /** How many of the glyphs equal the literal: each glyph `extractEmojis`
      returns is one emoji, compared as a string. */
  function CountEqual(glyphs: string, lit: string): nat {
    if |glyphs| == 0 then 0 else (if [glyphs[0]] == lit then 1 else 0) + CountEqual(glyphs[1..], lit)
  }

  /** A literal longer than one character equals no single glyph. */
  lemma {:induction false} LongLiteralNeverCounted(glyphs: string, lit: string)
    requires |lit| != 1
    ensures CountEqual(glyphs, lit) == 0
  {
    if |glyphs| > 0 {
      assert |[glyphs[0]]| == 1;
      LongLiteralNeverCounted(glyphs[1..], lit);
    }
  }

  /** The hold time as written: the clock literal is never counted, so every
      line is held one second. */
  function Delay(line: string): (d: int)
    ensures d == 1000
  {
    LongLiteralNeverCounted(AdScript.Emojis(line), CLOCK_LIT);
    Decimal.ToShort(Decimal.WrapInt32((CountEqual(AdScript.Emojis(line), CLOCK_LIT) + 1) * 1000))
  }

  /** The icon of an icon line as written: the last glyph is compared with
      the literals, none of which it equals, so the `else` branch gives the
      first invader. */
  function IconOfGlyph(g: char): (i: Icon)
    ensures i == Enemy1
  {
    if [g] == INVADER_LIT then Enemy1
    else if [g] == ALIEN_LIT then Enemy2
    else if [g] == COLLISION_LIT then Explosion
    else if [g] == AB_BUTTON_LIT then Anjuna
    else if [g] == SHEEP_LIT then Baaahs
    else if [g] == MILKY_WAY_LIT then Dreamstate
    else if [g] == BLOSSOM_LIT then Edc
    else Enemy1
  }

  /** One line as written: the lead literals are tested in turn, and an
      icon line throws when `extractEmojis` finds nothing for `last()`. */
  function ParseAdLine(env: Env, line: string): (r: Result<Option<Msg>>)
    ensures r == Ok(None) <==>
      !StartsWith(line, CHONKY_LIT) && !StartsWith(line, ONE_BY_ONE_LIT)
      && !StartsWith(line, TRACK_LIT) && !StartsWith(line, INVADER_LIT)
    ensures StartsWith(line, CHONKY_LIT) ==>
      r == Ok(Some(ChonkySlide(StringExt.Normalize(line), env.colorOf(EmojiToColor(line).GetOr(ChonkySlideDefaultPink)), 1000, false)))
    ensures StartsWith(line, ONE_BY_ONE_LIT) ==>
      r == Ok(Some(OneByOne(StringExt.Normalize(line), env.colorOf(EmojiToColor(line).GetOr(Instagram)), 1000)))
    ensures StartsWith(line, TRACK_LIT) ==> r == Ok(Some(NowPlayingTrack("")))
    ensures StartsWith(line, INVADER_LIT) ==>
      if |AdScript.Emojis(line)| == 0 then r == Fail(NoSuchElement)
      else r == Ok(Some(IconInvader(Enemy1, env.colorOf(EmojiToColor(line).GetOr(IconDefaultBlue)))))
  {
    var delay := Delay(line);
    if StartsWith(line, CHONKY_LIT) then
      Ok(Some(ChonkySlide(StringExt.Normalize(line), env.colorOf(EmojiToColor(line).GetOr(ChonkySlideDefaultPink)), delay, false)))
    else if StartsWith(line, ONE_BY_ONE_LIT) then
      Ok(Some(OneByOne(StringExt.Normalize(line), env.colorOf(EmojiToColor(line).GetOr(Instagram)), delay)))
    else if StartsWith(line, TRACK_LIT) then
      Ok(Some(NowPlayingTrack("")))
    else if StartsWith(line, INVADER_LIT) then
      var color := env.colorOf(EmojiToColor(line).GetOr(IconDefaultBlue));
      var glyphs := AdScript.Emojis(line);
      if |glyphs| == 0 then Fail(NoSuchElement)
      else Ok(Some(IconInvader(IconOfGlyph(glyphs[|glyphs| - 1]), color)))
    else Ok(None)
  }

  /** The line makes the parser throw. */
  predicate Throws(env: Env, line: string) {
    ParseAdLine(env, line).Fail?
  }

  /** `mapNotNull` over the lines; the first line that throws ends it. */
  function ParseAdLines(env: Env, lines: seq<string>): (r: Result<seq<Msg>>)
    ensures r.Fail? <==> exists i :: 0 <= i < |lines| && Throws(env, lines[i])
    ensures r.Fail? ==> r.crash == NoSuchElement
    ensures r.Ok? ==> |r.value| <= |lines|
  {
    if |lines| == 0 then Ok([])
    else
      assert forall i :: 1 <= i < |lines| ==> lines[i] == lines[1..][i - 1];
      match ParseAdLine(env, lines[0])
      case Fail(e) => Fail(e)
      case Ok(o) =>
        match ParseAdLines(env, lines[1..])
        case Fail(e) => Fail(e)
        case Ok(rest) => Ok(if o.Some? then [o.value] + rest else rest)
  }

  /** `processAdChange`'s list as written. */
  function ParseAdScript(env: Env, script: string): (r: Result<seq<Msg>>)
    ensures r.Ok? ==> |r.value| <= |TextFile.Lines(script)|
    ensures r.Fail? ==> r.crash == NoSuchElement
  {
    ParseAdLines(env, TextFile.Lines(script))
  }

  // ---------------------------------------------------------------------
  // Where the written literals and the encoded emoji part

  /** A line led by a real script glyph is parsed by `AdScript` and skipped
      as written. */
  lemma RealLeadSkipped(env: Env, line: string)
    requires |line| > 0 && line[0] in {AdScript.CHONKY, AdScript.ONE_BY_ONE, AdScript.TRACK, AdScript.INVADER}
    ensures AdScript.ParseAdLine(env, line).Some?
    ensures ParseAdLine(env, line) == Ok(None)
  {
    UnwrittenLineSkipped(env, line);
  }

  /** A line that does not start with U+00F0 starts with no written lead. */
  lemma UnwrittenLineSkipped(env: Env, line: string)
    requires |line| == 0 || line[0] != '\U{F0}'
    ensures ParseAdLine(env, line) == Ok(None)
  {
    assert CHONKY_LIT[0] == ONE_BY_ONE_LIT[0] == TRACK_LIT[0] == INVADER_LIT[0] == '\U{F0}';
  }

  /** Lines without U+00F0 — any script written with real emoji and ASCII —
      give no advertisement at all as written. */
  lemma {:induction false} RealScriptGivesNothing(env: Env, lines: seq<string>)
    requires forall i, j :: 0 <= i < |lines| && 0 <= j < |lines[i]| ==> lines[i][j] != '\U{F0}'
    ensures ParseAdLines(env, lines) == Ok([])
  {
    if |lines| > 0 {
      UnwrittenLineSkipped(env, lines[0]);
      assert forall i :: 1 <= i < |lines| ==> lines[1..][i - 1] == lines[i];
      RealScriptGivesNothing(env, lines[1..]);
    }
  }

  /** The text of a file of such lines parses to no advertisement. */
  lemma RealFileGivesNothing(env: Env, lines: seq<string>)
    requires forall i :: 0 <= i < |lines| ==> TextFile.IsSingleLine(lines[i])
    requires forall i, j :: 0 <= i < |lines| && 0 <= j < |lines[i]| ==> lines[i][j] != '\U{F0}'
    ensures ParseAdScript(env, TextFile.WriteFile(lines)) == Ok([])
  {
    TextFile.LinesOfWriteFile(lines);
    RealScriptGivesNothing(env, lines + [[]]);
  }

  /** A clock makes `AdScript` hold a line two seconds; as written it is
      held one. */
  lemma ClockIgnored()
    ensures AdScript.Delay([AdScript.CHONKY, AdScript.CLOCK]) == 2000
    ensures Delay([AdScript.CHONKY, AdScript.CLOCK]) == 1000
  {
    var line := [AdScript.CHONKY, AdScript.CLOCK];
    assert line[1..] == [AdScript.CLOCK];
    assert AdScript.Count(line, AdScript.CLOCK) == 1 by {
      assert AdScript.Count([AdScript.CLOCK][1..], AdScript.CLOCK) == 0;
    }
  }

  /** A real growing heart colours a line pink in `AdScript`; as written the
      line has no colour, nor has any line free of U+00F0 and U+00E2. */
  lemma RealHeartsUnmatched(line: string)
    requires forall i :: 0 <= i < |line| ==> line[i] != '\U{F0}' && line[i] != '\U{E2}'
    ensures EmojiToColor(line) == None
  {
    forall k | 0 <= k < |ColourLiterals|
      ensures !Contains(line, ColourLiterals[k].0)
    {
      assert ColourLiterals[k].0[0] in {'\U{F0}', '\U{E2}'};
      AdScript.NotContained(line, ColourLiterals[k].0);
    }
  }

  lemma HeartExampleDiffers()
    ensures AdScript.EmojiToColor([AdScript.CHONKY] + AdScript.GROWING_HEART + "HI") == Some(Pink)
    ensures EmojiToColor([AdScript.CHONKY] + AdScript.GROWING_HEART + "HI") == None
  {
    var line := [AdScript.CHONKY] + AdScript.GROWING_HEART + "HI";
    AdScript.ExampleColour(line);
    RealHeartsUnmatched(line);
  }

  /** A line that is just the spelled-out invader holds no emoji, so
      `extractEmojis(line).last()` throws. */
  lemma InvaderLiteralThrows(env: Env)
    ensures ParseAdLine(env, INVADER_LIT) == Fail(NoSuchElement)
  {
    NoGlyphIn(INVADER_LIT);
    assert StartsWith(INVADER_LIT, INVADER_LIT);
    assert !StartsWith(INVADER_LIT, CHONKY_LIT) && !StartsWith(INVADER_LIT, ONE_BY_ONE_LIT)
      && !StartsWith(INVADER_LIT, TRACK_LIT) by {
      assert INVADER_LIT[2] != CHONKY_LIT[2] && INVADER_LIT[2] != ONE_BY_ONE_LIT[2] && INVADER_LIT[2] != TRACK_LIT[2];
    }
  }

  /** The characters of the spelled-out literals are no script glyphs. */
  lemma NoGlyphIn(s: string)
    requires forall i :: 0 <= i < |s| ==> s[i] < '\U{2100}'
    ensures AdScript.Emojis(s) == []
  {
    forall i | 0 <= i < |s|
      ensures !AdScript.IsGlyph(s[i])
    {
      forall k | 0 <= k < |AdScript.ColourGlyphs| && |AdScript.ColourGlyphs[k].0| == 1
        ensures AdScript.ColourGlyphs[k].0[0] != s[i]
      {
      }
    }
    NoGlyphNoEmojis(s);
  }

  lemma {:induction false} NoGlyphNoEmojis(s: string)
    requires forall i :: 0 <= i < |s| ==> !AdScript.IsGlyph(s[i])
    ensures AdScript.Emojis(s) == []
  {
    if |s| > 0 {
      assert forall i :: 1 <= i < |s| ==> s[1..][i - 1] == s[i];
      NoGlyphNoEmojis(s[1..]);
    }
  }

  /** As written, the chonky lead is part of the text and its last
      character, a left single quotation mark, normalizes to `'`; the real
      glyph `AdScript` reads is dropped instead. */
  lemma ChonkyLeadLeavesQuote(rest: string)
    ensures StringExt.Normalize(CHONKY_LIT + rest) == "'" + StringExt.Normalize(rest)
    ensures StringExt.Normalize([AdScript.CHONKY] + rest) == StringExt.Normalize(rest)
  {
    StringExt.NormalizeAppend(CHONKY_LIT, rest);
    ChonkyLiteralNormalized();
    AdScript.GlyphDropped(AdScript.CHONKY, rest);
  }

  /** The four characters of the chonky literal normalize to `'`. */
  lemma ChonkyLiteralNormalized()
    ensures StringExt.Normalize(CHONKY_LIT) == "'"
  {
    var lead := ['\U{F0}', '\U{178}', '\U{2020}'];
    assert CHONKY_LIT == lead + ['\U{2018}'];
    StringExt.NormalizeAppend(lead, ['\U{2018}']);
    LeadDropped();
    StringExt.NormalizeSingle('\U{2018}');
  }

  /** The first three characters of the literal vanish. */
  lemma LeadDropped()
    ensures StringExt.Normalize(['\U{F0}', '\U{178}', '\U{2020}']) == []
  {
    assert ['\U{F0}', '\U{178}', '\U{2020}'] == ['\U{F0}'] + ['\U{178}'] + ['\U{2020}'];
    StringExt.NormalizeAppend(['\U{F0}'] + ['\U{178}'], ['\U{2020}']);
    StringExt.NormalizeAppend(['\U{F0}'], ['\U{178}']);
    DroppedChar('\U{F0}');
    DroppedChar('\U{178}');
    DroppedChar('\U{2020}');
  }

  /** A non-ASCII character outside the normalization table vanishes. */
  lemma DroppedChar(c: char)
    requires c > '\U{7F}' && StringExt.Replacement(c) == None
    ensures StringExt.Normalize([c]) == []
  {
    StringExt.NormalizeSingle(c);
  }
}
