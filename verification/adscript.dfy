/** The advertisement script sent with the `!🅰` command: one advertisement
    per line, chosen by the glyph the line starts with, coloured by the first
    colour glyph it holds (in a fixed priority), and held one second longer
    for every clock glyph. */
module AdScript {
  import opened Wrappers
  import opened Strings
  import opened Message
  import opened Platform
  import StringExt
  import TextFile
  import Decimal

  // ---------------------------------------------------------------------
  // Glyphs

  const CLOCK: char := '\U{1F570}'      // mantelpiece clock: one more second
  const CHONKY: char := '\U{1F191}'     // squared CL: a chonky slide
  const ONE_BY_ONE: char := '\U{1F17E}' // squared O: a one-by-one message
  const TRACK: char := '\U{1F6E4}'      // railway track: the now-playing slot
  const INVADER: char := '\U{1F47E}'    // alien monster: an icon
  const ALIEN: char := '\U{1F47D}'
  const COLLISION: char := '\U{1F4A5}'
  const AB_BUTTON: char := '\U{1F18E}'
  const SHEEP: char := '\U{1F411}'
  const MILKY_WAY: char := '\U{1F30C}'
  const BLOSSOM: char := '\U{1F33C}'

  const YELLOW_HEART: string := "\U{1F49B}"
  const RED_CIRCLE: string := "\U{1F534}"
  const RED_HEART: string := "\U{2764}\U{FE0F}"
  const BLUE_HEART: string := "\U{1F499}"
  const ORANGE_HEART: string := "\U{1F9E1}"
  const PURPLE_HEART: string := "\U{1F49C}"
  const GREEN_HEART: string := "\U{1F49A}"
  const GROWING_HEART: string := "\U{1F497}"

  /** The colour glyphs in the order they are tried, with their colours. */
  const ColourGlyphs: seq<(string, Palette)> := [
    (YELLOW_HEART, Instagram), (RED_CIRCLE, InstaHandle), (RED_HEART, InstaHandle),
    (BLUE_HEART, Twitter), (ORANGE_HEART, SoundCloud), (PURPLE_HEART, Twitch),
    (GREEN_HEART, Green), (GROWING_HEART, Pink)
  ]

  /** The emoji the script uses; `extractEmojis` is reduced to these. */
  predicate IsGlyph(c: char) {
    || c == CLOCK || c == CHONKY || c == ONE_BY_ONE || c == TRACK || c == INVADER
    || c == ALIEN || c == COLLISION || c == AB_BUTTON || c == SHEEP || c == MILKY_WAY || c == BLOSSOM
    || c == '\U{2764}'
    || (exists k :: 0 <= k < |ColourGlyphs| && |ColourGlyphs[k].0| == 1 && ColourGlyphs[k].0[0] == c)
  }

  /** `EmojiParser.extractEmojis(line)`: the glyphs of the line, in order. */
  function Emojis(line: string): (e: string)
    ensures |e| <= |line|
    ensures forall i :: 0 <= i < |e| ==> IsGlyph(e[i])
    ensures forall i :: 0 <= i < |line| && IsGlyph(line[i]) ==> line[i] in e
  {
    if |line| == 0 then []
    else if IsGlyph(line[0]) then [line[0]] + Emojis(line[1..])
    else
      assert forall i :: 1 <= i < |line| ==> line[i] == line[1..][i - 1];
      Emojis(line[1..])
  }

  /** How often `c` occurs in `s`. */
  function Count(s: string, c: char): nat {
    if |s| == 0 then 0 else (if s[0] == c then 1 else 0) + Count(s[1..], c)
  }

  /** The clock glyphs `extractEmojis` finds are all the clock glyphs. */
  lemma {:induction false} ClocksAreAllFound(line: string)
    ensures Count(Emojis(line), CLOCK) == Count(line, CLOCK)
  {
    if |line| > 0 {
      ClocksAreAllFound(line[1..]);
      if IsGlyph(line[0]) {
        assert ([line[0]] + Emojis(line[1..]))[1..] == Emojis(line[1..]);
      }
    }
  }

  /** `emojiToColor`. */
  function EmojiToColor(line: string): (r: Option<Palette>)
    ensures r.None? <==> forall k :: 0 <= k < |ColourGlyphs| ==> !Contains(line, ColourGlyphs[k].0)
    ensures r.Some? ==> exists k :: (0 <= k < |ColourGlyphs| && Contains(line, ColourGlyphs[k].0)
      && ColourGlyphs[k].1 == r.value
      && forall j :: 0 <= j < k ==> !Contains(line, ColourGlyphs[j].0))
  {
    if Contains(line, YELLOW_HEART) then
      assert ColourGlyphs[0].0 == YELLOW_HEART;
      Some(Instagram)
    else if Contains(line, RED_CIRCLE) || Contains(line, RED_HEART) then
      assert ColourGlyphs[1].0 == RED_CIRCLE && ColourGlyphs[2].0 == RED_HEART;
      Some(InstaHandle)
    else if Contains(line, BLUE_HEART) then
      assert ColourGlyphs[3].0 == BLUE_HEART;
      Some(Twitter)
    else if Contains(line, ORANGE_HEART) then
      assert ColourGlyphs[4].0 == ORANGE_HEART;
      Some(SoundCloud)
    else if Contains(line, PURPLE_HEART) then
      assert ColourGlyphs[5].0 == PURPLE_HEART;
      Some(Twitch)
    else if Contains(line, GREEN_HEART) then
      assert ColourGlyphs[6].0 == GREEN_HEART;
      Some(Green)
    else if Contains(line, GROWING_HEART) then
      assert ColourGlyphs[7].0 == GROWING_HEART;
      Some(Pink)
    else None
  }

  /** The icon an icon line names by its last glyph; an unknown glyph
      gives the first invader. */
  function IconOfGlyph(g: char): Icon {
    if g == ALIEN then Enemy2
    else if g == COLLISION then Explosion
    else if g == AB_BUTTON then Anjuna
    else if g == SHEEP then Baaahs
    else if g == MILKY_WAY then Dreamstate
    else if g == BLOSSOM then Edc
    else Enemy1
  }

  /** The hold time of a line: one second, and one more per clock glyph,
      computed in `Int` and narrowed to `Short`. */
  function Delay(line: string): (d: int)
    ensures Decimal.IsInt16(d)
    ensures Count(line, CLOCK) < 32 ==> d == 1000 * (Count(line, CLOCK) + 1)
  {
    ClocksAreAllFound(line);
    Decimal.ToShort(Decimal.WrapInt32((Count(Emojis(line), CLOCK) + 1) * 1000))
  }

  /** One line of the script, or nothing when it starts with no known glyph. */
  function ParseAdLine(env: Env, line: string): (r: Option<Msg>)
    ensures r.Some? <==> |line| > 0 && line[0] in {CHONKY, ONE_BY_ONE, TRACK, INVADER}
    ensures r.Some? && line[0] == CHONKY ==>
      r.value == ChonkySlide(StringExt.Normalize(line), env.colorOf(EmojiToColor(line).GetOr(ChonkySlideDefaultPink)), Delay(line), false)
    ensures r.Some? && line[0] == ONE_BY_ONE ==>
      r.value == OneByOne(StringExt.Normalize(line), env.colorOf(EmojiToColor(line).GetOr(Instagram)), Delay(line))
    ensures r.Some? && line[0] == TRACK ==> r.value == NowPlayingTrack("")
    ensures r.Some? && line[0] == INVADER ==>
      && |Emojis(line)| > 0
      && r.value == IconInvader(IconOfGlyph(Emojis(line)[|Emojis(line)| - 1]), env.colorOf(EmojiToColor(line).GetOr(IconDefaultBlue)))
  {
    if |line| == 0 then None
    else if line[0] == CHONKY then
      var color := EmojiToColor(line);
      Some(ChonkySlide(StringExt.Normalize(line), env.colorOf(color.GetOr(ChonkySlideDefaultPink)), Delay(line), false))
    else if line[0] == ONE_BY_ONE then
      var color := EmojiToColor(line);
      Some(OneByOne(StringExt.Normalize(line), env.colorOf(color.GetOr(Instagram)), Delay(line)))
    else if line[0] == TRACK then
      Some(NowPlayingTrack(""))
    else if line[0] == INVADER then
      var color := env.colorOf(EmojiToColor(line).GetOr(IconDefaultBlue));
      var glyphs := Emojis(line);
      assert line[0] in glyphs;
      Some(IconInvader(IconOfGlyph(glyphs[|glyphs| - 1]), color))
    else None
  }

  /** The messages of the lines that parse, in order (`mapNotNull`). */
  function ParseAdLines(env: Env, lines: seq<string>): (ads: seq<Msg>)
    ensures |ads| <= |lines|
    ensures forall i :: 0 <= i < |ads| ==> IsAd(ads[i])
  {
    if |lines| == 0 then []
    else
      var rest := ParseAdLines(env, lines[1..]);
      match ParseAdLine(env, lines[0])
      case Some(m) => [m] + rest
      case None => rest
  }

  /** The kinds of message a script can produce. */
  predicate IsAd(m: Msg) {
    m.ChonkySlide? || m.OneByOne? || m.NowPlayingTrack? || m.IconInvader?
  }

  /** `processAdChange`'s list: every line of the script that parses. */
  function ParseAdScript(env: Env, script: string): (ads: seq<Msg>)
    ensures forall i :: 0 <= i < |ads| ==> IsAd(ads[i])
  {
    ParseAdLines(env, TextFile.Lines(script))
  }

  // ---------------------------------------------------------------------
  // Properties

  /** A glyph is neither ASCII nor in the normalization table, so the text
      of a chonky or one-by-one line is the line without its glyphs. */
  lemma GlyphDropped(g: char, rest: string)
    requires g in {CHONKY, ONE_BY_ONE, GROWING_HEART[0]}
    ensures StringExt.Normalize([g] + rest) == StringExt.Normalize(rest)
  {
    assert StringExt.Replacement(g) == None;
    assert StringExt.NormalizeChar(g) == [];
    StringExt.NormalizeAppend([g], rest);
    StringExt.NormalizeSingle(g);
  }

  /** Lines are independent: a script is the concatenation of its lines'
      advertisements. */
  lemma {:induction false} ParseAdLinesAppend(env: Env, a: seq<string>, b: seq<string>)
    ensures ParseAdLines(env, a + b) == ParseAdLines(env, a) + ParseAdLines(env, b)
  {
    if |a| > 0 {
      assert (a + b)[0] == a[0];
      assert (a + b)[1..] == a[1..] + b;
      ParseAdLinesAppend(env, a[1..], b);
    } else {
      assert a + b == b;
    }
  }

  /** A line with no known lead glyph is skipped, whatever follows it. */
  lemma SkipsUnknownLine(env: Env, first: string, rest: string)
    requires TextFile.IsSingleLine(first)
    requires |first| == 0 || first[0] !in {CHONKY, ONE_BY_ONE, TRACK, INVADER}
    ensures ParseAdScript(env, first + "\n" + rest) == ParseAdScript(env, rest)
  {
    TextFile.LinesCons(first, rest);
    ParseAdLinesAppend(env, [first], TextFile.Lines(rest));
  }

  /** A clock-less chonky line with a growing heart: pink, held one second. */
  lemma ChonkyLineExample(env: Env)
    ensures ParseAdLine(env, [CHONKY] + GROWING_HEART + "HI") ==
      Some(ChonkySlide("HI", env.colorOf(Pink), 1000, false))
  {
    var line := [CHONKY] + GROWING_HEART + "HI";
    ExampleColour(line);
    NotCounted(line, CLOCK);
    assert StringExt.Normalize(line) == "HI" by {
      assert line == [CHONKY] + ([GROWING_HEART[0]] + "HI");
      GlyphDropped(CHONKY, [GROWING_HEART[0]] + "HI");
      GlyphDropped(GROWING_HEART[0], "HI");
      StringExt.NormalizeKeepsAscii("HI");
    }
  }

  lemma ExampleColour(line: string)
    requires line == [CHONKY] + GROWING_HEART + "HI"
    ensures EmojiToColor(line) == Some(Pink)
  {
    assert OccursAt(line, GROWING_HEART, 1);
    NotContained(line, YELLOW_HEART);
    NotContained(line, RED_CIRCLE);
    NotContained(line, RED_HEART);
    NotContained(line, BLUE_HEART);
    NotContained(line, ORANGE_HEART);
    NotContained(line, PURPLE_HEART);
    NotContained(line, GREEN_HEART);
  }

  /** An invader line whose last glyph is the sheep shows the sheep icon in
      the default icon blue. */
  lemma SheepLineExample(env: Env)
    ensures ParseAdLine(env, [INVADER, SHEEP]) == Some(IconInvader(Baaahs, env.colorOf(IconDefaultBlue)))
  {
    var line := [INVADER, SHEEP];
    assert Emojis(line) == [INVADER, SHEEP] by {
      assert line[1..] == [SHEEP];
    }
    forall k | 0 <= k < |ColourGlyphs|
      ensures !Contains(line, ColourGlyphs[k].0)
    {
      NotContained(line, ColourGlyphs[k].0);
    }
  }

  /** A character that does not occur is counted zero times. */
  lemma {:induction false} NotCounted(s: string, c: char)
    requires forall i :: 0 <= i < |s| ==> s[i] != c
    ensures Count(s, c) == 0
  {
    if |s| > 0 {
      NotCounted(s[1..], c);
    }
  }

  /** A pattern whose first character does not occur is not contained. */
  lemma NotContained(s: string, p: string)
    requires |p| > 0 && forall i :: 0 <= i < |s| ==> s[i] != p[0]
    ensures !Contains(s, p)
  {
    forall i: nat | i + |p| <= |s|
      ensures !OccursAt(s, p, i)
    {
      assert s[i] != p[0];
    }
  }
}
