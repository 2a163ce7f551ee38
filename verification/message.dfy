/** The messages the live sign software shows: the rotation entries
    (`Marquee`), the one-shot messages of the queue, the type codes that tag
    every message on the wire, the line format of a rotation entry, and the
    type-code dispatch of the JSON reader. */
module Message {
  import opened Wrappers
  import opened Strings
  import Decimal

  /** Vertical tab: a one-column blank on the sign and the field separator
      of the saved rotation. */
  const VT: char := '\U{000B}'

  // ---------------------------------------------------------------------
  // Type codes

  datatype MsgType =
    | CHONKY_SLIDE | ONE_BY_ONE | FLASHY | COUNTDOWN | STARFIELD | UTILITY
    | KEYBOARD | CHOOSER | ICON | TRACKID | CHONKYMARQUEE | DEFAULT

  /** The enum constants in declaration order (`MSGTYPE.values()`). */
  const AllTypes: seq<MsgType> := [
    CHONKY_SLIDE, ONE_BY_ONE, FLASHY, COUNTDOWN, STARFIELD, UTILITY,
    KEYBOARD, CHOOSER, ICON, TRACKID, CHONKYMARQUEE, DEFAULT
  ]

  /** The wire code of each type. */
  function Code(t: MsgType): char {
    match t
    case CHONKY_SLIDE => 'C'
    case ONE_BY_ONE => 'O'
    case FLASHY => 'F'
    case COUNTDOWN => 'W'
    case STARFIELD => 'S'
    case UTILITY => 'U'
    case KEYBOARD => 'K'
    case CHOOSER => 'H'
    case ICON => 'I'
    case TRACKID => 'T'
    case CHONKYMARQUEE => 'N'
    case DEFAULT => 'D'
  }

  /** The enum constant's name, as `toString()` and `valueOf` use it. */
  function TypeName(t: MsgType): string {
    match t
    case CHONKY_SLIDE => "CHONKY_SLIDE"
    case ONE_BY_ONE => "ONE_BY_ONE"
    case FLASHY => "FLASHY"
    case COUNTDOWN => "COUNTDOWN"
    case STARFIELD => "STARFIELD"
    case UTILITY => "UTILITY"
    case KEYBOARD => "KEYBOARD"
    case CHOOSER => "CHOOSER"
    case ICON => "ICON"
    case TRACKID => "TRACKID"
    case CHONKYMARQUEE => "CHONKYMARQUEE"
    case DEFAULT => "DEFAULT"
  }

  lemma AllTypesListsEveryType(t: MsgType)
    ensures t in AllTypes
  {
  }

  /** No two types share a code, and every code is a single ASCII capital. */
  lemma CodesDistinct(a: MsgType, b: MsgType)
    ensures Code(a) == Code(b) <==> a == b
    ensures 'A' <= Code(a) <= 'Z'
  {
  }

  /** The first constant of `types` satisfying the search, if any. */
  function FirstWithCode(types: seq<MsgType>, c: char): (r: Option<MsgType>)
    ensures r.Some? ==> r.value in types && Code(r.value) == c
    ensures r.None? ==> forall k :: 0 <= k < |types| ==> Code(types[k]) != c
  {
    if |types| == 0 then None
    else if Code(types[0]) == c then Some(types[0])
    else FirstWithCode(types[1..], c)
  }

  function FirstWithName(types: seq<MsgType>, name: string): (r: Option<MsgType>)
    ensures r.Some? ==> r.value in types && TypeName(r.value) == name
    ensures r.None? ==> forall k :: 0 <= k < |types| ==> TypeName(types[k]) != name
  {
    if |types| == 0 then None
    else if TypeName(types[0]) == name then Some(types[0])
    else FirstWithName(types[1..], name)
  }

  /** `MsgTypeSerializer.deserialize`: the type whose code is the first
      character of the JSON string, `DEFAULT` when there is none. */
  function DecodeType(json: string): (t: MsgType)
    ensures |json| > 0 && (exists u :: Code(u) == json[0]) ==> Code(t) == json[0]
    ensures |json| == 0 ==> t == DEFAULT
  {
    if |json| == 0 then DEFAULT
    else
      var r := FirstWithCode(AllTypes, json[0]);
      if r.Some? then r.value
      else
        assert forall u :: Code(u) != json[0] by {
          forall u ensures Code(u) != json[0] {
            AllTypesListsEveryType(u);
          }
        }
        DEFAULT
  }

  /** `MSGTYPE.valueOf`: `None` stands for the `IllegalArgumentException`. */
  function ValueOf(name: string): (r: Option<MsgType>)
    ensures r.Some? ==> TypeName(r.value) == name
  {
    FirstWithName(AllTypes, name)
  }

  /** Writing a type's code and reading the first character back gives the type. */
  lemma DecodeTypeOfCode(t: MsgType, rest: string)
    ensures DecodeType([Code(t)] + rest) == t
  {
    CodesDistinct(t, DecodeType([Code(t)] + rest));
  }

  /** A string whose first character is no type's code reads as `DEFAULT`. */
  lemma DecodeTypeUnknown(json: string)
    requires |json| > 0
    requires forall u :: Code(u) != json[0]
    ensures DecodeType(json) == DEFAULT
  {
  }

  /** Every type name is accepted by `valueOf`, as that type. */
  lemma ValueOfTypeName(t: MsgType)
    ensures ValueOf(TypeName(t)) == Some(t)
  {
    AllTypesListsEveryType(t);
    var r := ValueOf(TypeName(t));
    assert r.Some?;
    TypeNamesDistinct(t, r.value);
  }

  lemma TypeNamesDistinct(a: MsgType, b: MsgType)
    ensures TypeName(a) == TypeName(b) <==> a == b
  {
  }

  /** Type names hold no separator. */
  lemma TypeNameHasNoVT(t: MsgType)
    ensures forall i :: 0 <= i < |TypeName(t)| ==> TypeName(t)[i] != VT
  {
  }

  // ---------------------------------------------------------------------
  // Rotation entries

  /** The four `Marquee` classes. */
  datatype MarqueeKind = User | GPTQuery | Chonky | GPTReply

  /** A rotation entry: its class, its text and its (constructor-given) type. */
  datatype Marquee = Marquee(kind: MarqueeKind, str: string, mtype: MsgType)

  /** The type each class gets when the constructor is not given one. */
  function DefaultType(k: MarqueeKind): MsgType {
    match k
    case User => DEFAULT
    case GPTQuery => DEFAULT
    case Chonky => CHONKYMARQUEE
    case GPTReply => CHONKYMARQUEE
  }

  /** A `Marquee` built with its default type. */
  function NewMarquee(k: MarqueeKind, str: string): (m: Marquee)
    ensures m.kind == k && m.str == str && m.mtype == DefaultType(k)
  {
    Marquee(k, str, DefaultType(k))
  }

  /** `GPTQuery.toUserMessage()`: a `User` with the same text. */
  function ToUserMessage(q: Marquee): (u: Marquee)
    requires q.kind == GPTQuery
    ensures u.kind == User && u.str == q.str && u.mtype == DEFAULT
  {
    NewMarquee(User, q.str)
  }

  /** `GPTReply.toChonkyMessage()`: a `Chonky` with the same text. */
  function ToChonkyMessage(r: Marquee): (c: Marquee)
    requires r.kind == GPTReply
    ensures c.kind == Chonky && c.str == r.str && c.mtype == CHONKYMARQUEE
  {
    NewMarquee(Chonky, r.str)
  }

  /** `Marquee.toString()`: type name, VT, text. */
  function MarqueeToString(m: Marquee): (line: string)
    ensures |line| > |TypeName(m.mtype)|
    ensures line[|TypeName(m.mtype)|] == VT
    ensures line[|TypeName(m.mtype)| + 1..] == m.str
  {
    TypeName(m.mtype) + [VT] + m.str
  }

  /** `Marquee.fromString<T>(s)` for the class `target`: the type is the
      piece before the first VT, the text the piece between the first and
      the second. */
  function FromString(target: MarqueeKind, s: string): (r: Result<Marquee>)
    ensures r.Ok? ==> r.value.kind == target && target != GPTReply
    ensures r.Ok? ==> Contains(s, [VT])
    ensures r.Ok? ==> |Split(s, VT)| >= 2 && r.value.str == Split(s, VT)[1]
    ensures target == GPTReply && ValueOf(Split(s, VT)[0]).Some? && |Split(s, VT)| >= 2 ==> r == Fail(IllegalArgument)
    ensures r.Ok? <==> ValueOf(Split(s, VT)[0]).Some? && |Split(s, VT)| >= 2 && target != GPTReply
    ensures r.Ok? ==> r.value.mtype == ValueOf(Split(s, VT)[0]).value
    ensures ValueOf(Split(s, VT)[0]).None? ==> r == Fail(IllegalArgument)
    ensures ValueOf(Split(s, VT)[0]).Some? && |Split(s, VT)| < 2 ==> r == Fail(IndexOutOfBounds)
  {
    var parts := Split(s, VT);
    match ValueOf(parts[0])
    case None => Fail(IllegalArgument)
    case Some(t) =>
      if |parts| < 2 then Fail(IndexOutOfBounds)
      else if target == GPTReply then Fail(IllegalArgument)
      else
        SplitHasDelimiter(s, VT);
        Ok(Marquee(target, parts[1], t))
  }

  /** More than one piece means the delimiter occurs. */
  lemma SplitHasDelimiter(s: string, d: char)
    requires |Split(s, d)| >= 2
    ensures Contains(s, [d])
  {
    var i := IndexOfChar(s, d);
    assert i < |s|;
    assert OccursAt(s, [d], i);
  }

  /** A line with no VT does not parse: `parts[1]` is out of range. */
  lemma FromStringWithoutVT(target: MarqueeKind, s: string)
    requires forall i :: 0 <= i < |s| ==> s[i] != VT
    requires ValueOf(s).Some?
    ensures FromString(target, s) == Fail(IndexOutOfBounds)
  {
    SplitOfDelimiterFree(s, VT);
  }

  /** Text without VT survives `toString` then `fromString` of the same
      class, for the three classes `fromString` knows. */
  lemma MarqueeRoundTrip(m: Marquee)
    requires m.kind != GPTReply
    requires forall i :: 0 <= i < |m.str| ==> m.str[i] != VT
    ensures FromString(m.kind, MarqueeToString(m)) == Ok(m)
  {
    var name := TypeName(m.mtype);
    TypeNameHasNoVT(m.mtype);
    SplitAtFirst(name, VT, m.str);
    SplitOfDelimiterFree(m.str, VT);
    ValueOfTypeName(m.mtype);
  }

  // ---------------------------------------------------------------------
  // Colours

  /** `Color.red`, `Color.green`, `Color.blue` of an ARGB int. */
  function Red(c: int): int { (c / 0x1_0000) % 0x100 }
  function Green(c: int): int { (c / 0x100) % 0x100 }
  function Blue(c: int): int { c % 0x100 }

  /** The three channels are bytes and together give back the low 24 bits
      of the colour. */
  lemma ChannelsDecompose(c: int)
    ensures 0 <= Red(c) < 0x100 && 0 <= Green(c) < 0x100 && 0 <= Blue(c) < 0x100
    ensures Red(c) * 0x1_0000 + Green(c) * 0x100 + Blue(c) == c % 0x100_0000
  {
    var q1 := c / 0x100;
    var q2 := q1 / 0x100;
    assert c == q1 * 0x100 + Blue(c);
    assert q1 == q2 * 0x100 + Green(c);
    assert c / 0x1_0000 == q2 by {
      DivDiv(c);
    }
    assert q2 == (q2 / 0x100) * 0x100 + Red(c);
    assert c == (q2 / 0x100) * 0x100_0000 + (Red(c) * 0x1_0000 + Green(c) * 0x100 + Blue(c));
    ModOfDecomposition(c, q2 / 0x100, Red(c) * 0x1_0000 + Green(c) * 0x100 + Blue(c));
  }

  /** Two byte shifts make one 16-bit shift. */
  lemma DivDiv(c: int)
    ensures (c / 0x100) / 0x100 == c / 0x1_0000
  {
    var q := c / 0x100;
    var r := c % 0x100;
    var q2 := q / 0x100;
    var r2 := q % 0x100;
    assert c == q2 * 0x1_0000 + (r2 * 0x100 + r);
    DivOfDecomposition(c, 0x1_0000, q2, r2 * 0x100 + r);
  }

  lemma DivOfDecomposition(c: int, d: int, q: int, r: int)
    requires d > 0 && 0 <= r < d && c == q * d + r
    ensures c / d == q && c % d == r
  {
    var q', r' := c / d, c % d;
    assert (q - q') * d == r' - r;
    if q > q' {
      MulAtLeast(q - q', d);
    } else if q < q' {
      MulAtLeast(q' - q, d);
    }
  }

  lemma MulAtLeast(x: int, d: int)
    requires x >= 1 && d > 0
    ensures x * d >= d
  {
    assert x * d == (x - 1) * d + d;
    assert (x - 1) * d >= 0;
  }

  lemma ModOfDecomposition(c: int, q: int, r: int)
    requires 0 <= r < 0x100_0000 && c == q * 0x100_0000 + r
    ensures c % 0x100_0000 == r
  {
    DivOfDecomposition(c, 0x100_0000, q, r);
  }

  /** Yellow `0xFFFF00` has channels (255, 255, 0). */
  lemma YellowChannels()
    ensures Red(0xFFFF00) == 255 && Green(0xFFFF00) == 255 && Blue(0xFFFF00) == 0
  {
  }

  // ---------------------------------------------------------------------
  // Messages

  /** The `IconInvaders` glyphs. */
  datatype Icon = Enemy1 | Enemy2 | Explosion | Anjuna | Baaahs | Dreamstate | Edc

  /** The one-character text each icon is sent as. */
  function IconCode(i: Icon): string {
    match i
    case Enemy1 => "1"
    case Enemy2 => "2"
    case Explosion => "X"
    case Anjuna => "A"
    case Baaahs => "B"
    case Dreamstate => "D"
    case Edc => "E"
  }

  /** One frame of the "thinking" animation; `thinkMore()` produces the next. */
  datatype ThinkingFrame = ThinkingFrame(str: string, colorCycle: int, delayMs: int, showCaret: bool, thinkDots: int)

  /** Every message the scheduler can hand to the sign. */
  datatype Msg =
    | Rotation(m: Marquee)
    | Starfield(stars: int)
    | NowPlayingTrack(track: string)
    | OneByOne(text: string, color: int, delayMs: int)
    | ChonkySlide(text: string, colorCycle: int, delayMs: int, scroll: bool)
    | GPTThinking(frame: ThinkingFrame)
    | IconInvader(icon: Icon, color: int)
    | NowPlayingAnnouncement
    | CustomFlashy(text: string, time: int)
    | NewMessageAnnouncement
    | EnableMic
    | DisableMic
    | BrightnessShift(amount: Option<int>)
    | Chooser(currentIndex: int, lastIndex: int, current: Marquee)
    | KeyboardInput(input: string)
    | KeyboardInputWarning(input: string)

  /** `Message.Starfield()` with its default star count. */
  const DefaultStarfield: Msg := Starfield(300)

  /** The `str` field each message is shown and serialized with. */
  function Str(msg: Msg): string {
    match msg
    case Rotation(m) => m.str
    case Starfield(_) => ""
    case NowPlayingTrack(t) => t
    case OneByOne(t, _, _) => t
    case ChonkySlide(t, _, _, _) => t
    case GPTThinking(f) => f.str
    case IconInvader(i, _) => IconCode(i)
    case NowPlayingAnnouncement => "NOW" + [VT] + "PLAYING"
    case CustomFlashy(t, _) => t
    case NewMessageAnnouncement => "NEW" + [VT] + "MSG" + [VT]
    case EnableMic => "E"
    case DisableMic => "D"
    case BrightnessShift(a) => if a.Some? then Decimal.IntToString(a.value) else ""
    case Chooser(_, _, m) => m.str
    case KeyboardInput(s) => TakeLast(s, 19) + "_"
    case KeyboardInputWarning(s) => TakeLast(s, 19) + "_"
  }

  /** The `type` field each message carries. */
  function TypeOf(msg: Msg): MsgType {
    match msg
    case Rotation(m) => m.mtype
    case Starfield(_) => STARFIELD
    case NowPlayingTrack(_) => TRACKID
    case OneByOne(_, _, _) => ONE_BY_ONE
    case ChonkySlide(_, _, _, _) => CHONKY_SLIDE
    case GPTThinking(_) => CHONKY_SLIDE
    case IconInvader(_, _) => ICON
    case NowPlayingAnnouncement => FLASHY
    case CustomFlashy(_, _) => FLASHY
    case NewMessageAnnouncement => COUNTDOWN
    case EnableMic => UTILITY
    case DisableMic => UTILITY
    case BrightnessShift(_) => UTILITY
    case Chooser(_, _, _) => CHOOSER
    case KeyboardInput(_) => KEYBOARD
    case KeyboardInputWarning(_) => KEYBOARD
  }

  /** The subtype character of a utility message. */
  function Subtype(msg: Msg): char
    requires msg.EnableMic? || msg.DisableMic? || msg.BrightnessShift?
  {
    if msg.BrightnessShift? then 'B' else 'M'
  }

  /** The mode character of a keyboard echo. */
  function Mode(msg: Msg): char
    requires msg.KeyboardInput? || msg.KeyboardInputWarning?
  {
    if msg.KeyboardInput? then 'I' else 'W'
  }

  /** The position string of a chooser frame. */
  function Flashy(msg: Msg): string
    requires msg.Chooser?
  {
    Decimal.IntToString(msg.currentIndex) + "/" + Decimal.IntToString(msg.lastIndex)
  }

  /** The colour a colour message was built from, if it is one. */
  function ColorOf(msg: Msg): Option<int> {
    match msg
    case OneByOne(_, c, _) => Some(c)
    case ChonkySlide(_, c, _, _) => Some(c)
    case GPTThinking(f) => Some(f.colorCycle)
    case IconInvader(_, c) => Some(c)
    case _ => None
  }

  /** The flashing time of a flashing announcement. */
  function Time(msg: Msg): int
    requires msg.NowPlayingAnnouncement? || msg.CustomFlashy?
  {
    if msg.CustomFlashy? then msg.time else 200
  }

  /** The keyboard echo shows at most the last 19 typed characters and a
      cursor, so it is at most 20 characters long; short input is shown
      whole. */
  lemma KeyboardEchoShape(input: string, warn: bool)
    ensures var e := if warn then KeyboardInputWarning(input) else KeyboardInput(input);
      && var s := Str(e);
      && |s| <= 20 && |s| >= 1 && s[|s| - 1] == '_'
      && s[..|s| - 1] == input[|input| - (|s| - 1)..]
      && (|input| <= 19 ==> s == input + "_")
      && Mode(e) == (if warn then 'W' else 'I')
      && TypeOf(e) == KEYBOARD
  {
    var e := if warn then KeyboardInputWarning(input) else KeyboardInput(input);
    var s := Str(e);
    assert s[..|s| - 1] == TakeLast(input, 19);
  }

  /** The chooser shows the wrapped entry's text, and its position string
      splits at the `/` back into the two numbers. */
  lemma ChooserShape(ci: int, li: int, m: Marquee)
    requires Decimal.IsInt32(ci) && Decimal.IsInt32(li)
    ensures Str(Chooser(ci, li, m)) == m.str
    ensures var parts := Split(Flashy(Chooser(ci, li, m)), '/');
      |parts| == 2 && Decimal.ParseInt(parts[0]) == Some(ci) && Decimal.ParseInt(parts[1]) == Some(li)
  {
    var a := Decimal.IntToString(ci);
    var b := Decimal.IntToString(li);
    IntToStringHasNoSlash(ci);
    IntToStringHasNoSlash(li);
    SplitAtFirst(a, '/', b);
    SplitOfDelimiterFree(b, '/');
    Decimal.ParseIntToString(ci);
    Decimal.ParseIntToString(li);
  }

  lemma IntToStringHasNoSlash(n: int)
    ensures forall i :: 0 <= i < |Decimal.IntToString(n)| ==> Decimal.IntToString(n)[i] != '/'
  {
    var s := if n < 0 then Decimal.NatToString(-n) else Decimal.NatToString(n);
    assert forall i :: 0 <= i < |s| ==> Decimal.IsDigit(s[i]);
  }

  /** A brightness shift carries its amount as decimal text, which reads
      back as the amount; no amount is the empty text. */
  lemma BrightnessShiftShape(amount: Option<int>)
    requires amount.Some? ==> Decimal.IsInt32(amount.value)
    ensures Subtype(BrightnessShift(amount)) == 'B' && TypeOf(BrightnessShift(amount)) == UTILITY
    ensures amount.None? ==> Str(BrightnessShift(amount)) == ""
    ensures amount.Some? ==> Decimal.ParseInt(Str(BrightnessShift(amount))) == amount
  {
    if amount.Some? {
      Decimal.ParseIntToString(amount.value);
    }
  }

  /** The microphone toggles: "E" and "D" with subtype 'M'. */
  lemma MicShape()
    ensures Str(EnableMic) == "E" && Subtype(EnableMic) == 'M'
    ensures Str(DisableMic) == "D" && Subtype(DisableMic) == 'M'
    ensures Str(EnableMic) != Str(DisableMic)
  {
  }

  // ---------------------------------------------------------------------
  // JSON type dispatch

  /** The class the JSON reader asks Gson to build. */
  datatype Shape =
    | AsChonkySlide | AsOneByOne | AsFlashing | AsCountDown | AsUtility | AsChooser
    | AsKeyboardEcho | AsStarfield | AsNowPlayingTrack | AsChonky | AsIcon(icon: Icon) | AsUser

  /** The icon whose one-character text is `s`, if any. */
  function IconOfCode(s: string): (r: Option<Icon>)
    ensures r.Some? ==> IconCode(r.value) == s
  {
    if s == "1" then Some(Enemy1)
    else if s == "2" then Some(Enemy2)
    else if s == "X" then Some(Explosion)
    else if s == "A" then Some(Anjuna)
    else if s == "B" then Some(Baaahs)
    else if s == "D" then Some(Dreamstate)
    else if s == "E" then Some(Edc)
    else None
  }

  /** `MessageSerializer.deserialize`, given the JSON object's `type` and
      `str` strings: the type code picks the class, icons are told apart by
      their text, and an unknown icon falls back to `User`. */
  function DeserializeShape(typeField: string, strField: string): Shape {
    match DecodeType(typeField)
    case CHONKY_SLIDE => AsChonkySlide
    case ONE_BY_ONE => AsOneByOne
    case FLASHY => AsFlashing
    case COUNTDOWN => AsCountDown
    case UTILITY => AsUtility
    case CHOOSER => AsChooser
    case KEYBOARD => AsKeyboardEcho
    case STARFIELD => AsStarfield
    case TRACKID => AsNowPlayingTrack
    case CHONKYMARQUEE => AsChonky
    case ICON =>
      (match IconOfCode(strField)
       case Some(i) => AsIcon(i)
       case None => AsUser)
    case DEFAULT => AsUser
  }

  /** The class a message is read back as after it has been written. */
  function ReadBackShape(msg: Msg): Shape {
    match msg
    case Rotation(m) => if m.mtype == CHONKYMARQUEE then AsChonky else AsUser
    case Starfield(_) => AsStarfield
    case NowPlayingTrack(_) => AsNowPlayingTrack
    case OneByOne(_, _, _) => AsOneByOne
    case ChonkySlide(_, _, _, _) => AsChonkySlide
    case GPTThinking(_) => AsChonkySlide
    case IconInvader(i, _) => AsIcon(i)
    case NowPlayingAnnouncement => AsFlashing
    case CustomFlashy(_, _) => AsFlashing
    case NewMessageAnnouncement => AsCountDown
    case EnableMic => AsUtility
    case DisableMic => AsUtility
    case BrightnessShift(_) => AsUtility
    case Chooser(_, _, _) => AsChooser
    case KeyboardInput(_) => AsKeyboardEcho
    case KeyboardInputWarning(_) => AsKeyboardEcho
  }

  lemma IconCodeRoundTrip(i: Icon)
    ensures IconOfCode(IconCode(i)) == Some(i)
  {
  }

  /** Writing a message's code and text and dispatching on them picks the
      class `ReadBackShape` names. */
  lemma DeserializeWritten(msg: Msg)
    requires msg.Rotation? ==> msg.m.mtype == DefaultType(msg.m.kind)
    ensures DeserializeShape([Code(TypeOf(msg))], Str(msg)) == ReadBackShape(msg)
  {
    DecodeTypeOfCode(TypeOf(msg), []);
    assert [Code(TypeOf(msg))] + [] == [Code(TypeOf(msg))];
    if msg.IconInvader? {
      IconCodeRoundTrip(msg.icon);
    }
  }

  /** The rotation classes come back as `User` or `Chonky`: a `GPTQuery`
      reads back as a `User` and a `GPTReply` as a `Chonky`. */
  lemma MarqueeReadBack(m: Marquee)
    requires m.mtype == DefaultType(m.kind)
    ensures m.kind == User || m.kind == GPTQuery ==> DeserializeShape([Code(m.mtype)], m.str) == AsUser
    ensures m.kind == Chonky || m.kind == GPTReply ==> DeserializeShape([Code(m.mtype)], m.str) == AsChonky
  {
    DeserializeWritten(Rotation(m));
  }
}
