/** The first-generation message classes: every message is a string and a
    one-character type code; colour messages carry the red, green and blue
    channels of their colour; the keyboard echo is the whole input with a
    cursor. */
module LegacyMessage {
  import opened Wrappers
  import opened Strings
  import Decimal
  import Message

  /** The vertical tab, declared as a byte: interpolated into a string
      template it is written as its decimal value. */
  const VT_BYTE: int := 11

  /** The default hold time of the colour messages. */
  const DEFAULT_DELAY_MS: int := 500

  datatype LegacyMsg =
    | UserMessage(text: string)
    | OneByOneMessage(text: string, color: int, delayMs: int)
    | ChonkySlide(text: string, colorCycle: int, delayMs: int)
    | NewMessageAnnouncement
    | NowPlayingAnnouncement
    | EnableMic
    | DisableMic
    | Chooser(currentIndex: int, lastIndex: int, current: string)
    | Input(currentInput: string)
    | InputWarning(currentInput: string)

  /** The `string` each message is sent with. */
  function Str(m: LegacyMsg): string {
    match m
    case UserMessage(t) => t
    case OneByOneMessage(t, _, _) => t
    case ChonkySlide(t, _, _) => t
    case NewMessageAnnouncement => "NEW MSG IN"
    case NowPlayingAnnouncement => "NOW" + Decimal.IntToString(VT_BYTE) + "PLAYING"
    case EnableMic => "E"
    case DisableMic => "D"
    case Chooser(_, _, s) => s
    case Input(s) => s + "_"
    case InputWarning(s) => s + "_"
  }

  /** The `type` each message is sent with. Each code names one class. */
  function TypeCode(m: LegacyMsg): (c: char)
    ensures c == 'D' <==> m.UserMessage?
    ensures c == 'O' <==> m.OneByOneMessage?
    ensures c == 'C' <==> m.ChonkySlide?
    ensures c == 'F' <==> m.NewMessageAnnouncement? || m.NowPlayingAnnouncement?
    ensures c == 'U' <==> m.EnableMic? || m.DisableMic?
    ensures c == 'H' <==> m.Chooser?
    ensures c == 'K' <==> m.Input? || m.InputWarning?
  {
    match m
    case UserMessage(_) => 'D'
    case OneByOneMessage(_, _, _) => 'O'
    case ChonkySlide(_, _, _) => 'C'
    case NewMessageAnnouncement => 'F'
    case NowPlayingAnnouncement => 'F'
    case EnableMic => 'U'
    case DisableMic => 'U'
    case Chooser(_, _, _) => 'H'
    case Input(_) => 'K'
    case InputWarning(_) => 'K'
  }

  /** The subtype of a utility message. */
  function Subtype(m: LegacyMsg): char
    requires m.EnableMic? || m.DisableMic?
  {
    'M'
  }

  /** The mode of a keyboard echo. */
  function Mode(m: LegacyMsg): char
    requires m.Input? || m.InputWarning?
  {
    if m.Input? then 'I' else 'W'
  }

  /** The red, green and blue channels of a colour message. */
  function Channels(m: LegacyMsg): (rgb: (int, int, int))
    requires m.OneByOneMessage? || m.ChonkySlide?
    ensures 0 <= rgb.0 < 0x100 && 0 <= rgb.1 < 0x100 && 0 <= rgb.2 < 0x100
    ensures var c := if m.OneByOneMessage? then m.color else m.colorCycle;
      rgb.0 * 0x1_0000 + rgb.1 * 0x100 + rgb.2 == c % 0x100_0000
  {
    var c := if m.OneByOneMessage? then m.color else m.colorCycle;
    Message.ChannelsDecompose(c);
    (Message.Red(c), Message.Green(c), Message.Blue(c))
  }

  /** The chooser's position string. */
  function Flashy(m: LegacyMsg): string
    requires m.Chooser?
  {
    Decimal.IntToString(m.currentIndex) + "/" + Decimal.IntToString(m.lastIndex)
  }

  // ---------------------------------------------------------------------
  // Properties

  /** The echo is the whole input and a cursor, however long: dropping the
      cursor gives the input back. */
  lemma EchoShape(input: string, warn: bool)
    ensures var e := if warn then InputWarning(input) else Input(input);
      && var s := Str(e);
      && |s| == |input| + 1 && s[|s| - 1] == '_' && s[..|s| - 1] == input
      && Mode(e) == (if warn then 'W' else 'I') && TypeCode(e) == 'K'
  {
    var s := input + "_";
    assert s[..|s| - 1] == input;
  }

  /** The chooser shows the wrapped text, and its position string splits at
      the `/` back into the two numbers. */
  lemma ChooserShape(ci: int, li: int, text: string)
    requires Decimal.IsInt32(ci) && Decimal.IsInt32(li)
    ensures Str(Chooser(ci, li, text)) == text
    ensures var parts := Split(Flashy(Chooser(ci, li, text)), '/');
      |parts| == 2 && Decimal.ParseInt(parts[0]) == Some(ci) && Decimal.ParseInt(parts[1]) == Some(li)
  {
    Message.ChooserShape(ci, li, Message.NewMarquee(Message.User, text));
  }

  /** The now-playing announcement reads "NOW11PLAYING": the byte is written
      as a number, so, unlike the later classes, no vertical tab is sent. */
  lemma NowPlayingText()
    ensures Str(NowPlayingAnnouncement) == "NOW11PLAYING"
    ensures Message.VT !in Str(NowPlayingAnnouncement)
  {
    assert Decimal.IntToString(11) == "11" by {
      assert Decimal.NatToString(11) == Decimal.NatToString(1) + [Decimal.DigitChar(1)];
    }
  }

  /** The announcements and the microphone toggles are fixed texts that
      tell each other apart. */
  lemma FixedTexts()
    ensures Str(NewMessageAnnouncement) == "NEW MSG IN"
    ensures Str(EnableMic) == "E" && Str(DisableMic) == "D" && Subtype(EnableMic) == Subtype(DisableMic)
    ensures Str(NewMessageAnnouncement) != Str(NowPlayingAnnouncement)
  {
    NowPlayingText();
  }
}
