/** The first generation of the sign software: one activity that keeps the
    list of sign strings itself (newest first), answers each read interrupt
    of the sign's controller with one frame whose leading control byte says
    how to show it, takes commands and new strings over the Bluetooth serial
    characteristic, and echoes a USB keyboard. */
module GattServerActivity {
  import opened Wrappers
  import opened Strings
  import Decimal
  import Seqs
  import TextFile

  const KEYBOARD_INPUT_TIMEOUT_MS: int := 30_000
  const KEYBOARD_INPUT_WARNING_MS: int := 7_000

  /** The leading control bytes of a frame. */
  const BEL: char := '\U{0007}'   // a string just received
  const SOH: char := '\U{0001}'   // the chooser
  const STX: char := '\U{0002}'   // switch the microphone on
  const ETX: char := '\U{0003}'   // switch the microphone off
  const EOT: char := '\U{0004}'   // keyboard echo, input time running out
  const ENQ: char := '\U{0005}'   // keyboard echo
  /** The chooser's separator is declared as `DLE`, but its value, 10, is a
      line feed. */
  const DLE: char := '\n'

  /** What a client reads before the first frame when no string is stored. */
  const PLACEHOLDER: string := "TRONCE"

  /** The activity's fields that the sign's behaviour depends on. */
  datatype State = State(
    strings: seq<string>,   // signStrings, newest first
    cur: int,               // currentStringIdx
    chooserIdx: int,
    alert: bool,            // shouldShowNewStringAlert
    chooser: bool,          // isChooserModeEnabled
    paused: bool,
    micOn: bool,
    sendMicChange: bool,
    startedAt: int,         // keyboardInputStartedAtMs
    input: string,          // keyboardStringBuilder
    shown: string)          // currentString: the last frame, as a client reads it

  /** Both indices point into the list, or are 0 when it is empty. */
  predicate InRange(strings: seq<string>, i: int) {
    0 <= i && (i < |strings| || i == 0)
  }

  predicate Inv(s: State) {
    InRange(s.strings, s.cur) && InRange(s.strings, s.chooserIdx)
  }

  // ---------------------------------------------------------------------
  // Frames on the wire

  datatype Frame =
    | Echo(text: string, warning: bool)
    | Nothing
    | Alert(text: string)
    | Choose(index: int, lastIndex: int, text: string)
    | MicChange(on: bool, text: string)
    | Plain(text: string)

  predicate IsControl(c: char) {
    c == BEL || c == SOH || c == STX || c == ETX || c == EOT || c == ENQ
  }

  /** The bytes of a frame: a control byte, then the payload. */
  function Encode(f: Frame): (b: string)
    ensures f.Plain? || f.Nothing? || (|b| > 0 && IsControl(b[0]))
  {
    match f
    case Echo(t, w) => [if w then EOT else ENQ] + t + "_"
    case Nothing => []
    case Alert(t) => [BEL] + t
    case Choose(i, l, t) => [SOH] + Decimal.IntToString(i) + "/" + Decimal.IntToString(l) + [DLE] + t
    case MicChange(on, t) => [if on then STX else ETX] + t
    case Plain(t) => t
  }

  /** How the controller reads a frame back. */
  function Decode(b: string): Option<Frame> {
    if |b| == 0 then Some(Nothing)
    else if b[0] == EOT || b[0] == ENQ then
      if |b| >= 2 && b[|b| - 1] == '_' then Some(Echo(b[1..|b| - 1], b[0] == EOT)) else None
    else if b[0] == BEL then Some(Alert(b[1..]))
    else if b[0] == SOH then DecodeChooser(b[1..])
    else if b[0] == STX || b[0] == ETX then Some(MicChange(b[0] == STX, b[1..]))
    else Some(Plain(b))
  }

  /** The chooser's payload: "index/lastIndex", the separator, the text. */
  function DecodeChooser(rest: string): Option<Frame> {
    var k := IndexOfChar(rest, DLE);
    if k == |rest| then None
    else
      var parts := Split(rest[..k], '/');
      if |parts| != 2 then None
      else
        match (Decimal.ParseInt(parts[0]), Decimal.ParseInt(parts[1]))
        case (Some(i), Some(l)) => Some(Choose(i, l, rest[k + 1..]))
        case _ => None
  }

  /** The frames a reader can tell apart: indices that are `Int`s, and a plain
      text that is not empty and does not start with a control byte. */
  predicate Distinguishable(f: Frame) {
    match f
    case Choose(i, l, _) => Decimal.IsInt32(i) && Decimal.IsInt32(l)
    case Plain(t) => |t| > 0 && !IsControl(t[0])
    case _ => true
  }

  /** A decimal numeral holds digits and a minus sign only. */
  lemma NumeralChars(n: int)
    ensures forall i :: 0 <= i < |Decimal.IntToString(n)| ==>
      Decimal.IsDigit(Decimal.IntToString(n)[i]) || Decimal.IntToString(n)[i] == '-'
  {
    var s := if n < 0 then Decimal.NatToString(-n) else Decimal.NatToString(n);
    assert forall i :: 0 <= i < |s| ==> Decimal.IsDigit(s[i]);
  }

  /** The position string holds no separator and splits at its `/` into
      the two numerals. */
  lemma PositionSplits(i: int, l: int)
    ensures var a, c := Decimal.IntToString(i), Decimal.IntToString(l);
      && Split(a + "/" + c, '/') == [a, c]
      && forall j :: 0 <= j < |a + "/" + c| ==> (a + "/" + c)[j] != DLE
  {
    var a, c := Decimal.IntToString(i), Decimal.IntToString(l);
    NumeralChars(i);
    NumeralChars(l);
    assert forall j :: 0 <= j < |a| ==> a[j] != '/' && a[j] != DLE;
    assert forall j :: 0 <= j < |c| ==> c[j] != '/' && c[j] != DLE;
    SplitAtFirst(a, '/', c);
    SplitOfDelimiterFree(c, '/');
  }

  lemma DecodeChooserFrame(i: int, l: int, t: string)
    requires Decimal.IsInt32(i) && Decimal.IsInt32(l)
    ensures DecodeChooser(Decimal.IntToString(i) + "/" + Decimal.IntToString(l) + [DLE] + t) == Some(Choose(i, l, t))
  {
    var head := Decimal.IntToString(i) + "/" + Decimal.IntToString(l);
    var rest := head + [DLE] + t;
    PositionSplits(i, l);
    assert IndexOfChar(rest, DLE) == |head| by {
      assert rest[|head|] == DLE;
      assert forall j :: 0 <= j < |head| ==> rest[j] == head[j];
    }
    assert rest[..|head|] == head;
    assert rest[|head| + 1..] == t;
    Decimal.ParseIntToString(i);
    Decimal.ParseIntToString(l);
  }

  lemma DecodeEchoFrame(t: string, w: bool)
    ensures Decode([if w then EOT else ENQ] + t + "_") == Some(Echo(t, w))
  {
    var b := [if w then EOT else ENQ] + t + "_";
    assert b[0] == (if w then EOT else ENQ) && b[|b| - 1] == '_';
    assert b[1..|b| - 1] == t;
  }

  lemma DecodeLeadFrame(lead: char, t: string)
    requires lead == BEL || lead == SOH || lead == STX || lead == ETX
    ensures var b := [lead] + t;
      && (lead == BEL ==> Decode(b) == Some(Alert(t)))
      && (lead == SOH ==> Decode(b) == DecodeChooser(t))
      && (lead == STX || lead == ETX ==> Decode(b) == Some(MicChange(lead == STX, t)))
  {
    var b := [lead] + t;
    assert b[0] == lead && b[1..] == t;
  }

  lemma DecodeChooseEncode(i: int, l: int, t: string)
    requires Decimal.IsInt32(i) && Decimal.IsInt32(l)
    ensures Decode(Encode(Choose(i, l, t))) == Some(Choose(i, l, t))
  {
    var p := Decimal.IntToString(i) + "/" + Decimal.IntToString(l) + [DLE] + t;
    assert Encode(Choose(i, l, t)) == [SOH] + p;
    assert Decode([SOH] + p) == DecodeChooser(p) by {
      DecodeLeadFrame(SOH, p);
    }
    assert DecodeChooser(p) == Some(Choose(i, l, t)) by {
      DecodeChooserFrame(i, l, t);
    }
  }

  /** Every frame the reader can tell apart reads back as itself. */
  lemma DecodeEncode(f: Frame)
    requires Distinguishable(f)
    ensures Decode(Encode(f)) == Some(f)
  {
    match f
    case Echo(t, w) =>
      DecodeEchoFrame(t, w);
    case Nothing =>
    case Alert(t) =>
      DecodeLeadFrame(BEL, t);
    case Choose(i, l, t) =>
      DecodeChooseEncode(i, l, t);
    case MicChange(on, t) =>
      DecodeLeadFrame(if on then STX else ETX, t);
    case Plain(t) =>
  }

  /** A blank stored string goes out as an empty frame, like an empty list:
      the two cannot be told apart on the wire. */
  lemma EmptyTextLooksLikeNothing()
    ensures Encode(Plain([])) == Encode(Nothing)
    ensures Decode(Encode(Plain([]))) == Some(Nothing)
  {
  }

  // ---------------------------------------------------------------------
  // The frame

  /** The frame the cascade picks, and the state after the picking. */
  function Pick(s: State, elapsed: int): (r: Result<(State, Frame)>)
    ensures Inv(s) ==> r.Ok?
    ensures r.Fail? ==> r.crash == IndexOutOfBounds
    ensures r.Ok? ==> var (s', f) := r.value;
      && s' == s.(alert := s'.alert, sendMicChange := s'.sendMicChange)
      && (f.Echo? <==> elapsed < KEYBOARD_INPUT_TIMEOUT_MS)
  {
    if elapsed < KEYBOARD_INPUT_TIMEOUT_MS then
      Ok((s, Echo(s.input, elapsed > KEYBOARD_INPUT_TIMEOUT_MS - KEYBOARD_INPUT_WARNING_MS)))
    else if |s.strings| == 0 then Ok((s, Nothing))
    else if s.alert then
      if 0 <= s.cur < |s.strings| then Ok((s.(alert := false), Alert(s.strings[s.cur])))
      else Fail(IndexOutOfBounds)
    else if s.chooser then
      if 0 <= s.chooserIdx < |s.strings| then
        Ok((s, Choose(s.chooserIdx, |s.strings| - 1, s.strings[s.chooserIdx])))
      else Fail(IndexOutOfBounds)
    else if s.sendMicChange then
      if 0 <= s.cur < |s.strings| then Ok((s.(sendMicChange := false), MicChange(s.micOn, s.strings[s.cur])))
      else Fail(IndexOutOfBounds)
    else if 0 <= s.cur < |s.strings| then Ok((s, Plain(s.strings[s.cur])))
    else Fail(IndexOutOfBounds)
  }

  /** After every frame the pointer moves on, unless paused. */
  function Advance(s: State): (s': State)
    ensures s' == s.(cur := s'.cur)
    ensures s.paused ==> s'.cur == s.cur
    ensures !s.paused && 0 <= s.cur < |s.strings| ==> s'.cur == (s.cur + 1) % |s.strings|
    ensures InRange(s.strings, s.cur) ==> InRange(s.strings, s'.cur)
  {
    if s.paused then s
    else s.(cur := if s.cur < |s.strings| - 1 then s.cur + 1 else 0)
  }

  /** One read interrupt at clock reading `now`: clear stale keyboard input,
      pick and send a frame, move the pointer. */
  function NextFrame(s: State, now: int): (r: Result<(State, Frame)>)
    ensures Inv(s) ==> r.Ok? && Inv(r.value.0)
    ensures r.Fail? ==> r.crash == IndexOutOfBounds
    ensures r.Ok? ==> var (s', f) := r.value;
      && s'.strings == s.strings && s'.chooserIdx == s.chooserIdx && s'.chooser == s.chooser
      && s'.paused == s.paused && s'.micOn == s.micOn && s'.startedAt == s.startedAt
      && s'.shown == Encode(f)
      && (f.Echo? <==> now - s.startedAt < KEYBOARD_INPUT_TIMEOUT_MS)
      && s'.input == (if now - s.startedAt > KEYBOARD_INPUT_TIMEOUT_MS then [] else s.input)
      && (s.paused ==> s'.cur == s.cur)
      && (!s.paused && 0 <= s.cur < |s.strings| ==> s'.cur == (s.cur + 1) % |s.strings|)
  {
    var elapsed := now - s.startedAt;
    var s1 := if elapsed > KEYBOARD_INPUT_TIMEOUT_MS then s.(input := []) else s;
    match Pick(s1, elapsed)
    case Fail(e) => Fail(e)
    case Ok((s2, f)) => Ok((Advance(s2).(shown := Encode(f)), f))
  }

  // ---------------------------------------------------------------------
  // Commands

  datatype Cmd = ChooseCmd | Prev | Next | First | Last | Delete | EndChoose | Pause | Unpause | MicOn | MicOff

  const COMMANDS: set<string> :=
    {"!choose", "!prev", "!next", "!first", "!last", "!delete", "!endchoose", "!pause", "!unpause", "!micOn", "!micOff"}

  /** The commands are matched exactly, case included; anything else is ignored. */
  function CommandOf(cmd: string): (c: Option<Cmd>)
    ensures c.None? <==> cmd !in COMMANDS
    ensures c == Some(Delete) <==> cmd == "!delete"
    ensures c == Some(Next) <==> cmd == "!next"
    ensures c == Some(Last) <==> cmd == "!last"
  {
    if cmd == "!choose" then Some(ChooseCmd)
    else if cmd == "!prev" then Some(Prev)
    else if cmd == "!next" then Some(Next)
    else if cmd == "!first" then Some(First)
    else if cmd == "!last" then Some(Last)
    else if cmd == "!delete" then Some(Delete)
    else if cmd == "!endchoose" then Some(EndChoose)
    else if cmd == "!pause" then Some(Pause)
    else if cmd == "!unpause" then Some(Unpause)
    else if cmd == "!micOn" then Some(MicOn)
    else if cmd == "!micOff" then Some(MicOff)
    else None
  }

  /** One step back, stopping at 0. */
  function StepBack(i: int): (j: int)
    ensures 0 <= j && (0 <= i ==> j <= i)
  {
    if i > 0 then i - 1 else 0
  }

  /** One step on, stopping at `lastIndex`. */
  function StepOn(i: int, lastIndex: int): (j: int)
    ensures j <= lastIndex && (0 <= i && 0 <= lastIndex ==> 0 <= j)
  {
    if i < lastIndex then i + 1 else lastIndex
  }

  /** `!delete`: removes the string under the chooser and re-clamps the
      chooser index, but not the rotation pointer. */
  function DeleteChosen(s: State): (r: Result<State>)
    ensures r.Fail? <==> !(0 <= s.chooserIdx < |s.strings|)
    ensures r.Fail? ==> r.crash == IndexOutOfBounds
    ensures r.Ok? ==> var s' := r.value;
      && s' == s.(strings := s'.strings, chooserIdx := s'.chooserIdx)
      && |s'.strings| == |s.strings| - 1
      && Seqs.InsertAt(s'.strings, s.chooserIdx, s.strings[s.chooserIdx]) == s.strings
      && (InRange(s'.strings, s'.chooserIdx) || |s'.strings| == 0)
  {
    if 0 <= s.chooserIdx < |s.strings| then
      var rest := Seqs.RemoveAt(s.strings, s.chooserIdx);
      Seqs.InsertRemove(s.strings, s.chooserIdx);
      var newLast := |rest| - 1;
      Ok(s.(strings := rest, chooserIdx := if s.chooserIdx >= newLast then newLast else s.chooserIdx))
    else Fail(IndexOutOfBounds)
  }

  /** What a command other than `!delete` does: it moves the indices and
      sets the flags, and leaves the list, the keyboard and the last frame
      alone. */
  function Control(s: State, c: Cmd): (s': State)
    requires c != Delete
    ensures s'.strings == s.strings && s'.alert == s.alert && s'.startedAt == s.startedAt
    ensures s'.input == s.input && s'.shown == s.shown
    ensures Inv(s) && (|s.strings| > 0 || (c != Next && c != Last)) ==> Inv(s')
  {
    var lastIndex := |s.strings| - 1;
    match c
    case ChooseCmd => s.(chooserIdx := s.cur, chooser := true)
    case Prev => s.(chooserIdx := StepBack(s.chooserIdx), cur := StepBack(s.cur))
    case Next => s.(chooserIdx := StepOn(s.chooserIdx, lastIndex), cur := StepOn(s.cur, lastIndex))
    case First => s.(chooserIdx := 0, cur := 0)
    case Last => s.(chooserIdx := lastIndex, cur := lastIndex)
    case EndChoose => s.(cur := s.chooserIdx, chooser := false)
    case Pause => s.(paused := true)
    case Unpause => s.(paused := false)
    case MicOn => s.(micOn := true, sendMicChange := true)
    case MicOff => s.(micOn := false, sendMicChange := true)
  }

  function Apply(s: State, c: Cmd): (r: Result<State>)
    ensures r.Fail? <==> c == Delete && !(0 <= s.chooserIdx < |s.strings|)
  {
    if c == Delete then DeleteChosen(s) else Ok(Control(s, c))
  }

  /** `processUartCommand`. */
  function Command(s: State, cmd: string): (r: Result<State>)
    ensures cmd !in COMMANDS ==> r == Ok(s)
    ensures r.Fail? <==> cmd == "!delete" && !(0 <= s.chooserIdx < |s.strings|)
  {
    match CommandOf(cmd)
    case None => Ok(s)
    case Some(c) => Apply(s, c)
  }

  // ---------------------------------------------------------------------
  // New strings

  /** A `++` starts at `i`. */
  predicate PairAt(s: string, i: int) {
    0 <= i && i + 1 < |s| && s[i] == '+' && s[i + 1] == '+'
  }

  /** Index of the first `++`, or `|s|`. */
  function FirstPair(s: string): (i: nat)
    ensures i <= |s|
    ensures i < |s| ==> PairAt(s, i)
    ensures forall k :: 0 <= k < i ==> !PairAt(s, k)
  {
    if |s| < 2 then |s|
    else if s[0] == '+' && s[1] == '+' then 0
    else
      var j := FirstPair(s[1..]);
      assert forall k :: 1 <= k <= j ==> (PairAt(s, k) <==> PairAt(s[1..], k - 1));
      1 + j
  }

  /** `split("++")`: the pieces between successive, non-overlapping `++`. */
  function SplitPlusPlus(s: string): (parts: seq<string>)
    ensures |parts| >= 1
    decreases |s|
  {
    var i := FirstPair(s);
    if i == |s| then [s] else [s[..i]] + SplitPlusPlus(s[i + 2..])
  }

  function JoinPlusPlus(parts: seq<string>): string {
    if |parts| == 0 then []
    else if |parts| == 1 then parts[0]
    else parts[0] + "++" + JoinPlusPlus(parts[1..])
  }

  /** Splitting on `++` and joining the pieces back gives the string. */
  lemma {:induction false} JoinSplitPlusPlus(s: string)
    ensures JoinPlusPlus(SplitPlusPlus(s)) == s
    decreases |s|
  {
    var i := FirstPair(s);
    if i < |s| {
      var parts, rest := SplitPlusPlus(s), SplitPlusPlus(s[i + 2..]);
      assert parts == [s[..i]] + rest;
      assert parts[1..] == rest;
      assert JoinPlusPlus(parts) == s[..i] + "++" + JoinPlusPlus(rest);
      JoinSplitPlusPlus(s[i + 2..]);
      assert s == s[..i] + "++" + s[i + 2..];
    } else {
      assert SplitPlusPlus(s) == [s];
    }
  }

  /** No piece holds a `++`. */
  lemma {:induction false} PiecesHaveNoPair(s: string)
    ensures forall k, j :: 0 <= k < |SplitPlusPlus(s)| ==> !PairAt(SplitPlusPlus(s)[k], j)
    decreases |s|
  {
    var i := FirstPair(s);
    if i < |s| {
      PiecesHaveNoPair(s[i + 2..]);
      assert forall j :: PairAt(s[..i], j) ==> PairAt(s, j);
    }
  }

  /** The pieces of a received text that are kept. */
  function Pieces(text: string): seq<string> {
    NonBlank(SplitPlusPlus(text))
  }

  /** `pushStringOnList` for each item in turn: each lands at index 0. */
  function PushEach(strings: seq<string>, items: seq<string>): seq<string>
    decreases |items|
  {
    if |items| == 0 then strings else PushEach([items[0]] + strings, items[1..])
  }

  /** Pushing items one by one onto the head leaves them in reverse order. */
  lemma {:induction false} PushEachReverses(strings: seq<string>, items: seq<string>)
    ensures PushEach(strings, items) == Seqs.Reverse(items) + strings
    decreases |items|
  {
    if |items| > 0 {
      PushEachReverses([items[0]] + strings, items[1..]);
      assert Seqs.Reverse(items) == Seqs.Reverse(items[1..]) + [items[0]];
    }
  }

  /** `processNewReceivedString`: the kept pieces go to the head in their
      original order, the pointer goes to the first of them, and the next
      frame carries the alert. */
  function Receive(s: State, text: string): (s': State)
    ensures s'.strings == Pieces(text) + s.strings
    ensures s'.cur == 0 && s'.alert
    ensures s' == s.(strings := s'.strings, cur := 0, alert := true)
    ensures Inv(s) ==> Inv(s')
  {
    var ps := Pieces(text);
    PushEachReverses(s.strings, Seqs.Reverse(ps));
    Seqs.ReverseReverse(ps);
    s.(strings := PushEach(s.strings, Seqs.Reverse(ps)), cur := 0, alert := true)
  }

  /** A write to the serial characteristic: a command when it starts with `!`,
      otherwise new strings. */
  function Write(s: State, value: string): (r: Result<State>)
    ensures |value| > 0 && value[0] == '!' ==> r == Command(s, value)
    ensures !(|value| > 0 && value[0] == '!') ==> r == Ok(Receive(s, value))
  {
    if |value| > 0 && value[0] == '!' then Command(s, value) else Ok(Receive(s, value))
  }

  // ---------------------------------------------------------------------
  // The keyboard

  datatype Key = Enter | Del | Space | Printing(c: char) | Other

  /** `processNewKeyboardKey`: every key restarts the input clock. */
  function TypeKey(s: State, c: char, now: int): (s': State)
    ensures |s'.input| == |s.input| + 1 && s'.input[..|s.input|] == s.input && s'.input[|s.input|] == c
    ensures s' == s.(input := s'.input, startedAt := now)
  {
    s.(startedAt := now, input := s.input + [c])
  }

  /** `deleteKey`: drops the last character; on empty input it ends the
      echo instead. */
  function DeleteKey(s: State): (s': State)
    ensures |s.input| == 0 ==> s' == s.(startedAt := -1)
    ensures |s.input| > 0 ==> s' == s.(input := s'.input) && s'.input + [s.input[|s.input| - 1]] == s.input
  {
    if |s.input| == 0 then s.(startedAt := -1)
    else s.(input := s.input[..|s.input| - 1])
  }

  /** `submitKeyboardInput`: ends the echo; non-blank input is received like
      a written string and cleared, blank input is kept. */
  function Submit(s: State): (s': State)
    ensures IsBlank(s.input) ==> s' == s.(startedAt := -1)
    ensures !IsBlank(s.input) ==>
      && s'.strings == Pieces(s.input) + s.strings && s'.input == [] && s'.alert && s'.cur == 0
      && s' == s.(strings := s'.strings, input := [], startedAt := -1, cur := 0, alert := true)
    ensures Inv(s) ==> Inv(s')
  {
    var t := s.(startedAt := -1);
    if !IsBlank(s.input) then Receive(t, s.input).(input := []) else t
  }

  /** `dispatchKeyEvent` on a key press. */
  function DispatchKey(s: State, k: Key, now: int): (s': State)
    ensures k.Other? ==> s' == s
    ensures k.Space? ==> s' == TypeKey(s, ' ', now)
    ensures Inv(s) ==> Inv(s')
  {
    match k
    case Enter => Submit(s)
    case Del => DeleteKey(s)
    case Space => TypeKey(s, ' ', now)
    case Printing(c) => TypeKey(s, c, now)
    case Other => s
  }

  // ---------------------------------------------------------------------
  // Persistence and start-up

  /** `loadStrings`: the file's lines, last line first; blank lines are kept. */
  function Load(file: string): (strings: seq<string>)
    ensures forall i :: 0 <= i < |strings| ==> TextFile.IsSingleLine(strings[i])
  {
    Seqs.Reverse(TextFile.ReaderLines(file))
  }

  /** `saveStrings`: oldest first, one per line. */
  function Save(strings: seq<string>): string {
    TextFile.WriteFile(Seqs.Reverse(strings))
  }

  /** Saving and loading gives the list back, blank strings included,
      provided no string holds a line break. */
  lemma SaveLoadRoundTrip(strings: seq<string>)
    requires forall i :: 0 <= i < |strings| ==> TextFile.IsSingleLine(strings[i])
    ensures Load(Save(strings)) == strings
  {
    var rev := Seqs.Reverse(strings);
    assert forall i :: 0 <= i < |rev| ==> rev[i] == strings[|strings| - 1 - i];
    TextFile.ReadWriteRoundTrip(rev);
    Seqs.ReverseReverse(strings);
  }

  /** The state after `onCreate`. */
  function Init(file: string): (s: State)
    ensures s.strings == Load(file) && Inv(s)
    ensures s.alert && s.micOn && !s.chooser && !s.paused && !s.sendMicChange && s.input == []
    ensures |s.strings| > 0 ==> s.shown == s.strings[0]
    ensures |s.strings| == 0 ==> s.shown == PLACEHOLDER
  {
    var strings := Load(file);
    State(strings, 0, 0, true, false, false, true, false, 0, [],
          if |strings| > 0 then strings[0] else PLACEHOLDER)
  }

  // ---------------------------------------------------------------------
  // Properties

  /** Once the keyboard is quiet, a non-empty list yields, in this order of
      priority, the alert, the chooser, the microphone switch or the plain
      current string; the alert and the microphone flag are used up. */
  lemma QuietFrame(s: State, now: int)
    requires Inv(s) && |s.strings| > 0 && now - s.startedAt >= KEYBOARD_INPUT_TIMEOUT_MS
    ensures var r := NextFrame(s, now);
      && r.Ok? && !r.value.0.alert
      && r.value.0.sendMicChange == (s.sendMicChange && (s.alert || s.chooser))
      && r.value.1 == (if s.alert then Alert(s.strings[s.cur])
                       else if s.chooser then Choose(s.chooserIdx, |s.strings| - 1, s.strings[s.chooserIdx])
                       else if s.sendMicChange then MicChange(s.micOn, s.strings[s.cur])
                       else Plain(s.strings[s.cur]))
  {
  }

  /** A received string is shown next with the alert, and only once: the
      frame after it is no alert. */
  lemma AlertShownOnce(s: State, text: string, now: int, later: int)
    requires Inv(s) && |Pieces(text)| > 0
    requires now - s.startedAt >= KEYBOARD_INPUT_TIMEOUT_MS && later - s.startedAt >= KEYBOARD_INPUT_TIMEOUT_MS
    ensures var r := NextFrame(Receive(s, text), now);
      && r.Ok? && r.value.1 == Alert(Pieces(text)[0]) && !r.value.0.alert
      && NextFrame(r.value.0, later).Ok? && !NextFrame(r.value.0, later).value.1.Alert?
  {
    var s1 := Receive(s, text);
    assert s1.strings[0] == Pieces(text)[0];
    QuietFrame(s1, now);
    var s2 := NextFrame(s1, now).value.0;
    assert Inv(s2) && s2.strings == s1.strings && s2.startedAt == s.startedAt;
    QuietFrame(s2, later);
  }

  /** A microphone switch is sent once, on the next frame that is neither an
      echo, an alert nor the chooser. */
  lemma MicChangeSentOnce(s: State, on: bool, now: int, later: int)
    requires Inv(s) && |s.strings| > 0 && !s.alert && !s.chooser
    requires now - s.startedAt >= KEYBOARD_INPUT_TIMEOUT_MS && later - s.startedAt >= KEYBOARD_INPUT_TIMEOUT_MS
    ensures var s1 := Command(s, if on then "!micOn" else "!micOff").value;
      var r := NextFrame(s1, now);
      && r.Ok? && r.value.1 == MicChange(on, s.strings[s.cur])
      && NextFrame(r.value.0, later).Ok? && NextFrame(r.value.0, later).value.1.Plain?
  {
    var cmd := if on then "!micOn" else "!micOff";
    assert CommandOf(cmd) == Some(if on then MicOn else MicOff);
    var s1 := s.(micOn := on, sendMicChange := true);
    assert Command(s, cmd) == Ok(s1);
    QuietFrame(s1, now);
    var s2 := NextFrame(s1, now).value.0;
    assert Inv(s2) && s2.strings == s.strings && s2.startedAt == s.startedAt;
    assert !s2.alert && !s2.chooser && !s2.sendMicChange;
    QuietFrame(s2, later);
  }

  /** The chooser frame carries the chooser index and the last index ahead of
      the chosen text, and reads back as such. */
  lemma ChooserFrameReadsBack(s: State, now: int)
    requires Inv(s) && |s.strings| > 0 && !s.alert && s.chooser
    requires now - s.startedAt >= KEYBOARD_INPUT_TIMEOUT_MS
    requires Decimal.IsInt32(|s.strings|)
    ensures var r := NextFrame(s, now);
      && r.Ok? && r.value.1 == Choose(s.chooserIdx, |s.strings| - 1, s.strings[s.chooserIdx])
      && Decode(r.value.0.shown) == Some(r.value.1)
  {
    DecodeEncode(Choose(s.chooserIdx, |s.strings| - 1, s.strings[s.chooserIdx]));
  }

  /** A key press is echoed, whole, on every frame of the next 30 seconds,
      with the warning byte after 23 seconds; the pointer still moves on. */
  lemma KeyEchoed(s: State, c: char, now: int, t: int)
    requires Inv(s) && t - now < KEYBOARD_INPUT_TIMEOUT_MS
    ensures var r := NextFrame(TypeKey(s, c, now), t);
      && r.Ok? && r.value.1 == Echo(s.input + [c], t - now > KEYBOARD_INPUT_TIMEOUT_MS - KEYBOARD_INPUT_WARNING_MS)
      && (!s.paused && |s.strings| > 0 ==> r.value.0.cur == (s.cur + 1) % |s.strings|)
  {
  }

  /** More than 30 seconds after the last key the input is discarded; at
      exactly 30 seconds there is no echo, but the input is still kept. */
  lemma KeyboardTimeout(s: State, now: int)
    requires Inv(s) && now - s.startedAt >= KEYBOARD_INPUT_TIMEOUT_MS
    ensures var r := NextFrame(s, now);
      && r.Ok? && !r.value.1.Echo?
      && (now - s.startedAt == KEYBOARD_INPUT_TIMEOUT_MS ==> r.value.0.input == s.input)
      && (now - s.startedAt > KEYBOARD_INPUT_TIMEOUT_MS ==> r.value.0.input == [])
  {
  }

  /** Deleting right after a key press takes the character back. */
  lemma DeleteUndoesKey(s: State, c: char, now: int)
    ensures DeleteKey(TypeKey(s, c, now)) == s.(startedAt := now)
  {
    assert (s.input + [c])[..|s.input|] == s.input;
  }

  /** A submitted non-blank input is shown next, with the alert, from its
      first kept piece. */
  lemma SubmitShownNext(s: State, now: int)
    requires Inv(s) && |Pieces(s.input)| > 0 && now + 1 >= KEYBOARD_INPUT_TIMEOUT_MS
    ensures !IsBlank(s.input)
    ensures var r := NextFrame(Submit(s), now);
      && r.Ok? && r.value.1 == Alert(Pieces(s.input)[0]) && r.value.0.input == []
  {
    if IsBlank(s.input) {
      BlankHasNoPieces(s.input);
    }
    var s1 := Submit(s);
    assert s1.strings[0] == Pieces(s.input)[0];
  }

  /** A blank text holds no `++`, so it is one blank piece and nothing is kept. */
  lemma BlankHasNoPieces(text: string)
    requires IsBlank(text)
    ensures Pieces(text) == []
  {
    assert FirstPair(text) == |text|;
  }

  /** When no piece is blank, the stored strings joined with `++` are the
      received text. */
  lemma ReceiveRoundTrip(s: State, text: string)
    requires forall k :: 0 <= k < |SplitPlusPlus(text)| ==> !IsBlank(SplitPlusPlus(text)[k])
    ensures var s' := Receive(s, text);
      JoinPlusPlus(s'.strings[..|SplitPlusPlus(text)|]) == text
  {
    var s' := Receive(s, text);
    JoinSplitPlusPlus(text);
    assert s'.strings[..|SplitPlusPlus(text)|] == SplitPlusPlus(text);
  }

  /** `!choose` then `!endchoose` returns to where the rotation was. */
  lemma ChooseEndChoose(s: State)
    requires Inv(s)
    ensures var s1 := Command(s, "!choose");
      && s1.Ok? && s1.value.chooser && s1.value.chooserIdx == s.cur
      && Command(s1.value, "!endchoose") == Ok(s.(chooserIdx := s.cur, chooser := false))
  {
    assert CommandOf("!choose") == Some(ChooseCmd);
    assert CommandOf("!endchoose") == Some(EndChoose);
  }

  /** `!prev` then `!next` returns both indices, unless one was at 0. */
  lemma PrevThenNext(s: State)
    requires Inv(s) && 0 < s.cur && 0 < s.chooserIdx
    ensures var s1 := Command(s, "!prev");
      && s1.Ok? && Command(s1.value, "!next") == Ok(s)
  {
    assert CommandOf("!prev") == Some(Prev);
    assert CommandOf("!next") == Some(Next);
  }

  /** `!delete` re-clamps the chooser index but not the rotation pointer:
      deleting the first string while the pointer is on the last one leaves
      the pointer past the end, and the next frame fails. */
  lemma DeleteStrandsPointer(now: int)
    ensures var s := State(["a", "b", "c"], 2, 0, false, false, false, true, false,
                           now - KEYBOARD_INPUT_TIMEOUT_MS, [], []);
      && Inv(s)
      && Command(s, "!delete").Ok?
      && Command(s, "!delete").value.strings == ["b", "c"]
      && !Inv(Command(s, "!delete").value)
      && NextFrame(Command(s, "!delete").value, now) == Fail(IndexOutOfBounds)
  {
    var s := State(["a", "b", "c"], 2, 0, false, false, false, true, false,
                   now - KEYBOARD_INPUT_TIMEOUT_MS, [], []);
    assert CommandOf("!delete") == Some(Delete);
    assert Seqs.RemoveAt(s.strings, 0) == ["b", "c"];
  }

  /** On an empty list `!last` sets the chooser index to -1, which a later
      string does not repair: with the chooser on, the frame after the alert
      fails. */
  lemma EmptyListChooserFails(now: int)
    ensures var s := State([], 0, 0, false, true, false, true, false,
                           now - KEYBOARD_INPUT_TIMEOUT_MS, [], []);
      && Inv(s)
      && Command(s, "!last").Ok?
      && var s1 := Receive(Command(s, "!last").value, "hi");
      && s1.chooserIdx == -1 && s1.strings == ["hi"]
      && NextFrame(s1, now).Ok? && NextFrame(s1, now).value.1 == Alert("hi")
      && NextFrame(NextFrame(s1, now).value.0, now) == Fail(IndexOutOfBounds)
  {
    var s := State([], 0, 0, false, true, false, true, false,
                   now - KEYBOARD_INPUT_TIMEOUT_MS, [], []);
    assert CommandOf("!last") == Some(Last);
    assert FirstPair("hi") == 2;
    assert SplitPlusPlus("hi") == ["hi"];
    assert !IsBlank("hi") by {
      assert !IsWhitespace("hi"[0]);
    }
    assert Pieces("hi") == ["hi"];
  }
}
