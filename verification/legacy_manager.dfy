/** The first-generation scheduler. The rotation holds plain user texts;
    the keyboard is handled inline in the frame; there is no language
    model, and a shown one-time message leaves nothing behind. Otherwise the
    cascade is the live one: chooser, keyboard echo, queue (advertisements
    when both lists are empty), rotation with an advertisement every
    `advertiseEvery` steps. */
module LegacyManager {
  import opened Wrappers
  import opened Strings
  import opened Message
  import opened Platform
  import KV = KeyboardViewModel
  import KM = KeyboardManager
  import MM = MessageManager
  import MessageRepository
  import AdScript
  import StringExt
  import Decimal
  import Seqs
  import TextFile

  /** The fields of the legacy manager. */
  datatype State = State(
    users: seq<string>,
    queue: seq<Msg>,
    ads: seq<Msg>,
    played: seq<Track>,
    nowPlaying: Option<string>,
    idx: int,
    chooser: bool,
    paused: bool,
    advertiseEvery: int,
    usrMsgCount: int,
    kb: KV.Kb)

  /** The pointer is on a text, or at 0 or -1 when there is none. */
  predicate PointerOk(users: seq<string>, idx: int) {
    if |users| == 0 then -1 <= idx <= 0 else 0 <= idx < |users|
  }

  /** What every event keeps: the pointer is on a text (or at 0 or -1 when
      there is none) and at most five distinct tracks are remembered. */
  predicate Inv(s: State) {
    && PointerOk(s.users, s.idx)
    && |s.played| <= MM.MAX_PLAYED_TRACKS_MEMORY + 1
    && MM.Distinct(s.played)
  }

  // ---------------------------------------------------------------------
  // Loading and saving

  /** `loadUserMessages`: the non-blank lines of the file, newest (last)
      first. */
  function LoadUserMessages(file: string): (users: seq<string>)
    ensures forall i :: 0 <= i < |users| ==> !IsBlank(users[i]) && TextFile.IsSingleLine(users[i])
  {
    var kept := NonBlank(TextFile.ReaderLines(file));
    Seqs.Reverse(kept)
  }

  /** `saveUserMessages`: the texts written oldest first, one per line. */
  function SaveUserMessages(users: seq<string>): string {
    TextFile.WriteFile(Seqs.Reverse(users))
  }

  /** Saving and loading gives the rotation back, in order, when every text
      is non-blank and holds no line break. */
  lemma SaveLoadRoundTrip(users: seq<string>)
    requires forall i :: 0 <= i < |users| ==> !IsBlank(users[i]) && TextFile.IsSingleLine(users[i])
    ensures LoadUserMessages(SaveUserMessages(users)) == users
  {
    var rev := Seqs.Reverse(users);
    assert forall i :: 0 <= i < |rev| ==> rev[i] == users[|users| - 1 - i];
    TextFile.ReadWriteRoundTrip(rev);
    Seqs.ReverseReverse(users);
  }

  /** A blank line of the file is not loaded. */
  lemma BlankLineSkipped(blank: string, rest: seq<string>)
    requires IsBlank(blank)
    ensures NonBlank([blank] + rest) == NonBlank(rest)
  {
    assert ([blank] + rest)[1..] == rest;
  }

  /** The constructor: the saved texts, and the loaded advertisements or the
      default ones. */
  function Init(env: Env, file: string, loadedAds: seq<Msg>): (s: State)
    ensures Inv(s)
    ensures s.users == LoadUserMessages(file) && s.queue == [] && s.idx == 0
    ensures |s.ads| > 0 && (|loadedAds| > 0 ==> s.ads == loadedAds)
    ensures |loadedAds| == 0 ==> s.ads == MM.DefaultAds(env)
    ensures s.advertiseEvery == MM.DEFAULT_ADVERTISE_EVERY
  {
    State(LoadUserMessages(file), [], if |loadedAds| == 0 then MM.DefaultAds(env) else loadedAds,
          [], None, 0, false, false, MM.DEFAULT_ADVERTISE_EVERY, 0, KV.Initial)
  }

  // ---------------------------------------------------------------------
  // The frame

  /** `pushAdvertisements`, as in the live manager. */
  function PushAdvertisements(env: Env, s: State): (s': State)
    ensures MM.HasInvader(s.queue) ==> s' == s
    ensures !MM.HasInvader(s.queue) ==>
      s' == s.(queue := MM.FlattenAds(s.ads, MM.NowPlayingMsgs(env, s.nowPlaying)) + s.queue)
  {
    if MM.HasInvader(s.queue) then s
    else
      var ads := MM.FlattenAds(s.ads, MM.NowPlayingMsgs(env, s.nowPlaying));
      MessageRepository.PushOneTimeMessagesOrder(s.queue, ads);
      s.(queue := MessageRepository.PushOneTimeMessages(s.queue, ads))
  }

  /** The chooser frame: the text under the pointer cut to 7 characters,
      or "<empty>", at its 1-based position out of the number of texts. */
  function ChooserFrame(s: State): (m: Msg)
    ensures m.Chooser? && m.currentIndex == s.idx + 1 && m.lastIndex == |s.users|
    ensures 0 <= s.idx < |s.users| ==> m.current.str == Take(s.users[s.idx], 7) && m.current.str <= s.users[s.idx]
    ensures !(0 <= s.idx < |s.users|) ==> m.current.str == "<empty>"
  {
    var text := if 0 <= s.idx < |s.users| then Take(s.users[s.idx], 7) else "<empty>";
    Chooser(s.idx + 1, |s.users| - 1 + 1, NewMarquee(User, text))
  }

  /** What a frame produced. */
  datatype Step = Step(s: State, msg: Msg)

  /** The rotation step: the text under the pointer is shown, the pointer
      advances, the step is counted, and the ads are pushed on every
      `advertiseEvery`-th step. */
  function RotationStep(env: Env, s: State): (r: Result<Step>)
    ensures r.Fail? <==> !(0 <= s.idx < |s.users|) || s.advertiseEvery == 0
    ensures !(0 <= s.idx < |s.users|) ==> r == Fail(IndexOutOfBounds)
    ensures r.Ok? ==>
      var count := Decimal.WrapInt32(s.usrMsgCount + 1);
      && r.value.msg == Rotation(NewMarquee(User, s.users[s.idx]))
      && r.value.s.idx == MM.Advance(s.idx, |s.users|, s.paused)
      && r.value.s.usrMsgCount == count
      && r.value.s.users == s.users
      && r.value.s.queue ==
           (if count % s.advertiseEvery == 0 && !MM.HasInvader(s.queue)
            then MM.FlattenAds(s.ads, MM.NowPlayingMsgs(env, s.nowPlaying)) + s.queue
            else s.queue)
  {
    if !(0 <= s.idx < |s.users|) then Fail(IndexOutOfBounds)
    else
      var text := s.users[s.idx];
      var count := Decimal.WrapInt32(s.usrMsgCount + 1);
      var s1 := s.(idx := MM.Advance(s.idx, |s.users|, s.paused), usrMsgCount := count);
      // Kotlin's `%` truncates and Dafny's is Euclidean, but both are 0 exactly on the multiples.
      if s.advertiseEvery == 0 then Fail(DivisionByZero)
      else if count % s.advertiseEvery == 0 then Ok(Step(PushAdvertisements(env, s1), Rotation(NewMarquee(User, text))))
      else Ok(Step(s1, Rotation(NewMarquee(User, text))))
  }

  /** `getNextMessage` at time `now`. The inline keyboard branch is the
      keyboard manager's: it never clears the queue, and a timeout pushes a
      starfield at its head. */
  function GetNextMessage(env: Env, s: State, now: int): (r: Result<Step>)
    ensures s.chooser ==> r == Ok(Step(s, ChooserFrame(s)))
    ensures !s.chooser && KM.Handle(s.kb, now, s.queue).echo.Some? ==>
      r == Ok(Step(s.(kb := KM.Handle(s.kb, now, s.queue).kb), KM.Handle(s.kb, now, s.queue).echo.value))
  {
    if s.chooser then Ok(Step(s, ChooserFrame(s)))
    else
      var h := KM.Handle(s.kb, now, s.queue);
      var s1 := s.(kb := h.kb, queue := h.queue);
      if h.echo.Some? then Ok(Step(s1, h.echo.value))
      else
        var s2 := if |s1.queue| == 0 && |s1.users| == 0 then PushAdvertisements(env, s1) else s1;
        if |s2.queue| > 0 then Ok(Step(s2.(queue := s2.queue[1..]), s2.queue[0]))
        else RotationStep(env, s2)
  }

  // ---------------------------------------------------------------------
  // Commands

  /** The first text containing `q`, ignoring case, or -1. */
  function FindText(users: seq<string>, q: string): (i: int)
    ensures -1 <= i < |users|
    ensures 0 <= i ==> (ContainsIgnoreCase(users[i], q)
      && forall k :: 0 <= k < i ==> !ContainsIgnoreCase(users[k], q))
    ensures i == -1 ==> forall k :: 0 <= k < |users| ==> !ContainsIgnoreCase(users[k], q)
  {
    if |users| == 0 then -1
    else if ContainsIgnoreCase(users[0], q) then 0
    else
      var j := FindText(users[1..], q);
      if j == -1 then -1 else j + 1
  }

  /** `findUserMessage`: seek to the first match; stay on a miss. */
  function FindUserMessage(s: State, q: string): (s': State)
    ensures FindText(s.users, q) == -1 ==> s' == s
    ensures FindText(s.users, q) != -1 ==> s' == s.(idx := FindText(s.users, q))
  {
    var i := FindText(s.users, q);
    if i != -1 then s.(idx := i) else s
  }

  /** The whole commands: the live set, where `!f` is also "first". */
  function ExactCommandOf(cmd: string): (c: Option<MM.ExactCmd>)
    ensures cmd != "!f" ==> c == MM.ExactCommandOf(cmd)
    ensures cmd == "!f" ==> c == Some(MM.First)
  {
    if cmd == "!f" then Some(MM.First) else MM.ExactCommandOf(cmd)
  }

  /** `!delete`: nothing on an empty rotation; otherwise the text under the
      pointer goes and the pointer is kept on the new last text at most. */
  function Delete(s: State): (r: Result<State>)
    ensures |s.users| == 0 ==> r == Ok(s)
    ensures |s.users| > 0 && !(0 <= s.idx < |s.users|) ==> r == Fail(IndexOutOfBounds)
    ensures |s.users| > 0 && 0 <= s.idx < |s.users| ==>
      && r.Ok?
      && r.value.users == Seqs.RemoveAt(s.users, s.idx)
      && r.value.idx == (if s.idx >= |s.users| - 2 then |s.users| - 2 else s.idx)
  {
    if |s.users| == 0 then Ok(s)
    else if !(0 <= s.idx < |s.users|) then Fail(IndexOutOfBounds)
    else
      var users' := Seqs.RemoveAt(s.users, s.idx);
      var last := |users'| - 1;
      Ok(s.(users := users', idx := if s.idx >= last then last else s.idx))
  }

  /** The whole commands other than `!delete`: they move the pointer, set a
      mode or queue a microphone switch, and leave the texts and the track
      memory alone. */
  function Control(s: State, c: MM.ExactCmd): (s': State)
    requires c != MM.DeleteCurrent
    ensures s'.users == s.users && s'.played == s.played
    ensures PointerOk(s.users, s.idx) ==> PointerOk(s'.users, s'.idx)
  {
    var last := |s.users| - 1;
    match c
    case Choose => s.(chooser := true)
    case Prev => s.(idx := if s.idx > 0 then s.idx - 1 else 0)
    case Next => s.(idx := if s.idx < last then s.idx + 1 else last)
    case First => s.(idx := 0)
    case Last => s.(idx := last)
    case EndChoose => s.(chooser := false)
    case Pause => s.(paused := true)
    case Unpause => s.(paused := false)
    case MicOn => s.(queue := MessageRepository.PushOneTimeMessage(s.queue, EnableMic))
    case MicOff => s.(queue := MessageRepository.PushOneTimeMessage(s.queue, DisableMic))
  }

  /** What a whole command does. Only `!delete` can throw. */
  function ApplyExact(s: State, c: MM.ExactCmd): (r: Result<State>)
    ensures r.Fail? ==> c == MM.DeleteCurrent && r == Delete(s)
    ensures Inv(s) && r.Ok? ==> Inv(r.value)
    ensures c.First? ==> r == Ok(s.(idx := 0))
    ensures c.Last? ==> r == Ok(s.(idx := |s.users| - 1))
  {
    if c == MM.DeleteCurrent then Delete(s) else Ok(Control(s, c))
  }

  /** `processAdChange` and `replaceAdsWith`: the live parser. */
  function ProcessAdChange(env: Env, s: State, script: string): (s': State)
    ensures s'.ads == AdScript.ParseAdScript(env, script)
    ensures s' == s.(ads := s'.ads, queue := s'.queue)
    ensures MM.HasInvader(s.queue) ==> s'.queue == s.queue
    ensures !MM.HasInvader(s.queue) ==>
      s'.queue == MM.FlattenAds(s'.ads, MM.NowPlayingMsgs(env, s.nowPlaying)) + s.queue
  {
    PushAdvertisements(env, s.(ads := AdScript.ParseAdScript(env, script)))
  }

  /** The commands matched by their start. `!A` pushes only its banner. */
  function PrefixCommand(env: Env, s: State, cmd: string): (s': State)
    ensures MM.IsAdChange(cmd) ==> s' == ProcessAdChange(env, s, [MM.LOW_HALF] + cmd[2..])
    ensures !MM.IsAdChange(cmd) ==> s'.users == s.users && s'.played == s.played
    ensures !MM.IsAdChange(cmd) && StartsWithIgnoreCase(cmd, "!B") ==>
      s' == s.(queue := [BrightnessShift(Decimal.ParseInt(Trim(cmd[2..])))] + s.queue)
    ensures !MM.IsAdChange(cmd) && !StartsWithIgnoreCase(cmd, "!B") && StartsWithIgnoreCase(cmd, "!A") ==>
      match Decimal.ParseInt(Trim(cmd[2..]))
      case None => s' == s
      case Some(n) => s' == s.(advertiseEvery := n, queue := [CustomFlashy("AD EVERY=" + Decimal.IntToString(n), 200)] + s.queue)
    ensures !MM.IsAdChange(cmd) && !StartsWithIgnoreCase(cmd, "!B") && !StartsWithIgnoreCase(cmd, "!A") ==>
      if StartsWithIgnoreCase(cmd, "!s") || StartsWithIgnoreCase(cmd, "!search") || StartsWithIgnoreCase(cmd, "!find")
      then s' == FindUserMessage(s, AfterFirstSpace(cmd))
      else s' == s
  {
    if MM.IsAdChange(cmd) then ProcessAdChange(env, s, [MM.LOW_HALF] + cmd[2..])
    else SettingCommand(env, s, cmd)
  }

  /** Brightness, advertising period and search; anything else is
      ignored. */
  function SettingCommand(env: Env, s: State, cmd: string): (s': State)
    ensures s'.users == s.users && s'.played == s.played
    ensures StartsWithIgnoreCase(cmd, "!B") ==>
      s' == s.(queue := [BrightnessShift(Decimal.ParseInt(Trim(cmd[2..])))] + s.queue)
    ensures !StartsWithIgnoreCase(cmd, "!B") && StartsWithIgnoreCase(cmd, "!A") ==>
      match Decimal.ParseInt(Trim(cmd[2..]))
      case None => s' == s
      case Some(n) => s' == s.(advertiseEvery := n, queue := [CustomFlashy("AD EVERY=" + Decimal.IntToString(n), 200)] + s.queue)
    ensures !StartsWithIgnoreCase(cmd, "!B") && !StartsWithIgnoreCase(cmd, "!A") ==>
      if StartsWithIgnoreCase(cmd, "!s") || StartsWithIgnoreCase(cmd, "!search") || StartsWithIgnoreCase(cmd, "!find")
      then s' == FindUserMessage(s, AfterFirstSpace(cmd))
      else s' == s
  {
    if StartsWithIgnoreCase(cmd, "!B") then
      s.(queue := MessageRepository.PushOneTimeMessage(s.queue, BrightnessShift(Decimal.ParseInt(Trim(cmd[2..])))))
    else if StartsWithIgnoreCase(cmd, "!A") then
      match Decimal.ParseInt(Trim(cmd[2..]))
      case None => s
      case Some(n) =>
        s.(advertiseEvery := n,
           queue := MessageRepository.PushOneTimeMessage(s.queue, CustomFlashy("AD EVERY=" + Decimal.IntToString(n), 200)))
    else if StartsWithIgnoreCase(cmd, "!s") || StartsWithIgnoreCase(cmd, "!search") || StartsWithIgnoreCase(cmd, "!find") then
      FindUserMessage(s, AfterFirstSpace(cmd))
    else s
  }

  /** `processUartCommand`. */
  function ProcessCommand(env: Env, s: State, cmd: string): (r: Result<State>)
    ensures r.Fail? ==> cmd in {"!d", "!delete"} && r == Delete(s)
    ensures ExactCommandOf(cmd).None? ==> r == Ok(PrefixCommand(env, s, cmd))
  {
    match ExactCommandOf(cmd)
    case Some(c) => ApplyExact(s, c)
    case None => Ok(PrefixCommand(env, s, cmd))
  }

  // ---------------------------------------------------------------------
  // Events

  /** `processNewUserMessage`: the pointer goes to 0, the normalized text to
      the head of the rotation and the announcement to the tail of the
      queue. */
  function ProcessNewUserMessage(env: Env, s: State, raw: string): (s': State)
    ensures s'.idx == 0 && s'.users == [StringExt.Normalize(env.hearts(raw))] + s.users
    ensures s'.queue == s.queue + [NewMessageAnnouncement]
    ensures s' == s.(idx := 0, users := s'.users, queue := s'.queue)
  {
    s.(idx := 0,
       queue := MessageRepository.EnqueueOneTimeMessage(s.queue, NewMessageAnnouncement),
       users := [StringExt.Normalize(env.hearts(raw))] + s.users)
  }

  /** `processNewBytes`: a leading `!` marks a command. */
  function ProcessNewBytes(env: Env, s: State, text: string): (r: Result<State>)
    ensures |text| == 0 || text[0] != '!' ==> r == Ok(ProcessNewUserMessage(env, s, text))
    ensures |text| > 0 && text[0] == '!' ==> r == ProcessCommand(env, s, text)
  {
    if |text| > 0 && text[0] == '!' then ProcessCommand(env, s, text)
    else Ok(ProcessNewUserMessage(env, s, text))
  }

  /** `escapeKey`, on the manager's fields. */
  function EscapeKey(s: State, now: int): (s': State)
    ensures var e := KV.EscapeKey(s.kb, now, s.queue);
      s' == s.(kb := e.kb, queue := e.queue)
  {
    var e := KV.EscapeKey(s.kb, now, s.queue);
    s.(kb := e.kb, queue := e.queue)
  }

  /** `submitKeyboardInput`: a blank buffer just ends input; a buffer typed
      for more than five seconds becomes a new message, then input ends. */
  function SubmitKeyboardInput(env: Env, s: State, now: int): (s': State)
    ensures IsBlank(s.kb.buffer) ==> s' == s.(kb := KV.End(s.kb))
    ensures !IsBlank(s.kb.buffer) && now - s.kb.startedAt > KV.MINIMUM_INPUT_ENTRY_PERIOD ==>
      s' == ProcessNewUserMessage(env, s, s.kb.buffer).(kb := KV.End(s.kb))
    ensures !IsBlank(s.kb.buffer) && now - s.kb.startedAt <= KV.MINIMUM_INPUT_ENTRY_PERIOD ==> s' == s
  {
    var sub := KV.Submit(s.kb, now);
    match sub.emitted
    case Some(text) => ProcessNewUserMessage(env, s, text).(kb := sub.kb)
    case None => s.(kb := sub.kb)
  }

  /** `processNowPlayingTrack`: as in the live manager, but a new track
      enqueues only the announcement and the track. */
  function ProcessNowPlayingTrack(env: Env, s: State, t: Track): (s': State)
    ensures t.isEmpty ==> s' == PushAdvertisements(env, s.(nowPlaying := None))
    ensures !t.isEmpty && t in s.played ==> s' == s
    ensures !t.isEmpty && t !in s.played ==>
      var text := StringExt.Normalize(t.artist) + " - " + StringExt.Normalize(t.title);
      s' == s.(nowPlaying := Some(text), played := MM.Evict(s.played) + [t],
               queue := MM.RemoveIf(s.queue, MM.IsNowPlayingItem) + [NowPlayingAnnouncement, NowPlayingTrack(text)])
  {
    if t.isEmpty then PushAdvertisements(env, s.(nowPlaying := None))
    else if t in s.played then s
    else
      var text := StringExt.Normalize(t.artist) + " - " + StringExt.Normalize(t.title);
      var q := MM.RemoveIf(s.queue, MM.IsNowPlayingItem);
      var q1 := MessageRepository.EnqueueOneTimeMessage(MessageRepository.EnqueueOneTimeMessage(q, NowPlayingAnnouncement), NowPlayingTrack(text));
      s.(nowPlaying := Some(text), played := MM.Evict(s.played) + [t], queue := q1)
  }

  // ---------------------------------------------------------------------
  // Properties

  /** A frame keeps the invariant. */
  lemma GetNextMessageKeepsInv(env: Env, s: State, now: int)
    requires Inv(s)
    ensures var r := GetNextMessage(env, s, now);
      r.Ok? ==> Inv(r.value.s)
  {
  }

  /** A command keeps the invariant. */
  lemma ProcessCommandKeepsInv(env: Env, s: State, cmd: string)
    requires Inv(s)
    ensures var r := ProcessCommand(env, s, cmd);
      r.Ok? ==> Inv(r.value)
  {
    match ExactCommandOf(cmd)
    case Some(c) =>
      assert ProcessCommand(env, s, cmd) == ApplyExact(s, c);
    case None =>
      PrefixCommandKeepsInv(env, s, cmd);
  }

  lemma PrefixCommandKeepsInv(env: Env, s: State, cmd: string)
    requires Inv(s)
    ensures Inv(PrefixCommand(env, s, cmd))
  {
    var s' := PrefixCommand(env, s, cmd);
    if MM.IsAdChange(cmd) {
      assert s'.users == s.users && s'.played == s.played && s'.idx == s.idx;
    }
  }

  /** A new message and a track report keep the invariant. */
  lemma EventsKeepInv(env: Env, s: State, raw: string, t: Track)
    requires Inv(s)
    ensures Inv(ProcessNewUserMessage(env, s, raw))
    ensures Inv(ProcessNowPlayingTrack(env, s, t))
  {
    if !t.isEmpty && t !in s.played {
      MM.EvictThenRemember(s.played, t);
    }
  }

  /** A queued message is shown once and removed: unlike the live
      scheduler, nothing takes its place. */
  lemma QueueHeadShownOnce(env: Env, s: State, now: int)
    requires !s.chooser && !s.kb.inputMode && |s.queue| > 0
    ensures GetNextMessage(env, s, now) == Ok(Step(s.(queue := s.queue[1..]), s.queue[0]))
  {
  }

  /** At exactly 30 seconds of silence the echo is not shown, yet input mode
      is not left: the frame falls through to the queue. */
  lemma SilenceOfExactlyTimeout(env: Env, s: State, now: int)
    requires !s.chooser && s.kb.inputMode && now - s.kb.lastInputAt == KV.KEYBOARD_INPUT_TIMEOUT_MS
    requires |s.queue| > 0
    ensures var r := GetNextMessage(env, s, now);
      && r.Ok? && r.value.msg == s.queue[0]
      && r.value.s.kb.inputMode && r.value.s.kb.warning && r.value.s.kb.buffer == s.kb.buffer
  {
  }

  /** A submitted text becomes the new head of the rotation, shown right
      after the announcement, and input ends. */
  lemma SubmitBecomesHead(env: Env, s: State, now: int)
    requires !IsBlank(s.kb.buffer) && now - s.kb.startedAt > KV.MINIMUM_INPUT_ENTRY_PERIOD
    ensures var s' := SubmitKeyboardInput(env, s, now);
      && s'.users[0] == StringExt.Normalize(env.hearts(s.kb.buffer))
      && s'.users[1..] == s.users && s'.idx == 0
      && s'.queue == s.queue + [NewMessageAnnouncement]
      && !s'.kb.inputMode && s'.kb.buffer == []
  {
  }

  /** `!f` seeks to the first text here, while the live scheduler, which
      only knows `!first`, ignores it. */
  lemma BareFirstOnlyHere(env: Env, s: State, live: MM.State)
    ensures ProcessCommand(env, s, "!f") == Ok(s.(idx := 0))
    ensures MM.ProcessCommand(env, live, "!f") == Ok(live)
  {
    BareFirstMatchesNoPrefix();
    assert ExactCommandOf("!f") == Some(MM.First);
    assert MM.PrefixCommand(env, live, "!f") == live;
  }

  /** `!f` is no whole command of the live set and starts no prefix command. */
  lemma BareFirstMatchesNoPrefix()
    ensures "!f" !in MM.ExactCommands && !MM.IsAdChange("!f")
    ensures !StartsWithIgnoreCase("!f", "!B") && !StartsWithIgnoreCase("!f", "!A")
    ensures !StartsWithIgnoreCase("!f", "!s") && !StartsWithIgnoreCase("!f", "!search")
    ensures !StartsWithIgnoreCase("!f", "!find")
  {
    var cmd := "!f";
    assert cmd !in MM.ExactCommands by {
      assert |cmd| == 2 && cmd[1] == 'f';
    }
    assert !StartsWithIgnoreCase(cmd, "!B") by {
      assert !CharEqIgnoreCase(cmd[0 + 1], "!B"[1]);
    }
    assert !StartsWithIgnoreCase(cmd, "!A") by {
      assert !CharEqIgnoreCase(cmd[0 + 1], "!A"[1]);
    }
    assert !StartsWithIgnoreCase(cmd, "!s") by {
      assert !CharEqIgnoreCase(cmd[0 + 1], "!s"[1]);
    }
  }

  /** With the same fields, a rotation step of either scheduler shows the
      same text and moves the pointer and the counter alike. */
  lemma RotationAgreesWithLive(env: Env, s: State, live: MM.State)
    requires 0 <= s.idx < |s.users| && s.advertiseEvery != 0
    requires |live.repo.rotation| == |s.users| && live.idx == s.idx && live.paused == s.paused
    requires live.repo.rotation[s.idx].m == NewMarquee(User, s.users[s.idx])
    requires live.usrMsgCount == s.usrMsgCount && live.advertiseEvery == s.advertiseEvery
    ensures var r := RotationStep(env, s);
      var l := MM.RotationStep(env, live);
      && r.Ok? && l.Ok? && r.value.msg == l.value.msg
      && r.value.s.idx == l.value.s.idx && r.value.s.usrMsgCount == l.value.s.usrMsgCount
  {
    var r := RotationStep(env, s);
    var l := MM.RotationStep(env, live);
    assert live.repo.rotation[live.idx].m.kind == User;
    assert r.Ok? && l.Ok?;
    assert r.value.msg == Rotation(NewMarquee(User, s.users[s.idx])) == l.value.msg;
  }
}
