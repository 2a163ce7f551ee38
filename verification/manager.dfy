/** `MessageManager`: the live scheduler. Each frame the sign asks for the
    next message, and the manager answers from, in order: the chooser
    projection, the keyboard echo, the one-time queue (refilled with a lead-in
    before a language-model reply and with advertisements when everything is
    empty), and finally the rotation, whose pointer wraps unless paused and
    whose every `advertiseEvery`-th step pushes the advertisements. Commands,
    new messages, now-playing tracks and language-model answers arrive as
    events that change the same state. */
module MessageManager {
  import opened Wrappers
  import opened Strings
  import opened Message
  import opened Platform
  import opened MessageRepository
  import KV = KeyboardViewModel
  import AdScript
  import StringExt
  import Decimal
  import Seqs

  const MAX_PLAYED_TRACKS_MEMORY: int := 4
  const DEFAULT_ADVERTISE_EVERY: int := 8

  /** The negative squared A of the advertisement command. */
  const AD_CHANGE: char := '\U{1F170}'
  /** The muted speaker of the microphone-off command. */
  const MIC_OFF: char := '\U{1F507}'
  /** What `drop(2)` leaves of the two-unit glyph `🅰`: its unpaired second
      half, which no line of the script can start with. Dafny characters are
      whole code points, so a replacement character stands in for it. */
  const LOW_HALF: char := '\U{FFFD}'

  /** The manager's fields, with the repository and the keyboard view model
      it drives. `nowPlaying` is the text of the current track message. */
  datatype State = State(
    repo: Repo,
    ads: seq<Msg>,
    played: seq<Track>,
    nowPlaying: Option<string>,
    idx: int,
    chooser: bool,
    paused: bool,
    advertiseEvery: int,
    usrMsgCount: int,
    kb: KV.Kb)

  /** What a frame produced: the new state, the message to show, and the
      query handed to the language model, if any. */
  datatype Step = Step(s: State, msg: Msg, ask: Option<Entry>)

  /** The pointer is on an entry, or at 0 or -1 when there is none. */
  predicate IdxOk(rot: seq<Entry>, idx: int) {
    if |rot| == 0 then -1 <= idx <= 0 else 0 <= idx < |rot|
  }

  predicate Distinct(ts: seq<Track>) {
    forall i, j :: 0 <= i < j < |ts| ==> ts[i] != ts[j]
  }

  /** What every event keeps. */
  predicate Inv(s: State) {
    && Wf(s.repo)
    && IdxOk(s.repo.rotation, s.idx)
    && |s.played| <= MAX_PLAYED_TRACKS_MEMORY + 1
    && Distinct(s.played)
  }

  /** `DEFAULT_ADS`: two invaders in the default icon blue. */
  function DefaultAds(env: Env): seq<Msg> {
    [IconInvader(Enemy1, env.colorOf(IconDefaultBlue)), IconInvader(Enemy2, env.colorOf(IconDefaultBlue))]
  }

  /** The constructor: the saved rotation loaded, the saved advertisements
      or the default ones when there are none. */
  function Init(env: Env, savedFile: string, loadedAds: seq<Msg>): (s: State)
    ensures Inv(s)
    ensures Marquees(s.repo.rotation) == LoadUserMessages(savedFile)
    ensures s.repo.queue == [] && s.idx == 0 && !s.chooser && !s.paused
    ensures |s.ads| > 0 && (|loadedAds| > 0 ==> s.ads == loadedAds)
    ensures |loadedAds| == 0 ==> s.ads == DefaultAds(env)
  {
    var loaded := LoadUserMessages(savedFile);
    var r := AddAll(Repo([], [], 0), loaded);
    assert Marquees(r.rotation) == loaded;
    State(r, if |loadedAds| == 0 then DefaultAds(env) else loadedAds, [], None,
          0, false, false, DEFAULT_ADVERTISE_EVERY, 0, KV.Initial)
  }

  function WithQueue(s: State, q: seq<Msg>): State {
    s.(repo := s.repo.(queue := q))
  }

  // ---------------------------------------------------------------------
  // The rotation pointer

  /** `getIdxAndAdvance`'s update: stay when paused, wrap after the last entry. */
  function Advance(idx: int, len: nat, paused: bool): (next: int)
    ensures paused ==> next == idx
    ensures !paused && 0 <= idx < len ==> 0 <= next < len && next == (idx + 1) % len
  {
    if paused then idx else if idx == len - 1 then 0 else idx + 1
  }

  /** The pointer after `n` unpaused steps. */
  function AdvanceTimes(idx: int, len: nat, n: nat): int
    decreases n
  {
    if n == 0 then idx else AdvanceTimes(Advance(idx, len, false), len, n - 1)
  }

  /** Unpaused, the pointer visits the entries round-robin: after `n` steps
      from `i` it is at `(i + n) % len`, so every entry is shown once in any
      `len` consecutive rotation steps. */
  lemma {:induction false} AdvanceRoundRobin(i: int, len: nat, n: nat)
    requires 0 <= i < len
    ensures AdvanceTimes(i, len, n) == (i + n) % len
    decreases n
  {
    if n > 0 {
      var j := Advance(i, len, false);
      AdvanceRoundRobin(j, len, n - 1);
      ModSucc(i, len, n);
    }
  }

  lemma ModSucc(i: int, len: nat, n: nat)
    requires 0 <= i < len && n > 0
    ensures ((i + 1) % len + (n - 1)) % len == (i + n) % len
  {
    if i + 1 == len {
      assert (i + 1) % len == 0 by {
        DivOfDecomposition(i + 1, len, 1, 0);
      }
      var x := n - 1;
      assert x == (x / len) * len + x % len;
      assert x + len == (x / len + 1) * len + x % len;
      DivOfDecomposition(x + len, len, x / len + 1, x % len);
      assert i + n == x + len;
    } else {
      DivOfDecomposition(i + 1, len, 0, i + 1);
    }
  }

  // ---------------------------------------------------------------------
  // Advertisements

  /** The messages standing in for the now-playing slot of the ads. */
  function NowPlayingMsgs(env: Env, np: Option<string>): (ms: seq<Msg>)
    ensures np.None? ==> ms == []
    ensures np.Some? ==> |ms| == 3 && ms[2] == NowPlayingTrack(np.value)
  {
    match np
    case None => []
    case Some(t) =>
      [OneByOne("CURRENT", env.colorOf(Twitch), 1000), OneByOne("TRACK:", env.colorOf(Twitch), 1000), NowPlayingTrack(t)]
  }

  /** The ads with every now-playing slot replaced by `slot`. */
  function FlattenAds(ads: seq<Msg>, slot: seq<Msg>): (r: seq<Msg>)
    ensures forall m :: m in r ==> (m in ads && !m.NowPlayingTrack?) || m in slot
    ensures (forall i :: 0 <= i < |ads| ==> !ads[i].NowPlayingTrack?) ==> r == ads
    ensures forall i :: 0 <= i < |ads| && !ads[i].NowPlayingTrack? ==> ads[i] in r
  {
    if |ads| == 0 then []
    else
      var rest := FlattenAds(ads[1..], slot);
      assert forall i :: 1 <= i < |ads| ==> ads[i] == ads[1..][i - 1];
      (if ads[0].NowPlayingTrack? then slot else [ads[0]]) + rest
  }

  predicate HasInvader(q: seq<Msg>) {
    exists i :: 0 <= i < |q| && q[i].IconInvader?
  }

  /** `pushAdvertisements`: nothing while an invader is still queued,
      otherwise the flattened ads go to the head of the queue, in order. */
  function PushAdvertisements(env: Env, s: State): (s': State)
    ensures HasInvader(s.repo.queue) ==> s' == s
    ensures !HasInvader(s.repo.queue) ==>
      s' == WithQueue(s, FlattenAds(s.ads, NowPlayingMsgs(env, s.nowPlaying)) + s.repo.queue)
  {
    if HasInvader(s.repo.queue) then s
    else
      var ads := FlattenAds(s.ads, NowPlayingMsgs(env, s.nowPlaying));
      PushOneTimeMessagesOrder(s.repo.queue, ads);
      WithQueue(s, PushOneTimeMessages(s.repo.queue, ads))
  }

  // ---------------------------------------------------------------------
  // The frame cascade

  /** The chooser's copy of an entry: the same class with its text cut to
      7 characters (5 for the wide-font classes). */
  function Trimmed(m: Marquee): (t: Marquee)
    ensures t.kind == m.kind && t.str <= m.str
    ensures |t.str| == if m.kind in {User, GPTQuery} then Min(7, |m.str|) else Min(5, |m.str|)
  {
    NewMarquee(m.kind, Take(m.str, if m.kind in {User, GPTQuery} then 7 else 5))
  }

  function Min(a: int, b: int): int {
    if a < b then a else b
  }

  /** `getNextChooserMessage`: the entry under the pointer, 1-based, out of
      the number of entries; "<empty>" when the pointer is on none. */
  function ChooserFrame(s: State): (m: Msg)
    ensures m.Chooser? && m.currentIndex == s.idx + 1 && m.lastIndex == |s.repo.rotation|
    ensures 0 <= s.idx < |s.repo.rotation| ==> m.current == Trimmed(s.repo.rotation[s.idx].m)
    ensures !(0 <= s.idx < |s.repo.rotation|) ==> m.current == NewMarquee(User, "<empty>")
  {
    var rot := s.repo.rotation;
    var current := if 0 <= s.idx < |rot| then Trimmed(rot[s.idx].m) else NewMarquee(User, "<empty>");
    Chooser(s.idx + 1, |rot| - 1 + 1, current)
  }

  /** The lead-in pushed before a reply of the language model is shown. */
  function RaveLeadIn(env: Env): seq<Msg> {
    var green := env.colorOf(Green);
    [ChonkySlide("RAVE", green, 1000, false), ChonkySlide("RAVEGPT", green, 750, false),
     ChonkySlide("SAYS.", green, 250, false), ChonkySlide("SAYS..", green, 250, false),
     ChonkySlide("SAYS...", green, 250, false)]
  }

  /** With the queue empty, a `GPTReply` under the pointer is replaced by a
      `Chonky` of the same text (a new object) and the lead-in is pushed. */
  function ConvertReply(env: Env, s: State): (s': State)
    ensures s'.idx == s.idx && |s'.repo.rotation| == |s.repo.rotation|
    ensures Wf(s.repo) ==> Wf(s'.repo)
    ensures 0 <= s.idx < |s.repo.rotation| && s.repo.rotation[s.idx].m.kind == GPTReply ==>
      && s'.repo.rotation[s.idx].m == NewMarquee(Chonky, s.repo.rotation[s.idx].m.str)
      && s'.repo.queue == RaveLeadIn(env) + s.repo.queue
      && (forall k :: 0 <= k < |s.repo.rotation| && k != s.idx ==> s'.repo.rotation[k] == s.repo.rotation[k])
    ensures !(0 <= s.idx < |s.repo.rotation| && s.repo.rotation[s.idx].m.kind == GPTReply) ==> s' == s
  {
    var rot := s.repo.rotation;
    if 0 <= s.idx < |rot| && rot[s.idx].m.kind == GPTReply then
      var e := Fresh(s.repo, ToChonkyMessage(rot[s.idx].m));
      PushOneTimeMessagesOrder(s.repo.queue, RaveLeadIn(env));
      s.(repo := Repo(rot[s.idx := e], PushOneTimeMessages(s.repo.queue, RaveLeadIn(env)), s.repo.nextId + 1))
    else s
  }

  /** The first frame of the thinking animation. */
  function FirstThinking(env: Env): Msg {
    GPTThinking(env.firstThought(env.colorOf(ChonkySlideDefaultPink)))
  }

  /** The rotation step: the entry under the pointer is shown, the pointer
      advances and the step is counted. A query is handed to the language
      model with the thinking animation queued; any other entry pushes the
      ads on every `advertiseEvery`-th step. */
  function RotationStep(env: Env, s: State): (r: Result<Step>)
    ensures r.Fail? <==> (!(0 <= s.idx < |s.repo.rotation|)
      || (s.repo.rotation[s.idx].m.kind != GPTQuery && s.advertiseEvery == 0))
    ensures r.Ok? ==>
      && r.value.msg == Rotation(s.repo.rotation[s.idx].m)
      && r.value.s.idx == Advance(s.idx, |s.repo.rotation|, s.paused)
      && r.value.s.usrMsgCount == Decimal.WrapInt32(s.usrMsgCount + 1)
      && r.value.s.repo.rotation == s.repo.rotation
      && (r.value.ask.Some? <==> s.repo.rotation[s.idx].m.kind == GPTQuery)
      && (r.value.ask.Some? ==> (r.value.ask.value == s.repo.rotation[s.idx]
            && r.value.s.repo.queue == [FirstThinking(env)] + s.repo.queue))
  {
    var rot := s.repo.rotation;
    if !(0 <= s.idx < |rot|) then Fail(IndexOutOfBounds)
    else
      var cur := rot[s.idx];
      var count := Decimal.WrapInt32(s.usrMsgCount + 1);
      var s1 := s.(idx := Advance(s.idx, |rot|, s.paused), usrMsgCount := count);
      if cur.m.kind == GPTQuery then
        Ok(Step(WithQueue(s1, PushOneTimeMessage(s.repo.queue, FirstThinking(env))), Rotation(cur.m), Some(cur)))
      // Kotlin's `%` truncates and Dafny's is Euclidean, but both are 0 exactly on the multiples.
      else if s.advertiseEvery == 0 then Fail(DivisionByZero)
      else if count % s.advertiseEvery == 0 then Ok(Step(PushAdvertisements(env, s1), Rotation(cur.m), None))
      else Ok(Step(s1, Rotation(cur.m), None))
  }

  /** Everything after the keyboard: the reply lead-in, the ads when both
      lists are empty, the queue head, and otherwise the rotation. */
  function QueueOrRotation(env: Env, s: State): (r: Result<Step>)
    ensures |s.repo.queue| > 0 ==>
      && r.Ok? && r.value.msg == s.repo.queue[0] && r.value.ask == None
      && r.value.s == WithQueue(s, Successor(env, s.repo.queue[0]) + s.repo.queue[1..])
    ensures |s.repo.queue| == 0 && |s.repo.rotation| == 0 ==>
      var ads := FlattenAds(s.ads, NowPlayingMsgs(env, s.nowPlaying));
      if |ads| == 0 then r == Fail(IndexOutOfBounds)
      else
        && r.Ok? && r.value.msg == ads[0] && r.value.ask == None
        && r.value.s == WithQueue(s, Successor(env, ads[0]) + ads[1..])
    ensures |s.repo.queue| == 0 && 0 <= s.idx < |s.repo.rotation| && s.repo.rotation[s.idx].m.kind == GPTReply ==>
      && r.Ok? && r.value.msg == RaveLeadIn(env)[0] && r.value.ask == None
      && r.value.s == WithQueue(ConvertReply(env, s), RaveLeadIn(env)[1..])
    ensures (&& |s.repo.queue| == 0 && |s.repo.rotation| > 0
             && !(0 <= s.idx < |s.repo.rotation| && s.repo.rotation[s.idx].m.kind == GPTReply)) ==>
      r == RotationStep(env, s)
  {
    if |s.repo.queue| > 0 then Serve(env, s)
    else if |s.repo.rotation| == 0 then ServeAds(env, s)
    else ServeRotation(env, s)
  }

  /** Both lists empty: the advertisements are pushed and the first is
      shown; with none, the rotation step runs off the empty rotation. */
  function ServeAds(env: Env, s: State): (r: Result<Step>)
    requires |s.repo.queue| == 0 && |s.repo.rotation| == 0
    ensures var ads := FlattenAds(s.ads, NowPlayingMsgs(env, s.nowPlaying));
      if |ads| == 0 then r == Fail(IndexOutOfBounds)
      else
        && r.Ok? && r.value.msg == ads[0] && r.value.ask == None
        && r.value.s == WithQueue(s, Successor(env, ads[0]) + ads[1..])
  {
    var s2 := PushAdvertisements(env, s);
    assert s2.repo.queue == FlattenAds(s.ads, NowPlayingMsgs(env, s.nowPlaying)) + [];
    if |s2.repo.queue| > 0 then Serve(env, s2)
    else
      assert s2 == s;
      RotationStep(env, s2)
  }

  /** The queue empty and the rotation not: a reply under the pointer is
      converted and its lead-in shown; otherwise the rotation steps. */
  function ServeRotation(env: Env, s: State): (r: Result<Step>)
    requires |s.repo.queue| == 0 && |s.repo.rotation| > 0
    ensures 0 <= s.idx < |s.repo.rotation| && s.repo.rotation[s.idx].m.kind == GPTReply ==>
      && r.Ok? && r.value.msg == RaveLeadIn(env)[0] && r.value.ask == None
      && r.value.s == WithQueue(ConvertReply(env, s), RaveLeadIn(env)[1..])
    ensures !(0 <= s.idx < |s.repo.rotation| && s.repo.rotation[s.idx].m.kind == GPTReply) ==>
      r == RotationStep(env, s)
  {
    var s1 := ConvertReply(env, s);
    if |s1.repo.queue| > 0 then
      assert s1.repo.queue == RaveLeadIn(env) + [];
      Serve(env, s1)
    else RotationStep(env, s1)
  }

  /** `removeFirstOrNull` on a non-empty queue: the head is shown, and a
      thinking animation puts its successor back. */
  function Serve(env: Env, s: State): (r: Result<Step>)
    requires |s.repo.queue| > 0
    ensures r.Ok? && r.value.msg == s.repo.queue[0] && r.value.ask == None
    ensures r.value.s == WithQueue(s, Successor(env, s.repo.queue[0]) + s.repo.queue[1..])
  {
    var q := s.repo.queue;
    Ok(Step(WithQueue(s, Successor(env, q[0]) + q[1..]), q[0], None))
  }

  /** What a shown one-time message leaves behind: the next frame of a
      thinking animation, nothing for anything else. */
  function Successor(env: Env, m: Msg): (r: seq<Msg>)
    ensures m.GPTThinking? ==> r == [GPTThinking(env.thinkMore(m.frame))]
    ensures !m.GPTThinking? ==> r == []
  {
    if m.GPTThinking? then [GPTThinking(env.thinkMore(m.frame))] else []
  }

  /** `getNextMessage` at time `now`. */
  function GetNextMessage(env: Env, s: State, now: int): (r: Result<Step>)
    ensures s.chooser ==> r == Ok(Step(s, ChooserFrame(s), None))
    ensures !s.chooser && KV.Handle(s.kb, now, s.repo.queue).echo.Some? ==>
      var h := KV.Handle(s.kb, now, s.repo.queue);
      && r.Ok? && r.value.msg == h.echo.value && r.value.ask == None
      && r.value.s.repo.rotation == s.repo.rotation && r.value.s.idx == s.idx
      && r.value.s.kb == h.kb && r.value.s.repo.queue == h.queue
    ensures !s.chooser && KV.Handle(s.kb, now, s.repo.queue).echo.None? ==>
      var h := KV.Handle(s.kb, now, s.repo.queue);
      r == QueueOrRotation(env, WithQueue(s.(kb := h.kb), h.queue))
  {
    if s.chooser then Ok(Step(s, ChooserFrame(s), None))
    else
      var h := KV.Handle(s.kb, now, s.repo.queue);
      var s1 := WithQueue(s.(kb := h.kb), h.queue);
      if h.echo.Some? then Ok(Step(s1, h.echo.value, None))
      else QueueOrRotation(env, s1)
  }

  // ---------------------------------------------------------------------
  // Commands

  /** The first entry whose text contains `q`, ignoring case, or -1. */
  function FindEntry(rot: seq<Entry>, q: string): (i: int)
    ensures -1 <= i < |rot|
    ensures 0 <= i ==> (ContainsIgnoreCase(rot[i].m.str, q)
      && forall k :: 0 <= k < i ==> !ContainsIgnoreCase(rot[k].m.str, q))
    ensures i == -1 ==> forall k :: 0 <= k < |rot| ==> !ContainsIgnoreCase(rot[k].m.str, q)
  {
    if |rot| == 0 then -1
    else if ContainsIgnoreCase(rot[0].m.str, q) then 0
    else
      var j := FindEntry(rot[1..], q);
      if j == -1 then -1 else j + 1
  }

  /** `findUserMessage`: seek to the first match; stay on a miss. */
  function FindUserMessage(s: State, q: string): (s': State)
    ensures FindEntry(s.repo.rotation, q) == -1 ==> s' == s
    ensures FindEntry(s.repo.rotation, q) != -1 ==> s' == s.(idx := FindEntry(s.repo.rotation, q))
  {
    var i := FindEntry(s.repo.rotation, q);
    if i != -1 then s.(idx := i) else s
  }

  /** `!delete`: nothing on an empty rotation; otherwise the entry under the
      pointer goes and the pointer is kept on the new last entry at most. */
  function Delete(s: State): (r: Result<State>)
    ensures |s.repo.rotation| == 0 ==> r == Ok(s)
    ensures |s.repo.rotation| > 0 && !(0 <= s.idx < |s.repo.rotation|) ==> r == Fail(IndexOutOfBounds)
    ensures |s.repo.rotation| > 0 && 0 <= s.idx < |s.repo.rotation| ==>
      && r.Ok?
      && r.value.repo.rotation == Seqs.RemoveAt(s.repo.rotation, s.idx)
      && r.value.idx == (if s.idx >= |s.repo.rotation| - 2 then |s.repo.rotation| - 2 else s.idx)
    ensures Inv(s) && r.Ok? ==> Inv(r.value)
  {
    var rot := s.repo.rotation;
    if |rot| == 0 then Ok(s)
    else if !(0 <= s.idx < |rot|) then Fail(IndexOutOfBounds)
    else
      var rot' := Seqs.RemoveAt(rot, s.idx);
      RemoveAtKeepsWf(s.repo, s.idx);
      var last := |rot'| - 1;
      Ok(s.(repo := s.repo.(rotation := rot'), idx := if s.idx >= last then last else s.idx))
  }

  /** `processAdChange` followed by `replaceAdsWith`: the parsed script
      replaces the ads, which are then pushed. */
  function ProcessAdChange(env: Env, s: State, script: string): (s': State)
    ensures s'.ads == AdScript.ParseAdScript(env, script)
    ensures s' == s.(ads := s'.ads, repo := s.repo.(queue := s'.repo.queue))
    ensures HasInvader(s.repo.queue) ==> s'.repo.queue == s.repo.queue
    ensures !HasInvader(s.repo.queue) ==>
      s'.repo.queue == FlattenAds(s'.ads, NowPlayingMsgs(env, s.nowPlaying)) + s.repo.queue
  {
    PushAdvertisements(env, s.(ads := AdScript.ParseAdScript(env, script)))
  }

  /** The advertisement command: `!`, then the glyph. */
  predicate IsAdChange(cmd: string) {
    |cmd| >= 2 && cmd[0] == '!' && cmd[1] == AD_CHANGE
  }

  /** The commands matched whole: the outer `when` of `processUartCommand`. */
  datatype ExactCmd = Choose | Prev | Next | First | Last | DeleteCurrent | EndChoose | Pause | Unpause | MicOn | MicOff

  /** Every command matched whole. */
  const ExactCommands: set<string> :=
    {"!c", "!choose", "!pr", "!prev", "!ne", "!next", "!first", "!l", "!last", "!d", "!delete",
     "!ec", "!endchoose", "!p", "!pause", "!up", "!unpause", "!micOn", ['!', MIC_OFF], "!micOff"}

  /** Which whole-command `cmd` is, if any. */
  function ExactCommandOf(cmd: string): (c: Option<ExactCmd>)
    ensures c.None? <==> cmd !in ExactCommands
    ensures c == Some(DeleteCurrent) <==> cmd in {"!d", "!delete"}
  {
    if cmd in {"!c", "!choose"} then Some(Choose)
    else if cmd in {"!pr", "!prev"} then Some(Prev)
    else if cmd in {"!ne", "!next"} then Some(Next)
    else if cmd == "!first" then Some(First)
    else if cmd in {"!l", "!last"} then Some(Last)
    else if cmd in {"!d", "!delete"} then Some(DeleteCurrent)
    else if cmd in {"!ec", "!endchoose"} then Some(EndChoose)
    else if cmd in {"!p", "!pause"} then Some(Pause)
    else if cmd in {"!up", "!unpause"} then Some(Unpause)
    else if cmd == "!micOn" then Some(MicOn)
    else if cmd in {['!', MIC_OFF], "!micOff"} then Some(MicOff)
    else None
  }

  /** The whole commands other than `!delete`: they move the pointer, set a
      mode or queue a microphone switch, and leave the rotation and the
      track memory alone. */
  function Control(s: State, c: ExactCmd): (s': State)
    requires c != DeleteCurrent
    ensures s'.repo.rotation == s.repo.rotation && s'.repo.nextId == s.repo.nextId
    ensures s'.played == s.played
    ensures IdxOk(s.repo.rotation, s.idx) ==> IdxOk(s'.repo.rotation, s'.idx)
  {
    var last := |s.repo.rotation| - 1;
    match c
    case Choose => s.(chooser := true)
    case Prev => s.(idx := if s.idx > 0 then s.idx - 1 else 0)
    case Next => s.(idx := if s.idx < last then s.idx + 1 else last)
    case First => s.(idx := 0)
    case Last => s.(idx := last)
    case EndChoose => s.(chooser := false)
    case Pause => s.(paused := true)
    case Unpause => s.(paused := false)
    case MicOn => WithQueue(s, PushOneTimeMessage(s.repo.queue, EnableMic))
    case MicOff => WithQueue(s, PushOneTimeMessage(s.repo.queue, DisableMic))
  }

  /** What a whole command does. Only `!delete` can throw. */
  function ApplyExact(s: State, c: ExactCmd): (r: Result<State>)
    ensures r.Fail? ==> c == DeleteCurrent && r == Delete(s)
    ensures Inv(s) && r.Ok? ==> Inv(r.value)
    ensures c.Prev? ==> r == Ok(s.(idx := if s.idx > 0 then s.idx - 1 else 0))
    ensures c.Next? && Inv(s) && |s.repo.rotation| > 0 ==>
      r == Ok(s.(idx := if s.idx + 1 < |s.repo.rotation| then s.idx + 1 else s.idx))
    ensures c.Choose? || c.EndChoose? ==> r == Ok(s.(chooser := c.Choose?))
    ensures c.Pause? || c.Unpause? ==> r == Ok(s.(paused := c.Pause?))
  {
    if c == DeleteCurrent then Delete(s)
    else
      var s' := Control(s, c);
      assert Wf(s.repo) ==> Wf(s'.repo);
      Ok(s')
  }

  /** The commands matched by their start: the inner `when`. Anything else
      is ignored. */
  function PrefixCommand(env: Env, s: State, cmd: string): (s': State)
    ensures IsAdChange(cmd) ==> s' == ProcessAdChange(env, s, [LOW_HALF] + cmd[2..])
    ensures !IsAdChange(cmd) ==> s'.repo.rotation == s.repo.rotation
    ensures s'.repo.nextId == s.repo.nextId
    ensures !IsAdChange(cmd) && StartsWithIgnoreCase(cmd, "!B") ==>
      s' == WithQueue(s, [BrightnessShift(Decimal.ParseInt(Trim(cmd[2..])))] + s.repo.queue)
    ensures !IsAdChange(cmd) && !StartsWithIgnoreCase(cmd, "!B") && StartsWithIgnoreCase(cmd, "!A") ==>
      match Decimal.ParseInt(Trim(cmd[2..]))
      case None => s' == s
      case Some(n) => s' == WithQueue(s.(advertiseEvery := n),
        [CustomFlashy("AD EVERY=" + Decimal.IntToString(n), 200), DefaultStarfield] + s.repo.queue)
    ensures !IsAdChange(cmd) && !StartsWithIgnoreCase(cmd, "!B") && !StartsWithIgnoreCase(cmd, "!A") ==>
      if StartsWithIgnoreCase(cmd, "!s") || StartsWithIgnoreCase(cmd, "!search") || StartsWithIgnoreCase(cmd, "!find")
      then s' == FindUserMessage(s, AfterFirstSpace(cmd))
      else s' == s
  {
    if IsAdChange(cmd) then ProcessAdChange(env, s, [LOW_HALF] + cmd[2..])
    else SettingCommand(env, s, cmd)
  }

  /** The branches of the inner `when` after the advertisement command:
      brightness, advertising period and search. Anything else is ignored. */
  function SettingCommand(env: Env, s: State, cmd: string): (s': State)
    ensures s'.repo.rotation == s.repo.rotation && s'.repo.nextId == s.repo.nextId
    ensures StartsWithIgnoreCase(cmd, "!B") ==>
      s' == WithQueue(s, [BrightnessShift(Decimal.ParseInt(Trim(cmd[2..])))] + s.repo.queue)
    ensures !StartsWithIgnoreCase(cmd, "!B") && StartsWithIgnoreCase(cmd, "!A") ==>
      match Decimal.ParseInt(Trim(cmd[2..]))
      case None => s' == s
      case Some(n) => s' == WithQueue(s.(advertiseEvery := n),
        [CustomFlashy("AD EVERY=" + Decimal.IntToString(n), 200), DefaultStarfield] + s.repo.queue)
    ensures !StartsWithIgnoreCase(cmd, "!B") && !StartsWithIgnoreCase(cmd, "!A") ==>
      if StartsWithIgnoreCase(cmd, "!s") || StartsWithIgnoreCase(cmd, "!search") || StartsWithIgnoreCase(cmd, "!find")
      then s' == FindUserMessage(s, AfterFirstSpace(cmd))
      else s' == s
  {
    if StartsWithIgnoreCase(cmd, "!B") then
      WithQueue(s, PushOneTimeMessage(s.repo.queue, BrightnessShift(Decimal.ParseInt(Trim(cmd[2..])))))
    else if StartsWithIgnoreCase(cmd, "!A") then
      match Decimal.ParseInt(Trim(cmd[2..]))
      case None => s
      case Some(n) =>
        var banner := [CustomFlashy("AD EVERY=" + Decimal.IntToString(n), 200), DefaultStarfield];
        PushOneTimeMessagesOrder(s.repo.queue, banner);
        WithQueue(s.(advertiseEvery := n), PushOneTimeMessages(s.repo.queue, banner))
    else if StartsWithIgnoreCase(cmd, "!s") || StartsWithIgnoreCase(cmd, "!search") || StartsWithIgnoreCase(cmd, "!find") then
      FindUserMessage(s, AfterFirstSpace(cmd))
    else s
  }

  /** `processUartCommand`: a whole-command match first, then the prefixes.
      Only `!delete` can throw, when the pointer is off the rotation. */
  function ProcessCommand(env: Env, s: State, cmd: string): (r: Result<State>)
    ensures r.Fail? ==> cmd in {"!d", "!delete"} && r == Delete(s)
    ensures cmd !in ExactCommands ==> r == Ok(PrefixCommand(env, s, cmd))
  {
    match ExactCommandOf(cmd)
    case Some(c) => ApplyExact(s, c)
    case None => Ok(PrefixCommand(env, s, cmd))
  }

  // ---------------------------------------------------------------------
  // Events

  /** `processNewUserMessage`: the pointer goes to 0, the normalized text
      goes to the head of the rotation (as a query when it mentions
      "ravegpt"), and the announcement to the tail of the queue. */
  function ProcessNewUserMessage(env: Env, s: State, raw: string): (s': State)
    ensures s'.idx == 0
    ensures |s'.repo.rotation| == |s.repo.rotation| + 1 && s'.repo.rotation[1..] == s.repo.rotation
    ensures s'.repo.rotation[0].m.str == StringExt.Normalize(env.hearts(raw))
    ensures s'.repo.rotation[0].m.kind == (if Contains(Lowercase(raw), "ravegpt") then GPTQuery else User)
    ensures s'.repo.queue == s.repo.queue + [NewMessageAnnouncement]
    ensures Inv(s) ==> Inv(s')
  {
    var text := StringExt.Normalize(env.hearts(raw));
    var kind := if Contains(Lowercase(raw), "ravegpt") then GPTQuery else User;
    var r1 := s.repo.(queue := EnqueueOneTimeMessage(s.repo.queue, NewMessageAnnouncement));
    s.(idx := 0, repo := PushMarqueeMessage(r1, NewMarquee(kind, text)))
  }

  /** `processNewBytes`: a leading `!` marks a command. */
  function ProcessNewBytes(env: Env, s: State, text: string): (r: Result<State>)
    ensures |text| == 0 || text[0] != '!' ==> r == Ok(ProcessNewUserMessage(env, s, text))
    ensures |text| > 0 && text[0] == '!' ==> r == ProcessCommand(env, s, text)
  {
    if |text| > 0 && text[0] == '!' then ProcessCommand(env, s, text)
    else Ok(ProcessNewUserMessage(env, s, text))
  }

  /** The queue without the messages `drop` selects, in order. */
  function RemoveIf(q: seq<Msg>, drop: Msg -> bool): (r: seq<Msg>)
    ensures |r| <= |q|
    ensures forall i :: 0 <= i < |r| ==> !drop(r[i]) && r[i] in q
    ensures forall i :: 0 <= i < |q| && !drop(q[i]) ==> q[i] in r
    ensures (forall i :: 0 <= i < |q| ==> !drop(q[i])) ==> r == q
  {
    if |q| == 0 then []
    else
      var rest := RemoveIf(q[1..], drop);
      assert forall i :: 1 <= i < |q| ==> q[i] == q[1..][i - 1];
      if drop(q[0]) then rest else [q[0]] + rest
  }

  predicate IsNowPlayingItem(m: Msg) {
    m.NowPlayingAnnouncement? || m.NowPlayingTrack?
  }

  predicate IsThinking(m: Msg) {
    m.GPTThinking?
  }

  /** The remembered tracks after the eviction loop: the oldest dropped
      while more than four remain. */
  function Evict(played: seq<Track>): (p: seq<Track>)
    ensures |p| == Min(|played|, MAX_PLAYED_TRACKS_MEMORY)
    ensures p == played[|played| - |p|..]
  {
    if |played| > MAX_PLAYED_TRACKS_MEMORY then Evict(played[1..]) else played
  }

  /** Remembering a track not among the remembered ones, after the
      eviction, keeps at most five tracks and none twice. */
  lemma EvictThenRemember(played: seq<Track>, t: Track)
    requires t !in played
    ensures |Evict(played) + [t]| <= MAX_PLAYED_TRACKS_MEMORY + 1
    ensures Distinct(played) ==> Distinct(Evict(played) + [t])
  {
    var p := Evict(played);
    assert forall k :: 0 <= k < |p| ==> p[k] == played[|played| - |p| + k];
  }

  /** `processNowPlayingTrack`. An empty track clears the slot and pushes the
      ads; a track not seen recently replaces any queued now-playing items
      with a fresh announcement at the tail and is remembered; a recent one
      changes nothing. */
  function ProcessNowPlayingTrack(env: Env, s: State, t: Track): (s': State)
    ensures t.isEmpty ==> s' == PushAdvertisements(env, s.(nowPlaying := None))
    ensures !t.isEmpty && t in s.played ==> s' == s
    ensures !t.isEmpty && t !in s.played ==>
      var text := StringExt.Normalize(t.artist) + " - " + StringExt.Normalize(t.title);
      && s'.nowPlaying == Some(text)
      && s'.repo.queue == RemoveIf(s.repo.queue, IsNowPlayingItem) + [NowPlayingAnnouncement, NowPlayingTrack(text), DefaultStarfield]
      && s' == s.(nowPlaying := Some(text), played := Evict(s.played) + [t], repo := s.repo.(queue := s'.repo.queue))
  {
    if t.isEmpty then PushAdvertisements(env, s.(nowPlaying := None))
    else if t in s.played then s
    else
      var text := StringExt.Normalize(t.artist) + " - " + StringExt.Normalize(t.title);
      var q := RemoveIf(s.repo.queue, IsNowPlayingItem);
      var q1 := EnqueueOneTimeMessage(EnqueueOneTimeMessage(EnqueueOneTimeMessage(q, NowPlayingAnnouncement), NowPlayingTrack(text)), DefaultStarfield);
      WithQueue(s.(nowPlaying := Some(text), played := Evict(s.played) + [t]), q1)
  }

  /** `togglePersistentThinkingMessage`. */
  function ToggleThinking(env: Env, s: State, thinking: bool): (s': State)
    ensures thinking ==> s'.repo.queue == [FirstThinking(env)] + s.repo.queue
    ensures !thinking ==> s'.repo.queue == RemoveIf(s.repo.queue, IsThinking)
    ensures s' == WithQueue(s, s'.repo.queue)
  {
    if thinking then WithQueue(s, PushOneTimeMessage(s.repo.queue, FirstThinking(env)))
    else WithQueue(s, RemoveIf(s.repo.queue, IsThinking))
  }

  /** `processGPTResponse`: the thinking animation stops; a non-blank answer
      is spliced in after its query. */
  function ProcessGPTResponse(env: Env, s: State, query: Entry, answer: string): (r: Result<State>)
    requires query.m.kind == GPTQuery
    ensures IsBlank(answer) ==> r == Ok(ToggleThinking(env, s, false))
    ensures !IsBlank(answer) ==> (r.Fail? <==> |s.repo.rotation| == 0)
    ensures r.Ok? ==> (r.value.idx == s.idx
      && forall i :: 0 <= i < |r.value.repo.queue| ==> !r.value.repo.queue[i].GPTThinking?)
    ensures r.Ok? ==> r.value == s.(repo := r.value.repo)
    ensures !IsBlank(answer) && r.Ok? ==>
      Ok(r.value.repo) == InsertGPTReply(s.repo.(queue := RemoveIf(s.repo.queue, IsThinking)), query, answer, env.upper)
  {
    var s1 := ToggleThinking(env, s, false);
    if IsBlank(answer) then Ok(s1)
    else
      match InsertGPTReply(s1.repo, query, answer, env.upper)
      case Fail(e) => Fail(e)
      case Ok(repo) => Ok(s1.(repo := repo))
  }

  /** The error event of the language model: the thinking animation stops
      and a "no bars, trying again later" banner is pushed. */
  function OnGPTError(env: Env, s: State): (s': State)
    ensures |s'.repo.queue| == 6 + |RemoveIf(s.repo.queue, IsThinking)|
    ensures s'.repo.queue[..6] == GPTErrorBanner(env)
    ensures s'.repo.queue[6..] == RemoveIf(s.repo.queue, IsThinking)
    ensures s'.repo.rotation == s.repo.rotation && s'.idx == s.idx
  {
    var s1 := ToggleThinking(env, s, false);
    PushOneTimeMessagesOrder(s1.repo.queue, GPTErrorBanner(env));
    WithQueue(s1, PushOneTimeMessages(s1.repo.queue, GPTErrorBanner(env)))
  }

  /** The banner the `GPTError` observer pushes: five slides in the
      Instagram-handle colour spelling out "NO NO BARS TRYING AGAIN LATER!",
      the first two held longer, then a starfield. */
  function GPTErrorBanner(env: Env): (ms: seq<Msg>)
    ensures |ms| == 6 && ms[5] == DefaultStarfield
    ensures forall i :: 0 <= i < 5 ==> ms[i].ChonkySlide? && ms[i].colorCycle == env.colorOf(InstaHandle) && !ms[i].scroll
    ensures forall i :: 0 <= i < 5 ==> ms[i].ChonkySlide? && ms[i].delayMs == (if i < 2 then 750 else 500)
    ensures forall i :: 0 <= i < 5 ==> ms[i].ChonkySlide? && ms[i].text == ["NO", "NO BARS", "TRYING", "AGAIN", "LATER!"][i]
  {
    var c := env.colorOf(InstaHandle);
    [ChonkySlide("NO", c, 750, false), ChonkySlide("NO BARS", c, 750, false),
     ChonkySlide("TRYING", c, 500, false), ChonkySlide("AGAIN", c, 500, false),
     ChonkySlide("LATER!", c, 500, false), DefaultStarfield]
  }

  /** `onNewPostedGPTReply`: the answer is taken as a reply to the first
      entry, which must be a query. */
  function OnNewPostedGPTReply(env: Env, s: State, reply: string): (r: Result<State>)
    ensures |s.repo.rotation| == 0 ==> r == Fail(NoSuchElement)
    ensures |s.repo.rotation| > 0 && s.repo.rotation[0].m.kind != GPTQuery ==> r == Fail(ClassCast)
    ensures |s.repo.rotation| > 0 && s.repo.rotation[0].m.kind == GPTQuery ==>
      r == ProcessGPTResponse(env, s, s.repo.rotation[0], reply)
  {
    if |s.repo.rotation| == 0 then Fail(NoSuchElement)
    else if s.repo.rotation[0].m.kind != GPTQuery then Fail(ClassCast)
    else ProcessGPTResponse(env, s, s.repo.rotation[0], reply)
  }
}
