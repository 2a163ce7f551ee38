/** `KeyboardViewModel`: the typed-input echo. A key starts input mode; the
    sign echoes what is typed, switches to a warning echo when no key came for
    23 seconds and gives up after 30; a submit after more than 5 seconds of
    typing hands the text on. Time is the caller's `now`, in milliseconds. */
module KeyboardViewModel {
  import opened Wrappers
  import opened Strings
  import opened Message

  const MINIMUM_INPUT_ENTRY_PERIOD: int := 5000
  const KEYBOARD_INPUT_TIMEOUT_MS: int := 30000
  const KEYBOARD_INPUT_WARNING_MS: int := 7000

  /** Silence after which the echo turns into a warning: 23 seconds. */
  const WARN_AFTER: int := KEYBOARD_INPUT_TIMEOUT_MS - KEYBOARD_INPUT_WARNING_MS

  /** The view model's fields. */
  datatype Kb = Kb(startedAt: int, lastInputAt: int, warning: bool, inputMode: bool, buffer: string)

  /** The fields as constructed. */
  const Initial: Kb := Kb(0, 0, false, false, "")

  /** The key with code 0 is rejected. */
  predicate IsInvalidKey(key: char) {
    key == '\0'
  }

  /** `processNewKeyboardKey`. */
  function ProcessKey(kb: Kb, key: char, now: int): (kb': Kb)
    ensures IsInvalidKey(key) ==> kb' == kb
    ensures !IsInvalidKey(key) ==>
      && kb'.inputMode
      && kb'.buffer == kb.buffer + [key]
      && kb'.lastInputAt == now
      && kb'.startedAt == (if |kb.buffer| == 0 then now else kb.startedAt)
      && kb'.warning == kb.warning
  {
    if IsInvalidKey(key) then kb
    else
      var started := if |kb.buffer| == 0 then now else kb.startedAt;
      kb.(inputMode := true, startedAt := started, lastInputAt := now, buffer := kb.buffer + [key])
  }

  /** `endKeyboardInput`: the buffer is emptied and input mode is left. */
  function End(kb: Kb): (kb': Kb)
    ensures !kb'.inputMode && kb'.buffer == [] && kb'.lastInputAt == -1
    ensures kb'.startedAt == kb.startedAt && kb'.warning == kb.warning
  {
    kb.(lastInputAt := -1, buffer := [], inputMode := false)
  }

  /** What `submitKeyboardInput` did: the new fields and the text handed on. */
  datatype Submitted = Submitted(kb: Kb, emitted: Option<string>)

  /** `submitKeyboardInput`. */
  function Submit(kb: Kb, now: int): (r: Submitted)
    ensures IsBlank(kb.buffer) ==> r == Submitted(End(kb), None)
    ensures !IsBlank(kb.buffer) && now - kb.startedAt > MINIMUM_INPUT_ENTRY_PERIOD ==>
      r == Submitted(End(kb), Some(kb.buffer))
    ensures !IsBlank(kb.buffer) && now - kb.startedAt <= MINIMUM_INPUT_ENTRY_PERIOD ==>
      r == Submitted(kb, None)
  {
    if IsBlank(kb.buffer) then Submitted(End(kb), None)
    else if now - kb.startedAt > MINIMUM_INPUT_ENTRY_PERIOD then Submitted(End(kb), Some(kb.buffer))
    else Submitted(kb, None)
  }

  /** `deleteKey`. */
  function DeleteKey(kb: Kb, now: int): (kb': Kb)
    ensures |kb.buffer| == 0 ==> kb' == kb
    ensures |kb.buffer| > 0 ==>
      kb' == kb.(lastInputAt := now, buffer := kb.buffer[..|kb.buffer| - 1])
  {
    if |kb.buffer| == 0 then kb
    else kb.(lastInputAt := now, buffer := kb.buffer[..|kb.buffer| - 1])
  }

  /** The fields and the one-time queue after an event that may touch both. */
  datatype WithQueue = WithQueue(kb: Kb, queue: seq<Msg>)

  /** `escapeKey`: the first press on typed text only moves the last-input
      time back so that the echo turns into a warning; otherwise input ends
      and a starfield is pushed at the head of the queue. */
  function EscapeKey(kb: Kb, now: int, queue: seq<Msg>): (r: WithQueue)
    ensures !IsBlank(kb.buffer) && !kb.warning ==>
      r == WithQueue(kb.(lastInputAt := now - WARN_AFTER), queue)
    ensures IsBlank(kb.buffer) || kb.warning ==>
      r == WithQueue(End(kb), [DefaultStarfield] + queue)
  {
    if !IsBlank(kb.buffer) && !kb.warning then
      WithQueue(kb.(lastInputAt := now - KEYBOARD_INPUT_TIMEOUT_MS + KEYBOARD_INPUT_WARNING_MS), queue)
    else
      WithQueue(End(kb), [DefaultStarfield] + queue)
  }

  /** What `handleKeyboardInput` did: the new fields and queue, and the echo
      to show, if any. */
  datatype Handled = Handled(kb: Kb, queue: seq<Msg>, echo: Option<Msg>)

  /** The echo frame for the typed text. */
  function Echo(input: string, warning: bool): (m: Msg)
    ensures m.KeyboardInput? || m.KeyboardInputWarning?
    ensures Mode(m) == if warning then 'W' else 'I'
    ensures m.input == input
  {
    if warning then KeyboardInputWarning(input) else KeyboardInput(input)
  }

  /** `handleKeyboardInput`, asked once per frame. */
  function Handle(kb: Kb, now: int, queue: seq<Msg>): (r: Handled)
    ensures !kb.inputMode ==> r == Handled(kb, queue, None)
    ensures kb.inputMode ==>
      var elapsed := now - kb.lastInputAt;
      && r.kb.warning == (elapsed > WARN_AFTER)
      && (elapsed < KEYBOARD_INPUT_TIMEOUT_MS ==>
            r.echo == Some(Echo(kb.buffer, elapsed > WARN_AFTER)) && r.queue == [] && r.kb.inputMode)
      && (elapsed == KEYBOARD_INPUT_TIMEOUT_MS ==> r.echo == None && r.queue == [] && r.kb.inputMode)
      && (elapsed > KEYBOARD_INPUT_TIMEOUT_MS ==>
            r.echo == None && r.queue == [DefaultStarfield] && !r.kb.inputMode && r.kb.buffer == [])
  {
    if !kb.inputMode then Handled(kb, queue, None)
    else
      var elapsed := now - kb.lastInputAt;
      var warn := elapsed > KEYBOARD_INPUT_TIMEOUT_MS - KEYBOARD_INPUT_WARNING_MS;
      var kb1 := kb.(warning := warn);
      var timedOut := elapsed > KEYBOARD_INPUT_TIMEOUT_MS;
      var kb2 := if timedOut then End(kb1) else kb1;
      var q := if timedOut then [DefaultStarfield] else [];
      var echo := if elapsed < KEYBOARD_INPUT_TIMEOUT_MS then Some(Echo(kb1.buffer, warn)) else None;
      Handled(kb2, q, echo)
  }

  // ---------------------------------------------------------------------
  // Properties over several events

  /** Deleting right after typing a key gives the text back. */
  lemma DeleteUndoesKey(kb: Kb, key: char, t1: int, t2: int)
    requires !IsInvalidKey(key)
    ensures DeleteKey(ProcessKey(kb, key, t1), t2).buffer == kb.buffer
  {
    assert (kb.buffer + [key])[..|kb.buffer|] == kb.buffer;
  }

  /** Typing keys one after another leaves exactly those keys in the buffer. */
  function TypeAll(kb: Kb, keys: string, now: int): (kb': Kb)
    ensures (forall i :: 0 <= i < |keys| ==> !IsInvalidKey(keys[i])) ==> kb'.buffer == kb.buffer + keys
    decreases |keys|
  {
    if |keys| == 0 then kb
    else
      var kb1 := ProcessKey(kb, keys[0], now);
      var r := TypeAll(kb1, keys[1..], now);
      assert kb.buffer + [keys[0]] + keys[1..] == kb.buffer + keys;
      r
  }

  /** Once input has ended, the echo is never shown and the queue is left
      alone, whatever the time. */
  lemma EndedIsSilent(kb: Kb, now: int, queue: seq<Msg>)
    ensures Handle(End(kb), now, queue) == Handled(End(kb), queue, None)
  {
  }

  /** The echo is shown while keys keep coming: a frame within 23 seconds
      of a key shows the plain echo of everything typed. */
  lemma KeyThenHandle(kb: Kb, key: char, t: int, d: int, queue: seq<Msg>)
    requires !IsInvalidKey(key) && 0 <= d <= WARN_AFTER
    ensures var r := Handle(ProcessKey(kb, key, t), t + d, queue);
      r.echo == Some(KeyboardInput(kb.buffer + [key])) && r.queue == [] && !r.kb.warning
  {
  }

  /** After the first escape, every frame in the next seven seconds (but not
      the one at the same millisecond) shows the warning echo; a second
      escape then ends input. */
  lemma EscapeThenHandle(kb: Kb, now: int, d: int, queue: seq<Msg>)
    requires !IsBlank(kb.buffer) && !kb.warning && kb.inputMode
    requires 0 <= d < KEYBOARD_INPUT_WARNING_MS
    ensures var e := EscapeKey(kb, now, queue);
      var h := Handle(e.kb, now + d, queue);
      && h.echo == Some(Echo(kb.buffer, d > 0))
      && h.kb.warning == (d > 0)
      && (d > 0 ==> EscapeKey(h.kb, now + d, h.queue) == WithQueue(End(h.kb), [DefaultStarfield]))
  {
  }

  /** A submit never emits blank text, and what it emits is the whole buffer,
      after which input has ended. */
  lemma SubmitEmitsWholeBuffer(kb: Kb, now: int)
    ensures var r := Submit(kb, now);
      r.emitted.Some? ==> !IsBlank(r.emitted.value) && r.emitted.value == kb.buffer && r.kb == End(kb)
  {
  }

  /** Submitting twice emits at most once. */
  lemma SubmitOnce(kb: Kb, now: int, later: int)
    requires Submit(kb, now).emitted.Some?
    ensures Submit(Submit(kb, now).kb, later).emitted == None
  {
  }
}
