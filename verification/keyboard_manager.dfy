/** `KeyboardManager`: the sibling of `KeyboardViewModel`. It keeps the same
    fields and the same delete, escape and end rules, but every accepted key
    empties the one-time queue, a frame never does (except that a timeout
    pushes a starfield), and a submit only schedules the hand-over, which
    reads the buffer when it runs. */
module KeyboardManager {
  import opened Wrappers
  import opened Strings
  import opened Message
  import KV = KeyboardViewModel

  /** `processNewKeyboardKey`: as in the view model, and an accepted key
      also empties the one-time queue. */
  function ProcessKey(kb: KV.Kb, key: char, now: int, queue: seq<Msg>): (r: KV.WithQueue)
    ensures KV.IsInvalidKey(key) ==> r == KV.WithQueue(kb, queue)
    ensures !KV.IsInvalidKey(key) ==>
      && r.queue == []
      && r.kb.inputMode
      && r.kb.buffer == kb.buffer + [key]
      && r.kb.lastInputAt == now
      && r.kb.startedAt == (if |kb.buffer| == 0 then now else kb.startedAt)
  {
    if KV.IsInvalidKey(key) then KV.WithQueue(kb, queue)
    else
      var started := if |kb.buffer| == 0 then now else kb.startedAt;
      KV.WithQueue(kb.(inputMode := true, startedAt := started, lastInputAt := now, buffer := kb.buffer + [key]), [])
  }

  /** What `submitKeyboardInput` did: the new fields, and whether the
      hand-over was scheduled. */
  datatype Requested = Requested(kb: KV.Kb, launched: bool)

  /** `submitKeyboardInput`: a blank buffer ends input at once; otherwise,
      after more than 5 seconds of typing, the hand-over is scheduled and
      nothing else changes yet. */
  function Submit(kb: KV.Kb, now: int): (r: Requested)
    ensures r.launched <==> !IsBlank(kb.buffer) && now - kb.startedAt > KV.MINIMUM_INPUT_ENTRY_PERIOD
    ensures IsBlank(kb.buffer) ==> r.kb == KV.End(kb)
    ensures !IsBlank(kb.buffer) ==> r.kb == kb
  {
    if IsBlank(kb.buffer) then Requested(KV.End(kb), false)
    else Requested(kb, now - kb.startedAt > KV.MINIMUM_INPUT_ENTRY_PERIOD)
  }

  /** The scheduled hand-over, when it runs: it emits the buffer as it is
      then and ends input. */
  function CompleteSubmit(kb: KV.Kb): (r: KV.Submitted)
    ensures r.emitted == Some(kb.buffer)
    ensures !r.kb.inputMode && r.kb.buffer == []
  {
    KV.Submitted(KV.End(kb), Some(kb.buffer))
  }

  /** `handleKeyboardInput`: the view model's thresholds, but the queue is
      only touched on a timeout, when a starfield goes to its head. */
  function Handle(kb: KV.Kb, now: int, queue: seq<Msg>): (r: KV.Handled)
    ensures !kb.inputMode ==> r == KV.Handled(kb, queue, None)
    ensures kb.inputMode ==>
      var elapsed := now - kb.lastInputAt;
      && r.kb.warning == (elapsed > KV.WARN_AFTER)
      && (elapsed < KV.KEYBOARD_INPUT_TIMEOUT_MS ==>
            r.echo == Some(KV.Echo(kb.buffer, elapsed > KV.WARN_AFTER)) && r.queue == queue && r.kb.inputMode)
      && (elapsed == KV.KEYBOARD_INPUT_TIMEOUT_MS ==> r.echo == None && r.queue == queue && r.kb.inputMode)
      && (elapsed > KV.KEYBOARD_INPUT_TIMEOUT_MS ==>
            r.echo == None && r.queue == [DefaultStarfield] + queue && !r.kb.inputMode && r.kb.buffer == [])
  {
    if !kb.inputMode then KV.Handled(kb, queue, None)
    else
      var elapsed := now - kb.lastInputAt;
      var warn := elapsed > KV.KEYBOARD_INPUT_TIMEOUT_MS - KV.KEYBOARD_INPUT_WARNING_MS;
      var kb1 := kb.(warning := warn);
      var timedOut := elapsed > KV.KEYBOARD_INPUT_TIMEOUT_MS;
      var kb2 := if timedOut then KV.End(kb1) else kb1;
      var q := if timedOut then [DefaultStarfield] + queue else queue;
      var echo := if elapsed < KV.KEYBOARD_INPUT_TIMEOUT_MS then Some(KV.Echo(kb1.buffer, warn)) else None;
      KV.Handled(kb2, q, echo)
  }

  /** The two keyboard machines agree on the fields and the echo for every
      key and every frame; they differ only in what happens to the queue. */
  lemma SameFieldsAsViewModel(kb: KV.Kb, key: char, now: int, queue: seq<Msg>)
    ensures ProcessKey(kb, key, now, queue).kb == KV.ProcessKey(kb, key, now)
    ensures Handle(kb, now, queue).kb == KV.Handle(kb, now, queue).kb
    ensures Handle(kb, now, queue).echo == KV.Handle(kb, now, queue).echo
  {
  }

  /** A hand-over scheduled by a submit and completed before any further key
      emits what the view model would have emitted at once. */
  lemma SubmitThenCompleteMatchesViewModel(kb: KV.Kb, now: int)
    requires Submit(kb, now).launched
    ensures CompleteSubmit(Submit(kb, now).kb) == KV.Submit(kb, now)
  {
  }

  /** A key typed between the submit and the hand-over is handed over too. */
  lemma KeyBeforeCompletion(kb: KV.Kb, now: int, key: char, later: int, queue: seq<Msg>)
    requires Submit(kb, now).launched && !KV.IsInvalidKey(key)
    ensures CompleteSubmit(ProcessKey(Submit(kb, now).kb, key, later, queue).kb).emitted == Some(kb.buffer + [key])
  {
  }
}
