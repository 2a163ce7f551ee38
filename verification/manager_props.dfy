/** Properties of the live scheduler that span several events: the state
    invariant is kept by every event, and a few end-to-end runs. */
module SchedulerProperties {
  import opened Wrappers
  import opened Strings
  import opened Message
  import opened Platform
  import opened MessageRepository
  import opened MessageManager
  import KV = KeyboardViewModel
  import AdScript
  import StringExt
  import Decimal
  import Seqs
  import TextFile

  // ---------------------------------------------------------------------
  // The invariant

  /** A frame keeps the invariant. */
  lemma GetNextMessageKeepsInv(env: Env, s: State, now: int)
    requires Inv(s)
    ensures var r := GetNextMessage(env, s, now);
      r.Ok? ==> Inv(r.value.s)
  {
    if !s.chooser {
      var h := KV.Handle(s.kb, now, s.repo.queue);
      var s1 := WithQueue(s.(kb := h.kb), h.queue);
      assert Inv(s1);
      if h.echo.None? {
        QueueOrRotationKeepsInv(env, s1);
      }
    }
  }

  lemma QueueOrRotationKeepsInv(env: Env, s: State)
    requires Inv(s)
    ensures var r := QueueOrRotation(env, s);
      r.Ok? ==> Inv(r.value.s)
  {
    var s1 := if |s.repo.queue| == 0 then ConvertReply(env, s) else s;
    assert Inv(s1);
    var s2 := if |s1.repo.rotation| == 0 && |s1.repo.queue| == 0 then PushAdvertisements(env, s1) else s1;
    assert Inv(s2) by {
      if s2 != s1 {
        QueueOnlyKeepsInv(s1, s2);
      }
    }
    var q := s2.repo.queue;
    if |q| > 0 {
      var s3 := WithQueue(s2, Successor(env, q[0]) + q[1..]);
      QueueOnlyKeepsInv(s2, s3);
      assert QueueOrRotation(env, s) == Ok(Step(s3, q[0], None));
    } else {
      assert QueueOrRotation(env, s) == RotationStep(env, s2);
      RotationStepKeepsInv(env, s2);
    }
  }

  /** Only the queue changes: the invariant is kept. */
  lemma QueueOnlyKeepsInv(s: State, s': State)
    requires Inv(s) && s' == WithQueue(s, s'.repo.queue)
    ensures Inv(s')
  {
  }

  lemma RotationStepKeepsInv(env: Env, s: State)
    requires Inv(s)
    ensures var r := RotationStep(env, s);
      r.Ok? ==> Inv(r.value.s)
  {
    var r := RotationStep(env, s);
    if r.Ok? {
      assert r.value.s.repo.rotation == s.repo.rotation;
      assert r.value.s.repo.nextId == s.repo.nextId;
    }
  }

  /** A command keeps the invariant. */
  lemma ProcessCommandKeepsInv(env: Env, s: State, cmd: string)
    requires Inv(s)
    ensures var r := ProcessCommand(env, s, cmd);
      r.Ok? ==> Inv(r.value)
  {
    if cmd in ExactCommands {
    } else {
      PrefixCommandKeepsInv(env, s, cmd);
    }
  }

  lemma PrefixCommandKeepsInv(env: Env, s: State, cmd: string)
    requires Inv(s)
    ensures Inv(PrefixCommand(env, s, cmd))
  {
  }

  /** Any received text keeps the invariant. */
  lemma ProcessNewBytesKeepsInv(env: Env, s: State, text: string)
    requires Inv(s)
    ensures var r := ProcessNewBytes(env, s, text);
      r.Ok? ==> Inv(r.value)
  {
    if |text| > 0 && text[0] == '!' {
      ProcessCommandKeepsInv(env, s, text);
    }
  }

  /** A track report keeps the invariant: at most five remembered tracks,
      none twice. */
  lemma ProcessNowPlayingTrackKeepsInv(env: Env, s: State, t: Track)
    requires Inv(s)
    ensures Inv(ProcessNowPlayingTrack(env, s, t))
  {
    var s' := ProcessNowPlayingTrack(env, s, t);
    if t.isEmpty {
      var s1 := s.(nowPlaying := None);
      assert Inv(s1);
      PushAdvertisementsKeepsInv(env, s1);
    } else if t !in s.played {
      EvictThenRemember(s.played, t);
      assert s'.repo.rotation == s.repo.rotation && s'.repo.nextId == s.repo.nextId;
      assert s'.played == Evict(s.played) + [t];
    }
  }

  lemma PushAdvertisementsKeepsInv(env: Env, s: State)
    requires Inv(s)
    ensures Inv(PushAdvertisements(env, s))
  {
  }

  /** An answer of the language model keeps the invariant. */
  lemma ProcessGPTResponseKeepsInv(env: Env, s: State, query: Entry, answer: string)
    requires Inv(s) && query.m.kind == GPTQuery
    ensures var r := ProcessGPTResponse(env, s, query, answer);
      r.Ok? ==> Inv(r.value)
  {
    var s1 := ToggleThinking(env, s, false);
    InsertGPTReplyKeepsWf(s1.repo, query, answer, env.upper);
  }

  /** An error of the language model keeps the invariant. */
  lemma OnGPTErrorKeepsInv(env: Env, s: State)
    requires Inv(s)
    ensures Inv(OnGPTError(env, s))
  {
  }

  // ---------------------------------------------------------------------
  // Runs

  /** A frame outside chooser and keyboard modes with something queued shows
      the head of the queue; a thinking frame leaves its successor in its
      place, so the animation runs until the answer removes it. */
  lemma QueueServedFirst(env: Env, s: State, now: int)
    requires !s.chooser && !s.kb.inputMode && |s.repo.queue| > 0
    ensures var r := GetNextMessage(env, s, now);
      && r.Ok? && r.value.msg == s.repo.queue[0]
      && r.value.s.repo.queue == Successor(env, s.repo.queue[0]) + s.repo.queue[1..]
      && r.value.s.repo.rotation == s.repo.rotation && r.value.s.idx == s.idx
  {
  }

  /** In chooser mode the frames change nothing, however many are asked. */
  lemma ChooserFreezes(env: Env, s: State, t1: int, t2: int)
    requires s.chooser
    ensures var r1 := GetNextMessage(env, s, t1);
      r1.Ok? && r1.value.s == s && GetNextMessage(env, r1.value.s, t2) == r1
  {
  }

  /** The advertisement cadence: a non-query rotation step pushes the ads
      exactly when the wrapped step count is a multiple of `advertiseEvery`
      (and no invader is queued yet). */
  lemma AdCadence(env: Env, s: State)
    requires 0 <= s.idx < |s.repo.rotation| && s.repo.rotation[s.idx].m.kind != GPTQuery
    requires s.advertiseEvery != 0 && !HasInvader(s.repo.queue)
    ensures var r := RotationStep(env, s);
      var count := Decimal.WrapInt32(s.usrMsgCount + 1);
      && r.Ok? && r.value.ask == None
      && r.value.s.repo.queue ==
           (if count % s.advertiseEvery == 0
            then FlattenAds(s.ads, NowPlayingMsgs(env, s.nowPlaying)) + s.repo.queue
            else s.repo.queue)
  {
  }

  /** `!A0` is accepted and sets the period to zero, after which the next
      step over an entry that is not a query throws. */
  lemma AdEveryZeroCrashes(env: Env, s: State)
    requires 0 <= s.idx < |s.repo.rotation| && s.repo.rotation[s.idx].m.kind != GPTQuery
    ensures var r := ProcessCommand(env, s, "!A0");
      && r.Ok? && r.value.advertiseEvery == 0
      && RotationStep(env, r.value) == Fail(DivisionByZero)
  {
    AdEveryCommandIsPrefix();
    ZeroPeriodCommandCrashes(env, s, "!A0");
  }

  /** Any `!A` command whose argument reads as 0 is accepted, after which
      the step over a non-query entry throws. */
  lemma ZeroPeriodCommandCrashes(env: Env, s: State, cmd: string)
    requires 0 <= s.idx < |s.repo.rotation| && s.repo.rotation[s.idx].m.kind != GPTQuery
    requires cmd !in ExactCommands && !IsAdChange(cmd)
    requires !StartsWithIgnoreCase(cmd, "!B") && StartsWithIgnoreCase(cmd, "!A")
    requires Decimal.ParseInt(Trim(cmd[2..])) == Some(0)
    ensures var r := ProcessCommand(env, s, cmd);
      && r.Ok? && r.value.advertiseEvery == 0
      && RotationStep(env, r.value) == Fail(DivisionByZero)
  {
    AdEverySetsPeriod(env, s, cmd, 0);
    ZeroPeriodFails(env, ProcessCommand(env, s, cmd).value);
  }

  /** An `!A` command whose argument reads as `n` sets the ad period to `n`
      and leaves the rotation and its pointer alone. */
  lemma AdEverySetsPeriod(env: Env, s: State, cmd: string, n: int)
    requires cmd !in ExactCommands && !IsAdChange(cmd)
    requires !StartsWithIgnoreCase(cmd, "!B") && StartsWithIgnoreCase(cmd, "!A")
    requires Decimal.ParseInt(Trim(cmd[2..])) == Some(n)
    ensures var r := ProcessCommand(env, s, cmd);
      && r.Ok? && r.value.advertiseEvery == n
      && r.value.repo.rotation == s.repo.rotation && r.value.idx == s.idx
  {
  }

  /** With an ad period of 0, reaching a non-query entry of the rotation
      divides by zero. */
  lemma ZeroPeriodFails(env: Env, s: State)
    requires 0 <= s.idx < |s.repo.rotation| && s.repo.rotation[s.idx].m.kind != GPTQuery
    requires s.advertiseEvery == 0
    ensures RotationStep(env, s) == Fail(DivisionByZero)
  {
  }

  /** `!A0` is no whole command and no advertisement change; it starts with
      `!A` and not `!B`, and its argument reads as 0. */
  lemma AdEveryCommandIsPrefix()
    ensures "!A0" !in ExactCommands && !IsAdChange("!A0")
    ensures !StartsWithIgnoreCase("!A0", "!B") && StartsWithIgnoreCase("!A0", "!A")
    ensures Decimal.ParseInt(Trim("!A0"[2..])) == Some(0)
  {
    assert "!A0" !in ExactCommands by {
      assert "!A0"[1] == 'A';
    }
    assert !CharEqIgnoreCase("!A0"[1], "!B"[1]);
    assert "!A0"[2..] == "0";
    ParseZero();
  }

  /** `!B50` puts the brightness shift of 50 at the head of the queue, and
      the next frame outside the chooser and keyboard modes is that shift,
      ahead of the rotation. */
  lemma BrightnessShownNext(env: Env, s: State, now: int)
    requires !s.chooser && !s.kb.inputMode
    ensures var r := ProcessCommand(env, s, "!B50");
      && r.Ok? && r.value.repo.queue == [BrightnessShift(Some(50))] + s.repo.queue
      && var f := GetNextMessage(env, r.value, now);
      && f.Ok? && f.value.msg == BrightnessShift(Some(50))
      && f.value.s.repo.rotation == s.repo.rotation && f.value.s.idx == s.idx
  {
    BrightnessCommandIsPrefix();
    var s1 := WithQueue(s, [BrightnessShift(Some(50))] + s.repo.queue);
    assert ProcessCommand(env, s, "!B50") == Ok(s1);
    QueueServedFirst(env, s1, now);
  }

  /** `!B50` is no whole command and no advertisement change; it starts with
      `!B` and its argument reads as 50. */
  lemma BrightnessCommandIsPrefix()
    ensures "!B50" !in ExactCommands && !IsAdChange("!B50")
    ensures StartsWithIgnoreCase("!B50", "!B")
    ensures Decimal.ParseInt(Trim("!B50"[2..])) == Some(50)
  {
    assert "!B50" !in ExactCommands by {
      assert "!B50"[1] == 'B';
    }
    assert "!B50"[2..] == "50";
    ParseFifty();
  }

  lemma ParseFifty()
    ensures Decimal.ParseInt(Trim("50")) == Some(50)
  {
    assert Trim("50") == "50" by {
      assert TrimStart("50") == "50";
      assert TrimEnd("50") == "50";
    }
    assert Decimal.IntToString(50) == "50" by {
      assert Decimal.NatToString(5) == "5";
    }
    Decimal.ParseIntToString(50);
  }

  lemma ParseZero()
    ensures Decimal.ParseInt(Trim("0")) == Some(0)
  {
    assert TrimStart("0") == "0";
    assert TrimEnd("0") == "0";
    assert Decimal.AllDigits("0");
    assert Decimal.DigitsValue("0") == 10 * Decimal.DigitsValue([]) + 0;
  }

  /** A bare search seeks to the first entry: the empty query is contained
      in every text. */
  lemma BareSearchSeeksFirst(env: Env, s: State)
    requires |s.repo.rotation| > 0
    ensures ProcessCommand(env, s, "!s") == Ok(s.(idx := 0))
  {
    BareSearchIsSearch();
    assert MatchesAtIgnoreCase(s.repo.rotation[0].m.str, [], 0);
    assert FindEntry(s.repo.rotation, []) == 0;
    assert PrefixCommand(env, s, "!s") == FindUserMessage(s, []);
  }

  /** `!s` is no whole command and no other prefix command, and its query
      is empty. */
  lemma BareSearchIsSearch()
    ensures "!s" !in ExactCommands && !IsAdChange("!s")
    ensures !StartsWithIgnoreCase("!s", "!B") && !StartsWithIgnoreCase("!s", "!A")
    ensures StartsWithIgnoreCase("!s", "!s") && AfterFirstSpace("!s") == []
  {
    assert "!s" !in ExactCommands by {
      assert "!s"[1] == 's';
    }
    assert !StartsWithIgnoreCase("!s", "!B") by {
      assert !CharEqIgnoreCase("!s"[0 + 1], "!B"[1]);
    }
    assert !StartsWithIgnoreCase("!s", "!A") by {
      assert !CharEqIgnoreCase("!s"[0 + 1], "!A"[1]);
    }
  }

  /** `!prev` and `!next` move by one and stop at the ends. */
  lemma SeekClamps(env: Env, s: State)
    requires Inv(s) && |s.repo.rotation| > 0
    ensures ProcessCommand(env, s, "!prev") == Ok(s.(idx := if s.idx == 0 then 0 else s.idx - 1))
    ensures ProcessCommand(env, s, "!next") ==
      Ok(s.(idx := if s.idx == |s.repo.rotation| - 1 then s.idx else s.idx + 1))
  {
  }

  /** The advertisement command: the line holding the command itself is
      skipped, and the script's lines become the new advertisements. */
  lemma AdChangeCommand(env: Env, s: State, script: string)
    ensures var r := ProcessCommand(env, s, ['!', AD_CHANGE] + "\n" + script);
      r.Ok? && r.value.ads == AdScript.ParseAdScript(env, script)
  {
    var cmd := ['!', AD_CHANGE] + "\n" + script;
    assert cmd !in ExactCommands by {
      assert |cmd| >= 3 && cmd[1] == AD_CHANGE;
    }
    assert IsAdChange(cmd);
    assert cmd[2..] == "\n" + script;
    assert [LOW_HALF] + cmd[2..] == [LOW_HALF] + "\n" + script;
    AdScript.SkipsUnknownLine(env, [LOW_HALF], script);
  }

  /** A track reported twice in a row is announced once. */
  lemma TrackAnnouncedOnce(env: Env, s: State, t: Track)
    requires !t.isEmpty
    ensures var s1 := ProcessNowPlayingTrack(env, s, t);
      ProcessNowPlayingTrack(env, s1, t) == s1
  {
    if t !in s.played {
      var s1 := ProcessNowPlayingTrack(env, s, t);
      assert s1.played[|s1.played| - 1] == t;
    }
  }

  /** A new message from an idle sign: the next frame is the announcement,
      and the one after it is the new message, from the head of the
      rotation. */
  lemma NewMessageIsShownNext(env: Env, s: State, raw: string, t1: int, t2: int)
    requires Inv(s) && !s.chooser && !s.kb.inputMode && s.repo.queue == []
    requires !Contains(Lowercase(raw), "ravegpt") && s.advertiseEvery != 0
    ensures var s1 := ProcessNewUserMessage(env, s, raw);
      var r1 := GetNextMessage(env, s1, t1);
      && r1.Ok? && r1.value.msg == NewMessageAnnouncement
      && var r2 := GetNextMessage(env, r1.value.s, t2);
      && r2.Ok? && r2.value.msg == Rotation(NewMarquee(User, StringExt.Normalize(env.hearts(raw))))
  {
    var s1 := ProcessNewUserMessage(env, s, raw);
    assert s1.repo.queue == [NewMessageAnnouncement];
    var r1 := GetNextMessage(env, s1, t1);
    assert r1.value.s.repo.queue == [];
    assert r1.value.s.idx == 0;
    assert r1.value.s.repo.rotation == s1.repo.rotation;
    assert ConvertReply(env, r1.value.s) == r1.value.s;
  }

  /** A query's turn in the rotation starts the thinking animation and asks
      the language model; the answer stops the animation and lands right
      after the query, which is now a plain message. */
  lemma QueryRoundTrip(env: Env, s: State, answer: string)
    requires Inv(s) && 0 <= s.idx < |s.repo.rotation| && s.repo.rotation[s.idx].m.kind == GPTQuery
    requires !IsBlank(answer)
    ensures var r := RotationStep(env, s);
      && r.Ok? && r.value.ask == Some(s.repo.rotation[s.idx])
      && r.value.s.repo.queue[0] == FirstThinking(env)
      && var a := ProcessGPTResponse(env, r.value.s, s.repo.rotation[s.idx], answer);
      && a.Ok?
      && a.value.repo.rotation[s.idx].m == NewMarquee(User, s.repo.rotation[s.idx].m.str)
      && a.value.repo.rotation[s.idx + 1].m == NewMarquee(GPTReply, env.upper(answer))
      && (forall i :: 0 <= i < |a.value.repo.queue| ==> !a.value.repo.queue[i].GPTThinking?)
  {
    var r := RotationStep(env, s);
    var s1 := ToggleThinking(env, r.value.s, false);
    InsertGPTReplyFound(s1.repo, s.repo.rotation[s.idx], answer, env.upper, s.idx);
  }
}
