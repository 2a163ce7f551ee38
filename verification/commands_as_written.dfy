/** The command handlers of both managers with their two emoji labels as the
    source spells them: the mute label `"!🔇"` and the advertisement prefix
    `"!🅰"` appear as `!` followed by the emoji's UTF-8 bytes read as
    Windows-1252 text. `MessageManager` and `LegacyManager` read the emoji;
    here the labels are kept as written, the script goes to the parser of
    `AdScriptAsWritten`, and the lemmas show that a real `!🔇` and a real
    `!🅰` command are ignored. */
module CommandsAsWritten {
  import opened Wrappers
  import opened Strings
  import opened Message
  import opened Platform
  import MM = MessageManager
  import LM = LegacyManager
  import AdScript
  import AW = AdScriptAsWritten
  import TextFile

  /** The mute label as written: `!` and four characters. */
  const MUTE_LIT: string := "!\U{F0}\U{178}\U{201D}\U{2021}"

  /** The advertisement prefix as written: `!` and four characters. */
  const AD_LIT: string := "!\U{F0}\U{178}\U{2026}\U{B0}"

  /** The whole commands of the live manager as written. */
  const ExactCommands: set<string> := MM.ExactCommands - {['!', MM.MIC_OFF]} + {MUTE_LIT}

  // ---------------------------------------------------------------------
  // The live manager

  /** `processUartCommand`'s outer `when` as written. */
  function ExactCommandOf(cmd: string): (c: Option<MM.ExactCmd>)
    ensures c.None? <==> cmd !in ExactCommands
    ensures c == Some(MM.MicOff) <==> cmd in {MUTE_LIT, "!micOff"}
    ensures cmd != MUTE_LIT && cmd != ['!', MM.MIC_OFF] ==> c == MM.ExactCommandOf(cmd)
  {
    if cmd == MUTE_LIT then Some(MM.MicOff)
    else if cmd == ['!', MM.MIC_OFF] then None
    else MM.ExactCommandOf(cmd)
  }

  /** The advertisement command as written. */
  predicate IsAdChange(cmd: string) {
    AW.StartsWith(cmd, AD_LIT)
  }

  /** `processAdChange` with the parser as written: a script that throws
      leaves the manager as it was and the exception escapes. */
  function ProcessAdChange(env: Env, s: MM.State, script: string): (r: Result<MM.State>)
    ensures r.Fail? <==> AW.ParseAdScript(env, script).Fail?
    ensures r.Fail? ==> r == Fail(NoSuchElement)
    ensures r.Ok? ==>
      && r.value.ads == AW.ParseAdScript(env, script).value
      && r.value == s.(ads := r.value.ads, repo := s.repo.(queue := r.value.repo.queue))
      && (MM.HasInvader(s.repo.queue) ==> r.value.repo.queue == s.repo.queue)
      && (!MM.HasInvader(s.repo.queue) ==>
            r.value.repo.queue == MM.FlattenAds(r.value.ads, MM.NowPlayingMsgs(env, s.nowPlaying)) + s.repo.queue)
  {
    match AW.ParseAdScript(env, script)
    case Fail(e) => Fail(e)
    case Ok(ads) => Ok(MM.PushAdvertisements(env, s.(ads := ads)))
  }

  /** The inner `when` as written: `cmd.drop(2)` keeps the last three
      characters of the written prefix in front of the script. */
  function PrefixCommand(env: Env, s: MM.State, cmd: string): (r: Result<MM.State>)
    ensures IsAdChange(cmd) ==> r == ProcessAdChange(env, s, cmd[2..])
    ensures !IsAdChange(cmd) ==> r == Ok(MM.SettingCommand(env, s, cmd))
  {
    if IsAdChange(cmd) then ProcessAdChange(env, s, cmd[2..])
    else
      Ok(MM.SettingCommand(env, s, cmd))
  }

  /** `processUartCommand` as written. */
  function ProcessCommand(env: Env, s: MM.State, cmd: string): (r: Result<MM.State>)
    ensures r.Fail? ==> (cmd in {"!d", "!delete"} && r == MM.Delete(s)) || (IsAdChange(cmd) && r == Fail(NoSuchElement))
    ensures cmd !in ExactCommands ==> r == PrefixCommand(env, s, cmd)
    ensures cmd in ExactCommands ==> r == MM.ApplyExact(s, ExactCommandOf(cmd).value)
  {
    match ExactCommandOf(cmd)
    case Some(c) => MM.ApplyExact(s, c)
    case None => PrefixCommand(env, s, cmd)
  }

  // ---------------------------------------------------------------------
  // The legacy manager

  /** The whole commands of the legacy manager as written. */
  function LegacyExactCommandOf(cmd: string): (c: Option<MM.ExactCmd>)
    ensures c.None? <==> cmd !in ExactCommands + {"!f"}
    ensures c == Some(MM.MicOff) <==> cmd in {MUTE_LIT, "!micOff"}
    ensures cmd != "!f" ==> c == ExactCommandOf(cmd)
  {
    if cmd == "!f" then Some(MM.First) else ExactCommandOf(cmd)
  }

  /** The legacy `processAdChange` with the parser as written. */
  function LegacyProcessAdChange(env: Env, s: LM.State, script: string): (r: Result<LM.State>)
    ensures r.Fail? <==> AW.ParseAdScript(env, script).Fail?
    ensures r.Fail? ==> r == Fail(NoSuchElement)
    ensures r.Ok? ==>
      && r.value.ads == AW.ParseAdScript(env, script).value
      && r.value == s.(ads := r.value.ads, queue := r.value.queue)
      && (MM.HasInvader(s.queue) ==> r.value.queue == s.queue)
      && (!MM.HasInvader(s.queue) ==>
            r.value.queue == MM.FlattenAds(r.value.ads, MM.NowPlayingMsgs(env, s.nowPlaying)) + s.queue)
  {
    match AW.ParseAdScript(env, script)
    case Fail(e) => Fail(e)
    case Ok(ads) => Ok(LM.PushAdvertisements(env, s.(ads := ads)))
  }

  /** The legacy inner `when` as written. */
  function LegacyPrefixCommand(env: Env, s: LM.State, cmd: string): (r: Result<LM.State>)
    ensures IsAdChange(cmd) ==> r == LegacyProcessAdChange(env, s, cmd[2..])
    ensures !IsAdChange(cmd) ==> r == Ok(LM.SettingCommand(env, s, cmd))
  {
    if IsAdChange(cmd) then LegacyProcessAdChange(env, s, cmd[2..])
    else
      Ok(LM.SettingCommand(env, s, cmd))
  }

  /** The legacy `processUartCommand` as written. */
  function LegacyProcessCommand(env: Env, s: LM.State, cmd: string): (r: Result<LM.State>)
    ensures r.Fail? ==> (cmd in {"!d", "!delete"} && r == LM.Delete(s)) || (IsAdChange(cmd) && r == Fail(NoSuchElement))
    ensures cmd !in ExactCommands + {"!f"} ==> r == LegacyPrefixCommand(env, s, cmd)
    ensures cmd in ExactCommands + {"!f"} ==> r == LM.ApplyExact(s, LegacyExactCommandOf(cmd).value)
  {
    match LegacyExactCommandOf(cmd)
    case Some(c) => LM.ApplyExact(s, c)
    case None => LegacyPrefixCommand(env, s, cmd)
  }

  // ---------------------------------------------------------------------
  // Where the written labels and the encoded emoji part

  /** A real `!🔇` switches the microphone off in `MessageManager`; as
      written it is no whole command and no prefix, and nothing happens. */
  lemma RealMuteIgnored(env: Env, s: MM.State)
    ensures MM.ProcessCommand(env, s, ['!', MM.MIC_OFF]) == MM.ApplyExact(s, MM.MicOff)
    ensures ProcessCommand(env, s, ['!', MM.MIC_OFF]) == Ok(s)
  {
    var cmd := ['!', MM.MIC_OFF];
    RealMuteLabel();
    assert PrefixCommand(env, s, cmd) == Ok(MM.SettingCommand(env, s, cmd));
    SettingIgnoresEmoji(env, s, cmd);
  }

  /** The spelled-out label does what the emoji was meant to. */
  lemma WrittenMuteMutes(env: Env, s: MM.State)
    ensures ProcessCommand(env, s, MUTE_LIT) == MM.ApplyExact(s, MM.MicOff)
  {
  }

  /** The same for the legacy manager. */
  lemma LegacyRealMuteIgnored(env: Env, s: LM.State)
    ensures LM.ProcessCommand(env, s, ['!', MM.MIC_OFF]) == LM.ApplyExact(s, MM.MicOff)
    ensures LegacyProcessCommand(env, s, ['!', MM.MIC_OFF]) == Ok(s)
  {
    var cmd := ['!', MM.MIC_OFF];
    RealMuteLabel();
    assert LegacyPrefixCommand(env, s, cmd) == Ok(LM.SettingCommand(env, s, cmd));
    LegacySettingIgnoresEmoji(env, s, cmd);
  }

  /** The real mute label: a whole command to both corrected managers, none
      to either manager as written, and no written advertisement prefix. */
  lemma RealMuteLabel()
    ensures MM.ExactCommandOf(['!', MM.MIC_OFF]) == Some(MM.MicOff)
    ensures LM.ExactCommandOf(['!', MM.MIC_OFF]) == Some(MM.MicOff)
    ensures ExactCommandOf(['!', MM.MIC_OFF]) == None
    ensures LegacyExactCommandOf(['!', MM.MIC_OFF]) == None
    ensures !IsAdChange(['!', MM.MIC_OFF])
  {
    EmojiCommandNotExact(['!', MM.MIC_OFF]);
  }

  /** A real `!🅰` command replaces the advertisements in `MessageManager`;
      as written it matches no branch and nothing happens. */
  lemma RealAdCommandIgnored(env: Env, s: MM.State, script: string)
    ensures var cmd := ['!', MM.AD_CHANGE] + script;
      && MM.ProcessCommand(env, s, cmd) == Ok(MM.ProcessAdChange(env, s, [MM.LOW_HALF] + script))
      && ProcessCommand(env, s, cmd) == Ok(s)
  {
    var cmd := ['!', MM.AD_CHANGE] + script;
    assert cmd[1] == MM.AD_CHANGE && cmd[2..] == script;
    EmojiCommandNotExact(cmd);
    assert !IsAdChange(cmd);
    SettingIgnoresEmoji(env, s, cmd);
  }

  /** The same for the legacy manager. */
  lemma LegacyRealAdCommandIgnored(env: Env, s: LM.State, script: string)
    ensures var cmd := ['!', MM.AD_CHANGE] + script;
      && LM.ProcessCommand(env, s, cmd) == Ok(LM.ProcessAdChange(env, s, [MM.LOW_HALF] + script))
      && LegacyProcessCommand(env, s, cmd) == Ok(s)
  {
    var cmd := ['!', MM.AD_CHANGE] + script;
    assert cmd[1] == MM.AD_CHANGE && cmd[2..] == script;
    EmojiCommandNotExact(cmd);
    assert !IsAdChange(cmd);
    LegacySettingIgnoresEmoji(env, s, cmd);
  }

  /** The spelled-out prefix followed by a script of real emoji clears the
      advertisements: the first line keeps the prefix's last three
      characters and is skipped, and no other line starts with a written
      lead. */
  lemma WrittenAdCommandClearsAds(env: Env, s: MM.State, lines: seq<string>)
    requires forall i :: 0 <= i < |lines| ==> TextFile.IsSingleLine(lines[i])
    requires forall i, j :: 0 <= i < |lines| && 0 <= j < |lines[i]| ==> lines[i][j] != '\U{F0}'
    ensures var r := ProcessCommand(env, s, AD_LIT + "\n" + TextFile.WriteFile(lines));
      r.Ok? && r.value.ads == []
  {
    var w := TextFile.WriteFile(lines);
    WrittenScriptEmpty(env, lines);
    WrittenAdCommandWithEmptyScript(env, s, "\n" + w);
    assert AD_LIT + "\n" + w == AD_LIT + ("\n" + w);
  }

  /** The written prefix before a script that, after the prefix's last
      three characters, parses to nothing. */
  lemma WrittenAdCommandWithEmptyScript(env: Env, s: MM.State, script: string)
    requires AW.ParseAdScript(env, AD_LIT[2..] + script) == Ok([])
    ensures ProcessCommand(env, s, AD_LIT + script).Ok?
    ensures ProcessCommand(env, s, AD_LIT + script).value.ads == []
  {
    WrittenAdDispatch(env, s, script);
    EmptyScriptClearsAds(env, s, AD_LIT[2..] + script);
  }

  /** A script that parses to nothing leaves no advertisement. */
  lemma EmptyScriptClearsAds(env: Env, s: MM.State, script: string)
    requires AW.ParseAdScript(env, script) == Ok([])
    ensures ProcessAdChange(env, s, script).Ok? && ProcessAdChange(env, s, script).value.ads == []
  {
  }

  /** As written, the prefix sends the rest of the command, with the
      prefix's last three characters in front, to the parser. */
  lemma WrittenAdDispatch(env: Env, s: MM.State, script: string)
    ensures ProcessCommand(env, s, AD_LIT + script) == ProcessAdChange(env, s, AD_LIT[2..] + script)
  {
    var cmd := AD_LIT + script;
    assert cmd[..|AD_LIT|] == AD_LIT;
    assert cmd !in ExactCommands by {
      assert cmd[1] == '\U{F0}' && cmd[3] == '\U{2026}' && |cmd| >= 5;
      assert MUTE_LIT[3] == '\U{201D}';
    }
    assert cmd[2..] == AD_LIT[2..] + script;
  }

  /** The script such a command leaves parses to no advertisement. */
  lemma WrittenScriptEmpty(env: Env, lines: seq<string>)
    requires forall i :: 0 <= i < |lines| ==> TextFile.IsSingleLine(lines[i])
    requires forall i, j :: 0 <= i < |lines| && 0 <= j < |lines[i]| ==> lines[i][j] != '\U{F0}'
    ensures AW.ParseAdScript(env, AD_LIT[2..] + ("\n" + TextFile.WriteFile(lines))) == Ok([])
  {
    assert AD_LIT[2..] + ("\n" + TextFile.WriteFile(lines)) == AD_LIT[2..] + "\n" + TextFile.WriteFile(lines);
    var head := AD_LIT[2..];
    assert head == "\U{178}\U{2026}\U{B0}";
    TextFile.LinesCons(head, TextFile.WriteFile(lines));
    TextFile.LinesOfWriteFile(lines);
    AW.RealFileGivesNothing(env, lines);
    AW.UnwrittenLineSkipped(env, head);
    var rest := TextFile.Lines(TextFile.WriteFile(lines));
    assert ([head] + rest)[0] == head && ([head] + rest)[1..] == rest;
  }

  // ---------------------------------------------------------------------
  // Helpers

  /** A command whose second character is not ASCII is neither brightness,
      period nor search. */
  lemma SettingIgnoresEmoji(env: Env, s: MM.State, cmd: string)
    requires |cmd| >= 2 && cmd[1] > '\U{7F}'
    ensures MM.SettingCommand(env, s, cmd) == s
  {
    NotSettingPrefix(cmd);
  }

  lemma LegacySettingIgnoresEmoji(env: Env, s: LM.State, cmd: string)
    requires |cmd| >= 2 && cmd[1] > '\U{7F}'
    ensures LM.SettingCommand(env, s, cmd) == s
  {
    NotSettingPrefix(cmd);
  }

  /** A command whose second character is a real emoji is a whole command
      only when it is the real mute label, and then only in
      `MessageManager`. */
  lemma EmojiCommandNotExact(cmd: string)
    requires |cmd| >= 2 && cmd[1] > '\U{7F}' && cmd[1] != '\U{F0}'
    ensures cmd !in ExactCommands && cmd !in ExactCommands + {"!f"}
    ensures cmd in MM.ExactCommands <==> cmd == ['!', MM.MIC_OFF]
  {
    forall c | c in MM.ExactCommands && c != ['!', MM.MIC_OFF]
      ensures c != cmd
    {
      assert |c| >= 2 && c[1] < '\U{7F}';
    }
    assert MUTE_LIT[1] == '\U{F0}';
  }

  lemma NotSettingPrefix(cmd: string)
    requires |cmd| >= 2 && cmd[1] > '\U{7F}'
    ensures !StartsWithIgnoreCase(cmd, "!B") && !StartsWithIgnoreCase(cmd, "!A")
    ensures !StartsWithIgnoreCase(cmd, "!s") && !StartsWithIgnoreCase(cmd, "!search") && !StartsWithIgnoreCase(cmd, "!find")
  {
    forall p | p in {"!B", "!A", "!s", "!search", "!find"}
      ensures !StartsWithIgnoreCase(cmd, p)
    {
      assert |p| >= 2 && p[1] < '\U{7F}';
      assert !CharEqIgnoreCase(cmd[1], p[1]);
    }
  }
}
