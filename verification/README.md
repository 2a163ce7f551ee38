# energy-sign scheduler, in Dafny

The energy-sign is an LED marquee that an Android device drives over a
serial line. Each time the sign's controller asks for the next frame, the
phone decides what to show. The options are:

- the echo of text typed on a keyboard;
- a chooser frame for browsing the stored messages;
- a one-time message from a queue: announcements, advertisements, the
  now-playing track, the thinking animation of a language model;
- or the next entry of the persistent rotation of user messages.

Bluetooth writes are either commands (`!choose`, `!next`, `!delete`,
`!A5`, `!s query`, the advertisement script) or new messages.

This project models three generations of that scheduler as pure functions
over immutable states and proves properties of them.

- **Live** (`message/` and `keyboard/`):
  - the `Message` hierarchy and its wire and file formats;
  - `MessageRepository`, which holds the rotation and the one-time queue;
  - `MessageManager`, which holds the frame cascade, the commands, the
    advertisement script, the now-playing track and the language-model
    hand-off;
  - the two keyboard state machines, `KeyboardViewModel` and
    `KeyboardManager`;
  - the look-alike normalization `toNormalized`.
- **Legacy:** the first `MessageManager` and its `Message` classes. Here
  the rotation holds plain text and the keyboard is built into the manager.
- **Original:** the `GattServerActivity`, which picks each frame in one
  `when` cascade of control bytes, keeps the stored strings in a list, and
  splits received text at `++`.

Kotlin exceptions become the `Crash` values of `Result`. These are:
`IndexOutOfBounds`, `DivisionByZero`, `NoSuchElement`, `ClassCast` and
`IllegalArgument`. The code's crashes are modelled as written, and lemmas
show the input that reaches them. Examples: `!A0`, after which the next
rotation step divides by zero; and the activity's `!delete`, which strands
the rotation pointer past the end of the list.

Other modelling choices:

- The clock is a parameter `now`.
- Object identity in the mutable lists (`indexOf`, `removeAt`) is modelled
  by an identity number on every rotation entry.
- The app's colour resources, heart-emoji conversion, upper-casing and the
  thinking animation's `thinkMore` are fields of an environment record.

Both `MessageManager.kt` files spell every emoji literal as the emoji's
UTF-8 bytes read back as Windows-1252 text: `"🆑"` appears as the four
characters U+00F0 U+0178 U+2020 U+2018. The main model reads the emoji
these literals encode. This covers `AdScript` and the mute label and
advertisement prefix of both managers. The modules `AdScriptAsWritten` and
`CommandsAsWritten` keep the literals as written; "## Findings" lists where
the two part.

Library helpers sit in their own modules: `Strings`, `Decimal`,
`TextFile`, `Seqs` and `Wrappers`. They model `split`, `trim`,
`toIntOrNull`, `lineSequence` and `take`.

## Model

| member | source | states |
|---|---|---|
| Message.CodesDistinct | app/src/main/kotlin/cx/aphex/energysign/message/Message.kt:172-184 | every message type has its own one-letter capital code |
| Message.FirstWithCode | app/src/main/kotlin/cx/aphex/energysign/message/Message.kt:200 | `firstOrNull` finds a type with the code, and finds none only when no type has it |
| Message.DecodeType | app/src/main/kotlin/cx/aphex/energysign/message/Message.kt:194-203 | the type read from JSON is the one whose code is the first character; DEFAULT for an empty or unknown string |
| Message.DecodeTypeOfCode | app/src/main/kotlin/cx/aphex/energysign/message/Message.kt:187-203 | a type written as its code reads back as the same type |
| Message.DecodeTypeUnknown | app/src/main/kotlin/cx/aphex/energysign/message/Message.kt:199-203 | a first character that is no type's code reads as DEFAULT |
| Message.ValueOf | app/src/main/kotlin/cx/aphex/energysign/message/Message.kt:61 | `valueOf` accepts exactly the constant names and fails otherwise |
| Message.ValueOfTypeName | app/src/main/kotlin/cx/aphex/energysign/message/Message.kt:172-184 | every constant's name is accepted by `valueOf` as that constant |
| Message.NewMarquee | app/src/main/kotlin/cx/aphex/energysign/message/Message.kt:26-54 | each rotation class gets its own default type |
| Message.ToUserMessage | app/src/main/kotlin/cx/aphex/energysign/message/Message.kt:39 | a query turns into a User message with the same text |
| Message.ToChonkyMessage | app/src/main/kotlin/cx/aphex/energysign/message/Message.kt:53 | a reply turns into a Chonky message with the same text |
| Message.MarqueeToString | app/src/main/kotlin/cx/aphex/energysign/message/Message.kt:56 | an entry is written as its type name, VT, its text |
| Message.FromString | app/src/main/kotlin/cx/aphex/energysign/message/Message.kt:59-69 | it succeeds exactly when the first VT piece names a type, a second piece exists and the target is not GPTReply, and the type is the named one; an unknown name throws IllegalArgument, a known name without VT IndexOutOfBounds |
| Message.FromStringWithoutVT | app/src/main/kotlin/cx/aphex/energysign/message/Message.kt:60-62 | a line without VT throws (index out of range) |
| Message.MarqueeRoundTrip | app/src/main/kotlin/cx/aphex/energysign/message/Message.kt:56-69 | text without VT survives toString then fromString for User, GPTQuery and Chonky |
| Message.ChannelsDecompose | app/src/main/kotlin/cx/aphex/energysign/message/Message.kt:86-91 | the red, green and blue channels are bytes that rebuild the colour's low 24 bits |
| Message.KeyboardEchoShape | app/src/main/kotlin/cx/aphex/energysign/message/Message.kt:159-168 | the echo shows at most the last 19 typed characters and a cursor |
| Message.ChooserShape | app/src/main/kotlin/cx/aphex/energysign/message/Message.kt:149-157 | the chooser shows the entry's text and its position string reads back as the two numbers |
| Message.BrightnessShiftShape | app/src/main/kotlin/cx/aphex/energysign/message/Message.kt:146 | a brightness shift carries its amount as decimal text that reads back as the amount; no amount is empty text |
| Message.MicShape | app/src/main/kotlin/cx/aphex/energysign/message/Message.kt:141-145 | the microphone toggles are "E" and "D" with subtype M |
| Message.IconOfCode | app/src/main/kotlin/cx/aphex/energysign/message/Message.kt:248-259 | the icon whose one-character code is given, and none for any other text |
| Message.IconCodeRoundTrip | app/src/main/kotlin/cx/aphex/energysign/message/Message.kt:110-123 | every icon's code leads back to that icon |
| Message.DeserializeWritten | app/src/main/kotlin/cx/aphex/energysign/message/Message.kt:229-266 | a written message is read back as the class its code and text select |
| Message.MarqueeReadBack | app/src/main/kotlin/cx/aphex/energysign/message/Message.kt:229-266 | a query reads back as a User and a reply as a Chonky, with the same text |
| MessageRepository.PushOneTimeMessage | app/src/main/kotlin/cx/aphex/energysign/message/MessageRepository.kt:26-28 | the message goes in front of everything queued |
| MessageRepository.EnqueueOneTimeMessage | app/src/main/kotlin/cx/aphex/energysign/message/MessageRepository.kt:30-32 | the message goes behind everything queued |
| MessageRepository.PushOneTimeMessagesOrder | app/src/main/kotlin/cx/aphex/energysign/message/MessageRepository.kt:22-24 | several messages go in front, to be shown in the order given |
| MessageRepository.PushEachReversed | app/src/main/kotlin/cx/aphex/energysign/message/MessageRepository.kt:22-24 | pushing the reversed list one at a time keeps the list's own order at the head |
| MessageRepository.PushMarqueeMessage | app/src/main/kotlin/cx/aphex/energysign/message/MessageRepository.kt:39-41 | a new entry with a fresh identity goes to the head of the rotation |
| MessageRepository.AddAll | app/src/main/kotlin/cx/aphex/energysign/message/MessageManager.kt:74 | loaded entries get fresh identities and go to the tail in order |
| MessageRepository.IndexOfId | app/src/main/kotlin/cx/aphex/energysign/message/MessageRepository.kt:46 | the index of the entry with the query's identity, or -1 when it is gone |
| MessageRepository.InsertGPTReply | app/src/main/kotlin/cx/aphex/energysign/message/MessageRepository.kt:44-57 | the query becomes a User and the upper-cased answer follows it; a gone query overwrites entry 0 and an empty rotation throws |
| MessageRepository.InsertGPTReplyFound | app/src/main/kotlin/cx/aphex/energysign/message/MessageRepository.kt:46-51 | a present query is replaced in place, the answer follows, and the other entries keep their order |
| MessageRepository.InsertGPTReplyMissing | app/src/main/kotlin/cx/aphex/energysign/message/MessageRepository.kt:52-56 | a gone query loses entry 0 and puts the answer at index 1 |
| MessageRepository.InsertGPTReplyKeepsWf | app/src/main/kotlin/cx/aphex/energysign/message/MessageRepository.kt:44-57 | the splice adds one entry and keeps identities distinct |
| MessageRepository.RemoveAtKeepsWf | app/src/main/kotlin/cx/aphex/energysign/message/MessageManager.kt:379 | removing an entry keeps identities distinct |
| MessageRepository.IndexOfText | app/src/main/kotlin/cx/aphex/energysign/message/MessageRepository.kt:61 | the first entry whose text matches, or -1 |
| MessageRepository.InsertGPTReplyToUserMessage | app/src/main/kotlin/cx/aphex/energysign/message/MessageRepository.kt:59-72 | the answer goes after the first entry with the quoted text, after entry 0 when none has it; an empty rotation throws |
| MessageRepository.InsertGPTReplyToUserMessageShape | app/src/main/kotlin/cx/aphex/energysign/message/MessageRepository.kt:59-72 | nothing else is rewritten: removing the answer gives the old rotation back |
| MessageRepository.LoadLine | app/src/main/kotlin/cx/aphex/energysign/message/MessageRepository.kt:108-123 | DEFAULT lines load as User and CHONKYMARQUEE lines as Chonky; any other line, or one that throws, is dropped |
| MessageRepository.ParseLines | app/src/main/kotlin/cx/aphex/energysign/message/MessageRepository.kt:106-127 | the kept lines, in file order |
| MessageRepository.SaveLoadRoundTrip | app/src/main/kotlin/cx/aphex/energysign/message/MessageRepository.kt:75-127 | writing the rotation to the file text and reading that text back gives the rotation in order, queries as User and replies as Chonky, provided every text is single-line, non-blank and free of VT |
| MessageRepository.LineBreakEntryLost | app/src/main/kotlin/cx/aphex/energysign/message/MessageRepository.kt:75-127 | an entry whose text holds a line break comes back only as its first line, since the reader splits the file at line breaks and drops the unparseable tail |
| MessageRepository.BlankEntryDropped | app/src/main/kotlin/cx/aphex/energysign/message/MessageRepository.kt:125 | a blank entry does not come back |
| MessageRepository.OtherTypeDropped | app/src/main/kotlin/cx/aphex/energysign/message/MessageRepository.kt:117 | a line of another type is not loaded |
| MessageManager.Init | app/src/main/kotlin/cx/aphex/energysign/message/MessageManager.kt:72-114 | the rotation is what loading the saved file text yields, and the ads are the saved ones, or the defaults when none were saved |
| MessageManager.Advance | app/src/main/kotlin/cx/aphex/energysign/message/MessageManager.kt:334-343 | the pointer stays when paused and wraps after the last entry |
| MessageManager.AdvanceRoundRobin | app/src/main/kotlin/cx/aphex/energysign/message/MessageManager.kt:334-343 | unpaused, the pointer visits every entry once in any run of as many steps as there are entries |
| MessageManager.NowPlayingMsgs | app/src/main/kotlin/cx/aphex/energysign/message/MessageManager.kt:169-178 | the now-playing slot is CURRENT, TRACK:, then the track, or nothing without a track |
| MessageManager.FlattenAds | app/src/main/kotlin/cx/aphex/energysign/message/MessageManager.kt:182-188 | every now-playing slot of the ads is replaced by its messages |
| MessageManager.PushAdvertisements | app/src/main/kotlin/cx/aphex/energysign/message/MessageManager.kt:168-191 | nothing while an invader is queued, otherwise the flattened ads go to the head in order |
| MessageManager.Trimmed | app/src/main/kotlin/cx/aphex/energysign/message/MessageManager.kt:319-328 | the chooser copy keeps the class and cuts the text to 7 characters, or 5 for the wide-font classes |
| MessageManager.ChooserFrame | app/src/main/kotlin/cx/aphex/energysign/message/MessageManager.kt:317-332 | the entry under the pointer, 1-based, out of the count; "<empty>" off the list |
| MessageManager.ConvertReply | app/src/main/kotlin/cx/aphex/energysign/message/MessageManager.kt:201-241 | with the queue empty, a reply under the pointer becomes a Chonky and the RAVEGPT lead-in is pushed |
| MessageManager.RotationStep | app/src/main/kotlin/cx/aphex/energysign/message/MessageManager.kt:259-276 | the entry under the pointer is shown and the step counted; a query starts thinking, other entries push the ads every advertiseEvery steps and throw when that is 0 |
| MessageManager.QueueOrRotation | app/src/main/kotlin/cx/aphex/energysign/message/MessageManager.kt:201-276 | the queue head is served first, with the rest of the queue kept; on empty lists the ads and now-playing items are queued and the first served, and with no ads the rotation index throws; a GPT reply under the pointer is converted and the rave lead-in served; otherwise a rotation step |
| MessageManager.Serve | app/src/main/kotlin/cx/aphex/energysign/message/MessageManager.kt:247-253 | the queue head is the frame, the rest of the queue stays, a thinking animation is followed by its successor |
| MessageManager.ServeAds | app/src/main/kotlin/cx/aphex/energysign/message/MessageManager.kt:242-257 | with both lists empty the flattened ads are queued and the first served; with none the index throws |
| MessageManager.ServeRotation | app/src/main/kotlin/cx/aphex/energysign/message/MessageManager.kt:201-272 | a GPT reply under the pointer becomes a user entry and the rave lead-in is served; anything else is a rotation step |
| MessageManager.Successor | app/src/main/kotlin/cx/aphex/energysign/message/MessageManager.kt:250-255 | a shown thinking frame leaves its next frame at the head; other messages leave nothing |
| MessageManager.GetNextMessage | app/src/main/kotlin/cx/aphex/energysign/message/MessageManager.kt:193-277 | chooser mode first; otherwise a pending keyboard echo is shown with the rotation left alone; otherwise the queue and then the rotation serve the next message |
| MessageManager.FindEntry | app/src/main/kotlin/cx/aphex/energysign/message/MessageManager.kt:460 | the first entry containing the query ignoring case, or -1 |
| MessageManager.FindUserMessage | app/src/main/kotlin/cx/aphex/energysign/message/MessageManager.kt:459-466 | seeks to the first match and stays on a miss |
| MessageManager.Delete | app/src/main/kotlin/cx/aphex/energysign/message/MessageManager.kt:376-385 | removes the entry under the pointer and keeps the pointer on the last entry at most; an empty rotation is untouched |
| MessageManager.ExactCommandOf | app/src/main/kotlin/cx/aphex/energysign/message/MessageManager.kt:347-410 | which whole command the text is, long and short forms alike |
| MessageManager.ApplyExact | app/src/main/kotlin/cx/aphex/energysign/message/MessageManager.kt:347-410 | only `!delete` can fail, and then exactly as the deletion does; every whole command keeps the invariant; `!prev` and `!next` move the pointer by one and stop at the ends; `!choose`/`!endchoose` and `!pause`/`!unpause` change only their flag |
| MessageManager.Control | app/src/main/kotlin/cx/aphex/energysign/message/MessageManager.kt:347-410 | the whole commands other than `!delete` leave the rotation, the identity counter and the track memory unchanged and keep the pointer valid |
| MessageManager.SettingCommand | app/src/main/kotlin/cx/aphex/energysign/message/MessageManager.kt:431-455 | `!B` queues a brightness shift, `!A` with a number sets the period and queues its banner, the search prefixes search, anything else changes nothing; the rotation is kept |
| MessageManager.PrefixCommand | app/src/main/kotlin/cx/aphex/energysign/message/MessageManager.kt:411-455 | `!` plus the ad glyph replaces the ads; `!B` queues a brightness shift with the parsed number; `!A` with a number sets the ad period and queues its "AD EVERY=" banner and a starfield; the search prefixes search; anything else is ignored |
| MessageManager.ProcessAdChange | app/src/main/kotlin/cx/aphex/energysign/message/MessageManager.kt:468-528 | the parsed script replaces the ads; unless an invader is queued, the flattened ads with the now-playing slot go in front of the queue; the rotation, position and play count do not change |
| MessageManager.ProcessCommand | app/src/main/kotlin/cx/aphex/energysign/message/MessageManager.kt:345-457 | whole commands first, then prefixes; only `!delete` can throw |
| MessageManager.ProcessNewUserMessage | app/src/main/kotlin/cx/aphex/energysign/message/MessageManager.kt:146-164 | pointer to 0, the normalized text at the head (a query when it mentions ravegpt), the announcement at the queue's tail |
| MessageManager.ProcessNewBytes | app/src/main/kotlin/cx/aphex/energysign/message/MessageManager.kt:608-614 | a leading `!` marks a command, anything else is a new message |
| MessageManager.RemoveIf | app/src/main/kotlin/cx/aphex/energysign/message/MessageManager.kt:625 | the queue without the selected messages, in order |
| MessageManager.Evict | app/src/main/kotlin/cx/aphex/energysign/message/MessageManager.kt:632-634 | the oldest tracks are dropped until at most four remain |
| MessageManager.EvictThenRemember | app/src/main/kotlin/cx/aphex/energysign/message/MessageManager.kt:632-635 | a new track is remembered with at most five tracks and no repeats |
| MessageManager.ProcessNowPlayingTrack | app/src/main/kotlin/cx/aphex/energysign/message/MessageManager.kt:616-638 | an empty track clears the slot and pushes the ads; a new track sets the slot to the normalized "artist - title", is remembered after the oldest of five is evicted, and replaces the queued now-playing items by the announcement, the track and a starfield, with nothing else changed; a recent one changes nothing |
| MessageManager.ToggleThinking | app/src/main/kotlin/cx/aphex/energysign/message/MessageManager.kt:662-673 | on pushes a thinking frame, off removes every thinking frame |
| MessageManager.ProcessGPTResponse | app/src/main/kotlin/cx/aphex/energysign/message/MessageManager.kt:650-660 | thinking items leave the queue; a blank answer is dropped; a non-blank one is spliced in after its query as `InsertGPTReply` states; only the repository changes |
| MessageManager.OnGPTError | app/src/main/kotlin/cx/aphex/energysign/message/MessageManager.kt:129-140 | thinking stops and the error banner is pushed |
| MessageManager.GPTErrorBanner | app/src/main/kotlin/cx/aphex/energysign/message/MessageManager.kt:132-139 | five slides in the Instagram-handle colour, NO, NO BARS, TRYING, AGAIN, LATER!, the first two held 750 ms and the rest 500 ms, then a starfield |
| SchedulerProperties.BrightnessShownNext | app/src/main/kotlin/cx/aphex/energysign/message/MessageManager.kt:431-437 | `!B50` queues a brightness shift to 50, and the next message shown is that shift, with the rotation untouched |
| MessageManager.OnNewPostedGPTReply | app/src/main/kotlin/cx/aphex/energysign/message/MessageManager.kt:641-648 | the answer replies to the first entry; an empty rotation or a non-query first entry throws |
| SchedulerProperties.GetNextMessageKeepsInv | app/src/main/kotlin/cx/aphex/energysign/message/MessageManager.kt:193-277 | a frame keeps the pointer in range and identities distinct |
| SchedulerProperties.QueueOrRotationKeepsInv | app/src/main/kotlin/cx/aphex/energysign/message/MessageManager.kt:201-276 | the queue-or-rotation part keeps the invariant |
| SchedulerProperties.ProcessCommandKeepsInv | app/src/main/kotlin/cx/aphex/energysign/message/MessageManager.kt:345-457 | every command keeps the invariant |
| SchedulerProperties.PrefixCommandKeepsInv | app/src/main/kotlin/cx/aphex/energysign/message/MessageManager.kt:411-455 | the prefix commands keep the invariant |
| SchedulerProperties.ProcessNewBytesKeepsInv | app/src/main/kotlin/cx/aphex/energysign/message/MessageManager.kt:608-614 | any received text keeps the invariant |
| SchedulerProperties.ProcessNowPlayingTrackKeepsInv | app/src/main/kotlin/cx/aphex/energysign/message/MessageManager.kt:616-638 | a track report keeps at most five remembered tracks, none twice |
| SchedulerProperties.PushAdvertisementsKeepsInv | app/src/main/kotlin/cx/aphex/energysign/message/MessageManager.kt:168-191 | pushing the ads keeps the invariant |
| SchedulerProperties.ProcessGPTResponseKeepsInv | app/src/main/kotlin/cx/aphex/energysign/message/MessageManager.kt:650-660 | an answer keeps the invariant |
| SchedulerProperties.OnGPTErrorKeepsInv | app/src/main/kotlin/cx/aphex/energysign/message/MessageManager.kt:129-140 | an error keeps the invariant |
| SchedulerProperties.QueueServedFirst | app/src/main/kotlin/cx/aphex/energysign/message/MessageManager.kt:250-256 | outside chooser and keyboard modes the queue head is shown first, and a thinking frame renews itself |
| SchedulerProperties.ChooserFreezes | app/src/main/kotlin/cx/aphex/energysign/message/MessageManager.kt:194-196 | in chooser mode, frames change nothing |
| SchedulerProperties.AdCadence | app/src/main/kotlin/cx/aphex/energysign/message/MessageManager.kt:262-270 | a non-query step pushes the ads exactly when the wrapped count is a multiple of the period |
| SchedulerProperties.AdEveryZeroCrashes | app/src/main/kotlin/cx/aphex/energysign/message/MessageManager.kt:439-447 | `!A0` is accepted, and the next non-query step divides by zero |
| SchedulerProperties.ZeroPeriodCommandCrashes | app/src/main/kotlin/cx/aphex/energysign/message/MessageManager.kt:439-447 | any `!A` command whose argument reads as 0 is accepted and sets the period to 0, after which `usrMsgCount % advertiseEvery` throws on the next non-query step |
| SchedulerProperties.BareSearchSeeksFirst | app/src/main/kotlin/cx/aphex/energysign/message/MessageManager.kt:449-453 | a search without a query seeks to the first entry |
| SchedulerProperties.SeekClamps | app/src/main/kotlin/cx/aphex/energysign/message/MessageManager.kt:353-365 | `!prev` and `!next` move by one and stop at the ends |
| SchedulerProperties.AdChangeCommand | app/src/main/kotlin/cx/aphex/energysign/message/MessageManager.kt:413-429 | the script after the command replaces the ads; the command's own line is skipped |
| SchedulerProperties.TrackAnnouncedOnce | app/src/main/kotlin/cx/aphex/energysign/message/MessageManager.kt:616-638 | a track reported twice in a row is announced once |
| SchedulerProperties.NewMessageIsShownNext | app/src/main/kotlin/cx/aphex/energysign/message/MessageManager.kt:146-164 | after a new message the sign shows the announcement and then the message |
| SchedulerProperties.QueryRoundTrip | app/src/main/kotlin/cx/aphex/energysign/message/MessageManager.kt:259-276 | a query starts thinking; the answer stops it and lands after the query, which is now a User |
| AdScript.Emojis | app/src/main/kotlin/cx/aphex/energysign/message/MessageManager.kt:471 | only glyphs, and every glyph of the line |
| AdScript.ClocksAreAllFound | app/src/main/kotlin/cx/aphex/energysign/message/MessageManager.kt:483 | the clock glyphs found are all the line's clock glyphs |
| AdScript.Delay | app/src/main/kotlin/cx/aphex/energysign/message/MessageManager.kt:483 | one second plus one per clock glyph, narrowed to Short |
| AdScript.EmojiToColor | app/src/main/kotlin/cx/aphex/energysign/message/MessageManager.kt:530-560 | each colour glyph gives its colour and any other line none |
| AdScript.ParseAdLine | app/src/main/kotlin/cx/aphex/energysign/message/MessageManager.kt:473-524 | a line yields a message exactly when it starts with a known lead glyph: a chonky slide or a one-by-one with the normalized text, the emoji colour or its default and the clock delay; the track glyph an empty now-playing slot; the invader glyph the icon of the line's last set glyph in the emoji colour or icon blue |
| AdScript.ParseAdLines | app/src/main/kotlin/cx/aphex/energysign/message/MessageManager.kt:469-524 | the messages of the lines that parse, in order |
| AdScript.ParseAdScript | app/src/main/kotlin/cx/aphex/energysign/message/MessageManager.kt:469 | the script's lines that parse |
| AdScript.ParseAdLinesAppend | app/src/main/kotlin/cx/aphex/energysign/message/MessageManager.kt:469 | lines are parsed independently |
| AdScript.SkipsUnknownLine | app/src/main/kotlin/cx/aphex/energysign/message/MessageManager.kt:523 | a line with no known lead glyph is skipped |
| AdScript.GlyphDropped | app/src/main/kotlin/cx/aphex/energysign/message/MessageManager.kt:476-477 | the glyphs vanish from a line's text under normalization |
| AdScript.ChonkyLineExample | app/src/main/kotlin/cx/aphex/energysign/message/MessageManager.kt:476-483 | a clock-less chonky line with a growing heart is pink and held one second |
| AdScript.SheepLineExample | app/src/main/kotlin/cx/aphex/energysign/message/MessageManager.kt:506-519 | an icon line ending in the sheep shows the sheep in icon blue |
| AdScriptAsWritten.FirstColour | app/src/main/kotlin/cx/aphex/energysign/message/MessageManager.kt:530-560 | the colour of the first literal the line contains, none when it contains none |
| AdScriptAsWritten.EmojiToColor | app/src/main/kotlin/cx/aphex/energysign/message/MessageManager.kt:530-560 | with the literals as written: the first contained literal's colour, none when none is contained |
| AdScriptAsWritten.LongLiteralNeverCounted | app/src/main/kotlin/cx/aphex/energysign/message/MessageManager.kt:471 | no extracted glyph equals a literal of several characters |
| AdScriptAsWritten.Delay | app/src/main/kotlin/cx/aphex/energysign/message/MessageManager.kt:471 | as written every line is held 1000 ms |
| AdScriptAsWritten.IconOfGlyph | app/src/main/kotlin/cx/aphex/energysign/message/MessageManager.kt:509-518 | as written every icon line shows the first invader |
| AdScriptAsWritten.ParseAdLine | app/src/main/kotlin/cx/aphex/energysign/message/MessageManager.kt:470-524 | as written a line yields nothing exactly when it starts with none of the written lead literals; the chonky and one-by-one lines are held 1000 ms; an invader line with no emoji throws NoSuchElement and otherwise shows the first invader |
| AdScriptAsWritten.ParseAdLines | app/src/main/kotlin/cx/aphex/energysign/message/MessageManager.kt:469-524 | the list throws exactly when a line throws, and only NoSuchElement |
| AdScriptAsWritten.ParseAdScript | app/src/main/kotlin/cx/aphex/energysign/message/MessageManager.kt:468-527 | the script throws only NoSuchElement and yields at most one message per line |
| AdScriptAsWritten.RealLeadSkipped | app/src/main/kotlin/cx/aphex/energysign/message/MessageManager.kt:474-506 | a line led by a real lead glyph is a message in the corrected parser and skipped as written |
| AdScriptAsWritten.UnwrittenLineSkipped | app/src/main/kotlin/cx/aphex/energysign/message/MessageManager.kt:474-506 | a line that does not start with U+00F0 starts with no written lead and is skipped |
| AdScriptAsWritten.RealScriptGivesNothing | app/src/main/kotlin/cx/aphex/energysign/message/MessageManager.kt:469-524 | lines without U+00F0 give no advertisement as written |
| AdScriptAsWritten.RealFileGivesNothing | app/src/main/kotlin/cx/aphex/energysign/message/MessageManager.kt:468-527 | a script file of such lines gives no advertisement as written |
| AdScriptAsWritten.ClockIgnored | app/src/main/kotlin/cx/aphex/energysign/message/MessageManager.kt:471 | a chonky line with a clock is held 2000 ms in the corrected parser and 1000 ms as written |
| AdScriptAsWritten.RealHeartsUnmatched | app/src/main/kotlin/cx/aphex/energysign/message/MessageManager.kt:530-560 | a line without U+00F0 and U+00E2 has no colour as written |
| AdScriptAsWritten.HeartExampleDiffers | app/src/main/kotlin/cx/aphex/energysign/message/MessageManager.kt:530-560 | a line with a real growing heart is pink in the corrected parser and uncoloured as written |
| AdScriptAsWritten.InvaderLiteralThrows | app/src/main/kotlin/cx/aphex/energysign/message/MessageManager.kt:506-509 | the line made of the written invader literal throws NoSuchElement |
| AdScriptAsWritten.NoGlyphIn | app/src/main/kotlin/cx/aphex/energysign/message/MessageManager.kt:509 | characters below U+2100 hold no script glyph |
| AdScriptAsWritten.ChonkyLeadLeavesQuote | app/src/main/kotlin/cx/aphex/energysign/message/MessageManager.kt:474-477 | as written the chonky lead stays in the text and leaves a `'`; the real glyph vanishes |
| AdScriptAsWritten.ChonkyLiteralNormalized | app/src/main/kotlin/cx/aphex/energysign/message/MessageManager.kt:474-477 | the written chonky literal normalizes to `'` |
| CommandsAsWritten.ExactCommandOf | app/src/main/kotlin/cx/aphex/energysign/message/MessageManager.kt:347-410 | with the mute label as written: the written label and `!micOff` switch the microphone off, and the real `!🔇` is no whole command |
| CommandsAsWritten.ProcessAdChange | app/src/main/kotlin/cx/aphex/energysign/message/MessageManager.kt:468-527 | the parser as written: a throwing script throws NoSuchElement, otherwise the parsed ads replace the old ones and are pushed unless an invader is queued |
| CommandsAsWritten.PrefixCommand | app/src/main/kotlin/cx/aphex/energysign/message/MessageManager.kt:411-455 | the written prefix sends `cmd.drop(2)` to the parser as written; anything else goes to the settings commands |
| CommandsAsWritten.ProcessCommand | app/src/main/kotlin/cx/aphex/energysign/message/MessageManager.kt:345-457 | the whole commands as written, then the prefixes; it fails only on `!delete` or a throwing script |
| CommandsAsWritten.LegacyExactCommandOf | app/src/main/kotlin/cx/aphex/energysign/MessageManager.kt:241-307 | the legacy whole commands with the mute label as written and `!f` |
| CommandsAsWritten.LegacyProcessAdChange | app/src/main/kotlin/cx/aphex/energysign/MessageManager.kt:364-423 | the legacy ad change with the parser as written |
| CommandsAsWritten.LegacyPrefixCommand | app/src/main/kotlin/cx/aphex/energysign/MessageManager.kt:308-351 | the legacy prefixes with the written ad prefix |
| CommandsAsWritten.LegacyProcessCommand | app/src/main/kotlin/cx/aphex/energysign/MessageManager.kt:241-353 | the legacy commands as written; they fail only on `!delete` or a throwing script |
| CommandsAsWritten.RealMuteIgnored | app/src/main/kotlin/cx/aphex/energysign/message/MessageManager.kt:406 | a real `!🔇` mutes in the corrected manager and does nothing as written |
| CommandsAsWritten.WrittenMuteMutes | app/src/main/kotlin/cx/aphex/energysign/message/MessageManager.kt:406 | the written mute label mutes |
| CommandsAsWritten.LegacyRealMuteIgnored | app/src/main/kotlin/cx/aphex/energysign/MessageManager.kt:303 | a real `!🔇` mutes in the corrected legacy manager and does nothing as written |
| CommandsAsWritten.RealMuteLabel | app/src/main/kotlin/cx/aphex/energysign/message/MessageManager.kt:406 | the real mute label is a whole command to both corrected managers and to neither as written |
| CommandsAsWritten.RealAdCommandIgnored | app/src/main/kotlin/cx/aphex/energysign/message/MessageManager.kt:413-428 | a real `!🅰` command replaces the ads in the corrected manager and does nothing as written |
| CommandsAsWritten.LegacyRealAdCommandIgnored | app/src/main/kotlin/cx/aphex/energysign/MessageManager.kt:310-325 | the same in the legacy manager |
| CommandsAsWritten.WrittenAdDispatch | app/src/main/kotlin/cx/aphex/energysign/message/MessageManager.kt:413-428 | the written prefix hands the rest, after its last three characters, to the parser as written |
| CommandsAsWritten.WrittenScriptEmpty | app/src/main/kotlin/cx/aphex/energysign/message/MessageManager.kt:468-527 | that script, with real emoji after the first line, parses to nothing |
| CommandsAsWritten.EmptyScriptClearsAds | app/src/main/kotlin/cx/aphex/energysign/message/MessageManager.kt:468-527 | a script that parses to nothing leaves no ads |
| CommandsAsWritten.WrittenAdCommandWithEmptyScript | app/src/main/kotlin/cx/aphex/energysign/message/MessageManager.kt:413-428 | the written prefix before a script that parses to nothing clears the ads |
| CommandsAsWritten.WrittenAdCommandClearsAds | app/src/main/kotlin/cx/aphex/energysign/message/MessageManager.kt:413-428 | the written prefix followed by a script of real emoji clears the ads |
| CommandsAsWritten.EmojiCommandNotExact | app/src/main/kotlin/cx/aphex/energysign/message/MessageManager.kt:347-410 | a command with an emoji second character is a whole command only as the real mute label |
| CommandsAsWritten.NotSettingPrefix | app/src/main/kotlin/cx/aphex/energysign/message/MessageManager.kt:431-451 | such a command is no brightness, period or search command |
| CommandsAsWritten.SettingIgnoresEmoji | app/src/main/kotlin/cx/aphex/energysign/message/MessageManager.kt:431-455 | the settings commands ignore it |
| CommandsAsWritten.LegacySettingIgnoresEmoji | app/src/main/kotlin/cx/aphex/energysign/MessageManager.kt:328-351 | the legacy settings commands ignore it |
| StringExt.TableSeparated | app/src/main/kotlin/cx/aphex/energysign/ext/StringExt.kt:38-133 | every key is outside ASCII and every replacement inside it |
| StringExt.ReplaceChar | app/src/main/kotlin/cx/aphex/energysign/ext/StringExt.kt:23 | every occurrence of the character is replaced |
| StringExt.StripNonAscii | app/src/main/kotlin/cx/aphex/energysign/ext/StringExt.kt:32 | exactly the ASCII characters are kept, in order |
| StringExt.NormalizeChar | app/src/main/kotlin/cx/aphex/energysign/ext/StringExt.kt:5-35 | a character becomes its table replacement, itself when ASCII, nothing otherwise |
| StringExt.Normalize | app/src/main/kotlin/cx/aphex/energysign/ext/StringExt.kt:5-35 | the result is ASCII and character-wise |
| StringExt.ReplaceAllIsSubst | app/src/main/kotlin/cx/aphex/energysign/ext/StringExt.kt:22-24 | the replacement loop is a per-character substitution |
| StringExt.NormalizeAnyOrder | app/src/main/kotlin/cx/aphex/energysign/ext/StringExt.kt:5-35 | the result does not depend on the hash map's iteration order |
| StringExt.NormalizeKeepsAscii | app/src/main/kotlin/cx/aphex/energysign/ext/StringExt.kt:32 | ASCII text is unchanged |
| StringExt.NormalizeIdempotent | app/src/main/kotlin/cx/aphex/energysign/ext/StringExt.kt:5-35 | normalizing twice is normalizing once |
| StringExt.NormalizeAppend | app/src/main/kotlin/cx/aphex/energysign/ext/StringExt.kt:5-35 | normalization commutes with concatenation |
| StringExt.NormalizeSingle | app/src/main/kotlin/cx/aphex/energysign/ext/StringExt.kt:5-35 | one character becomes its replacement |
| StringExt.NormalizeQuoteExample | app/src/main/kotlin/cx/aphex/energysign/ext/StringExt.kt:79 | a right single quote becomes an apostrophe |
| StringExt.NormalizeLessEqualExample | app/src/main/kotlin/cx/aphex/energysign/ext/StringExt.kt:109 | a less-or-equal sign becomes two characters |
| StringExt.NormalizeDropExample | app/src/main/kotlin/cx/aphex/energysign/ext/StringExt.kt:32 | a non-ASCII letter outside the table is dropped |
| KeyboardViewModel.ProcessKey | app/src/main/kotlin/cx/aphex/energysign/keyboard/KeyboardViewModel.kt:29-41 | a code-0 key is ignored; other keys enter input mode, append, and stamp the time |
| KeyboardViewModel.Submit | app/src/main/kotlin/cx/aphex/energysign/keyboard/KeyboardViewModel.kt:43-61 | a blank buffer ends input; after more than five seconds the buffer is emitted and input ends; otherwise nothing |
| KeyboardViewModel.End | app/src/main/kotlin/cx/aphex/energysign/keyboard/KeyboardViewModel.kt:63-67 | the buffer is emptied and input mode left |
| KeyboardViewModel.DeleteKey | app/src/main/kotlin/cx/aphex/energysign/keyboard/KeyboardViewModel.kt:69-74 | the last character goes and the time is stamped; an empty buffer is untouched |
| KeyboardViewModel.EscapeKey | app/src/main/kotlin/cx/aphex/energysign/keyboard/KeyboardViewModel.kt:77-91 | the first escape on typed text turns the echo into a warning; otherwise input ends with a starfield |
| KeyboardViewModel.Echo | app/src/main/kotlin/cx/aphex/energysign/keyboard/KeyboardViewModel.kt:107-113 | the echo frame carries the typed text, in warning mode W or plain mode I |
| KeyboardViewModel.Handle | app/src/main/kotlin/cx/aphex/energysign/keyboard/KeyboardViewModel.kt:93-120 | an echo under 30 seconds of silence; past 30 seconds input ends with a starfield; the queue is cleared in input mode |
| KeyboardViewModel.DeleteUndoesKey | app/src/main/kotlin/cx/aphex/energysign/keyboard/KeyboardViewModel.kt:29-74 | deleting right after a key gives the text back |
| KeyboardViewModel.TypeAll | app/src/main/kotlin/cx/aphex/energysign/keyboard/KeyboardViewModel.kt:29-41 | typed keys end up in the buffer, in order |
| KeyboardViewModel.EndedIsSilent | app/src/main/kotlin/cx/aphex/energysign/keyboard/KeyboardViewModel.kt:93-94 | after input ends no echo is shown and the queue is untouched |
| KeyboardViewModel.KeyThenHandle | app/src/main/kotlin/cx/aphex/energysign/keyboard/KeyboardViewModel.kt:93-120 | a frame within 23 seconds of a key shows the plain echo |
| KeyboardViewModel.EscapeThenHandle | app/src/main/kotlin/cx/aphex/energysign/keyboard/KeyboardViewModel.kt:77-120 | after one escape the next seven seconds show the warning; a second escape ends input |
| KeyboardViewModel.SubmitEmitsWholeBuffer | app/src/main/kotlin/cx/aphex/energysign/keyboard/KeyboardViewModel.kt:53-60 | a submit emits the whole non-blank buffer and ends input |
| KeyboardViewModel.SubmitOnce | app/src/main/kotlin/cx/aphex/energysign/keyboard/KeyboardViewModel.kt:43-67 | submitting twice emits at most once |
| KeyboardManager.ProcessKey | app/src/main/kotlin/cx/aphex/energysign/keyboard/KeyboardManager.kt:34-47 | as in the view model, and an accepted key also empties the queue |
| KeyboardManager.Submit | app/src/main/kotlin/cx/aphex/energysign/keyboard/KeyboardManager.kt:49-70 | a blank buffer ends input; after five seconds the hand-over is scheduled and nothing else changes yet |
| KeyboardManager.CompleteSubmit | app/src/main/kotlin/cx/aphex/energysign/keyboard/KeyboardManager.kt:63-67 | the hand-over emits the buffer as it is then and ends input |
| KeyboardManager.Handle | app/src/main/kotlin/cx/aphex/energysign/keyboard/KeyboardManager.kt:102-128 | the view model's echo, but the queue is touched only by a timeout's starfield |
| KeyboardManager.SameFieldsAsViewModel | app/src/main/kotlin/cx/aphex/energysign/keyboard/KeyboardManager.kt:34-128 | the two keyboards agree on fields and echo and differ only in the queue |
| KeyboardManager.SubmitThenCompleteMatchesViewModel | app/src/main/kotlin/cx/aphex/energysign/keyboard/KeyboardManager.kt:49-70 | a hand-over completed before any further key emits what the view model emits at once |
| KeyboardManager.KeyBeforeCompletion | app/src/main/kotlin/cx/aphex/energysign/keyboard/KeyboardManager.kt:63-67 | a key typed before the hand-over runs is handed over too |
| LegacyMessage.TypeCode | app/src/main/kotlin/cx/aphex/energysign/Message.kt:6-74 | each class has its own type code |
| LegacyMessage.Channels | app/src/main/kotlin/cx/aphex/energysign/Message.kt:10-17 | the colour channels are bytes that rebuild the colour |
| LegacyMessage.EchoShape | app/src/main/kotlin/cx/aphex/energysign/Message.kt:56-63 | the echo is the whole input and a cursor |
| LegacyMessage.ChooserShape | app/src/main/kotlin/cx/aphex/energysign/Message.kt:48-54 | the chooser shows the text and its position reads back as two numbers |
| LegacyMessage.NowPlayingText | app/src/main/kotlin/cx/aphex/energysign/Message.kt:37 | the byte constant is written as "11", so the announcement holds no VT |
| LegacyMessage.FixedTexts | app/src/main/kotlin/cx/aphex/energysign/Message.kt:36-46 | the announcements and microphone toggles are fixed, distinct texts |
| LegacyManager.LoadUserMessages | app/src/main/kotlin/cx/aphex/energysign/MessageManager.kt:506-531 | the non-blank lines of the file, newest first |
| LegacyManager.SaveLoadRoundTrip | app/src/main/kotlin/cx/aphex/energysign/MessageManager.kt:506-543 | saving and loading gives the rotation back when texts are non-blank and single-line |
| LegacyManager.BlankLineSkipped | app/src/main/kotlin/cx/aphex/energysign/MessageManager.kt:517 | a blank line is not loaded |
| LegacyManager.Init | app/src/main/kotlin/cx/aphex/energysign/MessageManager.kt:58-103 | the saved texts and the saved or default ads |
| LegacyManager.PushAdvertisements | app/src/main/kotlin/cx/aphex/energysign/MessageManager.kt:149-172 | as in the live manager |
| LegacyManager.ChooserFrame | app/src/main/kotlin/cx/aphex/energysign/MessageManager.kt:175-182 | the text under the pointer cut to 7 characters, or "<empty>", at its 1-based position |
| LegacyManager.RotationStep | app/src/main/kotlin/cx/aphex/energysign/MessageManager.kt:217-239 | the text under the pointer is shown, the pointer advances, the ads come every advertiseEvery steps |
| LegacyManager.GetNextMessage | app/src/main/kotlin/cx/aphex/energysign/MessageManager.kt:174-228 | chooser, then the inline keyboard, then the queue and the rotation |
| LegacyManager.FindText | app/src/main/kotlin/cx/aphex/energysign/MessageManager.kt:356 | the first text containing the query ignoring case, or -1 |
| LegacyManager.FindUserMessage | app/src/main/kotlin/cx/aphex/energysign/MessageManager.kt:355-362 | seeks to the first match and stays on a miss |
| LegacyManager.ExactCommandOf | app/src/main/kotlin/cx/aphex/energysign/MessageManager.kt:241-307 | the whole commands, with `!f` also meaning first |
| LegacyManager.Delete | app/src/main/kotlin/cx/aphex/energysign/MessageManager.kt:273-282 | removes the text under the pointer and keeps the pointer on the last text at most |
| LegacyManager.ApplyExact | app/src/main/kotlin/cx/aphex/energysign/MessageManager.kt:241-307 | only `!delete` can fail, and then exactly as the deletion does; every whole command keeps the invariant; `!first` points at the first text and `!last` at the last |
| LegacyManager.Control | app/src/main/kotlin/cx/aphex/energysign/MessageManager.kt:241-307 | the whole commands other than `!delete` leave the texts and the track memory unchanged and keep the pointer valid |
| LegacyManager.ProcessAdChange | app/src/main/kotlin/cx/aphex/energysign/MessageManager.kt:364-463 | the parsed script replaces the ads; unless an invader is queued, the flattened ads go in front of the queue; the user texts, position and play count do not change |
| LegacyManager.SettingCommand | app/src/main/kotlin/cx/aphex/energysign/MessageManager.kt:328-351 | `!B` queues a brightness shift, `!A` with a number sets the period and queues only its banner, the search prefixes search, anything else changes nothing; the texts are kept |
| LegacyManager.PrefixCommand | app/src/main/kotlin/cx/aphex/energysign/MessageManager.kt:308-351 | `!` plus the ad glyph replaces the ads; `!B` queues a brightness shift with the parsed number; `!A` with a number sets the ad period and queues only its "AD EVERY=" banner, with no starfield; the search prefixes search; anything else is ignored |
| LegacyManager.ProcessCommand | app/src/main/kotlin/cx/aphex/energysign/MessageManager.kt:241-353 | whole commands first, then prefixes; only `!delete` can throw |
| LegacyManager.ProcessNewUserMessage | app/src/main/kotlin/cx/aphex/energysign/MessageManager.kt:108-125 | pointer to 0, the normalized text at the head, the announcement at the tail |
| LegacyManager.ProcessNewBytes | app/src/main/kotlin/cx/aphex/energysign/MessageManager.kt:608-614 | a leading `!` marks a command |
| LegacyManager.EscapeKey | app/src/main/kotlin/cx/aphex/energysign/MessageManager.kt:566-580 | the first escape turns the echo into a warning; otherwise input ends with a starfield |
| LegacyManager.SubmitKeyboardInput | app/src/main/kotlin/cx/aphex/energysign/MessageManager.kt:588-606 | a blank buffer ends input; after five seconds the buffer becomes a new message |
| LegacyManager.ProcessNowPlayingTrack | app/src/main/kotlin/cx/aphex/energysign/MessageManager.kt:616-637 | as in the live manager, but without the starfield |
| LegacyManager.GetNextMessageKeepsInv | app/src/main/kotlin/cx/aphex/energysign/MessageManager.kt:174-239 | a frame keeps the pointer in range and the track memory bounded |
| LegacyManager.ProcessCommandKeepsInv | app/src/main/kotlin/cx/aphex/energysign/MessageManager.kt:241-353 | a command keeps the invariant |
| LegacyManager.EventsKeepInv | app/src/main/kotlin/cx/aphex/energysign/MessageManager.kt:108-125 | a new message and a track report keep the invariant |
| LegacyManager.QueueHeadShownOnce | app/src/main/kotlin/cx/aphex/energysign/MessageManager.kt:213-215 | a queued message is shown once and removed |
| LegacyManager.SilenceOfExactlyTimeout | app/src/main/kotlin/cx/aphex/energysign/MessageManager.kt:185-204 | at exactly 30 seconds no echo is shown and input mode is not left |
| LegacyManager.SubmitBecomesHead | app/src/main/kotlin/cx/aphex/energysign/MessageManager.kt:588-606 | a submitted text becomes the head of the rotation, shown after the announcement |
| LegacyManager.BareFirstOnlyHere | app/src/main/kotlin/cx/aphex/energysign/MessageManager.kt:263-266 | `!f` seeks to the first text here but not in the live manager |
| LegacyManager.RotationAgreesWithLive | app/src/main/kotlin/cx/aphex/energysign/MessageManager.kt:217-239 | a rotation step shows the same text and moves pointer and count as the live one |
| GattServerActivity.Encode | app/src/main/kotlin/com/example/androidthings/gattserver/GattServerActivity.kt:131-165 | a frame is a control byte then its payload |
| GattServerActivity.NumeralChars | app/src/main/kotlin/com/example/androidthings/gattserver/GattServerActivity.kt:148 | a decimal numeral holds only digits and a minus sign |
| GattServerActivity.DecodeChooserFrame | app/src/main/kotlin/com/example/androidthings/gattserver/GattServerActivity.kt:146-150 | a chooser frame reads back as its two indices and text |
| GattServerActivity.DecodeEchoFrame | app/src/main/kotlin/com/example/androidthings/gattserver/GattServerActivity.kt:132-139 | an echo frame reads back as its text and warning flag |
| GattServerActivity.DecodeLeadFrame | app/src/main/kotlin/com/example/androidthings/gattserver/GattServerActivity.kt:141-160 | an alert or microphone frame reads back as itself |
| GattServerActivity.DecodeEncode | app/src/main/kotlin/com/example/androidthings/gattserver/GattServerActivity.kt:131-165 | every frame a reader can tell apart reads back as itself |
| GattServerActivity.EmptyTextLooksLikeNothing | app/src/main/kotlin/com/example/androidthings/gattserver/GattServerActivity.kt:140-163 | an empty stored string and an empty list give the same empty frame |
| GattServerActivity.NextFrame | app/src/main/kotlin/com/example/androidthings/gattserver/GattServerActivity.kt:126-172 | stale input is cleared, a frame is picked by priority and the pointer advances unless paused |
| GattServerActivity.CommandOf | app/src/main/kotlin/com/example/androidthings/gattserver/GattServerActivity.kt:515-560 | the commands are matched exactly; anything else is ignored |
| GattServerActivity.DeleteChosen | app/src/main/kotlin/com/example/androidthings/gattserver/GattServerActivity.kt:536-541 | the chosen string goes and only the chooser index is re-clamped |
| GattServerActivity.Apply | app/src/main/kotlin/com/example/androidthings/gattserver/GattServerActivity.kt:513-561 | a command fails exactly when it is `!delete` with the chooser index outside the list |
| GattServerActivity.Control | app/src/main/kotlin/com/example/androidthings/gattserver/GattServerActivity.kt:515-560 | the commands other than `!delete` leave the list, the alert flag, the keyboard input and the last frame alone, and keep both indices in range, except `!next` and `!last` on an empty list |
| GattServerActivity.Pick | app/src/main/kotlin/com/example/androidthings/gattserver/GattServerActivity.kt:131-165 | with both indices in range no frame crashes, and a failing frame is an index error; the keyboard echo is chosen exactly while the input is younger than the timeout; only the alert and microphone-change flags are cleared |
| GattServerActivity.Advance | app/src/main/kotlin/com/example/androidthings/gattserver/GattServerActivity.kt:170-172 | unpaused, the pointer moves on and wraps to 0 after the last string; paused, it stays; a pointer in range stays in range |
| GattServerActivity.Command | app/src/main/kotlin/com/example/androidthings/gattserver/GattServerActivity.kt:513-561 | the command's effect; only `!delete` can throw |
| GattServerActivity.FirstPair | app/src/main/kotlin/com/example/androidthings/gattserver/GattServerActivity.kt:564 | the index of the first `++`, with none before it |
| GattServerActivity.SplitPlusPlus | app/src/main/kotlin/com/example/androidthings/gattserver/GattServerActivity.kt:564 | the pieces between non-overlapping `++` |
| GattServerActivity.JoinSplitPlusPlus | app/src/main/kotlin/com/example/androidthings/gattserver/GattServerActivity.kt:564 | joining the pieces with `++` gives the text back |
| GattServerActivity.PiecesHaveNoPair | app/src/main/kotlin/com/example/androidthings/gattserver/GattServerActivity.kt:564 | no piece holds a `++` |
| GattServerActivity.PushEachReverses | app/src/main/kotlin/com/example/androidthings/gattserver/GattServerActivity.kt:564-576 | pushing items one by one onto the head reverses them |
| GattServerActivity.Receive | app/src/main/kotlin/com/example/androidthings/gattserver/GattServerActivity.kt:563-576 | the non-blank pieces go to the head in order, the pointer goes to 0, the alert is armed |
| GattServerActivity.Write | app/src/main/kotlin/com/example/androidthings/gattserver/GattServerActivity.kt:373-379 | a leading `!` marks a command, otherwise new strings |
| GattServerActivity.TypeKey | app/src/main/kotlin/com/example/androidthings/gattserver/GattServerActivity.kt:693-696 | a key is appended and restarts the input clock |
| GattServerActivity.DeleteKey | app/src/main/kotlin/com/example/androidthings/gattserver/GattServerActivity.kt:698-704 | the last character goes; on empty input the echo ends |
| GattServerActivity.Submit | app/src/main/kotlin/com/example/androidthings/gattserver/GattServerActivity.kt:706-712 | the echo ends; non-blank input is received and cleared, blank input kept |
| GattServerActivity.DispatchKey | app/src/main/kotlin/com/example/androidthings/gattserver/GattServerActivity.kt:678-691 | enter submits, delete deletes, space and printing keys type |
| GattServerActivity.Load | app/src/main/kotlin/com/example/androidthings/gattserver/GattServerActivity.kt:581-595 | the file's lines, last first, blank lines kept |
| GattServerActivity.SaveLoadRoundTrip | app/src/main/kotlin/com/example/androidthings/gattserver/GattServerActivity.kt:581-604 | saving and loading gives the list back when no string holds a line break |
| GattServerActivity.Init | app/src/main/kotlin/com/example/androidthings/gattserver/GattServerActivity.kt:624-629 | the loaded strings, with "TRONCE" as the first frame when there are none |
| GattServerActivity.QuietFrame | app/src/main/kotlin/com/example/androidthings/gattserver/GattServerActivity.kt:131-165 | with the keyboard quiet: alert, chooser, microphone switch, then the plain string; alert and switch are used up |
| GattServerActivity.AlertShownOnce | app/src/main/kotlin/com/example/androidthings/gattserver/GattServerActivity.kt:141-145 | a received string is shown next with the alert, and the frame after carries none |
| GattServerActivity.MicChangeSentOnce | app/src/main/kotlin/com/example/androidthings/gattserver/GattServerActivity.kt:151-160 | a microphone switch is sent once |
| GattServerActivity.ChooserFrameReadsBack | app/src/main/kotlin/com/example/androidthings/gattserver/GattServerActivity.kt:146-150 | the chooser frame reads back as the chooser index, last index and chosen text |
| GattServerActivity.KeyEchoed | app/src/main/kotlin/com/example/androidthings/gattserver/GattServerActivity.kt:126-139 | a key is echoed for 30 seconds, as a warning after 23 |
| GattServerActivity.KeyboardTimeout | app/src/main/kotlin/com/example/androidthings/gattserver/GattServerActivity.kt:126-132 | input is dropped after 30 seconds; at exactly 30 it is kept but not echoed |
| GattServerActivity.DeleteUndoesKey | app/src/main/kotlin/com/example/androidthings/gattserver/GattServerActivity.kt:693-704 | deleting right after a key takes the character back |
| GattServerActivity.SubmitShownNext | app/src/main/kotlin/com/example/androidthings/gattserver/GattServerActivity.kt:706-712 | a submitted input is shown next, with the alert |
| GattServerActivity.BlankHasNoPieces | app/src/main/kotlin/com/example/androidthings/gattserver/GattServerActivity.kt:564 | a blank text keeps no pieces |
| GattServerActivity.ReceiveRoundTrip | app/src/main/kotlin/com/example/androidthings/gattserver/GattServerActivity.kt:564 | with no blank piece, the stored strings joined by `++` are the received text |
| GattServerActivity.ChooseEndChoose | app/src/main/kotlin/com/example/androidthings/gattserver/GattServerActivity.kt:516-545 | `!choose` then `!endchoose` returns to the same place |
| GattServerActivity.PrevThenNext | app/src/main/kotlin/com/example/androidthings/gattserver/GattServerActivity.kt:520-527 | `!prev` then `!next` restores both indices unless one was 0 |
| GattServerActivity.DeleteStrandsPointer | app/src/main/kotlin/com/example/androidthings/gattserver/GattServerActivity.kt:536-541 | deleting can leave the pointer past the end, and the next frame throws |
| GattServerActivity.EmptyListChooserFails | app/src/main/kotlin/com/example/androidthings/gattserver/GattServerActivity.kt:532-535 | `!last` on an empty list sets the chooser to -1 and a later chooser frame throws |

The legacy manager's `processNewKeyboardKey` and `deleteKey`
(app/src/main/kotlin/cx/aphex/energysign/MessageManager.kt:545-564) are the view model's rules on the same fields. The legacy
model applies `KeyboardViewModel.ProcessKey` and
`KeyboardViewModel.DeleteKey` to them. `KeyboardManager`'s `deleteKey` and
`escapeKey` (app/src/main/kotlin/cx/aphex/energysign/keyboard/KeyboardManager.kt:78-100) are the view model's `DeleteKey` and
`EscapeKey`.

## Left out

- Bluetooth and GATT (advertising, bonding, descriptors, read responses) are not modelled. A write is an input event and a frame is an output value.
- The UART device and its write are not modelled. A frame's bytes are the model's output.
- The language-model HTTP calls, coroutines and the Koin injection are not modelled. A scheduled hand-over is a separate event, `KeyboardManager.CompleteSubmit`.
- Gson's JSON encoding of the ads file is not modelled. Only the type-code dispatch of `MessageSerializer` is modelled, on the `type` and `str` strings.
- Files are modelled as their text contents, and `createNewFile` is not modelled. Save errors are caught in the code and have no effect on the model.
- The emoji library is not modelled. `extractEmojis` is reduced to the fixed set of glyphs the ad script uses, without variation selectors.
- Strings are sequences of code points, not UTF-16 units. A lone surrogate half is not representable.
- Received bytes are taken as characters. The UTF-8 decoding of `String(value)` is not modelled.
- `lowercase`, `uppercase` and `ignoreCase` map ASCII letters only.
- Decimal.ParseInt: accepts ASCII digits only, while `toIntOrNull` also accepts the decimal digits of other Unicode scripts; a command such as `!B` followed by Arabic-Indic digits parses in the app and gives None here.
- Times (`Long`) are unbounded integers. Only the step counter's `Int` wrap-around and the delay's narrowing to `Short` are modelled.
- The atomic pointer and the threads around it are not modelled. Every event runs to completion.
- The app's colour resources, `convertHeartEmojis`, `String.uppercase` on the answer and `GPTThinking.thinkMore` are not modelled. They are parameters of the environment record.
- Logging and the on-screen log are not modelled.
- `MAX_SIGN_STRINGS` is not modelled: it is declared but never used.
- The root `Message.kt` classes are modelled only as message values (`LegacyMessage`). The root `MessageManager.kt` uses other shapes: `str`, `copy`, and the live `Starfield` and `IconInvaders`. Its scheduler is therefore modelled over the live message type.
- `loadAds` and `saveAds` are not modelled. The loaded ads are a parameter of `Init`.
- `MessageRepository.SaveLoadRoundTrip` requires saveable entries (DEFAULT or Chonky type, non-blank single-line text, no VT), because other entries are dropped or split. The drops are stated separately, and `MessageRepository.LineBreakEntryLost` shows the split.
- MessageManager.ExactCommandOf: matches the mute label as the emoji `!🔇`. The source spells it as that emoji's UTF-8 bytes read as Windows-1252 (app/src/main/kotlin/cx/aphex/energysign/message/MessageManager.kt:406), so a real `!🔇` is not matched there; `CommandsAsWritten.ExactCommandOf` models the label as written (see Findings).
- MessageManager.PrefixCommand: matches the advertisement prefix as `!🅰` and drops its two UTF-16 units. The source's prefix is the four-character spelling (app/src/main/kotlin/cx/aphex/energysign/message/MessageManager.kt:413); `CommandsAsWritten.PrefixCommand` models it as written (see Findings).
- LegacyManager.ExactCommandOf: the same reading of the mute label (app/src/main/kotlin/cx/aphex/energysign/MessageManager.kt:303); `CommandsAsWritten.LegacyExactCommandOf` models it as written.
- LegacyManager.PrefixCommand: the same reading of the advertisement prefix (app/src/main/kotlin/cx/aphex/energysign/MessageManager.kt:310); `CommandsAsWritten.LegacyPrefixCommand` models it as written.
- SchedulerProperties.AdChangeCommand: is about the real `!🅰` command. As written that command is ignored (`CommandsAsWritten.RealAdCommandIgnored`), and the written prefix followed by a script of real emoji clears the ads (`CommandsAsWritten.WrittenAdCommandClearsAds`).
- AdScript.Delay: counts real clock glyphs. The source compares each extracted emoji with the four-character clock spelling, which none equals, so every line is held 1000 ms there (`AdScriptAsWritten.Delay`).
- AdScript.EmojiToColor: looks for the real colour glyphs. The source looks for their Windows-1252 spellings (`AdScriptAsWritten.EmojiToColor`).
- AdScript.ParseAdLine: recognises the real lead glyphs and icon glyphs. The source's leads are the Windows-1252 spellings (`AdScriptAsWritten.ParseAdLine`): a real lead line is skipped, an invader line shows the first invader, and the bare spelled-out invader throws.
- AdScript.GlyphDropped: is about real glyphs. A spelled-out lead stays in the text, and the chonky one leaves a `'` (`AdScriptAsWritten.ChonkyLeadLeavesQuote`).
- AdScript.ChonkyLineExample: uses real emoji. As written that line is skipped (`AdScriptAsWritten.RealLeadSkipped`).
- AdScript.SheepLineExample: uses real emoji. As written the icon is always the first invader (`AdScriptAsWritten.IconOfGlyph`).
- AdScriptAsWritten.ParseAdLine: `extractEmojis` as written would also report a few symbols such as U+2122 inside the spelled-out literals. The model uses the reduced glyph set of `AdScript.Emojis`, which holds none of the literals' characters.

## Findings

Every row reads an emoji literal as written. The confidence cell says how
sure the reading is that the emoji was meant.

| source | as written | input that shows it | evidently intended | confidence | as-written member | corrected member |
|---|---|---|---|---|---|---|
| app/src/main/kotlin/cx/aphex/energysign/message/MessageManager.kt:413 | the advertisement prefix is `!` and 🅰's UTF-8 bytes as Windows-1252 | `!🅰` followed by a script: no branch matches and the ads stay | the command replaces the ads with the script | high; not executed | CommandsAsWritten.RealAdCommandIgnored | MessageManager.PrefixCommand |
| app/src/main/kotlin/cx/aphex/energysign/message/MessageManager.kt:406 | the mute label is `!` and 🔇's UTF-8 bytes as Windows-1252 | `!🔇`: nothing happens | the microphone is switched off | high; not executed | CommandsAsWritten.RealMuteIgnored | MessageManager.ExactCommandOf |
| app/src/main/kotlin/cx/aphex/energysign/MessageManager.kt:310 | the legacy advertisement prefix, spelled the same way | `!🅰` followed by a script: the ads stay | the command replaces the ads | high; not executed | CommandsAsWritten.LegacyRealAdCommandIgnored | LegacyManager.PrefixCommand |
| app/src/main/kotlin/cx/aphex/energysign/MessageManager.kt:303 | the legacy mute label, spelled the same way | `!🔇`: nothing happens | the microphone is switched off | high; not executed | CommandsAsWritten.LegacyRealMuteIgnored | LegacyManager.ExactCommandOf |
| app/src/main/kotlin/cx/aphex/energysign/message/MessageManager.kt:474-506 | the four lead literals are spelled out, and each starts with U+00F0 | the line `🆑HI`: skipped | a chonky slide "HI" | high; not executed | AdScriptAsWritten.RealLeadSkipped | AdScript.ParseAdLine |
| app/src/main/kotlin/cx/aphex/energysign/message/MessageManager.kt:471 | the clock literal is four characters, which no extracted emoji equals | the line `🆑🕰`: held 1000 ms | held 2000 ms | high; not executed | AdScriptAsWritten.ClockIgnored | AdScript.Delay |
| app/src/main/kotlin/cx/aphex/energysign/message/MessageManager.kt:530-560 | the colour literals are spelled out | the line `🆑💗HI`: no colour | pink | high; not executed | AdScriptAsWritten.HeartExampleDiffers | AdScript.EmojiToColor |
| app/src/main/kotlin/cx/aphex/energysign/message/MessageManager.kt:506-509 | a line that starts with the spelled-out invader need hold no emoji, and `last()` throws | the line that is just the spelled-out invader: NoSuchElement | an invader line always holds its own glyph and shows an icon | medium; not executed | AdScriptAsWritten.InvaderLiteralThrows | AdScript.ParseAdLine |
| app/src/main/kotlin/cx/aphex/energysign/message/MessageManager.kt:509-518 | the icon literals are spelled out, so no extracted emoji equals one | the line `👾🐑`: the first invader | the sheep | high; not executed | AdScriptAsWritten.IconOfGlyph | AdScript.SheepLineExample |
| app/src/main/kotlin/cx/aphex/energysign/message/MessageManager.kt:474-477 | the spelled-out lead stays in the normalized text | the spelled-out chonky lead before `HI`: the text `'HI` | the text `HI` | medium; not executed | AdScriptAsWritten.ChonkyLeadLeavesQuote | AdScript.GlyphDropped |
| app/src/main/kotlin/cx/aphex/energysign/message/MessageManager.kt:428 | `cmd.drop(2)` after the spelled-out prefix keeps its last three characters | the spelled-out prefix, a line break and a script of real emoji: the ads are cleared | the script's ads replace the old ones | medium; not executed | CommandsAsWritten.WrittenAdCommandClearsAds | SchedulerProperties.AdChangeCommand |
