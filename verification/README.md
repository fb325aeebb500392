# go-bot text-to-speech Discord bot — Dafny model

This project models the bookkeeping and text logic of a Discord bot that joins
a guild's voice channel and reads members' text messages aloud. Discord, the
text-to-speech subprocess, audio playback, files and the clock are outside the
model. Their results are explicit parameters, and so are the random draws.

What is modelled, one Dafny module per Go file:

- `Helper`: the admission-filter predicates (`IsLink`, `ContainsMention`,
  `ContainsSticker`) and the exact-match pronunciation table `ProcessText`.
- `HatedUsers`: the hated-user set and the rewrite applied to their messages.
  The two `rand.Intn` draws are parameters.
- `MessageHandler`: the per-guild FIFO queues. Each queue is created lazily
  with the hard-coded capacity 100. The worker takes the head, and
  `handleMessage` is a pure outcome function.
- `QueueControl` and `AudioControl`: the capacity-1 skip signal and the audio
  sessions with their stop channels. Go channels are references, so the stop
  channels live in a small heap with an open/closed flag. Closing a closed
  channel is a `Panicked` outcome.
- `VoiceRegistry` and `VoiceCommands`: the voice-connection map, the
  first-match voice-state search, and `join`/`leave` as registry transitions.
- `Commands` and `Bot`: the six-command table, the registration entries and
  loop, first-match dispatch, the self-message filter, and the token guard.
- `BotVoice`: the older pipeline copy in `internal/bot/voice.go`, including
  `muklock`.
- `Config`: `getEnv`, `getEnvAsInt` and `LoadConfig` over an environment map.
  `strconv.Atoi` is modelled for Go's 64-bit `int`.
- `Logging`, `MessageLog` and `MsgLog`: the level gate, the line prefix, the
  message-log entry and file name, and the `msglog` tool. The tool's parts
  are the line filter, the match counting and the date listing.
- `Text` and `Wrappers`: Go string primitives (`strings.Contains`,
  `strings.Split`, `strings.TrimSuffix`, `bufio.ScanLines`) and
  `Option`/`Result`.

Behaviour of the code worth noting:

- The queue capacity is the constant 100. The configured `QueueSize` is never
  read.
- A skip for a guild that has no skip channel returns the error "no active TTS
  session to skip". It is not a silent no-op.
- `GetSkipChannel` reuses an existing channel rather than allocating a fresh
  one.
- Deleting a spoken message is attempted whether or not a skip arrived; a
  failed delete is only logged as a warning.
- A hated user's text is replaced when the draw is below 90. A comment in the
  source says "10%", but the condition gives a 90% chance.

## Model

| member | source | states |
|---|---|---|
| Text.Contains | internal/voice/helper.go:15 | `strings.Contains` holds iff the pattern occurs at some index of the text |
| Text.TrimSuffix | cmd/msglog/main.go:88 | `strings.TrimSuffix` removes the suffix exactly when the text ends with it, so appending it back restores the text; otherwise the text is unchanged; the result is always a prefix of the text |
| Text.Split | cmd/msglog/main.go:86 | `strings.Split` yields at least one part, no part holds the separator, and the parts joined with it give back the input |
| Text.SplitUnique | cmd/msglog/main.go:86 | any separator-free decomposition that joins back to the string is the one `Split` returns |
| Text.ScanLinesOfTerminated | cmd/msglog/main.go:36-42 | newline-terminated lines written to a file are read back by the scanner as exactly those lines |
| Text.ScanLines | cmd/msglog/main.go:36-42 | no scanned line holds a newline |
| Helper.IsLink | internal/voice/helper.go:9-11 | true iff some position starts "http://" or "https://" followed by at least one character outside RE2's `\s` (tab, newline, form feed, carriage return, space) |
| Helper.ContainsMention | internal/voice/helper.go:14-16 | true iff "@" occurs anywhere, e-mail addresses included |
| Helper.ContainsSticker | internal/voice/helper.go:19-21 | for any sticker count a message can have, true iff it is not zero |
| Helper.ProcessText | internal/voice/helper.go:24-38 | the three Thai phrases map to their replacements; every other string is returned unchanged |
| Helper.ProcessTextIdempotent | internal/voice/helper.go:24-38 | applying the table twice equals applying it once, since no replacement is a key |
| Helper.ProcessTextWholeMatch | internal/voice/helper.go:26-33 | text that contains a key but is not that key is unchanged |
| HatedUsers.Add | internal/voice/user_transformations.go:25-31 | afterwards the user is hated; every other user's membership is unchanged |
| HatedUsers.IsHated | internal/voice/user_transformations.go:43-48 | a user is hated iff in the set; the map stores only true and deletes on removal, so an absent key reads false as in the map |
| HatedUsers.Remove | internal/voice/user_transformations.go:34-40 | afterwards the user is not hated; others unchanged; removing an absent user is a no-op |
| HatedUsers.AddRemoveRoundTrip | internal/voice/user_transformations.go:25-40 | adding then removing a user who was not hated restores the set |
| HatedUsers.GetAll | internal/voice/user_transformations.go:51-61 | the list holds each member exactly once, and its length is the set's size |
| HatedUsers.ApplyHated | internal/voice/user_transformations.go:75-127 | empty text always gets stock response `pick`; otherwise a draw below 90 gives that response and a draw of 90 or more keeps the text; the result is the text or one of the stock responses |
| HatedUsers.ApplyUserSpecific | internal/voice/user_transformations.go:64-72 | text from a user who is not hated is unchanged; a hated user's text is rewritten; the result is the text or a stock response |
| HatedUsers.EmptyTextAlwaysStock | internal/voice/user_transformations.go:77-123 | the response list has 41 entries, and a hated user's empty text becomes one of them whatever the draws |
| MessageHandler.ProcessMessage | internal/voice/message_handler.go:19-59 | bot messages are dropped; otherwise the guild's queue is created with capacity 100 if missing, and the message is appended to it alone; a send to a full queue blocks; queue well-formedness is preserved |
| MessageHandler.QueueCreatedOnce | internal/voice/message_handler.go:50-55 | an existing queue is reused: its capacity and earlier contents survive ingestion |
| MessageHandler.TakeNext | internal/voice/message_handler.go:62-67 | the worker takes the head of its own guild's queue; the same guilds keep queues, its own queue keeps its capacity, and every other guild's queue is unchanged |
| MessageHandler.DrainAll | internal/voice/message_handler.go:62-67 | the worker handles a queue's messages front to back, each once |
| MessageHandler.RunQueues | internal/voice/message_handler.go:49-67 | a schedule of completed sends and receives keeps every queue at capacity 100, holding only its guild's messages; a send on a full queue or a receive on an empty one cannot complete at that point |
| MessageHandler.Conservation | internal/voice/message_handler.go:49-67 | per guild, over any feasible schedule: the messages waiting at the start followed by those delivered equal the messages handled followed by those still waiting |
| MessageHandler.FifoOrder | internal/voice/message_handler.go:49-67 | over any feasible schedule of sends and receives, interleaved and of any length, a guild's worker handles exactly a prefix of the messages waiting then delivered to that guild, in that order, none skipped or repeated; all of them once its queue is empty again |
| MessageHandler.TakeUnblocks | internal/voice/message_handler.go:58-63 | a send that blocks on a full queue goes through once the worker has taken one message |
| MessageHandler.BotMessagesNeverQueued | internal/voice/message_handler.go:20-22 | a bot-authored message completes at once, changes no queue and is never handled |
| MessageHandler.ShouldSkip | internal/voice/message_handler.go:126-130 | true iff the message has a sticker, an "@", or a link |
| MessageHandler.HandleMessage | internal/voice/message_handler.go:70-123 | ignored iff there is no usable connection, the filter rejects the message, or it is empty; TTS failure means no deletion; on success the transformed text is spoken and deletion is attempted exactly once, its failure only recorded |
| MessageHandler.FilteredNeverSpoken | internal/voice/message_handler.go:77-80 | a message with a sticker, "@" or link is never synthesised or deleted |
| MessageHandler.IngestLogEntry | internal/voice/message_handler.go:24-47 | a human message is logged whenever the logger is set up, with "Unknown" for unresolved guild or channel names; bot messages and an unset logger log nothing |
| QueueControl.GetSkipChannel | internal/voice/queue_control.go:18-27 | an existing channel is returned without change; otherwise a new, empty capacity-1 channel is stored, with an ID no stored channel has; buffers stay within capacity |
| QueueControl.GetSkipChannelStable | internal/voice/queue_control.go:18-27 | a second call for the same guild returns the same channel and changes nothing |
| QueueControl.RemoveSkipChannel | internal/voice/queue_control.go:30-38 | the guild's channel is gone, every other guild's channel is kept, and the audio sessions and channel counter are unchanged; removing an absent one is a no-op |
| QueueControl.ReceiveSkip | internal/voice/message_handler.go:93-97 | the skip listener takes the buffered signal, emptying the buffer; other guilds' channels, the channel's identity and the audio sessions are unchanged |
| QueueControl.SkipAsWritten | internal/voice/queue_control.go:41-67 | no channel gives the "no active TTS session to skip" error; a full buffer gives nil and no change; on an empty buffer it panics iff the guild's stored session's stop channel is already closed, and otherwise deposits the signal, returns nil, closes that stop channel and keeps the session stored, leaving other guilds unchanged |
| QueueControl.SkipAsWrittenLeavesClosedSession | internal/voice/queue_control.go:56-60 | after a successful skip the stored session's stop channel is closed, so `RemoveAudioSession` or `CreateAudioSession` for that guild panics |
| QueueControl.SkipTwicePanics | internal/voice/queue_control.go:51-60 | concrete run: skip, the listener takes the signal, skip again, and the second skip closes a closed channel |
| QueueControl.Skip | internal/voice/queue_control.go:41-67 | corrected skip: same errors and no-op case; it panics exactly when removing the session would; a send raises its own guild's pending count by one, leaves every other guild's skip channel and the next channel number alone, and the audio state becomes exactly what removing the session gives; no panic from a good state |
| QueueControl.Apply | internal/voice/queue_control.go:18-67 | corrected design only (see Findings): with skips made by `QueueControl.Skip` in place of the code as written, each skip-channel or audio-session operation keeps buffers within capacity 1 and every stored session stoppable |
| QueueControl.Run | internal/voice/queue_control.go:18-67 | corrected design only (see Findings): any sequence of those operations from a good state stays good, so pending skip signals never exceed 1 and nothing panics; the code as written panics, as `QueueControl.SkipTwicePanics` shows |
| AudioControl.CloseStop | internal/tts/audio_control.go:39 | closing an open stop channel marks it closed; closing a closed one panics |
| AudioControl.Get | internal/tts/audio_control.go:24-30 | the stored session, or absence |
| AudioControl.Create | internal/tts/audio_control.go:33-50 | the prior session's stop channel is closed; the guild then has a session with a fresh, open channel and the given connection; other guilds are unchanged, exactly one channel is allocated, and every other channel's open flag is unchanged; no panic while every stored channel is open |
| AudioControl.Remove | internal/tts/audio_control.go:53-61 | an existing session's channel is closed and the session deleted; an absent guild is a no-op; other sessions, the set of channels, the channel counter and every other channel's open flag are unchanged |
| VoiceRegistry.Get | internal/voice/voice.go:23-28 | the stored connection with ok, or not ok |
| VoiceRegistry.Set | internal/voice/voice.go:16-20 | afterwards Get returns the new connection, overwriting any earlier one; other guilds unchanged |
| VoiceRegistry.Remove | internal/voice/voice.go:31-35 | afterwards Get reports not ok; other guilds unchanged; absent is a no-op |
| VoiceRegistry.FirstChannelOf | internal/voice/voice.go:44-49 | the channel of the first voice state whose user matches, or none iff no state matches |
| VoiceRegistry.JoinUserVoice | internal/voice/voice.go:38-52 | a failed guild lookup is returned unchanged; no matching voice state gives "user is not in a voice channel"; otherwise the join of the first match's channel |
| VoiceCommands.HandleJoin | internal/commands/voice_commands.go:12-25 | a failed join returns its error and leaves the registry unchanged; a successful one stores the connection without disconnecting the earlier one, and replies "Joined the voice channel!", the reply's own error becoming the result |
| VoiceCommands.HandleLeave | internal/commands/voice_commands.go:28-47 | a missing, nil or channel-less entry gives "bot is not in a voice channel" and no change; a failed Disconnect is returned and the entry kept; otherwise the entry is removed and it replies "Left the voice channel!" |
| VoiceCommands.JoinThenLeave | internal/commands/voice_commands.go:12-47 | a successful join followed by a successful leave leaves the guild without a connection |
| Commands.GetCommands | internal/commands/commands.go:20-53 | six commands with pairwise distinct names, each wired to its handler |
| Commands.CommandNames | internal/commands/commands.go:23-50 | the names in order are join, leave, skip, hate, unhate, hatelist |
| Commands.ToApplicationCommand | internal/commands/commands.go:62-79 | same name and description; one required user option named "user" for hate and unhate, none otherwise |
| Commands.BuildApplicationCommands | internal/commands/commands.go:57-82 | one registration entry per command, at the same index |
| Commands.OnlyHateCommandsTakeAUser | internal/commands/commands.go:68-79 | in the real table exactly positions 3 and 4 (hate, unhate) carry an option |
| Commands.RegisterCommands | internal/commands/commands.go:85-95 | nil iff every create call succeeds; otherwise the error names the first failing command and guild in loop order |
| Bot.NewBot | internal/bot/bot.go:25-46 | logging setup errors come first, then an empty token fails with "DISCORD_TOKEN environment variable not set"; success iff all steps succeed and the token is set |
| Bot.Start | internal/bot/bot.go:84-105 | start fails iff opening or registration fails; a failure to clear commands is tolerated |
| Bot.OnMessageCreate | internal/bot/bot.go:61-73 | messages by the bot's own user ID are dropped; others go to the pipeline |
| Bot.OwnMessagesNeverQueued | internal/bot/bot.go:63-65 | the bot's own messages are neither queued nor wait on a full queue |
| Bot.FindCommand | internal/bot/bot.go:137-138 | the first table position whose name matches, or none iff no name matches |
| Bot.HandleInteraction | internal/bot/bot.go:127-156 | non-command interactions are ignored; an unknown name runs nothing; otherwise only the first matching handler runs, and its error is answered with "Error: " and the error text |
| Bot.DispatchReachesTableHandler | internal/bot/bot.go:137-151 | every table name dispatches to the handler at its own position |
| BotVoice.Muklock | internal/bot/voice.go:129-139 | the replacement with true for the three phrases, the text with false otherwise |
| BotVoice.MuklockAgreesWithProcessText | internal/bot/voice.go:129-139 | the first component equals `ProcessText` on every input |
| BotVoice.MessageCreate | internal/bot/voice.go:20-35 | bot messages are dropped; a new guild gets a capacity-100 queue holding the message |
| BotVoice.MessageCreateAgrees | internal/bot/voice.go:20-35 | the older ingestion behaves exactly like `ProcessMessage` on every queue state and message |
| BotVoice.InlineFilterIsShouldSkip | internal/bot/voice.go:52-54 | the inline filter rejects exactly what `shouldSkipMessage` rejects |
| BotVoice.HandleMessage | internal/bot/voice.go:44-111 | ignored iff unusable connection, filtered or empty; a failure of either script stops before playback and deletion; the phrase path plays three files in order, otherwise only tts.mp3 |
| Config.Getenv | internal/config/config.go:47 | `os.Getenv` yields the empty string exactly when the variable is unset or set to empty, and otherwise the value it is set to |
| Config.GetEnv | internal/config/config.go:46-52 | the default is returned iff the variable is unset, empty or equal to the default; otherwise its value |
| Config.Atoi | internal/config/config.go:61 | accepts exactly an optional sign then at least one decimal digit, with the value within 64-bit range; a rejected spelling is a range error iff it is well formed, or its leading digits already exceed 64 bits before the first bad character, as `ParseUint`'s left-to-right scan reports, and a syntax error otherwise |
| Config.OverflowBeforeJunk | internal/config/config.go:61 | digits worth more than 2^64 - 1 followed by any non-digit give a range error, not a syntax error |
| Config.TwentyNinesThenJunk | internal/config/config.go:61 | "99999999999999999999x" gives a range error |
| Config.DigitsOfNat | internal/config/config.go:61 | the decimal spelling of a natural number reads back as that number |
| Config.AtoiOfDecimal | internal/config/config.go:61-65 | `Atoi` returns n for the decimal spelling of every 64-bit n |
| Config.GetEnvAsInt | internal/config/config.go:55-66 | the default for an empty value or one `Atoi` rejects, otherwise the parsed value |
| Config.GetEnvAsIntOfDecimal | internal/config/config.go:55-66 | a variable holding the spelling of a 64-bit n yields n |
| Config.LoadConfig | internal/config/config.go:30-43 | the token and voice are their variables' values; prefix, language and quality are the value or, when it is empty, "!", "en", "medium"; queue size, timeout and log level are the parsed value or, when `Atoi` rejects it, 100, 60, 1 |
| Config.LoadConfigDefaults | internal/config/config.go:30-43 | the empty environment gives prefix "!", language "en", queue size 100, timeout 60, quality "medium", log level 1, empty token and voice |
| Config.LoadConfigLocal | internal/config/config.go:30-43 | each field depends only on its own environment variable |
| Logging.Log | internal/logging/logging.go:56-81 | Debug, Info, Warn and Error write iff the configured level is at most theirs, as "[" + name + "] " + message |
| Logging.Line | internal/logging/logging.go:92-95 | the line is "[", the level name, "] " and then the message unchanged |
| Logging.Fatal | internal/logging/logging.go:84-89 | Fatal logs and exits iff the configured level is at most 4; otherwise it does neither |
| Logging.EmitsMonotone | internal/logging/logging.go:56-81 | if a level writes, every higher level writes too |
| Logging.LineDeterminesLevel | internal/logging/logging.go:92-95 | a written line determines its level and message |
| MessageLog.FileName | internal/logging/message_log.go:21 | the file is "logs/messages_" + date + ".log", and the date can be read back from it |
| MessageLog.LogMessage | internal/logging/message_log.go:32-42 | no output without a logger; otherwise the newline-terminated entry, which contains the guild, channel and user labels with their names and the content |
| MessageLog.EntryLine | internal/logging/message_log.go:37-39 | the entry starts with "[" + timestamp + "] " and ends with the message content unchanged |
| MessageLog.EntryContainsFields | internal/logging/message_log.go:37-39 | "Guild: '"+guild, "Channel: '#"+channel, "User: '"+user and the content are substrings of the entry |
| MsgLog.LogPath | cmd/msglog/main.go:23 | the searched path is the file the bot writes for that date |
| MsgLog.KeptLines | cmd/msglog/main.go:45-56 | a line is kept iff it is in the file and passes every filter, and no more lines are kept than scanned |
| MsgLog.KeptLinesConcat | cmd/msglog/main.go:40-61 | filtering keeps file order: the kept lines of two stretches of the file are those of the first followed by those of the second |
| MsgLog.NoFiltersKeepAll | cmd/msglog/main.go:45-56 | with every filter empty, every line is kept |
| MsgLog.Search | cmd/msglog/main.go:36-68 | lineCount is the number of scanned lines; the printed lines are exactly the kept ones in order, so every scanned line passing all filters is printed and every printed line passes them; matchCount is their number, and matchCount <= lineCount |
| MsgLog.LoggedEntryIsFound | cmd/msglog/main.go:45-56 | a message entry without line breaks reads back as one line, and that line passes any filter taken from its own guild, channel, user and content |
| MsgLog.SearchAllOfFile | cmd/msglog/main.go:36-61 | a file written entry by entry is searched line for line, and with no filters every entry is printed |
| MsgLog.DisplayDate | cmd/msglog/main.go:84-93 | a name with no "_" is shown whole |
| MsgLog.DisplayDateRoundTrip | cmd/msglog/main.go:84-89 | for a date without "_", the listing shows exactly the date its file was named after |
| MsgLog.ListAvailableLogs | cmd/msglog/main.go:72-93 | one " - " line per file with its display date, or the no-files notice |

## Findings

| source | as written | input that shows it | evidently intended | confidence | as-written member | corrected member |
|---|---|---|---|---|---|---|
| internal/voice/queue_control.go:56-60 | a successful skip closes the active audio session's StopChan but leaves the session stored | a guild with an open audio session and an empty skip buffer: skip, the listener takes the signal, skip again (or `CreateAudioSession`/`RemoveAudioSession` for that guild); the second close panics | the stopped session is torn down as `RemoveAudioSession` does, so a stop channel is closed at most once | medium, not executed; `CreateAudioSession` has no caller in the files modelled | QueueControl.SkipAsWritten | QueueControl.Skip |

## Left out

- Discord calls (`State.Guild`, `State.Channel`, `ChannelVoiceJoin`, `ChannelMessageDelete`, `InteractionRespond`, `ApplicationCommandCreate`, `ApplicationCommands`, `ApplicationCommandDelete`, `vc.Disconnect`, `discordgo.New`, `Session.Open`) are network calls. Their results are parameters.
- Text-to-speech and playback (`tts.SpeakText`, the Python scripts, `dgvoice.PlayAudioFile`) are foreign calls. They appear only as success or failure flags.
- `ProcessUserText` is not part of this model. It is the `transform` parameter of `MessageHandler.HandleMessage`.
- `HandleSkip`, `HandleHate`, `HandleUnhate` and `HandleHateList` are not part of this model. Dispatch names them, and `run` gives their results.
- `ClearCommands` is modelled only as the error passed to `Bot.Start`.
- QueueControl.RemoveSkipChannel: the `close(ch)` at internal/voice/queue_control.go:35 is not modelled, only the removal from the map. A close would wake a listener blocked on the channel, and no file in this model calls `RemoveSkipChannel`.
- The legacy `joinUserVoice` in `internal/bot/voice.go` differs from `VoiceRegistry.JoinUserVoice` only in the mute and deaf flags, which the model does not track.
- MessageHandler.HandleMessage: the skip listener goroutine is modelled only by its receive, `QueueControl.ReceiveSkip`, which empties the skip buffer. The goroutine itself, its 5-minute timeout and the racy `skipDetected` flag are not modelled; that flag changes only log output.
- MessageHandler.RunQueues: a schedule lists operations in the order they complete. A send or receive that would block is listed when it completes, not when it starts. When several senders wait on one full queue, the order in which they complete is not modelled.
- Locks are not modelled. Every lock-guarded operation is treated as atomic. The unguarded read of the queue map on send, and the window in `SkipCurrentMessage` between reading the channel and sending on it, are not modelled.
- The fire-and-forget playback goroutines of `internal/bot/voice.go` are not modelled. Their files appear as a list, and the deletion that follows is recorded.
- No claim is made about how the random draws are distributed. They are parameters within the ranges `rand.Intn` returns.
- HatedUsers.GetAll: any order is allowed. Go's map iteration order is unspecified.
- Config.Atoi: error texts are reduced to "invalid syntax" and "value out of range". The text `getEnvAsInt` discards is not modelled.
- MsgLog.LogPath: requires the date to contain no '/'. The path cleaning in `filepath.Join` is not modelled.
- MsgLog.Search: the scanner's 64 KiB line limit is not modelled, and neither are file opening and read errors.
- MsgLog.ListAvailableLogs: takes base file names. `filepath.Glob` and `filepath.Base` are not modelled.
- Logging: `fmt.Sprintf` formatting, the timestamps added by the standard logger, console output, and file setup or closing are not modelled. Messages and timestamps arrive as text.
- Logging: the nil-pointer panic of `logMessage` when `Setup` was never called is not modelled; logging is assumed set up.
- The HTTP health server, signal handling and process exit are infrastructure, so they are not modelled.
- Go strings are UTF-8 bytes, but the model uses Unicode code points. Every comparison in the model is equality or substring search on text, so this makes no difference.
