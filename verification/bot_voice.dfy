/**
 * The earlier copy of the pipeline kept in `internal/bot/voice.go`: its own
 * lazily created queues, an inline admission filter, the "muklock" replies
 * and a playback of one or three audio files. The two text-to-speech scripts,
 * playback and message deletion are parameters.
 */
module BotVoice {
  import Helper
  import VoiceRegistry
  import MessageHandler

  /** `muklock`: the reply for the three fixed phrases, and whether one matched. */
  function Muklock(text: string): (r: (string, bool))
    ensures r.1 <==> text in Helper.Pronunciations
    ensures r.1 ==> r.0 == Helper.Pronunciations[text]
    ensures !r.1 ==> r.0 == text
  {
    match text
    case "สีเหลือง" => ("เย็นโล่", true)
    case "มีด" => ("อีโต้", true)
    case "ชุดชั้นใน" => ("วาโก้", true)
    case _ => (text, false)
  }

  /** The two copies of the phrase table agree on every input. */
  lemma MuklockAgreesWithProcessText(text: string)
    ensures Muklock(text).0 == Helper.ProcessText(text)
  {
  }

  /** `messageCreate`: drops bot messages, makes a 100-slot queue for a new
      guild, and sends the message to its guild's queue. */
  function MessageCreate(q: MessageHandler.Queues, m: MessageHandler.Message): (r: MessageHandler.Ingest)
    ensures m.authorIsBot ==> r.Dropped?
    ensures !m.authorIsBot && m.guildId !in q ==>
      r.Enqueued? && m.guildId in r.queues && r.queues[m.guildId] == MessageHandler.GuildQueue(MessageHandler.QueueCapacity, [m])
  {
    if m.authorIsBot then MessageHandler.Dropped
    else
      var q1 := if m.guildId !in q then q[m.guildId := MessageHandler.GuildQueue(100, [])] else q;
      var queue := q1[m.guildId];
      if |queue.items| >= queue.capacity then MessageHandler.Blocked(q1)
      else MessageHandler.Enqueued(q1[m.guildId := queue.(items := queue.items + [m])])
  }

  /** The legacy ingestion behaves exactly like `ProcessMessage`'s queue part. */
  lemma MessageCreateAgrees(q: MessageHandler.Queues, m: MessageHandler.Message)
    ensures MessageCreate(q, m) == MessageHandler.ProcessMessage(q, m)
  {
  }

  /** The inline filter of `handleMessage`. */
  predicate InlineFilter(m: MessageHandler.Message)
  {
    m.stickerCount > 0 || '@' in m.content || Helper.IsLink(m.content)
  }

  /** It rejects exactly the messages `shouldSkipMessage` rejects. */
  lemma InlineFilterIsShouldSkip(m: MessageHandler.Message)
    ensures InlineFilter(m) <==> MessageHandler.ShouldSkip(m)
  {
  }

  const TtsFile := "tts.mp3"
  const ResponseFile := "response-muklock.mp3"
  const EffectFile := "tlktbmuk.mp3"

  /** What the legacy `handleMessage` did: nothing, a failed script, or the
      files it started playing (in order), the text given to the first script,
      and whether the deletion that follows succeeded. */
  datatype LegacyOutcome =
    | Ignored
    | TtsFailed
    | Played(spokenText: string, reply: string, files: seq<string>, deleted: bool)

  /** `handleMessage` of `internal/bot/voice.go`. `ttsOk` and `replyTtsOk`
      are the exit statuses of the two scripts; `deleteOk` that of the deletion. */
  function HandleMessage(reg: VoiceRegistry.Registry, m: MessageHandler.Message,
                         ttsOk: bool, replyTtsOk: bool, deleteOk: bool): (r: LegacyOutcome)
    ensures r.Ignored? <==> !MessageHandler.Admitted(reg, m)
    ensures r.TtsFailed? <==>
      (MessageHandler.Admitted(reg, m) && (!ttsOk || (m.content in Helper.Pronunciations && !replyTtsOk)))
    ensures r.Played? ==>
      && r.spokenText == m.content
      && r.reply == Helper.ProcessText(m.content)
      && r.deleted == deleteOk
      && (m.content in Helper.Pronunciations ==> r.files == [TtsFile, ResponseFile, EffectFile])
      && (m.content !in Helper.Pronunciations ==> r.files == [TtsFile])
  {
    if !VoiceRegistry.Usable(reg, m.guildId) then Ignored
    else if InlineFilter(m) then Ignored
    else if m.content == "" then Ignored
    else
      var text := m.content;
      var (reply, isMuklock) := Muklock(text);
      if !ttsOk then TtsFailed
      else if isMuklock && !replyTtsOk then TtsFailed
      else
        var files := if isMuklock then [TtsFile, ResponseFile, EffectFile] else [TtsFile];
        Played(text, reply, files, deleteOk)
  }
}
