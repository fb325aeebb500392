/**
 * The per-guild message pipeline of `internal/voice/message_handler.go`:
 * ingestion into a lazily created per-guild FIFO, the worker taking the head,
 * and the decision path for one message. Discord calls, text-to-speech and
 * the clock are parameters; the unshown `ProcessUserText` is `transform`.
 */
module MessageHandler {
  import opened Wrappers
  import Helper
  import VoiceRegistry
  import QueueControl
  import MessageLog

  /** The parts of a `MessageCreate` event the pipeline reads. */
  datatype Message = Message(
    id: string,
    guildId: string,
    channelId: string,
    authorId: string,
    authorIsBot: bool,
    username: string,
    discriminator: string,
    content: string,
    stickerCount: nat)

  /** A guild's buffered channel: its capacity and the messages in it, oldest first. */
  datatype GuildQueue = GuildQueue(capacity: nat, items: seq<Message>)

  type Queues = map<string, GuildQueue>

  /** The buffer size fixed in code (the configured `QueueSize` is unused). */
  const QueueCapacity := 100

  /** What happens to an incoming message. `Blocked` is a send on a full
      channel: the sender waits, the message is not yet in the queue. */
  datatype Ingest = Dropped | Enqueued(queues: Queues) | Blocked(queues: Queues)

  /** The messages waiting in a guild's queue (none if it has no queue). */
  function Pending(q: Queues, guildId: string): seq<Message>
  {
    if guildId in q then q[guildId].items else []
  }

  /** Every queue has the fixed capacity and holds only its guild's messages. */
  predicate WellFormed(q: Queues)
  {
    forall g :: g in q ==>
      && q[g].capacity == QueueCapacity
      && |q[g].items| <= QueueCapacity
      && forall k :: 0 <= k < |q[g].items| ==> q[g].items[k].guildId == g
  }

  /** `ProcessMessage`, queue part: bot messages are dropped; otherwise the
      guild's queue is created on first use and the message appended. */
  function ProcessMessage(q: Queues, m: Message): (r: Ingest)
    ensures m.authorIsBot <==> r.Dropped?
    ensures r.Enqueued? ==>
      && m.guildId in r.queues
      && Pending(r.queues, m.guildId) == Pending(q, m.guildId) + [m]
      && r.queues[m.guildId].capacity == (if m.guildId in q then q[m.guildId].capacity else QueueCapacity)
      && (forall g :: g != m.guildId ==> (g in r.queues <==> g in q) && Pending(r.queues, g) == Pending(q, g))
      && (forall g :: g != m.guildId && g in q ==> r.queues[g] == q[g])
    ensures r.Blocked? <==> !m.authorIsBot && m.guildId in q && |q[m.guildId].items| >= q[m.guildId].capacity
    ensures r.Blocked? ==> r.queues == q
    ensures WellFormed(q) && r.Enqueued? ==> WellFormed(r.queues)
  {
    if m.authorIsBot then Dropped
    else
      var q1 := if m.guildId in q then q else q[m.guildId := GuildQueue(QueueCapacity, [])];
      var queue := q1[m.guildId];
      if |queue.items| >= queue.capacity then Blocked(q1)
      else Enqueued(q1[m.guildId := queue.(items := queue.items + [m])])
  }

  /** An existing queue is reused: ingesting never replaces a guild's queue
      with a fresh one, so it is created at most once. */
  lemma QueueCreatedOnce(q: Queues, m: Message)
    requires m.guildId in q
    requires ProcessMessage(q, m).Enqueued?
    ensures ProcessMessage(q, m).queues[m.guildId].capacity == q[m.guildId].capacity
    ensures Pending(ProcessMessage(q, m).queues, m.guildId)[..|q[m.guildId].items|] == q[m.guildId].items
  {
  }

  /** The worker's receive: the head of the guild's queue, if any. */
  function TakeNext(q: Queues, guildId: string): (r: Option<(Message, Queues)>)
    ensures r.None? <==> Pending(q, guildId) == []
    ensures r.Some? ==>
      && [r.value.0] + Pending(r.value.1, guildId) == Pending(q, guildId)
      && (forall g :: g != guildId ==> Pending(r.value.1, g) == Pending(q, g))
      && r.value.1.Keys == q.Keys
      && r.value.1[guildId].capacity == q[guildId].capacity
      && (forall g :: g in q && g != guildId ==> r.value.1[g] == q[g])
  {
    if Pending(q, guildId) == [] then None
    else
      var queue := q[guildId];
      Some((queue.items[0], q[guildId := queue.(items := queue.items[1..])]))
  }

  /** The worker's loop run `n` times: the messages it handles, in order. */
  function Drain(q: Queues, guildId: string, n: nat): (r: seq<Message>)
    ensures |r| <= n
  {
    if n == 0 then []
    else
      match TakeNext(q, guildId)
      case None => []
      case Some((m, q1)) => [m] + Drain(q1, guildId, n - 1)
  }

  /** Draining returns the queued messages front to back. */
  lemma {:induction false} DrainAll(q: Queues, guildId: string)
    ensures Drain(q, guildId, |Pending(q, guildId)|) == Pending(q, guildId)
    decreases |Pending(q, guildId)|
  {
    var p := Pending(q, guildId);
    if |p| > 0 {
      var next := TakeNext(q, guildId);
      var (m, q1) := next.value;
      assert p == [m] + Pending(q1, guildId);
      DrainAll(q1, guildId);
    }
  }

  /** A completed channel operation: a send of an incoming message
      (`ProcessMessage`) or a receive by a guild's worker (`processQueue`). */
  datatype QueueEvent = Deliver(m: Message) | Take(guildId: string)

  /** A schedule of completed operations, in the order they complete, run
      from `q`: the final queues and the messages the workers received, in
      order. A send on a full channel and a receive on an empty one block,
      so they cannot complete at that point: a schedule that lists one there
      is infeasible (`None`). */
  function RunQueues(q: Queues, events: seq<QueueEvent>): (r: Option<(Queues, seq<Message>)>)
    ensures WellFormed(q) && r.Some? ==> WellFormed(r.value.0)
    decreases |events|
  {
    if |events| == 0 then Some((q, []))
    else
      match events[0]
      case Deliver(m) => (
        match ProcessMessage(q, m)
        case Dropped => RunQueues(q, events[1..])
        case Blocked(_) => None
        case Enqueued(q1) => RunQueues(q1, events[1..]))
      case Take(g) => (
        match TakeNext(q, g)
        case None => None
        case Some((m, q1)) =>
          assert WellFormed(q) ==> WellFormed(q1) by {
            if WellFormed(q) {
              forall h | h in q1
                ensures forall k :: 0 <= k < |q1[h].items| ==> q1[h].items[k].guildId == h
              {
                if h == g {
                  assert forall k :: 0 <= k < |q1[h].items| ==> q1[h].items[k] == q[h].items[k + 1];
                }
              }
            }
          }
          match RunQueues(q1, events[1..])
          case None => None
          case Some((f, handled)) => Some((f, [m] + handled)))
  }

  /** The human messages a schedule delivers to one guild, in order. */
  function Delivered(events: seq<QueueEvent>, guildId: string): seq<Message>
    decreases |events|
  {
    if |events| == 0 then []
    else
      (if events[0].Deliver? && events[0].m.guildId == guildId && !events[0].m.authorIsBot
       then [events[0].m] else [])
      + Delivered(events[1..], guildId)
  }

  /** The messages of one guild among those handled, in order. */
  function Handled(ms: seq<Message>, guildId: string): seq<Message>
    decreases |ms|
  {
    if |ms| == 0 then []
    else (if ms[0].guildId == guildId then [ms[0]] else []) + Handled(ms[1..], guildId)
  }

  /** Per-guild conservation over any feasible schedule, with sends and
      receives interleaved and no bound on its length: what was waiting plus
      what was delivered equals what was handled plus what is still waiting. */
  lemma {:induction false} Conservation(q: Queues, events: seq<QueueEvent>, guildId: string)
    requires WellFormed(q)
    requires RunQueues(q, events).Some?
    ensures Pending(q, guildId) + Delivered(events, guildId)
         == Handled(RunQueues(q, events).value.1, guildId) + Pending(RunQueues(q, events).value.0, guildId)
    decreases |events|
  {
    if |events| > 0 {
      var rest := events[1..];
      DeliveredCons(events, guildId);
      if events[0].Deliver? {
        var m := events[0].m;
        if m.authorIsBot {
          BotUnfold(q, events);
          Conservation(q, rest, guildId);
        } else {
          DeliverStep(q, events, guildId);
          Conservation(ProcessMessage(q, m).queues, rest, guildId);
        }
      } else {
        var g := events[0].guildId;
        TakeUnfold(q, events);
        var (m, q1) := TakeNext(q, g).value;
        var (f, handled) := RunQueues(q1, rest).value;
        Conservation(q1, rest, guildId);
        TakeHead(q, g, guildId);
        HandledCons(m, handled, guildId);
        TakeAlgebra(Pending(q, guildId), Pending(q1, guildId), Delivered(rest, guildId),
                    Handled(handled, guildId), Pending(f, guildId), m, g == guildId);
      }
    }
  }

  /** A bot message completes at once and changes nothing. */
  lemma BotUnfold(q: Queues, events: seq<QueueEvent>)
    requires |events| > 0 && events[0].Deliver? && events[0].m.authorIsBot
    ensures RunQueues(q, events) == RunQueues(q, events[1..])
  {
  }

  /** The sequence bookkeeping of one receive. */
  lemma TakeAlgebra(p: seq<Message>, p1: seq<Message>, d: seq<Message>, h: seq<Message>,
                    f: seq<Message>, m: Message, own: bool)
    requires p1 + d == h + f
    requires own ==> p == [m] + p1
    requires !own ==> p == p1
    ensures p + d == ((if own then [m] else []) + h) + f
  {
    if own {
      assert p + d == [m] + (p1 + d);
    } else {
      assert ([] + h) == h;
    }
  }

  /** One completed send of a human message: it is enqueued, and the rest
      of the schedule runs from there. */
  lemma DeliverStep(q: Queues, events: seq<QueueEvent>, guildId: string)
    requires |events| > 0 && events[0].Deliver? && !events[0].m.authorIsBot
    requires RunQueues(q, events).Some?
    ensures ProcessMessage(q, events[0].m).Enqueued?
    ensures RunQueues(ProcessMessage(q, events[0].m).queues, events[1..]) == RunQueues(q, events)
    ensures Pending(ProcessMessage(q, events[0].m).queues, guildId) + Delivered(events[1..], guildId)
         == Pending(q, guildId) + Delivered(events, guildId)
  {
    DeliverUnfold(q, events);
    DeliveredCons(events, guildId);
    EnqueuedPending(q, events[0].m, guildId);
    DeliverAlgebra(Pending(q, guildId), Pending(ProcessMessage(q, events[0].m).queues, guildId),
                   Delivered(events[1..], guildId), Delivered(events, guildId), events[0].m,
                   events[0].m.guildId == guildId);
  }

  lemma DeliverUnfold(q: Queues, events: seq<QueueEvent>)
    requires |events| > 0 && events[0].Deliver? && !events[0].m.authorIsBot
    requires RunQueues(q, events).Some?
    ensures ProcessMessage(q, events[0].m).Enqueued?
    ensures RunQueues(ProcessMessage(q, events[0].m).queues, events[1..]) == RunQueues(q, events)
  {
  }

  /** The sequence bookkeeping of one send. */
  lemma DeliverAlgebra(p: seq<Message>, p1: seq<Message>, rest: seq<Message>, d: seq<Message>,
                       m: Message, own: bool)
    requires own ==> p1 == p + [m] && d == [m] + rest
    requires !own ==> p1 == p && d == rest
    ensures p1 + rest == p + d
  {
    if own {
      assert (p + [m]) + rest == p + ([m] + rest);
    }
  }

  lemma DeliveredCons(events: seq<QueueEvent>, guildId: string)
    requires |events| > 0
    ensures events[0].Deliver? && events[0].m.guildId == guildId && !events[0].m.authorIsBot ==>
      Delivered(events, guildId) == [events[0].m] + Delivered(events[1..], guildId)
    ensures !(events[0].Deliver? && events[0].m.guildId == guildId && !events[0].m.authorIsBot) ==>
      Delivered(events, guildId) == Delivered(events[1..], guildId)
  {
  }

  lemma EnqueuedPending(q: Queues, m: Message, guildId: string)
    requires ProcessMessage(q, m).Enqueued?
    ensures m.guildId == guildId ==> Pending(ProcessMessage(q, m).queues, guildId) == Pending(q, guildId) + [m]
    ensures m.guildId != guildId ==> Pending(ProcessMessage(q, m).queues, guildId) == Pending(q, guildId)
  {
  }

  /** One completed receive: the queue was not empty, and the received
      message heads the rest of the schedule's handled messages. */
  lemma TakeUnfold(q: Queues, events: seq<QueueEvent>)
    requires |events| > 0 && events[0].Take?
    requires RunQueues(q, events).Some?
    ensures TakeNext(q, events[0].guildId).Some?
    ensures var (m, q1) := TakeNext(q, events[0].guildId).value;
      && RunQueues(q1, events[1..]).Some?
      && RunQueues(q, events).value
         == (RunQueues(q1, events[1..]).value.0, [m] + RunQueues(q1, events[1..]).value.1)
  {
  }

  /** The worker of guild `g` receives one of `g`'s messages. */
  lemma TakeHead(q: Queues, g: string, guildId: string)
    requires WellFormed(q)
    requires TakeNext(q, g).Some?
    ensures TakeNext(q, g).value.0.guildId == g
    ensures g != guildId ==> Pending(TakeNext(q, g).value.1, guildId) == Pending(q, guildId)
  {
    assert q[g].items[0] == TakeNext(q, g).value.0;
  }

  lemma HandledCons(m: Message, ms: seq<Message>, guildId: string)
    ensures Handled([m] + ms, guildId) == (if m.guildId == guildId then [m] else []) + Handled(ms, guildId)
  {
    assert ([m] + ms)[1..] == ms;
  }

  /** FIFO per guild: over any feasible schedule, a guild's worker handles
      exactly a prefix of what was waiting followed by what was delivered to
      it, in that order, none skipped or repeated; once the guild's queue is
      empty again, it has handled all of it. */
  lemma FifoOrder(q: Queues, events: seq<QueueEvent>, guildId: string)
    requires WellFormed(q)
    requires RunQueues(q, events).Some?
    ensures var handled := Handled(RunQueues(q, events).value.1, guildId);
      && |handled| <= |Pending(q, guildId) + Delivered(events, guildId)|
      && handled == (Pending(q, guildId) + Delivered(events, guildId))[..|handled|]
    ensures Pending(RunQueues(q, events).value.0, guildId) == [] ==>
      Handled(RunQueues(q, events).value.1, guildId) == Pending(q, guildId) + Delivered(events, guildId)
  {
    Conservation(q, events, guildId);
    var handled := Handled(RunQueues(q, events).value.1, guildId);
    var all := Pending(q, guildId) + Delivered(events, guildId);
    assert all == handled + Pending(RunQueues(q, events).value.0, guildId);
    assert all[..|handled|] == handled;
  }

  /** A blocked send is only waiting: once the worker takes a message from
      the full queue, the same send goes through. */
  lemma TakeUnblocks(q: Queues, m: Message)
    requires WellFormed(q)
    requires ProcessMessage(q, m).Blocked?
    ensures TakeNext(q, m.guildId).Some?
    ensures ProcessMessage(TakeNext(q, m.guildId).value.1, m).Enqueued?
  {
    var (_, q1) := TakeNext(q, m.guildId).value;
    assert |q1[m.guildId].items| < q1[m.guildId].capacity;
  }

  /** A bot-authored message completes without changing any queue. */
  lemma BotMessagesNeverQueued(q: Queues, m: Message)
    requires m.authorIsBot
    ensures RunQueues(q, [Deliver(m)]) == Some((q, []))
  {
  }

  /** `shouldSkipMessage`: stickers, an "@" or a link keep a message from
      being spoken. */
  function ShouldSkip(m: Message): (r: bool)
    ensures r <==> m.stickerCount > 0 || '@' in m.content
                   || exists i :: 0 <= i < |m.content| && Helper.LinkAt(m.content, i)
  {
    Helper.ContainsSticker(m.stickerCount) || Helper.ContainsMention(m.content) || Helper.IsLink(m.content)
  }

  /** What `handleMessage` did with one message. */
  datatype Outcome =
    | Ignored
    | TtsFailed(text: string)
    | SpokenAndDeleteAttempted(text: string, channelId: string, messageId: string, deleted: bool)

  /** The message passes every early return of `handleMessage`. */
  predicate Admitted(reg: VoiceRegistry.Registry, m: Message)
  {
    VoiceRegistry.Usable(reg, m.guildId) && !ShouldSkip(m) && m.content != ""
  }

  /** `handleMessage`. `ttsOk` is the result of `tts.SpeakText`, `deleteOk`
      that of `ChannelMessageDelete`; whether a skip arrived during playback
      changes only what is logged. The skip channel is made on first use. */
  function HandleMessage(reg: VoiceRegistry.Registry, skips: QueueControl.PlaybackState, m: Message,
                         transform: (string, string) -> string, ttsOk: bool, deleteOk: bool)
    : (r: (Outcome, QueueControl.PlaybackState))
    ensures r.0.Ignored? <==> !Admitted(reg, m)
    ensures r.0.Ignored? ==> r.1 == skips
    ensures r.0.TtsFailed? <==> Admitted(reg, m) && !ttsOk
    ensures r.0.TtsFailed? ==> r.0.text == transform(m.content, m.authorId)
    ensures r.0.SpokenAndDeleteAttempted? <==> Admitted(reg, m) && ttsOk
    ensures r.0.SpokenAndDeleteAttempted? ==>
      r.0 == SpokenAndDeleteAttempted(transform(m.content, m.authorId), m.channelId, m.id, deleteOk)
    ensures !r.0.Ignored? ==> m.guildId in r.1.skips && r.1 == QueueControl.GetSkipChannel(skips, m.guildId).0
  {
    if !VoiceRegistry.Usable(reg, m.guildId) then (Ignored, skips)
    else if ShouldSkip(m) then (Ignored, skips)
    else if m.content == "" then (Ignored, skips)
    else
      var text := transform(m.content, m.authorId);
      var (skips1, _) := QueueControl.GetSkipChannel(skips, m.guildId);
      if !ttsOk then (TtsFailed(text), skips1)
      else (SpokenAndDeleteAttempted(text, m.channelId, m.id, deleteOk), skips1)
  }

  /** Filtered messages are never synthesised and never deleted. */
  lemma FilteredNeverSpoken(reg: VoiceRegistry.Registry, skips: QueueControl.PlaybackState, m: Message,
                            transform: (string, string) -> string, ttsOk: bool, deleteOk: bool)
    requires m.stickerCount > 0 || '@' in m.content || Helper.IsLink(m.content)
    ensures HandleMessage(reg, skips, m, transform, ttsOk, deleteOk).0 == Ignored
  {
  }

  /** The name shown for a guild or channel whose lookup failed. */
  function NameOr(lookup: Option<string>): string
  {
    if lookup.Some? then lookup.value else "Unknown"
  }

  /** The message-log entry `ProcessMessage` writes for a human message,
      with "Unknown" for a guild or channel the state cache does not know. */
  function IngestLogEntry(m: Message, guildName: Option<string>, channelName: Option<string>,
                          loggerReady: bool, timestamp: string): (r: Option<string>)
    ensures m.authorIsBot || !loggerReady ==> r == None
    ensures !m.authorIsBot && loggerReady ==> r.Some?
    ensures r.Some? ==> r == MessageLog.LogMessage(true, timestamp, MessageLog.Fields(
      NameOr(guildName), m.guildId, NameOr(channelName), m.channelId,
      m.username, m.discriminator, m.authorId, m.content))
  {
    if m.authorIsBot then None
    else MessageLog.LogMessage(loggerReady, timestamp, MessageLog.Fields(
      NameOr(guildName), m.guildId, NameOr(channelName), m.channelId,
      m.username, m.discriminator, m.authorId, m.content))
  }
}
