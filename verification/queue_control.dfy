/**
 * Skip signalling (`internal/voice/queue_control.go`). Each guild's skip
 * channel is a buffered channel of capacity 1, so its state is the number of
 * buffered signals. A skip also closes the guild's active audio stop channel.
 */
module QueueControl {
  import opened Wrappers
  import AudioControl

  /** A skip channel: its identity and the signals waiting in its buffer. */
  datatype SkipChan = SkipChan(id: nat, pending: nat)

  const SkipCapacity := 1

  datatype PlaybackState = PlaybackState(
    skips: map<string, SkipChan>,
    nextSkip: nat,
    audio: AudioControl.AudioState)

  /** No buffer holds more than its capacity. */
  predicate PendingBounded(p: PlaybackState)
  {
    forall g :: g in p.skips ==> p.skips[g].pending <= SkipCapacity
  }

  /** Every stored skip channel was made before `nextSkip`, so a channel
      made now is a new one. */
  predicate SkipIdsBelow(p: PlaybackState)
  {
    forall g :: g in p.skips ==> p.skips[g].id < p.nextSkip
  }

  /** The bookkeeping every reachable state satisfies: bounded buffers,
      skip channel IDs below the next one, and active audio sessions that
      can all still be stopped. */
  predicate Good(p: PlaybackState)
  {
    && PendingBounded(p)
    && SkipIdsBelow(p)
    && AudioControl.Valid(p.audio)
    && AudioControl.AllOpen(p.audio)
  }

  /** `GetSkipChannel`: the guild's channel, made empty on first use. */
  function GetSkipChannel(p: PlaybackState, guildId: string): (r: (PlaybackState, SkipChan))
    ensures guildId in p.skips ==> r.0 == p && r.1 == p.skips[guildId]
    ensures guildId !in p.skips ==>
      && r.1.pending == 0
      && (SkipIdsBelow(p) ==> forall g :: g in p.skips ==> p.skips[g].id != r.1.id)
      && r.0 == p.(skips := p.skips[guildId := r.1], nextSkip := p.nextSkip + 1)
    ensures guildId in r.0.skips && r.0.skips[guildId] == r.1
    ensures PendingBounded(p) ==> PendingBounded(r.0)
    ensures Good(p) ==> Good(r.0)
  {
    if guildId in p.skips then (p, p.skips[guildId])
    else
      var ch := SkipChan(p.nextSkip, 0);
      (p.(skips := p.skips[guildId := ch], nextSkip := p.nextSkip + 1), ch)
  }

  /** Asking twice for the same guild yields the same channel and no change. */
  lemma GetSkipChannelStable(p: PlaybackState, guildId: string)
    ensures var (p1, ch1) := GetSkipChannel(p, guildId);
            GetSkipChannel(p1, guildId) == (p1, ch1)
  {
  }

  /** `RemoveSkipChannel`: forgets the guild's channel; audio sessions and
      the channel counter are untouched. */
  function RemoveSkipChannel(p: PlaybackState, guildId: string): (r: PlaybackState)
    ensures guildId !in r.skips
    ensures r.audio == p.audio && r.nextSkip == p.nextSkip
    ensures forall g :: g != guildId ==> (g in r.skips <==> g in p.skips)
    ensures forall g :: g != guildId && g in p.skips ==> r.skips[g] == p.skips[g]
    ensures guildId !in p.skips ==> r == p
    ensures Good(p) ==> Good(r)
  {
    p.(skips := p.skips - {guildId})
  }

  const NoSessionError := "no active TTS session to skip"

  /** The skip-listener goroutine receives a buffered signal. */
  function ReceiveSkip(p: PlaybackState, guildId: string): (r: PlaybackState)
    ensures guildId in p.skips <==> guildId in r.skips
    ensures PendingBounded(p) && guildId in p.skips ==> r.skips[guildId].pending == 0
    ensures guildId in p.skips ==> r.skips[guildId].id == p.skips[guildId].id
    ensures forall g :: g != guildId ==> (g in r.skips <==> g in p.skips)
    ensures forall g :: g != guildId && g in p.skips ==> r.skips[g] == p.skips[g]
    ensures r.nextSkip == p.nextSkip && r.audio == p.audio
    ensures Good(p) ==> Good(r)
  {
    if guildId in p.skips && p.skips[guildId].pending > 0 then
      p.(skips := p.skips[guildId := p.skips[guildId].(pending := p.skips[guildId].pending - 1)])
    else p
  }

  /** `SkipCurrentMessage` as written: on a successful send it closes the
      active session's stop channel but leaves the session stored. */
  function SkipAsWritten(p: PlaybackState, guildId: string): (r: AudioControl.Step<(PlaybackState, Option<string>)>)
    requires AudioControl.Valid(p.audio)
    ensures guildId !in p.skips ==> r == AudioControl.Done((p, Some(NoSessionError)))
    ensures guildId in p.skips && p.skips[guildId].pending >= SkipCapacity ==> r == AudioControl.Done((p, None))
    ensures r.Panicked? <==>
      && guildId in p.skips && p.skips[guildId].pending < SkipCapacity
      && guildId in p.audio.sessions && !p.audio.stopOpen[p.audio.sessions[guildId].stopChan]
    ensures r.Done? && guildId in p.skips && p.skips[guildId].pending < SkipCapacity ==>
      && r.state.1 == None
      && guildId in r.state.0.skips
      && r.state.0.skips[guildId] == p.skips[guildId].(pending := p.skips[guildId].pending + 1)
      && (forall g :: g != guildId ==> (g in r.state.0.skips <==> g in p.skips))
      && (forall g :: g != guildId && g in p.skips ==> r.state.0.skips[g] == p.skips[g])
      && (guildId in p.audio.sessions ==>
            r.state.0.audio == p.audio.(stopOpen := p.audio.stopOpen[p.audio.sessions[guildId].stopChan := false]))
      && (guildId !in p.audio.sessions ==> r.state.0.audio == p.audio)
    ensures r.Done? ==> r.state.0.audio.sessions == p.audio.sessions
  {
    if guildId !in p.skips then AudioControl.Done((p, Some(NoSessionError)))
    else if p.skips[guildId].pending >= SkipCapacity then AudioControl.Done((p, None))
    else
      var sent := p.(skips := p.skips[guildId := p.skips[guildId].(pending := p.skips[guildId].pending + 1)]);
      match AudioControl.Get(p.audio, guildId)
      case None => AudioControl.Done((sent, None))
      case Some(session) =>
        match AudioControl.CloseStop(p.audio, session.stopChan)
        case Panicked(why) => AudioControl.Panicked(why)
        case Done(a) => AudioControl.Done((sent.(audio := a), None))
  }

  /** The stored session survives a skip with a closed stop channel, so the
      next skip, `CreateAudioSession` or `RemoveAudioSession` for the guild
      closes it a second time. */
  lemma SkipAsWrittenLeavesClosedSession(p: PlaybackState, guildId: string)
    requires Good(p)
    requires guildId in p.skips && p.skips[guildId].pending == 0
    requires guildId in p.audio.sessions
    ensures var r := SkipAsWritten(p, guildId);
      && r.Done?
      && AudioControl.Valid(r.state.0.audio)
      && !AudioControl.AllOpen(r.state.0.audio)
      && AudioControl.Remove(r.state.0.audio, guildId).Panicked?
      && AudioControl.Create(r.state.0.audio, guildId, None).Panicked?
  {
    var r := SkipAsWritten(p, guildId);
    assert r.state.0.audio.sessions[guildId] == p.audio.sessions[guildId];
  }

  /** A concrete run: one guild with an open session and an empty skip
      buffer; skip, the listener takes the signal, skip again: panic. */
  lemma SkipTwicePanics()
    ensures var p := PlaybackState(map["g" := SkipChan(0, 0)], 1,
                                   AudioControl.AudioState(map["g" := AudioControl.AudioSession(0, None)], map[0 := true], 1));
      && Good(p)
      && var first := SkipAsWritten(p, "g");
      && first.Done?
      && first.state.1 == None
      && SkipAsWritten(ReceiveSkip(first.state.0, "g"), "g").Panicked?
  {
    var p := PlaybackState(map["g" := SkipChan(0, 0)], 1,
                           AudioControl.AudioState(map["g" := AudioControl.AudioSession(0, None)], map[0 := true], 1));
    var first := SkipAsWritten(p, "g");
    assert first.state.0.audio.stopOpen[0] == false;
  }

  /** `SkipCurrentMessage` with the session torn down once it is stopped, as
      `RemoveAudioSession` does, so no stop channel is ever closed twice. */
  function Skip(p: PlaybackState, guildId: string): (r: AudioControl.Step<(PlaybackState, Option<string>)>)
    requires AudioControl.Valid(p.audio)
    ensures guildId !in p.skips ==> r == AudioControl.Done((p, Some(NoSessionError)))
    ensures guildId in p.skips && p.skips[guildId].pending >= SkipCapacity ==> r == AudioControl.Done((p, None))
    ensures Good(p) ==> r.Done? && Good(r.state.0)
    ensures r.Done? && r.state.1 == None ==> guildId in r.state.0.skips && r.state.0.skips[guildId].pending >= 1
    ensures r.Done? ==> AudioControl.Get(r.state.0.audio, guildId) == None || r.state.0.audio == p.audio
    ensures r.Done? && guildId in p.skips && p.skips[guildId].pending < SkipCapacity && guildId in p.audio.sessions ==>
      && p.audio.stopOpen.Keys <= r.state.0.audio.stopOpen.Keys
      && !r.state.0.audio.stopOpen[p.audio.sessions[guildId].stopChan]
    ensures r.Panicked? <==>
      && guildId in p.skips && p.skips[guildId].pending < SkipCapacity
      && AudioControl.Remove(p.audio, guildId).Panicked?
    ensures r.Done? ==> r.state.0.nextSkip == p.nextSkip
    ensures r.Done? && guildId in p.skips && p.skips[guildId].pending < SkipCapacity ==>
      && r.state.1 == None
      && guildId in r.state.0.skips
      && r.state.0.skips[guildId] == p.skips[guildId].(pending := p.skips[guildId].pending + 1)
      && (forall g :: g != guildId ==> (g in r.state.0.skips <==> g in p.skips))
      && (forall g :: g != guildId && g in p.skips ==> r.state.0.skips[g] == p.skips[g])
      && r.state.0.audio == AudioControl.Remove(p.audio, guildId).state
  {
    if guildId !in p.skips then AudioControl.Done((p, Some(NoSessionError)))
    else if p.skips[guildId].pending >= SkipCapacity then AudioControl.Done((p, None))
    else
      var sent := p.(skips := p.skips[guildId := p.skips[guildId].(pending := p.skips[guildId].pending + 1)]);
      match AudioControl.Remove(p.audio, guildId)
      case Panicked(why) => AudioControl.Panicked(why)
      case Done(a) => AudioControl.Done((sent.(audio := a), None))
  }

  /** The operations that touch skip channels and audio sessions. */
  datatype Event = SkipEv(g: string) | ReceiveEv(g: string) | GetSkipEv(g: string) | RemoveSkipEv(g: string)
                 | CreateAudioEv(g: string) | RemoveAudioEv(g: string)

  /** One event applied to a good state. */
  function Apply(p: PlaybackState, e: Event): (r: PlaybackState)
    requires Good(p)
    ensures Good(r)
  {
    match e
    case SkipEv(g) => Skip(p, g).state.0
    case ReceiveEv(g) => ReceiveSkip(p, g)
    case GetSkipEv(g) => GetSkipChannel(p, g).0
    case RemoveSkipEv(g) => RemoveSkipChannel(p, g)
    case CreateAudioEv(g) => p.(audio := AudioControl.Create(p.audio, g, None).state)
    case RemoveAudioEv(g) => p.(audio := AudioControl.Remove(p.audio, g).state)
  }

  /** Any sequence of skips, signal receipts and session creations or
      removals keeps the state good, so none of them panics and no buffer
      ever holds more than one signal. */
  function Run(p: PlaybackState, events: seq<Event>): (r: PlaybackState)
    requires Good(p)
    ensures Good(r)
    ensures PendingBounded(r)
    decreases |events|
  {
    if |events| == 0 then p else Run(Apply(p, events[0]), events[1..])
  }
}
