/**
 * Active audio playback sessions per guild (`internal/tts/audio_control.go`).
 * Go channels are references, so stop channels live in a small heap:
 * `stopOpen` maps each allocated channel to whether it is still open, and a
 * session refers to its channel by ID. Closing a closed channel panics in Go;
 * that outcome is `Panicked`.
 */
module AudioControl {
  import opened Wrappers
  import VoiceRegistry

  /** The outcome of an operation that may hit a Go runtime panic. */
  datatype Step<S> = Done(state: S) | Panicked(reason: string)

  const CloseOfClosedChannel := "close of closed channel"

  /** `AudioSession`: its stop channel and the voice connection it plays on. */
  datatype AudioSession = AudioSession(stopChan: nat, vc: Option<VoiceRegistry.VoiceConn>)

  datatype AudioState = AudioState(
    sessions: map<string, AudioSession>,
    stopOpen: map<nat, bool>,
    nextChan: nat)

  /** Every stored session's channel is allocated and its own, and
      `nextChan` is not yet allocated. */
  predicate Valid(a: AudioState)
  {
    && (forall g :: g in a.sessions ==> a.sessions[g].stopChan in a.stopOpen)
    && (forall g, g' :: g in a.sessions && g' in a.sessions && g != g' ==>
          a.sessions[g].stopChan != a.sessions[g'].stopChan)
    && (forall id :: id in a.stopOpen ==> id < a.nextChan)
  }

  /** Every stored session can still be stopped: its channel is open. */
  predicate AllOpen(a: AudioState)
    requires Valid(a)
  {
    forall g :: g in a.sessions ==> a.stopOpen[a.sessions[g].stopChan]
  }

  /** `close(ch)`: closes an open channel, panics on a closed one. */
  function CloseStop(a: AudioState, id: nat): (r: Step<AudioState>)
    requires id in a.stopOpen
    ensures r.Panicked? <==> !a.stopOpen[id]
    ensures r.Done? ==> r.state == a.(stopOpen := a.stopOpen[id := false])
  {
    if !a.stopOpen[id] then Panicked(CloseOfClosedChannel)
    else Done(a.(stopOpen := a.stopOpen[id := false]))
  }

  /** `GetAudioSession`: the stored session, or `None` when absent. */
  function Get(a: AudioState, guildId: string): (r: Option<AudioSession>)
    ensures r.Some? <==> guildId in a.sessions
    ensures r.Some? ==> r.value == a.sessions[guildId]
  {
    if guildId in a.sessions then Some(a.sessions[guildId]) else None
  }

  /** `CreateAudioSession`: closes the prior session's channel, if any, then
      stores a session with a newly made, open channel. */
  function Create(a: AudioState, guildId: string, vc: Option<VoiceRegistry.VoiceConn>): (r: Step<AudioState>)
    requires Valid(a)
    ensures r.Panicked? <==> guildId in a.sessions && !a.stopOpen[a.sessions[guildId].stopChan]
    ensures r.Done? ==>
      && Valid(r.state)
      && a.nextChan !in a.stopOpen
      && Get(r.state, guildId) == Some(AudioSession(a.nextChan, vc))
      && r.state.stopOpen[a.nextChan]
      && a.stopOpen.Keys <= r.state.stopOpen.Keys
      && (guildId in a.sessions ==> !r.state.stopOpen[a.sessions[guildId].stopChan])
      && (forall g :: g != guildId ==> Get(r.state, g) == Get(a, g))
      && r.state.stopOpen.Keys == a.stopOpen.Keys + {a.nextChan}
      && r.state.nextChan == a.nextChan + 1
      && (forall id :: id in a.stopOpen && (guildId !in a.sessions || id != a.sessions[guildId].stopChan) ==>
            r.state.stopOpen[id] == a.stopOpen[id])
    ensures AllOpen(a) ==> r.Done? && AllOpen(r.state)
  {
    var closed := if guildId in a.sessions then CloseStop(a, a.sessions[guildId].stopChan) else Done(a);
    match closed
    case Panicked(why) => Panicked(why)
    case Done(b) =>
      Done(AudioState(
        b.sessions[guildId := AudioSession(b.nextChan, vc)],
        b.stopOpen[b.nextChan := true],
        b.nextChan + 1))
  }

  /** `RemoveAudioSession`: closes and deletes an existing session; an absent
      guild is left alone. */
  function Remove(a: AudioState, guildId: string): (r: Step<AudioState>)
    requires Valid(a)
    ensures r.Panicked? <==> guildId in a.sessions && !a.stopOpen[a.sessions[guildId].stopChan]
    ensures guildId !in a.sessions ==> r == Done(a)
    ensures r.Done? ==>
      && Valid(r.state)
      && Get(r.state, guildId) == None
      && a.stopOpen.Keys <= r.state.stopOpen.Keys
      && (guildId in a.sessions ==> !r.state.stopOpen[a.sessions[guildId].stopChan])
      && (forall g :: g != guildId ==> Get(r.state, g) == Get(a, g))
      && r.state.stopOpen.Keys == a.stopOpen.Keys
      && r.state.nextChan == a.nextChan
      && (forall id :: id in a.stopOpen && (guildId !in a.sessions || id != a.sessions[guildId].stopChan) ==>
            r.state.stopOpen[id] == a.stopOpen[id])
    ensures AllOpen(a) ==> r.Done? && AllOpen(r.state)
  {
    if guildId !in a.sessions then Done(a)
    else
      match CloseStop(a, a.sessions[guildId].stopChan)
      case Panicked(why) => Panicked(why)
      case Done(b) => Done(b.(sessions := b.sessions - {guildId}))
  }
}
