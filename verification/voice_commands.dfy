/**
 * The `join` and `leave` slash commands (`internal/commands/voice_commands.go`)
 * as transitions of the voice-connection registry. The Discord calls
 * (`ChannelVoiceJoin`, `vc.Disconnect`, `InteractionRespond`) are parameters.
 */
module VoiceCommands {
  import opened Wrappers
  import VoiceRegistry

  /** A handler's effect: the new registry, the connection it called
      `Disconnect` on (if any), the reply it sent and the error it returned. */
  datatype HandlerResult = HandlerResult(
    registry: VoiceRegistry.Registry,
    disconnected: Option<Option<VoiceRegistry.VoiceConn>>,
    reply: Option<string>,
    err: Option<string>)

  const JoinedReply := "Joined the voice channel!"
  const LeftReply := "Left the voice channel!"
  const NotConnectedError := "bot is not in a voice channel"

  /** `HandleJoin`: a failed join is returned and changes nothing; a
      successful one stores the connection, replacing any earlier one
      without disconnecting it, and replies. `respondErr` is the result of
      `InteractionRespond`, which becomes the handler's result. */
  function HandleJoin(reg: VoiceRegistry.Registry, guildId: string, userId: string,
                      guild: Result<VoiceRegistry.GuildState>,
                      voiceJoin: string -> Result<Option<VoiceRegistry.VoiceConn>>,
                      respondErr: Option<string>): (r: HandlerResult)
    ensures r.disconnected == None
    ensures VoiceRegistry.JoinUserVoice(guild, userId, voiceJoin).Err? ==>
      r == HandlerResult(reg, None, None, Some(VoiceRegistry.JoinUserVoice(guild, userId, voiceJoin).error))
    ensures VoiceRegistry.JoinUserVoice(guild, userId, voiceJoin).Ok? ==>
      && VoiceRegistry.Get(r.registry, guildId) == Some(VoiceRegistry.JoinUserVoice(guild, userId, voiceJoin).value)
      && (forall g :: g != guildId ==> VoiceRegistry.Get(r.registry, g) == VoiceRegistry.Get(reg, g))
      && r.reply == Some(JoinedReply)
      && r.err == respondErr
  {
    match VoiceRegistry.JoinUserVoice(guild, userId, voiceJoin)
    case Err(e) => HandlerResult(reg, None, None, Some(e))
    case Ok(vc) => HandlerResult(VoiceRegistry.Set(reg, guildId, vc), None, Some(JoinedReply), respondErr)
  }

  /** `HandleLeave`: without a usable connection it fails with
      `NotConnectedError`; a failed `Disconnect` is returned and the entry
      kept; otherwise the entry is removed and the bot replies. */
  function HandleLeave(reg: VoiceRegistry.Registry, guildId: string,
                       disconnectErr: Option<string>, respondErr: Option<string>): (r: HandlerResult)
    ensures !VoiceRegistry.Usable(reg, guildId) ==>
      r == HandlerResult(reg, None, None, Some(NotConnectedError))
    ensures VoiceRegistry.Usable(reg, guildId) ==> r.disconnected == Some(reg[guildId])
    ensures VoiceRegistry.Usable(reg, guildId) && disconnectErr.Some? ==>
      r.registry == reg && r.reply == None && r.err == disconnectErr
    ensures VoiceRegistry.Usable(reg, guildId) && disconnectErr.None? ==>
      && VoiceRegistry.Get(r.registry, guildId) == None
      && (forall g :: g != guildId ==> VoiceRegistry.Get(r.registry, g) == VoiceRegistry.Get(reg, g))
      && r.reply == Some(LeftReply)
      && r.err == respondErr
  {
    if !VoiceRegistry.Usable(reg, guildId) then HandlerResult(reg, None, None, Some(NotConnectedError))
    else
      var vc := reg[guildId];
      if disconnectErr.Some? then HandlerResult(reg, Some(vc), None, disconnectErr)
      else HandlerResult(VoiceRegistry.Remove(reg, guildId), Some(vc), Some(LeftReply), respondErr)
  }

  /** Joining while the user is in a voice channel and then leaving, with
      every Discord call succeeding, leaves the guild with no connection. */
  lemma JoinThenLeave(reg: VoiceRegistry.Registry, guildId: string, userId: string,
                      gs: VoiceRegistry.GuildState, voiceJoin: string -> Result<Option<VoiceRegistry.VoiceConn>>)
    requires VoiceRegistry.FirstChannelOf(gs.voiceStates, userId).Some?
    requires var ch := VoiceRegistry.FirstChannelOf(gs.voiceStates, userId).value;
      voiceJoin(ch).Ok? && voiceJoin(ch).value.Some? && voiceJoin(ch).value.value.channelId != ""
    ensures var joined := HandleJoin(reg, guildId, userId, Ok(gs), voiceJoin, None);
      && joined.err == None
      && VoiceRegistry.Usable(joined.registry, guildId)
      && var left := HandleLeave(joined.registry, guildId, None, None);
      && left.err == None
      && VoiceRegistry.Get(left.registry, guildId) == None
  {
  }
}
