/**
 * The per-guild voice-connection registry and the voice-channel search of
 * `internal/voice/voice.go`. The lock is not modelled: each operation is
 * atomic. Discord's guild-state lookup and `ChannelVoiceJoin` are parameters.
 */
module VoiceRegistry {
  import opened Wrappers

  /** A live voice connection; `handle` stands for its identity as a pointer. */
  datatype VoiceConn = VoiceConn(channelId: string, handle: nat)

  /** Guild ID to stored `*VoiceConnection`, which may itself be nil (`None`). */
  type Registry = map<string, Option<VoiceConn>>

  /** One entry of a guild's voice-state list. */
  datatype VoiceState = VoiceState(userId: string, channelId: string)

  /** What the bot's cached guild state exposes. */
  datatype GuildState = GuildState(voiceStates: seq<VoiceState>)

  /** `GetVoiceConnection`: the stored connection and whether one was found. */
  function Get(reg: Registry, guildId: string): (r: Option<Option<VoiceConn>>)
    ensures r.Some? <==> guildId in reg
    ensures r.Some? ==> r.value == reg[guildId]
  {
    if guildId in reg then Some(reg[guildId]) else None
  }

  /** `SetVoiceConnection`: stores `vc`, overwriting any earlier entry. */
  function Set(reg: Registry, guildId: string, vc: Option<VoiceConn>): (r: Registry)
    ensures Get(r, guildId) == Some(vc)
    ensures forall g :: g != guildId ==> Get(r, g) == Get(reg, g)
  {
    reg[guildId := vc]
  }

  /** `RemoveVoiceConnection`; removing an absent guild is a no-op. */
  function Remove(reg: Registry, guildId: string): (r: Registry)
    ensures Get(r, guildId) == None
    ensures forall g :: g != guildId ==> Get(r, g) == Get(reg, g)
    ensures guildId !in reg ==> r == reg
  {
    reg - {guildId}
  }

  /** The connection is usable for speech: present, non-nil, with a channel. */
  predicate Usable(reg: Registry, guildId: string)
  {
    guildId in reg && reg[guildId].Some? && reg[guildId].value.channelId != ""
  }

  /** Index `k` holds the first voice state of `userId` in the list. */
  predicate IsFirstMatch(states: seq<VoiceState>, userId: string, k: int)
  {
    && 0 <= k < |states|
    && states[k].userId == userId
    && forall j :: 0 <= j < k ==> states[j].userId != userId
  }

  /** The channel of the first voice state whose user is `userId`. */
  function FirstChannelOf(states: seq<VoiceState>, userId: string): (r: Option<string>)
    ensures r.None? <==> forall k :: 0 <= k < |states| ==> states[k].userId != userId
    ensures r.Some? ==> exists k :: IsFirstMatch(states, userId, k) && r.value == states[k].channelId
  {
    if |states| == 0 then None
    else if states[0].userId == userId then
      assert IsFirstMatch(states, userId, 0);
      Some(states[0].channelId)
    else
      var r := FirstChannelOf(states[1..], userId);
      assert r.Some? ==> exists k :: IsFirstMatch(states, userId, k) && r.value == states[k].channelId by {
        if r.Some? {
          var k :| IsFirstMatch(states[1..], userId, k) && r.value == states[1..][k].channelId;
          forall j | 0 <= j < k + 1
            ensures states[j].userId != userId
          {
            if j > 0 {
              assert states[j] == states[1..][j - 1];
            }
          }
          assert IsFirstMatch(states, userId, k + 1);
        }
      }
      assert r.None? ==> forall k :: 0 <= k < |states| ==> states[k].userId != userId by {
        if r.None? {
          forall k | 0 <= k < |states|
            ensures states[k].userId != userId
          {
            if k > 0 {
              assert states[k] == states[1..][k - 1];
            }
          }
        }
      }
      r
  }

  const NotInVoiceError := "user is not in a voice channel"

  /** `JoinUserVoice`: a failed guild lookup is returned as is; otherwise the
      bot joins the channel of the user's first voice state, and fails with
      `NotInVoiceError` when there is none. `voiceJoin` stands for
      `ChannelVoiceJoin` on a channel ID. */
  function JoinUserVoice(guild: Result<GuildState>, userId: string,
                         voiceJoin: string -> Result<Option<VoiceConn>>): (r: Result<Option<VoiceConn>>)
    ensures guild.Err? ==> r == Err(guild.error)
    ensures guild.Ok? ==>
      match FirstChannelOf(guild.value.voiceStates, userId)
      case None => r == Err(NotInVoiceError)
      case Some(ch) => r == voiceJoin(ch)
  {
    match guild
    case Err(e) => Err(e)
    case Ok(gs) =>
      match FirstChannelOf(gs.voiceStates, userId)
      case None => Err(NotInVoiceError)
      case Some(ch) => voiceJoin(ch)
  }
}
