/**
 * Bot wiring (`internal/bot/bot.go`): construction with the token guard, the
 * self-message filter in front of the pipeline, start-up, and slash-command
 * dispatch. Discord sessions and handlers' own effects are parameters.
 */
module Bot {
  import opened Wrappers
  import Config
  import Commands
  import MessageHandler

  /** The constructed bot; only its configuration is observable here. */
  datatype BotInfo = BotInfo(config: Config.Config)

  const MissingTokenError := "DISCORD_TOKEN environment variable not set"

  /** `NewBot`. The three parameters are the errors of `logging.Setup`,
      `logging.SetupMessageLogger` and `discordgo.New`, checked in that order
      around the token guard. */
  function NewBot(env: Config.Env, loggingErr: Option<string>, messageLogErr: Option<string>,
                  sessionErr: Option<string>): (r: Result<BotInfo>)
    ensures loggingErr.Some? ==> r == Err("failed to set up logging: " + loggingErr.value)
    ensures loggingErr.None? && messageLogErr.Some? ==>
      r == Err("failed to set up message logging: " + messageLogErr.value)
    ensures loggingErr.None? && messageLogErr.None? && Config.LoadConfig(env).discordToken == "" ==>
      r == Err(MissingTokenError)
    ensures r.Ok? <==> loggingErr.None? && messageLogErr.None? && sessionErr.None?
                       && Config.Getenv(env, "DISCORD_TOKEN") != ""
    ensures r.Ok? ==> r.value.config == Config.LoadConfig(env)
  {
    var cfg := Config.LoadConfig(env);
    if loggingErr.Some? then Err("failed to set up logging: " + loggingErr.value)
    else if messageLogErr.Some? then Err("failed to set up message logging: " + messageLogErr.value)
    else if cfg.discordToken == "" then Err(MissingTokenError)
    else if sessionErr.Some? then Err("failed to create Discord session: " + sessionErr.value)
    else Ok(BotInfo(cfg))
  }

  /** `Start`: opening the connection and registering commands must succeed;
      a failure to clear old commands is only logged. */
  function Start(openErr: Option<string>, clearErr: Option<string>, registerErr: Option<string>): (r: Option<string>)
    ensures r.None? <==> openErr.None? && registerErr.None?
    ensures openErr.Some? ==> r == Some("failed to open Discord connection: " + openErr.value)
    ensures openErr.None? && registerErr.Some? ==> r == Some("failed to register commands: " + registerErr.value)
  {
    if openErr.Some? then Some("failed to open Discord connection: " + openErr.value)
    else if registerErr.Some? then Some("failed to register commands: " + registerErr.value)
    else None
  }

  /** The message handler: the bot's own messages never reach the pipeline. */
  function OnMessageCreate(selfId: string, q: MessageHandler.Queues, m: MessageHandler.Message): (r: MessageHandler.Ingest)
    ensures m.authorId == selfId ==> r.Dropped?
    ensures m.authorId != selfId ==> r == MessageHandler.ProcessMessage(q, m)
  {
    if m.authorId == selfId then MessageHandler.Dropped else MessageHandler.ProcessMessage(q, m)
  }

  /** The bot's own messages leave every queue as it was. */
  lemma OwnMessagesNeverQueued(selfId: string, q: MessageHandler.Queues, m: MessageHandler.Message)
    requires m.authorId == selfId
    ensures !OnMessageCreate(selfId, q, m).Enqueued?
    ensures !OnMessageCreate(selfId, q, m).Blocked?
  {
  }

  /** The first table position whose command has `name`. */
  function FindCommand(cmds: seq<Commands.Command>, name: string): (r: Option<nat>)
    ensures r.None? <==> forall k :: 0 <= k < |cmds| ==> cmds[k].name != name
    ensures r.Some? ==>
      && r.value < |cmds|
      && cmds[r.value].name == name
      && forall j :: 0 <= j < r.value ==> cmds[j].name != name
  {
    if |cmds| == 0 then None
    else if cmds[0].name == name then Some(0)
    else
      match FindCommand(cmds[1..], name)
      case None =>
        assert forall k :: 1 <= k < |cmds| ==> cmds[k] == cmds[1..][k - 1];
        None
      case Some(i) =>
        assert forall j :: 1 <= j < i + 1 ==> cmds[j] == cmds[1..][j - 1];
        Some(i + 1)
  }

  /** What `handleInteraction` did. */
  datatype Dispatch =
    | NotACommand
    | UnknownCommand
    | Handled(index: nat, handler: Commands.Handler, errorReply: Option<string>)

  /** `handleInteraction`. `run` stands for running a handler and gives the
      error it returns; a handler error is answered with "Error: " and its
      text. At most one handler runs: the first whose name matches. */
  function HandleInteraction(isApplicationCommand: bool, name: string,
                             run: Commands.Handler -> Option<string>): (r: Dispatch)
    ensures !isApplicationCommand ==> r == NotACommand
    ensures r.UnknownCommand? <==>
      (isApplicationCommand
       && forall k :: 0 <= k < |Commands.GetCommands()| ==> Commands.GetCommands()[k].name != name)
    ensures r.Handled? ==>
      && r.index < |Commands.GetCommands()|
      && Commands.GetCommands()[r.index].name == name
      && (forall j :: 0 <= j < r.index ==> Commands.GetCommands()[j].name != name)
      && r.handler == Commands.GetCommands()[r.index].handler
      && (run(r.handler).None? ==> r.errorReply == None)
      && (run(r.handler).Some? ==> r.errorReply == Some("Error: " + run(r.handler).value))
  {
    if !isApplicationCommand then NotACommand
    else
      var cmds := Commands.GetCommands();
      match FindCommand(cmds, name)
      case None => UnknownCommand
      case Some(i) =>
        var err := run(cmds[i].handler);
        Handled(i, cmds[i].handler, if err.Some? then Some("Error: " + err.value) else None)
  }

  /** Each command name reaches the handler wired to it in the table. */
  lemma DispatchReachesTableHandler(name: string, run: Commands.Handler -> Option<string>, i: nat)
    requires i < |Commands.GetCommands()| && Commands.GetCommands()[i].name == name
    ensures HandleInteraction(true, name, run).Handled?
    ensures HandleInteraction(true, name, run).handler == Commands.HandlerAt(i)
  {
    var r := HandleInteraction(true, name, run);
    assert r.index == i;
  }
}
