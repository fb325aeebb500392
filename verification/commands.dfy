/**
 * The slash-command table and its registration
 * (`internal/commands/commands.go`). Handlers are named, not run: `skip`,
 * `hate`, `unhate` and `hatelist` are handled by code outside this model.
 * `ApplicationCommandCreate` is a parameter.
 */
module Commands {
  import opened Wrappers

  datatype Handler = JoinHandler | LeaveHandler | SkipHandler | HateHandler | UnhateHandler | HateListHandler

  /** `Command`. */
  datatype Command = Command(name: string, description: string, handler: Handler)

  /** `GetCommands`: the six commands in table order, with distinct names. */
  function GetCommands(): (r: seq<Command>)
    ensures |r| == 6
    ensures forall i, j :: 0 <= i < j < |r| ==> r[i].name != r[j].name
    ensures forall i :: 0 <= i < |r| ==> r[i].handler == HandlerAt(i)
  {
    [ Command("join", "Join the voice channel", JoinHandler),
      Command("leave", "Leave the voice channel", LeaveHandler),
      Command("skip", "Skip the current TTS message", SkipHandler),
      Command("hate", "Add a user to the special TTS transformation list", HateHandler),
      Command("unhate", "Remove a user from the special TTS transformation list", UnhateHandler),
      Command("hatelist", "Show all users in the special TTS transformation list", HateListHandler) ]
  }

  /** The handler each table position is wired to. */
  function HandlerAt(i: nat): Handler
    requires i < 6
  {
    [JoinHandler, LeaveHandler, SkipHandler, HateHandler, UnhateHandler, HateListHandler][i]
  }

  /** The table's names, in order. */
  lemma CommandNames()
    ensures seq(6, i requires 0 <= i < 6 => GetCommands()[i].name)
         == ["join", "leave", "skip", "hate", "unhate", "hatelist"]
  {
  }

  datatype OptionType = UserOption

  /** `ApplicationCommandOption`. */
  datatype CommandOption = CommandOption(optionType: OptionType, name: string, description: string, required: bool)

  /** `ApplicationCommand` as sent for registration. */
  datatype ApplicationCommand = ApplicationCommand(name: string, description: string, options: seq<CommandOption>)

  const UserTarget := CommandOption(UserOption, "user", "The user to target", true)

  /** The registration entry for one command: same name and description, and
      a single required user option for `hate` and `unhate` only. */
  function ToApplicationCommand(c: Command): (r: ApplicationCommand)
    ensures r.name == c.name && r.description == c.description
    ensures c.name == "hate" || c.name == "unhate" ==> r.options == [UserTarget]
    ensures c.name != "hate" && c.name != "unhate" ==> r.options == []
  {
    var base := ApplicationCommand(c.name, c.description, []);
    match c.name
    case "hate" => base.(options := [UserTarget])
    case "unhate" => base.(options := [UserTarget])
    case _ => base
  }

  /** The first loop of `RegisterCommands`: one entry per command, same index. */
  function BuildApplicationCommands(cmds: seq<Command>): (r: seq<ApplicationCommand>)
    ensures |r| == |cmds|
    ensures forall i :: 0 <= i < |cmds| ==> r[i] == ToApplicationCommand(cmds[i])
  {
    seq(|cmds|, i requires 0 <= i < |cmds| => ToApplicationCommand(cmds[i]))
  }

  /** Exactly `hate` and `unhate` take an argument. */
  lemma OnlyHateCommandsTakeAUser()
    ensures var r := BuildApplicationCommands(GetCommands());
      forall i :: 0 <= i < |r| ==> (|r[i].options| == 1 <==> i == 3 || i == 4)
  {
  }

  /** A guild the bot is in. */
  datatype GuildInfo = GuildInfo(id: string, name: string)

  /** `ApplicationCommandCreate` for `cmd` in `guild` succeeded. */
  predicate Created(create: (string, string) -> Option<string>, guild: GuildInfo, cmd: ApplicationCommand)
  {
    create(guild.id, cmd.name).None?
  }

  /** Pair (gi, ci) is the first failure in guild-major, command-minor order. */
  predicate FirstFailure(guilds: seq<GuildInfo>, cmds: seq<ApplicationCommand>,
                         create: (string, string) -> Option<string>, gi: int, ci: int)
  {
    && 0 <= gi < |guilds| && 0 <= ci < |cmds|
    && !Created(create, guilds[gi], cmds[ci])
    && (forall g, c :: 0 <= g < gi && 0 <= c < |cmds| ==> Created(create, guilds[g], cmds[c]))
    && (forall c :: 0 <= c < ci ==> Created(create, guilds[gi], cmds[c]))
  }

  function CreateError(cmd: ApplicationCommand, guild: GuildInfo, err: string): string
  {
    "cannot create '" + cmd.name + "' command for guild " + guild.name + ": " + err
  }

  /** The second loop of `RegisterCommands`: create every command in every
      guild, and return the first failure. `create(guildId, name)` is the
      error `ApplicationCommandCreate` returns, if any. */
  method RegisterCommands(guilds: seq<GuildInfo>, cmds: seq<ApplicationCommand>,
                          create: (string, string) -> Option<string>) returns (err: Option<string>)
    ensures err.None? <==>
      forall g, c :: 0 <= g < |guilds| && 0 <= c < |cmds| ==> Created(create, guilds[g], cmds[c])
    ensures err.Some? ==> exists g, c ::
      && FirstFailure(guilds, cmds, create, g, c)
      && err.value == CreateError(cmds[c], guilds[g], create(guilds[g].id, cmds[c].name).value)
  {
    var gi := 0;
    while gi < |guilds|
      invariant 0 <= gi <= |guilds|
      invariant forall g, c :: 0 <= g < gi && 0 <= c < |cmds| ==> Created(create, guilds[g], cmds[c])
    {
      var ci := 0;
      while ci < |cmds|
        invariant 0 <= ci <= |cmds|
        invariant forall c :: 0 <= c < ci ==> Created(create, guilds[gi], cmds[c])
      {
        var result := create(guilds[gi].id, cmds[ci].name);
        if result.Some? {
          assert FirstFailure(guilds, cmds, create, gi, ci);
          return Some(CreateError(cmds[ci], guilds[gi], result.value));
        }
        ci := ci + 1;
      }
      gi := gi + 1;
    }
    return None;
  }
}
