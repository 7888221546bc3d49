/**
 * The bot registry in local mode: the bots are whatever the process
 * environment declares, in `TELEGRAM_BOTS` (a JSON array) and in the
 * `TELEGRAM_BOT_TOKEN` family of variables for a single "primary" bot.
 * Nothing here is stored; every lookup re-reads the environment.
 */
module BotRegistry {
  import opened Common

  /**
   * An element of the parsed `TELEGRAM_BOTS` array that is an object;
   * a missing field is `""`.
   */
  datatype RawBot = RawBot(id: string, name: string, username: string, token: string, miniAppUrl: string)

  /** The `TELEGRAM_BOTS` variable, as far as parsing it goes. */
  datatype BotsVar =
    | Unset                                  // absent or empty
    | Unparsable                             // `JSON.parse` throws
    | NotArray                               // valid JSON, but not an array
    | BotArray(entries: seq<Option<RawBot>>)  // `None`: an element that is null, false or another falsy value

  /** The environment variables the registry reads; `""` means unset. */
  datatype RegistryEnv = RegistryEnv(
    telegramBots: BotsVar,
    botToken: string,       // TELEGRAM_BOT_TOKEN
    botName: string,        // TELEGRAM_BOT_NAME
    botUsername: string,    // TELEGRAM_BOT_USERNAME
    miniAppUrl: string,     // MINIAPP_URL
    defaultBotId: string)   // TELEGRAM_DEFAULT_BOT_ID

  datatype EnvBot = EnvBot(id: string, name: string, username: string, token: string, miniAppUrl: string)

  /** What `listBots` reports about a bot: everything but its token. */
  datatype BotSummary = BotSummary(
    id: string,
    name: string,
    username: string,
    description: string,
    webhookUrl: string,
    aiPersona: string,
    aiEnabled: bool,
    miniAppUrl: string,
    lastSyncedAt: Option<string>)

  datatype RegistryError =
    | MissingBotId          // a lookup without a bot id
    | InvalidBot            // an upsert without a bot or without an id
    | LocalModeUnsupported  // local mode cannot add bots

  /** An array element is taken only when it is an object with an id and a token. */
  predicate Usable(entry: Option<RawBot>)
  {
    entry.Some? && entry.value.id != "" && entry.value.token != ""
  }

  /** The registry record for a usable entry: the name falls back to the id. */
  function FromRaw(raw: RawBot): EnvBot
  {
    EnvBot(raw.id, if raw.name != "" then raw.name else raw.id, raw.username, raw.token, raw.miniAppUrl)
  }

  /** The usable entries of a prefix of the array, in array order. */
  function Kept(entries: seq<Option<RawBot>>): seq<EnvBot>
  {
    if entries == [] then []
    else
      var last := entries[|entries| - 1];
      Kept(entries[..|entries| - 1]) + (if Usable(last) then [FromRaw(last.value)] else [])
  }

  /** The bot `TELEGRAM_BOT_TOKEN` declares, if it is set. */
  function Primary(env: RegistryEnv): seq<EnvBot>
  {
    if env.botToken == "" then []
    else [EnvBot("primary", if env.botName != "" then env.botName else "Primary Bot",
                 env.botUsername, env.botToken, env.miniAppUrl)]
  }

  /** The bots the environment declares: the usable array entries, then the primary bot. */
  function EnvBots(env: RegistryEnv): seq<EnvBot>
  {
    (if env.telegramBots.BotArray? then Kept(env.telegramBots.entries) else []) + Primary(env)
  }

  /** Reads the environment into a list of bots, pushing each usable entry in turn. */
  method ParseEnvBots(env: RegistryEnv) returns (bots: seq<EnvBot>)
    ensures bots == EnvBots(env)
  {
    bots := [];
    if env.telegramBots.BotArray? {
      var entries := env.telegramBots.entries;
      var i := 0;
      while i < |entries|
        invariant 0 <= i <= |entries|
        invariant bots == Kept(entries[..i])
      {
        assert entries[..i + 1][..i] == entries[..i];
        if Usable(entries[i]) {
          bots := bots + [FromRaw(entries[i].value)];
        }
        i := i + 1;
      }
      assert entries[..i] == entries;
    }
    if env.botToken != "" {
      bots := bots + [EnvBot("primary", if env.botName != "" then env.botName else "Primary Bot",
                             env.botUsername, env.botToken, env.miniAppUrl)];
    }
  }

  /** Filtering distributes over concatenation: entries are kept in input order. */
  lemma {:induction false} KeptAppend(a: seq<Option<RawBot>>, b: seq<Option<RawBot>>)
    ensures Kept(a + b) == Kept(a) + Kept(b)
    decreases |b|
  {
    if b == [] {
      assert a + b == a;
    } else {
      var b' := b[..|b| - 1];
      assert (a + b)[..|a + b| - 1] == a + b';
      KeptAppend(a, b');
    }
  }

  /** A single entry contributes its record when usable and nothing otherwise. */
  lemma KeptSingle(entry: Option<RawBot>)
    ensures Kept([entry]) == if Usable(entry) then [FromRaw(entry.value)] else []
  {
    assert [entry][..0] == [];
  }

  /** Every bot the environment declares has an id and a token, and a name. */
  lemma {:induction false} KeptWellFormed(entries: seq<Option<RawBot>>)
    ensures forall b :: b in Kept(entries) ==> b.id != "" && b.token != "" && b.name != ""
    decreases |entries|
  {
    if entries != [] {
      KeptWellFormed(entries[..|entries| - 1]);
    }
  }

  lemma EnvBotsWellFormed(env: RegistryEnv)
    ensures forall b :: b in EnvBots(env) ==> b.id != "" && b.token != "" && b.name != ""
  {
    if env.telegramBots.BotArray? {
      KeptWellFormed(env.telegramBots.entries);
    }
  }

  /** A variable that is unset, unparsable or not an array contributes nothing. */
  lemma OnlyArraysContribute(env: RegistryEnv)
    requires !env.telegramBots.BotArray?
    ensures EnvBots(env) == Primary(env)
  {
  }

  /** When `TELEGRAM_BOT_TOKEN` is set, the primary bot comes last, after all array entries. */
  lemma PrimaryComesLast(env: RegistryEnv)
    requires env.botToken != ""
    ensures var bots := EnvBots(env);
      && |bots| >= 1
      && bots[|bots| - 1].id == "primary"
      && bots[|bots| - 1].token == env.botToken
      && bots[..|bots| - 1] == (if env.telegramBots.BotArray? then Kept(env.telegramBots.entries) else [])
  {
  }

  function IdIs(botId: string): EnvBot -> bool
  {
    (b: EnvBot) => b.id == botId
  }

  /** `getBot` in local mode: an empty id is an error; otherwise the first bot with that id, if any. */
  function GetBot(botId: string, env: RegistryEnv): (r: Result<Option<EnvBot>, RegistryError>)
    ensures r.Failure? <==> botId == ""
    ensures r.Failure? ==> r.error == MissingBotId
    ensures r.Success? && r.value.Some? ==>
      exists i :: 0 <= i < |EnvBots(env)| && EnvBots(env)[i] == r.value.value && r.value.value.id == botId
        && forall j :: 0 <= j < i ==> EnvBots(env)[j].id != botId
    ensures r.Success? && r.value.None? ==> forall b :: b in EnvBots(env) ==> b.id != botId
  {
    if botId == "" then Failure(MissingBotId)
    else
      var bots := EnvBots(env);
      match FindFirst(bots, IdIs(botId))
      case None => Success(None)
      case Some(i) => Success(Some(bots[i]))
  }

  /** `getBotToken`: the found bot's token, `None` for no bot; an empty id fails as in `GetBot`. */
  function GetBotToken(botId: string, env: RegistryEnv): (r: Result<Option<string>, RegistryError>)
    ensures r.Failure? <==> botId == ""
    ensures r.Success? ==>
      (r.value.None? <==> GetBot(botId, env).value.None? || GetBot(botId, env).value.value.token == "")
    ensures r.Success? && r.value.Some? ==> r.value.value == GetBot(botId, env).value.value.token
  {
    match GetBot(botId, env)
    case Failure(e) => Failure(e)
    case Success(found) =>
      if found.Some? && found.value.token != "" then Success(Some(found.value.token)) else Success(None)
  }

  /** Looking up the id of a listed bot finds that bot (the first with the id) and its token. */
  lemma LookupFindsListedBot(env: RegistryEnv, i: nat)
    requires i < |EnvBots(env)|
    requires forall j :: 0 <= j < i ==> EnvBots(env)[j].id != EnvBots(env)[i].id
    ensures GetBot(EnvBots(env)[i].id, env) == Success(Some(EnvBots(env)[i]))
    ensures GetBotToken(EnvBots(env)[i].id, env) == Success(Some(EnvBots(env)[i].token))
  {
    EnvBotsWellFormed(env);
    assert EnvBots(env)[i] in EnvBots(env);
    FindFirstAt(EnvBots(env), IdIs(EnvBots(env)[i].id), i);
  }

  function Summary(b: EnvBot): BotSummary
  {
    BotSummary(b.id, b.name, b.username, "", "", "", false, b.miniAppUrl, None)
  }

  /** `listBots` in local mode: one token-free summary per declared bot, in the same order. */
  function ListBots(env: RegistryEnv): (r: seq<BotSummary>)
    ensures |r| == |EnvBots(env)|
    ensures forall k :: 0 <= k < |r| ==>
      && r[k].id == EnvBots(env)[k].id && r[k].name == EnvBots(env)[k].name
      && r[k].username == EnvBots(env)[k].username && r[k].miniAppUrl == EnvBots(env)[k].miniAppUrl
      && !r[k].aiEnabled && r[k].lastSyncedAt.None?
  {
    var bots := EnvBots(env);
    seq(|bots|, k requires 0 <= k < |bots| => Summary(bots[k]))
  }

  /** Every listed bot can be fetched by its id. */
  lemma ListedBotsCanBeFetched(env: RegistryEnv, k: nat)
    requires k < |ListBots(env)|
    ensures var got := GetBot(ListBots(env)[k].id, env);
      got.Success? && got.value.Some? && got.value.value.id == ListBots(env)[k].id
  {
    EnvBotsWellFormed(env);
    var bots := EnvBots(env);
    assert bots[k] in bots;
    assert IdIs(bots[k].id)(bots[k]);
  }

  /**
   * `ensureBotId`: the given id, else `TELEGRAM_DEFAULT_BOT_ID`, else the
   * first declared bot's id, else a fresh identifier (the `seed`-th draw).
   */
  function EnsureBotId(botId: string, env: RegistryEnv, seed: nat): (id: string)
    ensures id != ""
    ensures botId != "" ==> id == botId
    ensures botId == "" && env.defaultBotId != "" ==> id == env.defaultBotId
    ensures botId == "" && env.defaultBotId == "" && EnvBots(env) != [] ==> id == EnvBots(env)[0].id
    ensures botId == "" && env.defaultBotId == "" && EnvBots(env) == [] ==> id == Uuid(seed)
  {
    EnvBotsWellFormed(env);
    if botId != "" then botId
    else if env.defaultBotId != "" then env.defaultBotId
    else
      var bots := EnvBots(env);
      if |bots| > 0 then (assert bots[0] in bots; bots[0].id) else Uuid(seed)
  }

  /** `upsertBot` in local mode: always refused, and refused earlier for a missing bot or id. */
  function UpsertBot(bot: Option<RawBot>): (r: Result<EnvBot, RegistryError>)
    ensures r.Failure?
    ensures r.error == InvalidBot <==> bot.None? || bot.value.id == ""
  {
    if bot.None? || bot.value.id == "" then Failure(InvalidBot) else Failure(LocalModeUnsupported)
  }
}
