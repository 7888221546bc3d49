# TopitoBN9 bot backend, modelled in Dafny

TopitoBN9 is a Telegram bot backend with a small web dashboard. Operators
configure slash commands with buttons, keyword quick replies and a default
response, and the backend answers the updates Telegram delivers to its
webhook. This project models the decision logic and the stores behind it,
and proves what they promise.

- **Update router** (`Telegram`, from `backend/services/telegram.js`).
  - `handleTelegramUpdate` is a pure function from an update and a
    configuration snapshot `{commands, quickReplies, settings}` to a `Run`.
    A `Run` is the ordered list of requests issued to the Bot API
    (`sendMessage`, `answerCallbackQuery`) and the error the handler
    rejects with, if any.
  - The Bot API is a `Transport`: the resolved token (`""` for none) and an
    oracle saying whether an issued request succeeded.
  - The language model is an `AiOracle` returning a text, or `None` when
    the call throws.
  - `normalise`, `buildWebAppUrl`, `buildReplyMarkup`, `ensureToken`,
    `getToken` and `resolveWebhookUrl` are modelled with it.
- **Command store** (`CommandStore`, from `backend/services/commandStore.js`).
  - The JSON document becomes the fields of a `Store` class.
  - `commands` and `quickReplies` are `seq` fields that each method
    reassigns, as `push`, `splice` and index assignment do.
  - `randomUUID` is the counter `issued`: the n-th identifier drawn is
    `Uuid(n)`, and distinct draws are proved distinct.
  - The class invariant `Valid()` holds when:
    - command texts are non-empty, start with `/`, carry no surrounding
      whitespace, and are pairwise distinct ignoring case;
    - ids are distinct within each list;
    - every id was already drawn.
- **Bot registry in local mode** (`BotRegistry`, from
  `backend/services/botRegistry.js`).
  - The environment is a value. `TELEGRAM_BOTS` is modelled after parsing:
    unset, unparsable, not an array, or an array of entries.
  - `parseEnvBots` is a method with a loop, proved against the
    specification function `EnvBots`.
- **Dashboard helpers** (`Dashboard`, from `frontend/src/App.tsx`):
  `updateCollection`, the delete filters and the two submit checks.
- **Route helpers** (`BotRoutes`, from `backend/routes/bot.js`):
  - `getBotId`;
  - the `/ai/models` list;
  - the test-message check;
  - the AI-preview parameter resolution.

`Common` holds `Option`, `Result`, the first-match search behind `find` and
`findIndex`, and the identifier generator. `Strings` holds JavaScript's
`trim`, `toLowerCase`, `startsWith`, `includes` and `split`. `Entities`
holds the records: buttons, commands, quick replies, settings and the
configuration snapshot.

The source files do not agree with one another. The store keeps
`defaultResponse` at the top level, while the router reads
`config.settings.*`. The routes call store functions the store does not
export. Each file's own code is modelled. The router takes the abstract
snapshot `Entities.Config`.

Observations the proofs make explicit:

- A callback whose send throws is never acknowledged: the code awaits the
  send before `answerCallbackQuery` (`CallbackSendsThenAcknowledges`).
- The callback branch matches on a command's text or on any of its buttons,
  and takes the first command in list order. With the seeded data, the
  callback data `/help` therefore selects `/start`, whose button has the
  value `/help`, rather than the `/help` command itself.
  `ExampleHelpCallback` shows this on a two-command configuration.
- `getToken` falls back to `TELEGRAM_BOT_TOKEN` for an empty id or the id
  `primary`. In local mode the fallback never changes the answer
  (`TokenIsRegistryToken`):
  - an empty id is already refused by `getBot`;
  - whenever the variable is set, `primary` is a registered bot carrying
    exactly that token.
- `updateQuickReply` with a keyword of whitespace alone stores the keyword
  `""`. Every message contains `""`, so that quick reply then answers every
  message nothing earlier matches (`BlankedKeywordAnswersEverything`).
- The dashboard's command form only checks that fields are non-empty. A
  command text of one space is sent, and the store refuses it with 400
  (`FormWeakerThanStore`).

## Model

| member | source | states |
|---|---|---|
| Common.FindFirst | TopitoBN9/backend/services/commandStore.js:136 | the index found satisfies the predicate, no earlier element does, and none is found exactly when no element satisfies it |
| Common.NextUuidIsFresh | TopitoBN9/backend/services/commandStore.js:123 | the next identifier drawn differs from every identifier drawn before |
| Telegram.EnsureToken | TopitoBN9/backend/services/telegram.js:10-17 | succeeds with the token exactly when it is non-empty; otherwise a 400-style error naming the bot, or `unknown` for no bot id |
| Telegram.GetToken | TopitoBN9/backend/services/telegram.js:19-28 | fails exactly when the bot id is empty, since the registry lookup refuses it |
| Telegram.TokenIsRegistryToken | TopitoBN9/backend/services/telegram.js:19-28 | for a non-empty id the token is the registry's token for that bot, so the `TELEGRAM_BOT_TOKEN` fallback never changes the answer in local mode |
| Telegram.PrimaryTokenExample | TopitoBN9/backend/services/telegram.js:19-31 | with only `TELEGRAM_BOT_TOKEN` set, the bot `primary` resolves to that token and passes `ensureToken` |
| Telegram.HttpBase | TopitoBN9/backend/services/telegram.js:59-61 | a domain starting with `http` is kept as it is; any other gets `https://` in front |
| Telegram.StripTrailingSlash | TopitoBN9/backend/services/telegram.js:63 | a text ending in `/` loses exactly that one `/`; any other text is unchanged |
| Telegram.DomainBase | TopitoBN9/backend/services/telegram.js:58-63 | the base is the `DOMAIN` value, behind `https://` unless it starts with `http`, less one trailing `/`; it starts with `http` |
| Telegram.InlineRow | TopitoBN9/backend/services/telegram.js:74-105 | no contract; specified by `InlineKeyboardShape` |
| Telegram.MiniAppId | TopitoBN9/backend/services/telegram.js:62 | `MINIAPP_ID` when set, else the bot id when non-empty, else `miniapp`; never empty |
| Telegram.BuildWebAppUrl | TopitoBN9/backend/services/telegram.js:55-66 | there is no URL exactly when `settings.miniAppUrl`, `MINIAPP_URL` and `DOMAIN` are all unset; any URL returned is non-empty |
| Telegram.WebAppUrlChain | TopitoBN9/backend/services/telegram.js:55-66 | the chain in order: the settings URL, then `MINIAPP_URL`, then the `DOMAIN` base followed by `/miniapp/` and the mini-app id |
| Telegram.BuildReplyMarkup | TopitoBN9/backend/services/telegram.js:68-118 | no markup exactly when no button is kept; either keyboard has one row per kept button |
| Telegram.NoMarkupIff | TopitoBN9/backend/services/telegram.js:68-70 | no markup exactly when no button has both a label and a type |
| Telegram.ReplyKeyboardShape | TopitoBN9/backend/services/telegram.js:108-117 | when every kept button is a command: a reply keyboard, resizable and not one-time, with one single-button row per kept button in order, showing the value or else the label |
| Telegram.InlineKeyboardShape | TopitoBN9/backend/services/telegram.js:72-105 | when some kept button is not a command: an inline keyboard with one single-button row per kept button in order, covering url, web_app (value, fallback URL, or degraded to callback data) and callback rows |
| Telegram.UrlAndCommandExample | TopitoBN9/backend/services/telegram.js:72-105 | a url button and a command button give the two expected inline rows |
| Telegram.SendMessage | TopitoBN9/backend/services/telegram.js:120-137 | a missing chat id or text is a 400 with nothing sent; otherwise exactly one request, carrying the payload and the built markup, is issued when a token resolves; the run throws unless that request was delivered |
| Telegram.AnswerCallbackQuery | TopitoBN9/backend/services/telegram.js:139-148 | never throws; issues one acknowledgement exactly when the id is non-empty and a token resolves |
| Telegram.NormaliseIsLowerTrim | TopitoBN9/backend/services/telegram.js:150-157 | both branches of `normalise` compute the lower-cased trimmed text, and empty input gives `""` |
| Telegram.Normalise | TopitoBN9/backend/services/telegram.js:150-157 | no contract; specified by `NormaliseIsLowerTrim`, `NormalisedShape` and `NormaliseIdempotent` |
| Telegram.NormalisedShape | TopitoBN9/backend/services/telegram.js:150-157 | a normalised text has no surrounding whitespace and no capital letter |
| Telegram.NormaliseIdempotent | TopitoBN9/backend/services/telegram.js:150-157 | normalising twice equals normalising once |
| Telegram.SilentWithoutUsableInput | TopitoBN9/backend/services/telegram.js:169-202 | a null update, one with neither message nor callback, a message without a chat, or a text that normalises to nothing issues no request |
| Telegram.HandleTelegramUpdate | TopitoBN9/backend/services/telegram.js:169-246 | no contract; specified by `SilentWithoutUsableInput`, `AtMostOneReply` and the branch lemmas below |
| Telegram.HandleMessage | TopitoBN9/backend/services/telegram.js:198-245 | no contract; specified by `ExactCommandWins`, `ButtonMatchWins`, `QuickReplyWins` and `UnmatchedFallsBack` |
| Telegram.Fallback | TopitoBN9/backend/services/telegram.js:228-245 | no contract; specified by `AiReplyWins`, `AiFailureFallsThrough`, `DefaultWithoutAi` and `FallbackShape` |
| Telegram.HandleCallbackQuery | TopitoBN9/backend/services/telegram.js:174-196 | no contract; specified by `CallbackWithoutChatOnlyAcknowledged`, `CallbackSendsThenAcknowledges` and `UnmatchedCallbackOnlyAcknowledged` |
| Telegram.ExactCommandWins | TopitoBN9/backend/services/telegram.js:207-210 | the first command whose normalised text equals the normalised message is sent |
| Telegram.ButtonMatchWins | TopitoBN9/backend/services/telegram.js:212-217 | when no command text matches, the first command with a button whose normalised value-or-label equals the message is sent |
| Telegram.QuickReplyWins | TopitoBN9/backend/services/telegram.js:219-226 | when no command or button matches, the first quick reply whose normalised keyword occurs in the message is sent, without buttons |
| Telegram.UnmatchedFallsBack | TopitoBN9/backend/services/telegram.js:204-245 | when nothing configured matches, the outcome is the AI-then-default fallback |
| Telegram.AiReplyWins | TopitoBN9/backend/services/telegram.js:228-237 | with AI enabled and a key set, the model's text is sent, asked with the raw text and the bot's persona, model and temperature |
| Telegram.AiFailureFallsThrough | TopitoBN9/backend/services/telegram.js:228-245 | a throwing model, or a throwing send of its text, falls through to the default response |
| Telegram.DefaultWithoutAi | TopitoBN9/backend/services/telegram.js:243-245 | without AI the model is never consulted; the default response is sent when non-empty, and nothing otherwise |
| Telegram.KeywordSurvivesNoise | TopitoBN9/backend/services/telegram.js:219 | a normalised keyword still occurs in any normalised text built around it |
| Telegram.KeywordWithNoiseAnswered | TopitoBN9/backend/services/telegram.js:219-226 | a keyword with arbitrary text around it is answered by its quick reply when nothing earlier matches |
| Telegram.BlankKeywordMatchesEverything | TopitoBN9/backend/services/telegram.js:219 | a keyword of whitespace alone matches every message |
| Telegram.CallbackWithoutChatOnlyAcknowledged | TopitoBN9/backend/services/telegram.js:174-181 | a callback without a chat issues at most the acknowledgement and never throws |
| Telegram.CallbackSendsThenAcknowledges | TopitoBN9/backend/services/telegram.js:182-194 | the first command selected by text or button is sent, then acknowledged once; a send that throws skips the acknowledgement |
| Telegram.UnmatchedCallbackOnlyAcknowledged | TopitoBN9/backend/services/telegram.js:190-194 | a callback that selects no command is only acknowledged |
| Telegram.FallbackShape | TopitoBN9/backend/services/telegram.js:228-245 | the fallback issues at most two messages, and a second one only after the first failed |
| Telegram.AtMostOneReply | TopitoBN9/backend/services/telegram.js:169-246 | one update delivers at most one message and at most one acknowledgement |
| Telegram.ResolveWebhookUrl | TopitoBN9/backend/services/telegram.js:248-257 | the request's URL if given; otherwise a URL starting with `http` and ending in `/webhook/<botId>` when `DOMAIN` is set; nothing exactly when both are absent |
| Telegram.WebhookAndMiniAppShareBase | TopitoBN9/backend/services/telegram.js:250-254 | the webhook URL and the mini-app URL built from `DOMAIN` share one base |
| Telegram.NormaliseValidCommand | TopitoBN9/backend/services/telegram.js:150-157 | a valid stored command text normalises to its lower-case form, never to `""` |
| Telegram.StoredCommandAnswered | TopitoBN9/backend/services/telegram.js:207-210 | over commands keeping the store invariant, a message that normalises to a command's text is answered by that command |
| Telegram.BlankedKeywordAnswersEverything | TopitoBN9/backend/services/telegram.js:219 | a quick reply edited with a whitespace keyword matches every message |
| Telegram.ExampleTextsValid | TopitoBN9/backend/services/telegram.js:150-157 | the example commands keep the store invariant, and `/START` normalises to `/start` |
| Telegram.ExampleStartMessage | TopitoBN9/backend/services/telegram.js:197-210 | the message `/START` gets the `/start` reply with a one-button reply keyboard showing `/help` |
| Telegram.ExampleHelpMessage | TopitoBN9/backend/services/telegram.js:197-210 | the message `/help` gets the `/help` reply |
| Telegram.ExampleHelpCallback | TopitoBN9/backend/services/telegram.js:174-194 | callback data `/help` selects `/start` through its button, sends its reply, then acknowledges |
| CommandStore.NormaliseCommand | TopitoBN9/backend/services/commandStore.js:88-92 | `""` exactly for blank input; otherwise a valid command text, equal to the trimmed input with `/` added only if missing |
| CommandStore.NormaliseCommandFixesValid | TopitoBN9/backend/services/commandStore.js:88-92 | a valid command text, whatever its case, is left unchanged |
| CommandStore.NormaliseCommandIdempotent | TopitoBN9/backend/services/commandStore.js:88-92 | normalising twice equals normalising once |
| CommandStore.LabelledOnlyAppend | TopitoBN9/backend/services/commandStore.js:96 | the filter works piecewise over concatenation, so kept buttons stay in payload order |
| CommandStore.LabelledOnlyMembers | TopitoBN9/backend/services/commandStore.js:96 | a button survives the filter exactly when it is present and labelled |
| CommandStore.SanitiseButtons | TopitoBN9/backend/services/commandStore.js:94-102 | one output per labelled input, in order; label and value are trimmed, a missing or empty value is absent, the type defaults to `command`, and an existing id is kept while a missing one gets a non-empty fresh id |
| CommandStore.SanitiseDrawsFreshIds | TopitoBN9/backend/services/commandStore.js:98 | every id the sanitiser generates is one of its own draws, so it differs from every id drawn earlier |
| CommandStore.SanitiseKeepsClean | TopitoBN9/backend/services/commandStore.js:94-102 | sanitising buttons that are already clean returns them unchanged and draws nothing |
| CommandStore.CreateDefaultData | TopitoBN9/backend/services/commandStore.js:8-67 | no contract; specified by `DefaultTextsValid` and `DefaultIdsValid` |
| CommandStore.DefaultTextsValid | TopitoBN9/backend/services/commandStore.js:8-67 | the seeded commands are `/start` and `/help`, which satisfy the store invariant |
| CommandStore.DefaultIdsValid | TopitoBN9/backend/services/commandStore.js:8-67 | the seeded ids are distinct and among the draws made |
| CommandStore.RemoveAt | TopitoBN9/backend/services/commandStore.js:171 | the element at the index is removed, and the others keep their relative order |
| CommandStore.RemovedIdIsGone | TopitoBN9/backend/services/commandStore.js:163-173 | after the removal no command has that id, and every other command remains |
| CommandStore.RemovedReplyIsGone | TopitoBN9/backend/services/commandStore.js:214-224 | after the removal no quick reply has that id, and every other one remains |
| CommandStore.AppendKeepsValidTexts | TopitoBN9/backend/services/commandStore.js:117-129 | appending a valid text that no stored text equals ignoring case keeps the invariant |
| CommandStore.ReplaceKeepsValidTexts | TopitoBN9/backend/services/commandStore.js:143-152 | replacing one command by a valid text no other command has keeps the invariant |
| CommandStore.RemoveKeepsValidTexts | TopitoBN9/backend/services/commandStore.js:171 | removing a command keeps the invariant |
| CommandStore.OwnTextNotTaken | TopitoBN9/backend/services/commandStore.js:145 | re-saving a command's own text never conflicts with itself |
| CommandStore.NewCommand | TopitoBN9/backend/services/commandStore.js:111-128 | the new command has the next identifier, the normalised text `addCommand` checked (valid when not blank), the trimmed description and response, and the sanitised buttons drawn after its own id |
| CommandStore.DrawsAfterNewCommand | TopitoBN9/backend/services/commandStore.js:122-127 | adding a command draws at least one identifier |
| CommandStore.DrawsAfterEdit | TopitoBN9/backend/services/commandStore.js:157 | an edit never rewinds the identifier counter |
| CommandStore.EditedCommand | TopitoBN9/backend/services/commandStore.js:142-158 | no contract; specified by `EditKeepsWhatIsNotSent` and `EditedTextValid` |
| CommandStore.EditKeepsWhatIsNotSent | TopitoBN9/backend/services/commandStore.js:142-158 | an edit keeps the id and every field left out of the payload; a sent description or response is stored trimmed; sent buttons are stored sanitised; a missing or blank text keeps the old text, any other is stored normalised |
| CommandStore.EditedTextValid | TopitoBN9/backend/services/commandStore.js:142-154 | an edit leaves a valid text, the one checked for conflicts whenever that one is non-empty |
| CommandStore.NewQuickReply | TopitoBN9/backend/services/commandStore.js:177-188 | no contract; specified by `NewQuickReplyShape` |
| CommandStore.NewQuickReplyShape | TopitoBN9/backend/services/commandStore.js:177-188 | an added quick reply has the next identifier and the trimmed keyword; the title is the trimmed title, or the keyword when none is given; the response is the trimmed response, or `""` when none is given; keyword and title are non-blank |
| CommandStore.EditedQuickReply | TopitoBN9/backend/services/commandStore.js:202-209 | no contract; specified by `QuickReplyEditKeepsWhatIsNotSent` |
| CommandStore.QuickReplyEditKeepsWhatIsNotSent | TopitoBN9/backend/services/commandStore.js:202-209 | an edit keeps the id and fields left out of the payload; a sent title or response is stored trimmed; a non-empty keyword is stored trimmed, so a whitespace keyword becomes `""` |
| CommandStore.Store.constructor | TopitoBN9/backend/services/commandStore.js:8-67 | a new store holds the seeded document and satisfies the invariant |
| CommandStore.Store.AddCommand | TopitoBN9/backend/services/commandStore.js:109-132 | succeeds exactly when the normalised text is non-blank and no command has it ignoring case; a blank text is 400 and a duplicate is 409, both with nothing changed; on success exactly the new command is appended; the invariant is kept |
| CommandStore.Store.UpdateCommand | TopitoBN9/backend/services/commandStore.js:134-161 | an unknown id is 404 and a conflicting text 409, both with nothing changed; otherwise only that index changes, to the edited command; the invariant is kept |
| CommandStore.Store.RemoveCommand | TopitoBN9/backend/services/commandStore.js:163-173 | an unknown id is 404 with nothing changed; otherwise exactly that command is removed, with the others in order |
| CommandStore.Store.AddQuickReply | TopitoBN9/backend/services/commandStore.js:175-192 | a blank keyword is 400 with nothing changed; otherwise exactly the new quick reply is appended, with no uniqueness check |
| CommandStore.Store.UpdateQuickReply | TopitoBN9/backend/services/commandStore.js:194-212 | an unknown id is 404 with nothing changed; otherwise only that index changes, to the edited quick reply |
| CommandStore.Store.RemoveQuickReply | TopitoBN9/backend/services/commandStore.js:214-224 | an unknown id is 404 with nothing changed; otherwise exactly that quick reply is removed, with the others in order |
| CommandStore.Store.SetDefaultResponse | TopitoBN9/backend/services/commandStore.js:226-230 | the default response becomes the trimmed text, or `""`, and nothing else changes |
| BotRegistry.ParseEnvBots | TopitoBN9/backend/services/botRegistry.js:4-38 | the loop builds exactly the declared bots: the usable array entries, then the primary bot |
| BotRegistry.FromRaw | TopitoBN9/backend/services/botRegistry.js:12-18 | no contract; specified by `KeptSingle` |
| BotRegistry.Kept | TopitoBN9/backend/services/botRegistry.js:10-20 | no contract; specified by `KeptAppend`, `KeptSingle` and `KeptWellFormed` |
| BotRegistry.Primary | TopitoBN9/backend/services/botRegistry.js:27-35 | no contract; specified by `PrimaryComesLast` |
| BotRegistry.EnvBots | TopitoBN9/backend/services/botRegistry.js:4-38 | no contract; specified by `ParseEnvBots`, `EnvBotsWellFormed`, `OnlyArraysContribute` and `PrimaryComesLast` |
| BotRegistry.KeptAppend | TopitoBN9/backend/services/botRegistry.js:10-20 | filtering a concatenation concatenates the filtered parts, so input order is kept |
| BotRegistry.KeptSingle | TopitoBN9/backend/services/botRegistry.js:11-19 | an entry is kept exactly when it has an id and a token, with the name defaulting to the id |
| BotRegistry.KeptWellFormed | TopitoBN9/backend/services/botRegistry.js:11-18 | every kept bot has a non-empty id, token and name |
| BotRegistry.EnvBotsWellFormed | TopitoBN9/backend/services/botRegistry.js:4-38 | every declared bot has a non-empty id, token and name |
| BotRegistry.OnlyArraysContribute | TopitoBN9/backend/services/botRegistry.js:6-25 | an unset, unparsable or non-array `TELEGRAM_BOTS` contributes nothing |
| BotRegistry.PrimaryComesLast | TopitoBN9/backend/services/botRegistry.js:27-35 | with `TELEGRAM_BOT_TOKEN` set, the bot `primary` with that token comes after every array entry |
| BotRegistry.GetBot | TopitoBN9/backend/services/botRegistry.js:74-101 | an empty id is an error; otherwise the first declared bot with that id, and none exactly when no bot has it |
| BotRegistry.GetBotToken | TopitoBN9/backend/services/botRegistry.js:148-151 | the found bot's token, or none when no bot is found or its token is empty; an empty id is an error |
| BotRegistry.LookupFindsListedBot | TopitoBN9/backend/services/botRegistry.js:98-100 | looking up a declared bot's id finds that bot and its token |
| BotRegistry.Summary | TopitoBN9/backend/services/botRegistry.js:61-71 | no contract; specified by `ListBots` |
| BotRegistry.ListBots | TopitoBN9/backend/services/botRegistry.js:60-71 | one summary per declared bot, in order, carrying its id, name, username and mini-app URL, with AI off and never synced |
| BotRegistry.ListedBotsCanBeFetched | TopitoBN9/backend/services/botRegistry.js:60-100 | every listed bot can be fetched by its id |
| BotRegistry.EnsureBotId | TopitoBN9/backend/services/botRegistry.js:138-146 | never empty; the given id, else `TELEGRAM_DEFAULT_BOT_ID`, else the first declared bot's id, else a fresh identifier |
| BotRegistry.UpsertBot | TopitoBN9/backend/services/botRegistry.js:103-126 | always refused in local mode, and refused as invalid exactly when the bot or its id is missing |
| Dashboard.UpdateCollection | TopitoBN9/frontend/src/App.tsx:817-823 | with a matching id: same length, each matching item replaced, every other item unchanged in place; without one: the record prepended to the unchanged list |
| Dashboard.UpdatedIsShown | TopitoBN9/frontend/src/App.tsx:817-823 | the saved record is always in the result |
| Dashboard.UpdateIdempotent | TopitoBN9/frontend/src/App.tsx:817-823 | merging the same record twice equals merging it once |
| Dashboard.UpdateKeepsIdsDistinct | TopitoBN9/frontend/src/App.tsx:817-823 | a list with distinct ids keeps distinct ids |
| Dashboard.DeleteById | TopitoBN9/frontend/src/App.tsx:281 | the result is never longer than the input; membership is stated by `DeleteByIdMembers` |
| Dashboard.DeleteByIdMembers | TopitoBN9/frontend/src/App.tsx:281 | an item is in the result exactly when it is in the input and its id differs |
| Dashboard.DeleteAppend | TopitoBN9/frontend/src/App.tsx:281 | the filter works piecewise over a concatenation, so the kept items stay in order |
| Dashboard.DeleteAbsent | TopitoBN9/frontend/src/App.tsx:300 | deleting an id nothing has leaves the list unchanged |
| Dashboard.DeleteAgreesWithStore | TopitoBN9/frontend/src/App.tsx:281 | with distinct ids, the dashboard's filter gives the list the store's removal leaves |
| Dashboard.CommandSubmit | TopitoBN9/frontend/src/App.tsx:227-232 | ignored without a bot; sent exactly when a bot is selected and the command and response are non-empty |
| Dashboard.QuickReplySubmit | TopitoBN9/frontend/src/App.tsx:250-255 | ignored without a bot; sent exactly when a bot is selected and the title, keyword and response are non-empty |
| Dashboard.FormWeakerThanStore | TopitoBN9/frontend/src/App.tsx:229 | a command of one space passes the form but is blank to the store |
| Dashboard.SentNonBlankPassesStore | TopitoBN9/frontend/src/App.tsx:229 | a command the form sends with non-blank text passes the store's blank check |
| BotRoutes.GetBotId | TopitoBN9/backend/routes/bot.js:13-15 | the path parameter, else the query parameter, else the body field; empty exactly when all three are |
| BotRoutes.DefaultModel | TopitoBN9/backend/services/openai.js:11 | `OPENAI_DEFAULT_MODEL` when set, otherwise `gpt-4o-mini`; never empty |
| BotRoutes.TrimEach | TopitoBN9/backend/routes/bot.js:195 | each entry is trimmed, with the count kept |
| BotRoutes.DropEmpty | TopitoBN9/backend/routes/bot.js:196 | exactly the non-empty entries remain, and never more entries than came in |
| BotRoutes.DropEmptyAppend | TopitoBN9/backend/routes/bot.js:196 | the filter works piecewise over concatenation, so kept entries stay in input order |
| BotRoutes.ModelsOfFirstPiece | TopitoBN9/backend/routes/bot.js:194-196 | a list is read left to right: the first comma-free piece, trimmed, comes ahead of every model the rest of the list gives, and a blank piece gives nothing |
| BotRoutes.SupportedModels | TopitoBN9/backend/routes/bot.js:190-196 | no supported model is empty; their order is stated by `ModelsOfFirstPiece` |
| Strings.SplitJoin | TopitoBN9/backend/routes/bot.js:194 | joining the pieces of `split` with the same separator gives back the input, so no character is lost or added |
| BotRoutes.SupportedModelsClean | TopitoBN9/backend/routes/bot.js:190-196 | every supported model is non-empty, trimmed and free of commas |
| BotRoutes.SupportedModelsFromPieces | TopitoBN9/backend/routes/bot.js:190-196 | every supported model is the trimmed form of a comma-separated piece of the variable, or of the built-in list |
| BotRoutes.TwoEntryList | TopitoBN9/backend/routes/bot.js:190-196 | the list `a,b` gives both names trimmed and in order, with blank ones dropped |
| BotRoutes.Dedupe | TopitoBN9/backend/routes/bot.js:198 | the same elements, each once, with the first element first |
| BotRoutes.DedupePrefix | TopitoBN9/backend/routes/bot.js:198 | de-duplicating a prefix gives a prefix of the whole, so first-occurrence order is kept |
| BotRoutes.AvailableModels | TopitoBN9/backend/routes/bot.js:198 | the de-duplication of the default model followed by the supported models: the default first, no duplicates, and exactly the default plus the supported models |
| BotRoutes.DedupeDistinct | TopitoBN9/backend/routes/bot.js:198 | a list without repeats passes through the `Set` unchanged |
| BotRoutes.AvailableModelsInOrder | TopitoBN9/backend/routes/bot.js:190-198 | when the supported models have no repeats and exclude the default, the offered list is the default followed by the supported models in list order |
| BotRoutes.TestMessage | TopitoBN9/backend/routes/bot.js:114-130 | 400 with nothing sent exactly when the chat id or the message is missing; otherwise at most one message, with that chat, text and parse mode (defaulting to Markdown) and the reply markup built from the request's buttons; the route fails unless that message was delivered |
| BotRoutes.AiPreview | TopitoBN9/backend/routes/bot.js:168-185 | 400 exactly without a prompt; otherwise the bot's persona, the request model or else the bot's, and the request temperature only when it is a number |
| BotRoutes.PreviewMatchesFallback | TopitoBN9/backend/routes/bot.js:173-182 | a preview without overrides asks the model what the router's AI fallback asks |

## Left out

- The HTTP transport (`sendTelegramRequest`, axios, `getMe`, `getWebhookInfo`, `fetchBotStatus`, `getStatus`): Bot API calls are the recorded requests of a `Run`, and their outcome is the `Transport` oracle.
- `setWebhook` and `deleteWebhook` beyond `resolveWebhookUrl`: they are calls to the Bot API and to store functions the store does not export. The WHATWG URL validation through `new URL` is not modelled.
- The OpenAI client, an external library. It is the `AiOracle`, and its own defaults for an undefined model or temperature are not modelled.
- `aiTemperature` is a `real` that is only passed through; floating-point behaviour is not modelled.
- The Supabase branches of the registry, `supabaseClient.js` and `systemStatus.js`: these use a hosted database and health probes.
- File I/O in the store (`ensureStoreReady`, `readData`, `writeData`). The document is in-memory state. A store created on first use starts from the seeded document.
- Telegram.Transport: the router takes the resolved token as part of the transport instead of calling `GetToken`. The token is not tied to the registry there, so the model's `unknown` label of `EnsureToken` is reachable in the router. In the code, `getBotToken` throws first for an empty bot id (`GetToken`).
- Telegram.HandleTelegramUpdate: `getConfig` failures are not modelled, and the configuration is a parameter.
- Concurrency: concurrent file writes (last writer wins) and the `Promise.all` fan-outs are not modelled. Each operation runs alone.
- BotRegistry.ParseEnvBots: `JSON.parse` itself is not modelled. The variable enters already classified as unset, unparsable, non-array or an array of entries. An entry that is not an object, or whose fields are not strings, is not modelled.
- markSynced in local mode does nothing, so there is no operation to model.
- Strings.Lower: folds only the letters A to Z; Unicode case mapping is not modelled.
- Strings.Trim: removes whitespace by Unicode code point. JavaScript's UTF-16 code units are not modelled.
- CommandStore.SanitiseButtons: a payload's `buttons` is a list of optional buttons whose fields are strings. Non-string labels or values are not modelled.
- BotRoutes.SupportedModels: the built-in list literal is not evaluated by the verifier. `TwoEntryList` covers the split-trim-filter pipeline on symbolic entries instead.
- The Express and Firebase wiring (`app.js`, `server.js`, `functions/index.js`), the dashboard's React state and rendering, `api.ts` and the marketing page `App.jsx` are not part of this model.
