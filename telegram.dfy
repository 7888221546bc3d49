/**
 * The Telegram service: text normalisation, the reply-markup builder, the
 * outbound sender and the update router that picks the single reply to an
 * inbound update.
 *
 * Effects become values. The Telegram Bot API is a `Transport`: the token
 * the bot resolves to (`""` when none) and an oracle saying whether a
 * request that was issued went through. The language model is an
 * `AiOracle` that returns a text or fails. Handling an update yields a
 * `Run`: the requests issued to Telegram, in order, and the error the
 * handler rejects with, if any.
 */
module Telegram {
  import opened Common
  import opened Strings
  import opened Entities
  import BotRegistry
  import CommandStore

  /** The process environment this module reads; `""` means unset. */
  datatype Env = Env(miniAppUrl: string, domain: string, miniAppId: string, openAiApiKey: string)

  /** A chat identifier as JSON carries it. */
  datatype ChatId = ChatNumber(n: int) | ChatString(s: string)

  predicate ChatTruthy(c: Option<ChatId>)
  {
    match c
    case None => false
    case Some(ChatNumber(n)) => n != 0
    case Some(ChatString(s)) => s != ""
  }

  // ---------------------------------------------------------------------
  // Reply markup
  // ---------------------------------------------------------------------

  datatype InlineButton =
    | UrlButton(text: string, url: Option<string>)
    | WebAppButton(text: string, webAppUrl: string)
    | CallbackButton(text: string, callbackData: string)

  datatype KeyboardButton = KeyboardButton(text: string)

  datatype ReplyMarkup =
    | InlineKeyboard(inlineKeyboard: seq<seq<InlineButton>>)
    | ReplyKeyboard(keyboard: seq<seq<KeyboardButton>>, resizeKeyboard: bool, oneTimeKeyboard: bool)

  /** The domain with `https://` put in front unless it already starts with `http`. */
  function HttpBase(domain: string): (base: string)
    ensures StartsWith(base, "http")
    ensures StartsWith(domain, "http") ==> base == domain
    ensures !StartsWith(domain, "http") ==> base == "https://" + domain
  {
    if StartsWith(domain, "http") then domain else "https://" + domain
  }

  /** `s.replace(/\/$/, '')`: one trailing slash removed. */
  function StripTrailingSlash(s: string): (r: string)
    ensures s != [] && s[|s| - 1] == '/' ==> s == r + "/"
    ensures s == [] || s[|s| - 1] != '/' ==> r == s
  {
    if s != [] && s[|s| - 1] == '/' then s[..|s| - 1] else s
  }

  /**
   * The public base URL built from `DOMAIN`: the domain, behind `https://`
   * unless it starts with `http`, less one trailing slash.
   */
  function DomainBase(domain: string): (base: string)
    ensures StartsWith(base, "http")
    ensures var full := if StartsWith(domain, "http") then domain else "https://" + domain;
      && (full[|full| - 1] == '/' ==> base + "/" == full)
      && (full[|full| - 1] != '/' ==> base == full)
  {
    var b := HttpBase(domain);
    assert b[..4] == "http";
    var r := StripTrailingSlash(b);
    assert |r| >= 4 && r[..4] == b[..4];
    r
  }

  /** `process.env.MINIAPP_ID || botId || 'miniapp'`. */
  function MiniAppId(botId: string, env: Env): (id: string)
    ensures id != ""
    ensures env.miniAppId != "" ==> id == env.miniAppId
    ensures env.miniAppId == "" && botId != "" ==> id == botId
    ensures env.miniAppId == "" && botId == "" ==> id == "miniapp"
  {
    if env.miniAppId != "" then env.miniAppId else if botId != "" then botId else "miniapp"
  }

  /** The mini-app address a `web_app` button without a value opens. */
  function BuildWebAppUrl(botId: string, settings: Settings, env: Env): (r: Option<string>)
    ensures r.None? <==> settings.miniAppUrl == "" && env.miniAppUrl == "" && env.domain == ""
    ensures r.Some? ==> r.value != ""
  {
    if settings.miniAppUrl != "" then Some(settings.miniAppUrl)
    else if env.miniAppUrl != "" then Some(env.miniAppUrl)
    else if env.domain != "" then Some(DomainBase(env.domain) + "/miniapp/" + MiniAppId(botId, env))
    else None
  }

  /** The fallback chain of `buildWebAppUrl`, source by source. */
  lemma WebAppUrlChain(botId: string, settings: Settings, env: Env)
    ensures settings.miniAppUrl != "" ==> BuildWebAppUrl(botId, settings, env) == Some(settings.miniAppUrl)
    ensures settings.miniAppUrl == "" && env.miniAppUrl != "" ==>
      BuildWebAppUrl(botId, settings, env) == Some(env.miniAppUrl)
    ensures settings.miniAppUrl == "" && env.miniAppUrl == "" && env.domain != "" ==>
      var url := BuildWebAppUrl(botId, settings, env).value;
      var tail := "/miniapp/" + MiniAppId(botId, env);
      && StartsWith(url, "http")
      && |tail| <= |url| && url[|url| - |tail|..] == tail
      && url[..|url| - |tail|] == DomainBase(env.domain)
  {
    if settings.miniAppUrl == "" && env.miniAppUrl == "" && env.domain != "" {
      DomainUrlShape(DomainBase(env.domain), "/miniapp/", MiniAppId(botId, env));
    }
  }

  /** A URL built as a base, a path and an id ends in the path and id, after exactly the base. */
  lemma DomainUrlShape(base: string, path: string, id: string)
    requires StartsWith(base, "http")
    ensures var url, tail := base + path + id, path + id;
      && StartsWith(url, "http")
      && |tail| <= |url| && url[|url| - |tail|..] == tail
      && url[..|url| - |tail|] == base
  {
    var tail := path + id;
    assert base + path + id == base + tail;
    ConcatSplits(base, tail);
    StartsWithConcat(base, tail, "http");
  }

  /** A button is rendered only when it has both a label and a type. */
  predicate Renderable(b: Button)
  {
    b.labelText != "" && b.kind != ""
  }

  function Renderables(bs: seq<Button>): (r: seq<Button>)
    ensures |r| <= |bs|
    ensures forall k :: 0 <= k < |r| ==> Renderable(r[k])
  {
    if bs == [] then []
    else (if Renderable(bs[0]) then [bs[0]] else []) + Renderables(bs[1..])
  }

  /** Filtering distributes over concatenation, so kept buttons stay in input order. */
  lemma {:induction false} RenderablesAppend(a: seq<Button>, b: seq<Button>)
    ensures Renderables(a + b) == Renderables(a) + Renderables(b)
    decreases |a|
  {
    if a != [] {
      assert (a + b)[1..] == a[1..] + b;
      RenderablesAppend(a[1..], b);
    } else {
      assert a + b == b;
    }
  }

  /** A button is kept exactly when it is renderable. */
  lemma {:induction false} RenderablesMembers(bs: seq<Button>, b: Button)
    ensures b in Renderables(bs) <==> b in bs && Renderable(b)
    decreases |bs|
  {
    if bs != [] {
      RenderablesMembers(bs[1..], b);
      assert bs == [bs[0]] + bs[1..];
    }
  }

  lemma {:induction false} RenderablesEmpty(bs: seq<Button>)
    ensures Renderables(bs) == [] <==> forall k :: 0 <= k < |bs| ==> !Renderable(bs[k])
    decreases |bs|
  {
    if bs != [] {
      RenderablesEmpty(bs[1..]);
      assert forall k :: 1 <= k < |bs| ==> bs[k] == bs[1..][k - 1];
    }
  }

  /** The inline row for one kept button. */
  function InlineRow(b: Button, botId: string, settings: Settings, env: Env): seq<InlineButton>
  {
    if b.kind == "url" then [UrlButton(b.labelText, b.value)]
    else if b.kind == "web_app" then
      var url := if Truthy(b.value) then Some(b.value.value) else BuildWebAppUrl(botId, settings, env);
      if url.None? then [CallbackButton(b.labelText, ValueOrLabel(b))]
      else [WebAppButton(b.labelText, url.value)]
    else [CallbackButton(b.labelText, ValueOrLabel(b))]
  }

  predicate AllCommands(bs: seq<Button>)
  {
    forall k :: 0 <= k < |bs| ==> bs[k].kind == "command"
  }

  /** `buildReplyMarkup`: no markup, an inline keyboard or a reply keyboard. */
  function BuildReplyMarkup(buttons: seq<Button>, botId: string, settings: Settings, env: Env): (r: Option<ReplyMarkup>)
    ensures r.None? <==> Renderables(buttons) == []
    ensures r.Some? && r.value.InlineKeyboard? ==> |r.value.inlineKeyboard| == |Renderables(buttons)|
    ensures r.Some? && r.value.ReplyKeyboard? ==> |r.value.keyboard| == |Renderables(buttons)|
  {
    var kept := Renderables(buttons);
    if kept == [] then None
    else if !AllCommands(kept) then
      Some(InlineKeyboard(seq(|kept|, i requires 0 <= i < |kept| => InlineRow(kept[i], botId, settings, env))))
    else
      Some(ReplyKeyboard(seq(|kept|, i requires 0 <= i < |kept| => [KeyboardButton(ValueOrLabel(kept[i]))]), true, false))
  }

  /** No markup exactly when no button has both a label and a type. */
  lemma NoMarkupIff(buttons: seq<Button>, botId: string, settings: Settings, env: Env)
    ensures BuildReplyMarkup(buttons, botId, settings, env).None? <==>
      forall k :: 0 <= k < |buttons| ==> !Renderable(buttons[k])
  {
    RenderablesEmpty(buttons);
  }

  /**
   * All kept buttons are commands: a reply keyboard, one single-button row
   * per kept button in input order, showing the value or else the label,
   * resizable and not one-time.
   */
  lemma ReplyKeyboardShape(buttons: seq<Button>, botId: string, settings: Settings, env: Env)
    requires Renderables(buttons) != [] && AllCommands(Renderables(buttons))
    ensures var r := BuildReplyMarkup(buttons, botId, settings, env);
      var kept := Renderables(buttons);
      && r.Some? && r.value.ReplyKeyboard?
      && r.value.resizeKeyboard && !r.value.oneTimeKeyboard
      && |r.value.keyboard| == |kept|
      && forall i :: 0 <= i < |kept| ==> r.value.keyboard[i] == [KeyboardButton(OrElse(kept[i].value, kept[i].labelText))]
  {
  }

  /**
   * Some kept button is not a command: an inline keyboard with exactly one
   * single-button row per kept button, in order, labelled with the label;
   * `url` buttons link to the value, `web_app` buttons open the value or
   * the fallback URL and degrade to a callback button when there is none,
   * and every other kind sends the value or else the label as callback data.
   */
  lemma InlineKeyboardShape(buttons: seq<Button>, botId: string, settings: Settings, env: Env)
    requires !AllCommands(Renderables(buttons))
    ensures var r := BuildReplyMarkup(buttons, botId, settings, env);
      var kept := Renderables(buttons);
      && r.Some? && r.value.InlineKeyboard?
      && |r.value.inlineKeyboard| == |kept|
      && forall i :: 0 <= i < |kept| ==>
          var row, b := r.value.inlineKeyboard[i], kept[i];
          && |row| == 1
          && row[0].text == b.labelText
          && (b.kind == "url" ==> row[0] == UrlButton(b.labelText, b.value))
          && (b.kind == "web_app" && Truthy(b.value) ==> row[0] == WebAppButton(b.labelText, b.value.value))
          && (b.kind == "web_app" && !Truthy(b.value) ==>
                match BuildWebAppUrl(botId, settings, env)
                case Some(url) => row[0] == WebAppButton(b.labelText, url)
                case None => row[0] == CallbackButton(b.labelText, b.labelText))
          && (b.kind != "url" && b.kind != "web_app" ==> row[0] == CallbackButton(b.labelText, OrElse(b.value, b.labelText)))
  {
    var kept := Renderables(buttons);
    assert kept != [];
  }

  /** One `url` button and one `command` button give an inline keyboard of two rows. */
  lemma UrlAndCommandExample(botId: string, settings: Settings, env: Env)
    ensures var site := Button("", "Site", "url", Some("https://example.org"));
      var help := Button("", "Help", "command", None);
      var r := BuildReplyMarkup([site, help], botId, settings, env);
      r == Some(InlineKeyboard([[UrlButton("Site", Some("https://example.org"))], [CallbackButton("Help", "Help")]]))
  {
    var site := Button("", "Site", "url", Some("https://example.org"));
    var help := Button("", "Help", "command", None);
    assert Renderables([site, help]) == [site, help] by {
      assert [site, help][1..] == [help];
    }
    assert !AllCommands([site, help]) by {
      assert [site, help][0].kind != "command";
    }
    var rows := BuildReplyMarkup([site, help], botId, settings, env).value.inlineKeyboard;
    assert |rows| == 2;
    assert rows[0] == InlineRow(site, botId, settings, env) == [UrlButton("Site", Some("https://example.org"))];
    assert rows[1] == InlineRow(help, botId, settings, env) == [CallbackButton("Help", "Help")];
    assert rows == [[UrlButton("Site", Some("https://example.org"))], [CallbackButton("Help", "Help")]];
  }

  // ---------------------------------------------------------------------
  // Sending
  // ---------------------------------------------------------------------

  const DefaultParseMode: string := "Markdown"

  datatype MessagePayload = MessagePayload(
    chatId: ChatId,
    text: string,
    parseMode: string,
    replyMarkup: Option<ReplyMarkup>)

  datatype Request =
    | SendMessageRequest(payload: MessagePayload)
    | AnswerCallbackRequest(callbackQueryId: string)

  /** The Bot API as the model sees it: the resolved token and which issued requests succeed. */
  datatype Transport = Transport(token: string, delivers: Request -> bool)

  datatype SendError =
    | MissingInput                   // chatId or text missing: status 400
    | MissingToken(botLabel: string) // no token for the bot: status 400
    | TransportFailure               // the HTTP call failed

  datatype Run = Run(requests: seq<Request>, thrown: Option<SendError>)

  const NoAction: Run := Run([], None)

  /** `ensureToken`: the token, or a 400 error naming the bot (or `unknown`). */
  function EnsureToken(token: string, botId: string): (r: Result<string, SendError>)
    ensures r.Success? <==> token != ""
    ensures r.Success? ==> r.value == token
    ensures r.Failure? ==> r.error.MissingToken? && r.error.botLabel != ""
    ensures r.Failure? && botId != "" ==> r.error.botLabel == botId
  {
    if token == "" then Failure(MissingToken(if botId != "" then botId else "unknown")) else Success(token)
  }

  /** One Bot API call: issued only when a token resolves; its outcome comes from the transport. */
  function Issue(botId: string, req: Request, net: Transport): (r: Run)
  {
    match EnsureToken(net.token, botId)
    case Failure(e) => Run([], Some(e))
    case Success(_) => Run([req], if net.delivers(req) then None else Some(TransportFailure))
  }

  /** `sendMessage`: checks its inputs, builds the payload with its markup and issues it. */
  function SendMessage(botId: string, chatId: Option<ChatId>, text: string, buttons: seq<Button>,
                       parseMode: string, settings: Settings, env: Env, net: Transport): (r: Run)
    ensures !ChatTruthy(chatId) || text == "" ==> r == Run([], Some(MissingInput))
    ensures |r.requests| <= 1
    ensures r.requests != [] <==> ChatTruthy(chatId) && text != "" && net.token != ""
    ensures r.requests != [] ==>
      r.requests[0] == SendMessageRequest(MessagePayload(chatId.value, text, parseMode,
                                                         BuildReplyMarkup(buttons, botId, settings, env)))
    ensures r.thrown.None? <==> r.requests != [] && net.delivers(r.requests[0])
  {
    if !ChatTruthy(chatId) || text == "" then Run([], Some(MissingInput))
    else
      var markup := BuildReplyMarkup(buttons, botId, settings, env);
      Issue(botId, SendMessageRequest(MessagePayload(chatId.value, text, parseMode, markup)), net)
  }

  /** `answerCallbackQuery`: skipped without an id; every failure is swallowed. */
  function AnswerCallbackQuery(botId: string, callbackQueryId: string, net: Transport): (r: Run)
    ensures r.thrown.None?
    ensures r.requests == if callbackQueryId != "" && net.token != "" then [AnswerCallbackRequest(callbackQueryId)] else []
  {
    if callbackQueryId == "" then NoAction
    else Run(Issue(botId, AnswerCallbackRequest(callbackQueryId), net).requests, None)
  }

  /** Runs `second` after `first`, which completed without throwing. */
  function Then(first: Run, second: Run): (r: Run)
    requires first.thrown.None?
    ensures r.requests == first.requests + second.requests && r.thrown == second.thrown
  {
    Run(first.requests + second.requests, second.thrown)
  }

  // ---------------------------------------------------------------------
  // Routing
  // ---------------------------------------------------------------------

  /** `normalise`: what counts as equal when matching texts. */
  function Normalise(text: string): (r: string)
  {
    if text == "" then ""
    else
      var trimmed := Trim(text);
      if StartsWith(trimmed, "/") then Lower(trimmed) else Lower(trimmed)
  }

  /** Both branches of `normalise` compute the same value: trimmed, then lower-cased. */
  lemma NormaliseIsLowerTrim(text: string)
    ensures Normalise(text) == Lower(Trim(text))
  {
  }

  /** A normalised text has no surrounding whitespace and no capital A to Z. */
  lemma NormalisedShape(text: string)
    ensures Trimmed(Normalise(text)) && Lower(Normalise(text)) == Normalise(text)
  {
    var t := Trim(text);
    TrimLower(t);
    TrimIdempotent(text);
    var i, j := TrimSlice(Lower(t));
    LowerIdempotent(t);
  }

  /** `normalise` is idempotent. */
  lemma NormaliseIdempotent(text: string)
    ensures Normalise(Normalise(text)) == Normalise(text)
  {
    var t := Trim(text);
    TrimLower(t);
    TrimIdempotent(text);
    LowerIdempotent(t);
  }

  datatype Chat = Chat(id: Option<ChatId>)

  /** An inbound message; `text` is `""` when the message has none. */
  datatype Message = Message(chat: Option<Chat>, text: string)

  /** A pressed inline button; `id` and `data` are `""` when absent. */
  datatype CallbackQuery = CallbackQuery(id: string, data: string, message: Option<Message>)

  datatype Update = Update(message: Option<Message>, callbackQuery: Option<CallbackQuery>)

  /** The arguments handed to the language model. */
  datatype AiRequest = AiRequest(prompt: string, persona: string, model: string, temperature: real)

  /** The language model: a reply text, or `None` when the call throws. */
  type AiOracle = AiRequest -> Option<string>

  /** Matching on a command's own text. */
  function CommandTextIs(text: string): Command -> bool
  {
    (c: Command) => Normalise(c.command) == text
  }

  predicate ButtonSays(b: Button, text: string)
  {
    Normalise(ValueOrLabel(b)) == text
  }

  /** `command.buttons?.some(button => normalise(button.value || button.labelText) === text)`. */
  predicate HasButtonSaying(c: Command, text: string)
  {
    exists k :: 0 <= k < |c.buttons| && ButtonSays(c.buttons[k], text)
  }

  function ButtonSaysIn(text: string): Command -> bool
  {
    (c: Command) => HasButtonSaying(c, text)
  }

  /** The quick reply whose normalised keyword occurs in the text. */
  function KeywordIn(text: string): QuickReply -> bool
  {
    (q: QuickReply) => Contains(text, Normalise(q.keyword))
  }

  /** The callback branch's match: the command's own text, or one of its buttons. */
  predicate CallbackSelects(c: Command, data: string)
  {
    (c.command != "" && Normalise(c.command) == Normalise(data)) || HasButtonSaying(c, Normalise(data))
  }

  function CallbackSelectsFn(data: string): Command -> bool
  {
    (c: Command) => CallbackSelects(c, data)
  }

  function ChatOf(m: Option<Message>): Option<ChatId>
  {
    if m.Some? && m.value.chat.Some? then m.value.chat.value.id else None
  }

  function HandleCallbackQuery(botId: string, cb: CallbackQuery, config: Config, env: Env, net: Transport): Run
  {
    var chatId := ChatOf(cb.message);
    if !ChatTruthy(chatId) then AnswerCallbackQuery(botId, cb.id, net)
    else match FindFirst(config.commands, CallbackSelectsFn(cb.data))
      case None => AnswerCallbackQuery(botId, cb.id, net)
      case Some(i) =>
        var sent := SendMessage(botId, chatId, config.commands[i].response, config.commands[i].buttons,
                                DefaultParseMode, config.settings, env, net);
        if sent.thrown.Some? then sent else Then(sent, AnswerCallbackQuery(botId, cb.id, net))
  }

  /** The default response, when there is one. */
  function DefaultReply(botId: string, chatId: Option<ChatId>, config: Config, env: Env, net: Transport): Run
  {
    if config.settings.defaultResponse == "" then NoAction
    else SendMessage(botId, chatId, config.settings.defaultResponse, [], DefaultParseMode, config.settings, env, net)
  }

  predicate AiConfigured(config: Config, env: Env)
  {
    config.settings.aiEnabled && env.openAiApiKey != ""
  }

  function AiRequestFor(rawText: string, settings: Settings): AiRequest
  {
    AiRequest(rawText, settings.aiPersona, settings.aiModel, settings.aiTemperature)
  }

  /** The two last steps: the AI reply when configured, else (or on any failure) the default response. */
  function Fallback(botId: string, chatId: Option<ChatId>, rawText: string, config: Config, env: Env,
                    net: Transport, ai: AiOracle): Run
  {
    var fallback := DefaultReply(botId, chatId, config, env, net);
    if !AiConfigured(config, env) then fallback
    else match ai(AiRequestFor(rawText, config.settings))
      case None => fallback
      case Some(aiText) =>
        var sent := SendMessage(botId, chatId, aiText, [], DefaultParseMode, config.settings, env, net);
        if sent.thrown.None? then sent else Then(Run(sent.requests, None), fallback)
  }

  function HandleMessage(botId: string, m: Message, config: Config, env: Env, net: Transport, ai: AiOracle): Run
    requires m.chat.Some?
  {
    var chatId := m.chat.value.id;
    var text := Normalise(m.text);
    if text == "" then NoAction
    else match FindFirst(config.commands, CommandTextIs(text))
      case Some(i) =>
        SendMessage(botId, chatId, config.commands[i].response, config.commands[i].buttons,
                    DefaultParseMode, config.settings, env, net)
      case None => match FindFirst(config.commands, ButtonSaysIn(text))
        case Some(i) =>
          SendMessage(botId, chatId, config.commands[i].response, config.commands[i].buttons,
                      DefaultParseMode, config.settings, env, net)
        case None => match FindFirst(config.quickReplies, KeywordIn(text))
          case Some(i) =>
            SendMessage(botId, chatId, config.quickReplies[i].response, [], DefaultParseMode, config.settings, env, net)
          case None => Fallback(botId, chatId, m.text, config, env, net, ai)
  }

  /** `handleTelegramUpdate`: the requests one inbound update causes. */
  function HandleTelegramUpdate(botId: string, update: Option<Update>, config: Config, env: Env,
                                net: Transport, ai: AiOracle): Run
  {
    if update.None? then NoAction
    else if update.value.callbackQuery.Some? then
      HandleCallbackQuery(botId, update.value.callbackQuery.value, config, env, net)
    else if update.value.message.None? || update.value.message.value.chat.None? then NoAction
    else HandleMessage(botId, update.value.message.value, config, env, net, ai)
  }

  // ---------------------------------------------------------------------
  // Properties of the router
  // ---------------------------------------------------------------------

  /** A message update with the given text in the given chat. */
  function MessageUpdate(chat: Chat, text: string): Option<Update>
  {
    Some(Update(Some(Message(Some(chat), text)), None))
  }

  /** A null update, a message without a chat, or a text that normalises to nothing: no request at all. */
  lemma SilentWithoutUsableInput(botId: string, update: Option<Update>, config: Config, env: Env,
                                 net: Transport, ai: AiOracle)
    requires || update.None?
             || (update.value.callbackQuery.None? && update.value.message.None?)
             || (update.value.callbackQuery.None? && update.value.message.Some? && update.value.message.value.chat.None?)
             || (update.value.callbackQuery.None? && update.value.message.Some? && Normalise(update.value.message.value.text) == "")
    ensures HandleTelegramUpdate(botId, update, config, env, net, ai) == NoAction
  {
  }

  /** Rule 1: the first command whose normalised text equals the normalised message is sent. */
  lemma ExactCommandWins(botId: string, chat: Chat, text: string, config: Config, env: Env,
                         net: Transport, ai: AiOracle, i: nat)
    requires Normalise(text) != ""
    requires i < |config.commands| && Normalise(config.commands[i].command) == Normalise(text)
    requires forall j :: 0 <= j < i ==> Normalise(config.commands[j].command) != Normalise(text)
    ensures HandleTelegramUpdate(botId, MessageUpdate(chat, text), config, env, net, ai)
         == SendMessage(botId, chat.id, config.commands[i].response, config.commands[i].buttons,
                        DefaultParseMode, config.settings, env, net)
  {
    FindFirstAt(config.commands, CommandTextIs(Normalise(text)), i);
  }

  /**
   * Rule 2: when no command text matches, the first command owning a button
   * whose value (or label) normalises to the message is sent.
   */
  lemma ButtonMatchWins(botId: string, chat: Chat, text: string, config: Config, env: Env,
                        net: Transport, ai: AiOracle, i: nat)
    requires Normalise(text) != ""
    requires forall j :: 0 <= j < |config.commands| ==> Normalise(config.commands[j].command) != Normalise(text)
    requires i < |config.commands| && HasButtonSaying(config.commands[i], Normalise(text))
    requires forall j :: 0 <= j < i ==> !HasButtonSaying(config.commands[j], Normalise(text))
    ensures HandleTelegramUpdate(botId, MessageUpdate(chat, text), config, env, net, ai)
         == SendMessage(botId, chat.id, config.commands[i].response, config.commands[i].buttons,
                        DefaultParseMode, config.settings, env, net)
  {
    var t := Normalise(text);
    assert FindFirst(config.commands, CommandTextIs(t)).None?;
    FindFirstAt(config.commands, ButtonSaysIn(t), i);
  }

  /** Neither a command text nor any button matches the normalised message. */
  predicate NoCommandMatch(config: Config, text: string)
  {
    forall j :: 0 <= j < |config.commands| ==>
      Normalise(config.commands[j].command) != text && !HasButtonSaying(config.commands[j], text)
  }

  /**
   * Rule 3: with no command or button match, the first quick reply whose
   * normalised keyword occurs in the normalised message is sent, without buttons.
   */
  lemma QuickReplyWins(botId: string, chat: Chat, text: string, config: Config, env: Env,
                       net: Transport, ai: AiOracle, i: nat)
    requires Normalise(text) != "" && NoCommandMatch(config, Normalise(text))
    requires i < |config.quickReplies| && Contains(Normalise(text), Normalise(config.quickReplies[i].keyword))
    requires forall j :: 0 <= j < i ==> !Contains(Normalise(text), Normalise(config.quickReplies[j].keyword))
    ensures HandleTelegramUpdate(botId, MessageUpdate(chat, text), config, env, net, ai)
         == SendMessage(botId, chat.id, config.quickReplies[i].response, [], DefaultParseMode, config.settings, env, net)
  {
    var t := Normalise(text);
    assert FindFirst(config.commands, CommandTextIs(t)).None?;
    assert FindFirst(config.commands, ButtonSaysIn(t)).None?;
    FindFirstAt(config.quickReplies, KeywordIn(t), i);
  }

  /** Nothing configured matches: no command, no button, no quick-reply keyword. */
  predicate Unmatched(config: Config, text: string)
  {
    && NoCommandMatch(config, text)
    && forall j :: 0 <= j < |config.quickReplies| ==> !Contains(text, Normalise(config.quickReplies[j].keyword))
  }

  lemma UnmatchedFallsBack(botId: string, chat: Chat, text: string, config: Config, env: Env,
                           net: Transport, ai: AiOracle)
    requires Normalise(text) != "" && Unmatched(config, Normalise(text))
    ensures HandleTelegramUpdate(botId, MessageUpdate(chat, text), config, env, net, ai)
         == Fallback(botId, chat.id, text, config, env, net, ai)
  {
    var t := Normalise(text);
    assert FindFirst(config.commands, CommandTextIs(t)).None?;
    assert FindFirst(config.commands, ButtonSaysIn(t)).None?;
    assert FindFirst(config.quickReplies, KeywordIn(t)).None?;
  }

  /** Rule 4: the AI reply, asked with the raw message text and the bot's persona, model and temperature. */
  lemma AiReplyWins(botId: string, chat: Chat, text: string, config: Config, env: Env,
                    net: Transport, ai: AiOracle, aiText: string)
    requires Normalise(text) != "" && Unmatched(config, Normalise(text))
    requires config.settings.aiEnabled && env.openAiApiKey != ""
    requires ai(AiRequest(text, config.settings.aiPersona, config.settings.aiModel, config.settings.aiTemperature)) == Some(aiText)
    requires SendMessage(botId, chat.id, aiText, [], DefaultParseMode, config.settings, env, net).thrown.None?
    ensures HandleTelegramUpdate(botId, MessageUpdate(chat, text), config, env, net, ai)
         == Run([SendMessageRequest(MessagePayload(chat.id.value, aiText, DefaultParseMode, None))], None)
  {
    UnmatchedFallsBack(botId, chat, text, config, env, net, ai);
  }

  /**
   * A failing AI step (the model throws, or sending its text throws) falls
   * through to the default response; whatever request the failed send
   * issued stays in front.
   */
  lemma AiFailureFallsThrough(botId: string, chat: Chat, text: string, config: Config, env: Env,
                              net: Transport, ai: AiOracle)
    requires Normalise(text) != "" && Unmatched(config, Normalise(text))
    requires config.settings.aiEnabled && env.openAiApiKey != ""
    ensures var request := AiRequest(text, config.settings.aiPersona, config.settings.aiModel, config.settings.aiTemperature);
      var r := HandleTelegramUpdate(botId, MessageUpdate(chat, text), config, env, net, ai);
      var fallback := DefaultReply(botId, chat.id, config, env, net);
      && (ai(request).None? ==> r == fallback)
      && (ai(request).Some? ==>
            var sent := SendMessage(botId, chat.id, ai(request).value, [], DefaultParseMode, config.settings, env, net);
            sent.thrown.Some? ==> r.requests == sent.requests + fallback.requests && r.thrown == fallback.thrown)
  {
    UnmatchedFallsBack(botId, chat, text, config, env, net, ai);
  }

  /**
   * Rule 5, and "no AI call when AI is off": without AI the outcome is the
   * default response whatever the model would have said, and nothing when
   * the default response is empty.
   */
  lemma DefaultWithoutAi(botId: string, chat: Chat, text: string, config: Config, env: Env,
                         net: Transport, ai: AiOracle, otherAi: AiOracle)
    requires Normalise(text) != "" && Unmatched(config, Normalise(text))
    requires !config.settings.aiEnabled || env.openAiApiKey == ""
    ensures var r := HandleTelegramUpdate(botId, MessageUpdate(chat, text), config, env, net, ai);
      && r == HandleTelegramUpdate(botId, MessageUpdate(chat, text), config, env, net, otherAi)
      && (config.settings.defaultResponse == "" ==> r == NoAction)
      && (config.settings.defaultResponse != "" ==>
            r == SendMessage(botId, chat.id, config.settings.defaultResponse, [], DefaultParseMode, config.settings, env, net))
  {
    UnmatchedFallsBack(botId, chat, text, config, env, net, ai);
    UnmatchedFallsBack(botId, chat, text, config, env, net, otherAi);
  }

  /** An inner keyword survives any text around it: normalising the whole keeps the normalised keyword. */
  lemma KeywordSurvivesNoise(before: string, keyword: string, after: string)
    ensures Contains(Normalise(before + keyword + after), Normalise(keyword))
  {
    var i, j := TrimSlice(keyword);
    var w := Trim(keyword);
    assert keyword == keyword[..i] + w + keyword[j..];
    assert before + keyword + after == (before + keyword[..i]) + w + (keyword[j..] + after);
    TrimKeepsInnerWord(before + keyword[..i], w, keyword[j..] + after);
    ContainsLower(Trim(before + keyword + after), w);
    NormaliseIsLowerTrim(before + keyword + after);
    NormaliseIsLowerTrim(keyword);
  }

  /**
   * A quick reply's keyword with arbitrary text around it is answered with
   * that quick reply, when nothing of higher precedence matches.
   */
  lemma KeywordWithNoiseAnswered(botId: string, chat: Chat, before: string, after: string, config: Config,
                                 env: Env, net: Transport, ai: AiOracle, i: nat)
    requires i < |config.quickReplies|
    requires var t := Normalise(before + config.quickReplies[i].keyword + after);
      && t != "" && NoCommandMatch(config, t)
      && forall j :: 0 <= j < i ==> !Contains(t, Normalise(config.quickReplies[j].keyword))
    ensures HandleTelegramUpdate(botId, MessageUpdate(chat, before + config.quickReplies[i].keyword + after),
                                 config, env, net, ai)
         == SendMessage(botId, chat.id, config.quickReplies[i].response, [], DefaultParseMode, config.settings, env, net)
  {
    KeywordSurvivesNoise(before, config.quickReplies[i].keyword, after);
    QuickReplyWins(botId, chat, before + config.quickReplies[i].keyword + after, config, env, net, ai, i);
  }

  /** A quick reply whose keyword is blank matches every non-empty message. */
  lemma BlankKeywordMatchesEverything(text: string, q: QuickReply)
    requires AllSpace(q.keyword)
    ensures KeywordIn(text)(q)
  {
    TrimEmptyIff(q.keyword);
    ContainsEmpty(text);
  }

  /** A callback without a chat is only acknowledged. */
  lemma CallbackWithoutChatOnlyAcknowledged(botId: string, cb: CallbackQuery, config: Config, env: Env,
                                            net: Transport, ai: AiOracle)
    requires !ChatTruthy(ChatOf(cb.message))
    ensures var r := HandleTelegramUpdate(botId, Some(Update(None, Some(cb))), config, env, net, ai);
      && r.thrown.None?
      && r.requests == if cb.id != "" && net.token != "" then [AnswerCallbackRequest(cb.id)] else []
  {
  }

  /**
   * A callback whose data selects command `i` first (its own text or one of
   * its buttons): that command's reply is sent, then the callback is
   * acknowledged once; if the send throws, the acknowledgement is skipped.
   */
  lemma CallbackSendsThenAcknowledges(botId: string, cb: CallbackQuery, config: Config, env: Env,
                                      net: Transport, ai: AiOracle, i: nat)
    requires ChatTruthy(ChatOf(cb.message))
    requires i < |config.commands| && CallbackSelects(config.commands[i], cb.data)
    requires forall j :: 0 <= j < i ==> !CallbackSelects(config.commands[j], cb.data)
    ensures var r := HandleTelegramUpdate(botId, Some(Update(None, Some(cb))), config, env, net, ai);
      var sent := SendMessage(botId, ChatOf(cb.message), config.commands[i].response, config.commands[i].buttons,
                              DefaultParseMode, config.settings, env, net);
      && (sent.thrown.None? ==>
            r == Run(sent.requests + (if cb.id != "" then [AnswerCallbackRequest(cb.id)] else []), None))
      && (sent.thrown.Some? ==> r == sent)
  {
    FindFirstAt(config.commands, CallbackSelectsFn(cb.data), i);
  }

  /** A callback that selects no command is only acknowledged. */
  lemma UnmatchedCallbackOnlyAcknowledged(botId: string, cb: CallbackQuery, config: Config, env: Env,
                                          net: Transport, ai: AiOracle)
    requires forall j :: 0 <= j < |config.commands| ==> !CallbackSelects(config.commands[j], cb.data)
    ensures HandleTelegramUpdate(botId, Some(Update(None, Some(cb))), config, env, net, ai)
         == AnswerCallbackQuery(botId, cb.id, net)
  {
    assert FindFirst(config.commands, CallbackSelectsFn(cb.data)).None?;
  }

  /** How many of the requests are messages the transport delivered. */
  function DeliveredMessages(reqs: seq<Request>, net: Transport): nat
  {
    if reqs == [] then 0
    else (if reqs[0].SendMessageRequest? && net.delivers(reqs[0]) then 1 else 0) + DeliveredMessages(reqs[1..], net)
  }

  function Acknowledgements(reqs: seq<Request>): nat
  {
    if reqs == [] then 0
    else (if reqs[0].AnswerCallbackRequest? then 1 else 0) + Acknowledgements(reqs[1..])
  }

  lemma FallbackShape(botId: string, chatId: Option<ChatId>, rawText: string, config: Config, env: Env,
                      net: Transport, ai: AiOracle)
    ensures var r := Fallback(botId, chatId, rawText, config, env, net, ai);
      && |r.requests| <= 2
      && (forall k :: 0 <= k < |r.requests| ==> r.requests[k].SendMessageRequest?)
      && (|r.requests| == 2 ==> !net.delivers(r.requests[0]))
  {
  }

  /** Issued requests of an update handled as a message: at most one, or the fallback's. */
  lemma MessageRunShape(botId: string, m: Message, config: Config, env: Env, net: Transport, ai: AiOracle)
    requires m.chat.Some?
    ensures var r := HandleMessage(botId, m, config, env, net, ai);
      |r.requests| <= 1 || r == Fallback(botId, m.chat.value.id, m.text, config, env, net, ai)
  {
  }

  /** Issued requests of a callback: at most one, or a message followed by its acknowledgement. */
  lemma CallbackRunShape(botId: string, cb: CallbackQuery, config: Config, env: Env, net: Transport)
    ensures var r := HandleCallbackQuery(botId, cb, config, env, net);
      || |r.requests| <= 1
      || (|r.requests| == 2 && r.requests[0].SendMessageRequest? && r.requests[1].AnswerCallbackRequest?)
  {
  }

  lemma ShortRunCounts(reqs: seq<Request>, net: Transport)
    requires |reqs| <= 1
    ensures DeliveredMessages(reqs, net) <= 1 && Acknowledgements(reqs) <= 1
  {
    if reqs != [] {
      assert reqs[1..] == [];
    }
  }

  lemma PairCounts(reqs: seq<Request>, net: Transport)
    requires |reqs| == 2 && reqs[0].SendMessageRequest?
    requires reqs[1].SendMessageRequest? ==> !net.delivers(reqs[0])
    ensures DeliveredMessages(reqs, net) <= 1 && Acknowledgements(reqs) <= 1
  {
    var tail := reqs[1..];
    assert tail[0] == reqs[1] && tail[1..] == [];
    assert DeliveredMessages(tail, net) == if reqs[1].SendMessageRequest? && net.delivers(reqs[1]) then 1 else 0;
    assert Acknowledgements(tail) == if reqs[1].AnswerCallbackRequest? then 1 else 0;
    assert DeliveredMessages(reqs, net) == (if net.delivers(reqs[0]) then 1 else 0) + DeliveredMessages(tail, net);
    assert Acknowledgements(reqs) == Acknowledgements(tail);
  }

  /** One update never delivers more than one message, and is acknowledged at most once. */
  lemma AtMostOneReply(botId: string, update: Option<Update>, config: Config, env: Env,
                       net: Transport, ai: AiOracle)
    ensures var r := HandleTelegramUpdate(botId, update, config, env, net, ai);
      DeliveredMessages(r.requests, net) <= 1 && Acknowledgements(r.requests) <= 1
  {
    var r := HandleTelegramUpdate(botId, update, config, env, net, ai);
    if |r.requests| <= 1 {
      ShortRunCounts(r.requests, net);
    } else if update.value.callbackQuery.Some? {
      CallbackRunShape(botId, update.value.callbackQuery.value, config, env, net);
      PairCounts(r.requests, net);
    } else {
      var m := update.value.message.value;
      MessageRunShape(botId, m, config, env, net, ai);
      FallbackShape(botId, m.chat.value.id, m.text, config, env, net, ai);
      PairCounts(r.requests, net);
    }
  }

  // ---------------------------------------------------------------------
  // Token lookup and webhook address
  // ---------------------------------------------------------------------

  /**
   * `getToken` with the registry in local mode: the registry's token for
   * the bot; when the bot is unknown or has no token, `TELEGRAM_BOT_TOKEN`
   * for an empty id or the id `primary`; `""` stands for `null`. The
   * registry's refusal of an empty id propagates.
   */
  function GetToken(botId: string, reg: BotRegistry.RegistryEnv): (r: Result<string, BotRegistry.RegistryError>)
    ensures r.Failure? <==> botId == ""
  {
    match BotRegistry.GetBot(botId, reg)
    case Failure(e) => Failure(e)
    case Success(found) =>
      if (found.None? || found.value.token == "") && reg.botToken != "" && (botId == "" || botId == "primary")
      then Success(reg.botToken)
      else Success(if found.Some? then found.value.token else "")
  }

  /**
   * In local mode the fallback to `TELEGRAM_BOT_TOKEN` never changes the
   * answer: the token is exactly the registry's (`""` for none). A bot id
   * `primary` with the variable set is always found in the registry, and
   * an empty id never gets past the registry.
   */
  lemma TokenIsRegistryToken(botId: string, reg: BotRegistry.RegistryEnv)
    requires botId != ""
    ensures var t := BotRegistry.GetBotToken(botId, reg);
      GetToken(botId, reg) == Success(if t.value.Some? then t.value.value else "")
  {
    BotRegistry.EnvBotsWellFormed(reg);
    var bots := BotRegistry.EnvBots(reg);
    if botId == "primary" && reg.botToken != "" {
      BotRegistry.PrimaryComesLast(reg);
      assert bots[|bots| - 1] in bots;
    }
  }

  /** Sending to the primary bot uses `TELEGRAM_BOT_TOKEN` unless the array declares its own `primary`. */
  lemma PrimaryTokenExample(reg: BotRegistry.RegistryEnv)
    requires reg.botToken != "" && !reg.telegramBots.BotArray?
    ensures GetToken("primary", reg) == Success(reg.botToken)
    ensures EnsureToken(reg.botToken, "primary") == Success(reg.botToken)
  {
    TokenIsRegistryToken("primary", reg);
    BotRegistry.LookupFindsListedBot(reg, 0);
  }

  /**
   * `resolveWebhookUrl`: the URL given with the request, else
   * `<DOMAIN base>/webhook/<botId>`, else nothing.
   */
  function ResolveWebhookUrl(botId: string, urlFromRequest: string, env: Env): (r: Option<string>)
    ensures urlFromRequest != "" ==> r == Some(urlFromRequest)
    ensures r.None? <==> urlFromRequest == "" && env.domain == ""
    ensures urlFromRequest == "" && env.domain != "" ==>
      var tail := "/webhook/" + botId;
      && StartsWith(r.value, "http")
      && |tail| <= |r.value| && r.value[|r.value| - |tail|..] == tail
  {
    if urlFromRequest != "" then Some(urlFromRequest)
    else if env.domain != "" then
      var base := DomainBase(env.domain);
      var tail := "/webhook/" + botId;
      ConcatSplits(base, tail);
      StartsWithConcat(base, tail, "http");
      Some(base + tail)
    else None
  }

  /**
   * The webhook address and the mini-app address built from `DOMAIN` share
   * the same base: scheme added or kept, one trailing slash removed.
   */
  lemma WebhookAndMiniAppShareBase(botId: string, settings: Settings, env: Env)
    requires settings.miniAppUrl == "" && env.miniAppUrl == "" && env.domain != ""
    ensures var hook := ResolveWebhookUrl(botId, "", env).value;
      var app := BuildWebAppUrl(botId, settings, env).value;
      var base := DomainBase(env.domain);
      && StartsWith(hook, base) && StartsWith(app, base)
      && hook[|base|..] == "/webhook/" + botId
      && app[|base|..] == "/miniapp/" + MiniAppId(botId, env)
  {
    var base := DomainBase(env.domain);
    var hookTail, appTail := "/webhook/" + botId, "/miniapp/" + MiniAppId(botId, env);
    assert BuildWebAppUrl(botId, settings, env).value == base + appTail;
    ConcatSplits(base, hookTail);
    ConcatSplits(base, appTail);
  }

  // ---------------------------------------------------------------------
  // The router over a store's commands
  // ---------------------------------------------------------------------

  /** A valid stored command text normalises to its lower-case form. */
  lemma NormaliseValidCommand(t: string)
    requires CommandStore.ValidCommandText(t)
    ensures Normalise(t) == Lower(t) && Normalise(t) != ""
  {
    NormaliseIsLowerTrim(t);
    TrimOfTrimmed(t);
  }

  /**
   * Over commands that satisfy the store invariant, a message that
   * normalises to a command's text is answered by that command: no other
   * command can come first, since texts are distinct ignoring case.
   */
  lemma StoredCommandAnswered(botId: string, chat: Chat, text: string, config: Config, env: Env,
                              net: Transport, ai: AiOracle, i: nat)
    requires CommandStore.ValidCommandTexts(config.commands)
    requires i < |config.commands| && Normalise(text) == Normalise(config.commands[i].command)
    ensures HandleTelegramUpdate(botId, MessageUpdate(chat, text), config, env, net, ai)
         == SendMessage(botId, chat.id, config.commands[i].response, config.commands[i].buttons,
                        DefaultParseMode, config.settings, env, net)
  {
    var cmds := config.commands;
    NormaliseValidCommand(cmds[i].command);
    forall j | 0 <= j < i ensures Normalise(cmds[j].command) != Normalise(text) {
      NormaliseValidCommand(cmds[j].command);
    }
    ExactCommandWins(botId, chat, text, config, env, net, ai, i);
  }

  /**
   * A quick reply edited with a keyword of whitespace alone is stored with
   * the keyword `""`, which every message contains: unless a command
   * matches first or an earlier quick reply matches, it answers everything.
   */
  lemma BlankedKeywordAnswersEverything(current: QuickReply, payload: CommandStore.QuickReplyPayload, text: string)
    requires payload.keyword.Some? && payload.keyword.value != "" && AllSpace(payload.keyword.value)
    ensures KeywordIn(Normalise(text))(CommandStore.EditedQuickReply(current, payload))
  {
    CommandStore.QuickReplyEditKeepsWhatIsNotSent(current, payload);
    BlankKeywordMatchesEverything(Normalise(text), CommandStore.EditedQuickReply(current, payload));
  }

  // Two commands: `/start` answering "Hi!" with one `command` button whose
  // value is `/help`, and `/help` answering "Docs here".

  function ExampleStart(): Command
  {
    Command("c1", "/start", "", "Hi!", [Button("b1", "Help", "command", Some("/help"))])
  }

  function ExampleHelp(): Command
  {
    Command("c2", "/help", "", "Docs here", [])
  }

  function ExampleConfig(settings: Settings): Config
  {
    Config([ExampleStart(), ExampleHelp()], [], settings)
  }

  lemma ExampleTextsValid(settings: Settings)
    ensures CommandStore.ValidCommandTexts(ExampleConfig(settings).commands)
    ensures Normalise("/START") == "/start" && Normalise("/help") == "/help"
  {
    assert Lower("/START") == "/start";
    assert Lower("/help") == "/help";
    NormaliseValidCommand("/START");
    NormaliseValidCommand("/help");
    assert Lower("/start")[1] == 's' && Lower("/help")[1] == 'h';
  }

  /** A message `/START` gets "Hi!" with a one-button reply keyboard showing the button's value `/help`. */
  lemma ExampleStartMessage(botId: string, chat: Chat, settings: Settings, env: Env, net: Transport, ai: AiOracle)
    ensures HandleTelegramUpdate(botId, MessageUpdate(chat, "/START"), ExampleConfig(settings), env, net, ai)
         == SendMessage(botId, chat.id, "Hi!", ExampleStart().buttons, DefaultParseMode, settings, env, net)
    ensures BuildReplyMarkup(ExampleStart().buttons, botId, settings, env)
         == Some(ReplyKeyboard([[KeyboardButton("/help")]], true, false))
  {
    ExampleTextsValid(settings);
    assert Lower("/start") == "/start";
    StoredCommandAnswered(botId, chat, "/START", ExampleConfig(settings), env, net, ai, 0);
    var bs := ExampleStart().buttons;
    assert bs[1..] == [];
    assert Renderables(bs) == bs;
    ReplyKeyboardShape(bs, botId, settings, env);
    var keyboard := BuildReplyMarkup(bs, botId, settings, env).value.keyboard;
    assert keyboard[0] == [KeyboardButton("/help")];
    assert keyboard == [[KeyboardButton("/help")]];
  }

  /** Tapping that keyboard button sends the message `/help`, which gets "Docs here". */
  lemma ExampleHelpMessage(botId: string, chat: Chat, settings: Settings, env: Env, net: Transport, ai: AiOracle)
    ensures HandleTelegramUpdate(botId, MessageUpdate(chat, "/help"), ExampleConfig(settings), env, net, ai)
         == SendMessage(botId, chat.id, "Docs here", [], DefaultParseMode, settings, env, net)
  {
    ExampleTextsValid(settings);
    StoredCommandAnswered(botId, chat, "/help", ExampleConfig(settings), env, net, ai, 1);
  }

  /**
   * Were `/help` to arrive as callback data instead, `/start` comes first in
   * the list and its button matches, so "Hi!" is sent again, then the
   * callback is acknowledged.
   */
  lemma ExampleHelpCallback(botId: string, chat: Chat, settings: Settings, env: Env, net: Transport, ai: AiOracle)
    requires ChatTruthy(chat.id)
    ensures var cb := CallbackQuery("q1", "/help", Some(Message(Some(chat), "")));
      var sent := SendMessage(botId, chat.id, "Hi!", ExampleStart().buttons, DefaultParseMode, settings, env, net);
      sent.thrown.None? ==>
        HandleTelegramUpdate(botId, Some(Update(None, Some(cb))), ExampleConfig(settings), env, net, ai)
          == Run(sent.requests + [AnswerCallbackRequest("q1")], None)
  {
    ExampleTextsValid(settings);
    var cb := CallbackQuery("q1", "/help", Some(Message(Some(chat), "")));
    assert ButtonSays(ExampleStart().buttons[0], "/help");
    assert CallbackSelects(ExampleStart(), cb.data);
    CallbackSendsThenAcknowledges(botId, cb, ExampleConfig(settings), env, net, ai, 0);
  }
}
