/**
 * Helpers of the HTTP routes: which bot a request is about, the list of
 * models the dashboard may offer, and the checks and parameter choices of
 * the test-message and AI-preview endpoints.
 */
module BotRoutes {
  import opened Common
  import opened Strings
  import opened Entities
  import opened Telegram

  datatype RouteError = MissingFields  // answered with status 400

  /** `getBotId`: the path parameter, else the query parameter, else the body field (`""` when absent). */
  function GetBotId(pathParam: string, queryParam: string, bodyField: string): (id: string)
    ensures id == "" <==> pathParam == "" && queryParam == "" && bodyField == ""
    ensures pathParam != "" ==> id == pathParam
    ensures pathParam == "" && queryParam != "" ==> id == queryParam
    ensures pathParam == "" && queryParam == "" ==> id == bodyField
  {
    if pathParam != "" then pathParam else if queryParam != "" then queryParam else bodyField
  }

  // ---------------------------------------------------------------------
  // The models list
  // ---------------------------------------------------------------------

  const DefaultModelList: string := "gpt-5, gpt-4o, gpt-4o-mini, gpt-3.5-turbo"

  /** `DEFAULT_MODEL`: `OPENAI_DEFAULT_MODEL`, else `gpt-4o-mini`. */
  function DefaultModel(envDefault: string): (m: string)
    ensures m != ""
    ensures envDefault != "" ==> m == envDefault
    ensures envDefault == "" ==> m == "gpt-4o-mini"
  {
    if envDefault != "" then envDefault else "gpt-4o-mini"
  }

  function TrimEach(parts: seq<string>): (r: seq<string>)
    ensures |r| == |parts|
    ensures forall k :: 0 <= k < |r| ==> r[k] == Trim(parts[k])
  {
    if parts == [] then [] else [Trim(parts[0])] + TrimEach(parts[1..])
  }

  /** `filter(Boolean)` on strings: the non-empty entries, in their order. */
  function DropEmpty(parts: seq<string>): (r: seq<string>)
    ensures |r| <= |parts|
    ensures forall m :: m in r <==> m in parts && m != ""
  {
    if parts == [] then []
    else (if parts[0] != "" then [parts[0]] else []) + DropEmpty(parts[1..])
  }

  /** The filter works piecewise, so the entries it keeps stay in input order. */
  lemma {:induction false} DropEmptyAppend(a: seq<string>, b: seq<string>)
    ensures DropEmpty(a + b) == DropEmpty(a) + DropEmpty(b)
    decreases |a|
  {
    if a == [] {
      assert a + b == b;
    } else {
      assert (a + b)[0] == a[0];
      assert (a + b)[1..] == a[1..] + b;
      DropEmptyAppend(a[1..], b);
    }
  }

  /** The models named by a comma-separated list: split, each piece trimmed, empty pieces dropped. */
  function ModelsOf(source: string): seq<string>
  {
    DropEmpty(TrimEach(Split(source, ',')))
  }

  /**
   * The supported models: `OPENAI_SUPPORTED_MODELS` or the built-in list,
   * split at commas, each entry trimmed, empty entries dropped.
   */
  function SupportedModels(envList: string): (r: seq<string>)
    ensures forall m :: m in r ==> m != ""
  {
    ModelsOf(if envList != "" then envList else DefaultModelList)
  }

  /**
   * The list is read piece by piece, left to right: the first piece gives
   * its trimmed name, unless blank, ahead of every model the rest gives.
   */
  lemma ModelsOfFirstPiece(a: string, b: string)
    requires ',' !in a
    ensures ModelsOf(a + [','] + b) == (if AllSpace(a) then [] else [Trim(a)]) + ModelsOf(b)
  {
    SplitFirstPiece(a, b, ',');
    var rest := Split(b, ',');
    var parts := Split(a + [','] + b, ',');
    assert parts == [a] + rest;
    var trimmed := TrimEach(parts);
    assert trimmed == [Trim(a)] + TrimEach(rest) by {
      assert trimmed[1..] == TrimEach(rest);
    }
    DropEmptyAppend([Trim(a)], TrimEach(rest));
    TrimEmptyIff(a);
    assert DropEmpty([Trim(a)]) == (if Trim(a) != "" then [Trim(a)] else []) by {
      assert [Trim(a)][1..] == [];
    }
  }

  lemma TrimmedPieceClean(piece: string)
    requires ',' !in piece
    ensures Trimmed(Trim(piece)) && ',' !in Trim(piece)
  {
    TrimIsTrimmed(piece);
    var i, j := TrimSlice(piece);
  }

  /** Each supported model is a non-empty name with no surrounding whitespace and no comma. */
  lemma SupportedModelsClean(envList: string)
    ensures forall m :: m in SupportedModels(envList) ==> m != "" && Trimmed(m) && ',' !in m
  {
    var source := if envList != "" then envList else DefaultModelList;
    var parts := Split(source, ',');
    SplitPiecesFree(source, ',');
    forall m | m in SupportedModels(envList) ensures Trimmed(m) && ',' !in m {
      var k :| 0 <= k < |TrimEach(parts)| && TrimEach(parts)[k] == m;
      TrimmedPieceClean(parts[k]);
    }
  }

  /** Every supported model comes from one comma-separated piece of the source list. */
  lemma SupportedModelsFromPieces(envList: string, m: string)
    requires m in SupportedModels(envList)
    ensures var source := if envList != "" then envList else DefaultModelList;
      exists k :: 0 <= k < |Split(source, ',')| && Trim(Split(source, ',')[k]) == m
  {
    var source := if envList != "" then envList else DefaultModelList;
    var trimmed := TrimEach(Split(source, ','));
    var k :| 0 <= k < |trimmed| && trimmed[k] == m;
  }

  /** `new Set(xs)` read back as an array: each value once, at its first occurrence. */
  function Dedupe(xs: seq<string>): (r: seq<string>)
    ensures forall x :: x in r <==> x in xs
    ensures forall i, j :: 0 <= i < j < |r| ==> r[i] != r[j]
    ensures xs != [] ==> |r| >= 1 && r[0] == xs[0]
  {
    if xs == [] then []
    else
      var front := Dedupe(xs[..|xs| - 1]);
      var last := xs[|xs| - 1];
      assert xs == xs[..|xs| - 1] + [last];
      if last in front then front else front + [last]
  }

  /** Deduplicating a prefix gives a prefix: values keep the order of their first occurrences. */
  lemma {:induction false} DedupePrefix(xs: seq<string>, k: nat)
    requires k <= |xs|
    ensures Dedupe(xs[..k]) <= Dedupe(xs)
    decreases |xs| - k
  {
    if k < |xs| {
      var ys := xs[..k + 1];
      DedupePrefix(xs, k + 1);
      assert ys[..|ys| - 1] == xs[..k];
    } else {
      assert xs[..k] == xs;
    }
  }

  /** The models offered: `DEFAULT_MODEL` first, then the supported ones, each once. */
  function AvailableModels(envDefault: string, envList: string): (r: seq<string>)
    ensures r == Dedupe([DefaultModel(envDefault)] + SupportedModels(envList))
    ensures |r| >= 1 && r[0] == DefaultModel(envDefault)
    ensures forall i, j :: 0 <= i < j < |r| ==> r[i] != r[j]
    ensures forall m :: m in r <==> m == DefaultModel(envDefault) || m in SupportedModels(envList)
  {
    Dedupe([DefaultModel(envDefault)] + SupportedModels(envList))
  }

  /** De-duplicating a list without repeats changes nothing. */
  lemma {:induction false} DedupeDistinct(xs: seq<string>)
    requires forall i, j :: 0 <= i < j < |xs| ==> xs[i] != xs[j]
    ensures Dedupe(xs) == xs
    decreases |xs|
  {
    if xs != [] {
      var front := xs[..|xs| - 1];
      DedupeDistinct(front);
      assert xs[|xs| - 1] !in front;
      assert front + [xs[|xs| - 1]] == xs;
    }
  }

  /**
   * When the supported models have no repeats and do not include the
   * default, the offered list is the default followed by the supported
   * models in the order the list names them.
   */
  lemma AvailableModelsInOrder(envDefault: string, envList: string)
    requires DefaultModel(envDefault) !in SupportedModels(envList)
    requires forall i, j :: 0 <= i < j < |SupportedModels(envList)| ==>
      SupportedModels(envList)[i] != SupportedModels(envList)[j]
    ensures AvailableModels(envDefault, envList) == [DefaultModel(envDefault)] + SupportedModels(envList)
  {
    var xs := [DefaultModel(envDefault)] + SupportedModels(envList);
    forall i, j | 0 <= i < j < |xs| ensures xs[i] != xs[j] {
      if i > 0 {
        assert xs[i] == SupportedModels(envList)[i - 1] && xs[j] == SupportedModels(envList)[j - 1];
      } else {
        assert xs[j] in SupportedModels(envList);
      }
    }
    DedupeDistinct(xs);
  }

  /** A list `a,b` of two names gives both names, trimmed, in order; blank entries disappear. */
  lemma TwoEntryList(a: string, b: string)
    requires ',' !in a && ',' !in b
    requires a + [','] + b != ""
    ensures SupportedModels(a + [','] + b)
         == (if AllSpace(a) then [] else [Trim(a)]) + (if AllSpace(b) then [] else [Trim(b)])
  {
    ModelsOfFirstPiece(a, b);
    SplitNoSeparator(b, ',');
    TrimEmptyIff(b);
    assert TrimEach([b]) == [Trim(b)];
    assert DropEmpty([Trim(b)]) == (if Trim(b) != "" then [Trim(b)] else []) by {
      assert [Trim(b)][1..] == [];
    }
  }

  // ---------------------------------------------------------------------
  // Test message and AI preview
  // ---------------------------------------------------------------------

  /** The body of a test-message request; `None` is a field left out. */
  datatype TestMessageBody = TestMessageBody(
    chatId: Option<ChatId>,
    message: string,
    buttons: Option<seq<Button>>,
    parseMode: Option<string>)

  /**
   * `POST /bots/:botId/test-message`: 400 without a chat id or a message,
   * otherwise the message is sent with the request's buttons, in Markdown
   * unless a parse mode is given; a failed send fails the route.
   */
  function TestMessage(botId: string, body: TestMessageBody, settings: Settings, env: Env, net: Transport)
    : (r: Result<Run, RouteError>)
    ensures r.Failure? <==> !ChatTruthy(body.chatId) || body.message == ""
    ensures r.Success? ==> |r.value.requests| <= 1 && (r.value.requests != [] <==> net.token != "")
    ensures r.Success? && r.value.requests != [] ==> r.value.requests[0].SendMessageRequest?
    ensures r.Success? && r.value.requests != [] && r.value.requests[0].SendMessageRequest? ==>
      var p := r.value.requests[0].payload;
      && p.chatId == body.chatId.value && p.text == body.message
      && p.parseMode == (if body.parseMode.Some? then body.parseMode.value else DefaultParseMode)
      && p.replyMarkup == BuildReplyMarkup(if body.buttons.Some? then body.buttons.value else [], botId, settings, env)
    ensures r.Success? ==> (r.value.thrown.None? <==> r.value.requests != [] && net.delivers(r.value.requests[0]))
  {
    if !ChatTruthy(body.chatId) || body.message == "" then Failure(MissingFields)
    else
      Success(SendMessage(botId, body.chatId, body.message, if body.buttons.Some? then body.buttons.value else [],
                          if body.parseMode.Some? then body.parseMode.value else DefaultParseMode,
                          settings, env, net))
  }

  /** A JSON temperature field: a number, or anything else (absent, a string, null). */
  datatype TemperatureField = NumberValue(x: real) | NotANumber

  /**
   * `POST /bots/:botId/ai/preview`: 400 without a prompt; otherwise the
   * model is the request's or the bot's, and the temperature the
   * request's only when it is a number.
   */
  function AiPreview(prompt: string, model: string, temperature: TemperatureField, settings: Settings)
    : (r: Result<AiRequest, RouteError>)
    ensures r.Failure? <==> prompt == ""
    ensures r.Success? ==> r.value.prompt == prompt && r.value.persona == settings.aiPersona
    ensures r.Success? ==> r.value.model == (if model != "" then model else settings.aiModel)
    ensures r.Success? ==> r.value.temperature == (if temperature.NumberValue? then temperature.x else settings.aiTemperature)
  {
    if prompt == "" then Failure(MissingFields)
    else Success(AiRequest(prompt, settings.aiPersona, if model != "" then model else settings.aiModel,
                           if temperature.NumberValue? then temperature.x else settings.aiTemperature))
  }

  /** A preview without overrides asks the model exactly what the router's AI fallback asks for that text. */
  lemma PreviewMatchesFallback(text: string, settings: Settings)
    requires text != ""
    ensures AiPreview(text, "", NotANumber, settings) == Success(AiRequestFor(text, settings))
  {
  }
}
