/**
 * The request handler: a ladder of early returns from the HTTP method, the
 * presence of the provider key, the shape of the body and the provider's
 * outcome to a status and a JSON body. The provider is a parameter: the
 * function from the report request it is sent to the outcome of the call.
 */
module Handler {
  import opened Wrappers
  import opened JsValues
  import Decimal
  import opened Aggregation
  import opened MovementLines

  const MethodNotAllowedMessage := "Use o método POST."
  const MissingKeyMessage := "Chave de API não configurada no servidor."
  const InsufficientDataMessage := "Dados insuficientes para análise."
  const UpstreamErrorMessage := "Erro ao chamar a API da OpenAI."
  const InternalErrorMessage := "Erro interno na análise."
  const FallbackText := "Não foi possível gerar a análise."

  datatype Request = Request(httpMethod: string, body: JsValue)

  /** The provider call: it threw (network failure, unreadable JSON), or it replied with its `ok` flag and parsed payload. */
  datatype Upstream = Threw | Replied(ok: bool, data: JsValue)

  datatype Body =
    | NoBody
    | Error(error: string)
    | ErrorWithDetails(error: string, detalhes: JsValue)
    | Report(texto: JsValue)

  datatype Response = Response(status: int, body: Body)

  /** The values the report request interpolates into its fixed text. */
  datatype Prompt = Prompt(
    mes: string,
    ano: string,
    metaPoupanca: string,
    metaVariavel: string,
    metaCartao: string,
    totals: seq<string>,
    movimentos: string)

  const InternalError := Response(500, Error(InternalErrorMessage))

  /** `!apiKey` fails for an unset and for an empty variable. */
  predicate KeyPresent(apiKey: Option<string>) { apiKey.Some? && apiKey.value != "" }

  /** A property of `req.body || {}`. */
  function BodyField(body: JsValue, name: string): JsValue
  {
    Get(if Truthy(body) then body else Obj(map[]), Name(name)).value
  }

  /** The body check: `movimentos` is a (truthy) array and `metas` is truthy. */
  predicate ValidPayload(movimentos: JsValue, metas: JsValue)
    ensures ValidPayload(movimentos, metas) <==>
      (movimentos.Arr? && !Nullish(metas) && metas != Bool(false) && metas != Num(0) && metas != Str(""))
  {
    Truthy(movimentos) && movimentos.Arr? && Truthy(metas)
  }

  /** The request gets past every check before the provider call, and the totals loop does not throw. */
  predicate ReachesProvider(req: Request, apiKey: Option<string>)
  {
    var movimentos := BodyField(req.body, "movimentos");
    && req.httpMethod == "POST"
    && KeyPresent(apiKey)
    && ValidPayload(movimentos, BodyField(req.body, "metas"))
    && Readable(movimentos.items)
  }

  /**
   * The interpolated values of the report request: month, year and goals as
   * `String` prints them (no default for a missing goal), the six totals
   * with `toFixed(2)`, each reading back as its total, and the list verbatim.
   */
  function BuildPrompt(mes: JsValue, ano: JsValue, metas: JsValue, t: Totals, list: string): (p: Prompt)
    requires !Nullish(metas)
    ensures p.metaPoupanca == ToStr(Field(metas, "metaPoupanca"))
    ensures metas.Obj? && "metaPoupanca" !in metas.fields ==> p.metaPoupanca == "undefined"
    ensures p.totals == TotalsText(t) && |p.totals| == 6
    ensures p.movimentos == list
  {
    Prompt(
      ToStr(mes), ToStr(ano),
      ToStr(Field(metas, "metaPoupanca")), ToStr(Field(metas, "metaVariavel")), ToStr(Field(metas, "metaCartao")),
      TotalsText(t),
      list)
  }

  /** The six totals in the order the report request lists them. */
  function TotalsList(t: Totals): seq<int>
  {
    [t.totalEntradas, t.totalFixos, t.totalVariaveis, t.totalCartao, t.saldoMes, t.poupancaPossivel]
  }

  /** The six totals as the report request prints them, each with `toFixed(2)`. */
  function TotalsText(t: Totals): seq<string>
  {
    var amounts := TotalsList(t);
    seq(6, i requires 0 <= i < 6 => Decimal.FixedTwo(amounts[i]))
  }

  /** Each printed total has two decimals and reads back as the total it prints. */
  lemma TotalsTextReadsBack(t: Totals)
    ensures |TotalsText(t)| == |TotalsList(t)| == 6
    ensures forall i | 0 <= i < 6 :: Decimal.TwoDecimals(TotalsText(t)[i])
    ensures forall i | 0 <= i < 6 :: Decimal.ParseCents(TotalsText(t)[i]) == Some(TotalsList(t)[i])
  {
    forall i | 0 <= i < 6
      ensures Decimal.TwoDecimals(TotalsText(t)[i])
      ensures Decimal.ParseCents(TotalsText(t)[i]) == Some(TotalsList(t)[i])
    {
      Decimal.FixedTwoRoundTrip(TotalsList(t)[i]);
    }
  }

  /** All-zero totals print as six times 0.00. */
  lemma ZeroTotalsText(t: Totals)
    requires t.totalEntradas == 0 && t.totalFixos == 0 && t.totalVariaveis == 0
    requires t.totalCartao == 0 && t.saldoMes == 0 && t.poupancaPossivel == 0
    ensures |TotalsText(t)| == 6
    ensures forall i | 0 <= i < 6 :: TotalsText(t)[i] == "0.00"
  {
    Decimal.FixedTwoZero();
    forall i | 0 <= i < 6 ensures TotalsText(t)[i] == "0.00" {
      assert TotalsList(t)[i] == 0;
    }
  }

  /** The report request sent for a request that reaches the provider. */
  function ProviderPrompt(req: Request, apiKey: Option<string>): (p: Prompt)
    requires ReachesProvider(req, apiKey)
    ensures p.movimentos == RenderList(BodyField(req.body, "movimentos").items)
    ensures p.totals == TotalsText(TotalsOf(BodyField(req.body, "movimentos").items))
  {
    var movs := BodyField(req.body, "movimentos").items;
    BuildPrompt(BodyField(req.body, "mes"), BodyField(req.body, "ano"), BodyField(req.body, "metas"),
                TotalsOf(movs), RenderList(movs))
  }

  /** `v?.k`: reading through null or undefined gives undefined instead of throwing. */
  function OptionalGet(v: JsValue, k: Key): (r: JsValue)
    ensures Nullish(v) ==> r == Undefined
  {
    match Get(v, k)
    case None => Undefined
    case Some(x) => x
  }

  /** `data.choices?.[0]?.message?.content`; None is the TypeError of a null or undefined `data`. */
  function ReplyContent(data: JsValue): (r: Option<JsValue>)
    ensures r.None? <==> Nullish(data)
  {
    match Get(data, Name("choices"))
    case None => None
    case Some(choices) =>
      var message := OptionalGet(OptionalGet(choices, Index(0)), Name("message"));
      Some(OptionalGet(message, Name("content")))
  }

  /** The response to the provider's outcome. */
  function Respond(outcome: Upstream): (r: Response)
    ensures r.status == 200 || r.status == 500
    ensures r.status == 200 <==> outcome.Replied? && outcome.ok && !Nullish(outcome.data)
    ensures outcome.Replied? && !outcome.ok ==> r == Response(500, ErrorWithDetails(UpstreamErrorMessage, outcome.data))
    ensures r.status == 200 ==> r.body.Report? && Truthy(r.body.texto)
    ensures r.status == 500 && !(outcome.Replied? && !outcome.ok) ==> r == InternalError
    ensures outcome.Replied? && outcome.ok && !Nullish(outcome.data) && Truthy(ReplyContent(outcome.data).value)
      ==> r == Response(200, Report(ReplyContent(outcome.data).value))
    ensures outcome.Replied? && outcome.ok && !Nullish(outcome.data) && !Truthy(ReplyContent(outcome.data).value)
      ==> r == Response(200, Report(Str(FallbackText)))
  {
    match outcome
    case Threw => InternalError
    case Replied(ok, data) =>
      if !ok then Response(500, ErrorWithDetails(UpstreamErrorMessage, data))
      else
        match ReplyContent(data)
        case None => InternalError
        case Some(content) =>
          Response(200, Report(if Truthy(content) then content else Str(FallbackText)))
  }

  /** `handler(req, res)` as a function from the request, the key and the provider to the response. */
  function Handle(req: Request, apiKey: Option<string>, provider: Prompt -> Upstream): (r: Response)
    ensures r.status in {200, 400, 405, 500}
    ensures r.body == NoBody <==> req.httpMethod == "OPTIONS"
    ensures req.httpMethod == "OPTIONS" ==> r.status == 200
    ensures r.status == 405 <==> req.httpMethod != "OPTIONS" && req.httpMethod != "POST"
    ensures r.status == 400 <==>
      (req.httpMethod == "POST" && KeyPresent(apiKey)
       && !ValidPayload(BodyField(req.body, "movimentos"), BodyField(req.body, "metas")))
    ensures r.status == 200 && req.httpMethod != "OPTIONS" ==>
      (ReachesProvider(req, apiKey) && r.body.Report? && Truthy(r.body.texto))
  {
    if req.httpMethod == "OPTIONS" then Response(200, NoBody)
    else if req.httpMethod != "POST" then Response(405, Error(MethodNotAllowedMessage))
    else if !KeyPresent(apiKey) then Response(500, Error(MissingKeyMessage))
    else
      var movimentos := BodyField(req.body, "movimentos");
      var metas := BodyField(req.body, "metas");
      if !ValidPayload(movimentos, metas) then Response(400, Error(InsufficientDataMessage))
      else if !Readable(movimentos.items) then InternalError
      else Respond(provider(ProviderPrompt(req, apiKey)))
  }

  /** A missing key gives 500 whatever the body, so the key check comes before validation. */
  lemma KeyCheckedBeforeBody(body: JsValue, apiKey: Option<string>, provider: Prompt -> Upstream)
    requires !KeyPresent(apiKey)
    ensures Handle(Request("POST", body), apiKey, provider) == Response(500, Error(MissingKeyMessage))
  {
  }

  /**
   * A request that stops before the provider call gets the same response
   * whatever the provider would do: the provider is not called.
   */
  lemma NoCallUnlessReached(req: Request, apiKey: Option<string>, p: Prompt -> Upstream, q: Prompt -> Upstream)
    requires !ReachesProvider(req, apiKey)
    ensures Handle(req, apiKey, p) == Handle(req, apiKey, q)
    ensures Handle(req, apiKey, p).status != 200 || req.httpMethod == "OPTIONS"
  {
  }

  /**
   * A request that reaches the provider sends it one report request, carrying
   * the printed totals of its movements and their list verbatim, and its
   * response is the response to the provider's outcome.
   */
  lemma ReachedSendsReport(req: Request, apiKey: Option<string>, provider: Prompt -> Upstream)
    requires ReachesProvider(req, apiKey)
    ensures Handle(req, apiKey, provider) == Respond(provider(ProviderPrompt(req, apiKey)))
    ensures ProviderPrompt(req, apiKey).movimentos == RenderList(BodyField(req.body, "movimentos").items)
    ensures ProviderPrompt(req, apiKey).totals == TotalsText(TotalsOf(BodyField(req.body, "movimentos").items))
  {
  }

  /** A null or undefined movement makes the totals loop throw: 500 with the generic message. */
  lemma UnreadableMovementIsInternalError(req: Request, apiKey: Option<string>, provider: Prompt -> Upstream)
    requires req.httpMethod == "POST" && KeyPresent(apiKey)
    requires ValidPayload(BodyField(req.body, "movimentos"), BodyField(req.body, "metas"))
    requires Null in BodyField(req.body, "movimentos").items
    ensures Handle(req, apiKey, provider) == InternalError
  {
  }

  /**
   * No movements put the zero totals and an empty list into the report
   * request, whatever the goals; `ZeroTotalsText` says they print as 0.00.
   */
  lemma NoMovementsPrompt(mes: JsValue, ano: JsValue, metas: JsValue)
    requires !Nullish(metas)
    ensures BuildPrompt(mes, ano, metas, TotalsOf([]), RenderList([])).totals == TotalsText(Totals(0, 0, 0, 0, 0, 0))
    ensures BuildPrompt(mes, ano, metas, TotalsOf([]), RenderList([])).movimentos == ""
  {
    EmptyTotals();
  }

  /** An empty movement list with goals still reaches the provider, with zero totals and an empty list. */
  lemma EmptyMovementsReachProvider(metas: JsValue, apiKey: Option<string>)
    requires Truthy(metas) && KeyPresent(apiKey)
    ensures var req := Request("POST", Obj(map["movimentos" := Arr([]), "metas" := metas]));
      && ReachesProvider(req, apiKey)
      && ProviderPrompt(req, apiKey).totals == TotalsText(Totals(0, 0, 0, 0, 0, 0))
      && ProviderPrompt(req, apiKey).movimentos == ""
  {
    var req := Request("POST", Obj(map["movimentos" := Arr([]), "metas" := metas]));
    GoalsOnlyBody(metas);
    var movs: seq<JsValue> := [];
    assert Readable(movs);
    assert ValidPayload(Arr(movs), metas);
    assert ReachesProvider(req, apiKey);
    EmptyTotals();
  }

  /** The two fields of a body holding an empty movement array and the goals. */
  lemma GoalsOnlyBody(metas: JsValue)
    ensures var body := Obj(map["movimentos" := Arr([]), "metas" := metas]);
      BodyField(body, "movimentos") == Arr([]) && BodyField(body, "metas") == metas
  {
  }

  /** Movements without goals are rejected with 400 before anything else happens. */
  lemma MissingGoalsRejected(movs: seq<JsValue>, apiKey: Option<string>, provider: Prompt -> Upstream)
    requires KeyPresent(apiKey)
    ensures Handle(Request("POST", Obj(map["movimentos" := Arr(movs)])), apiKey, provider)
      == Response(400, Error(InsufficientDataMessage))
  {
    var body := Obj(map["movimentos" := Arr(movs)]);
    assert BodyField(body, "metas") == Undefined;
  }

  /** A provider reply that is not ok gives 500 carrying the reply payload as `detalhes`. */
  lemma UpstreamFailureCarriesDetails(data: JsValue)
    ensures Respond(Replied(false, data)).body.detalhes == data
    ensures Respond(Replied(false, data)).status == 500
  {
  }

  /** An ok reply gives its `content` when truthy; a reply without one gives the fixed fallback text. */
  lemma OkReplyText(s: string)
    ensures var data := Obj(map["choices" := Arr([Obj(map["message" := Obj(map["content" := Str(s)])])])]);
      Respond(Replied(true, data)) == Response(200, Report(if s == "" then Str(FallbackText) else Str(s)))
    ensures Respond(Replied(true, Obj(map[]))) == Response(200, Report(Str(FallbackText)))
    ensures Respond(Replied(true, Obj(map["choices" := Arr([])]))) == Response(200, Report(Str(FallbackText)))
  {
    var message := Obj(map["content" := Str(s)]);
    var choice := Obj(map["message" := message]);
    var data := Obj(map["choices" := Arr([choice])]);
    assert Get(data, Name("choices")) == Some(Arr([choice]));
    assert OptionalGet(Arr([choice]), Index(0)) == choice;
    assert OptionalGet(choice, Name("message")) == message;
    assert OptionalGet(message, Name("content")) == Str(s);
  }

  /**
   * Whatever else a reply holds (an `id`, more choices, a `role` next to the
   * content), its text is the `content` of the `message` of its first choice.
   */
  lemma ContentOfAnyReply(fields: map<string, JsValue>, rest: seq<JsValue>,
                          choice: map<string, JsValue>, message: map<string, JsValue>)
    requires "choices" in fields && fields["choices"] == Arr([Obj(choice)] + rest)
    requires "message" in choice && choice["message"] == Obj(message)
    requires "content" in message
    ensures ReplyContent(Obj(fields)) == Some(message["content"])
    ensures Truthy(message["content"]) ==> Respond(Replied(true, Obj(fields))) == Response(200, Report(message["content"]))
    ensures !Truthy(message["content"]) ==> Respond(Replied(true, Obj(fields))) == Response(200, Report(Str(FallbackText)))
  {
    var choices := Arr([Obj(choice)] + rest);
    assert OptionalGet(choices, Index(0)) == Obj(choice);
    assert OptionalGet(Obj(choice), Name("message")) == Obj(message);
  }

  /** The fallback text is sent exactly when the extracted content is falsy or is that very text. */
  lemma FallbackExactly(data: JsValue)
    requires !Nullish(data)
    ensures Respond(Replied(true, data)).body == Report(Str(FallbackText))
        <==> !Truthy(ReplyContent(data).value) || ReplyContent(data).value == Str(FallbackText)
  {
  }
}
