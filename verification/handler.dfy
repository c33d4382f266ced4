/** The request handler (`Guest::handle` and `extract_request_body`): a
    decision procedure from the settings, the method, the body and the
    upstream outcome to exactly one response. JSON decoding and encoding, the
    lossy UTF-8 decoder and the upstream POST are parameters collected in
    `Env`; `J` stands for a decoded JSON value. */
module Handler {
  import opened Types
  import opened Headers
  import opened Body
  import opened Response
  import opened Config

  datatype Method = Get | Head | Post | Put | Delete | Connect | Options | Trace | Patch | Other(name: string)

  datatype Request = Request(httpMethod: Method, headers: seq<RawHeader>, body: IncomingBody)

  /** The upstream answer: its status and its body, absent when it cannot be read. */
  datatype UpstreamResponse = UpstreamResponse(status: u16, body: Option<Bytes>)

  datatype Env<!J> = Env(
    decodeLossy: Bytes -> string,
    parseSettings: string -> Result<map<string, string>>,
    parseJsonBytes: Bytes -> Result<J>,
    parseJsonText: string -> Result<J>,
    serialize: J -> string,
    /** The POST, given the request JSON, the template id and the API key. */
    upstream: (J, string, string) -> Result<UpstreamResponse>)

  /** What the handler does before it sends its response. */
  datatype Effect<J> = ReadRequestBody | CallUpstream(payload: J, templateId: string, apiKey: string)

  datatype Handled<J> = Handled(effects: seq<Effect<J>>, response: ResponseBuilder)

  const UnsupportedMethod := "Unsupported method"
  const ReadFailurePrefix := "Failed to read request body: "
  const JsonFailurePrefix := "Failed to parse JSON body: "
  const SettingsFailure := "Failed to parse component settings, missing Pdforge API Key"
  const UpstreamUnparsable := "Failed to parse Pdforge response"

  /** `extract_request_body`: only POST is read; a read failure or a JSON
      failure is reported with its own prefix. */
  function ExtractRequestBody<J>(httpMethod: Method, body: IncomingBody, parseJson: Bytes -> Result<J>): (r: Result<J>)
    ensures !httpMethod.Post? ==> r == Err(UnsupportedMethod)
    ensures r.Ok? <==> httpMethod.Post? && ReadBody(body).Ok? && parseJson(ReadBody(body).value).Ok?
    ensures r.Ok? ==> r.value == parseJson(ReadBody(body).value).value
    ensures httpMethod.Post? && ReadBody(body).Err? ==> r == Err(ReadFailurePrefix + ReadBody(body).error)
    ensures httpMethod.Post? && ReadBody(body).Ok? && parseJson(ReadBody(body).value).Err? ==>
              r == Err(JsonFailurePrefix + parseJson(ReadBody(body).value).error)
  {
    match httpMethod
    case Post =>
      (match ReadBody(body)
       case Err(e) => Err(ReadFailurePrefix + e)
       case Ok(bytes) =>
         match parseJson(bytes)
         case Err(e) => Err(JsonFailurePrefix + e)
         case Ok(json) => Ok(json))
    case _ => Err(UnsupportedMethod)
  }

  /** A method other than POST never depends on the body. */
  lemma NonPostIgnoresBody<J>(httpMethod: Method, b1: IncomingBody, b2: IncomingBody, parseJson: Bytes -> Result<J>)
    requires !httpMethod.Post?
    ensures ExtractRequestBody(httpMethod, b1, parseJson) == ExtractRequestBody(httpMethod, b2, parseJson)
  {
  }

  /** The response to an upstream answer: its JSON re-serialised under its own
      status, or a 500 when its body (read as empty when absent) is not JSON. */
  function Relay<J>(answer: UpstreamResponse, env: Env<J>): (r: ResponseBuilder)
    ensures Lookup(r.headers, ContentType) == [Json] && r.bodyContent.Some?
    ensures env.parseJsonText(env.decodeLossy(answer.body.GetOr([]))).Err? ==>
              r == BuildResponseJsonError(UpstreamUnparsable, 500)
    ensures env.parseJsonText(env.decodeLossy(answer.body.GetOr([]))).Ok? ==>
              r.statusCode == answer.status
              && r.bodyContent == Some(env.serialize(env.parseJsonText(env.decodeLossy(answer.body.GetOr([]))).value))
  {
    match env.parseJsonText(env.decodeLossy(answer.body.GetOr([])))
    case Err(_) => BuildResponseJsonError(UpstreamUnparsable, 500)
    case Ok(json) => BuildResponseJson(env.serialize(json), answer.status)
  }

  /** The decision of `Guest::handle`, given the outcome of `Settings::from_req`
      and of `extract_request_body`: settings first, then method and body,
      then the upstream call; each failure turns into one JSON error response.
      The body outcome only counts as read when the method is POST. */
  function Respond<J>(settings: Result<Settings>, httpMethod: Method, extracted: Result<J>, env: Env<J>): (r: Handled<J>)
    ensures Lookup(r.response.headers, ContentType) == [Json] && r.response.bodyContent.Some?
    ensures settings.Err? ==> |r.effects| == 0 && r.response == BuildResponseJsonError(SettingsFailure, 500)
    ensures settings.Ok? && extracted.Err? ==>
              r.response == BuildResponseJsonError(extracted.error, 400)
              && forall i :: 0 <= i < |r.effects| ==> !r.effects[i].CallUpstream?
    ensures |r.effects| <= 2
    ensures (exists i :: 0 <= i < |r.effects| && r.effects[i].ReadRequestBody?) <==> httpMethod.Post? && settings.Ok?
    ensures forall i :: 0 <= i < |r.effects| && r.effects[i].ReadRequestBody? ==> i == 0
    ensures settings.Ok? && extracted.Ok? ==>
              |r.effects| > 0
              && r.effects[|r.effects| - 1] == CallUpstream(extracted.value, settings.value.templateId, settings.value.apiKey)
    ensures forall i :: 0 <= i < |r.effects| && r.effects[i].CallUpstream? ==>
              settings.Ok? && extracted.Ok?
              && r.effects[i] == CallUpstream(extracted.value, settings.value.templateId, settings.value.apiKey)
    ensures settings.Ok? && extracted.Ok? ==>
              var outcome := env.upstream(extracted.value, settings.value.templateId, settings.value.apiKey);
              && (outcome.Err? ==> r.response == BuildResponseJsonError(outcome.error, 500))
              && (outcome.Ok? ==> r.response == Relay(outcome.value, env))
  {
    match settings
    case Err(_) => Handled([], BuildResponseJsonError(SettingsFailure, 500))
    case Ok(s) =>
      var read := if httpMethod.Post? then [ReadRequestBody] else [];
      assert httpMethod.Post? ==> read[0].ReadRequestBody?;
      match extracted
      case Err(e) => Handled(read, BuildResponseJsonError(e, 400))
      case Ok(body) =>
        var effects := read + [CallUpstream(body, s.templateId, s.apiKey)];
        assert effects[|effects| - 1].CallUpstream?;
        assert httpMethod.Post? ==> effects[0].ReadRequestBody?;
        match env.upstream(body, s.templateId, s.apiKey)
        case Err(e) => Handled(effects, BuildResponseJsonError(e, 500))
        case Ok(answer) => Handled(effects, Relay(answer, env))
  }

  /** `Guest::handle`: the settings from the request's headers, the body
      only when they are good, then `Respond`. */
  function Handle<J>(req: Request, env: Env<J>): (r: Handled<J>)
    ensures Lookup(r.response.headers, ContentType) == [Json] && r.response.bodyContent.Some?
    ensures |r.effects| <= 2
    ensures FromReq(req.headers, env.decodeLossy, env.parseSettings).Err? ==>
              |r.effects| == 0 && r.response == BuildResponseJsonError(SettingsFailure, 500)
    ensures FromReq(req.headers, env.decodeLossy, env.parseSettings).Ok? && !req.httpMethod.Post? ==>
              |r.effects| == 0 && r.response == BuildResponseJsonError(UnsupportedMethod, 400)
  {
    Respond(FromReq(req.headers, env.decodeLossy, env.parseSettings),
            req.httpMethod,
            ExtractRequestBody(req.httpMethod, req.body, env.parseJsonBytes),
            env)
  }

  /** A method other than POST is refused without reading the body or calling
      upstream: no effect at all, and a 400 or (for bad settings) a 500. */
  lemma NonPostNeverReads<J>(req: Request, env: Env<J>)
    requires !req.httpMethod.Post?
    ensures |Handle(req, env).effects| == 0
    ensures Handle(req, env).response.statusCode in {400, 500}
  {
  }

  /** When the settings are unusable nothing else about the request matters. */
  lemma SettingsFailureIgnoresRest<J>(req1: Request, req2: Request, env1: Env<J>, env2: Env<J>)
    requires req1.headers == req2.headers
    requires env1.decodeLossy == env2.decodeLossy && env1.parseSettings == env2.parseSettings
    requires FromReq(req1.headers, env1.decodeLossy, env1.parseSettings).Err?
    ensures Handle(req1, env1).response == Handle(req2, env2).response
    ensures |Handle(req1, env1).effects| == 0 && |Handle(req2, env2).effects| == 0
  {
  }

  /** A method other than POST is answered without the body or the upstream:
      the response is the same for any body and any upstream behaviour. */
  lemma NonPostIndependent<J>(req: Request, body: IncomingBody, env1: Env<J>, env2: Env<J>)
    requires !req.httpMethod.Post?
    requires env1.decodeLossy == env2.decodeLossy && env1.parseSettings == env2.parseSettings
    ensures Handle(req, env1).response == Handle(req.(body := body), env2).response
  {
  }

  /** The full transcript: the effects, then the transport calls of `send`.
      Whatever path the handler takes, exactly one response is committed and
      the body stream is finished exactly once, as the very last call. */
  lemma RespondsExactlyOnce<J>(req: Request, env: Env<J>)
    ensures var trace := Send(Handle(req, env).response);
            && Count(trace, SetOutparam) == 1
            && Count(trace, Finish) == 1
            && trace[|trace| - 1] == Finish
            && exists i :: 0 <= i < |trace| && trace[i].Write?
  {
  }
}
