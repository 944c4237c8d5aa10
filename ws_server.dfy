/** The reply rule of the WebSocket server in lib/server/ws.js: what one
    incoming frame makes the server send back on the same socket. The
    JSON-RPC server it hands requests to is the parameter `call`, applied
    to the raw frame; `parse` and `stringify` stand for `utils.JSON.parse`
    and `utils.JSON.stringify` with the server's options. */
module WsServer {
  import opened Wrappers
  import opened Json
  import opened Messages

  /** The response `respondError(err)` builds: a parse error whose data is
      `String(err)`, with a null id and no result. */
  function ParseErrorResponse(f: Fault, version: Option<Json>, messages: map<real, string>): Json {
    Response(Some(ErrorObject(Some(JNum(PARSE_ERROR as real)), Some(JNull), Some(JStr(ErrorText(f))), messages)),
             None, None, version)
  }

  /** The body `respondError(err)` sends: the serialised parse-error
      response, or the empty string when that cannot be serialised. */
  function ParseErrorBody(f: Fault, version: Option<Json>, stringify: Json -> Result<string, Fault>,
                          messages: map<real, string>): string
  {
    match stringify(ParseErrorResponse(f, version, messages))
    case Success(b) => b
    case Failure(_) => ""
  }

  /** `onIncomingMessage(wsock, data)`: the body the server sends, if any.
      A frame that does not parse is answered with a parse error. A valid
      request or a batch goes to the server; its truthy reply is sent
      serialised, and a reply that cannot be serialised is answered with
      a parse error. Nothing is sent otherwise. */
  function OnIncomingMessage(data: string, version: Option<Json>, parse: string -> Result<Json, Fault>,
                             call: string -> DispatchResult, stringify: Json -> Result<string, Fault>,
                             messages: map<real, string>): (sent: Option<string>)
    ensures sent.None? <==>
              && parse(data).Success?
              && ((!IsValidRequest(parse(data).value, version) && !IsBatch(parse(data).value))
                  || !TruthyOpt(Reply(call(data))))
  {
    match parse(data)
    case Failure(err) => Some(ParseErrorBody(err, version, stringify, messages))
    case Success(msg) =>
      if IsValidRequest(msg, version) || IsBatch(msg) then
        var response := Reply(call(data));
        if TruthyOpt(response) then
          match stringify(response.value)
          case Success(body) => Some(body)
          case Failure(jsonErr) => Some(ParseErrorBody(jsonErr, version, stringify, messages))
        else None
      else None
  }

  /** The parse-error response carries code -32700, the error's text as
      its data, a null id and no result, is a valid error object, and
      carries `"jsonrpc": "2.0"` exactly when the version reads as 2. */
  lemma ParseErrorResponseShape(f: Fault, version: Option<Json>, messages: map<real, string>)
    ensures var r := ParseErrorResponse(f, version, messages);
            && Get(r, "id") == Some(JNull)
            && Get(r, "result").None?
            && Get(r, "error").Some?
            && Get(Get(r, "error").value, "code") == Some(JNum(PARSE_ERROR as real))
            && Get(Get(r, "error").value, "data") == Some(JStr(ErrorText(f)))
            && IsValidError(Get(r, "error"), version)
            && (Get(r, "jsonrpc") == Some(JStr("2.0")) <==> ResponseVersion(version) == JNum(2.0))
  {
    var e := ErrorObject(Some(JNum(PARSE_ERROR as real)), Some(JNull), Some(JStr(ErrorText(f))), messages);
    ErrorObjectFields(Some(JNum(PARSE_ERROR as real)), Some(JNull), Some(JStr(ErrorText(f))), messages);
    ErrorObjectIsValid(Some(JNum(PARSE_ERROR as real)), Some(JNull), Some(JStr(ErrorText(f))), messages);
    assert Truthy(e);
    ResponseTagAndId(Some(e), None, None, version);
    ResponseErrorPrecedence(Some(e), None, None, version);
  }

  /** The parse-error body is empty exactly when the parse-error response
      cannot be serialised; with a faithful serialisation, a body that is
      sent parses back to that response. */
  lemma ParseErrorBodyRoundTrips(f: Fault, version: Option<Json>, parse: string -> Result<Json, Fault>,
                                 stringify: Json -> Result<string, Fault>, messages: map<real, string>)
    requires forall j :: stringify(j).Success? ==> parse(stringify(j).value) == Success(j)
    ensures var resp := ParseErrorResponse(f, version, messages);
            stringify(resp).Success? ==> parse(ParseErrorBody(f, version, stringify, messages)) == Success(resp)
    ensures var resp := ParseErrorResponse(f, version, messages);
            stringify(resp).Failure? ==> ParseErrorBody(f, version, stringify, messages) == ""
  {
  }

  /** Every frame that does not parse gets exactly one reply, the
      parse-error body for the parser's error. */
  lemma UnparseableFrameGetsParseError(data: string, version: Option<Json>, parse: string -> Result<Json, Fault>,
                                       call: string -> DispatchResult, stringify: Json -> Result<string, Fault>,
                                       messages: map<real, string>)
    requires parse(data).Failure?
    ensures OnIncomingMessage(data, version, parse, call, stringify, messages)
            == Some(ParseErrorBody(parse(data).error, version, stringify, messages))
  {
  }

  /** A notification the server answers with nothing gets no reply, and a
      parsed frame that is neither a valid request nor a batch never
      reaches the server, whatever the server would answer. */
  lemma InvalidFrameIsIgnored(data: string, version: Option<Json>, parse: string -> Result<Json, Fault>,
                              call: string -> DispatchResult, call2: string -> DispatchResult,
                              stringify: Json -> Result<string, Fault>, messages: map<real, string>)
    requires parse(data).Success? && !IsValidRequest(parse(data).value, version) && !IsBatch(parse(data).value)
    ensures OnIncomingMessage(data, version, parse, call, stringify, messages).None?
    ensures OnIncomingMessage(data, version, parse, call, stringify, messages)
            == OnIncomingMessage(data, version, parse, call2, stringify, messages)
  {
  }

  /** When serialisation is faithful (every body it yields parses back to
      the value serialised) and the server's reply can be serialised, the
      body sent is that reply: the peer parses exactly the server's error
      or, failing that, its success value. */
  lemma SentReplyRoundTrips(data: string, version: Option<Json>, parse: string -> Result<Json, Fault>,
                            call: string -> DispatchResult, stringify: Json -> Result<string, Fault>,
                            messages: map<real, string>)
    requires forall j :: stringify(j).Success? ==> parse(stringify(j).value) == Success(j)
    requires parse(data).Success? && (IsValidRequest(parse(data).value, version) || IsBatch(parse(data).value))
    requires TruthyOpt(Reply(call(data))) && stringify(Reply(call(data)).value).Success?
    ensures var sent := OnIncomingMessage(data, version, parse, call, stringify, messages);
            && sent.Some?
            && parse(sent.value) == Success(Reply(call(data)).value)
            && (TruthyOpt(call(data).error) ==> parse(sent.value) == Success(call(data).error.value))
  {
  }

  /** A reply the server produces but that cannot be serialised turns into
      the parse-error body for the serialiser's error. */
  lemma UnserialisableReplyGetsParseError(data: string, version: Option<Json>, parse: string -> Result<Json, Fault>,
                                          call: string -> DispatchResult, stringify: Json -> Result<string, Fault>,
                                          messages: map<real, string>)
    requires parse(data).Success? && (IsValidRequest(parse(data).value, version) || IsBatch(parse(data).value))
    requires TruthyOpt(Reply(call(data))) && stringify(Reply(call(data)).value).Failure?
    ensures OnIncomingMessage(data, version, parse, call, stringify, messages)
            == Some(ParseErrorBody(stringify(Reply(call(data)).value).error, version, stringify, messages))
  {
  }
}
