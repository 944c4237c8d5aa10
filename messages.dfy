/** The JSON-RPC 1.0 / 2.0 message model of lib/utils.js: the request and
    response constructors, the shape validators, and the error-object
    constructor of the WebSocket client (lib/client/ws.js). */
module Messages {
  import opened Wrappers
  import opened Json

  /** Reserved JSON-RPC 2.0 error codes (section 5.1 of the JSON-RPC 2.0
      specification). */
  const PARSE_ERROR: int := -32700
  const INTERNAL_ERROR: int := -32603

  /** `options.version === 1`: only the number 1 selects version 1. */
  predicate IsVersionOne(version: Option<Json>) {
    version == Some(JNum(1.0))
  }

  /** The two `TypeError`s that `request` throws, with the offending value. */
  datatype RequestError = MethodNotString(name: Json) | ParamsNotObject(params: Json)

  /** `Utils.request(method, params, id, options)`; the method name is `name`. `version` is
      `options.version`; `generator` is `options.generator` when it is a
      function and `Utils.generateId` otherwise, applied to the request
      built so far. An argument that is `undefined` is `None`. */
  function Request(name: Json, params: Option<Json>, id: Option<Json>,
                   version: Option<Json>, generator: Json -> Option<Json>): (r: Result<Json, RequestError>)
    ensures !name.JStr? ==> r == Failure(MethodNotString(name))
    ensures name.JStr? && TruthyOpt(params) && !IsObjectType(params.value) ==> r == Failure(ParamsNotObject(params.value))
    ensures r.Success? <==> name.JStr? && !(TruthyOpt(params) && !IsObjectType(params.value))
    ensures r.Success? ==>
      && r.value.JObj?
      && Get(r.value, "method") == Some(name)
      && Get(r.value, "jsonrpc") == (if IsVersionOne(version) then None else Some(JStr("2.0")))
      && Get(r.value, "params") == (if TruthyOpt(params) then params else None)
      && (id.Some? ==> Get(r.value, "id") == id)
  {
    if !name.JStr? then Failure(MethodNotString(name))
    else if TruthyOpt(params) && !IsObjectType(params.value) then Failure(ParamsNotObject(params.value))
    else
      var prefix := RequestPrefix(name, params, version);
      var idValue := if id.Some? then id else generator(JObj(prefix));
      Success(JObj(if idValue.Some? then Put(prefix, "id", idValue.value) else prefix))
  }

  /** The fields `request` has set before it asks the generator for an id:
      `method`, then `jsonrpc` unless version 1 was asked for, then `params`
      when they are truthy. */
  function RequestPrefix(name: Json, params: Option<Json>, version: Option<Json>): (r: seq<(string, Json)>)
    ensures Lookup(r, "method") == Some(name)
    ensures Lookup(r, "jsonrpc") == (if IsVersionOne(version) then None else Some(JStr("2.0")))
    ensures Lookup(r, "params") == (if TruthyOpt(params) then params else None)
    ensures Lookup(r, "id") == None
  {
    var named := Put([], "method", name);
    assert Lookup(named, "jsonrpc") == None && Lookup(named, "params") == None && Lookup(named, "id") == None;
    var tagged := if IsVersionOne(version) then named else Put(named, "jsonrpc", JStr("2.0"));
    if TruthyOpt(params) then Put(tagged, "params", params.value) else tagged
  }

  /** `undefined` and `null` both read as `null`. */
  function NullIfAbsent(v: Option<Json>): Json {
    if v.None? || v == Some(JNull) then JNull else v.value
  }

  /** The version `response` uses: 2 when `undefined` or `null`. */
  function ResponseVersion(version: Option<Json>): Json {
    if version.None? || version == Some(JNull) then JNum(2.0) else version.value
  }

  /** `Utils.response(error, result, id, version)`. A `result` that is
      `undefined` leaves no `result` key. */
  function Response(error: Option<Json>, result: Option<Json>, id: Option<Json>, version: Option<Json>): (r: Json)
    ensures r.JObj?
  {
    var err := NullIfAbsent(error);
    var head := ResponseHead(NullIfAbsent(id), ResponseVersion(version), err);
    JObj(if Truthy(err) then Put(head, "error", err)
         else if result.Some? then Put(head, "result", result.value)
         else head)
  }

  /** The fields `response` sets before it chooses between error and
      result: the tag for version 2, the id, and for version 1 the error. */
  function ResponseHead(idValue: Json, ver: Json, err: Json): (h: seq<(string, Json)>)
    ensures Lookup(h, "id") == Some(idValue)
    ensures Lookup(h, "jsonrpc") == (if ver == JNum(2.0) then Some(JStr("2.0")) else None)
    ensures Lookup(h, "error") == (if ver == JNum(1.0) then Some(err) else None)
    ensures Lookup(h, "result") == None
  {
    var tag: seq<(string, Json)> := if ver == JNum(2.0) then Put([], "jsonrpc", JStr("2.0")) else [];
    assert Lookup(tag, "id") == None && Lookup(tag, "error") == None && Lookup(tag, "result") == None;
    var withId := Put(tag, "id", idValue);
    if ver == JNum(1.0) then Put(withId, "error", err) else withId
  }

  /** `Request.isBatch`. */
  predicate IsBatch(v: Json) {
    v.JArr?
  }

  /** `Request.isNotification`: truthy, not a batch, and an id that is
      absent or `null`. */
  predicate IsNotification(v: Json) {
    Truthy(v) && !IsBatch(v) && (Get(v, "id").None? || Get(v, "id") == Some(JNull))
  }

  /** `Request.isValidVersionTwoRequest`. */
  predicate IsValidVersionTwoRequest(v: Json) {
    var params := Get(v, "params");
    var id := Get(v, "id");
    && Truthy(v)
    && IsObjectType(v)
    && Get(v, "jsonrpc") == Some(JStr("2.0"))
    && Get(v, "method").Some? && Get(v, "method").value.JStr?
    && (params.None? || params.value.JArr? || (Truthy(params.value) && IsObjectType(params.value)))
    && (id.None? || id.value.JStr? || id.value.JNum? || id.value.JNull?)
  }

  /** `Request.isValidVersionOneRequest`: a defined id, which may be `null`. */
  predicate IsValidVersionOneRequest(v: Json) {
    && Truthy(v)
    && IsObjectType(v)
    && Get(v, "method").Some? && Get(v, "method").value.JStr?
    && Get(v, "params").Some? && Get(v, "params").value.JArr?
    && Get(v, "id").Some?
  }

  /** `Request.isValidRequest`: every version but the number 1 is version 2. */
  predicate IsValidRequest(v: Json, version: Option<Json>) {
    Truthy(v) &&
    if IsVersionOne(version) then IsValidVersionOneRequest(v) else IsValidVersionTwoRequest(v)
  }

  /** `Response.isValidError`. */
  predicate IsValidError(error: Option<Json>, version: Option<Json>) {
    if IsVersionOne(version) then
      error.Some? && error.value != JNull
    else
      && TruthyOpt(error)
      && var code := Get(error.value, "code");
      && var message := Get(error.value, "message");
      && code.Some? && code.value.JNum? && IsIntegerNumber(code.value.n)
      && message.Some? && message.value.JStr?
  }

  /** `WebSocketClient.prototype.error(code, message, data)`. `messages` is
      the `Server.errorMessages` table, whose contents lie outside this
      model. */
  function ErrorObject(code: Option<Json>, message: Option<Json>, data: Option<Json>,
                       messages: map<real, string>): (e: Json)
    ensures e.JObj?
  {
    var c := if code.Some? && code.value.JNum? then code.value else JNum(INTERNAL_ERROR as real);
    var m := if message.Some? && message.value.JStr? then message.value
             else JStr(if c.n in messages then messages[c.n] else "");
    var fields := Put(Put([], "code", c), "message", m);
    JObj(if data.Some? then Put(fields, "data", data.value) else fields)
  }

  /** The two arguments the dispatcher `server.call` hands its callback. */
  datatype DispatchResult = DispatchResult(error: Option<Json>, success: Option<Json>)

  /** `var response = error || success`: the reply to write, if truthy. */
  function Reply(d: DispatchResult): (r: Option<Json>)
    ensures TruthyOpt(r) <==> TruthyOpt(d.error) || TruthyOpt(d.success)
    ensures TruthyOpt(d.error) ==> r == d.error
    ensures !TruthyOpt(d.error) ==> r == d.success
  {
    Or(d.error, d.success)
  }

  /** ASCII upper-casing, standing in for `String.prototype.toUpperCase`. */
  function ToUpper(s: string): (u: string)
    ensures |u| == |s|
    ensures forall i :: 0 <= i < |s| ==> u[i] == if 'a' <= s[i] <= 'z' then (s[i] as int - 32) as char else s[i]
  {
    if s == [] then []
    else [if 'a' <= s[0] <= 'z' then (s[0] as int - 32) as char else s[0]] + ToUpper(s[1..])
  }

  /** No ASCII lower-case letter. */
  predicate IsUpperCase(s: string) {
    forall i :: 0 <= i < |s| ==> !('a' <= s[i] <= 'z')
  }

  /** `Utils.isMethod(request, method)`: `requestMethod` is `request.method`
      and both `undefined` and `''` read as `''`. The comparison is against
      the upper-cased `method`, so only an upper-case request method can
      match, and the match ignores the case of `method`. */
  function IsMethod(requestMethod: Option<string>, name: Option<string>): (b: bool)
    ensures b ==> IsUpperCase(requestMethod.GetOr(""))
  {
    requestMethod.GetOr("") == ToUpper(name.GetOr(""))
  }

  /** Upper-casing leaves no lower-case letter. */
  lemma ToUpperIsUpperCase(s: string)
    ensures IsUpperCase(ToUpper(s))
  {
  }

  /** An upper-case string is its own upper-casing. */
  lemma {:induction false} UpperCaseIsFixed(s: string)
    requires IsUpperCase(s)
    ensures ToUpper(s) == s
  {
    assert forall i :: 0 <= i < |s| ==> ToUpper(s)[i] == s[i];
  }

  /** A request method matches `m` exactly when it is upper case and
      agrees with `m` once case is ignored; in particular `ToUpper(m)`
      itself always matches. */
  lemma IsMethodMatchesIgnoringCase(r: string, m: string)
    ensures IsMethod(Some(r), Some(m)) <==> IsUpperCase(r) && ToUpper(r) == ToUpper(m)
    ensures IsMethod(Some(ToUpper(m)), Some(m))
  {
    ToUpperIsUpperCase(m);
    ToUpperIdempotent(m);
    if IsUpperCase(r) {
      UpperCaseIsFixed(r);
    }
  }

  /** Upper-casing twice is upper-casing once. */
  lemma ToUpperIdempotent(s: string)
    ensures ToUpper(ToUpper(s)) == ToUpper(s)
  {
    var u := ToUpper(s);
    assert forall i :: 0 <= i < |u| ==> ToUpper(u)[i] == u[i];
  }

  /** `isMethod` ignores the case of the method it is asked about, and an
      omitted method behaves as the empty one. */
  lemma IsMethodIgnoresCase(requestMethod: Option<string>, name: string)
    ensures IsMethod(requestMethod, Some(name)) == IsMethod(requestMethod, Some(ToUpper(name)))
    ensures IsMethod(requestMethod, None) == IsMethod(requestMethod, Some(""))
  {
    ToUpperIdempotent(name);
  }

  // ---------------------------------------------------------------------
  // Properties of the constructors and validators

  /** A request built for version 2 from a string method, absent or
      structured params and a well-shaped id satisfies
      `isValidRequest` for that version (a serialise-then-parse round trip
      of a request keeps it valid). */
  lemma RequestIsValidVersionTwo(name: Json, params: Option<Json>, id: Option<Json>,
                                 version: Option<Json>, generator: Json -> Option<Json>)
    requires name.JStr? && !IsVersionOne(version)
    requires params.None? || !Truthy(params.value) || params.value.JArr? || params.value.JObj?
    requires id.None? ==> var g := generator(JObj(RequestPrefix(name, params, version)));
                          g.None? || g.value.JStr? || g.value.JNum? || g.value.JNull?
    requires id.Some? ==> id.value.JStr? || id.value.JNum? || id.value.JNull?
    ensures Request(name, params, id, version, generator).Success?
    ensures IsValidRequest(Request(name, params, id, version, generator).value, version)
  {
  }

  /** A version-1 request with array params and an id (explicit or
      generated) satisfies `isValidRequest` for version 1. */
  lemma RequestIsValidVersionOne(name: Json, params: Option<Json>, id: Option<Json>,
                                 generator: Json -> Option<Json>)
    requires name.JStr? && params.Some? && params.value.JArr?
    requires id.None? ==> generator(JObj(RequestPrefix(name, params, Some(JNum(1.0))))).Some?
    ensures Request(name, params, id, Some(JNum(1.0)), generator).Success?
    ensures IsValidRequest(Request(name, params, id, Some(JNum(1.0)), generator).value, Some(JNum(1.0)))
  {
  }

  /** An explicit `null` id is stored as it is and makes a notification;
      the generator is not consulted. */
  lemma NullIdMakesNotification(name: Json, params: Option<Json>, version: Option<Json>,
                                generator: Json -> Option<Json>)
    requires Request(name, params, Some(JNull), version, generator).Success?
    ensures IsNotification(Request(name, params, Some(JNull), version, generator).value)
  {
  }

  /** With no explicit id, the id is whatever the generator returns, and the
      request is a notification only when the generator returns nothing or
      `null`. */
  lemma GeneratedId(name: Json, params: Option<Json>, version: Option<Json>,
                    generator: Json -> Option<Json>)
    requires Request(name, params, None, version, generator).Success?
    ensures var r := Request(name, params, None, version, generator).value;
            && Get(r, "id") == generator(JObj(RequestPrefix(name, params, version)))
            && (IsNotification(r) <==> Get(r, "id").None? || Get(r, "id") == Some(JNull))
  {
  }

  /** A batch is never a notification; an object is one exactly when its
      id is absent or `null`; and any other truthy value (a string, a
      non-zero number, `true`) counts as a notification, since it has no
      `id` property. */
  lemma NotificationKinds(v: Json)
    ensures IsBatch(v) ==> !IsNotification(v)
    ensures v.JObj? ==> (IsNotification(v) <==> Get(v, "id").None? || Get(v, "id") == Some(JNull))
    ensures Truthy(v) && !v.JArr? && !v.JObj? ==> IsNotification(v)
  {
  }

  /** A valid request is an object, never a batch, with a string method.
      Under version 2 it carries the tag; under version 1 it has array
      params and a defined id, so it is a notification exactly when that id
      is `null`. */
  lemma ValidRequestShape(v: Json, version: Option<Json>)
    requires IsValidRequest(v, version)
    ensures v.JObj? && !IsBatch(v)
    ensures Get(v, "method").Some? && Get(v, "method").value.JStr?
    ensures !IsVersionOne(version) ==> Get(v, "jsonrpc") == Some(JStr("2.0"))
    ensures IsVersionOne(version) ==>
              && Get(v, "params").Some? && Get(v, "params").value.JArr?
              && (IsNotification(v) <==> Get(v, "id") == Some(JNull))
  {
  }

  /** A valid version-2 error is an object with an integral code and a
      string message; under version 1 anything but `undefined` and `null`
      is valid. */
  lemma ValidErrorShape(error: Option<Json>, version: Option<Json>)
    ensures !IsVersionOne(version) && IsValidError(error, version) ==>
              && error.Some? && error.value.JObj?
              && Get(error.value, "code").Some? && Get(error.value, "code").value.JNum?
              && IsIntegerNumber(Get(error.value, "code").value.n)
              && Get(error.value, "message").Some? && Get(error.value, "message").value.JStr?
    ensures IsVersionOne(version) ==> (IsValidError(error, version) <==> error.Some? && error.value != JNull)
  {
  }

  /** A version-2 response (version omitted, `null` or 2) carries the tag,
      the id (`null` when omitted), an `error` exactly when the error is
      truthy, and otherwise the result. */
  lemma ResponseVersionTwo(error: Option<Json>, result: Option<Json>, id: Option<Json>, version: Option<Json>)
    requires ResponseVersion(version) == JNum(2.0)
    ensures var r := Response(error, result, id, version);
            && Get(r, "jsonrpc") == Some(JStr("2.0"))
            && Get(r, "id") == Some(NullIfAbsent(id))
            && Get(r, "error") == (if TruthyOpt(error) then error else None)
            && Get(r, "result") == (if TruthyOpt(error) then None else result)
  {
  }

  /** A version-1 response always has an `error` key, `null` on success, and
      carries the result only when there is no (truthy) error. */
  lemma ResponseVersionOne(error: Option<Json>, result: Option<Json>, id: Option<Json>)
    ensures var r := Response(error, result, id, Some(JNum(1.0)));
            && Get(r, "jsonrpc") == None
            && Get(r, "id") == Some(NullIfAbsent(id))
            && Get(r, "error") == Some(NullIfAbsent(error))
            && Get(r, "result") == (if TruthyOpt(error) then None else result)
  {
  }

  /** Whatever the version, a response carries the id (`null` when
      omitted), and the `"2.0"` tag exactly when the version reads as 2. */
  lemma ResponseTagAndId(error: Option<Json>, result: Option<Json>, id: Option<Json>, version: Option<Json>)
    ensures var r := Response(error, result, id, version);
            && Get(r, "id") == Some(NullIfAbsent(id))
            && Get(r, "jsonrpc") == (if ResponseVersion(version) == JNum(2.0) then Some(JStr("2.0")) else None)
  {
  }

  /** Whatever the version, an error takes precedence over a result. */
  lemma ResponseErrorPrecedence(error: Option<Json>, result: Option<Json>, id: Option<Json>, version: Option<Json>)
    requires TruthyOpt(error)
    ensures Get(Response(error, result, id, version), "error") == error
    ensures Get(Response(error, result, id, version), "result") == None
  {
  }

  /** The client's error objects are valid version-2 errors exactly when
      their code is not a non-integer number; in version 1 they always
      are. */
  lemma ErrorObjectIsValid(code: Option<Json>, message: Option<Json>, data: Option<Json>,
                           messages: map<real, string>)
    ensures IsValidError(Some(ErrorObject(code, message, data, messages)), Some(JNum(1.0)))
    ensures IsValidError(Some(ErrorObject(code, message, data, messages)), None)
            <==> !(code.Some? && code.value.JNum?) || IsIntegerNumber(code.value.n)
  {
  }

  /** `error(...)` keeps a numeric code and a string message as they are,
      looks any other message up in the error-message table by the stored
      code (the empty string when the code has no entry), and has a
      `data` key exactly when `data` is defined. */
  lemma ErrorObjectFields(code: Option<Json>, message: Option<Json>, data: Option<Json>,
                          messages: map<real, string>)
    ensures var e := ErrorObject(code, message, data, messages);
            && (code.Some? && code.value.JNum? ==> Get(e, "code") == code)
            && (!(code.Some? && code.value.JNum?) ==> Get(e, "code") == Some(JNum(INTERNAL_ERROR as real)))
            && (message.Some? && message.value.JStr? ==> Get(e, "message") == message)
            && (!(message.Some? && message.value.JStr?) ==>
                  var c := Get(e, "code").value.n;
                  Get(e, "message") == Some(JStr(if c in messages then messages[c] else "")))
            && Get(e, "data") == data
  {
  }
}
