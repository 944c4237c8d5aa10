# jayson: a Dafny model of the JSON-RPC message model and client correlation

This project models the core of jayson, a JSON-RPC 1.0/2.0 library for
Node.js, and proves properties of that model. It covers four parts.

- **The message model of `lib/utils.js`.** This is the request and response
  constructors, the validators (`isBatch`, `isNotification`,
  `isValidVersionOneRequest`, `isValidVersionTwoRequest`, `isValidRequest`,
  `Response.isValidError`), `isMethod` and the post-order rewrite `walk`.
- **The TCP client of `lib/client/tcp.js`** and **the WebSocket client of
  `lib/client/ws.js`.** Each has a FIFO queue of serialised requests
  (`reqQueue`) and a table of requests awaiting a reply (`pendingReq`). The
  client drains the queue onto a usable transport, matches incoming replies
  by id, and fails everything outstanding when the transport errs or
  closes.
- **The per-frame reply rule of the WebSocket server in `lib/server/ws.js`.**

## Modules

- `Wrappers`: `Option` and `Result`.
- `Json`: JSON values.
  - Objects are association lists kept in insertion order. An `undefined`
    value is a missing key or `None`.
  - Also defined here: JavaScript truthiness, `typeof x === 'object'`,
    `a || b`, property read and assignment, `String(n)` for integers, and
    the `Fault` a thrown error carries.
- `Messages`: `Utils.request`, `Utils.response`, the validators,
  `isMethod`, the WebSocket client's `error(code, message, data)`, and the
  reply rule `error || success` for a dispatcher's result.
- `Walk`: `Utils.walk`.
  - It is an imperative method. It rewrites an array's slots or an object's
    fields in place and recurses into each child.
  - It is proved equal to a functional specification of the rewritten value
    and of the sequence of calls to the reviver.
- `Correlation`: what both clients share.
  - The property keys of `pendingReq`. An id is converted to a string, so
    the number 7 and the string "7" collide.
  - The queue item, and the log of effects a client has on its transports
    and callbacks.
  - The drain loop (`execute`) and the two loops of `_resolvePending`, each
    as a method proved against a specification function.
  - The handling of an incoming message that matches no pending request.
- `TcpClient`: class `ClientTcp`. Its fields are the options that matter,
  `self.sock`, the sockets dialled and connected, the queue, the table and
  the effect log. Each socket event is a method named after its listener.
- `WsClient`: class `WebSocketClient`, built the same way over one
  WebSocket and its `readyState`.
- `WsServer`: `onIncomingMessage` as a function from the frame (with
  abstract parse, dispatch and serialise functions) to the body sent back,
  if any.

Some parts of the environment are parameters or `const` fields:

- `JSON.parse` and `JSON.stringify`, which may fail;
- the dispatcher of a configured server;
- the id generator;
- the error-message table `Server.errorMessages`.

Callbacks are numbered by identity. A callback invocation is logged as a
`Complete(callback, outcome)` effect.

## Model

| member | source | states |
|---|---|---|
| Json.Or | lib/client/ws.js:144 | `error \|\| success` is truthy exactly when one of the two is |
| Json.Put | lib/utils.js:30-56 | assigning a property makes it read back as the value and leaves every other key alone |
| Json.PutKeys | lib/utils.js:30-56 | assigning a property keeps an existing key in its place and appends a new key at the end of the key order |
| Messages.Request | lib/utils.js:23-59 | a non-string method throws; truthy params whose type is not object throw; success in every other case. On success: the method verbatim, `jsonrpc: "2.0"` unless the version is 1, params only when truthy, an explicit id (even `null`) stored verbatim |
| Messages.Response | lib/utils.js:69-87 | a response is always an object (its keys are stated by the lemmas below) |
| Messages.ErrorObject | lib/client/ws.js:178-192 | `error(...)` always builds an object (fields stated by ErrorObjectFields) |
| Messages.Reply | lib/client/tcp.js:148-150 | the reply is truthy exactly when the error or the success is; a truthy error takes precedence, and without one the reply is the success value |
| Messages.ToUpper | lib/utils.js:259 | upper-casing keeps the length and maps exactly the lower-case ASCII letters |
| Messages.IsMethod | lib/utils.js:258-261 | only a request method with no lower-case letter can match |
| Messages.ToUpperIsUpperCase | lib/utils.js:259 | upper-casing leaves no lower-case ASCII letter |
| Messages.UpperCaseIsFixed | lib/utils.js:259 | a string with no lower-case letter is its own upper-casing |
| Messages.IsMethodMatchesIgnoringCase | lib/utils.js:258-261 | both directions: a request method matches `m` exactly when it has no lower-case letter and equals `m` once both are upper-cased; `m` upper-cased always matches |
| Messages.ToUpperIdempotent | lib/utils.js:259 | upper-casing twice equals upper-casing once |
| Messages.IsMethodIgnoresCase | lib/utils.js:258-261 | the match ignores the case of the method asked about; an omitted one acts as `''` |
| Messages.RequestIsValidVersionTwo | lib/utils.js:388-406 | a request built for version 2 from a string method, structured or absent params and a string, number or null id passes `isValidRequest` |
| Messages.RequestIsValidVersionOne | lib/utils.js:413-421 | a version-1 request with array params and a defined id passes `isValidRequest` for version 1 |
| Messages.NullIdMakesNotification | lib/utils.js:51-56 | an explicit `null` id makes a notification |
| Messages.GeneratedId | lib/utils.js:51-56 | without an id, the id is the generator's output; the request is a notification exactly when that output is undefined or null |
| Messages.IsBatch | lib/utils.js:365-367 | `Array.isArray(request)`: a batch is an array (a predicate; its properties are stated by NotificationKinds) |
| Messages.IsNotification | lib/utils.js:374-381 | truthy, not a batch, and an id that is `undefined` or `null` (a predicate; see NotificationKinds) |
| Messages.IsValidVersionTwoRequest | lib/utils.js:388-406 | a truthy object with `jsonrpc` exactly `"2.0"`, a string method, params absent, an array or a truthy object, and an id absent, a string, a number or `null` (a predicate; see ValidRequestShape) |
| Messages.IsValidVersionOneRequest | lib/utils.js:413-421 | a truthy object with a string method, array params and a defined id (a predicate; see ValidRequestShape) |
| Messages.IsValidRequest | lib/utils.js:429-438 | the version-1 rule when the version is the number 1 and the version-2 rule for every other version (a predicate; see ValidRequestShape) |
| Messages.IsValidError | lib/utils.js:449-463 | version 1: anything but `undefined` and `null`; otherwise a truthy value with an integral number code and a string message (a predicate; see ValidErrorShape) |
| Messages.NotificationKinds | lib/utils.js:374-381 | a batch is never a notification; an object is one exactly when its id is absent or `null`; any other truthy value is one |
| Messages.ValidRequestShape | lib/utils.js:388-438 | a valid request is a non-batch object with a string method; in version 2 it carries the tag; in version 1 it has array params and is a notification exactly when its id is `null` |
| Messages.ValidErrorShape | lib/utils.js:449-463 | a valid version-2 error is an object with an integral numeric code and a string message; in version 1 exactly the defined, non-null values are valid |
| Messages.ResponseVersionTwo | lib/utils.js:69-87 | in version 2: the tag, the id (null when absent), an error exactly when it is truthy, and otherwise the result |
| Messages.ResponseVersionOne | lib/utils.js:73-86 | in version 1: no tag, an `error` key always (null on success), the result only without a truthy error |
| Messages.ResponseTagAndId | lib/utils.js:70-73 | for every version: the id defaults to null, and the tag is present exactly when the version reads as 2 |
| Messages.ResponseErrorPrecedence | lib/utils.js:80-85 | a truthy error is stored and the result is dropped |
| Messages.ErrorObjectIsValid | lib/utils.js:449-463 | an error object is a valid version-1 error; it is a valid version-2 error exactly when its code is not a non-integer number |
| Messages.ErrorObjectFields | lib/client/ws.js:178-192 | a numeric code is kept and any other becomes -32603; a string message is kept, any other becomes the table's message for the stored code or `''`; `data` is present exactly when defined |
| Walk.Walked | lib/utils.js:342-352 | the specification of the rewritten value: each array slot holds its child's walk, each object field is replaced by its child's walk or dropped (a function; stated by WalkedShape) |
| Walk.Trace | lib/utils.js:340-355 | the specification of the calls: every child's calls in turn, then `fn` on the key and the rewritten value (a function; stated by TraceCountsEveryValue and RootCalledLast) |
| Walk.WalkValue | lib/utils.js:340-355 | the in-place walk returns the specified result (`fn` on the rewritten value) and makes exactly the specified calls, in order |
| Walk.WalkItems | lib/utils.js:342-352 | the loop over an array's slots leaves each slot holding its walked value and makes the specified calls, slot by slot in order |
| Walk.WalkFields | lib/utils.js:342-352 | the loop over an object's fields replaces each field by its walked value in place, deletes it when that is `undefined`, and makes the specified calls in order |
| Walk.TraceCountsEveryValue | lib/utils.js:340-355 | `fn` is called once per value of the tree, root included |
| Walk.ItemsTraceCount | lib/utils.js:342-352 | the calls made for an array's slots number the values below them |
| Walk.FieldsTraceCount | lib/utils.js:342-352 | the calls made for an object's fields number the values below them |
| Walk.RootCalledLast | lib/utils.js:354 | post-order: the last call is on the root with its children already rewritten, and its result is the walk's result |
| Walk.IdentityReviverKeepsValue | lib/utils.js:340-355 | a reviver that returns its value unchanged leaves the tree unchanged |
| Walk.ItemsIdentity | lib/utils.js:342-352 | the same, slot by slot |
| Walk.FieldsIdentity | lib/utils.js:342-352 | the same, field by field |
| Walk.WalkedShape | lib/utils.js:345-350 | an array keeps its length and slot `i` holds the walk of slot `i`. An object keeps, in order, exactly the fields whose walk returned a value, each under its original key and with that value; a field whose walk returned `undefined` is removed |
| Walk.ItemsWalkedAt | lib/utils.js:345-346 | slot `i` of the rewritten array holds the walk of the original slot `i` |
| Walk.FieldsWalkedKeeps | lib/utils.js:345-350 | a field whose walk returned a value is kept with it right after the fields kept before it; one whose walk returned `undefined` adds nothing |
| Walk.ItemsWalkedLength | lib/utils.js:345-350 | rewritten slots are as many as walked slots |
| Walk.FieldsWalkedFrom | lib/utils.js:345-350 | every kept field comes from an original field whose walk returned that value |
| Correlation.DrainWritesInOrder | lib/client/tcp.js:51-72 | the drain frames the queued bodies in enqueue order, one frame per item |
| Correlation.DrainCompletesNotifications | lib/client/tcp.js:55-64 | the drain completes exactly the notifications, in order, with no arguments |
| Correlation.KeyOf | lib/client/tcp.js:67 | the property key `pendingReq[id]` uses: the id converted to a string (`undefined`, `null`, booleans, strings, integral numbers, objects) (a function; see NumericAndStringIdsShareKey) |
| Correlation.Track | lib/client/tcp.js:65-70 | one drained item: a notification leaves the table alone, any other item is stored under its key (a function; see DrainLastWriteWins) |
| Correlation.DrainPending | lib/client/tcp.js:51-72 | the table after draining the queue in order (a function; see DrainKeepsPendingOk and DrainLastWriteWins) |
| Correlation.DrainEffects | lib/client/ws.js:48-64 | the frames and completions of draining the queue in order (a function; see DrainWritesInOrder and DrainCompletesNotifications) |
| Correlation.DrainKeepsPendingOk | lib/client/tcp.js:65-70 | each entry of the table stays under its own request's id, and notifications never enter. Every drained request's key is in the table, no key is dropped, and every new entry is a drained item |
| Correlation.DrainLastWriteWins | lib/client/tcp.js:67 | `pendingReq[id] = item` overwrites: each key holds the last request drained under it, and a key no drained request uses keeps its entry. An earlier request sharing the key is replaced and its callback never fires |
| Correlation.SharedKeyReplacesEarlierRequest | lib/client/ws.js:59 | two requests drained under one id leave only the later one in the table |
| Correlation.NotificationNeverTracked | lib/client/ws.js:53-56 | a notification leaves the table unchanged |
| Correlation.Execute | lib/client/ws.js:48-64 | the drain loop yields the specified table and effects |
| Correlation.FailPending | lib/client/tcp.js:171-175 | one completion per enumerated key |
| Correlation.FailQueue | lib/client/tcp.js:177-180 | one completion per queued item |
| Correlation.FailPendingAt | lib/client/tcp.js:171-175 | the i-th completion is `callback(err)` of the i-th enumerated entry |
| Correlation.FailPendingStep | lib/client/tcp.js:171-175 | failing one more enumerated key appends exactly that entry's `callback(err)` |
| Correlation.FailQueueAt | lib/client/tcp.js:177-180 | the i-th completion is `callback(err)` of the i-th queued item |
| Correlation.EnumerationSize | lib/client/tcp.js:167 | `Object.keys` lists as many keys as the table has |
| Correlation.FailAllOnce | lib/client/tcp.js:166-181 | resolution makes one completion per entry and per queued item, each with `err`. The entries come first, each key once; then the queue, in FIFO order |
| Correlation.FailEntries | lib/client/ws.js:161-170 | the first loop enumerates the keys, each once, and completes each entry in that order |
| Correlation.FailQueued | lib/client/ws.js:172-175 | the second loop completes each queued item in order |
| Correlation.Unsolicited | lib/client/tcp.js:136-163 | an invalid message is dropped. Without a server, a valid one is emitted as a notification or request event. With one: a falsy reply does nothing; a truthy reply that serialises is framed back on the connection; one that does not raises and writes nothing. No frame goes out in any other case |
| Correlation.UnsolicitedReplyRoundTrips | lib/client/ws.js:142-156 | a request handed to a dispatcher is answered exactly when the reply is truthy; with a faithful serialiser the single frame on the connection parses back to the truthy error, or else to the success value |
| Correlation.NumericAndStringIdsShareKey | lib/client/tcp.js:67 | every integral number id and its decimal string land under the same key (7 and "7" among them), as do an undefined id and "undefined" |
| TcpClient.ClientTcp.constructor | lib/client/tcp.js:14-40 | a borrowed socket becomes `self.sock` and forces connection reuse; everything starts empty |
| TcpClient.ClientTcp.Drain | lib/client/tcp.js:51-72 | empties the queue. The table and log grow by the drain specification; a notification is sent with `write` when reusing and with `end(body)` otherwise |
| TcpClient.ClientTcp.Request | lib/client/tcp.js:45-103 | a serialisation failure completes the callback with the error and queues nothing. Otherwise the item is queued and then: drained on a connected socket, left queued on a connecting one, or a socket is dialled, stored only when reusing |
| TcpClient.ClientTcp.OnConnect | lib/client/tcp.js:85-97 | the connect callback installs the listeners and drains the whole shared queue onto the new socket |
| TcpClient.ClientTcp.ResolvePending | lib/client/tcp.js:166-181 | every entry and then every queued item is completed once with `err`; both end empty |
| TcpClient.ClientTcp.OnSocketError | lib/client/tcp.js:87-90 | emits `tcp error`, then fails everything outstanding (across all sockets) with the error |
| TcpClient.ClientTcp.OnSocketEnd | lib/client/tcp.js:92-94 | fails everything outstanding with an undefined error |
| TcpClient.ClientTcp.OnIncomingMessage | lib/client/tcp.js:105-164 | a `null` message throws. A non-reused connection is ended first. A parse error matches nothing. A message whose id is pending removes that entry and completes it once with the message; any other goes to the unsolicited handling |
| TcpClient.ClientTcp.End | lib/client/tcp.js:183-188 | ends the held socket only when it is not borrowed |
| TcpClient.ClientTcp.BorrowedSocketConnected | lib/client/tcp.js:81-84 | the borrowed socket's connection changes nothing else; the invariant (no queued request without a pending connect, unless borrowed) is kept |
| WsClient.WebSocketClient.constructor | lib/client/ws.js:17-37 | a borrowed socket becomes `self.wsock`; everything starts empty |
| WsClient.WebSocketClient.Drain | lib/client/ws.js:48-64 | empties the queue with `send`; the table and log grow by the drain specification |
| WsClient.WebSocketClient.Request | lib/client/ws.js:42-104 | a serialisation failure completes the callback with the error. Otherwise the item is queued and then: drained on an open socket, left queued on an existing socket that is not open, or a socket is created and stored at once |
| WsClient.WebSocketClient.OnOpen | lib/client/ws.js:78-100 | the open listener installs the other listeners and drains the queue onto the socket |
| WsClient.WebSocketClient.ResolvePending | lib/client/ws.js:161-176 | every entry and then every queued item is completed once with `err`; both end empty |
| WsClient.WebSocketClient.SocketError | lib/client/ws.js:80 | the error listener's object has code -32603 and `String(err)` as its data, and is a valid error |
| WsClient.WebSocketClient.CloseError | lib/client/ws.js:86 | the close listener's object has code -32603, `String(reason)` as its message and the close code as its data |
| WsClient.WebSocketClient.OnError | lib/client/ws.js:79-83 | emits `ws error` with the error object, then fails everything outstanding with it |
| WsClient.WebSocketClient.OnClose | lib/client/ws.js:85-87 | fails everything outstanding with the close error object; the closed socket stays `self.wsock` |
| WsClient.WebSocketClient.IncomingMessage | lib/client/ws.js:107-159 | a `null` message throws. Id lookup comes first: a pending id removes its entry and completes it once, even when the message is a request. Anything else goes to the unsolicited handling, replies going out with `send` |
| WsClient.WebSocketClient.OnMessage | lib/client/ws.js:88-98 | a frame that does not parse is dropped silently; a parsed one is handled as an incoming message on the socket |
| WsClient.WebSocketClient.Close | lib/client/ws.js:194-202 | closes only the client's own socket, and only when it is open or connecting |
| WsClient.WebSocketClient.BorrowedStateChanged | lib/client/ws.js:73-76 | a state change of the borrowed socket changes nothing else and keeps the invariant |
| WsServer.OnIncomingMessage | lib/server/ws.js:38-82 | nothing is sent exactly when the frame parses and is either not a valid request or batch, or gets a falsy reply from the server |
| WsServer.ParseErrorResponse | lib/server/ws.js:43-45 | the response `respondError` builds (a function; stated by ParseErrorResponseShape) |
| WsServer.ParseErrorBody | lib/server/ws.js:46-50 | the body `respondError` sends (a function; stated by ParseErrorBodyRoundTrips) |
| WsServer.ParseErrorResponseShape | lib/server/ws.js:43-45 | the parse-error response has a null id, no result, code -32700, `String(err)` as data, a valid error, and the tag exactly when the version reads as 2 |
| WsServer.ParseErrorBodyRoundTrips | lib/server/ws.js:46-50 | the body is `''` exactly when the parse-error response cannot be serialised; with a faithful serialiser a serialisable response's body parses back to it |
| WsServer.UnparseableFrameGetsParseError | lib/server/ws.js:54-61 | a frame that fails to parse gets exactly one reply, the parse-error body for the parser's error |
| WsServer.InvalidFrameIsIgnored | lib/server/ws.js:62-81 | a parsed frame that is neither a valid request nor a batch gets no reply, whatever the server would answer |
| WsServer.SentReplyRoundTrips | lib/server/ws.js:63-75 | with a faithful serialiser, a serialisable server reply is sent so that it parses back to the reply, a truthy error before the success value |
| WsServer.UnserialisableReplyGetsParseError | lib/server/ws.js:66-69 | a server reply that cannot be serialised is answered with the parse-error body for the serialiser's error |

The class invariants (`Valid()`) are kept by every event method. They say
where a queued request waits:

- in `ClientTcp`: while the queue is non-empty, a dialled socket's connect
  callback is still to run, or the socket is borrowed. A dialled socket's
  connect callback drains the queue (lib/client/tcp.js:85-97). A borrowed
  socket's connection is not listened for (lib/client/tcp.js:81-84):
  `BorrowedSocketConnected` leaves the queue as it is, so a request queued
  while the borrowed socket connects waits for the next `Request` and stays
  stranded if none comes;
- in `WebSocketClient`: the socket exists and is not open, or is borrowed.
  This does not rule out stranding. `self.wsock` is never cleared
  (lib/client/ws.js:73-76, 85-87): after `OnClose`, or after `Close` on a
  socket that was still connecting, `readyState` is closed while `wsock`
  stays set. Every later `Request` then only queues, by its contract, and
  no method drains the queue again, since `OnOpen` needs a connecting
  socket.

The table keeps one entry per key. A request drained under the same id
as an earlier one still pending replaces it (DrainLastWriteWins), so the
earlier callback is completed neither by a reply nor by failure
resolution.

They also say that every table entry sits under its own request's key and
is not a notification.

## Left out

- Sockets, `net.connect`, WebSocket set-up, `setEncoding`, the event-emitter
  wiring and asynchronous callback timing.
  - Each socket event is a method call.
  - An event arrives only after the listener for it is installed
    (`OnSocketError`, `OnSocketEnd`, `OnMessage`, `OnError` and `OnClose`
    require a connected socket).
  - Callbacks that re-enter the client are not modelled.
- An `error` event on a TCP socket before its connect callback has run. No
  listener is installed then, so Node throws; this is not modelled.
- `parseStream`, `parseBody` and `getHttpListener` are stream and HTTP
  plumbing. `merge` wraps lodash. `generateId` uses `Math.random`; it is
  the `generator` parameter Messages.Request takes.
- `getParameterNames` (a regex over `Function.prototype.toString`) and
  `isContentType` (a RegExp built from its argument) are not modelled.
- `Utils.JSON.parse` and `Utils.JSON.stringify` wrap `JSON.parse` and
  `json-stringify-safe`. They are abstract functions that may fail.
  - The replacer and reviver options are not modelled separately.
  - A serialisation that yields `undefined` is not modelled.
- `Utils.request` calls the generator with `(request, options)`; the model
  passes only the request built so far.
- The base `Client` and `Server` modules are not part of this model:
  - the dispatcher `server.call` is an abstract function;
  - the WebSocket server's `self.server.error(...)` is assumed to build
    objects the way `WebSocketClient.prototype.error` does;
  - `Server.errorMessages` is a parameter.
- The clients' own `respondError` replies.
  - `respondError` at lib/client/tcp.js:111-120 refers to `Server`, which
    that file never requires. The stringify call at lib/client/ws.js:116
    refers to an `options` that is not in scope.
  - Both therefore throw before sending anything. The model records this as
    `raised` and an empty effect, and proves nothing about the reply they
    would have sent.
  - The stringify call at lib/client/tcp.js:151 refers to the same
    out-of-scope `options`. The model assumes it reaches the serialiser with
    the client's options.
- TcpClient.ClientTcp.constructor: the options object is given as its
  fields that matter (borrowed socket, reuse, version, server, serialiser).
  Its absence is not modelled: lib/client/tcp.js:34 reads `options.socket`
  from the raw argument, so `new ClientTcp()` without options throws,
  although line 11 documents the argument as optional and line 31 guards
  with `options || {}`. A URL string argument is not modelled either.
- Numbers are `real`s: IEEE-754 doubles, their rounding, `NaN` and the
  infinities are not modelled.
- Correlation.KeyOf: ids are converted to property keys only as far as the
  model needs it:
  - integral numbers below 1e21 become their decimal string;
  - `null`, booleans, strings, `undefined` and objects become the strings
    JavaScript gives them;
  - arrays, non-integral numbers and integral numbers of magnitude 1e21 or
    more are kept as separate `NumberKey`/`ArrayKey` keys rather than
    rendered as strings (JavaScript turns 1e21 into the key "1e+21", and
    arrays into their comma-joined elements).
- Property lookups that reach `Object.prototype` (an id of `"constructor"`
  finds an inherited function) are not modelled. The table holds only own
  entries.
- Correlation.FailEntries: the order of `Object.keys` (integer-like keys
  first, ascending, then insertion order) is not modelled. The proofs hold
  for every enumeration order.
- TcpClient.ClientTcp.ResolvePending: the same enumeration order is left
  open.
- WsClient.WebSocketClient.ResolvePending: the same enumeration order is
  left open.
- Walk.WalkValue: fields are walked in list order, not in `for..in` order
  (integer-like keys first). A deleted array element, which JavaScript
  leaves as a hole, becomes `null`. The reviver's `this` binding is not
  modelled.
- Messages.ToUpper: only ASCII letters are upper-cased, not the full
  Unicode mapping of `String.prototype.toUpperCase`.
- Messages.Request: a generator returning `undefined` leaves no `id` key;
  in JavaScript the key holds `undefined`, which serialisation drops.
- WsClient.WebSocketClient.Close: the socket moves to the closing state at once;
  the `ws` library's own transitions after that are only the `OnClose`
  event.
- `promise/lib/client/ws.js` is a promisifying wrapper with no logic of its
  own.
