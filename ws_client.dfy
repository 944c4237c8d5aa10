/** The WebSocket client of lib/client/ws.js: the same queue and pending
    table as the TCP client, over one WebSocket that the client either
    borrows or opens once. The socket's events reach the client as calls of
    the methods named after their listeners; everything the client does to
    the socket and to callbacks is appended to `trace`. */
module WsClient {
  import opened Wrappers
  import opened Json
  import opened Messages
  import opened Correlation

  /** `wsock.readyState`. */
  datatype ReadyState = Connecting | Open | Closing | Closed

  /** The socket the client opens itself. */
  const OWN_SOCKET: Conn := Own(0)

  class WebSocketClient {
    /** `options.wsock` was given: the client borrows that socket. */
    const borrowed: bool
    const version: Option<Json>
    /** `options.server`: the dispatcher of requests the peer sends. */
    const server: Option<Json -> DispatchResult>
    /** `utils.JSON.parse` and `utils.JSON.stringify` with the client's options. */
    const parse: string -> Result<Json, Fault>
    const stringify: Json -> Result<string, Fault>
    /** `Server.errorMessages`. */
    const errorMessages: map<real, string>

    /** `self.wsock`. */
    var wsock: Option<Conn>
    var readyState: ReadyState
    /** The `open` listener ran, so that the `error`, `close` and
        `message` listeners are installed. */
    var listening: bool
    var reqQueue: seq<Item>
    var pendingReq: map<Key, Item>
    var trace: seq<Effect>

    ghost predicate Valid()
      reads this
    {
      && (borrowed ==> wsock == Some(Borrowed) && !listening)
      && (!borrowed ==> wsock.None? || wsock == Some(OWN_SOCKET))
      && (listening ==> wsock == Some(OWN_SOCKET))
      && (wsock == Some(OWN_SOCKET) && !listening ==> readyState == Connecting || readyState == Closing)
      && PendingOk(pendingReq)
      // Requests wait in the queue only while the socket is not open (or
      // is borrowed): the open listener, or the next request on an open
      // socket, drains them.
      && (reqQueue != [] ==> wsock.Some? && (borrowed || readyState != Open))
    }

    /** `new WebSocketClient(options)`, with `socketState` the `readyState`
        of a borrowed socket. */
    constructor (borrowSocket: bool, socketState: ReadyState, version: Option<Json>,
                 server: Option<Json -> DispatchResult>, parse: string -> Result<Json, Fault>,
                 stringify: Json -> Result<string, Fault>, errorMessages: map<real, string>)
      ensures Valid()
      ensures borrowed == borrowSocket && this.version == version && this.server == server
      ensures this.parse == parse && this.stringify == stringify && this.errorMessages == errorMessages
      ensures wsock == (if borrowSocket then Some(Borrowed) else None)
      ensures readyState == (if borrowSocket then socketState else Connecting)
      ensures !listening && reqQueue == [] && pendingReq == map[] && trace == []
    {
      borrowed := borrowSocket;
      this.version := version;
      this.server := server;
      this.parse := parse;
      this.stringify := stringify;
      this.errorMessages := errorMessages;
      wsock := if borrowSocket then Some(Borrowed) else None;
      readyState := if borrowSocket then socketState else Connecting;
      listening := false;
      reqQueue := [];
      pendingReq := map[];
      trace := [];
    }

    /** `execute(conn)`: sends every queued body on `conn`, first to last. */
    method Drain(conn: Conn)
      requires PendingOk(pendingReq)
      modifies this
      ensures reqQueue == []
      ensures pendingReq == DrainPending(old(reqQueue), old(pendingReq))
      ensures trace == old(trace) + DrainEffects(old(reqQueue), conn, SendFrame, SendFrame)
      ensures PendingOk(pendingReq)
      ensures wsock == old(wsock) && readyState == old(readyState) && listening == old(listening)
    {
      DrainKeepsPendingOk(reqQueue, pendingReq);
      var tracked, effects := Execute(reqQueue, pendingReq, conn, SendFrame, SendFrame);
      reqQueue, pendingReq, trace := [], tracked, trace + effects;
    }

    /** `WebSocketClient.prototype._request(request, callback)`: serialises
        the request, queues it, and drains the queue onto an open socket,
        leaves it queued on a socket that is not open, or opens the socket. */
    method Request(request: Json, callback: nat)
      requires Valid()
      modifies this
      ensures Valid()
      ensures stringify(request).Failure? ==>
                && trace == old(trace) + [Complete(callback, Failed(Some(Thrown(stringify(request).error))))]
                && reqQueue == old(reqQueue) && pendingReq == old(pendingReq)
                && wsock == old(wsock) && readyState == old(readyState)
      ensures stringify(request).Success? ==>
                var queued := old(reqQueue) + [Item(request, callback, stringify(request).value)];
                if old(wsock).Some? && old(readyState) == Open then
                  && reqQueue == []
                  && pendingReq == DrainPending(queued, old(pendingReq))
                  && trace == old(trace) + DrainEffects(queued, old(wsock).value, SendFrame, SendFrame)
                  && wsock == old(wsock) && readyState == old(readyState)
                else if old(wsock).Some? then
                  && reqQueue == queued && pendingReq == old(pendingReq) && trace == old(trace)
                  && wsock == old(wsock) && readyState == old(readyState)
                else
                  && reqQueue == queued && pendingReq == old(pendingReq)
                  && trace == old(trace) + [Create(OWN_SOCKET)]
                  && wsock == Some(OWN_SOCKET) && readyState == Connecting
      ensures listening == old(listening)
    {
      match stringify(request)
      case Failure(err) =>
        trace := trace + [Complete(callback, Failed(Some(Thrown(err))))];
      case Success(body) =>
        reqQueue := reqQueue + [Item(request, callback, body)];
        if wsock.Some? && readyState == Open {
          Drain(wsock.value);
        } else if wsock.None? {
          trace := trace + [Create(OWN_SOCKET)];
          wsock := Some(OWN_SOCKET);
          readyState := Connecting;
        }
    }

    /** The `open` listener of the client's own socket: installs the other
        listeners and drains the queue onto the socket. */
    method OnOpen()
      requires Valid() && wsock == Some(OWN_SOCKET) && readyState == Connecting && !listening
      modifies this
      ensures Valid()
      ensures readyState == Open && listening && wsock == old(wsock)
      ensures reqQueue == []
      ensures pendingReq == DrainPending(old(reqQueue), old(pendingReq))
      ensures trace == old(trace) + DrainEffects(old(reqQueue), OWN_SOCKET, SendFrame, SendFrame)
    {
      readyState := Open;
      listening := true;
      Drain(OWN_SOCKET);
    }

    /** `_resolvePending(err)`: fails every pending request, in the order
        its keys are enumerated, then every queued one, first to last. */
    method ResolvePending(err: Option<Reason>) returns (ghost order: seq<Key>)
      modifies this
      ensures Enumerates(order, old(pendingReq).Keys)
      ensures pendingReq == map[] && reqQueue == []
      ensures trace == old(trace) + FailPending(order, old(pendingReq), err) + FailQueue(old(reqQueue), err)
      ensures wsock == old(wsock) && readyState == old(readyState) && listening == old(listening)
    {
      var failed, queued;
      order, failed := FailEntries(pendingReq, err);
      queued := FailQueued(reqQueue, err);
      pendingReq, reqQueue, trace := map[], [], trace + failed + queued;
    }

    /** The error object the `error` listener builds from the error `f`. */
    function SocketError(f: Fault): (e: Json)
      ensures IsValidError(Some(e), version)
      ensures Get(e, "code") == Some(JNum(INTERNAL_ERROR as real))
      ensures Get(e, "data") == Some(JStr(ErrorText(f)))
    {
      ErrorObjectIsValid(Some(JNum(INTERNAL_ERROR as real)), None, Some(JStr(ErrorText(f))), errorMessages);
      ErrorObjectFields(Some(JNum(INTERNAL_ERROR as real)), None, Some(JStr(ErrorText(f))), errorMessages);
      ErrorObject(Some(JNum(INTERNAL_ERROR as real)), None, Some(JStr(ErrorText(f))), errorMessages)
    }

    /** The error object the `close` listener builds from the close code
        and reason. */
    function CloseError(code: Json, reason: string): (e: Json)
      ensures Get(e, "code") == Some(JNum(INTERNAL_ERROR as real))
      ensures Get(e, "message") == Some(JStr(reason))
      ensures Get(e, "data") == Some(code)
      ensures IsValidError(Some(e), version)
    {
      ErrorObjectIsValid(Some(JNum(INTERNAL_ERROR as real)), Some(JStr(reason)), Some(code), errorMessages);
      ErrorObjectFields(Some(JNum(INTERNAL_ERROR as real)), Some(JStr(reason)), Some(code), errorMessages);
      ErrorObject(Some(JNum(INTERNAL_ERROR as real)), Some(JStr(reason)), Some(code), errorMessages)
    }

    /** The `error` listener: emits `ws error` with an internal-error
        object, then fails everything outstanding with it. */
    method OnError(f: Fault) returns (ghost order: seq<Key>)
      requires Valid() && listening
      modifies this
      ensures Valid()
      ensures Enumerates(order, old(pendingReq).Keys)
      ensures pendingReq == map[] && reqQueue == []
      ensures trace == old(trace) + [Emit(WsError(SocketError(f)))]
                       + FailPending(order, old(pendingReq), Some(ErrorObj(SocketError(f))))
                       + FailQueue(old(reqQueue), Some(ErrorObj(SocketError(f))))
      ensures wsock == old(wsock) && readyState == old(readyState) && listening
    {
      var error := SocketError(f);
      trace := trace + [Emit(WsError(error))];
      order := ResolvePending(Some(ErrorObj(error)));
    }

    /** The `close` listener: the socket is closed, and everything
        outstanding fails with an internal-error object carrying the
        reason as its message and the code as its data. The client keeps
        the closed socket as `self.wsock`. */
    method OnClose(code: Json, reason: string) returns (ghost order: seq<Key>)
      requires Valid() && listening
      modifies this
      ensures Valid()
      ensures readyState == Closed && wsock == old(wsock) && listening
      ensures Enumerates(order, old(pendingReq).Keys)
      ensures pendingReq == map[] && reqQueue == []
      ensures trace == old(trace)
                       + FailPending(order, old(pendingReq), Some(ErrorObj(CloseError(code, reason))))
                       + FailQueue(old(reqQueue), Some(ErrorObj(CloseError(code, reason))))
    {
      readyState := Closed;
      order := ResolvePending(Some(ErrorObj(CloseError(code, reason))));
    }

    /** `_onIncomingMessage(conn, msg)`: a reply settles the pending request
        under its id; a request from the peer is emitted or dispatched.
        `raised` is set when the handler throws: on a `null` message
        (`msg.id`), and when the dispatcher's reply cannot be serialised. */
    method IncomingMessage(conn: Conn, msg: Json) returns (raised: bool)
      requires Valid()
      modifies this
      ensures Valid()
      ensures msg == JNull ==> raised && trace == old(trace) && pendingReq == old(pendingReq)
      ensures msg != JNull ==>
                var key := KeyOf(Get(msg, "id"));
                if key in old(pendingReq) then
                  && !raised
                  && pendingReq == old(pendingReq) - {key}
                  && trace == old(trace) + [Complete(old(pendingReq)[key].callback, Replied(msg))]
                else
                  var h := Unsolicited(conn, msg, version, server, stringify, SendFrame);
                  && raised == h.raised
                  && pendingReq == old(pendingReq)
                  && trace == old(trace) + h.effects
      ensures reqQueue == old(reqQueue) && wsock == old(wsock) && readyState == old(readyState) && listening == old(listening)
    {
      if msg == JNull {
        return true;
      }
      var key := KeyOf(Get(msg, "id"));
      if key in pendingReq {
        var item := pendingReq[key];
        pendingReq := pendingReq - {key};
        trace := trace + [Complete(item.callback, Replied(msg))];
        raised := false;
      } else {
        var h := Unsolicited(conn, msg, version, server, stringify, SendFrame);
        trace := trace + h.effects;
        raised := h.raised;
      }
    }

    /** The `message` listener: a frame that does not parse is dropped;
        one that does is handled as an incoming message on the socket. */
    method OnMessage(data: string) returns (raised: bool)
      requires Valid() && listening
      modifies this
      ensures Valid()
      ensures parse(data).Failure? ==>
                !raised && trace == old(trace) && pendingReq == old(pendingReq)
      ensures parse(data).Success? && parse(data).value != JNull ==>
                var msg := parse(data).value;
                var key := KeyOf(Get(msg, "id"));
                if key in old(pendingReq) then
                  && !raised
                  && pendingReq == old(pendingReq) - {key}
                  && trace == old(trace) + [Complete(old(pendingReq)[key].callback, Replied(msg))]
                else
                  var h := Unsolicited(OWN_SOCKET, msg, version, server, stringify, SendFrame);
                  && raised == h.raised
                  && pendingReq == old(pendingReq)
                  && trace == old(trace) + h.effects
      ensures parse(data) == Success(JNull) ==> raised && trace == old(trace) && pendingReq == old(pendingReq)
      ensures reqQueue == old(reqQueue) && wsock == old(wsock) && readyState == old(readyState) && listening
    {
      match parse(data)
      case Failure(_) =>
        raised := false;
      case Success(msg) =>
        raised := IncomingMessage(OWN_SOCKET, msg);
    }

    /** `WebSocketClient.prototype.close(code, reason)`: closes the
        client's own socket when it is open or connecting, which moves it
        to the closing state. */
    method Close(code: Option<Json>, reason: Option<Json>)
      requires Valid()
      modifies this
      ensures Valid()
      ensures var closes := !borrowed && old(wsock).Some? && (old(readyState) == Open || old(readyState) == Connecting);
              && trace == old(trace) + (if closes then [Effect.Close(old(wsock).value, code, reason)] else [])
              && readyState == (if closes then Closing else old(readyState))
      ensures wsock == old(wsock) && listening == old(listening) && reqQueue == old(reqQueue) && pendingReq == old(pendingReq)
    {
      if !borrowed && wsock.Some? && (readyState == Open || readyState == Connecting) {
        trace := trace + [Effect.Close(wsock.value, code, reason)];
        readyState := Closing;
      }
    }

    /** The borrowed socket changed state. The client installs no listener
        on it, so nothing else happens. */
    method BorrowedStateChanged(state: ReadyState)
      requires Valid() && borrowed
      modifies this
      ensures Valid()
      ensures readyState == state
      ensures wsock == old(wsock) && listening == old(listening) && reqQueue == old(reqQueue)
      ensures pendingReq == old(pendingReq) && trace == old(trace)
    {
      readyState := state;
    }
  }
}
