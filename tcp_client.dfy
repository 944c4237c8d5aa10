/** The TCP client of lib/client/tcp.js: a queue of serialised requests,
    the table of requests waiting for their reply, and the connection or
    connections they travel on. Sockets, their events and timing are the
    environment: each event reaches the client as a call of the method
    named after its handler, and everything the client does to its
    sockets and callbacks is appended to `trace`. */
module TcpClient {
  import opened Wrappers
  import opened Json
  import opened Messages
  import opened Correlation

  class ClientTcp {
    /** `options.socket` was given: the client borrows that connection. */
    const borrowed: bool
    /** `options.reuseConnection`, forced on by a borrowed socket. */
    const reuseConnection: bool
    const version: Option<Json>
    /** `options.server`: the dispatcher of requests the peer sends. */
    const server: Option<Json -> DispatchResult>
    /** `utils.JSON.stringify` with the client's options. */
    const stringify: Json -> Result<string, Fault>

    /** `self.sock`. */
    var sock: Option<Conn>
    /** `sock.connecting` of the borrowed socket. */
    var borrowedConnecting: bool
    /** Sockets dialled whose connect callback has not yet run. */
    var connecting: set<nat>
    /** Sockets whose connect callback ran, so that their `error` and
        `end` listeners and their stream parser are installed. */
    var wired: set<nat>
    /** The number of sockets dialled so far; the next one is `Own(nextDial)`. */
    var nextDial: nat
    var reqQueue: seq<Item>
    var pendingReq: map<Key, Item>
    var trace: seq<Effect>

    /** `self.sock.connecting` for a socket the client holds. */
    predicate Connecting(c: Conn)
      reads this
    {
      match c
      case Borrowed => borrowedConnecting
      case Own(n) => n in connecting
    }

    /** The frame a drained notification goes out with: the connection
        is ended with it unless it is reused. */
    function NotificationFrame(): FrameKind {
      if reuseConnection then WriteFrame else EndFrame
    }

    ghost predicate Valid()
      reads this
    {
      && (borrowed ==> reuseConnection && sock == Some(Borrowed))
      && (!borrowed ==> sock.None? || sock.value.Own?)
      && (!reuseConnection ==> sock.None?)
      && (sock.Some? && sock.value.Own? ==> sock.value.n in connecting + wired)
      && connecting !! wired
      && (forall n :: n in connecting ==> n < nextDial)
      && (forall n :: n in wired ==> n < nextDial)
      && PendingOk(pendingReq)
      // While requests wait in the queue, some dialled socket's connect
      // callback is still to run and will drain it, or the socket is
      // borrowed. A borrowed socket's connect is not listened for, so its
      // queue waits for the next request to drain it.
      && (reqQueue != [] ==> connecting != {} || borrowed)
    }

    /** `new ClientTcp(options)`. */
    constructor (borrowSocket: bool, socketConnecting: bool, reuse: bool, version: Option<Json>,
                 server: Option<Json -> DispatchResult>, stringify: Json -> Result<string, Fault>)
      ensures Valid()
      ensures borrowed == borrowSocket && reuseConnection == (reuse || borrowSocket)
      ensures this.version == version && this.server == server && this.stringify == stringify
      ensures sock == (if borrowSocket then Some(Borrowed) else None)
      ensures borrowedConnecting == (borrowSocket && socketConnecting)
      ensures connecting == {} && wired == {} && nextDial == 0
      ensures reqQueue == [] && pendingReq == map[] && trace == []
    {
      borrowed := borrowSocket;
      reuseConnection := reuse || borrowSocket;
      this.version := version;
      this.server := server;
      this.stringify := stringify;
      sock := if borrowSocket then Some(Borrowed) else None;
      borrowedConnecting := borrowSocket && socketConnecting;
      connecting := {};
      wired := {};
      nextDial := 0;
      reqQueue := [];
      pendingReq := map[];
      trace := [];
    }

    /** `execute(conn)`: empties the queue in FIFO order onto `conn`. */
    method Drain(conn: Conn)
      requires PendingOk(pendingReq)
      modifies this
      ensures reqQueue == []
      ensures pendingReq == DrainPending(old(reqQueue), old(pendingReq))
      ensures trace == old(trace) + DrainEffects(old(reqQueue), conn, NotificationFrame(), WriteFrame)
      ensures PendingOk(pendingReq)
      ensures sock == old(sock) && borrowedConnecting == old(borrowedConnecting)
      ensures connecting == old(connecting) && wired == old(wired) && nextDial == old(nextDial)
    {
      DrainKeepsPendingOk(reqQueue, pendingReq);
      var tracked, effects := Execute(reqQueue, pendingReq, conn, NotificationFrame(), WriteFrame);
      reqQueue, pendingReq, trace := [], tracked, trace + effects;
    }

    /** `ClientTcp.prototype._request(request, callback)`: serialises the
        request, queues it, and drains the queue onto a connected socket,
        waits for a connecting one, or dials a new one. */
    method Request(request: Json, callback: nat)
      requires Valid()
      modifies this
      ensures Valid()
      ensures stringify(request).Failure? ==>
                && trace == old(trace) + [Complete(callback, Failed(Some(Thrown(stringify(request).error))))]
                && reqQueue == old(reqQueue) && pendingReq == old(pendingReq)
                && sock == old(sock) && connecting == old(connecting) && nextDial == old(nextDial)
      ensures stringify(request).Success? ==>
                var queued := old(reqQueue) + [Item(request, callback, stringify(request).value)];
                if old(sock).Some? && !old(Connecting(sock.value)) then
                  && reqQueue == []
                  && pendingReq == DrainPending(queued, old(pendingReq))
                  && trace == old(trace) + DrainEffects(queued, old(sock).value, NotificationFrame(), WriteFrame)
                  && sock == old(sock) && connecting == old(connecting) && nextDial == old(nextDial)
                else if old(sock).Some? then
                  && reqQueue == queued && pendingReq == old(pendingReq) && trace == old(trace)
                  && sock == old(sock) && connecting == old(connecting) && nextDial == old(nextDial)
                else
                  && reqQueue == queued && pendingReq == old(pendingReq)
                  && trace == old(trace) + [Dial(Own(old(nextDial)))]
                  && connecting == old(connecting) + {old(nextDial)} && nextDial == old(nextDial) + 1
                  && sock == (if reuseConnection then Some(Own(old(nextDial))) else None)
      ensures wired == old(wired) && borrowedConnecting == old(borrowedConnecting)
    {
      match stringify(request)
      case Failure(err) =>
        trace := trace + [Complete(callback, Failed(Some(Thrown(err))))];
      case Success(body) =>
        reqQueue := reqQueue + [Item(request, callback, body)];
        if sock.Some? && !Connecting(sock.value) {
          Drain(sock.value);
        } else if sock.None? {
          var n := nextDial;
          nextDial := nextDial + 1;
          connecting := connecting + {n};
          trace := trace + [Dial(Own(n))];
          if reuseConnection {
            sock := Some(Own(n));
          }
        }
    }

    /** The connect callback of dialled socket `n`: installs its `error`
        and `end` listeners and its parser, then drains the queue onto it. */
    method OnConnect(n: nat)
      requires Valid() && n in connecting
      modifies this
      ensures Valid()
      ensures connecting == old(connecting) - {n} && wired == old(wired) + {n}
      ensures reqQueue == []
      ensures pendingReq == DrainPending(old(reqQueue), old(pendingReq))
      ensures trace == old(trace) + DrainEffects(old(reqQueue), Own(n), NotificationFrame(), WriteFrame)
      ensures sock == old(sock) && nextDial == old(nextDial) && borrowedConnecting == old(borrowedConnecting)
    {
      connecting := connecting - {n};
      wired := wired + {n};
      Drain(Own(n));
    }

    /** `_resolvePending(err)`: fails every pending request, in the order
        its keys are enumerated, then every queued one, first to last. */
    method ResolvePending(err: Option<Reason>) returns (ghost order: seq<Key>)
      requires PendingOk(pendingReq)
      modifies this
      ensures Enumerates(order, old(pendingReq).Keys)
      ensures pendingReq == map[] && reqQueue == []
      ensures trace == old(trace) + FailPending(order, old(pendingReq), err) + FailQueue(old(reqQueue), err)
      ensures sock == old(sock) && borrowedConnecting == old(borrowedConnecting)
      ensures connecting == old(connecting) && wired == old(wired) && nextDial == old(nextDial)
    {
      var failed, queued;
      order, failed := FailEntries(pendingReq, err);
      queued := FailQueued(reqQueue, err);
      pendingReq, reqQueue, trace := map[], [], trace + failed + queued;
    }

    /** The `error` listener of wired socket `n`: emits `tcp error`, then
        fails everything outstanding with the error. */
    method OnSocketError(n: nat, f: Fault) returns (ghost order: seq<Key>)
      requires Valid() && n in wired
      modifies this
      ensures Valid()
      ensures Enumerates(order, old(pendingReq).Keys)
      ensures pendingReq == map[] && reqQueue == []
      ensures trace == old(trace) + [Emit(TcpError(f))]
                       + FailPending(order, old(pendingReq), Some(Thrown(f))) + FailQueue(old(reqQueue), Some(Thrown(f)))
      ensures sock == old(sock) && connecting == old(connecting) && wired == old(wired) && nextDial == old(nextDial)
    {
      trace := trace + [Emit(TcpError(f))];
      order := ResolvePending(Some(Thrown(f)));
    }

    /** The `end` listener of wired socket `n`: fails everything
        outstanding with an undefined error. */
    method OnSocketEnd(n: nat) returns (ghost order: seq<Key>)
      requires Valid() && n in wired
      modifies this
      ensures Valid()
      ensures Enumerates(order, old(pendingReq).Keys)
      ensures pendingReq == map[] && reqQueue == []
      ensures trace == old(trace) + FailPending(order, old(pendingReq), None) + FailQueue(old(reqQueue), None)
      ensures sock == old(sock) && connecting == old(connecting) && wired == old(wired) && nextDial == old(nextDial)
    {
      order := ResolvePending(None);
    }

    /** `_onIncomingMessage(conn, err, msg)`: `incoming` is the parser's
        `err` or `msg`. A reply settles the pending request under its id;
        a request from the peer is emitted or dispatched. `raised` is set
        when the handler throws: on a `null` message (`msg.id`), and when
        the dispatcher's reply cannot be serialised. */
    method OnIncomingMessage(conn: Conn, incoming: Result<Json, Fault>) returns (raised: bool)
      requires Valid()
      modifies this
      ensures Valid()
      ensures incoming == Success(JNull) ==> raised && trace == old(trace) && pendingReq == old(pendingReq)
      ensures incoming.Failure? ==>
                !raised && pendingReq == old(pendingReq)
                && trace == old(trace) + (if reuseConnection then [] else [Effect.End(conn)])
      ensures incoming.Success? && incoming.value != JNull ==>
                var msg := incoming.value;
                var key := KeyOf(Get(msg, "id"));
                var ending := if reuseConnection then [] else [Effect.End(conn)];
                if key in old(pendingReq) then
                  && !raised
                  && pendingReq == old(pendingReq) - {key}
                  && trace == old(trace) + ending + [Complete(old(pendingReq)[key].callback, Replied(msg))]
                else
                  var h := Unsolicited(conn, msg, version, server, stringify, WriteFrame);
                  && raised == h.raised
                  && pendingReq == old(pendingReq)
                  && trace == old(trace) + ending + h.effects
      ensures reqQueue == old(reqQueue) && sock == old(sock) && borrowedConnecting == old(borrowedConnecting)
      ensures connecting == old(connecting) && wired == old(wired) && nextDial == old(nextDial)
    {
      if incoming == Success(JNull) {
        return true;
      }
      if !reuseConnection {
        trace := trace + [Effect.End(conn)];
      }
      raised := false;
      if incoming.Success? {
        var msg := incoming.value;
        var key := KeyOf(Get(msg, "id"));
        if key in pendingReq {
          var item := pendingReq[key];
          pendingReq := pendingReq - {key};
          trace := trace + [Complete(item.callback, Replied(msg))];
        } else {
          var h := Unsolicited(conn, msg, version, server, stringify, WriteFrame);
          trace := trace + h.effects;
          raised := h.raised;
        }
      }
    }

    /** `ClientTcp.prototype.end()`: ends the socket the client holds,
        unless it is borrowed. */
    method End()
      modifies this
      ensures trace == old(trace) + (if !borrowed && old(sock).Some? then [Effect.End(old(sock).value)] else [])
      ensures sock == old(sock) && reqQueue == old(reqQueue) && pendingReq == old(pendingReq)
      ensures connecting == old(connecting) && wired == old(wired) && nextDial == old(nextDial)
      ensures borrowedConnecting == old(borrowedConnecting)
    {
      if !borrowed && sock.Some? {
        trace := trace + [Effect.End(sock.value)];
      }
    }

    /** The borrowed socket finished connecting. The client does not
        listen for this: the queue is drained by the next request. */
    method BorrowedSocketConnected()
      requires Valid() && borrowed
      modifies this
      ensures Valid()
      ensures !borrowedConnecting
      ensures sock == old(sock) && reqQueue == old(reqQueue) && pendingReq == old(pendingReq) && trace == old(trace)
      ensures connecting == old(connecting) && wired == old(wired) && nextDial == old(nextDial)
    {
      borrowedConnecting := false;
    }
  }
}
