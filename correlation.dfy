/** The correlation engine the TCP client (lib/client/tcp.js) and the
    WebSocket client (lib/client/ws.js) share: queue items, the pending
    table keyed by request id, the log of what the client does to its
    transports and callbacks, and the specifications of the queue drain,
    of failure resolution and of the handling of an unsolicited message. */
module Correlation {
  import opened Wrappers
  import opened Json
  import opened Messages

  /** A transport handle: the one lent to the client through its options,
      or the `n`-th one the client opened itself. */
  datatype Conn = Borrowed | Own(n: nat)

  /** A property key of the `pendingReq` dictionary. JavaScript converts the
      id to a string, so the number 7 and the string "7" share a key. */
  datatype Key = Prop(name: string) | NumberKey(n: real) | ArrayKey(items: seq<Json>)

  /** `pendingReq[id]`'s key for an id that may be `undefined`. */
  function KeyOf(id: Option<Json>): Key {
    match id
    case None => Prop("undefined")
    case Some(JNull) => Prop("null")
    case Some(JBool(b)) => Prop(if b then "true" else "false")
    case Some(JStr(s)) => Prop(s)
    case Some(JNum(n)) => if IsIntegerNumber(n) then Prop(IntToString(n.Floor)) else NumberKey(n)
    case Some(JArr(a)) => ArrayKey(a)
    case Some(JObj(_)) => Prop("[object Object]")
  }

  /** `{ request, callback, body }`: the request, the caller's callback (by
      identity) and the serialised request. */
  datatype Item = Item(request: Json, callback: nat, body: string)

  /** The key `pendingReq[item.request.id]` uses. A batch has no `id`. */
  function ItemKey(it: Item): Key {
    KeyOf(Get(it.request, "id"))
  }

  /** What a failing callback receives: a thrown error, or an error object
      built by the client. */
  datatype Reason = Thrown(fault: Fault) | ErrorObj(error: Json)

  /** How a callback is invoked: `callback()`, `callback(err)` (with `err`
      possibly `undefined`, i.e. `None`) or `callback(null, msg)`. */
  datatype Outcome = NoArgs | Failed(reason: Option<Reason>) | Replied(msg: Json)

  /** The events a client emits. */
  datatype Event = RxNotification(msg: Json) | RxRequest(msg: Json) | TcpError(fault: Fault) | WsError(error: Json)

  /** One observable action of a client, in the order it happens. */
  datatype Effect =
    | Write(conn: Conn, body: string)      // conn.write(body)
    | EndWith(conn: Conn, body: string)    // conn.end(body)
    | End(conn: Conn)                      // conn.end()
    | Dial(conn: Conn)                     // net.connect(...)
    | Create(conn: Conn)                   // new WebSocket(...)
    | Send(conn: Conn, body: string)       // wsock.send(body)
    | Close(conn: Conn, code: Option<Json>, reason: Option<Json>)  // wsock.close(code, reason)
    | Complete(callback: nat, outcome: Outcome)
    | Emit(event: Event)

  /** The transport call a frame goes out with. */
  datatype FrameKind = WriteFrame | EndFrame | SendFrame

  function Frame(kind: FrameKind, conn: Conn, body: string): Effect {
    match kind
    case WriteFrame => Write(conn, body)
    case EndFrame => EndWith(conn, body)
    case SendFrame => Send(conn, body)
  }

  predicate IsFrame(e: Effect) {
    e.Write? || e.EndWith? || e.Send?
  }

  /** The bodies of the frames in a log, in order. */
  function FrameBodies(log: seq<Effect>): seq<string> {
    if log == [] then []
    else FrameBodies(log[..|log| - 1]) + (if IsFrame(log[|log| - 1]) then [log[|log| - 1].body] else [])
  }

  /** The completions in a log, in order. */
  function Completions(log: seq<Effect>): seq<Effect> {
    if log == [] then []
    else Completions(log[..|log| - 1]) + (if log[|log| - 1].Complete? then [log[|log| - 1]] else [])
  }

  // ---------------------------------------------------------------------
  // The pending table

  /** Every entry sits under its own request's key and is not a
      notification. */
  ghost predicate PendingOk(p: map<Key, Item>) {
    forall k :: k in p ==> ItemKey(p[k]) == k && !IsNotification(p[k].request)
  }

  // ---------------------------------------------------------------------
  // The drain (`execute(conn)`)

  /** Handling one item: a notification is framed with `notification` and
      completed at once with no arguments; any other item is framed with
      `request` (after it has entered the table). */
  function DrainStep(it: Item, conn: Conn, notification: FrameKind, request: FrameKind): seq<Effect> {
    if IsNotification(it.request) then [Frame(notification, conn, it.body), Complete(it.callback, NoArgs)]
    else [Frame(request, conn, it.body)]
  }

  /** The log of draining `q` in order. */
  function DrainEffects(q: seq<Item>, conn: Conn, notification: FrameKind, request: FrameKind): seq<Effect> {
    if q == [] then []
    else DrainEffects(q[..|q| - 1], conn, notification, request) + DrainStep(q[|q| - 1], conn, notification, request)
  }

  /** `self.pendingReq[item.request.id] = item` for one item. */
  function Track(p: map<Key, Item>, it: Item): map<Key, Item> {
    if IsNotification(it.request) then p else p[ItemKey(it) := it]
  }

  /** The table after draining `q` in order. */
  function DrainPending(q: seq<Item>, p: map<Key, Item>): map<Key, Item> {
    if q == [] then p else Track(DrainPending(q[..|q| - 1], p), q[|q| - 1])
  }

  function Bodies(q: seq<Item>): seq<string> {
    if q == [] then [] else Bodies(q[..|q| - 1]) + [q[|q| - 1].body]
  }

  /** The completions the drain owes: one `callback()` per notification. */
  function NotificationCompletions(q: seq<Item>): seq<Effect> {
    if q == [] then []
    else NotificationCompletions(q[..|q| - 1])
         + (if IsNotification(q[|q| - 1].request) then [Complete(q[|q| - 1].callback, NoArgs)] else [])
  }

  lemma {:induction false} FrameBodiesAppend(a: seq<Effect>, b: seq<Effect>)
    ensures FrameBodies(a + b) == FrameBodies(a) + FrameBodies(b)
    decreases |b|
  {
    if b == [] {
      assert a + b == a;
    } else {
      assert (a + b)[..|a + b| - 1] == a + b[..|b| - 1];
      FrameBodiesAppend(a, b[..|b| - 1]);
    }
  }

  lemma {:induction false} CompletionsAppend(a: seq<Effect>, b: seq<Effect>)
    ensures Completions(a + b) == Completions(a) + Completions(b)
    decreases |b|
  {
    if b == [] {
      assert a + b == a;
    } else {
      assert (a + b)[..|a + b| - 1] == a + b[..|b| - 1];
      CompletionsAppend(a, b[..|b| - 1]);
    }
  }

  lemma StepFrameBodies(it: Item, conn: Conn, notification: FrameKind, request: FrameKind)
    ensures FrameBodies(DrainStep(it, conn, notification, request)) == [it.body]
  {
    var f := Frame(if IsNotification(it.request) then notification else request, conn, it.body);
    assert IsFrame(f) && f.body == it.body && !f.Complete?;
    if IsNotification(it.request) {
      var c := Complete(it.callback, NoArgs);
      assert DrainStep(it, conn, notification, request) == [f, c];
      assert [f, c][..1] == [f] && [f][..0] == [];
      assert FrameBodies([f]) == [f.body];
      assert FrameBodies([f, c]) == FrameBodies([f]);
    } else {
      assert [f][..0] == [];
      assert FrameBodies([f]) == [f.body];
    }
  }

  lemma StepCompletions(it: Item, conn: Conn, notification: FrameKind, request: FrameKind)
    ensures Completions(DrainStep(it, conn, notification, request))
            == (if IsNotification(it.request) then [Complete(it.callback, NoArgs)] else [])
  {
    var f := Frame(if IsNotification(it.request) then notification else request, conn, it.body);
    assert IsFrame(f) && f.body == it.body && !f.Complete?;
    if IsNotification(it.request) {
      var c := Complete(it.callback, NoArgs);
      assert DrainStep(it, conn, notification, request) == [f, c];
      assert [f, c][..1] == [f] && [f][..0] == [];
      assert Completions([f]) == [];
      assert Completions([f, c]) == [c];
    } else {
      assert [f][..0] == [];
      assert Completions([f]) == [];
    }
  }

  /** FIFO: the frames a drain writes carry the queued bodies in the order
      they were enqueued, one frame per item. */
  lemma {:induction false} DrainWritesInOrder(q: seq<Item>, conn: Conn, notification: FrameKind, request: FrameKind)
    ensures FrameBodies(DrainEffects(q, conn, notification, request)) == Bodies(q)
  {
    if q != [] {
      var init := q[..|q| - 1];
      DrainWritesInOrder(init, conn, notification, request);
      FrameBodiesAppend(DrainEffects(init, conn, notification, request), DrainStep(q[|q| - 1], conn, notification, request));
      StepFrameBodies(q[|q| - 1], conn, notification, request);
    }
  }

  /** Exactly the notifications are completed by the drain, in order and
      with no arguments; the other items complete only later. */
  lemma {:induction false} DrainCompletesNotifications(q: seq<Item>, conn: Conn, notification: FrameKind, request: FrameKind)
    ensures Completions(DrainEffects(q, conn, notification, request)) == NotificationCompletions(q)
  {
    if q != [] {
      var init := q[..|q| - 1];
      DrainCompletesNotifications(init, conn, notification, request);
      CompletionsAppend(DrainEffects(init, conn, notification, request), DrainStep(q[|q| - 1], conn, notification, request));
      StepCompletions(q[|q| - 1], conn, notification, request);
    }
  }

  /** The drain keeps the table well formed: notifications never enter
      it, every other drained item's key is in the table, no key is
      dropped, and every new entry is one of the drained items. */
  lemma {:induction false} DrainKeepsPendingOk(q: seq<Item>, p: map<Key, Item>)
    requires PendingOk(p)
    ensures PendingOk(DrainPending(q, p))
    ensures p.Keys <= DrainPending(q, p).Keys
    ensures forall i :: 0 <= i < |q| && !IsNotification(q[i].request) ==> ItemKey(q[i]) in DrainPending(q, p)
    ensures forall k :: k in DrainPending(q, p) && k !in p ==> exists i :: 0 <= i < |q| && DrainPending(q, p)[k] == q[i]
  {
    if q != [] {
      var init := q[..|q| - 1];
      DrainKeepsPendingOk(init, p);
      var before := DrainPending(init, p);
      forall i | 0 <= i < |q| && !IsNotification(q[i].request)
        ensures ItemKey(q[i]) in DrainPending(q, p)
      {
        if i < |q| - 1 { assert q[i] == init[i]; }
      }
      forall k | k in DrainPending(q, p) && k !in p
        ensures exists i :: 0 <= i < |q| && DrainPending(q, p)[k] == q[i]
      {
        if k in before && DrainPending(q, p)[k] == before[k] {
          var i :| 0 <= i < |init| && before[k] == init[i];
          assert init[i] == q[i];
        } else {
          assert DrainPending(q, p)[k] == q[|q| - 1];
        }
      }
    }
  }

  /** `q[i]` is a request that no later request of `q` shares a key with. */
  ghost predicate LastUnderKey(q: seq<Item>, i: int)
    requires 0 <= i < |q|
  {
    && !IsNotification(q[i].request)
    && forall j :: i < j < |q| && !IsNotification(q[j].request) ==> ItemKey(q[j]) != ItemKey(q[i])
  }

  /** `pendingReq[id] = item` overwrites: after the drain each key holds
      the last request drained under it, and a key no drained request
      uses keeps its old entry. */
  lemma {:induction false} DrainLastWriteWins(q: seq<Item>, p: map<Key, Item>)
    ensures forall i :: 0 <= i < |q| && LastUnderKey(q, i) ==>
              ItemKey(q[i]) in DrainPending(q, p) && DrainPending(q, p)[ItemKey(q[i])] == q[i]
    ensures forall k :: k in p && (forall i :: 0 <= i < |q| && !IsNotification(q[i].request) ==> ItemKey(q[i]) != k) ==>
              k in DrainPending(q, p) && DrainPending(q, p)[k] == p[k]
  {
    if q != [] {
      var init := q[..|q| - 1];
      var last := q[|q| - 1];
      DrainLastWriteWins(init, p);
      forall i | 0 <= i < |q| && LastUnderKey(q, i)
        ensures ItemKey(q[i]) in DrainPending(q, p) && DrainPending(q, p)[ItemKey(q[i])] == q[i]
      {
        if i < |q| - 1 {
          assert q[i] == init[i];
          forall j | i < j < |init| && !IsNotification(init[j].request)
            ensures ItemKey(init[j]) != ItemKey(init[i])
          {
            assert init[j] == q[j];
          }
          assert LastUnderKey(init, i);
        }
      }
      forall k | k in p && (forall i :: 0 <= i < |q| && !IsNotification(q[i].request) ==> ItemKey(q[i]) != k)
        ensures k in DrainPending(q, p) && DrainPending(q, p)[k] == p[k]
      {
        forall i | 0 <= i < |init| && !IsNotification(init[i].request)
          ensures ItemKey(init[i]) != k
        {
          assert init[i] == q[i];
        }
      }
    }
  }

  /** Two requests drained under one key leave only the later one in the
      table: the earlier one's callback is completed neither by a reply
      nor by failure resolution. */
  lemma SharedKeyReplacesEarlierRequest(x: Item, y: Item)
    requires !IsNotification(x.request) && !IsNotification(y.request) && ItemKey(x) == ItemKey(y)
    ensures DrainPending([x, y], map[]) == map[ItemKey(y) := y]
  {
    assert [x, y][..1] == [x] && [x][..0] == [];
    assert DrainPending([x], map[]) == map[ItemKey(x) := x];
    assert DrainPending([x, y], map[]) == map[ItemKey(x) := x][ItemKey(y) := y];
  }

  /** The loop of `execute(conn)` on the values of `self.reqQueue` and
      `self.pendingReq`: shifts every item off the queue, tracks each
      request, frames each body on `conn` and completes each notification. */
  method Execute(queue: seq<Item>, pending: map<Key, Item>, conn: Conn, notification: FrameKind, request: FrameKind)
    returns (tracked: map<Key, Item>, effects: seq<Effect>)
    ensures tracked == DrainPending(queue, pending)
    ensures effects == DrainEffects(queue, conn, notification, request)
  {
    ghost var i := 0;
    var q := queue;
    tracked, effects := pending, [];
    while q != []
      invariant 0 <= i <= |queue|
      invariant q == queue[i..]
      invariant tracked == DrainPending(queue[..i], pending)
      invariant effects == DrainEffects(queue[..i], conn, notification, request)
      decreases |q|
    {
      var item := q[0];
      q := q[1..];
      assert queue[..i + 1][..i] == queue[..i] && queue[..i + 1][i] == item;
      if IsNotification(item.request) {
        effects := effects + [Frame(notification, conn, item.body), Complete(item.callback, NoArgs)];
      } else {
        tracked := tracked[ItemKey(item) := item];
        effects := effects + [Frame(request, conn, item.body)];
      }
      i := i + 1;
    }
    assert queue[..i] == queue;
  }

  /** A notification is never tracked, so a reply to it finds nothing. */
  lemma NotificationNeverTracked(p: map<Key, Item>, it: Item)
    requires IsNotification(it.request)
    ensures Track(p, it) == p
  {
  }

  // ---------------------------------------------------------------------
  // Failure resolution (`_resolvePending(err)`)

  /** `order` lists the keys of the table, each exactly once (the order of
      `Object.keys`). */
  ghost predicate Enumerates(order: seq<Key>, keys: set<Key>) {
    && (forall i, j :: 0 <= i < j < |order| ==> order[i] != order[j])
    && (forall i :: 0 <= i < |order| ==> order[i] in keys)
    && (forall k :: k in keys ==> k in order)
  }

  /** `callback(err)` for each pending entry, in the order `order`. */
  function FailPending(order: seq<Key>, p: map<Key, Item>, err: Option<Reason>): (r: seq<Effect>)
    requires forall i :: 0 <= i < |order| ==> order[i] in p
    ensures |r| == |order|
  {
    if order == [] then []
    else FailPending(order[..|order| - 1], p, err) + [Complete(p[order[|order| - 1]].callback, Failed(err))]
  }

  /** `callback(err)` for each queued item, first to last. */
  function FailQueue(q: seq<Item>, err: Option<Reason>): (r: seq<Effect>)
    ensures |r| == |q|
  {
    if q == [] then [] else FailQueue(q[..|q| - 1], err) + [Complete(q[|q| - 1].callback, Failed(err))]
  }

  /** The `i`-th completion of the table's failure is entry `order[i]`'s. */
  lemma {:induction false} FailPendingAt(order: seq<Key>, p: map<Key, Item>, err: Option<Reason>)
    requires forall i :: 0 <= i < |order| ==> order[i] in p
    ensures forall i :: 0 <= i < |order| ==> FailPending(order, p, err)[i] == Complete(p[order[i]].callback, Failed(err))
  {
    if order != [] {
      FailPendingAt(order[..|order| - 1], p, err);
    }
  }

  /** The `i`-th completion of the queue's failure is item `i`'s. */
  lemma {:induction false} FailQueueAt(q: seq<Item>, err: Option<Reason>)
    ensures forall i :: 0 <= i < |q| ==> FailQueue(q, err)[i] == Complete(q[i].callback, Failed(err))
  {
    if q != [] {
      FailQueueAt(q[..|q| - 1], err);
    }
  }

  /** An enumeration of a set has as many elements as the set. */
  lemma {:induction false} EnumerationSize(order: seq<Key>, keys: set<Key>)
    requires Enumerates(order, keys)
    ensures |order| == |keys|
    decreases |order|
  {
    if order == [] {
      assert keys == {};
    } else {
      var last := order[|order| - 1];
      var init := order[..|order| - 1];
      assert Enumerates(init, keys - {last}) by {
        forall k | k in keys - {last} ensures k in init {
          var i :| 0 <= i < |order| && order[i] == k;
          assert i != |order| - 1;
        }
      }
      EnumerationSize(init, keys - {last});
    }
  }

  /** Failure resolution completes every pending entry, then every queued
      item, each exactly once and with `err`, and writes nothing: there is
      one completion per entry and per item, the entry completions follow
      an enumeration of the keys, and the queue completions keep FIFO
      order. */
  lemma FailAllOnce(order: seq<Key>, p: map<Key, Item>, q: seq<Item>, err: Option<Reason>)
    requires Enumerates(order, p.Keys)
    ensures |order| == |p|
    ensures |FailPending(order, p, err) + FailQueue(q, err)| == |p| + |q|
    ensures forall i :: 0 <= i < |order| ==>
              (FailPending(order, p, err) + FailQueue(q, err))[i] == Complete(p[order[i]].callback, Failed(err))
    ensures forall j :: 0 <= j < |q| ==>
              (FailPending(order, p, err) + FailQueue(q, err))[|order| + j] == Complete(q[j].callback, Failed(err))
  {
    EnumerationSize(order, p.Keys);
    assert |p| == |p.Keys|;
    var pending, queued := FailPending(order, p, err), FailQueue(q, err);
    var all := pending + queued;
    FailPendingAt(order, p, err);
    forall i | 0 <= i < |order|
      ensures all[i] == Complete(p[order[i]].callback, Failed(err))
    {
      assert all[i] == pending[i];
    }
    FailQueueAt(q, err);
    forall j | 0 <= j < |q|
      ensures all[|order| + j] == Complete(q[j].callback, Failed(err))
    {
      assert all[|order| + j] == queued[j];
    }
  }

  /** The first loop of `_resolvePending(err)`: takes the keys of the
      table one at a time, in an order the model leaves open, and calls
      each entry's callback with `err`. */
  method FailEntries(pending: map<Key, Item>, err: Option<Reason>) returns (ghost order: seq<Key>, effects: seq<Effect>)
    ensures Enumerates(order, pending.Keys)
    ensures effects == FailPending(order, pending, err)
  {
    var left := pending.Keys;
    order, effects := [], [];
    while left != {}
      invariant left <= pending.Keys
      invariant forall i :: 0 <= i < |order| ==> order[i] in pending && order[i] !in left
      invariant forall i, j :: 0 <= i < j < |order| ==> order[i] != order[j]
      invariant forall k :: k in pending ==> k in left || k in order
      invariant effects == FailPending(order, pending, err)
      decreases |left|
    {
      var id :| id in left;
      FailPendingStep(order, id, pending, err);
      effects := effects + [Complete(pending[id].callback, Failed(err))];
      left := left - {id};
      order := order + [id];
    }
  }

  /** Failing one more key appends that entry's completion. */
  lemma FailPendingStep(order: seq<Key>, id: Key, p: map<Key, Item>, err: Option<Reason>)
    requires forall i :: 0 <= i < |order| ==> order[i] in p
    requires id in p
    ensures FailPending(order + [id], p, err) == FailPending(order, p, err) + [Complete(p[id].callback, Failed(err))]
  {
    assert (order + [id])[..|order|] == order;
  }

  /** The second loop of `_resolvePending(err)`: shifts every item off
      the queue and calls its callback with `err`. */
  method FailQueued(queue: seq<Item>, err: Option<Reason>) returns (effects: seq<Effect>)
    ensures effects == FailQueue(queue, err)
  {
    ghost var i := 0;
    var q := queue;
    effects := [];
    while q != []
      invariant 0 <= i <= |queue|
      invariant q == queue[i..]
      invariant effects == FailQueue(queue[..i], err)
      decreases |q|
    {
      var elt := q[0];
      q := q[1..];
      assert queue[..i + 1][..i] == queue[..i] && queue[..i + 1][i] == elt;
      effects := effects + [Complete(elt.callback, Failed(err))];
      i := i + 1;
    }
    assert queue[..i] == queue;
  }

  // ---------------------------------------------------------------------
  // An incoming message that matches no pending entry

  /** What the client does with an unmatched incoming message `msg` on
      `conn`, and whether it throws. A valid request is emitted when no
      dispatcher is configured; otherwise the dispatcher's truthy reply is
      serialised and framed back on `conn` (a failure to serialise reaches
      the error-reply helper, which throws before writing). Anything else
      is dropped. */
  datatype Handling = Handling(effects: seq<Effect>, raised: bool)

  function Unsolicited(conn: Conn, msg: Json, version: Option<Json>, server: Option<Json -> DispatchResult>,
                       stringify: Json -> Result<string, Fault>, kind: FrameKind): (h: Handling)
    ensures !IsValidRequest(msg, version) ==> h == Handling([], false)
    ensures server.None? && IsValidRequest(msg, version) ==>
              h == Handling([Emit(if IsNotification(msg) then RxNotification(msg) else RxRequest(msg))], false)
    ensures |h.effects| <= 1
    ensures forall e :: e in h.effects && IsFrame(e) ==>
              && server.Some?
              && var reply := Reply(server.value(msg));
              && TruthyOpt(reply) && stringify(reply.value).Success?
              && e == Frame(kind, conn, stringify(reply.value).value)
    ensures h.raised ==> server.Some? && TruthyOpt(Reply(server.value(msg))) && stringify(Reply(server.value(msg)).value).Failure?
    ensures server.Some? && IsValidRequest(msg, version) ==>
              var reply := Reply(server.value(msg));
              && (!TruthyOpt(reply) ==> h == Handling([], false))
              && (TruthyOpt(reply) && stringify(reply.value).Success? ==>
                    h == Handling([Frame(kind, conn, stringify(reply.value).value)], false))
              && (TruthyOpt(reply) && stringify(reply.value).Failure? ==> h.raised && h.effects == [])
  {
    if !IsValidRequest(msg, version) then Handling([], false)
    else if server.None? then
      Handling([Emit(if IsNotification(msg) then RxNotification(msg) else RxRequest(msg))], false)
    else
      var reply := Reply(server.value(msg));
      if !TruthyOpt(reply) then Handling([], false)
      else match stringify(reply.value)
           case Success(body) => Handling([Frame(kind, conn, body)], false)
           case Failure(_) => Handling([], true)
  }

  /** A valid request handed to a dispatcher is answered, by one frame or
      by a throw, exactly when the dispatcher's reply is truthy. With a
      faithful serialisation the peer parses back the dispatcher's error
      when it is truthy, and its success value otherwise. */
  lemma UnsolicitedReplyRoundTrips(conn: Conn, msg: Json, version: Option<Json>, server: Json -> DispatchResult,
                                   parse: string -> Result<Json, Fault>, stringify: Json -> Result<string, Fault>,
                                   kind: FrameKind)
    requires IsValidRequest(msg, version)
    requires forall j :: stringify(j).Success? ==> parse(stringify(j).value) == Success(j)
    ensures var h := Unsolicited(conn, msg, version, Some(server), stringify, kind);
            && (h.effects != [] || h.raised <==> TruthyOpt(server(msg).error) || TruthyOpt(server(msg).success))
            && (h.effects != [] ==>
                  && |h.effects| == 1 && IsFrame(h.effects[0]) && h.effects[0].conn == conn
                  && (TruthyOpt(server(msg).error) ==> parse(h.effects[0].body) == Success(server(msg).error.value))
                  && (!TruthyOpt(server(msg).error) ==> parse(h.effects[0].body) == Success(server(msg).success.value)))
  {
    var h := Unsolicited(conn, msg, version, Some(server), stringify, kind);
    var reply := Reply(server(msg));
    if h.effects != [] {
      var body := stringify(reply.value).value;
      assert h.effects[0] == Frame(kind, conn, body);
      assert h.effects[0].body == body;
    }
  }

  /** Because the table is keyed by the id converted to a string, a reply
      whose id is the decimal string of an integral number (for instance
      "7") is taken as the reply to a request whose id is that number. */
  lemma NumericAndStringIdsShareKey(n: real, s: string)
    requires IsIntegerNumber(n) && s == IntToString(n.Floor)
    ensures KeyOf(Some(JNum(n))) == KeyOf(Some(JStr(s)))
    ensures KeyOf(Some(JNum(7.0))) == KeyOf(Some(JStr("7")))
    ensures KeyOf(None) == KeyOf(Some(JStr("undefined")))
  {
    assert (7.0).Floor == 7;
    assert NatToString(7) == "7";
  }
}
