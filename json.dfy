/** JSON values as JavaScript sees them after `JSON.parse`, with the few
    pieces of JavaScript semantics the message model relies on:
    truthiness, `typeof ... === 'object'`, property reads and writes,
    and the integer test that `parseInt(x, 10) === x` performs. */
module Json {
  import opened Wrappers

  /** An object is an association list in insertion order, which is the
      order `for..in` visits and `JSON.stringify` writes its keys. */
  datatype Json =
    | JNull
    | JBool(b: bool)
    | JNum(n: real)
    | JStr(s: string)
    | JArr(items: seq<Json>)
    | JObj(fields: seq<(string, Json)>)

  /** JavaScript's `Boolean(v)`. */
  predicate Truthy(v: Json) {
    match v
    case JNull => false
    case JBool(b) => b
    case JNum(n) => n != 0.0
    case JStr(s) => s != ""
    case JArr(_) => true
    case JObj(_) => true
  }

  /** `Boolean(v)` where `v` may be `undefined`. */
  predicate TruthyOpt(v: Option<Json>) {
    v.Some? && Truthy(v.value)
  }

  /** `typeof v === 'object'`: null, arrays and objects. */
  predicate IsObjectType(v: Json) {
    v.JNull? || v.JArr? || v.JObj?
  }

  /** `a || b`: `a` when it is truthy, otherwise `b`. */
  function Or(a: Option<Json>, b: Option<Json>): (r: Option<Json>)
    ensures TruthyOpt(r) <==> TruthyOpt(a) || TruthyOpt(b)
  {
    if TruthyOpt(a) then a else b
  }

  /** The first binding of `key` in an association list. */
  function Lookup(fields: seq<(string, Json)>, key: string): Option<Json> {
    if fields == [] then None
    else if fields[0].0 == key then Some(fields[0].1)
    else Lookup(fields[1..], key)
  }

  /** The property read `v[key]` for the properties the model reads
      (`id`, `method`, `params`, `jsonrpc`, `code`, `message`): own
      properties of an object; no other JSON value has them. */
  function Get(v: Json, key: string): Option<Json> {
    if v.JObj? then Lookup(v.fields, key) else None
  }

  /** The keys of an association list, in order. */
  function KeysOf(fields: seq<(string, Json)>): seq<string> {
    if fields == [] then [] else [fields[0].0] + KeysOf(fields[1..])
  }

  /** The property assignment `obj[key] = value`: an existing key keeps its
      place, a new key goes last. */
  function Put(fields: seq<(string, Json)>, key: string, value: Json): (r: seq<(string, Json)>)
    ensures Lookup(r, key) == Some(value)
    ensures forall k :: k != key ==> Lookup(r, k) == Lookup(fields, k)
  {
    if fields == [] then [(key, value)]
    else if fields[0].0 == key then [(key, value)] + fields[1..]
    else [fields[0]] + Put(fields[1..], key, value)
  }

  /** Assignment keeps an existing key in its place and puts a new key
      last. */
  lemma {:induction false} PutKeys(fields: seq<(string, Json)>, key: string, value: Json)
    ensures KeysOf(Put(fields, key, value)) == if key in KeysOf(fields) then KeysOf(fields) else KeysOf(fields) + [key]
  {
    if fields != [] && fields[0].0 != key {
      PutKeys(fields[1..], key, value);
      assert key in KeysOf(fields) <==> key in KeysOf(fields[1..]);
    }
  }

  /** A real that `parseInt(String(x), 10) === x` accepts: an integer small
      enough that `String` writes it without an exponent (below 1e21). */
  predicate IsIntegerNumber(x: real) {
    x == x.Floor as real && -1000000000000000000000.0 < x < 1000000000000000000000.0
  }

  /** The decimal digits of a natural number, as `String(n)` writes them. */
  function NatToString(n: nat): (s: string)
    ensures |s| >= 1
    ensures forall i :: 0 <= i < |s| ==> '0' <= s[i] <= '9'
  {
    if n < 10 then [Digit(n)] else NatToString(n / 10) + [Digit(n % 10)]
  }

  function Digit(d: nat): (c: char)
    requires d < 10
    ensures '0' <= c <= '9'
  {
    "0123456789"[d]
  }

  /** `String(i)` for an integer. */
  function IntToString(i: int): string {
    if i < 0 then "-" + NatToString(-i) else NatToString(i)
  }

  /** A thrown JavaScript `Error` (or `TypeError`, ...), by its name and message. */
  datatype Fault = Fault(name: string, message: string)

  /** `String(err)` for an error, as `Error.prototype.toString` writes it. */
  function ErrorText(f: Fault): string {
    if f.name == "" then f.message
    else if f.message == "" then f.name
    else f.name + ": " + f.message
  }
}
