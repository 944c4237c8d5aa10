/** `Utils.walk(holder, key, fn)` of lib/utils.js: a post-order rewrite of a
    parsed JSON value. Each child of an array or object is walked first and
    then replaced by the result, or deleted when the result is `undefined`;
    last, `fn` is applied to the key and the rewritten value. */
module Walk {
  import opened Wrappers
  import opened Json

  /** The reviver `fn`, as a function of the key and the value it is
      handed; `None` is a return of `undefined`. The `this` binding (the
      holder) is not modelled. */
  type Reviver = (string, Json) -> Option<Json>

  /** One application `fn(key, value)`. */
  datatype Call = Call(key: string, value: Json)

  /** The key `for..in` hands out for array index `i`. */
  function IndexKey(i: nat): string {
    NatToString(i)
  }

  /** The array slot left by a child whose walk returned `undefined`.
      JavaScript leaves a hole there; the model writes `null`, which is
      what `JSON.stringify` emits for a hole. */
  function OrHole(w: Option<Json>): Json {
    if w.Some? then w.value else JNull
  }

  // ---------------------------------------------------------------------
  // The specification: the rewritten value and the sequence of calls.
  // Functions over the children of `v` take `v` itself and a count `n`
  // of children already visited, so that termination is by `v`.

  /** `v` after all its children have been walked and replaced or deleted. */
  function Walked(v: Json, fn: Reviver): Json
    decreases v, 1, 0
  {
    match v
    case JArr(items) => JArr(ItemsWalked(v, |items|, fn))
    case JObj(fields) => JObj(FieldsWalked(v, |fields|, fn))
    case _ => v
  }

  /** What `walk` returns for `holder[key] == v`. */
  function WalkResult(key: string, v: Json, fn: Reviver): Option<Json>
    decreases v, 2, 0
  {
    fn(key, Walked(v, fn))
  }

  /** The first `n` slots of the rewritten array. */
  function ItemsWalked(v: Json, n: nat, fn: Reviver): seq<Json>
    requires v.JArr? && n <= |v.items|
    decreases v, 0, n
  {
    if n == 0 then []
    else ItemsWalked(v, n - 1, fn) + [OrHole(WalkResult(IndexKey(n - 1), v.items[n - 1], fn))]
  }

  /** The rewritten form of the first `n` fields: a field is kept with its
      walked value, or dropped when that value is `undefined`. */
  function FieldsWalked(v: Json, n: nat, fn: Reviver): seq<(string, Json)>
    requires v.JObj? && n <= |v.fields|
    decreases v, 0, n
  {
    if n == 0 then []
    else
      var (k, child) := v.fields[n - 1];
      var w := WalkResult(k, child, fn);
      FieldsWalked(v, n - 1, fn) + (if w.Some? then [(k, w.value)] else [])
  }

  /** The calls `walk(holder, key, fn)` makes, in order: those of each
      child in turn, then the one on `key` itself. */
  function Trace(key: string, v: Json, fn: Reviver): seq<Call>
    decreases v, 1, 0
  {
    (match v
     case JArr(items) => ItemsTrace(v, |items|, fn)
     case JObj(fields) => FieldsTrace(v, |fields|, fn)
     case _ => [])
    + [Call(key, Walked(v, fn))]
  }

  function ItemsTrace(v: Json, n: nat, fn: Reviver): seq<Call>
    requires v.JArr? && n <= |v.items|
    decreases v, 0, n
  {
    if n == 0 then [] else ItemsTrace(v, n - 1, fn) + Trace(IndexKey(n - 1), v.items[n - 1], fn)
  }

  function FieldsTrace(v: Json, n: nat, fn: Reviver): seq<Call>
    requires v.JObj? && n <= |v.fields|
    decreases v, 0, n
  {
    if n == 0 then [] else FieldsTrace(v, n - 1, fn) + Trace(v.fields[n - 1].0, v.fields[n - 1].1, fn)
  }

  /** The number of values in `v`, itself included. */
  function Size(v: Json): nat
    decreases v, 1, 0
  {
    1 + match v
        case JArr(items) => ItemsSize(v, |items|)
        case JObj(fields) => FieldsSize(v, |fields|)
        case _ => 0
  }

  function ItemsSize(v: Json, n: nat): nat
    requires v.JArr? && n <= |v.items|
    decreases v, 0, n
  {
    if n == 0 then 0 else ItemsSize(v, n - 1) + Size(v.items[n - 1])
  }

  function FieldsSize(v: Json, n: nat): nat
    requires v.JObj? && n <= |v.fields|
    decreases v, 0, n
  {
    if n == 0 then 0 else FieldsSize(v, n - 1) + Size(v.fields[n - 1].1)
  }

  // ---------------------------------------------------------------------
  // The walk itself, as the source performs it

  /** `walk(holder, key, fn)` where `holder[key]` is `value`: returns what
      `fn` returns and the calls made to `fn`, in order. The children of an
      array or object are rewritten in place: `value[k] = v` keeps the
      key's position, `delete value[k]` removes it. */
  method WalkValue(key: string, value: Json, fn: Reviver) returns (r: Option<Json>, calls: seq<Call>)
    ensures r == WalkResult(key, value, fn)
    ensures calls == Trace(key, value, fn)
    decreases value, 1
  {
    var current := value;
    calls := [];
    match value {
      case JArr(items) =>
        var slots;
        slots, calls := WalkItems(value, fn);
        current := JArr(slots);
      case JObj(fields) =>
        var obj;
        obj, calls := WalkFields(value, fn);
        current := JObj(obj);
      case _ =>
    }
    r := fn(key, current);
    calls := calls + [Call(key, current)];
  }

  /** The `for..in` loop over an array: each slot is replaced by its
      walked value. */
  method WalkItems(value: Json, fn: Reviver) returns (slots: seq<Json>, calls: seq<Call>)
    requires value.JArr?
    ensures slots == ItemsWalked(value, |value.items|, fn)
    ensures calls == ItemsTrace(value, |value.items|, fn)
    decreases value, 0
  {
    var items := value.items;
    slots := items;
    calls := [];
    var i := 0;
    while i < |items|
      invariant 0 <= i <= |items| && |slots| == |items|
      invariant slots[..i] == ItemsWalked(value, i, fn)
      invariant slots[i..] == items[i..]
      invariant calls == ItemsTrace(value, i, fn)
    {
      assert items[i] in items;
      var w, c := WalkValue(IndexKey(i), items[i], fn);
      slots := slots[i := OrHole(w)];
      calls := calls + c;
      assert slots[..i + 1] == slots[..i] + [OrHole(w)];
      i := i + 1;
    }
    assert slots == slots[..|items|];
  }

  /** The `for..in` loop over an object: each field is replaced in place
      by its walked value, or deleted when that is `undefined`. */
  method WalkFields(value: Json, fn: Reviver) returns (obj: seq<(string, Json)>, calls: seq<Call>)
    requires value.JObj?
    ensures obj == FieldsWalked(value, |value.fields|, fn)
    ensures calls == FieldsTrace(value, |value.fields|, fn)
    decreases value, 0
  {
    var fields := value.fields;
    obj := fields;
    calls := [];
    var kept := 0;
    var i := 0;
    while i < |fields|
      invariant 0 <= i <= |fields| && kept <= |obj|
      invariant obj[..kept] == FieldsWalked(value, i, fn)
      invariant obj[kept..] == fields[i..]
      invariant calls == FieldsTrace(value, i, fn)
    {
      assert fields[i] in fields;
      var (k, child) := fields[i];
      var w, c := WalkValue(k, child, fn);
      assert obj[kept] == fields[i];
      if w.Some? {
        obj := obj[kept := (k, w.value)];
        assert obj[..kept + 1] == obj[..kept] + [(k, w.value)];
        kept := kept + 1;
      } else {
        obj := obj[..kept] + obj[kept + 1..];
      }
      calls := calls + c;
      i := i + 1;
    }
    assert obj == obj[..kept] + obj[kept..] && obj[kept..] == [];
  }

  // ---------------------------------------------------------------------
  // Properties

  /** `fn` is called exactly once per value in the tree: once for every
      own property at every depth, and once for the root. */
  lemma {:induction false} TraceCountsEveryValue(key: string, v: Json, fn: Reviver)
    ensures |Trace(key, v, fn)| == Size(v)
    decreases v, 1, 0
  {
    match v
    case JArr(items) => ItemsTraceCount(v, |items|, fn);
    case JObj(fields) => FieldsTraceCount(v, |fields|, fn);
    case _ =>
  }

  lemma {:induction false} ItemsTraceCount(v: Json, n: nat, fn: Reviver)
    requires v.JArr? && n <= |v.items|
    ensures |ItemsTrace(v, n, fn)| == ItemsSize(v, n)
    decreases v, 0, n
  {
    if n > 0 {
      ItemsTraceCount(v, n - 1, fn);
      TraceCountsEveryValue(IndexKey(n - 1), v.items[n - 1], fn);
    }
  }

  lemma {:induction false} FieldsTraceCount(v: Json, n: nat, fn: Reviver)
    requires v.JObj? && n <= |v.fields|
    ensures |FieldsTrace(v, n, fn)| == FieldsSize(v, n)
    decreases v, 0, n
  {
    if n > 0 {
      FieldsTraceCount(v, n - 1, fn);
      TraceCountsEveryValue(v.fields[n - 1].0, v.fields[n - 1].1, fn);
    }
  }

  /** Post-order: the last call is the one on the root, and it sees the
      root with every child already rewritten. */
  lemma RootCalledLast(key: string, v: Json, fn: Reviver)
    ensures |Trace(key, v, fn)| >= 1
    ensures Trace(key, v, fn)[|Trace(key, v, fn)| - 1] == Call(key, Walked(v, fn))
    ensures WalkResult(key, v, fn) == fn(key, Trace(key, v, fn)[|Trace(key, v, fn)| - 1].value)
  {
  }

  /** A reviver that hands every value back unchanged makes `walk` the
      identity. */
  ghost predicate IsIdentity(fn: Reviver) {
    forall k, x :: fn(k, x) == Some(x)
  }

  lemma {:induction false} IdentityReviverKeepsValue(key: string, v: Json, fn: Reviver)
    requires IsIdentity(fn)
    ensures Walked(v, fn) == v
    ensures WalkResult(key, v, fn) == Some(v)
    decreases v, 1, 0
  {
    match v
    case JArr(items) =>
      ItemsIdentity(v, |items|, fn);
      assert items[..|items|] == items;
    case JObj(fields) =>
      FieldsIdentity(v, |fields|, fn);
      assert fields[..|fields|] == fields;
    case _ =>
  }

  lemma {:induction false} ItemsIdentity(v: Json, n: nat, fn: Reviver)
    requires IsIdentity(fn) && v.JArr? && n <= |v.items|
    ensures ItemsWalked(v, n, fn) == v.items[..n]
    decreases v, 0, n
  {
    if n > 0 {
      ItemsIdentity(v, n - 1, fn);
      IdentityReviverKeepsValue(IndexKey(n - 1), v.items[n - 1], fn);
      assert v.items[..n] == v.items[..n - 1] + [v.items[n - 1]];
    }
  }

  lemma {:induction false} FieldsIdentity(v: Json, n: nat, fn: Reviver)
    requires IsIdentity(fn) && v.JObj? && n <= |v.fields|
    ensures FieldsWalked(v, n, fn) == v.fields[..n]
    decreases v, 0, n
  {
    if n > 0 {
      FieldsIdentity(v, n - 1, fn);
      IdentityReviverKeepsValue(v.fields[n - 1].0, v.fields[n - 1].1, fn);
      assert v.fields[..n] == v.fields[..n - 1] + [v.fields[n - 1]];
    }
  }

  /** Replacement keeps every array slot, each holding its walked value.
      Deletion only removes object fields: the rewritten object keeps, in
      order, exactly the fields whose walk returned a value, each with that
      value, so it has at most as many fields, each an original key. */
  lemma {:induction false} WalkedShape(v: Json, fn: Reviver)
    ensures v.JArr? ==> Walked(v, fn).JArr? && |Walked(v, fn).items| == |v.items|
    ensures v.JObj? ==> Walked(v, fn).JObj? && |Walked(v, fn).fields| <= |v.fields|
    ensures v.JObj? ==> forall j :: 0 <= j < |Walked(v, fn).fields| ==>
              exists i :: 0 <= i < |v.fields| && v.fields[i].0 == Walked(v, fn).fields[j].0
                          && WalkResult(v.fields[i].0, v.fields[i].1, fn) == Some(Walked(v, fn).fields[j].1)
    ensures v.JArr? ==> forall i :: 0 <= i < |v.items| ==>
              Walked(v, fn).items[i] == OrHole(WalkResult(IndexKey(i), v.items[i], fn))
    ensures v.JObj? ==> forall i :: 0 <= i < |v.fields| ==> FieldKept(v, |v.fields|, i, fn)
  {
    match v
    case JArr(items) =>
      ItemsWalkedLength(v, |items|, fn);
      ItemsWalkedAt(v, |items|, fn);
    case JObj(fields) =>
      FieldsWalkedFrom(v, |fields|, fn);
      FieldsWalkedKeeps(v, |fields|, fn);
    case _ =>
  }

  /** Slot `i` of the rewritten array holds the walk of slot `i`. */
  lemma {:induction false} ItemsWalkedAt(v: Json, n: nat, fn: Reviver)
    requires v.JArr? && n <= |v.items|
    ensures |ItemsWalked(v, n, fn)| == n
    ensures forall i :: 0 <= i < n ==> ItemsWalked(v, n, fn)[i] == OrHole(WalkResult(IndexKey(i), v.items[i], fn))
  {
    if n > 0 {
      ItemsWalkedAt(v, n - 1, fn);
      var prev := ItemsWalked(v, n - 1, fn);
      forall i | 0 <= i < n - 1
        ensures ItemsWalked(v, n, fn)[i] == OrHole(WalkResult(IndexKey(i), v.items[i], fn))
      {
        assert ItemsWalked(v, n, fn)[i] == prev[i];
      }
    }
  }

  /** Field `i` of `v` is accounted for in the first `n` rewritten fields:
      when its walk returns a value it is kept, with that value, right
      after the fields kept before it; when it returns `undefined` it adds
      nothing. */
  ghost predicate FieldKept(v: Json, n: nat, i: nat, fn: Reviver)
    requires v.JObj? && i < n <= |v.fields|
  {
    var w := WalkResult(v.fields[i].0, v.fields[i].1, fn);
    var at := |FieldsWalked(v, i, fn)|;
    && (w.Some? ==> at < |FieldsWalked(v, n, fn)| && FieldsWalked(v, n, fn)[at] == (v.fields[i].0, w.value))
    && (w.None? ==> |FieldsWalked(v, i + 1, fn)| == at)
  }

  lemma {:induction false} FieldsWalkedKeeps(v: Json, n: nat, fn: Reviver)
    requires v.JObj? && n <= |v.fields|
    ensures forall i :: 0 <= i < n ==> FieldKept(v, n, i, fn)
  {
    if n > 0 {
      FieldsWalkedKeeps(v, n - 1, fn);
      var prev := FieldsWalked(v, n - 1, fn);
      var cur := FieldsWalked(v, n, fn);
      forall i | 0 <= i < n
        ensures FieldKept(v, n, i, fn)
      {
        var w := WalkResult(v.fields[i].0, v.fields[i].1, fn);
        var at := |FieldsWalked(v, i, fn)|;
        if i < n - 1 {
          assert FieldKept(v, n - 1, i, fn);
          if w.Some? {
            assert cur[at] == prev[at];
          }
        }
      }
    }
  }

  lemma {:induction false} ItemsWalkedLength(v: Json, n: nat, fn: Reviver)
    requires v.JArr? && n <= |v.items|
    ensures |ItemsWalked(v, n, fn)| == n
  {
    if n > 0 { ItemsWalkedLength(v, n - 1, fn); }
  }

  lemma {:induction false} FieldsWalkedFrom(v: Json, n: nat, fn: Reviver)
    requires v.JObj? && n <= |v.fields|
    ensures |FieldsWalked(v, n, fn)| <= n
    ensures forall j :: 0 <= j < |FieldsWalked(v, n, fn)| ==>
              exists i :: 0 <= i < n && v.fields[i].0 == FieldsWalked(v, n, fn)[j].0
                          && WalkResult(v.fields[i].0, v.fields[i].1, fn) == Some(FieldsWalked(v, n, fn)[j].1)
  {
    if n > 0 {
      FieldsWalkedFrom(v, n - 1, fn);
      var prev := FieldsWalked(v, n - 1, fn);
      var cur := FieldsWalked(v, n, fn);
      forall j | 0 <= j < |cur|
        ensures exists i :: 0 <= i < n && v.fields[i].0 == cur[j].0
                           && WalkResult(v.fields[i].0, v.fields[i].1, fn) == Some(cur[j].1)
      {
        if j < |prev| {
          assert cur[j] == prev[j];
        } else {
          assert v.fields[n - 1].0 == cur[j].0;
        }
      }
    }
  }
}
