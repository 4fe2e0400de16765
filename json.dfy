/**
 * The values Python's `json.loads` produces, and the three dictionary and
 * truth-value operations the result display applies to them (app.py:125,
 * 134-135, 140-141).
 */
module Json {
  import opened Wrappers

  /**
   * A parsed JSON document.  An object keeps its fields in the order the
   * parser inserted them, as a Python `dict` does, though a sequence of fields
   * may repeat a key where a dict cannot; numbers are exact reals.
   */
  datatype Value =
    | JNull
    | JBool(b: bool)
    | JNumber(n: real)
    | JString(str: string)
    | JArray(items: seq<Value>)
    | JObject(fields: seq<Field>)

  datatype Field = Field(key: string, value: Value)

  /** `d.get(key)` on a dict with fields `fields`: the value of the first field named `key`. */
  function Get(fields: seq<Field>, key: string): (r: Option<Value>)
    ensures r.None? <==> forall i :: 0 <= i < |fields| ==> fields[i].key != key
    ensures r.Some? ==> exists i :: 0 <= i < |fields| && fields[i] == Field(key, r.value)
                                   && forall k :: 0 <= k < i ==> fields[k].key != key
  {
    if fields == [] then None
    else if fields[0].key == key then Some(fields[0].value)
    else Get(fields[1..], key)
  }

  /** The field at `i` is the first one named `key`, so `d.get(key)` returns its value. */
  lemma GetFirst(fields: seq<Field>, key: string, i: nat)
    requires i < |fields| && fields[i].key == key
    requires forall k :: 0 <= k < i ==> fields[k].key != key
    ensures Get(fields, key) == Some(fields[i].value)
  {
    var r := Get(fields, key);
    assert r.Some?;
    var j :| 0 <= j < |fields| && fields[j] == Field(key, r.value) && forall k :: 0 <= k < j ==> fields[k].key != key;
    assert !(j < i) && !(i < j);
  }

  /** `d.get(key, default)`. */
  function GetOr(fields: seq<Field>, key: string, default: Value): (r: Value)
    ensures (forall i :: 0 <= i < |fields| ==> fields[i].key != key) ==> r == default
    ensures (exists i :: 0 <= i < |fields| && fields[i].key == key) ==> Field(key, r) in fields
  {
    match Get(fields, key)
    case Some(v) => v
    case None => default
  }

  /** The six values Python's `bool` takes as false: `None`, `False`, zero, and the empty string, list and dict. */
  const Falsy: set<Value> := {JNull, JBool(false), JNumber(0.0), JString(""), JArray([]), JObject([])}

  /** Python's `bool(v)`. */
  predicate Truthy(v: Value)
    ensures Truthy(v) <==> v !in Falsy
  {
    match v
    case JNull => false
    case JBool(b) => b
    case JNumber(n) => n != 0.0
    case JString(s) => s != ""
    case JArray(items) => items != []
    case JObject(fields) => fields != []
  }
}
