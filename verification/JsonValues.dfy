/** JSON values as the backend and the gateway exchange them.

    Objects keep their fields in order, as a Python dict does; numbers are integers. */
module JsonValues {

  datatype Option<+T> = None | Some(value: T)

  datatype Json =
    | JNull
    | JBool(b: bool)
    | JInt(n: int)
    | JStr(s: string)
    | JArr(items: seq<Json>)
    | JObj(fields: seq<Field>)

  datatype Field = Field(key: string, value: Json)

  /** The position of the first field named `key`, or the length when there is none. */
  function IndexOf(fields: seq<Field>, key: string): (i: nat)
    ensures i <= |fields|
    ensures i < |fields| ==> fields[i].key == key
    ensures forall j :: 0 <= j < i ==> fields[j].key != key
  {
    if fields == [] || fields[0].key == key then 0 else 1 + IndexOf(fields[1..], key)
  }

  predicate Has(fields: seq<Field>, key: string) {
    IndexOf(fields, key) < |fields|
  }

  function Get(fields: seq<Field>, key: string): Json
    requires Has(fields, key)
  {
    fields[IndexOf(fields, key)].value
  }

  /** `value.get(key)`: the field's value, if `value` is an object that has it. */
  function Lookup(value: Json, key: string): Option<Json> {
    if value.JObj? && Has(value.fields, key) then Some(Get(value.fields, key)) else None
  }

  /** `value.get(key)`, with a missing key read as null. */
  function GetOrNull(value: Json, key: string): Json {
    match Lookup(value, key)
    case Some(v) => v
    case None => JNull
  }

  /** Python's truth of a value that may be missing. */
  predicate Truthy(v: Option<Json>) {
    match v
    case None => false
    case Some(JNull) => false
    case Some(JBool(b)) => b
    case Some(JInt(n)) => n != 0
    case Some(JStr(s)) => s != ""
    case Some(JArr(items)) => items != []
    case Some(JObj(fields)) => fields != []
  }

  /** `fields[key] = value`: replaces in place, or appends. */
  function Put(fields: seq<Field>, key: string, value: Json): seq<Field> {
    if fields == [] then [Field(key, value)]
    else if fields[0].key == key then [Field(key, value)] + fields[1..]
    else [fields[0]] + Put(fields[1..], key, value)
  }

  lemma {:induction false} PutGet(fields: seq<Field>, key: string, value: Json, k: string)
    ensures Has(Put(fields, key, value), k) == (k == key || Has(fields, k))
    ensures k == key ==> Get(Put(fields, key, value), k) == value
    ensures k != key && Has(fields, k) ==> Get(Put(fields, key, value), k) == Get(fields, k)
  {
    if fields != [] {
      PutGet(fields[1..], key, value, k);
      assert fields == [fields[0]] + fields[1..];
      PrependGet(fields[0], fields[1..], k);
      PrependGet(Field(key, value), fields[1..], k);
      PrependGet(fields[0], Put(fields[1..], key, value), k);
    }
  }

  /** What a field in front adds to a lookup. */
  lemma PrependGet(f: Field, rest: seq<Field>, key: string)
    ensures Has([f] + rest, key) == (f.key == key || Has(rest, key))
    ensures f.key == key ==> Get([f] + rest, key) == f.value
    ensures f.key != key && Has(rest, key) ==> Get([f] + rest, key) == Get(rest, key)
  {
    var all := [f] + rest;
    assert all[0] == f && all[1..] == rest;
  }

  predicate UniqueKeys(fields: seq<Field>) {
    forall i, j :: 0 <= i < j < |fields| ==> fields[i].key != fields[j].key
  }

  lemma HasWhenPresent(fields: seq<Field>, f: Field)
    requires f in fields
    ensures Has(fields, f.key)
  {
    var i :| 0 <= i < |fields| && fields[i] == f;
  }
}
