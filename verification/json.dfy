/** The parsed JSON values of a takeout archive, and the two ways the script
    reads an object: as a dictionary restricted to an allow-list, and as a
    table cell in which a JSON null and an absent key are both "missing". */
module Json {
  import opened Results

  datatype Value =
    | Null
    | Bool(b: bool)
    | Num(n: int)
    | Str(s: string)
    | Arr(items: seq<Value>)
    | Obj(fields: map<string, Value>)

  type Object = map<string, Value>

  /** The cell a table holds for key `k` of `o`: missing when the key is absent or null. */
  function Cell(o: Object, k: string): (r: Option<Value>)
    ensures r.None? <==> k !in o || o[k] == Null
    ensures r.Some? ==> k in o && r.value == o[k]
  {
    if k in o && o[k] != Null then Some(o[k]) else None
  }

  /** An object restricted to an allow-list of keys: the keys it has among
      `keys`, each with its own value. */
  function Project(o: Object, keys: set<string>): (r: Object)
    ensures r.Keys == o.Keys * keys
    ensures forall k :: k in r ==> r[k] == o[k]
  {
    map k | k in o.Keys * keys :: o[k]
  }
}
