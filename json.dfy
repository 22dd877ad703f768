/** Decoded JSON documents as the pipeline sees them (the result of
    `resp.json()` or of a parquet row), with Python's truthiness and the
    defensive `.get` idioms the code uses on them. */
module Json {
  import opened Errors

  /** A decoded JSON value; `Null` is Python's None. Numbers are integers
      here: the pipeline only copies them, never computes with them. */
  datatype Json =
    | Null
    | Bool(b: bool)
    | Num(n: int)
    | Str(s: string)
    | Arr(items: seq<Json>)
    | Obj(fields: map<string, Json>)

  /** Python truthiness: None, False, 0, "", [] and {} are falsy. */
  predicate Truthy(j: Json) {
    match j
    case Null => false
    case Bool(b) => b
    case Num(n) => n != 0
    case Str(s) => s != []
    case Arr(xs) => xs != []
    case Obj(m) => m != map[]
  }

  const EmptyObj: Json := Obj(map[])

  /** `d.get(k)` on a dict `d`: the value, or None when the key is absent. */
  function Lookup(m: map<string, Json>, k: string): (r: Json)
    ensures k !in m ==> r == Null
    ensures k in m ==> r == m[k]
  {
    if k in m then m[k] else Null
  }

  /** `x.get(k)`: only a dict has `.get`; on any other value Python raises
      AttributeError. */
  function Get(x: Json, k: string): (r: Result<Json>)
    ensures r.Ok? <==> x.Obj?
    ensures x.Obj? && k !in x.fields ==> r == Ok(Null)
    ensures x.Obj? && k in x.fields ==> r == Ok(x.fields[k])
  {
    if x.Obj? then Ok(Lookup(x.fields, k)) else Err(AttributeError)
  }

  /** `x or {}`: a falsy value is replaced by the empty dict. */
  function OrEmpty(x: Json): (r: Json)
    ensures Truthy(x) ==> r == x
    ensures !Truthy(x) ==> r == EmptyObj
  {
    if Truthy(x) then x else EmptyObj
  }

  /** `(x or {}).get(k)`: None whenever `x` is missing or falsy, the nested
      value when `x` is a dict, and AttributeError when `x` is a truthy
      non-dict. */
  function NestedGet(x: Json, k: string): (r: Result<Json>)
    ensures !Truthy(x) ==> r == Ok(Null)
    ensures x.Obj? ==> r == Ok(Lookup(x.fields, k))
    ensures r.Err? <==> Truthy(x) && !x.Obj?
  {
    Get(OrEmpty(x), k)
  }

  /** A parent value that `(x or {}).get(k)` reads without raising. */
  predicate Readable(x: Json) {
    !Truthy(x) || x.Obj?
  }
}
