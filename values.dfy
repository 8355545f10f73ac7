/** JSON-like values as the handlers see them after the request body is decoded,
    and movie records as dictionaries from field names to such values. */
module Values {

  /** A decoded JSON value. `VOther` stands for every value the handlers never
      inspect beyond its type: floats, null, lists and nested objects. */
  datatype Value = VInt(i: int) | VBool(b: bool) | VStr(s: string) | VOther

  datatype Option<T> = None | Some(value: T)

  /** A movie record or a request payload: a dictionary keyed by field name. */
  type Record = map<string, Value>

  /** Python's `isinstance(v, int)`, which also holds of `True` and `False`. */
  predicate IsInt(v: Value)
  {
    v.VInt? || v.VBool?
  }

  /** Python's `isinstance(v, str)`. */
  predicate IsStr(v: Value)
  {
    v.VStr?
  }

  /** The integer an int-like value stands for: `True` is 1 and `False` is 0,
      as in Python's `==` and `<=` on booleans. */
  function AsInt(v: Value): int
    requires IsInt(v)
  {
    match v
    case VInt(i) => i
    case VBool(b) => if b then 1 else 0
  }

  /** A record whose `id` can be read and compared with an integer without raising. */
  predicate HasIntId(m: Record)
  {
    "id" in m && IsInt(m["id"])
  }

  /** `m['id']` as an integer. */
  function IdOf(m: Record): int
    requires HasIntId(m)
  {
    AsInt(m["id"])
  }

  /** Every record of a list has a readable integer id. */
  predicate AllHaveIntIds(s: seq<Record>)
  {
    forall j :: 0 <= j < |s| ==> HasIntId(s[j])
  }

  /** No two records of a list carry the same id. */
  predicate DistinctIds(s: seq<Record>)
    requires AllHaveIntIds(s)
  {
    forall i, j :: 0 <= i < j < |s| ==> IdOf(s[i]) != IdOf(s[j])
  }

  /** Some record of the list carries `id`. */
  predicate HasId(s: seq<Record>, id: int)
    requires AllHaveIntIds(s)
  {
    exists j :: 0 <= j < |s| && IdOf(s[j]) == id
  }
}
