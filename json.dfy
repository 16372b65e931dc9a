/**
 * JavaScript object values as the screens and services build them: a
 * document is a map from field names to values, a missing field reads as
 * `undefined`, and the object spread `{...a, ...b}` lets `b`'s fields win.
 */
module Json {

  datatype Value =
    | Undefined
    | Null
    | Bool(b: bool)
    | Str(s: string)
    | Arr(items: seq<Value>)
    | Obj(fields: map<string, Value>)

  type Doc = map<string, Value>

  /** A value that may be `null`. */
  datatype Option<T> = None | Some(value: T)

  /** `d.key`: the field's value, or `undefined` when the field is absent. */
  function Get(d: Doc, key: string): (v: Value)
    ensures key !in d ==> v == Undefined
  {
    if key in d then d[key] else Undefined
  }

  /** JavaScript truthiness for the values the model uses. */
  predicate Truthy(v: Value) {
    match v
    case Undefined => false
    case Null => false
    case Bool(b) => b
    case Str(s) => s != ""
    case Arr(_) => true
    case Obj(_) => true
  }

  /**
   * An id field read from a document: its text when it holds a string, and
   * '' (the falsy id) otherwise. Documents here hold ids only as strings.
   */
  function IdText(v: Value): (id: string)
    ensures id != "" <==> v.Str? && Truthy(v)
    ensures v.Str? ==> id == v.s
  {
    if v.Str? then v.s else ""
  }

  /** `{...a, ...b}`: every field of either, with `b`'s value where both have one. */
  function Spread(a: Doc, b: Doc): (r: Doc)
    ensures r.Keys == a.Keys + b.Keys
    ensures forall k :: k in b ==> r[k] == b[k]
    ensures forall k :: k in a && k !in b ==> r[k] == a[k]
  {
    a + b
  }
}
