/**
 * The values a parsed Yelp business record holds once `json.loads` and
 * `ast.literal_eval` are done with it, and the two Python operations the
 * preprocessor applies to them with a string key: the membership test
 * `key in v` and the subscript `v[key]`.
 */
module Json {
  import opened Wrappers
  import opened Collections
  import Strings

  datatype Value =
    | Null
    | Bool(b: bool)
    | Num(n: real)
    | Str(s: string)
    | List(items: seq<Value>)
    | Obj(fields: Dict<string, Value>)

  /** Lists and dictionaries cannot be set members or dictionary keys (`TypeError: unhashable type`). */
  predicate Hashable(v: Value) {
    !(v.List? || v.Obj?)
  }

  /** The two targets `isinstance` is asked about. */
  datatype Kind = BoolKind | StrKind

  predicate IsInstance(v: Value, k: Kind) {
    match k
    case BoolKind => v.Bool?
    case StrKind => v.Str?
  }

  /**
   * `key in v`: a dictionary tests its keys, a list its elements, a string
   * its substrings; anything else is not iterable and raises `TypeError`.
   */
  function In(key: string, v: Value): (r: Result<bool>)
    ensures r.Err? <==> !(v.Obj? || v.List? || v.Str?)
    ensures r.Err? ==> r.error == TypeError
    ensures v.Obj? ==> r == Ok(key in v.fields.entries)
    ensures v.List? ==> r == Ok(Str(key) in v.items)
    ensures v.Str? ==> r == Ok(Strings.Contains(v.s, key))
  {
    match v
    case Obj(fields) => Ok(key in fields.entries)
    case List(items) => Ok(Str(key) in items)
    case Str(s) => Ok(Strings.Contains(s, key))
    case _ => Err(TypeError)
  }

  /**
   * `v[key]`: only a dictionary accepts a string subscript; a missing key
   * raises `KeyError`, any other value `TypeError`.
   */
  function Get(v: Value, key: string): (r: Result<Value>)
    ensures r.Ok? <==> v.Obj? && key in v.fields.entries
    ensures r.Ok? ==> r.value == v.fields.entries[key]
    ensures r.Err? ==> r.error == if v.Obj? then KeyError else TypeError
  {
    if !v.Obj? then Err(TypeError)
    else if key !in v.fields.entries then Err(KeyError)
    else Ok(v.fields.entries[key])
  }
}
