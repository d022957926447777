/**
 * The values that the tolerant JSON parser hands back to the bot, with
 * Python's view of them: truthiness and `dict.get`.
 */
module JsonValue {
  import opened Wrappers

  /**
   * A dictionary key as Python compares it. Parsed JSON objects only carry
   * string keys; IntKey stands for Python's integer and boolean keys, which
   * hash and compare alike (`False` is the key 0, `True` the key 1).
   */
  datatype Key = StrKey(name: string) | IntKey(n: int)

  /** The key that `'status' == "failed"` evaluates to: `False`. */
  const FalseKey: Key := IntKey(0)

  /** A parsed value; floating-point numbers are not part of the model. */
  datatype Json =
    | JNull
    | JBool(b: bool)
    | JInt(i: int)
    | JStr(s: string)
    | JArr(items: seq<Json>)
    | JObj(fields: map<Key, Json>)

  /** Python's `bool(v)`: null, false, 0 and empty strings, lists and dicts are falsy. */
  function Truthy(v: Json): (b: bool)
    // the falsy values are exactly these six
    ensures !b <==> v in {JNull, JBool(false), JInt(0), JStr(""), JArr([]), JObj(map[])}
  {
    match v
    case JNull => false
    case JBool(b) => b
    case JInt(i) => i != 0
    case JStr(s) => s != ""
    case JArr(items) => items != []
    case JObj(fields) => fields != map[]
  }

  /**
   * `v.get(k, default)`. Only a dict has a `get` method: on any other value
   * the call raises AttributeError, which is None here.
   */
  function Get(v: Json, k: Key, default: Json): (r: Option<Json>)
    // only a dict answers `.get`
    ensures r.None? <==> !v.JObj?
    // the stored value when the key is there, the default otherwise
    ensures v.JObj? && k in v.fields ==> r == Some(v.fields[k])
    ensures v.JObj? && k !in v.fields ==> r == Some(default)
  {
    match v
    case JObj(fields) => Some(if k in fields then fields[k] else default)
    case _ => None
  }

  /** Every key of an object is a string, as in anything parsed from JSON text. */
  predicate StringKeyed(v: Json) {
    v.JObj? ==> forall k | k in v.fields :: k.StrKey?
  }
}
