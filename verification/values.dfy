/** The PHP values that flow through a named-parameter invocation, and the
    named-parameter array itself. */
module PhpValues {

  /** A PHP value. `Null` is explicit because `isset` treats it specially;
      the other cases stand for whatever a caller may pass and are never
      inspected by the invoker. */
  datatype Value =
    | Null
    | Bool(b: bool)
    | Int(i: int)
    | Str(s: string)
    | Arr(items: seq<Value>)
    | Obj(className: string)

  /** The caller's array of named parameters, keyed by parameter name. */
  type ParamMap = map<string, Value>

  /** PHP `isset($params[$key])`: the key is present AND its value is not null. */
  function Isset(params: ParamMap, key: string): (r: bool)
    ensures key !in params ==> !r
    ensures key in params && params[key] == Null ==> !r
    ensures key in params && params[key] != Null ==> r
  {
    key in params && params[key] != Null
  }
}
