/** Go's dynamically typed values as they appear in the provider's string-keyed maps
    (`map[string]interface{}`), and an optional value for lookups that can miss. */
module Values {

  datatype Option<T> = None | Some(value: T)

  /** A value stored under a key of a schema map or decoded from the platform's JSON. */
  datatype Value =
    | Str(s: string)
    | Int(i: int)
    | Bool(b: bool)
    | List(items: seq<Value>)

  /** True when `key` is present and holds a string. */
  predicate HasStr(m: map<string, Value>, key: string)
  {
    key in m && m[key].Str?
  }

  /** True when `key` is present and holds an integer. */
  predicate HasInt(m: map<string, Value>, key: string)
  {
    key in m && m[key].Int?
  }

  /** True when `key` is present and holds a boolean. */
  predicate HasBool(m: map<string, Value>, key: string)
  {
    key in m && m[key].Bool?
  }
}
