/**
 * The alert data the controller receives: a map from field names to loosely
 * typed values (Go `map[string]interface{}`), with nested maps for `labels`
 * and `annotations`.
 */
module Payload {
  import opened Wrappers

  /** One value of the alert data: a string, a nested map, or any other scalar carried with its `%v` text. */
  datatype Value =
    | Str(s: string)
    | Map(m: map<string, Value>)
    | Scalar(text: string)

  type Payload = map<string, Value>

  /** Stand-in for Go's `%v` rendering of a nested map. */
  const MapText: string := "map[...]"

  /**
   * `fmt.Sprintf("%v", v)`: a string renders as itself, a scalar as its text;
   * a nested map renders as a fixed placeholder.
   */
  function Show(v: Value): (r: string)
    ensures v.Str? ==> r == v.s
  {
    match v
    case Str(s) => s
    case Map(_) => MapText
    case Scalar(t) => t
  }

  /** The nested map stored under `key`, if `key` is present and holds a map. */
  function SubMap(data: Payload, key: string): (r: Option<map<string, Value>>)
    ensures r.Some? <==> key in data && data[key].Map?
    ensures r.Some? ==> r.value == data[key].m
  {
    if key in data && data[key].Map? then Some(data[key].m) else None
  }

}
