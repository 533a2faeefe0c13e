/**
 * The dynamically typed values that flow through the audit: numbers and
 * strings typed by a user or extracted from a label, nulls, and dictionaries.
 * `Null` is Python's `None`, the "missing" marker that keeps "not measured"
 * apart from "measured as zero".
 */
module PyValues {
  import opened Wrappers

  datatype Value =
    | Null
    | Int(i: int)
    | Float(x: real)
    | Str(s: string)
    | Dict(fields: map<string, Value>)

  /** `d.get(k)`: the value stored under `k`, or `None` when `k` is absent. */
  function Get(d: map<string, Value>, k: string): (v: Value)
    ensures k in d ==> v == d[k]
    ensures k !in d ==> v == Null
  {
    if k in d then d[k] else Null
  }

  /** `d.get(k, default)`: the default is used only when `k` is absent. */
  function GetOr(d: map<string, Value>, k: string, default: Value): (v: Value)
    ensures k in d ==> v == d[k]
    ensures k !in d ==> v == default
  {
    if k in d then d[k] else default
  }

  /** Python truthiness of an optional dictionary argument: `None` and `{}` are false. */
  predicate Truthy(d: Option<map<string, Value>>) {
    d.Some? && |d.value| > 0
  }
}
