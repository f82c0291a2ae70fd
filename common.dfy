/** Small value types shared by every module: optional values, results with an
    error, the JSON value a request body parses to, and first-match search. */
module Common {

  /** A Python value that may be `None`, or a dictionary key that may be absent. */
  datatype Option<+T> = None | Some(value: T) {
    /** `d.get(key, default)`: the value when present, otherwise the default. */
    function GetOr(default: T): T {
      match this
      case Some(v) => v
      case None => default
    }
  }

  /** The outcome of code that may raise: a value, or the exception raised. */
  datatype Result<+R, +E> = Success(value: R) | Failure(error: E)

  /** The `KeyError` a subscript on an absent dictionary key raises. */
  datatype KeyError = KeyError(key: string)

  /** The `IndexError` a positional row access (`df.iloc[i]`) past the end raises. */
  datatype IndexError = IndexError(index: nat)

  /** A parsed JSON value. */
  datatype Json =
    | JNull
    | JBool(b: bool)
    | JNumber(n: real)
    | JString(s: string)
    | JArray(items: seq<Json>)
    | JObject(members: seq<(string, Json)>)

  function Min(a: int, b: int): int { if a <= b then a else b }

  function Max(a: int, b: int): int { if a <= b then b else a }

  /** The index of the first element satisfying `p`, if there is one. */
  function FirstIndex<T>(s: seq<T>, p: T -> bool): (r: Option<nat>)
    ensures r.Some? ==> r.value < |s| && p(s[r.value])
    ensures r.Some? ==> forall j :: 0 <= j < r.value ==> !p(s[j])
    ensures r.None? <==> forall j :: 0 <= j < |s| ==> !p(s[j])
  {
    if s == [] then None
    else if p(s[0]) then Some(0)
    else match FirstIndex(s[1..], p)
      case None => None
      case Some(i) => Some(i + 1)
  }
}
