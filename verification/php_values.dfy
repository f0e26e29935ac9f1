/** The few PHP value shapes the extension handles: the scalar and list values a
    request variable can hold, PHP's `empty()` test on them, the `cast_bool`
    coercion and `absint`. */
module PhpValues {

  /** A PHP value as it appears in an ORM argument map or in the cache. */
  datatype Value =
    | Null
    | Bool(b: bool)
    | Int(i: int)
    | Str(s: string)
    | StrList(items: seq<string>)

  /** A request variable as `WP_Query::get( $name, false )` returns it: not set
      (the `false` default), a single string, or a list of strings
      (`name[]=…&name[]=…` in the URL). */
  datatype Param = Unset | Scalar(s: string) | List(items: seq<string>)

  /** Optional values. */
  datatype Option<+T> = None | Some(value: T)

  /** PHP `empty()` on what `get( $name, false )` returns; the `?:` operator
      uses the same notion of falsiness. `false`, `""`, `"0"` and `[]` are empty. */
  predicate Empty(p: Param): (e: bool)
    ensures e <==> p == Unset || p == Scalar("") || p == Scalar("0") || p == List([])
  {
    match p
    case Unset => true
    case Scalar(s) => s == "" || s == "0"
    case List(items) => |items| == 0
  }

  /** `cast_bool`: the strings "true" and "false" become booleans, every other
      value is returned unchanged. */
  function CastBool(candidate: Value): (r: Value)
    ensures candidate == Str("true") ==> r == Bool(true)
    ensures candidate == Str("false") ==> r == Bool(false)
    ensures candidate != Str("true") && candidate != Str("false") ==> r == candidate
  {
    if candidate != Str("true") && candidate != Str("false") then candidate
    else Bool(candidate == Str("true"))
  }

  /** The text a URL carries for a clause value: the inverse of `CastBool` on
      strings. */
  function UrlText(v: Value): string
    requires v.Bool? || v.Str?
  {
    match v
    case Bool(b) => if b then "true" else "false"
    case Str(s) => s
  }

  /** Casting a URL string loses nothing: the string can be read back. */
  lemma CastBoolRoundTrip(s: string)
    ensures CastBool(Str(s)).Bool? || CastBool(Str(s)).Str?
    ensures UrlText(CastBool(Str(s))) == s
  {
  }

  /** A boolean comes out exactly when one of the two keywords went in. */
  lemma CastBoolYieldsBool(s: string)
    ensures CastBool(Str(s)).Bool? <==> s == "true" || s == "false"
    ensures CastBool(Str(s)) == Bool(true) <==> s == "true"
  {
  }

  /** Casting twice is casting once. */
  lemma CastBoolIdempotent(v: Value)
    ensures CastBool(CastBool(v)) == CastBool(v)
  {
  }

  /** `absint`: the absolute value of the integer. PHP's 64-bit `PHP_INT_MIN`
      edge is not modelled. */
  function Absint(x: int): (r: nat)
    ensures r == x || r == -x
  {
    if x < 0 then -x else x
  }
}
