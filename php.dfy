/** Small models of the PHP runtime behaviour that the plugin relies on:
    optional values, truthiness of strings and `in_array` with loose comparison. */
module Php {

  /** A value that may be absent (PHP `false`/`null` where a string is expected). */
  datatype Option<+T> = None | Some(value: T)

  /** PHP truthiness of a string: only "" and "0" are falsy. */
  predicate TruthyString(s: string)
  {
    s != "" && s != "0"
  }

  /** PHP truthiness of a value that is a string or absent (`false`/`null`). */
  predicate Truthy(v: Option<string>)
  {
    v.Some? && TruthyString(v.value)
  }

  /** `in_array($needle, $haystack)` with PHP's loose `==` for a needle that is a
      string or `false`. A string needle is found by equality (the haystack holds
      non-numeric tokens, see README); `false` loosely equals every falsy string. */
  predicate LooselyIn(needle: Option<string>, haystack: seq<string>)
  {
    match needle
    case Some(s) => s in haystack
    case None => exists v :: v in haystack && !TruthyString(v)
  }

  /** `0 === strpos($s, $prefix)`: the string starts with the prefix. */
  predicate StartsWith(s: string, prefix: string)
  {
    |prefix| <= |s| && s[..|prefix|] == prefix
  }
}
