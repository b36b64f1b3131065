/**
 * The few PHP value semantics the module relies on: `empty()` on a
 * configuration entry, and an optional value for lookups that may miss.
 */
module Php {

  datatype Option<T> = None | Some(value: T)

  /** A scalar configuration value as stored in a plugin configuration array. */
  datatype Value = Null | Bool(b: bool) | Int(i: int) | Str(s: string)

  /** PHP's `empty()` on a scalar: null, false, 0, "" and "0" are empty. */
  predicate IsEmpty(v: Value)
  {
    match v
    case Null => true
    case Bool(b) => !b
    case Int(i) => i == 0
    case Str(s) => s == "" || s == "0"
  }

  /** `empty($config[$key])`: a missing key is empty as well. */
  predicate EntryEmpty(config: map<string, Value>, key: string)
  {
    key !in config || IsEmpty(config[key])
  }

  /** `strpos($haystack, $needle) === 0` for a non-empty needle: a bare prefix test. */
  predicate StartsWith(haystack: string, needle: string)
  {
    needle <= haystack
  }

  lemma StartsWithFirstChar(haystack: string, needle: string)
    requires |needle| > 0 && |haystack| > 0 && haystack[0] != needle[0]
    ensures !StartsWith(haystack, needle)
  {
  }
}
