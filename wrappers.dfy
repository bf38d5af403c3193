/** PHP values: nullable types and `array|false` results, and the falsiness of strings. */
module Wrappers {

  datatype Option<+T> = None | Some(value: T)

  /** PHP `empty()` of a string, which is also its falsiness: "" and "0". */
  predicate EmptyString(s: string) {
    s == "" || s == "0"
  }
}
