/** What several components share: optional values, and the white space that Python's `strip` removes. */
module Wrappers {
  datatype Option<+T> = None | Some(value: T)

  predicate Space(c: char) {
    || '\t' <= c <= '\r' || '\U{1c}' <= c <= ' ' || c == '\U{85}' || c == '\U{a0}' || c == '\U{1680}'
    || '\U{2000}' <= c <= '\U{200a}' || c in "\U{2028}\U{2029}\U{202f}\U{205f}\U{3000}"
  }
}
