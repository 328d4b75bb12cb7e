/** The .NET string predicates the query relies on, over `seq<char>`. */
module Strings {
  import opened Wrappers

  /** `char.IsWhiteSpace`: the Unicode space, line and paragraph separators, plus U+0009..U+000D and U+0085. */
  predicate IsWhiteSpace(c: char) {
    || c == ' '
    || '\t' <= c <= '\r'
    || c == '\U{85}'
    || c == '\U{A0}'
    || c == '\U{1680}'
    || '\U{2000}' <= c <= '\U{200A}'
    || c == '\U{2028}'
    || c == '\U{2029}'
    || c == '\U{202F}'
    || c == '\U{205F}'
    || c == '\U{3000}'
  }

  /** `string.IsNullOrWhiteSpace`: absent, empty, or made only of white space. */
  predicate IsNullOrWhiteSpace(s: Option<string>) {
    s.None? || forall i :: 0 <= i < |s.value| ==> IsWhiteSpace(s.value[i])
  }

  /** `term` occurs in `text` starting at position `i`. */
  predicate OccursAt(text: string, term: string, i: int) {
    0 <= i <= |text| - |term| && text[i..i + |term|] == term
  }

  /** Ordinal `string.Contains`: `term` occurs at some position of `text`. */
  predicate Contains(text: string, term: string) {
    exists i :: 0 <= i <= |text| - |term| && OccursAt(text, term, i)
  }
}
