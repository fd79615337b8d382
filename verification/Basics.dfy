/** What several components need: optional values, classes of characters, places of texts, a law of concatenation. */
module Basics {
  datatype Option<+T> = None | Some(value: T)

  /** `isspace` and `isdigit` of the C library. */
  predicate IsSpace(c: char) { c == ' ' || '\t' <= c <= '\r' }
  predicate IsDigit(c: char) { '0' <= c <= '9' }

  /** `w` is the text of `s` at `at`. */
  predicate TextAt(s: string, at: nat, w: string) {
    at + |w| <= |s| && s[at..at + |w|] == w
  }

  lemma Regroup<T>(a: seq<T>, b: seq<T>, c: seq<T>)
    ensures (a + b) + c == a + (b + c)
  {
  }
}
