/** Raw message bytes and the byte classes the tokenizer looks at. */
module Bytes {

  /**
   * One byte of the message buffer (Go's `byte`), written as the character
   * with that code so that test lines read as text.
   */
  type byte = c: char | c as int < 256

  const SPACE: byte := ' '
  const COLON: byte := ':'
  const LBRACKET: byte := '['
  const RBRACKET: byte := ']'

  /** A byte that ends a tag: a colon or a space (section 4.1.3 of RFC 3164). */
  predicate IsTagEnd(b: byte) {
    b == COLON || b == SPACE
  }

  /** No byte of `s` is a space. */
  predicate NoSpace(s: seq<byte>) {
    SPACE !in s
  }

  /** No byte of `s` ends a tag or opens a bracket: `s` can be scanned as a tag name. */
  predicate PlainTagText(s: seq<byte>) {
    COLON !in s && SPACE !in s && LBRACKET !in s
  }
}
