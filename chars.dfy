/** Stand-ins for the java.lang.Character classification methods that the
    lexer calls. Whitespace follows Character.isWhitespace exactly for every
    Unicode scalar value (Unicode tables of Java 9 and later); letters and
    digits are restricted to ASCII. */
module Chars {

  /** Character.isWhitespace: the space separators other than the
      non-breaking ones (U+00A0, U+2007, U+202F), the line and paragraph
      separators, and the controls U+0009..U+000D and U+001C..U+001F. */
  predicate IsWhitespace(c: char) {
    ('\t' <= c <= '\r')
    || ('\U{1C}' <= c <= ' ')
    || c == '\U{1680}'
    || ('\U{2000}' <= c <= '\U{2006}')
    || ('\U{2008}' <= c <= '\U{200A}')
    || c == '\U{2028}' || c == '\U{2029}'
    || c == '\U{205F}' || c == '\U{3000}'
  }

  /** Character.isDigit, restricted to the ASCII decimal digits. */
  predicate IsDigit(c: char) {
    '0' <= c <= '9'
  }

  /** Character.isLetter, restricted to the ASCII letters. */
  predicate IsLetter(c: char) {
    ('a' <= c <= 'z') || ('A' <= c <= 'Z')
  }

  /** Character.isLetterOrDigit. */
  predicate IsLetterOrDigit(c: char) {
    IsLetter(c) || IsDigit(c)
  }
}
