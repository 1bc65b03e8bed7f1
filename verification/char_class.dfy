/** The character classes of the C library's <cctype> that the lexer uses,
    as they behave in the "C" locale: ASCII only, so every character outside
    the ASCII range belongs to none of them. */
module CharClass {

  /** isspace: the blank, and horizontal tab, line feed, vertical tab,
      form feed and carriage return (codes 9 to 13). */
  predicate IsSpace(c: char) {
    c == ' ' || ('\t' <= c <= '\r')
  }

  /** isdigit: the decimal digits. */
  predicate IsDigit(c: char) {
    '0' <= c <= '9'
  }

  /** isalpha: the ASCII letters. */
  predicate IsAlpha(c: char) {
    ('a' <= c <= 'z') || ('A' <= c <= 'Z')
  }

  /** isalnum: a letter or a digit. */
  predicate IsAlnum(c: char) {
    IsAlpha(c) || IsDigit(c)
  }
}
