/** The three character classes that `clean_text` uses through Python's `re` module
    on `str` patterns: `\d` (decimal digit), `\s` (whitespace) and `\w` (word
    character). Whitespace is modelled for the whole of Unicode; digits and word
    characters are modelled exactly for the code points up to U+00FF (Latin-1). */
module CharClasses {

  /** `\d`: a decimal digit. Within Latin-1 only '0'..'9' have category Nd. */
  predicate IsDigit(c: char) {
    '0' <= c <= '9'
  }

  /** `\s`: the code points that Python's `str.isspace()` accepts. */
  predicate IsSpace(c: char) {
    || '\t' <= c <= '\r'
    || '\U{1C}' <= c <= ' '
    || c == '\U{85}'
    || c == '\U{A0}'
    || c == '\U{1680}'
    || '\U{2000}' <= c <= '\U{200A}'
    || c == '\U{2028}'
    || c == '\U{2029}'
    || c == '\U{202F}'
    || c == '\U{205F}'
    || c == '\U{3000}'
  }

  /** Python's `str.isalnum()` on Latin-1: letters, decimal digits, and the
      superscript digits and vulgar fractions (which are numeric). */
  predicate IsAlnum(c: char) {
    || IsDigit(c)
    || 'A' <= c <= 'Z'
    || 'a' <= c <= 'z'
    || c == '\U{AA}'                    // feminine ordinal indicator
    || c == '\U{B2}' || c == '\U{B3}'   // superscript two, three
    || c == '\U{B5}'                    // micro sign
    || c == '\U{B9}'                    // superscript one
    || c == '\U{BA}'                    // masculine ordinal indicator
    || '\U{BC}' <= c <= '\U{BE}'        // vulgar fractions
    || '\U{C0}' <= c <= '\U{D6}'
    || '\U{D8}' <= c <= '\U{F6}'
    || '\U{F8}' <= c <= '\U{FF}'
  }

  /** `\w`: an alphanumeric character or the underscore. */
  predicate IsWord(c: char) {
    IsAlnum(c) || c == '_'
  }

  /** Every digit is a word character, so the punctuation rewrite never sees a
      character that the digit rewrite would have kept for it. */
  lemma DigitIsWord(c: char)
    ensures IsDigit(c) ==> IsWord(c) && !IsSpace(c)
  {
  }

  /** The newline is whitespace: the punctuation rewrite keeps it, and only the
      third rewrite removes it. */
  lemma NewlineIsSpace()
    ensures IsSpace('\n') && !IsWord('\n') && !IsDigit('\n')
  {
  }
}
