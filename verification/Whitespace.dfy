/** What the two languages of the system take for whitespace when they trim text. */
module Whitespace {

  /** White space and line terminators, as `trim` in the browser knows them. */
  predicate Trims(c: char) {
    || '\t' <= c <= '\r' || c == ' ' || c == '\U{00A0}' || c == '\U{1680}' || '\U{2000}' <= c <= '\U{200A}'
    || c in "\U{2028}\U{2029}\U{202F}\U{205F}\U{3000}\U{FEFF}"
  }

  /** The characters that `strip` on the server removes. */
  predicate Strips(c: char) {
    || '\t' <= c <= '\r' || '\U{001C}' <= c <= ' ' || c == '\U{0085}' || c == '\U{00A0}' || c == '\U{1680}'
    || '\U{2000}' <= c <= '\U{200A}' || c in "\U{2028}\U{2029}\U{202F}\U{205F}\U{3000}"
  }

  /** Trimming leaves nothing. */
  predicate Blank(text: string, space: char -> bool) { forall c | c in text :: space(c) }
}
