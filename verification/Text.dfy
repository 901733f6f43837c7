/** What `trim` sees as blank. */
module Text {
  /** White space and line terminators: sections 12.2 and 12.3 of ECMA-262. */
  predicate IsSpace(c: char) {
    || c in "\t\n\U{0B}\U{0C}\r \U{A0}\U{1680}\U{2028}\U{2029}\U{202F}\U{205F}\U{3000}\U{FEFF}"
    || '\U{2000}' <= c <= '\U{200A}'
  }

  /** `text.trim().length === 0` */
  predicate Blank(text: string) {
    forall c | c in text :: IsSpace(c)
  }
}
