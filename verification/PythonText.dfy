/** The characters that Python's string methods treat as line breaks and as blanks. */
module PythonText {
  // Where str.splitlines cuts; a carriage return and a line feed together only add an empty line.
  predicate IsBreak(c: char) {
    c in {'\n', '\r', '\U{0b}', '\U{0c}', '\U{1c}', '\U{1d}', '\U{1e}', '\U{85}', '\U{2028}', '\U{2029}'}
  }

  // What str.strip removes.
  predicate IsBlank(c: char) {
    || IsBreak(c)
    || c in {' ', '\t', '\U{1f}', '\U{a0}', '\U{1680}', '\U{202f}', '\U{205f}', '\U{3000}'}
    || '\U{2000}' <= c <= '\U{200a}'
  }
}
