/** The toolkit's character type: a 16-bit wide-character code unit, so a
    character outside the Basic Multilingual Plane arrives as two units
    (a surrogate pair) and a lone surrogate half is a character like any
    other. Strings are sequences of these units. */
module WideChar {

  newtype Char = c: int | 0 <= c < 0x1_0000

  type String = seq<Char>

  /** The space character, the smallest printable one. */
  const Space: Char := 0x20

  const Nul: Char := 0

  predicate IsDigit(c: Char) {
    0x30 <= c <= 0x39
  }
}
