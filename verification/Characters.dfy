/** Character classes of Python's text functions. */
module Characters {

  /** The characters of `\s` in text patterns, which are those that `strip()` removes. */
  predicate IsSpace(c: char) {
    var n := c as int;
    0x09 <= n <= 0x0D || 0x1C <= n <= 0x20 || n == 0x85 || n == 0xA0 || n == 0x1680
    || 0x2000 <= n <= 0x200A || n == 0x2028 || n == 0x2029 || n == 0x202F || n == 0x205F
    || n == 0x3000
  }

  /** The digits of ASCII. */
  predicate IsDigit(c: char) {
    '0' <= c <= '9'
  }
}
