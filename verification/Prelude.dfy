/** Option, hexadecimal strings and the 64-bit integer width shared by every other module. */
module Prelude {

  datatype Option<+T> = None | Some(value: T)

  newtype Byte = b: int | 0 <= b < 256

  const I64_MAX: int := 0x7FFF_FFFF_FFFF_FFFF

  /** The result of an i64 addition in a release build: two's complement wrap-around. */
  function Wrap64(x: int): (r: int)
    ensures -I64_MAX - 1 <= r <= I64_MAX
    ensures -I64_MAX - 1 <= x <= I64_MAX ==> r == x
  {
    (x + I64_MAX + 1) % (2 * (I64_MAX + 1)) - I64_MAX - 1
  }

  predicate IsHexDigit(c: char) {
    '0' <= c <= '9' || 'a' <= c <= 'f' || 'A' <= c <= 'F'
  }

  predicate IsHex(s: string, length: nat) {
    |s| == length && forall i :: 0 <= i < |s| ==> IsHexDigit(s[i])
  }

  /** Unicode White_Space, the class that Rust's `str::trim` removes. */
  predicate IsSpace(c: char) {
    || '\t' <= c <= '\r' || c == ' ' || c == '\U{85}' || c == '\U{A0}' || c == '\U{1680}'
    || '\U{2000}' <= c <= '\U{200A}' || c == '\U{2028}' || c == '\U{2029}'
    || c == '\U{202F}' || c == '\U{205F}' || c == '\U{3000}'
  }

  predicate Blank(s: string) {
    forall i :: 0 <= i < |s| ==> IsSpace(s[i])
  }
}
