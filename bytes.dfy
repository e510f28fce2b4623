/** PHP strings used as binary buffers, and the PHP notion of an "empty" value. */
module Bytes {
  newtype byte = x: int | 0 <= x < 256

  type Bytes = seq<byte>

  /** The one-byte string "0", which PHP's `empty()` and `!` treat as false. */
  const ZERO_STRING: Bytes := [0x30]

  /** `empty($s)` for a string: the empty string and the string "0". */
  predicate PhpEmpty(s: Bytes) {
    s == [] || s == ZERO_STRING
  }

  /** `substr($s, 0, |p|) == p`: PHP's substr stops at the end of a short string,
      so the comparison holds exactly when `p` is a prefix of `s`. */
  predicate HasPrefix(s: Bytes, p: Bytes) {
    |p| <= |s| && s[..|p|] == p
  }

  /** A key is usable by the Image constructor unless PHP's `!$key` holds: "" and "0". */
  predicate ValidKey(k: string) {
    k != "" && k != "0"
  }
}
