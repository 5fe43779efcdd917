/** The limits of llimits.h and luaconf.h, and the bytes that streams and strings are made of. */
module Limits {

  type Byte = b: int | 0 <= b < 256

  type Bytes = seq<Byte>

  const MAX_INT := 0x7FFF_FFFF

  type Int32 = n: int | -MAX_INT - 1 <= n <= MAX_INT

  const LUAI_MAXCCALLS := 200

  /** The end of a stream. */
  const EOZ := -1

  predicate IsDigit(c: int) {
    '0' as int <= c <= '9' as int
  }

  function Max(a: nat, b: nat): nat {
    if a > b then a else b
  }
}
