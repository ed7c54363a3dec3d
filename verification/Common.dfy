/** Small vocabulary shared by the models of the byte-level codecs. */
module Common {

  /** An unsigned octet, as C's `u8`. */
  newtype byte = x: int | 0 <= x < 256

  datatype Option<+T> = None | Some(value: T)

  function Min(a: int, b: int): int {
    if a < b then a else b
  }

  /** Network byte order, two octets; the value is truncated as by a cast to `u16`. */
  function Be16(x: int): (r: seq<byte>)
    ensures |r| == 2
  {
    [(x / 256 % 256) as byte, (x % 256) as byte]
  }

  /** Network byte order, four octets; the value is truncated as by a cast to `u32`. */
  function Be32(x: int): (r: seq<byte>)
    ensures |r| == 4
  {
    Be16(x / 0x10000) + Be16(x % 0x10000)
  }

  lemma ConcatAssoc<T>(a: seq<T>, b: seq<T>, c: seq<T>)
    ensures a + b + c == a + (b + c)
  {
  }
}
