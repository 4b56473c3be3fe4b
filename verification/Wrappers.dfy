/** Values shared by every module: optional values and bytes. */
module Wrappers {

  datatype Option<+T> = None | Some(value: T)

  /** One octet of a TCP stream. */
  type byte = x: int | 0 <= x < 256

  function Min(a: int, b: int): (m: int)
    ensures m <= a && m <= b && (m == a || m == b)
  {
    if a <= b then a else b
  }
}
