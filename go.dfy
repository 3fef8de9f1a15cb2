/** Go's value types and conversions, as far as the resolver uses them. */
module Go {

  type byte = x: int | 0 <= x < 0x100
  type uint16 = x: int | 0 <= x < 0x1_0000
  type uint32 = x: int | 0 <= x < 0x1_0000_0000

  /** A Go string is an immutable sequence of bytes, so `[]byte(s)` has the same contents as `s`. */
  type GoString = seq<byte>

  /** A Go pointer that may be nil. */
  datatype Option<T> = None | Some(value: T)

  /** A Go `error`; `text` is what its `Error()` method returns. */
  datatype Error = Error(text: GoString)

  /** A Go `(T, error)` pair of which exactly one half is meaningful. */
  datatype Result<T> = Ok(value: T) | Err(err: Error)

  /** Go's conversion `uint16(x)` of a `uint32`: it keeps the low 16 bits. */
  function Uint16(x: uint32): (r: uint16)
    ensures x < 0x1_0000 ==> r == x
    ensures (x - r) % 0x1_0000 == 0
  {
    x % 0x1_0000
  }

  /** Go's conversion `uint32(x)` of an `int`: two's-complement truncation to the low 32 bits. */
  function Uint32(x: int): (r: uint32)
    ensures 0 <= x < 0x1_0000_0000 ==> r == x
    ensures (x - r) % 0x1_0000_0000 == 0
  {
    x % 0x1_0000_0000
  }

  /** The bytes of a Go string literal; every literal of the resolver is ASCII. */
  function Bytes(s: string): (b: GoString)
    ensures |b| == |s|
    ensures forall i | 0 <= i < |s| :: s[i] as int < 0x100 ==> b[i] == s[i] as int
  {
    seq(|s|, i requires 0 <= i < |s| => (s[i] as int) % 0x100)
  }
}
