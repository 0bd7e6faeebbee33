/** Small vocabulary shared by the model: optional values and Go's fixed-width integers. */
module Base {

  /** A Go value that may be nil. */
  datatype Option<+T> = None | Some(value: T)

  /** One byte of a Go `[]byte`. */
  type byte = x: int | 0 <= x < 0x100

  /** Go's `uint64`, the result of `fnv.New64a().Sum64()`. */
  type uint64 = x: int | 0 <= x < 0x1_0000_0000_0000_0000

  const MinInt64: int := -0x8000_0000_0000_0000
  const MaxInt64: int := 0x7fff_ffff_ffff_ffff

  /** Go's `int64` (and `int` on 64-bit targets); `time.Duration` is one of these. */
  type int64 = x: int | -0x8000_0000_0000_0000 <= x <= 0x7fff_ffff_ffff_ffff
}
