/** Values that may be absent: the model's stand-in for C# `null` and for
    JavaScript `null` / `undefined`. */
module Common {

  datatype Option<T> = None | Some(value: T)

  /** An 8-bit unsigned value, the element type of .NET `byte[]`. */
  type byte = x: int | 0 <= x < 256

  /** Smallest and largest value of a C# `int` (System.Int32). */
  const Int32Min: int := -0x8000_0000
  const Int32Max: int := 0x7FFF_FFFF
}
