/** Values the .NET runtime contributes to the model: the exceptions the
    core can raise, 32-bit integers, the outcome of parsing a number, and
    the result of an operation that may throw. */
module Runtime {

  /** The exceptions the modelled code raises, named after the .NET types.
      `InvalidGrammar` is the `Exception` thrown when the probabilities of a
      grammar do not add up, `ShouldNeverHappen` the one thrown by a matcher
      that finds no rule, `Failed` the message-less ones of the sphere. */
  datatype Exception =
    | IndexOutOfRange
    | ArgumentOutOfRange
    | Format
    | NullReference
    | InvalidOperation
    | Overflow
    | InvalidGrammar
    | ShouldNeverHappen
    | Failed

  datatype Option<+T> = None | Some(value: T)

  /** The outcome of a call: a value, or the exception it threw. */
  datatype Result<+T> = Ok(value: T) | Throw(exception: Exception)

  const Int32Min: int := -0x8000_0000
  const Int32Max: int := 0x7FFF_FFFF

  /** The values of a C# `int`. */
  type Int32 = x: int | Int32Min <= x <= Int32Max

  /** The C# `int` a computation gives in an unchecked context: the
      mathematical value reduced modulo 2^32 into the `int` range. */
  function Wrap32(x: int): (r: Int32)
    ensures Int32Min <= x <= Int32Max ==> r == x
    ensures Int32Max < x <= Int32Max + 0x1_0000_0000 ==> r == x - 0x1_0000_0000
    ensures Int32Min - 0x1_0000_0000 <= x < Int32Min ==> r == x + 0x1_0000_0000
  {
    ((x - Int32Min) % 0x1_0000_0000) + Int32Min
  }

  /** What `int.Parse` and `float.Parse` make of a text: a number, a
      `FormatException` for a text that is not one, or an
      `OverflowException` for a number outside the range of the type. */
  datatype Parsed<+T> = Number(value: T) | Malformed | OutOfRange

  /** `Math.Max(1, n)`. */
  function AtLeastOne(n: int): (r: int)
    ensures r >= 1 && r >= n
    ensures r == n || r == 1
  {
    if n < 1 then 1 else n
  }
}
