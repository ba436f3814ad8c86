/**
 * The small part of the Java runtime that the containers rely on:
 * nullable references, exceptions as values, the outcome of invoking a
 * callback that may throw, and the wrap-around addition of `int` and `long`.
 */
module Runtime {

  /** A Java reference that may be null (`None`), or a present `Optional`. */
  datatype Option<+T> = None | Some(value: T)

  /**
   * An exception, as an abstract value. The library itself only ever creates
   * the first three kinds; everything a callback throws is `Raised`,
   * identified by its class name and message.
   */
  datatype Exn =
    | NullPointer
    | NoSuchElement
    | IndexOutOfBounds
    | Raised(className: string, message: string)

  /** What invoking a callback does: return a value or throw an exception. */
  datatype Call<+R> = Ok(result: R) | Throw(exn: Exn)

  /**
   * An error of a result whose Java error type is the wildcard `?`: either
   * an error value the container already carried, or an exception that a
   * callback threw and the container caught.
   */
  datatype Fault<+E> = Reported(error: E) | Caught(exn: Exn)

  const TWO_31: int := 0x8000_0000
  const TWO_32: int := 0x1_0000_0000
  const TWO_63: int := 0x8000_0000_0000_0000
  const TWO_64: int := 0x1_0000_0000_0000_0000

  newtype int32 = x: int | -0x8000_0000 <= x < 0x8000_0000
  newtype int64 = x: int | -0x8000_0000_0000_0000 <= x < 0x8000_0000_0000_0000

  /** Two's-complement truncation of an exact integer to 32 bits. */
  function Wrap32(x: int): (r: int32)
    ensures (r as int - x) % TWO_32 == 0
    ensures -TWO_31 <= x < TWO_31 ==> r as int == x
  {
    ((x + TWO_31) % TWO_32 - TWO_31) as int32
  }

  /** Two's-complement truncation of an exact integer to 64 bits. */
  function Wrap64(x: int): (r: int64)
    ensures (r as int - x) % TWO_64 == 0
    ensures -TWO_63 <= x < TWO_63 ==> r as int == x
  {
    ((x + TWO_63) % TWO_64 - TWO_63) as int64
  }

  /** `Integer::sum`: 32-bit addition that wraps on overflow. */
  function IntSum(a: int32, b: int32): (r: int32)
    ensures (r as int - (a as int + b as int)) % TWO_32 == 0
    ensures -TWO_31 <= a as int + b as int < TWO_31 ==> r as int == a as int + b as int
  {
    Wrap32(a as int + b as int)
  }

  /** `Long::sum`: 64-bit addition that wraps on overflow. */
  function LongSum(a: int64, b: int64): (r: int64)
    ensures (r as int - (a as int + b as int)) % TWO_64 == 0
    ensures -TWO_63 <= a as int + b as int < TWO_63 ==> r as int == a as int + b as int
  {
    Wrap64(a as int + b as int)
  }

  /** Truncating first and then adding wraps to the same value as adding exactly. */
  lemma Wrap32Add(x: int, b: int)
    ensures Wrap32(Wrap32(x) as int + b) == Wrap32(x + b)
  {
    var w := Wrap32(x) as int;
    var k := (w - x) / TWO_32;
    assert w + b == (x + b) + k * TWO_32;
  }

  lemma Wrap64Add(x: int, b: int)
    ensures Wrap64(Wrap64(x) as int + b) == Wrap64(x + b)
  {
    var w := Wrap64(x) as int;
    var k := (w - x) / TWO_64;
    assert w + b == (x + b) + k * TWO_64;
  }
}
