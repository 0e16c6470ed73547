/** Small value types shared by every program of the collection. */
module Common {

  /** Go's `error` result: None is a nil error, Some(msg) an error whose Error() is msg. */
  datatype Option<+T> = None | Some(value: T)

  /** A fallible foreign call that either yields a value or fails with a message. */
  datatype Result<+T> = Ok(value: T) | Err(msg: string)

  /** A reading of the clock (time.Now()); its value is opaque to every program. */
  datatype Instant = Instant(ticks: int)

  /** time.Time{}, the zero time carried by zero-valued records. */
  const ZeroInstant: Instant := Instant(0)

  newtype byte = x: int | 0 <= x < 256

  function Last<T>(s: seq<T>): T
    requires s != []
  {
    s[|s| - 1]
  }
}
