/** Small shared vocabulary of the model. */
module Base {

  datatype Option<+T> = None | Some(value: T)

  /** A point in time or a duration, in nanoseconds. */
  type Time = int

  /** The zero `time.Time`, which the source uses as "unset" (`IsZero`). */
  const ZERO_TIME: Time := 0

  const SECOND: Time := 1_000_000_000

  function Min(a: int, b: int): int {
    if a <= b then a else b
  }
}
