/** Stock types shared by every part of the model. */
module Basics {
  datatype Option<+T> = None | Some(value: T)

  /** Postgres timestamps have microsecond resolution. */
  type Time = int

  const SECOND: Time := 1_000_000
  const MINUTE: Time := 60 * SECOND
  const HOUR: Time := 60 * MINUTE
  const DAY: Time := 24 * HOUR

  function Coalesce<T>(first: Option<T>, second: Option<T>): Option<T> {
    if first.Some? then first else second
  }
}
