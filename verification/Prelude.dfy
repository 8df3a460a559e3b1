/** Values every component shares: optional values, results, time and UUIDs. */
module Prelude {

  datatype Option<+T> = None | Some(value: T) {
    function GetOr(default: T): T {
      if Some? then value else default
    }
  }

  datatype Result<+T, +E> = Ok(value: T) | Err(error: E)

  /** A point in time, or a duration, in nanoseconds. */
  type Time = int

  const SECOND: Time := 1_000_000_000
  const MINUTE: Time := 60 * SECOND

  /** The text form of a UUID: 36 characters, each a lower-case hexadecimal digit or a hyphen. */
  predicate UuidChar(c: char) {
    '0' <= c <= '9' || 'a' <= c <= 'f' || c == '-'
  }

  predicate IsUuid(s: string) {
    |s| == 36 && forall c | c in s :: UuidChar(c)
  }

  type UuidText = s: string | IsUuid(s) witness "00000000-0000-0000-0000-000000000000"

  datatype Uuid = Uuid(text: UuidText)

  /** The zero UUID, which claims without a user ID decode to. */
  const NIL_UUID := Uuid("00000000-0000-0000-0000-000000000000")
}
