/**
 * Small value types shared by every other module: an optional value
 * (Java's null and JavaScript's undefined), identifiers and bytes.
 */
module Common {

  /** A value that may be absent: Java's `null`, JavaScript's `null`/`undefined`. */
  datatype Option<+T> = None | Some(value: T) {
    function GetOr(default: T): T {
      match this
      case Some(v) => v
      case None => default
    }
  }

  /** An entity identifier. UUID generation is replaced by a counter in the store. */
  type Uuid = nat

  /** A timestamp as the text that `LocalDateTime.toString()` would produce; the clock is a parameter. */
  type Timestamp = string

  /** An unsigned byte. */
  newtype byte = x: int | 0 <= x < 256
}
