/** Vocabulary shared by the whole model: identifiers, time, and the usual option type. */
module Common {

  datatype Option<+T> = None | Some(value: T)

  // Canonical UUIDs (bookings, events, users, rows, messages, workers) are opaque values that can only be compared.
  type Id = nat

  // One clock tick is a microsecond, the resolution of a PostgreSQL timestamp.
  type Time = int

  const SECOND: Time := 1_000_000

  function Max(a: int, b: int): int {
    if a < b then b else a
  }

  function Min(a: int, b: int): int {
    if a < b then a else b
  }
}
