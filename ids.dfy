/**
 * Identities and instants that the system obtains from the runtime
 * (`Guid.NewGuid()`, `DateTime.UtcNow`). Only equality on them is observed,
 * so they are abstract here and every operation that creates one receives it
 * as a parameter.
 */
module Ids {

  /** A 128-bit GUID; only compared for equality. */
  type Guid(==)

  /** A UTC timestamp; only stored and copied. */
  type Instant(==)
}
