/** Absolute instants and the fixed durations the evaluator uses. */
module Instants {

  /** An absolute instant in nanoseconds since the Unix epoch, the smallest
      step of Go's `time.Time`: `now.Add(1)` is the instant one tick later. */
  type Instant = int

  const Second: int := 1_000_000_000

  /** One day in a fixed-offset zone. */
  const Day: int := 86_400_000_000_000

  /** Seven days in a fixed-offset zone. */
  const Week: int := 604_800_000_000_000
}
