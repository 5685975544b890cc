/** What every part of the model shares: time, and how a call to a store can end. */
module Common {
  /** Instants and durations, in microseconds: the resolution of timestamptz. */
  type Micros = int

  const SECOND: Micros := 1_000_000

  /** Success, an error after the operation took effect, or an error without effect. */
  datatype Outcome = Works | FailsApplied | FailsClean

  /** A bound of a time range, which may be left out. */
  datatype Bound = Absent | Instant(t: Micros)

  /** Left out, or the zero time, 1 January of year 1: validation does not compare it. */
  predicate IsZero(b: Bound) {
    b.Absent? || b.t == -62_135_596_800 * SECOND
  }
}
