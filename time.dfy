/** `LocalDateTime` and `LocalDate` as integers, and the conversions between them that the core uses. */
module Time {

  /** A `LocalDateTime`, as nanoseconds from the start of day 0 (no time zone is involved). */
  type Instant = int

  /** A `LocalDate`, as a day number. */
  type Date = int

  const NanosPerDay: nat := 86_400_000_000_000

  /** `LocalDateTime.toLocalDate()`: the day an instant falls on (division rounds down). */
  function DayOf(t: Instant): Date
  {
    t / NanosPerDay
  }

  /** `LocalDate.atStartOfDay()`. */
  function StartOfDay(d: Date): Instant
  {
    d * NanosPerDay
  }

  /** An instant falls on day `d` exactly when it lies in the half-open window of that day. */
  lemma DayOfWindow(t: Instant, d: Date)
    ensures DayOf(t) == d <==> StartOfDay(d) <= t < StartOfDay(d + 1)
  {
  }

  /** Later days start later. */
  lemma StartOfDayMonotone(a: Date, b: Date)
    requires a <= b
    ensures StartOfDay(a) <= StartOfDay(b)
  {
  }
}
