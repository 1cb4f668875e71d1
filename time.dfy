/**
 * Points in time and the whole-second durations between them, as shown by
 * the command line (`remote-ls`, wallet status).
 *
 * A system time is a signed count of nanoseconds from an arbitrary origin;
 * the clock and the RFC 3339 formatter are outside the model and are
 * parameters.
 */
module Time {
  import opened Types

  const NANOS_PER_SEC: nat := 1_000_000_000

  /** A point in time, in nanoseconds. */
  datatype SystemTime = SystemTime(nanos: int)

  /** `std::time::Duration`: whole seconds and the nanoseconds beyond them. */
  datatype StdDuration = StdDuration(secs: nat, subsecNanos: nat)

  /** The command line's duration: always whole seconds. */
  datatype Duration = Duration(inner: StdDuration)

  /** `SystemTime::duration_since`: fails when `earlier` is in fact later. */
  function DurationSince(t: SystemTime, earlier: SystemTime): (r: Result<StdDuration, StdDuration>)
    ensures r.Ok? <==> t.nanos >= earlier.nanos
    ensures r.Ok? ==> r.value.secs * NANOS_PER_SEC + r.value.subsecNanos == t.nanos - earlier.nanos
    ensures r.Ok? ==> r.value.subsecNanos < NANOS_PER_SEC
  {
    var d := t.nanos - earlier.nanos;
    if d >= 0 then Ok(StdDuration(d / NANOS_PER_SEC, d % NANOS_PER_SEC))
    else Err(StdDuration((-d) / NANOS_PER_SEC, (-d) % NANOS_PER_SEC))
  }

  /** `From<time::Duration>`: the sub-second nanoseconds are dropped. */
  function FromStd(d: StdDuration): (r: Duration)
    ensures r.inner.subsecNanos == 0
    ensures r.inner.secs == d.secs
  {
    Duration(StdDuration(d.secs, 0))
  }

  /** `Duration::between`: the time from the earlier to the later of the two. */
  function Between(t1: SystemTime, t2: SystemTime): (r: Duration)
    ensures r.inner.subsecNanos == 0
    ensures r.inner.secs == Abs(t1.nanos - t2.nanos) / NANOS_PER_SEC
  {
    match DurationSince(t1, t2)
    case Ok(d) => FromStd(d)
    case Err(_) =>
      // the source's unreachable second failure: one of the two is always the later
      FromStd(DurationSince(t2, t1).value)
  }

  function Abs(x: int): nat {
    if x < 0 then -x else x
  }

  /** `Duration::since`: the clock read is a parameter. */
  function Since(t: SystemTime, now: SystemTime): Duration {
    Between(t, now)
  }

  /** The order of the two times does not matter. */
  lemma BetweenSymmetric(t1: SystemTime, t2: SystemTime)
    ensures Between(t1, t2) == Between(t2, t1)
  {
    assert Abs(t1.nanos - t2.nanos) == Abs(t2.nanos - t1.nanos);
  }

  /** A time is no time away from itself. */
  lemma BetweenSelf(t: SystemTime)
    ensures Between(t, t) == Duration(StdDuration(0, 0))
  {
  }

  /** Times less than a second apart are zero seconds apart. */
  lemma BetweenSubSecond(t1: SystemTime, t2: SystemTime)
    requires Abs(t1.nanos - t2.nanos) < NANOS_PER_SEC
    ensures Between(t1, t2).inner.secs == 0
  {
  }

  // ---------------------------------------------------------------------------
  // Display
  // ---------------------------------------------------------------------------

  predicate IsDigit(c: char) {
    '0' <= c <= '9'
  }

  /** `full-date` of section 5.6 of RFC 3339: `date-fullyear "-" date-month "-" date-mday`. */
  predicate FullDate(s: string) {
    |s| == 10 && s[4] == '-' && s[7] == '-' &&
    forall i :: 0 <= i < 10 && i != 4 && i != 7 ==> IsDigit(s[i])
  }

  /** `date-time` of section 5.6 of RFC 3339: a full date, `T`, then the time. */
  predicate DateTime(s: string) {
    |s| > 10 && FullDate(s[..10]) && (s[10] == 'T' || s[10] == 't')
  }

  /** `Display for Time`: the first 10 characters of the RFC 3339 form. */
  function Display(t: SystemTime, formatRfc3339: SystemTime -> string): (r: string)
    ensures |r| <= 10 && r <= formatRfc3339(t)
    ensures DateTime(formatRfc3339(t)) ==> FullDate(r)
  {
    var s := formatRfc3339(t);
    if |s| <= 10 then s else s[..10]
  }
}
