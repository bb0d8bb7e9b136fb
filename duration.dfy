/** The duration formatter of the fish tab: a number of seconds is shown in one
    of three forms, chosen by strict comparisons against a day and an hour. */
module Duration {

  const SecondsPerMinute: int := 60
  const MinutesPerHour: int := 60
  const SecondsPerHour: int := 3600
  const SecondsPerDay: int := 86400

  /** Division of two C# `long` values: the quotient is truncated toward zero. */
  function TDiv(a: int, d: int): int
    requires d > 0
  {
    if a >= 0 then a / d else -((-a) / d)
  }

  /** Remainder of two C# `long` values: it takes the sign of the dividend. */
  function TRem(a: int, d: int): int
    requires d > 0
  {
    if a >= 0 then a % d else -((-a) % d)
  }

  /** Truncating division by a minute and its remainder recompose the dividend,
      and the remainder is smaller than a minute in magnitude and never of the
      opposite sign. */
  lemma TruncatedDivision(a: int)
    ensures TDiv(a, SecondsPerMinute) * SecondsPerMinute + TRem(a, SecondsPerMinute) == a
    ensures a >= 0 ==> 0 <= TRem(a, SecondsPerMinute) < SecondsPerMinute && TDiv(a, SecondsPerMinute) >= 0
    ensures a < 0 ==> -SecondsPerMinute < TRem(a, SecondsPerMinute) <= 0 && TDiv(a, SecondsPerMinute) <= 0
  {
  }

  /** What PrintSeconds puts on screen. The "Days" form shows the seconds divided
      by a day with two decimals; only the seconds it is computed from are kept. */
  datatype Shown =
    | Days(seconds: int)
    | Hours(hours: int, minutes: int)
    | Minutes(minutes: int, seconds: int)

  /** The seconds a display stands for when read back. */
  function ShownSeconds(r: Shown): int
  {
    match r
    case Days(s) => s
    case Hours(h, m) => h * SecondsPerHour + m * SecondsPerMinute
    case Minutes(m, s) => m * SecondsPerMinute + s
  }

  /** The three-way duration formatter. Both tests are strict, so exactly one day
      is still shown in hours and exactly one hour is still shown in minutes. */
  function PrintSeconds(seconds: int): (r: Shown)
    ensures r.Days? <==> seconds > SecondsPerDay
    ensures r.Hours? <==> SecondsPerHour < seconds <= SecondsPerDay
    ensures r.Minutes? <==> seconds <= SecondsPerHour
    ensures r.Days? ==> r.seconds == seconds
  {
    if seconds > SecondsPerDay then
      Days(seconds)
    else if seconds > SecondsPerHour then
      Hours(TDiv(seconds, SecondsPerHour), TRem(TDiv(seconds, SecondsPerMinute), MinutesPerHour))
    else
      Minutes(TDiv(seconds, SecondsPerMinute), TRem(seconds, SecondsPerMinute))
  }

  /** The boundary values named by the strict comparisons. */
  lemma PrintSecondsBoundaries()
    ensures PrintSeconds(SecondsPerDay) == Hours(24, 0)
    ensures PrintSeconds(SecondsPerDay + 1).Days?
    ensures PrintSeconds(SecondsPerHour) == Minutes(60, 0)
    ensures PrintSeconds(SecondsPerHour + 1) == Hours(1, 0)
  {
  }

  /** In the hours form the hours lie in 1..24, the minutes in 0..59, and the
      display is the input rounded down to a whole minute. */
  lemma HoursFields(seconds: int)
    requires SecondsPerHour < seconds <= SecondsPerDay
    ensures PrintSeconds(seconds).Hours?
    ensures 1 <= PrintSeconds(seconds).hours <= 24
    ensures 0 <= PrintSeconds(seconds).minutes < MinutesPerHour
    ensures ShownSeconds(PrintSeconds(seconds)) <= seconds < ShownSeconds(PrintSeconds(seconds)) + SecondsPerMinute
  {
    var q, s0 := seconds / 60, seconds % 60;
    var h, m := q / 60, q % 60;
    assert seconds == 60 * q + s0;
    assert q == 60 * h + m;
    assert seconds == 3600 * h + 60 * m + s0;
    assert 0 <= 60 * m + s0 < 3600;
    assert seconds / 3600 == h;
    assert PrintSeconds(seconds) == Hours(h, m);
  }

  /** In the minutes form a non-negative input is split exactly into minutes and
      seconds; the seconds lie in 0..59 and 60 minutes appear only for one hour. */
  lemma MinutesFields(seconds: int)
    requires 0 <= seconds <= SecondsPerHour
    ensures PrintSeconds(seconds).Minutes?
    ensures ShownSeconds(PrintSeconds(seconds)) == seconds
    ensures 0 <= PrintSeconds(seconds).seconds < SecondsPerMinute
    ensures 0 <= PrintSeconds(seconds).minutes <= MinutesPerHour
    ensures PrintSeconds(seconds).minutes == MinutesPerHour <==> seconds == SecondsPerHour
  {
    TruncatedDivision(seconds);
  }

  /** A negative input also takes the minutes form; truncation toward zero still
      recomposes it, with both fields non-positive. */
  lemma NegativeMinutes(seconds: int)
    requires seconds < 0
    ensures PrintSeconds(seconds).Minutes?
    ensures ShownSeconds(PrintSeconds(seconds)) == seconds
    ensures -SecondsPerMinute < PrintSeconds(seconds).seconds <= 0
    ensures PrintSeconds(seconds).minutes <= 0
  {
    TruncatedDivision(seconds);
  }

  /** Reading a display back loses at most the seconds of the hours form: for every
      non-negative input it is within one minute below the input. */
  lemma ShownSecondsRoundTrip(seconds: int)
    requires seconds >= 0
    ensures ShownSeconds(PrintSeconds(seconds)) <= seconds < ShownSeconds(PrintSeconds(seconds)) + SecondsPerMinute
    ensures !PrintSeconds(seconds).Hours? ==> ShownSeconds(PrintSeconds(seconds)) == seconds
  {
    if seconds > SecondsPerDay {
    } else if seconds > SecondsPerHour {
      HoursFields(seconds);
    } else {
      MinutesFields(seconds);
    }
  }
}
