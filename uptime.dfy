/** The wait / uptime cell of a fish row: a fish's next uptime window and the
    current time decide what is shown and in which colour. */
module Uptime {
  import opened Duration

  /** The next uptime of a fish, as the uptime calculator hands it over; the times
      are whole seconds on one UTC timeline. */
  datatype Window =
    | Always
    | Unknown
    | Timed(start: int, end: int)

  /** The four configured text colours the cell can use. */
  datatype Colour = AvailableColour | DependentAvailableColour | UpcomingColour | DependentUpcomingColour

  /** The timed part of the cell: a countdown, a remaining time, or nothing. */
  datatype Phase =
    | Upcoming(colour: Colour, value: int, text: Shown)
    | Available(colour: Colour, value: int, text: Shown)
    | Silent

  /** What the cell shows. `hoverWarning` says whether hovering it shows the warning
      that the fish may depend on intuition or mooch. */
  datatype Cell =
    | AlwaysUp(colour: Colour, hoverWarning: bool)
    | UnknownUptime(colour: Colour)
    | TimedCell(phase: Phase, hoverWarning: bool)

  function AvailableColourFor(dependent: bool): Colour
  {
    if dependent then DependentAvailableColour else AvailableColour
  }

  function UpcomingColourFor(dependent: bool): Colour
  {
    if dependent then DependentUpcomingColour else UpcomingColour
  }

  /** The uptime branch of a fish row. `now` stands for both reads of the clock. */
  function DrawUptime(uptime: Window, dependent: bool, now: int): (c: Cell)
    ensures c.AlwaysUp? <==> uptime.Always?
    ensures c.UnknownUptime? <==> uptime.Unknown?
    ensures c.TimedCell? <==> uptime.Timed?
    ensures c.AlwaysUp? ==> (c.hoverWarning == dependent
      && (c.colour == DependentAvailableColour <==> dependent)
      && (c.colour == AvailableColour <==> !dependent))
    ensures c.UnknownUptime? ==> c.colour == UpcomingColour
    ensures c.TimedCell? ==> c.hoverWarning == dependent
  {
    match uptime
    case Always => AlwaysUp(AvailableColourFor(dependent), dependent)
    case Unknown => UnknownUptime(UpcomingColour)
    case Timed(start, end) =>
      var seconds := start - now;
      var duration := now - end;
      var phase :=
        if seconds > 0 then Upcoming(UpcomingColourFor(dependent), seconds, PrintSeconds(seconds))
        else if duration < 0 then Available(AvailableColourFor(dependent), -duration, PrintSeconds(-duration))
        else Silent;
      TimedCell(phase, dependent)
  }

  /** Where `now` lies relative to a window, stated as interval membership. */
  datatype Position = BeforeStart | InsideWindow | PastBoth

  function PositionOf(start: int, end: int, now: int): Position
  {
    if now < start then BeforeStart
    else if now < end then InsideWindow
    else PastBoth
  }

  /** A timed window shows a countdown to its start exactly before the start, the
      time remaining to its end exactly inside it, and nothing once both are past;
      the printed number is always positive and is what PrintSeconds formats. */
  lemma TimedPhases(start: int, end: int, dependent: bool, now: int)
    ensures var c := DrawUptime(Timed(start, end), dependent, now);
      (c.phase.Upcoming? <==> PositionOf(start, end, now) == BeforeStart)
      && (c.phase.Available? <==> PositionOf(start, end, now) == InsideWindow)
      && (c.phase.Silent? <==> PositionOf(start, end, now) == PastBoth)
    ensures var c := DrawUptime(Timed(start, end), dependent, now);
      (c.phase.Upcoming? ==> (c.phase.value == start - now > 0
        && c.phase.text == PrintSeconds(start - now)
        && c.phase.colour == (if dependent then DependentUpcomingColour else UpcomingColour)))
      && (c.phase.Available? ==> (c.phase.value == end - now > 0
        && c.phase.text == PrintSeconds(end - now)
        && c.phase.colour == (if dependent then DependentAvailableColour else AvailableColour)))
  {
  }

  function Rank(p: Phase): nat
  {
    match p
    case Upcoming(_, _, _) => 0
    case Available(_, _, _) => 1
    case Silent => 2
  }

  /** For a fixed window, as time goes on the cell only moves forward through
      countdown, then remaining time, then nothing. */
  lemma PhasesAdvance(start: int, end: int, dependent: bool, now: int, later: int)
    requires now <= later
    ensures Rank(DrawUptime(Timed(start, end), dependent, now).phase)
         <= Rank(DrawUptime(Timed(start, end), dependent, later).phase)
  {
  }

  /** For a well-formed window (start before end) the silent fall-through is reached
      exactly when the end has passed, and the remaining time shown inside the
      window is never more than the window's length. */
  lemma WellFormedWindow(start: int, end: int, dependent: bool, now: int)
    requires start < end
    ensures DrawUptime(Timed(start, end), dependent, now).phase.Silent? <==> end <= now
    ensures DrawUptime(Timed(start, end), dependent, now).phase.Available? ==>
      DrawUptime(Timed(start, end), dependent, now).phase.value <= end - start
  {
  }

  /** Every number the cell prints is positive, so PrintSeconds is only ever asked
      for positive values: in the minutes form that means 0..60 minutes and
      0..59 seconds, recomposing exactly to the printed value. */
  lemma PrintedFieldsInRange(uptime: Window, dependent: bool, now: int)
    ensures var c := DrawUptime(uptime, dependent, now);
      c.TimedCell? && !c.phase.Silent? ==>
        c.phase.value > 0
        && ShownSeconds(c.phase.text) <= c.phase.value < ShownSeconds(c.phase.text) + SecondsPerMinute
        && (c.phase.text.Minutes? ==> (0 <= c.phase.text.minutes <= MinutesPerHour
              && 0 <= c.phase.text.seconds < SecondsPerMinute))
        && (c.phase.text.Hours? ==> (1 <= c.phase.text.hours <= 24
              && 0 <= c.phase.text.minutes < MinutesPerHour))
  {
    var c := DrawUptime(uptime, dependent, now);
    if c.TimedCell? && !c.phase.Silent? {
      var v := c.phase.value;
      ShownSecondsRoundTrip(v);
      if v <= SecondsPerHour {
        MinutesFields(v);
      } else if v <= SecondsPerDay {
        HoursFields(v);
      }
    }
  }

  /** A fish that starts ten seconds from now shows a ten second countdown. */
  lemma CountdownExample(now: int)
    ensures DrawUptime(Timed(now + 10, now + 70), false, now)
         == TimedCell(Upcoming(UpcomingColour, 10, Minutes(0, 10)), false)
  {
  }

  /** A fish whose window started five seconds ago and ends in 55 seconds shows the
      55 seconds that remain, not the five that have passed. */
  lemma RemainingExample(now: int)
    ensures DrawUptime(Timed(now - 5, now + 55), false, now)
         == TimedCell(Available(AvailableColour, 55, Minutes(0, 55)), false)
  {
  }
}
