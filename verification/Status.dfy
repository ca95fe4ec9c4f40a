/** When a deadline has passed, and what a stored status may still claim at read time
    (src/app/domain/status.py). Times count microseconds. */
module Status {
  import opened Wrappers

  type Time = int

  const SECOND: int := 1_000_000
  const HOUR: int := 3600 * SECOND
  const DAY: int := 24 * HOUR
  const FAIL_CLOSED_OFFSET: int := 14 * HOUR
  const CLOSING_SOON_WINDOW_DAYS := 14

  /** A wall-clock reading, with its UTC offset when the source carries one. */
  datatype DateTime = DateTime(local: int, offset: Option<int>)

  datatype Precision = DateOnly | Instant

  datatype PublicStatus = OpenVerified | ExpectedToReopen | StatusUnknown

  datatype Detail = Open | ClosingSoon | LikelyToOpen | Unknown

  /** The zone database, as the offset a named zone has at a wall-clock reading, and the month of an
      instant. */
  datatype Calendar = Calendar(zones: (string, int) -> Option<int>, month: Time -> int)

  /** The part of a cycle's facts that decides its status. */
  datatype Schedule = Schedule(
    deadlineAt: Option<DateTime>, precision: Precision, timezone: Option<string>, reopenMonth: Option<int>)

  function EndOfDay(local: int): int {
    local - local % DAY + DAY - SECOND
  }

  /** The offset of the named zone; a missing, empty or unknown name has none. */
  function ZoneOffset(cal: Calendar, timezone: Option<string>, local: int): Option<int> {
    if timezone.None? || timezone.value == "" then None else cal.zones(timezone.value, local)
  }

  function DeadlineCutoff(d: DateTime, precision: Precision, timezone: Option<string>, cal: Calendar): Time {
    if precision.Instant? then
      match d.offset
      case Some(o) => d.local - o
      case None =>
        match ZoneOffset(cal, timezone, d.local)
        case Some(o) => d.local - o
        case None => d.local
    else
      match ZoneOffset(cal, timezone, EndOfDay(d.local))
      case Some(o) => EndOfDay(d.local) - o
      case None => EndOfDay(d.local) - FAIL_CLOSED_OFFSET
  }

  function Cutoff(s: Schedule, cal: Calendar): Option<Time> {
    match s.deadlineAt
    case None => None
    case Some(d) => Some(DeadlineCutoff(d, s.precision, s.timezone, cal))
  }

  predicate Passed(at: Option<Time>, now: Time) {
    at.Some? && at.value <= now
  }

  function EvaluatePublicStatus(
    stored: PublicStatus, s: Schedule, validUntil: Option<Time>, now: Time, cal: Calendar): PublicStatus
  {
    if stored.OpenVerified? && (Passed(Cutoff(s, cal), now) || Passed(validUntil, now)) then StatusUnknown
    else stored
  }

  function EvaluateStatusDetail(status: PublicStatus, s: Schedule, now: Time, cal: Calendar): Detail {
    match status
    case OpenVerified =>
      var cutoff := Cutoff(s, cal);
      if cutoff.Some? && cutoff.value - now <= CLOSING_SOON_WINDOW_DAYS * DAY then ClosingSoon else Open
    case ExpectedToReopen => LikelyToOpen
    case StatusUnknown => Unknown
  }

  /** A date-only deadline without a zone is cut off no later than it would be in any zone up to
      UTC+14, whatever zone the caller names instead. */
  lemma FailClosed(d: DateTime, timezone: Option<string>, cal: Calendar)
    requires forall o :: ZoneOffset(cal, timezone, EndOfDay(d.local)) == Some(o) ==> o <= FAIL_CLOSED_OFFSET
    ensures DeadlineCutoff(d, DateOnly, None, cal) <= DeadlineCutoff(d, DateOnly, timezone, cal)
  {
    var o := ZoneOffset(cal, timezone, EndOfDay(d.local));
    assert o.Some? ==> o == Some(o.value);
  }

  /** The cutoff is the last second of the calendar date where the zone is: before it the date is not
      over there, and one second after it the date is. */
  lemma CutoffEndsTheDate(local: int, offset: int, now: Time)
    ensures var cutoff := EndOfDay(local) - offset;
            && (now < cutoff + SECOND <==> (now + offset) / DAY <= local / DAY)
  {
    var day := local / DAY;
    assert local - local % DAY == day * DAY;
    var here := now + offset;
    assert here == here / DAY * DAY + here % DAY;
    if here / DAY <= day {
      assert here / DAY * DAY <= day * DAY;
    } else {
      assert here / DAY * DAY >= (day + 1) * DAY;
    }
  }

  /** An instant is cut off at itself, read in its own offset, in its zone, or else in UTC; a date at one
      second before midnight of its zone, or, without one, as if it were fourteen hours ahead of UTC. */
  lemma CutoffMeans(d: DateTime, precision: Precision, timezone: Option<string>, cal: Calendar)
    ensures var zone := (local: int) => if timezone.None? || timezone.value == "" then None
                                        else cal.zones(timezone.value, local);
            var midnight := (d.local / 86_400_000_000 + 1) * 86_400_000_000;
            DeadlineCutoff(d, precision, timezone, cal) ==
            if precision.Instant? then
              d.local - (if d.offset.Some? then d.offset.value
                         else if zone(d.local).Some? then zone(d.local).value else 0)
            else
              midnight - 1_000_000 - (if zone(midnight - 1_000_000).Some? then zone(midnight - 1_000_000).value
                                      else 50_400_000_000)
  {
    assert d.local - d.local % DAY == d.local / DAY * DAY;
  }

  /** What the public is told of a status: open closes soon in its last fourteen days. */
  lemma DetailMeans(status: PublicStatus, s: Schedule, now: Time, cal: Calendar)
    ensures var detail := EvaluateStatusDetail(status, s, now, cal);
            && (detail.ClosingSoon? <==>
                  && status.OpenVerified? && s.deadlineAt.Some?
                  && DeadlineCutoff(s.deadlineAt.value, s.precision, s.timezone, cal) - now <= 1_209_600_000_000)
            && (detail.Open? <==> status.OpenVerified? && !detail.ClosingSoon?)
            && (detail.LikelyToOpen? <==> status.ExpectedToReopen?)
            && (detail.Unknown? <==> status.StatusUnknown?)
  {
  }

  /** A status read as open is before its cutoff and before its validity ends, and every other stored
      status is shown as it is. */
  lemma OpenReadIsInTime(stored: PublicStatus, s: Schedule, validUntil: Option<Time>, now: Time, cal: Calendar)
    ensures var read := EvaluatePublicStatus(stored, s, validUntil, now, cal);
            var detail := EvaluateStatusDetail(read, s, now, cal);
            (detail.Open? || detail.ClosingSoon?)
            <==> stored.OpenVerified? && !Passed(Cutoff(s, cal), now) && !Passed(validUntil, now)
  {
  }
}
