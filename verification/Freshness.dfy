/** The re-verification cadence (src/app/domain/freshness.py). */
module Freshness {
  import opened Wrappers
  import opened Status

  datatype Bucket = OpenFar | OpenNear | RollingOpen | UpcomingNear | UpcomingFar | ExpectedOrUnknown

  datatype Config = Config(
    nearDeadlineDays: int, upcomingNearMonths: int, upcomingFarMonths: int,
    openFarFetchHours: int, openFarMaxAgeHours: int,
    openNearFetchHours: int, openNearMaxAgeHours: int,
    rollingFetchHours: int, rollingMaxAgeHours: int,
    upcomingNearFetchHours: int, upcomingFarFetchHours: int, upcomingMaxAgeHours: int,
    unknownFetchHours: int, unknownMaxAgeHours: int)

  function FetchInterval(bucket: Bucket, cfg: Config): int {
    HOUR * match bucket
      case OpenFar => cfg.openFarFetchHours
      case OpenNear => cfg.openNearFetchHours
      case RollingOpen => cfg.rollingFetchHours
      case UpcomingNear => cfg.upcomingNearFetchHours
      case UpcomingFar => cfg.upcomingFarFetchHours
      case ExpectedOrUnknown => cfg.unknownFetchHours
  }

  function MaxEvidenceAge(bucket: Bucket, cfg: Config): int {
    HOUR * match bucket
      case OpenFar => cfg.openFarMaxAgeHours
      case OpenNear => cfg.openNearMaxAgeHours
      case RollingOpen => cfg.rollingMaxAgeHours
      case UpcomingNear => cfg.upcomingMaxAgeHours
      case UpcomingFar => cfg.upcomingMaxAgeHours
      case ExpectedOrUnknown => cfg.unknownMaxAgeHours
  }

  function ClassifyBucket(status: PublicStatus, s: Schedule, now: Time, cfg: Config, cal: Calendar): Bucket {
    if status.OpenVerified? then
      match Cutoff(s, cal)
      case None => RollingOpen
      case Some(cutoff) => if cutoff - now <= cfg.nearDeadlineDays * DAY then OpenNear else OpenFar
    else if status.ExpectedToReopen? && s.reopenMonth.Some? then
      var months := (s.reopenMonth.value - cal.month(now)) % 12;
      if months <= cfg.upcomingNearMonths then UpcomingNear
      else if months <= cfg.upcomingFarMonths then UpcomingFar
      else ExpectedOrUnknown
    else ExpectedOrUnknown
  }

  predicate IsReverifyDue(bucket: Bucket, lastVerifiedAt: Option<Time>, now: Time, cfg: Config) {
    lastVerifiedAt.None? || now - lastVerifiedAt.value >= FetchInterval(bucket, cfg)
  }

  /** How often an open cycle is fetched and how old its evidence may be: by whether it has a deadline, and
      whether that is near. */
  lemma OpenCadence(s: Schedule, now: Time, cfg: Config, cal: Calendar)
    ensures var b := ClassifyBucket(OpenVerified, s, now, cfg, cal);
            if s.deadlineAt.None? then
              FetchInterval(b, cfg) == cfg.rollingFetchHours * 3_600_000_000
              && MaxEvidenceAge(b, cfg) == cfg.rollingMaxAgeHours * 3_600_000_000
            else if DeadlineCutoff(s.deadlineAt.value, s.precision, s.timezone, cal)
                    <= now + cfg.nearDeadlineDays * 86_400_000_000 then
              FetchInterval(b, cfg) == cfg.openNearFetchHours * 3_600_000_000
              && MaxEvidenceAge(b, cfg) == cfg.openNearMaxAgeHours * 3_600_000_000
            else
              FetchInterval(b, cfg) == cfg.openFarFetchHours * 3_600_000_000
              && MaxEvidenceAge(b, cfg) == cfg.openFarMaxAgeHours * 3_600_000_000
  {
  }

  /** And any other cycle: by how many months it is from reopening, if anybody knows. */
  lemma UpcomingCadence(status: PublicStatus, s: Schedule, now: Time, cfg: Config, cal: Calendar)
    requires !status.OpenVerified?
    ensures var b := ClassifyBucket(status, s, now, cfg, cal);
            var known := status.ExpectedToReopen? && s.reopenMonth.Some?;
            if known && (s.reopenMonth.value - cal.month(now)) % 12 <= cfg.upcomingNearMonths then
              FetchInterval(b, cfg) == cfg.upcomingNearFetchHours * 3_600_000_000
              && MaxEvidenceAge(b, cfg) == cfg.upcomingMaxAgeHours * 3_600_000_000
            else if known && (s.reopenMonth.value - cal.month(now)) % 12 <= cfg.upcomingFarMonths then
              FetchInterval(b, cfg) == cfg.upcomingFarFetchHours * 3_600_000_000
              && MaxEvidenceAge(b, cfg) == cfg.upcomingMaxAgeHours * 3_600_000_000
            else
              FetchInterval(b, cfg) == cfg.unknownFetchHours * 3_600_000_000
              && MaxEvidenceAge(b, cfg) == cfg.unknownMaxAgeHours * 3_600_000_000
  {
  }

  /** A cycle never rechecked is due at once, any other one interval after its last recheck. */
  lemma DueMeans(bucket: Bucket, lastVerifiedAt: Option<Time>, now: Time, cfg: Config)
    ensures IsReverifyDue(bucket, lastVerifiedAt, now, cfg)
            <==> (lastVerifiedAt.Some? ==> lastVerifiedAt.value + FetchInterval(bucket, cfg) <= now)
  {
  }

  datatype Hash = Hash(hex: string)

  predicate IsUnchangedRecheck(previous: Option<Hash>, current: Hash, httpStatus: int, statusStillValid: bool) {
    previous.Some? && 200 <= httpStatus < 400 && current == previous.value && statusStillValid
  }
}
