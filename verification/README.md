# A verified model of the scholarship backend

A Dafny 4.11 model of the backend's protocols, state machines and loops, with proofs of what they keep. Each
database table is a map, set, multiset or sequence of rows; each committed transaction is one atomic step; times
are numbers and identifiers are natural numbers that grow with creation. Code that works by changing rows in place
is modelled by classes and loops that are proved against a specification function, and the theorems are about those
functions and about all runs of them. What each main operation decides and writes is stated once more on the stored
values alone, as a lemma about its specification function and in the contract of its method.

## How the project is laid out

| part | files |
|---|---|
| rate limiter | `RateLimit.dfy` |
| page windows and the byte cut | `PageWindow.dfy`, `Utf8.dfy`, `Sorting.dfy` |
| durable jobs | `Jobs.dfy` (transitions), `JobStore.dfy` (the table), `JobRuns.dfy` (all interleavings), `Deliveries.dfy` (schedules and their keys), `Worker.dfy` (nested sweeps) |
| freshness | `Status.dfy`, `Freshness.dfy`, `CycleStore.dfy` (one cycle), `CycleRuns.dfy` (all interleavings), `CycleWitnesses.dfy` (four runs), `ReverifySweep.dfy` (the sweep's loops) |
| discoveries | `Database.dfy`, `Ingestion.dfy`, `Splitting.dfy`, `Importer.dfy` (loops), `Contents.dfy` (when two texts are one), `Lineage.dfy` (which revises which), `Linking.dfy` (duplicates) |
| review | `Reviews.dfy` (rules and interleavings), `Evaluations.dfy` (how often a discovery is evaluated), `ReviewDesk.dfy` (the transactions) |
| facts and matching | `Words.dfy`, `Taxonomy.dfy`, `Facts.dfy`, `Sanitizing.dfy`, `Publication.dfy`, `Edits.dfy`, `Display.dfy`, `Matching.dfy`, `DetailPage.dfy`, `Samples.dfy` |
| search | `Cursors.dfy`, `Ranking.dfy`, `Paging.dfy`, `SearchRuns.dfy`, `SearchService.dfy`, `Replays.dfy` (what replays show), `ReplayWitness.dfy` (one run) |
| shared | `Wrappers.dfy`, `Ids.dfy`, `Invariants.dfy` |

`dafny verify dfyconfig.toml` checks the whole project.

## What the proofs show about the code

The main results, each for every input or every run:

- The limiter's trimmed and lazily evicted queues decide exactly like an unbounded history.
- With handlers that end within their lease, a job is held by at most one worker, its attempts count its claims, and
  a finished job never changes. Without that assumption finished jobs stay finished exactly when every write passes a
  check on the stored row (`JobRuns.FinishedStayIff`), which the code does not make.
- Nested sweeps end, by a measure that does not mention the clock; two scheduled deliveries are one job exactly when
  they are of one kind and one period.
- What a fresh read shows as open is published, before its deadline's cutoff and before its validity ends; between a
  refresh that found it open and the next edit, it is also before the evidence that the last such refresh saw goes
  stale. A replayed search page is a stored read: what it shows as open was in time when the search was submitted, and
  is still true of the records it was stored from exactly as long as neither cutoff nor validity has passed.
- Duplicate pointers never form a cycle; they form a star exactly as long as no link job finds an original for a
  discovery that others already point at.
- Without ties in creation time the revisions of a page form one chain; with ties, exactly as long as the database
  picks the latest one. Split children stay outside it either way.
- Replaying an import creates nothing exactly when no replayed record that was turned away for its source finds that
  source active now and its content still nowhere; resubmitting an item, however late, creates nothing.
- A task is decided once and creates at most one scholarship, whoever races whom.
- Rebuilding published facts is the identity; sanitizing is idempotent. On one published cycle, search's decision is the
  detail page's for a searcher who wants one of its destinations, and no match for everybody else. The page takes any
  published cycle of the scholarship: whichever it takes, it explains what search has found exactly when all of them
  would give the searcher one decision.
- Following the cursors through one ranked list gives all of it once; every page is ranked anew, so the list itself may
  change between pages. No stored page is overwritten by another.

Where the code differs from its own comments, the code is modelled, with an input and the exact condition:

- The comment at src/app/infra/corroboration.py:14-18 calls the duplicates a star. Linked out of id order they can be
  a chain (`Linking.OutOfOrderBreaksStar`, `Linking.StarIff`).
- A restore after an unchanged recheck is meant to make a cycle readable as open again (src/app/infra/freshness.py:427-430),
  but it leaves `status_valid_until` in the past. A cycle that once read unknown reads otherwise only after an edit or
  after a refresh that was in flight across the end of that validity (`CycleRuns.UnknownIsForEverIff`,
  `CycleWitnesses.LateRefreshReopens`).
- A withdrawn record is meant to assert no open application (src/app/infra/withdrawals.py:47), yet a recheck that began before
  the withdrawal can store `open_verified` on it afterwards, shown to nobody (`CycleWitnesses.WithdrawnRecordCanStoreOpen`,
  `CycleRuns.ConcludeOnWithdrawnRecord`).
- `auto_downgraded` is meant to hold only of unknown cycles; it does exactly as long as no edit gives a flagged cycle
  another status (`CycleRuns.FlagMeansUnknownIff`, `CycleWitnesses.EditMislabels`). A reviewer's own unknown is meant
  never to be promoted (src/app/domain/models.py:131-137). One chosen at publication never is
  (`CycleRuns.PublishersUnknownStays`); one chosen by an edit lasts until the next edit exactly when the edit found no
  flag or no recheck since has found the page unchanged (`CycleRuns.ReviewersUnknownIff`,
  `CycleWitnesses.ReviewersUnknownIsPromoted`).
- Search is meant not to claim that a closed award is open (src/app/api/routes.py:599-605), and the replay of a search is
  meant to leave out what is actively misleading (src/app/api/routes.py:1275-1282). It leaves out withdrawn records only:
  an award whose cutoff or validity has passed is replayed as open for up to thirty days (`Replays.ReplayIsTrueIff`,
  `ReplayWitness.ReplayOutlivesValidity`).
- A single failed fetch is meant never to call for a review (src/app/infra/freshness.py:271-274), but an error page overwrites
  the stored hash, so the next recheck of the unchanged page reports changed content exactly when the error page read
  differently (`CycleStore.ErrorPageFlagsIff`).
- A discovery is meant to supersede the latest revision of its page. Rows of one transaction share `created_at`, so two
  revisions of one batch tie and the next import may pick either (`Lineage.ImportKeepsLineageIff`,
  `Lineage.EmptyShelfCanFork`).
- An item whose content hash is known is taken for the same candidate (src/app/infra/agent_integration.py:243-246). The
  hash joins address, title and excerpt by line breaks, so it is exactly when the titles are of one length; a title
  of two lines and another text can share a hash (`Contents.SameHashIff`, `Contents.OtherTextIsRepeated`).
- An item whose content hash is known is taken for the same candidate (src/app/infra/agent_integration.py:243-246). The
  hash joins address, title and excerpt by line breaks, so it is exactly when the titles are of one length; a title
  of two lines and another text can share a hash (`Contents.SameHashIff`, `Contents.OtherTextIsRepeated`).
- An item whose content hash is known is taken for the same candidate (src/app/infra/agent_integration.py:243-246). The
  hash joins address, title and excerpt by line breaks, so it is exactly when the titles are of one length; a title
  of two lines and another text can share a hash (`Contents.SameHashIff`, `Contents.OtherTextIsRepeated`).
- An item whose content hash is known is taken for the same candidate (src/app/infra/agent_integration.py:243-246). The
  hash joins address, title and excerpt by line breaks, so it is exactly when the titles are of one length; a title
  of two lines and another text can share a hash (`Contents.SameHashIff`, `Contents.OtherTextIsRepeated`).
- An item whose content hash is known is taken for the same candidate (src/app/infra/agent_integration.py:243-246). The
  hash joins address, title and excerpt by line breaks, so it is exactly when the titles are of one length; a title
  of two lines and another text can share a hash (`Contents.SameHashIff`, `Contents.OtherTextIsRepeated`).
- A stored deadline without a precision is read as an instant (src/app/domain/facts.py:127) but rewritten as a date by
  any edit (src/app/domain/publication.py:158), which can make a lapsed deadline open again
  (`Edits.EmptyEditKeepsScheduleIff`, `Samples.EmptyEditMovesDeadline`); evidence marked fresh by a number becomes
  fresh for readers (`Edits.EmptyEditKeepsFreshnessIff`, `Samples.EmptyEditFreshens`).
- `complete_job` does not store the `attempts=0` of `finish_job` (src/app/domain/jobs.py:66-67), so a completed row counts
  its claims for ever (`JobRuns.CompletedKeepsAttempts`).
- `auto_review_evaluated_at` is described as a single evaluation ever (src/app/domain/models.py:322-325). The mark is never
  cleared, but neither a decision that fails nor a failed publication sets it: a discovery is evaluated again exactly as
  long as nothing has settled it (`Evaluations.EvaluatedAgainIff`). With nobody else at work that takes a publication
  that fails and a new task (`Evaluations.EvaluatedTwice`), or a title whose slug does not fit its column, which repeats
  the same task (`Evaluations.SameTaskTwice`), and nothing else (`Evaluations.SequentialEvaluatesAgainIff`,
  `Evaluations.SameTaskAgainIff`).
- The dispatch of the outbox is scheduled with a fixed key on the grounds that it needs no key of its own for each tick
  (scripts/manage_dispatch_outbox_schedule.py:4-7), but the kind is in none of the recurring sets: once its first job
  is finished, no scheduled delivery dispatches anything again (`Deliveries.OutboxIsDispatchedOnce`,
  `Deliveries.FinishedJobAnswersIff`).

## Standing assumptions

- A locked SELECT reads the current committed row, and a committed transaction is one step.
- Identifiers grow with creation (UUIDv7, section 5.7 of RFC 9562).
- `fromisoformat(isoformat(d)) == d`, `str` of a string is the string, `strip` is idempotent, and JSON and base64
  decode what they encode.
- Taxonomy codes are unchanged by `strip().lower()` and country codes by `strip().upper()`.
- The cursor's keyed hash cannot be forged: a correctly signed text was signed here.
- No two texts share a SHA-256 digest (`Contents.SameHashIff` only).
- A live handler ends before its lease expires (`JobRuns.Enabled`; the lemmas about `JobRuns.FreeRun` do without).
- While a sweep runs, no new sweep is delivered, and other handlers keep the table's rules (`Worker.Behaves`).
- Creation times of one page's revisions grow strictly (`Lineage.Untied`; the lemmas about `Lineage.FreeRun` do without).
- The text of a dedupe key names its kind and its week, hour or quarter-hour uniquely (`Deliveries.Distinct`).

## Model

| member | source | states |
|---|---|---|
| `RateLimit.NoWindowOverflows` | src/app/core/rate_limit.py:12-21 | no window of the given length, wherever it ends, ever holds more accepted calls of a key than its limit, for every sequence of calls with a non-decreasing clock |
| `RateLimit.BucketDecides` | src/app/core/rate_limit.py:14-21 | counting what is left of a trimmed queue is counting the accepted calls of the full history that lie in the window |
| `RateLimit.AdmitsMeans` | src/app/core/rate_limit.py:16-21 | the decision by the unbounded history: the number of the key's accepted calls inside the window against the limit |
| `RateLimit.InMemoryRateLimiter.constructor` | src/app/core/rate_limit.py:8-10 | a new limiter is faithful to the empty history for every window |
| `RateLimit.InMemoryRateLimiter.Allow` | src/app/core/rate_limit.py:12-21 | each decision is that of the unbounded history, the history grows exactly by the accepted call, and no queue silent for two windows is kept |
| `RateLimit.InMemoryRateLimiter.DropElapsed` | src/app/core/rate_limit.py:16-17 | popping from the front leaves exactly the entries inside the window, in order |
| `RateLimit.InMemoryRateLimiter.EvictExpired` | src/app/core/rate_limit.py:23-34 | deleting whole queues changes no later decision |
| `RateLimit.InMemoryRateLimiter.Remember` | src/app/core/rate_limit.py:18-21 | the trimmed queue, with the call itself if accepted, still stands for the whole history |
| `RateLimit.Serve` | src/app/core/rate_limit.py:12-34 | over any sequence of calls the limiter answers like the full history throughout |
| `Utf8.DecodeOfEncode` | src/app/infra/candidate_extraction.py:57-58 | decoding with errors ignored gives back every text (section 3 of RFC 3629) |
| `Utf8.FirstCharIff` | src/app/infra/candidate_extraction.py:57-58 | a decoded character is exactly one whose encoding the bytes begin with: no overlong form, surrogate or stray byte is taken for one |
| `Utf8.KnownEncodings` | src/app/infra/candidate_extraction.py:57-58 | the encodings of section 7 of RFC 3629 |
| `Utf8.TruncateFits` | src/app/infra/candidate_extraction.py:57-58 | cutting the bytes and decoding what is left yields the longest character prefix whose encoding fits the cap |
| `PageWindow.MatchInOneWindow` | src/app/infra/candidate_extraction.py:104-129 | each match lies whole in exactly one window |
| `PageWindow.MergeIsUnique` | src/app/infra/candidate_extraction.py:113-124 | what the windows cover determines them: there is one way to merge |
| `PageWindow.MergedWindows` | src/app/infra/candidate_extraction.py:113-124 | the windows are in order, strictly apart, inside the page, and cover exactly the union of the clamped contexts |
| `PageWindow.WindowPageText` | src/app/infra/candidate_extraction.py:104-129 | the windows show exactly the characters at most 150 away from a match; the text sent on is the longest prefix of the joined windows, or of the page when nothing matches, that fits the byte cap |
| `PageWindow.JoinedAppends` | src/app/infra/candidate_extraction.py:128 | the windows' texts follow one another with dots between two of them |
| `JobStore.JobTable.EnqueueJob` | src/app/infra/jobs.py:13-34 | one row per dedupe key however often a message is delivered, and a new one is queued with no attempt, lease, error or delay |
| `JobStore.JobTable.ClaimJobForExecution` | src/app/infra/jobs.py:37-50 | a claim succeeds exactly on a queued or waiting row whose delay is over, and makes it running with one more attempt and a lease of 900 s; the rest of the row stays |
| `JobStore.JobTable.CompleteJob` | src/app/infra/jobs.py:53-58 | whatever state is stored, the row becomes completed without lease or next attempt, keeps attempts, kind, key and last error, and no other row changes |
| `JobStore.JobTable.FailJobForExecution` | src/app/infra/jobs.py:61-69 | whatever state is stored, the row waits 60, 120, 240 or 480 s by its attempts or, at five attempts or for a kind never retried, goes to review, without lease and with the first 1000 characters of the error; attempts, kind, key and every other row are kept |
| `JobStore.JobTable.ReconcileStuckJobs` | src/app/infra/jobs.py:72-100 | exactly the oldest unlocked rows with an expired lease are failed, at most the limit, and each waits for its retry or goes to review with the error of a lost lease |
| `JobStore.AbandonedTaken` | src/app/infra/jobs.py:79-100 | of the specified reconciliation: who is taken, who is left only because the limit is reached by older ones, and every value of a taken row |
| `JobStore.FirstDelays` | src/app/domain/jobs.py:74 | the backoff is a minute at first and doubles |
| `JobStore.NotRetried` | src/app/domain/jobs.py:14-23 | which kinds a failure sends to review at once |
| `JobStore.JobTable.FailEach` | src/app/infra/jobs.py:93-98 | the loop treats each selected row once and no other |
| `JobStore.JobTable.DueJobs` | src/app/infra/jobs.py:110-126 | due, unlocked rows in id order, all of them unless the limit is reached |
| `JobRuns.EveryStateIsSafe` | src/app/infra/jobs.py:37-100 | in every interleaving with handlers ending within their lease: running exactly with a lease, one live worker a job, attempts equal to claims and at most five (one for a kind never retried), total backoff at most 900 s, one row a key |
| `JobRuns.CapNeverReached` | src/app/domain/jobs.py:70-78 | no failure in any run, reported by a worker or by reconciliation, is delayed by more than 480 s, so the cap of 21600 s never applies |
| `JobRuns.TerminalForEver` | src/app/infra/jobs.py:53-69 | completed and failed_review rows never change again |
| `JobRuns.BackoffIsHonoured` | src/app/domain/jobs.py:70-78 | a failed job is not claimed again before its whole backoff has passed |
| `JobRuns.NothingStranded` | src/app/infra/jobs.py:72-100 | an expired lease belongs to no live worker, and reconciliation takes its job to retry or review |
| `JobRuns.CompletedKeepsAttempts` | src/app/infra/jobs.py:53-58 | in every run a completed row has as many attempts as claims, at least one, although finishing computes zero |
| `JobRuns.LateWorkerRevivesCompletedJob` | src/app/infra/jobs.py:53-69 | without the lease assumption a concrete run ends with a completed job pulled back to retry_wait |
| `JobRuns.WriteIsHarmlessIff` | src/app/infra/jobs.py:53-69 | one write leaves every finished job in its state exactly when the row read before it is unfinished or already finished the way the write would finish it |
| `JobRuns.FinishedStayIff` | src/app/infra/jobs.py:53-69 | in any run, handlers outliving their leases included, no job ever leaves its finished state exactly when every write passes that check |
| `Worker.ClaimUsesLeft` | src/app/infra/worker.py:67-107 | claiming a sweep lowers the clock-independent measure, so nested sweeps end |
| `Worker.Worker.ExecuteJob` | src/app/infra/worker.py:67-107 | a due job is claimed, success means its row is completed and failure that the failure is stored, and everybody else's work is kept |
| `Worker.Worker.RecordOutcome` | src/app/infra/worker.py:85-107 | the outcome changes one row and keeps its kind, key and attempts |
| `Worker.Worker.RunHandler` | src/app/infra/worker.py:74-84 | the handler of a sweep or a reconciliation keeps the table's rules and ends |
| `Worker.Worker.ExecuteDueJobs` | src/app/infra/worker.py:124-147 | completed plus failed is the number selected, each selected job has been claimed by the time the call returns, and below the limit none that was due and unlocked was missed |
| `Worker.Worker.Deliver` | src/app/api/routes.py:461-514 | an unknown kind changes nothing; otherwise the job of the recomputed key, which is the key sent unless that is the kind's scheduled text, exists afterwards and is new only if no row had it; one that is not due changes nothing, a due one has been claimed, by this call or by somebody else first; 200 means completed, 502 that the failure is stored, or that the claim was lost and nothing was written |
| `Worker.Worker.ExecuteFound` | src/app/infra/jobs.py:37-50 | between the check and the claim anybody may claim the job first; then nothing is written |
| `Deliveries.KeyMeans` | src/app/api/routes.py:423-458 | an operator's own key is kept for every kind; only the scheduled text gets the key of its ISO week, hour or quarter-hour, and only for the kinds that recur |
| `Deliveries.ScheduledKeysAgreeIff` | src/app/api/routes.py:423-458 | two scheduled deliveries get one key exactly when they are of one kind and fall into one period of it |
| `Deliveries.PeriodsApart` | src/app/api/routes.py:445-458 | deliveries a whole week, hour or quarter-hour apart are never taken for one another |
| `Deliveries.FinishedJobAnswersIff` | src/app/api/routes.py:410-417 | in every run a finished job answers a later scheduled delivery, which runs nothing, exactly within the period it was stored for |
| `Deliveries.OutboxIsDispatchedOnce` | scripts/manage_dispatch_outbox_schedule.py:4-35 | once the outbox's scheduled job is finished, every later scheduled delivery of any run finds it finished and runs nothing |
| `Status.FailClosed` | src/app/domain/status.py:12-49 | a date-only deadline of unknown zone is cut off no later than in any zone up to UTC+14 |
| `Status.CutoffEndsTheDate` | src/app/domain/status.py:12-49 | the cutoff is the last second of the calendar date where the zone is |
| `Status.CutoffMeans` | src/app/domain/status.py:33-49 | an instant is cut off at itself in its offset, its zone or UTC; a date one second before midnight of its zone, or of UTC+14 when the zone is missing, empty or unknown |
| `Status.DetailMeans` | src/app/domain/status.py:85-122 | an open cycle closes soon exactly when its cutoff is at most fourteen days ahead; which other status shows as what |
| `Status.OpenReadIsInTime` | src/app/domain/status.py:52-122 | a read shows open or closing soon exactly for a stored open status before its cutoff and its validity |
| `Freshness.OpenCadence` | src/app/domain/freshness.py:59-117 | interval and evidence age of an open cycle by whether it has a deadline and whether that is near |
| `Freshness.UpcomingCadence` | src/app/domain/freshness.py:59-124 | and of any other by the months to its reopening, counted across the turn of the year |
| `Freshness.DueMeans` | src/app/domain/freshness.py:127-136 | due at once if never rechecked, else one interval after the last recheck |
| `CycleStore.RefreshSettles` | src/app/infra/freshness.py:158-224 | after a tick the stored status is what a read says, open exactly when it read open on evidence younger than its bucket allows; the validity becomes the earlier of cutoff and end of evidence, the flag rises only for staleness, other statuses are untouched, and a second tick changes nothing |
| `CycleStore.OpenUntilEvidenceEnds` | src/app/infra/freshness.py:80-93 | until the next write a read says open exactly before the evidence deadline and the cutoff |
| `CycleStore.OutcomeOfReverify` | src/app/infra/freshness.py:348-480 | flagged exactly when a comparable page has another hash, or when there is nothing to compare (the fetch raised or failed, or there was no hash) and the evidence is too old; renewed exactly when the hash is the same and the deadline ahead; deferred otherwise; the reason of each flag, and what is left of the row: only a renewal writes it, and only it lifts a downgrade for staleness |
| `CycleStore.RestoreIsVisibleIff` | src/app/infra/freshness.py:420-431 | a restored cycle reads open exactly when its stored validity lies ahead, which the restore does not renew |
| `CycleStore.ErrorPageFlagsIff` | src/app/infra/source_persistence.py:49-56 | after one error response the next recheck of the unchanged page reports changed content exactly when the error page's hash differs |
| `CycleStore.Cycle.RefreshOneStatus` | src/app/infra/freshness.py:158-224 | the in-place update is the specified tick, every stored value as above, and the result says whether the status changed |
| `CycleStore.Cycle.ApplyReverify` | src/app/infra/freshness.py:385-480 | the in-place update and the outcome are the specified recheck, and both are stated in full on the stored values |
| `CycleStore.Cycle.Update` | src/app/infra/publication.py:120-182 | an edit writes status, validity, evidence and schedule as given and leaves the flag and the creation time |
| `CycleStore.RefreshDueStatuses` | src/app/infra/freshness.py:120-155 | every locked cycle settles but for those whose evaluation raises, which stay as they are; the counters say how many were read and changed |
| `CycleStore.DowngradesAreNumbers` | src/app/infra/freshness.py:138-155 | the second counter is the number of rows that end with another status |
| `CycleStore.WithdrawCycles` | src/app/infra/withdrawals.py:40-49 | every cycle of the record stops claiming a status and a validity, and keeps the rest |
| `CycleRuns.OpenIsAlwaysInTime` | src/app/infra/withdrawals.py:40-49 | what a fresh read shows as open is published, before its cutoff and its validity; in every run no fresh read shows anything of a withdrawn record again |
| `CycleRuns.OpenWhileEvidenceLives` | src/app/infra/freshness.py:80-93 | in every run, between a refresh and the next edit, what is shown as open is before the cutoff and before the end of the evidence as the last refresh saw it |
| `CycleRuns.EvidenceIsTheLastRecheck` | src/app/infra/freshness.py:420-431 | in every run without edits the evidence is dated by the last recheck that found the page unchanged, at the time its sweep began |
| `CycleRuns.FlagAlways` | src/app/infra/freshness.py:180-223 | in every run without edits of the cycle, auto_downgraded implies an unknown status whose validity is over, or cleared by a withdrawal |
| `CycleRuns.FlagHasACause` | src/app/infra/freshness.py:205-223 | the flag is up only after a tick that downgraded the cycle for staleness, with the status unknown ever since |
| `CycleRuns.FlagMeansUnknownIff` | src/app/infra/publication.py:161-167 | throughout a run the flag holds only of an unknown cycle exactly when no edit gives a flagged cycle another status |
| `CycleRuns.ReviewersUnknownIff` | src/app/domain/models.py:131-137 | the unknown that an edit chooses is stored until the next edit exactly when the edit found no flag or no recheck since has found the page unchanged |
| `CycleRuns.PublishersUnknownStays` | src/app/infra/freshness.py:424-426 | an unknown chosen at publication stays until somebody edits the cycle |
| `CycleWitnesses.ReviewersUnknownIsPromoted` | src/app/infra/freshness.py:420-431 | a concrete run under the shipped hours in which what a reviewer set to unknown is shown as open without another edit |
| `CycleWitnesses.EditMislabels` | src/app/infra/publication.py:161-167 | a concrete run in which an edit leaves a flagged cycle that is not unknown |
| `CycleRuns.OnlyRechecksReopen` | src/app/infra/freshness.py:385-431 | without edits of the cycle, unknown becomes open only through a successful fetch of the unchanged page before the cutoff, after a downgrade for staleness alone |
| `CycleRuns.UnknownIsForEverIff` | src/app/infra/freshness.py:135-154 | in a run without edits of the cycle, one that once reads unknown reads nothing else again exactly when no refresh that began before the end of its validity commits after it with the cutoff and the evidence's life still ahead |
| `CycleWitnesses.LateRefreshReopens` | src/app/infra/freshness.py:135-154 | a concrete run under the shipped hours in which such a refresh turns unknown into open |
| `CycleRuns.ConcludeOnWithdrawnRecord` | src/app/infra/freshness.py:420-431 | a verdict written after a withdrawal stores open exactly when the flag was up and the page unchanged, and shows nothing |
| `CycleWitnesses.WithdrawnRecordCanStoreOpen` | src/app/infra/freshness.py:348-431 | a concrete run under the shipped hours in which a withdrawn record ends with a stored open status |
| `ReverifySweep.SelectDue` | src/app/infra/freshness.py:293-311 | the first due cycles in scan order up to the limit, and all due ones below it |
| `ReverifySweep.VisitCycle` | src/app/infra/freshness.py:314-344 | one visit changes the cycle as the recheck decides, or not at all after a withdrawal or a rollback, and raises the counter of just that outcome |
| `ReverifySweep.VisitVisits` | src/app/infra/freshness.py:313-345 | the same of the specified visit, by what the fetch decides |
| `ReverifySweep.ReverifyEach` | src/app/infra/freshness.py:313-345 | each cycle is treated by its own visit whatever happens to the others, and the counters are the totals |
| `ReverifySweep.CountsAddUp` | src/app/infra/freshness.py:313-345 | every selected cycle is gone, crashed, renewed, flagged or deferred, and exactly one of these |
| `Reviews.OpenOnceKeeps` | src/app/infra/linking.py:94-129 | opening a task once keeps every rule of the desk and leaves a live task of the subject |
| `Reviews.DecidedResolves` | src/app/infra/reviews.py:14-53 | of the specified decision: exactly when it is refused, and every row it writes |
| `Reviews.EarlyGateMeans` | src/app/infra/auto_approval.py:66-120 | which evidence stops an attempt before the page is compared, with which reason, and which of the stops are final |
| `Reviews.LateGateMeans` | src/app/infra/auto_approval.py:122-165 | the later stops are all final, and none happens exactly when every check passes and one of five slugs is free |
| `Reviews.EveryStateIsOk` | src/app/infra/auto_approval.py:65-299 | in every interleaving: one live task a discovery and a cycle, one drafting job a discovery task, one scholarship a task, and every automatic one passed every gate |
| `Reviews.ResolvedForEver` | src/app/infra/reviews.py:14-53 | a resolved task never changes state, resolution or subject |
| `Reviews.LostRaceCreatesNothing` | src/app/infra/auto_approval.py:215-219 | an automatic attempt whose task was decided while it held no lock creates nothing |
| `Evaluations.MarkIffSettled` | src/app/infra/auto_approval.py:65-292 | in every run the mark of an evaluation is never cleared and is set by exactly a final verdict or a publication that succeeds |
| `Evaluations.NeverAgainOnceMarked` | src/app/infra/auto_approval.py:73-77 | after the mark no attempt on the discovery, through whatever task, gets past the early gates or changes anything |
| `Evaluations.EvaluatedAgainIff` | src/app/domain/models.py:322-325 | a discovery once evaluated is evaluated again exactly when nothing settled it in between |
| `Evaluations.SequentialEvaluatesAgainIff` | src/app/infra/auto_approval.py:163-267 | with nobody else at work: exactly when the first attempt passed every late gate and then its slug was too long for the column or it could not publish |
| `Evaluations.SameTaskAgainIff` | src/app/infra/auto_approval.py:302-311 | and through the same task exactly when the slug was too long |
| `Evaluations.ShortTitleOnce` | src/app/infra/auto_approval.py:302-311 | so a task whose title leaves room for a suffix is never evaluated twice with nobody else at work |
| `Evaluations.AttemptedIsItsSteps` | src/app/infra/auto_approval.py:65-299 | that undisturbed attempt is its steps of a run, one right after the other |
| `Evaluations.AttemptMeans` | src/app/infra/auto_approval.py:65-299 | what an undisturbed attempt leaves in every table: nothing, a mark, or a scholarship under the first free slug with its task resolved and its discovery linked, marked and published exactly if it could be |
| `Evaluations.EvaluatedTwice` | src/app/infra/auto_approval.py:256-267 | a concrete run of one attempt after another: approved but not published, asked about again, and past every early gate a second time |
| `Evaluations.SameTaskTwice` | src/app/domain/models.py:68 | a concrete run of one attempt after another in which a slug of 256 characters sends the same task past every early gate twice |
| `ReviewDesk.ReviewDesk.AddReviewTaskOnce` | src/app/infra/linking.py:94-129 | inserts an open task with its reason, and for a discovery the job that drafts it, unless a live task of the subject exists, and answers with a live one either way |
| `ReviewDesk.ReviewDesk.DecideReview` | src/app/infra/reviews.py:11-53 | accepted exactly for an open task, and to approve one only with every detail, a known award type, an existing discovery and a free slug that fits; resolves it with the first 2000 characters of the reason; an approval creates the scholarship and links the discovery; nothing else changes |
| `ReviewDesk.ReviewDesk.StopAt` | src/app/infra/auto_approval.py:85-90 | stopping an attempt marks the discovery only for a final verdict |
| `ReviewDesk.ReviewDesk.AttemptAutoApproval` | src/app/infra/auto_approval.py:65-299 | with anybody else at work between its transactions, an approval means every gate passed, the task was open, and a published scholarship of its own exists; an early stop touches no task or scholarship; with nobody else at work it is the undisturbed attemp; undisturbed, all it writes |
| `ReviewDesk.ReviewDesk.FinishAttempt` | src/app/infra/auto_approval.py:122-299 | what follows the fetched page: a late stop marks the discovery, anything else goes on to the decision; with nobody else at work it is the undisturbed rest of the attempt |
| `ReviewDesk.ReviewDesk.FindSlug` | src/app/infra/auto_approval.py:302-311 | the first of five candidates that no scholarship has, or none |
| `ReviewDesk.ReviewDesk.DecideAndPublish` | src/app/infra/auto_approval.py:202-299 | the automatic decision goes through the ordinary one and publishes only what it created; a slug that is taken by now or too long is raised, any other refusal reported, and neither changes a table |
| `ReviewDesk.ReviewDesk.PublishOwn` | src/app/infra/auto_approval.py:227-299 | whatever others did since the decision, the created scholarship is published or the failure reported |
| `ReviewDesk.ReviewDesk.Publish` | src/app/infra/auto_approval.py:240-299 | publishing keeps the desk's rules and the scholarship's owner |
| `Linking.LinkDiscovery` | src/app/infra/linking.py:14-91 | the oldest earlier original from another page makes the discovery its duplicate; without one the number of scholarships of its name decides: one is linked, none makes it a new candidate, several need a review, and the last two open a task with their reason; answer, stored row and task in full |
| `Linking.LinkedDeskLinks` | src/app/domain/linking.py:19-24 | the same of the specified link job, which all runs are made of |
| `Linking.LinkKeepsDesk` | src/app/infra/linking.py:14-129 | a link job keeps the desk's rules and leaves resolved tasks alone |
| `Linking.EdgesAlwaysDecrease` | src/app/infra/linking.py:21-53 | whatever the order and the replays, duplicate pointers strictly decrease, join different pages and keep the identity key |
| `Linking.Root` | src/app/infra/linking.py:21-53 | chasing pointers ends at a report of the same award that is nobody's duplicate |
| `Linking.LinkKeepsStarIff` | src/app/infra/linking.py:21-53 | a link job keeps the star exactly unless it makes a duplicate of a discovery others point at |
| `Linking.StarIff` | src/app/infra/linking.py:21-53 | throughout a run the duplicates form a star exactly when no link job finds an original for a discovery that others already point at |
| `Linking.OutOfOrderBreaksStar` | src/app/infra/corroboration.py:14-18 | three reports linked out of order make a chain, against the comment cited |
| `Linking.OriginalIsFirst` | src/app/infra/linking.py:25-46 | in a table linked in order the search finds the oldest report or nothing |
| `Linking.OrderedLinksKeepStar` | src/app/infra/linking.py:21-53 | with first links in id order, any replays: every duplicate points at a root, linked roots of one key are on one page, replays change no pointer |
| `Ingestion.ImportConserves` | src/app/infra/ingestion.py:125-268 | the four counters add up to the input; new discoveries are imported plus changed, each with exactly its two jobs; quarantine grows by the rejected |
| `Ingestion.KnownBatchIsIdle` | src/app/infra/ingestion.py:170-178 | a batch of known records creates nothing and is judged record by record |
| `Ingestion.BatchIsDealt` | src/app/infra/ingestion.py:125-268 | after a batch each record is on the shelf or would be rejected again |
| `Ingestion.ReimportCreatesNothing` | src/app/infra/ingestion.py:125-268 | with the sources as they were, replaying records in any order, however much later, creates no discovery and no job; accepted ones count as repeated, rejected ones are rejected again |
| `Ingestion.ReimportCreatesNothingIff` | src/app/infra/ingestion.py:134-178 | whatever has become of the sources, a replay creates nothing exactly when no replayed record that was turned away for its source finds it active now and its content still nowhere |
| `Ingestion.SwitchedOnIsCreated` | src/app/infra/ingestion.py:134-178 | and such a record does create a discovery once its source is switched on |
| `Splitting.SubmitConserves` | src/app/infra/agent_integration.py:158-196 | created, duplicates and rejected add up; new discoveries are the created ones, each with two jobs |
| `Splitting.EveryItemIsAnswered` | src/app/infra/agent_integration.py:199-288 | each answer names a discovery with the item's content on the right page, or carries the reason |
| `Splitting.ResubmitCreatesNothing` | src/app/infra/agent_integration.py:236-248 | submitting an item again, however much later, creates nothing and answers duplicate |
| `Lineage.HeadIsLatest` | src/app/infra/ingestion.py:180-195 | without ties in creation time the head is the latest revision however the database breaks ties |
| `Lineage.HeadIsLatestIff` | src/app/infra/ingestion.py:180-195 | and exactly then: with a tie some database picks another row |
| `Lineage.LineageIffHeads` | src/app/infra/ingestion.py:180-208 | in any interleaving, ties included, every discovery is in its place throughout exactly when each import that creates a revision is given the latest one |
| `Lineage.ImportKeepsLineageIff` | src/app/infra/ingestion.py:180-208 | one import keeps the lineage under every database exactly when the page has no revision or its newest one is the latest and no other |
| `Lineage.PageHistoryIsOneChain` | src/app/infra/ingestion.py:180-208 | in every interleaving of imports and splits in which revisions are created one after the other in time, repeats and refusals at any time, the revisions of a page form one chain in creation order |
| `Lineage.SplitChildrenStayOut` | src/app/infra/agent_integration.py:258-267 | in any run, ties included, split children neither revise nor are revised and point at an older parent; whatever is revised is an older revision of the same page |
| `Lineage.NoFork` | src/app/infra/ingestion.py:180-208 | in the same runs as the chain no discovery is revised twice |
| `Lineage.TiesCanFork` | src/app/domain/models.py:41-45 | once two revisions are tied and the second revises the first, a later import can revise the first again |
| `Lineage.BatchReachesTie` | src/app/domain/models.py:41-45 | from the empty shelf a batch with two contents of one page reaches that tie, whatever the database does |
| `Lineage.EmptyShelfCanFork` | src/app/domain/models.py:41-45 | and a third content of the page can then fork its history |
| `Lineage.ContentsStayUnique` | src/app/infra/ingestion.py:170-178 | in any run, ties included, no page ever holds the same content twice, whether it came by feed or by split |
| `Lineage.CreatedRowsCanBeLinked` | src/app/infra/ingestion.py:196-210 | whatever is created is what link jobs expect: newest id, key of the stored title, no pointer |
| `Importer.Importer.AddDiscovery` | src/app/infra/ingestion.py:197-241 | one discovery and its two pending jobs |
| `Importer.Importer.ImportRecord` | src/app/infra/ingestion.py:128-246 | one turn of the loop is the specified step, its four buckets stated in full: quarantined with the address as sent or canonical, seen again, or a new row, changed exactly when its page had one; its pending jobs are those it created |
| `Importer.Importer.ImportFeedRecords` | src/app/infra/ingestion.py:105-268 | the whole batch, its counters, and the dispatch of exactly the created jobs |
| `Importer.Importer.SubmitCandidate` | src/app/infra/agent_integration.py:199-288 | one item is the specified step with its answer, both in full: refused with the reason, answered with a row of the same content, or a new child under its heading that revises nothing |
| `Importer.Importer.SubmitCandidates` | src/app/infra/agent_integration.py:124-196 | no answer exactly for a missing parent, page or source, an error exactly for a switched-off source, otherwise one result an item and counters that count them |
| `Importer.Importer.SubmitEach` | src/app/infra/agent_integration.py:158-172 | the loop over the items with its three counters |
| `Ingestion.PrepareKeeps` | src/app/domain/ingestion.py:15-22 | what is kept of a text: canonical address, stripped title, stripped excerpt or none, and the digest of the three, a line for each |
| `Ingestion.ImportOneImports` | src/app/infra/ingestion.py:128-246 | the four buckets row by row, for the specified step |
| `Ingestion.TotalsAreNumbers` | src/app/infra/ingestion.py:125-246 | each counter is the number of records with its verdict |
| `Splitting.SubmitOneSubmits` | src/app/infra/agent_integration.py:199-288 | the same for an item: whose page it is found on, what is stored of it, what is answered |
| `Splitting.HavingIsTheNumber` | src/app/infra/agent_integration.py:156-172 | each counter of a submission is the number of results with its status |
| `Contents.SameHashIff` | src/app/infra/agent_integration.py:243-246 | two texts of one page that share a hash are the same text exactly when their titles are of one length, as titles of one line always are |
| `Contents.OtherTextIsRepeated` | src/app/domain/ingestion.py:17-18 | a title of two lines and its first line alone, with the second in front of the excerpt, count as one content: the second text never becomes a discovery |
| `Taxonomy.NormalizeCodes` | src/app/domain/taxonomy.py:51-65 | the sorted canonical codes and the sorted values nobody recognises |
| `Taxonomy.NormalizeTwice` | src/app/domain/taxonomy.py:39-49 | normalizing twice is normalizing once |
| `Taxonomy.LabelsInCodeOrder` | src/app/domain/facts.py:202 | the labels of sorted codes, one by one, are the sorted label set |
| `Taxonomy.TaxonomyIsWellFormed` | src/app/domain/taxonomy.py:99-172 | in the shipped tables no code is an alias, and labels sort like their codes |
| `Facts.FillSanitizedDict` | src/app/domain/facts.py:69-102 | filling the dictionary step by step gives the specified dictionary |
| `Facts.CleanReadsBack` | src/app/domain/facts.py:105-209 | clean values survive being written and read, all but the details of a missing deadline |
| `Facts.SanitizeTwice` | src/app/domain/facts.py:69-209 | sanitizing is idempotent on arbitrary raw facts |
| `Sanitizing.SanitizedMeans` | src/app/domain/facts.py:69-209 | under each key, for arbitrary raw facts: lists as the sorted codes or texts they hold, labels of the fields listed, modes and freshness only from their literals, notes, months, funding types and deadlines only when they are well-formed; nothing else |
| `Facts.SanitizingKeepsSchedule` | src/app/domain/facts.py:105-139 | raw and sanitized facts give the same cutoff and reopening month |
| `Facts.ScheduleMeans` | src/app/domain/facts.py:126-140 | which deadline, precision, zone and reopening month arbitrary raw facts stand for |
| `Publication.BuildCycleFacts` | src/app/domain/publication.py:20-114 | accepted exactly when there are destinations and levels, every code is known or covered, each restriction names something and zone and funding type exist; then each key holds its codes, once and in order, its labels, or its value, optional ones only when given, and no other key exists |
| `Publication.AcceptedRecords` | src/app/domain/publication.py:56-114 | the same of the specified builder, from which every version of a record comes |
| `Publication.EditStoresWhatItAsks` | src/app/api/routes.py:983-988 | an edit is refused for a stored deadline that is no timestamp; else it is accepted exactly when what it sends, together with what is stored under the keys it leaves alone, may be published, and stores just that |
| `Publication.TruthyMeans` | src/app/domain/publication.py:89-107 | which stored values count as none |
| `Publication.EmptyEditIsIdentityIff` | src/app/api/routes.py:983-988 | an empty edit of published facts is the identity while the vocabulary covers them, and is refused once it does not |
| `Publication.RebuildIsIdentity` | src/app/domain/publication.py:20-164 | building from the inputs read back from built facts gives the same facts |
| `Edits.BuiltIsOk` | src/app/domain/publication.py:64-94 | whatever is stored has sorted, repetition-free, supported codes, and a non-empty list under each restricted mode |
| `Edits.EveryVersionIsOk` | src/app/api/routes.py:982-1005 | so does every version after any edits, and a further empty edit under any vocabulary changes nothing |
| `Edits.EditKeepsTheRest` | src/app/api/routes.py:983-986 | an accepted edit changes no key it does not mention |
| `Edits.EmptyEditKeepsScheduleIff` | src/app/domain/publication.py:158 | an edit of a blob keeps its deadline exactly when the blob stores a precision; otherwise an instant becomes a date |
| `Samples.EmptyEditMovesDeadline` | src/app/domain/publication.py:158 | an accepted record without a precision whose deadline an empty edit moves by ten hours |
| `Edits.EmptyEditKeepsFreshnessIff` | src/app/domain/publication.py:156 | an edit keeps the freshness a reader saw exactly unless it is marked by something true other than true itself |
| `Samples.EmptyEditFreshens` | src/app/domain/publication.py:156 | an accepted record marked fresh by a number that an empty edit makes fresh |
| `Display.KeyStaysIff` | src/app/domain/facts.py:69-102 | under each key sanitizing leaves what was built exactly when its type is the promised one |
| `Display.SanitizingKeepsBuiltIff` | src/app/domain/publication.py:99-113 | readers see built facts exactly as stored if and only if every value has its promised type |
| `Matching.Score` | src/app/domain/matching.py:72-86 | the accumulated score and reasons are the specified ones |
| `Matching.ScoreIsTheReasons` | src/app/domain/matching.py:72-86 | the score is the sum of what the listed reasons are worth, none listed twice |
| `Matching.EvaluateMatch` | src/app/domain/matching.py:46-86 | a decision exists exactly when a listed destination is a target, a listed level stands for a wanted one, a restricted award lists the origin and a restricted field list shares a preferred one; fit, score and reasons are stated on the blob too |
| `Matching.MatchMeans` | src/app/domain/matching.py:46-86 | the same of the specified matcher, which search and the detail page use |
| `Matching.MatchSurvivesIff` | src/app/domain/matching.py:46-86 | for one profile, a match on raw facts survives sanitizing exactly when a restricted award names the origin as a string; sanitizing creates none |
| `Matching.StringOriginsAgree` | src/app/domain/matching.py:46-86 | for one profile, with string origins raw and sanitized facts agree on match or no match |
| `Matching.SanitizingOnlyWeakens` | src/app/domain/matching.py:72-86 | sanitizing only moves the fit from confirmed to possible, exactly for modes outside their literals, and only loses points, exactly ten for odd freshness |
| `Matching.PublishedDecisionsAgree` | src/app/domain/matching.py:46-86 | for published facts under the API's modes raw and sanitized facts give the same whole decision for every profile |
| `DetailPage.FoundIsExplainedIff` | src/app/api/routes.py:1634-1635 | on one cycle: whatever search finds, the page, which asks about the cycle's own destinations, matches too exactly when a restricted award names the origin as a string |
| `DetailPage.ExplainedIsFoundIff` | src/app/api/routes.py:1451 | on one cycle: what the page matches, search finds exactly when the cycle has a destination among the searcher's targets |
| `DetailPage.PublishedSearchIsDetail` | src/app/api/routes.py:1626-1635 | on one published cycle search's whole decision is the page's for whoever wants one of its destinations, and none for everybody else |
| `DetailPage.ExplainedByAllIff` | src/app/api/routes.py:1549-1565 | on any stored facts: whichever cycle of the scholarship the page is given, it has a match to explain exactly when each of them admits the searcher but for the destinations and names a restricted origin as a string |
| `DetailPage.EveryPickExplainsIff` | src/app/api/routes.py:1549-1565 | for published facts: whichever cycle the page is given, it explains the decision search found on one of them exactly when all of them would give the searcher one decision |
| `Samples.PickedTheOtherCycle` | src/app/api/routes.py:1563 | a scholarship with two published cycles of which search finds one and the page, given the other, has nothing to explain |
| `Samples.ShippedTablesQualify` | src/app/domain/taxonomy.py:99-172 | the shipped tables are among those the samples speak of |
| `Samples.RightfulIsAdmitted` | src/app/domain/matching.py:46-71 | a restricted award of law and the searcher it is for |
| `Samples.OtherTargetIsRefused` | src/app/domain/matching.py:50-52 | refused for another destination alone |
| `Samples.OtherLevelIsRefused` | src/app/domain/matching.py:53-56 | refused for another degree level alone |
| `Samples.OtherOriginIsRefused` | src/app/domain/matching.py:57-60 | refused for another origin alone |
| `Samples.OtherFieldIsRefused` | src/app/domain/matching.py:61-71 | refused for another field alone |
| `Samples.SureButNotFresh` | src/app/domain/matching.py:72-86 | confirmed with 40 points and two reasons, since its evidence is not marked fresh |
| `Samples.ExplainedButNotFound` | src/app/api/routes.py:1634 | a published record and a searcher for whom search has nothing and the detail page has a match |
| `Cursors.RSplitAtLastDot` | src/app/core/cursors.py:51 | splitting at the last dot recovers payload and signature even if the payload has dots |
| `Cursors.DecodeOfEncodeIff` | src/app/core/cursors.py:21-64 | a minted cursor is accepted exactly for its own filters and limit and gives back its place |
| `Cursors.AcceptedWasMinted` | src/app/core/cursors.py:46-64 | with an unforgeable signature, what is accepted is the unchanged content of a minted cursor |
| `Ranking.ShownOpenIsInTime` | src/app/api/routes.py:596-626 | search shows open or closing soon exactly for an open row before its cutoff and validity, and never an unknown one |
| `Ranking.ResultShows` | src/app/api/routes.py:596-657 | a row is shown exactly when it suits the searcher and is live or expected to reopen; confirmed exactly when both stored modes are known; deadline and month as stored |
| `Ranking.KnownComeFirst` | src/app/api/routes.py:1454-1468 | in the ranked list an award whose modes are known comes before every one of unknown mode |
| `Ranking.PossibleRanked` | src/app/api/routes.py:1461-1473 | as many results are possible as rows are shown and uncertain |
| `Ranking.OpenFirst` | src/app/api/routes.py:1454-1464 | among results of one fit open before closing soon before likely to open |
| `Ranking.EarlierDeadlineFirst` | src/app/api/routes.py:660-664 | among live results of one fit and status the earlier deadline text first, none last, ties by the older cycle |
| `Ranking.RankedIsSorted` | src/app/api/routes.py:1461-1468 | the ranked list is a permutation of the matches in key order, no possible result before a confirmed one |
| `Ranking.ScanOrderDoesNotMatter` | src/app/api/routes.py:1461-1468 | the ranked list depends on the rows only, not on the order they are delivered in |
| `Ranking.SoonerReopeningFirst` | src/app/api/routes.py:660-669 | the padded text order is the numeric one: fewer months to reopening come first, across the turn of the year |
| `Paging.ConfirmedCounts` | src/app/api/routes.py:1469-1472 | one entry for each status that occurs among the confirmed results, with its count |
| `Paging.CountIsTheirNumber` | src/app/api/routes.py:1469-1472 | the count of a status is the number of confirmed results that have it |
| `Paging.PossibleIsTheirNumber` | src/app/api/routes.py:1473 | the possible count is the number of possible results |
| `Paging.CountsAddUp` | src/app/api/routes.py:1469-1473 | confirmed counts and possible count add up to the total |
| `Paging.CursorsLeadOn` | src/app/api/routes.py:1474-1482 | following the cursors visits the pages in order |
| `Paging.FollowedPagesAreTheList` | src/app/api/routes.py:1474-1482 | the pages of one ranked list one after another are all of it, full but for the last |
| `SearchRuns.ReplayChangesNothing` | src/app/api/routes.py:1325-1352 | a replay signs no cursor that the first response did not sign |
| `SearchRuns.FirstPageIsForEver` | src/app/core/cursors.py:24-33 | page one of a search is never overwritten by pages or replays |
| `SearchRuns.PlacesAreMultiples` | src/app/api/routes.py:1420-1429 | every accepted request reads at a multiple of its limit, a positive one unless it submits, under page one's filters and limit |
| `SearchRuns.RowsAreNotShared` | src/app/infra/sessions.py:90-94 | two accepted requests of one search write the same row exactly when they read at the same offset |
| `SearchRuns.RespondStores` | src/app/api/routes.py:1469-1529 | everything a response stores: its own page alone, cut from the list at its offset, the number of confirmed results by status and of possible ones, whether more follows, the id the row had or a new one, the cursor signed and the search counted |
| `SearchRuns.OneRowPerPage` | src/app/infra/sessions.py:84-110 | asking for a page again rewrites its row under the same id, and rows have their own ids |
| `SearchService.SearchService.RecordSearchResponse` | src/app/infra/sessions.py:69-110 | an upsert: an existing row keeps its id and gets every other value anew, the results included |
| `SearchService.SearchService.Answer` | src/app/api/routes.py:1469-1546 | counts, page, cursor and stored row of one response, each in full |
| `SearchService.SearchService.Search` | src/app/api/routes.py:1416-1546 | an unacceptable cursor changes nothing; otherwise the counts, the page at its place in the list ranked now, and its stored row's id; the list shows exactly the rows that suit and are live or expected, uncertain ones last, and the possible count is their number |
| `SearchService.SearchService.ReplaySearch` | src/app/api/routes.py:1291-1366 | the stored first page for thirty days: its results of published records as they were, its counts and its time as they were, and the cursor to the second |
| `Replays.StillPublishedIff` | src/app/api/routes.py:1329-1341 | a replay shows exactly the stored results whose record is published now |
| `Replays.PageIsItsSubmission` | src/app/infra/sessions.py:84-110 | in every run a stored first page holds what its submission ranked, from the records as they were then |
| `Replays.ReplayedCursorIsTheFirst` | src/app/api/routes.py:1342-1352 | in every run a replay hands out the cursor that the submission handed out |
| `Replays.ReplayedOpenWasInTime` | src/app/api/routes.py:1275-1282 | in every run what a replay shows as open is published now, was open and in time at its submission less than thirty days ago, and would be shown now from the same row exactly when neither cutoff nor validity has passed |
| `Replays.ReplayIsTrueIff` | src/app/api/routes.py:599-605 | a whole replayed page is true of the rows it was stored from exactly when none of its open results has outlived its cutoff or validity |
| `ReplayWitness.ReplayOutlivesValidity` | src/app/api/routes.py:1325-1366 | a concrete run in which a replay shows as open what a search over the same records at the same moment does not |

## Left out

- Worker.Worker.ExecuteJob: terminates under the assumption that no new sweep row appears while a sweep runs; the measure counts the claims left on the sweep rows that exist.
- ReverifySweep.ReverifyEach: nobody else writes the selected cycles meanwhile; the interleavings with other writers are in `CycleRuns`.
- Lineage.PageHistoryIsOneChain: ties in `created_at` within one transaction are excluded, because the head is then whatever the database picks; `Lineage.LineageIffHeads` covers them.
- Publication.BuildCycleFacts: when destinations include both an unknown country and one without coverage, which of the two errors is named; the source names the first in the list.
- Edits.EveryVersionIsOk: an explicit null for a required list or mode is not an edit of this model, since the route does not handle it meaningfully.
- Ranking.RankedIsSorted: deadlines are ordered by their ISO text, as the code does; that this is chronological is not claimed and is not true across UTC offsets.
- Matching on regular expressions, Unicode case folding, URL canonicalization and the zone database: libraries, which enter as functions with the laws listed above.
- Network clients, signature checks of deliveries, analytics, AI calls, schedule scripts: a fetch is a status and a hash, or a failure.
- ORM session effects: identity map staleness, expiry after a rollback, lazy loading.
- Exceptions that no caller handles: malformed zone names, overflow of dates, column lengths other than a slug's, a failed commit.
- Crawl runs, outbox attempts, budgets, harvest health, review priority, approval score, audit rows, cycle keys and their clash: single counters or plain copies.
- A job's payload and the text of its last error, a record's feed dates, and a search's session, filters and duration: carried along, never decided upon; so are the other texts of a result, and who may replay a search.
- Withdrawal and publication of scholarships beyond what decides the status shown: slugs of cycles, applicant segments, official URLs.
