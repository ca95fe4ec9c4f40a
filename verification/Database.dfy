/** The tables that discovery, review and linking share (src/app/domain/models.py). */
module Database {
  import opened Wrappers
  import opened Ids

  type Time = int

  datatype Url = Url(text: string)
  datatype Title = Title(text: string)
  datatype Excerpt = Excerpt(text: Option<string>)
  datatype ContentHash = ContentHash(hex: string)
  datatype IdentityKey = IdentityKey(text: string)

  /** A source page is unique per source and URL, which therefore identify it. */
  datatype Page = Page(source: Id, url: Url)

  datatype ProcessingState = Normalized | Linked | NewCandidate | NeedsReview | DuplicatePending

  datatype Discovery = Discovery(
    page: Page,
    createdAt: Time,   // when the creating transaction began
    contentHash: ContentHash,
    title: Title,
    excerpt: Excerpt,
    identityKey: IdentityKey,
    state: ProcessingState,
    supersedes: Option<Id>,
    duplicateOf: Option<Id>,
    splitFrom: Option<Id>,
    canonical: Option<Id>,
    evaluated: bool)   // auto_review_evaluated_at is set

  datatype Subject = OfDiscovery(discovery: Id) | OfCycle(cycle: Id)

  datatype TaskState = OpenTask | ResolvedTask

  datatype ReviewTask = ReviewTask(
    subject: Subject, reason: string, state: TaskState, resolution: Option<string>, draft: Option<Draft>)

  datatype Draft = Draft(reject: bool)

  datatype JobKind = NormalizeDiscovery | LinkCanonical | PrepareReview

  datatype JobRow = JobRow(kind: JobKind, subject: Id)

  datatype Slug = Slug(text: string)

  datatype Quarantined = Quarantined(source: Id, url: Url, title: Title, excerpt: Excerpt, reason: string)

  type Discoveries = map<Id, Discovery>
  type Tasks = map<Id, ReviewTask>
}
