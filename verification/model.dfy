/**
 The records that flow through the changelog pipeline: repositories as the
 upstream listing returns them, the repository tag that is copied onto every
 commit, raw commits as the upstream commit listing returns them, and tagged
 commits.
 */
module Model {

  datatype Option<T> = None | Some(value: T)

  /** A repository from the upstream listing. `stars` and `forks` are only
      read by the statistics endpoint. */
  datatype Repo = Repo(
    name: string,
    fullName: string,
    htmlUrl: string,
    language: Option<string>,
    description: Option<string>,
    isPrivate: bool,
    stars: int,
    forks: int)

  /** The six repository fields copied onto each commit. */
  datatype RepoTag = RepoTag(
    name: string,
    fullName: string,
    htmlUrl: string,
    language: Option<string>,
    description: Option<string>,
    isPrivate: bool)

  /** One commit from the upstream commit listing; `date` is the author date
      in whole seconds since the Unix epoch (UTC); an empty string stands for
      an absent field. */
  datatype RawCommit = RawCommit(
    sha: string,
    message: string,
    authorName: string,
    date: int,
    avatarUrl: Option<string>,
    htmlUrl: string)

  /** A raw commit tagged with the repository it was fetched for. */
  datatype Commit = Commit(raw: RawCommit, repo: RepoTag)

  /** What one repository's commit fetch produced: `None` when it failed. */
  type Fetched = Option<seq<RawCommit>>

  const SecondsPerDay: int := 86400

  /** The author date, the sort key of the feed. */
  function DateOf(c: Commit): int { c.raw.date }

  /** The UTC calendar day of the author date, counted in days since the
      epoch. It stands for the `YYYY-MM-DD` key: two commits share a key
      exactly when they share a day number, and later days have larger
      numbers. Division is floor division, as UTC truncation needs. */
  function DayOf(c: Commit): int { c.raw.date / SecondsPerDay }

  predicate IsPublic(r: Repo) { !r.isPrivate }

  predicate IsPrivate(r: Repo) { r.isPrivate }

  /** Dates in the same order give days in the same order. */
  lemma DayMonotone(a: Commit, b: Commit)
    requires DateOf(a) <= DateOf(b)
    ensures DayOf(a) <= DayOf(b)
  {
    var qa, qb := DateOf(a) / SecondsPerDay, DateOf(b) / SecondsPerDay;
    assert DateOf(a) == qa * SecondsPerDay + DateOf(a) % SecondsPerDay;
    assert DateOf(b) == qb * SecondsPerDay + DateOf(b) % SecondsPerDay;
  }
}
