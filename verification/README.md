# A Dafny model of the FYchangelog pipeline

FYchangelog is a small Express server with a browser client. It shows a
developer's GitHub commits as one timeline. This project models its core:

- **Server (`server.js`).**
  - `/api/changelog` drops private repositories unless they are enabled. It
    takes one commit fetch per remaining repository and tags each commit
    with its repository. A failed fetch adds nothing. The commits are
    merged into one feed, sorted stably by author date with the newest
    first. The endpoint returns one page of that feed, with `hasMore` and
    the page's commits grouped by UTC day.
  - `/api/changelog/latest` builds its own feed the same way, from fetches
    of 10 commits per repository instead of 20, and returns its first N
    commits. N defaults to 15 and is capped at 50 for non-negative limits.
  - `/api/stats` counts the visible repositories, sums their stars and
    forks, tallies their languages and lists the first five visible
    repositories in the order the listing returns them.
  - `sendToDiscord` builds the Discord embed for a commit.
- **Client (`public/app.js`).**
  - The translation function `t` and the relative-time formatter `timeAgo`.
  - The paging cursor `currentPage` / `isLoading` / `hasMore` / `allDates`.
  - How each grouped page is merged into `allDates`.
  - The first load, the infinite-scroll step, the five-minute refresh.
  - How `renderChangelog` orders the day keys.

The modules follow the pipeline:

| module | file | what it holds |
|---|---|---|
| `Seqs` | `seqs.dfy` | order-preserving filter, sums |
| `Model` | `model.dfy` | repositories, commits, the day of a date |
| `Sorting` | `sorting.dfy` | the stable descending sort |
| `Grouping` | `grouping.dfy` | `groupedByDate` and the client's merge into `allDates` |
| `Aggregation` | `aggregation.dfy` | visibility filter, fan-out, tagging, the sorted feed |
| `Pagination` | `pagination.dfy` | `/api/changelog` paging and `/api/changelog/latest` |
| `Notification` | `notification.dfy` | the Discord embed |
| `Stats` | `stats.dfy` | `/api/stats` |
| `Translation` | `translation.dfy` | `t` and its tables |
| `TimeAgo` | `timeago.dfy` | `timeAgo` |
| `Client` | `client.dfy` | the client's paging state machine and rendering |

Timestamps are whole seconds since the Unix epoch. A day key is
`date / 86400`, which stands for the `YYYY-MM-DD` string: two commits share
a key exactly when they share a day number, and later days have larger
numbers. JavaScript objects keyed by such strings enumerate their keys in
insertion order, so both `groupedByDate` and `allDates` are association
lists in that order.

Every upstream call is an input instead of a call:

- the repository listing is an `Option<seq<Repo>>`, where `None` means the
  500 reply;
- each repository's commit fetch is an `Option<seq<RawCommit>>`;
- the Discord POST's success is a `bool`;
- the clock is a number.

The client's requests settle with a `Reply`: the server's page, a 500 body,
or a failure of `fetch` or of the JSON decoding.

Two facts about the code shape the model:

- The server validates neither `page` nor `limit`. Zero and negative
  values go straight into the slice arithmetic, so `Paginate`, `StartIndex`
  and `EndIndex` are defined for every integer page and limit, with the
  exact clamping rules of `Array.prototype.slice`.
- The client's error screen has a retry button that calls `loadChangelog`
  again, and the five-minute timer calls the same function. Neither clears
  `hasMore` after a network failure (a 500 body leaves it undefined, which
  stops the scroll), so until a reload succeeds the infinite scroll can
  request page 2 (see Findings).

## Model

| member | source | states |
|---|---|---|
| Model.DayMonotone | server.js:243 | A commit with a later author date never gets an earlier day key. |
| Sorting.SortDesc | server.js:228-232 | The feed order never increases by date and is a permutation of its input, of the same length. |
| Sorting.SortStable | server.js:228-232 | Elements with equal keys keep their input order, for every key. |
| Sorting.StableSortIsUnique | server.js:228-232 | Every sorted sequence with the input's elements in the input's order per key equals `SortDesc`, so any stable engine sort gives the same feed. |
| Sorting.SortFilterCommute | server.js:228-232 | Filtering the sorted sequence equals sorting the filtered sequence. |
| Sorting.SortOfSorted | server.js:228-232 | A sequence already in descending order is returned unchanged. |
| Sorting.InsertSorted | server.js:228-232 | One insertion step keeps a descending sequence descending. |
| Aggregation.VisibleRepos | server.js:189-191 | With private repositories enabled the listing is unchanged. Otherwise only non-private repositories remain, each taken from the listing. |
| Aggregation.VisibleReposKeeps | server.js:189-191 | Every repository the flag allows is kept. |
| Aggregation.VisibleReposInOrder | server.js:189-191 | The filter works repository by repository, so kept repositories stay in listing order. |
| Aggregation.VisibleReposCount | server.js:189-191 | With private repositories hidden, exactly N - K of N repositories remain when K are private. |
| Aggregation.TagCommits | server.js:206-216 | Each fetched commit is kept in its position with the repository's six tag fields attached. |
| Aggregation.Contribution | server.js:196-221 | A failed fetch contributes nothing. A successful one contributes one commit per fetched commit. |
| Aggregation.ContributionProvenance | server.js:206-221 | Every contributed commit came from that repository's successful fetch and carries its tag. |
| Aggregation.AggregateProvenance | server.js:196-225 | Every commit of the concatenation was returned by some repository's fetch and carries that repository's tag. |
| Aggregation.AggregateSplit | server.js:224-225 | The concatenation is the repositories before `i`, then `i`'s contribution, then the rest. |
| Aggregation.AggregateReplace | server.js:217-225 | Changing one repository's fetch result changes only its own segment of the concatenation. |
| Aggregation.FailureIsolation | server.js:217-225 | A failed fetch removes exactly that repository's segment and leaves all others in place. |
| Aggregation.AggregateWithoutRepo | server.js:217-225 | When repository names are distinct, failing a fetch equals filtering that repository's commits out of the concatenation. |
| Aggregation.AggregateBounded | server.js:196-225 | With at most `limit` commits per fetch, the concatenation holds at most `limit` commits per repository. |
| Aggregation.ChangelogFeedBounded | server.js:196-232 | When every fetch honours `per_page: 20`, the changelog feed holds at most 20 commits per visible repository. |
| Aggregation.LatestFeedBounded | server.js:297-331 | When every fetch honours `per_page: 10`, the latest endpoint's feed holds at most 10 commits per visible repository. |
| Aggregation.BuildFeed | server.js:224-232 | The feed is sorted newest first and is a permutation of the concatenation. For every date, commits keep their concatenation order. |
| Aggregation.FailedFetchDropsOnlyItsCommits | server.js:217-232 | After one repository's fetch fails, the sorted feed is the full feed minus that repository's commits, everything else in the same order. |
| Aggregation.FetchAll | server.js:196-224 | The fan-out yields one result per visible repository, in repository order. |
| Aggregation.FeedHidesPrivate | server.js:189-232 | Every feed commit comes from a listed repository's fetch. With private repositories hidden, none is private. |
| Pagination.SliceNonNegative | server.js:237 | With `0 <= start <= end`, the slice is the part of the feed between the bounds cut to its length, at most `end - start` long. |
| Pagination.SliceNonPositive | server.js:237 | With `start <= end < 0`, both bounds count back from the end of the feed, stopping at its start. |
| Pagination.SliceReversed | server.js:237 | Two bounds of the same sign with the end before the start give an empty slice. |
| Pagination.SliceMember | server.js:237 | A slice holds only elements of the sliced sequence. |
| Pagination.SliceSorted | server.js:237 | Any slice of a sorted feed is sorted. |
| Pagination.StartIndex | server.js:235 | For page >= 1 and limit >= 0, a page starts at a non-negative index. |
| Pagination.EndIndex | server.js:236 | A page ends no earlier than it starts, and page 0 ends at 0. |
| Pagination.NextStart | server.js:235-236 | Page `p` starts where page `p - 1` ends. |
| Pagination.PageBoundsAreProducts | server.js:235-236 | Page `p` spans `(p - 1) * limit` to `p * limit`. |
| Pagination.UnvalidatedBounds | server.js:235-236 | The signs and order of the two page ends for page 0, a negative page, and a negative limit. |
| Pagination.Paginate | server.js:235-257 | `total` is the feed length and `page`/`limit` are echoed. `hasMore` holds iff the page's end is before the feed's end. For valid arguments the commits are the clamped window, at most `limit` long. For unvalidated arguments: page 0 or limit 0 gives nothing; a negative page with a positive limit gives the window counted back from the end of the feed; page 1 with a negative limit gives all but the last `-limit` commits; any other page with a negative limit gives nothing. |
| Pagination.PaginateNegativePage | server.js:235-238 | `page=-1&limit=20` on 60 commits returns commits 20 to 39 with `hasMore` set. |
| Pagination.PageIsGrouped | server.js:237-248 | `grouped` groups the page's commits by day. |
| Pagination.PageBetweenEnds | server.js:235-237 | Page `p` is exactly the commits between the ends of pages `p - 1` and `p`. |
| Pagination.PagesTile | server.js:235-238 | Pages 1..k concatenated are the feed's first `k * limit` commits, with nothing skipped or repeated. |
| Pagination.NoMoreMeansAllLoaded | server.js:238 | Once a page reports `hasMore` false, pages 1..k hold the whole feed. |
| Pagination.PageEmptyIffPastEnd | server.js:235-237 | A page is empty exactly when it starts at or past the end of the feed. |
| Pagination.HasMoreMeansNextPageNonEmpty | server.js:238 | `hasMore` true guarantees the next page is non-empty. |
| Pagination.PageOfSortedFeed | server.js:228-248 | A page of the sorted feed is sorted. Its day groups come newest day first, and read in key order they give back the page. |
| Pagination.Changelog | server.js:164-263 | The endpoint replies 500 exactly when the repository listing fails. Otherwise it echoes the page and limit, `total` is the length of the feed of visible repositories, `hasMore` holds iff the page ends before the feed, a valid page is the window of that feed between its two ends, and `grouped` groups the page by day. |
| Pagination.ChangelogRequest | server.js:164-168 | Absent query parameters default to page 1 and limit 20, so a bare request returns the first 20 commits of the feed, with `hasMore` iff the feed is longer. |
| Pagination.ChangelogHidesPrivate | server.js:189-257 | With private repositories hidden, no page shows a private repository's commit. |
| Pagination.LatestAsWritten | server.js:269-340 | The latest endpoint as coded: the echoed limit is `min(limit, 50)` and `total` is the number returned. A non-negative limit returns the feed's prefix up to that limit; a negative limit returns all but the last `-limit` commits. |
| Pagination.LatestAsWrittenExceedsCap | server.js:269 | `limit=-1` on a 52-commit feed returns 51 commits, above the cap of 50. |
| Pagination.Latest | server.js:269 | The corrected clamp: the echoed limit is `max(min(limit, 50), 0)`. The reply is a prefix of the feed of length `min(max(limit,0), 50, N)`, with `total` that length. |
| Pagination.LatestAgreesWhenNonNegative | server.js:269 | For every non-negative limit the clamped endpoint returns exactly what the code as written returns. |
| Pagination.LatestIsFirstPage | server.js:334 | Over one common feed, the latest N commits (1 <= N <= 50) are page 1 of size N. |
| Pagination.LatestEndpoint | server.js:266-346 | The endpoint as written replies 500 exactly when the listing fails. Otherwise `total` is the number of commits returned and the echoed limit is `min(limit, 50)`, or 15 when the query has no limit. Without a `limit` query it returns the first 15 commits of the feed. For a non-negative limit it returns the feed's prefix of length `min(limit, 50, N)`. |
| Pagination.LatestEndpointCorrected | server.js:266-346 | The endpoint with the corrected clamp replies 500 exactly when the listing fails. Otherwise it echoes the clamped limit and returns the feed's prefix of length `min(max(limit,0), 50, N)`, whatever the limit. |
| Pagination.LatestEndpointAgrees | server.js:268-269 | For an absent or non-negative limit, the corrected endpoint returns exactly what the code as written returns. |
| Grouping.KeyIndex | server.js:244 | The lookup finds the key's position, or reports the key missing, and never skips an earlier matching key. |
| Grouping.AppendTo | server.js:244-247 | Keys stay in insertion order, and a new key is appended at the end. |
| Grouping.GroupByDateIsGrouping | server.js:241-248 | `groupedByDate` has one non-empty group per day of the page and no day twice. Each group holds exactly that day's commits in page order, and groups come in first-appearance order. |
| Grouping.SortedGrouping | server.js:241-248 | For a newest-first page, days strictly decrease across groups, and reading the groups in key order gives the page. |
| Grouping.AppendToExtends | public/app.js:170-173 | Appending to a key never removes or reorders earlier keys or commits. |
| Grouping.MergeExtends | public/app.js:210-215 | Merging a page into `allDates` keeps every key in place and every list as a prefix of its new list. |
| Grouping.MergePush | public/app.js:210-215 | Merging a page grouped with one more commit equals merging the page and then pushing the commit. |
| Grouping.MergeGroupByDate | public/app.js:210-215 | Merging the grouping of `b` into the grouping of `a` gives the grouping of `a + b`, key order included. |
| Grouping.MergeIntoEmpty | public/app.js:169-174 | The first merge into an empty `allDates` copies the page's grouping. |
| Notification.FirstLine | server.js:52 | The first line is a prefix of the message, contains no line break, and stops only at a line break or at the end. |
| Notification.FirstLineUnique | server.js:52 | Those three properties determine the first line. |
| Notification.ShortSha | server.js:67 | The short hash is the first `min(7, length)` characters of the hash. |
| Notification.BuildEmbed | server.js:50-80 | The embed has three fields, a title with the repository name or `Unknown Repo` when the name is empty, and the author date as timestamp. It has a URL, the commit's link, exactly when the repository is public and the link is non-empty. |
| Notification.EmbedDescription | server.js:52 | The description is `Commit mesajı yok` when the first line is empty. Otherwise it is that non-empty first line. |
| Notification.EmbedSha | server.js:67 | The SHA field is the first seven characters of the hash between backticks, or `N/A` when the hash is empty. |
| Notification.EmbedFields | server.js:57-62 | The author and repository fields fall back to `Bilinmiyor` when empty. |
| Notification.Notify | server.js:43-94 | Without a webhook nothing is posted and the result is false. Otherwise exactly this commit's embed is posted, and the result is whether the POST succeeded. |
| Stats.LangIndex | server.js:404 | The tally lookup finds the language's position, or reports it missing, and skips no earlier match. |
| Stats.Bump | server.js:404 | Incrementing keeps the tally's keys in insertion order, and a new language is appended. |
| Stats.CountOfBump | server.js:404 | An increment adds one to its own language and leaves every other count alone. |
| Stats.TallyWellFormed | server.js:401-406 | The tally has one key per language and only positive counts. |
| Stats.TallyCounts | server.js:401-406 | Each language's count is the number of repositories written in it. |
| Stats.TallyKeys | server.js:401-406 | A language is a key exactly when some repository is written in it. |
| Stats.TallyTotal | server.js:401-406 | The counts sum to the number of repositories that have a language. |
| Stats.StatsOf | server.js:394-426 | Replies 500 exactly when the user or the listing fails. Otherwise `repoCount` is the visible count, the star and fork totals are the sums over the visible repositories, each language count is the number of visible repositories in that language, and `recentRepos` is the first `min(5, count)` visible repositories. |
| Stats.HiddenTotals | server.js:394-412 | Hiding private repositories removes exactly their stars and forks from the totals. |
| Stats.StatsLanguages | server.js:394-419 | The reply's language counts count the visible repositories, and their sum is the number of visible repositories with a language. |
| TimeAgo.ElapsedSeconds | public/app.js:92 | The elapsed whole seconds are the millisecond difference floored to seconds. |
| TimeAgo.AgeOf | public/app.js:93-103 | "Just now" exactly up to 60 seconds. Otherwise the first unit, in years/months/days/hours/minutes order, whose quotient exceeds 1, with the floored quotient (at least 1) as count. |
| TimeAgo.AgeCountBounds | public/app.js:93-103 | Below years the count never reaches the next unit up: at most 12 months, 30 days, 24 hours or 60 minutes. |
| TimeAgo.AgeMonotone | public/app.js:93-103 | An older date never shows a finer unit, and with the same unit never a smaller count. |
| TimeAgo.FutureIsJustNow | public/app.js:92-103 | A date in the future shows "just now". |
| TimeAgo.TimeAgoText | public/app.js:91-104 | The text fails exactly when the language has no table. |
| TimeAgo.TimeAgoRendered | public/app.js:91-104 | In every language with a table, the text is "just now" from that table up to a minute, and otherwise the count of the chosen unit, a space and that unit's label from the table; each label is present and non-empty. |
| TimeAgo.TurkishLabels | public/app.js:13-32 | The Turkish table has a non-empty label for every unit. |
| TimeAgo.TurkishTimeAgo | public/app.js:91-104 | In Turkish, up to a minute reads `az önce`; from just over one day up to 30 days it reads `<d> gün önce` with `d` the whole days elapsed. |
| Translation.NatToString | public/app.js:75 | The decimal rendering of a count is non-empty, all digits, with no leading zero. |
| Translation.NatToStringRoundTrip | public/app.js:75 | Reading the decimal rendering back gives the number. |
| Translation.IndexOf | public/app.js:75 | `indexOf` finds the first occurrence of the pattern, or reports that there is none. |
| Translation.ReplaceFirst | public/app.js:75 | A string-pattern `replace` substitutes the first occurrence only, and leaves the text alone when there is none. |
| Translation.ReplaceFirstKeepsRest | public/app.js:75 | The text before the match and after it, later occurrences included, is untouched. |
| Translation.Translate | public/app.js:72-78 | `t` fails exactly for a language without a table. Without arguments it yields the entry, or the key itself when the entry is missing or empty. |
| Translation.FillWithoutPlaceholders | public/app.js:74-76 | A text without the placeholders is returned unchanged, whatever the arguments. |
| Translation.FillOne | public/app.js:74-76 | A single argument lands exactly where the first `{0}` was. |
| Translation.TranslateOne | public/app.js:72-78 | A one-placeholder entry with one argument gives the entry with the argument put where `{0}` was. |
| Translation.TotalCommitsTurkish | public/app.js:17 | `t('totalCommits', n)` in Turkish reads `Toplam <n> commit`. |
| Translation.TotalCommitsEnglish | public/app.js:36 | `t('totalCommits', n)` in English reads `Total <n> commits`. |
| Client.RenderShows | public/app.js:236-243 | The empty-state text shows exactly when `allDates` is empty. Otherwise all its days show, newest first. |
| Client.LoadChangelogAsWritten | public/app.js:155-187 | The first load as coded. It resets to page 1 and leaves `isLoading` alone. A page is merged into an empty `allDates` and rendered. A failure shows the error screen with an empty `allDates`, and `hasMore` stays true after a network failure. |
| Client.LoadChangelog | public/app.js:155-187 | The corrected first load: a success behaves as coded, and any failure also clears `hasMore`. |
| Client.BeginLoadMore | public/app.js:190-194 | A scroll step does nothing while busy or after the last page. Otherwise it marks the client busy, advances one page and requests that page. |
| Client.EndLoadMore | public/app.js:203-233 | The client always ends idle. A page keeps the new page number, takes its `hasMore`, and is merged and rendered. A failure rolls the page back and keeps `allDates` and the screen; a 500 also clears `hasMore`. |
| Client.LoadMore | public/app.js:190-233 | A whole `loadMoreCommits` while busy or finished changes nothing. |
| Client.LoadMoreExtends | public/app.js:210-215 | A scroll step never removes or reorders what `allDates` holds. |
| Client.RefreshIsReload | public/app.js:320-325 | The timer calls `loadChangelog` as written, and its own reset adds nothing to what that function resets. |
| Client.PaginateServesPage | server.js:235-248 | The reply to `limit=20&page=p` is the commits between the first `20(p-1)` and `20p`, grouped by day, with `hasMore` iff the feed goes on. |
| Client.LoadChangelogOk | public/app.js:157-176 | A first load answered with page 1 leaves an idle client holding and showing exactly page 1, grouped by day. |
| Client.LoadMorePage | public/app.js:190-223 | A scroll step answered with a page ends one page further, idle, with the page merged into `allDates` and shown. |
| Client.LoadMoreSlice | public/app.js:204-217 | A client holding `feed[..a]` that receives `feed[a..b]` holds `feed[..b]`. |
| Client.LoadMoreOk | public/app.js:190-217 | A scroll step answered with the next page keeps the client holding exactly pages 1..currentPage. |
| Client.LoadMoreNetworkFailure | public/app.js:219-223 | A failed request leaves a consistent client exactly as it was. |
| Client.ServerErrorStopsScrolling | public/app.js:207 | A 500 reply clears `hasMore` and changes nothing else. Later scroll steps then do nothing. |
| Client.AllLoaded | public/app.js:207 | Once the server reports no more commits, `allDates` groups the whole feed. |
| Client.RenderOfConsistent | public/app.js:236-243 | On the newest-first feed, reading `allDates` day by day gives the loaded commits in feed order. The timeline shows `allDates` in its own key order, or the empty-state text when nothing is loaded. |
| Client.ChangelogServes | server.js:235-257 | The changelog endpoint over a fixed feed answers every page request with that page. |
| Client.ChangelogEndpointServes | server.js:164-257 | `/api/changelog` with `limit=20` over unchanging repositories serves every page request from its feed. |
| Client.StepConsistent | public/app.js:190-217 | A scroll step answered by the server keeps the client consistent. It advances one page while more remain, and changes nothing after the last page. |
| Client.RunStepConsistent | public/app.js:190-217 | Each step of a run of scroll steps preserves consistency, and a finished client stays finished. |
| Client.RunConsistent | public/app.js:142-233 | Every state of a run that starts consistent is consistent, and while more remain the i-th state has loaded i pages more. |
| Client.ConsistentPageBound | public/app.js:207 | A consistent client still expecting more has loaded fewer than all commits. |
| Client.SessionLoadsEverything | public/app.js:142-233 | After a first load and enough scroll steps to cover the feed in pages of 20, the client has stopped asking and `allDates` groups the entire feed. |
| Client.ChangelogSession | public/app.js:142-233 | The same against `/api/changelog` itself with `limit=20`: over unchanging repositories whose feed fits in the session's pages, the client stops asking and `allDates` groups the whole feed. |
| Client.FailedLoadRequestsSecondPage | public/app.js:159-194 | As coded, a first load or a timer refresh that fails on the network shows the error screen but leaves `hasMore` true. The next scroll requests page 2, and the timeline then holds page 2 alone. |
| Client.FailedLoadStopsScrolling | public/app.js:178-194 | With the corrected first load, scroll steps after a failure request nothing and change nothing. |

## Left out

- The other routes (`/api/user`, `/api/repos`, `/api/repos/:repo/commits`, `/api/config`, `/api/discord/test`, `/`), the middleware and the environment: they are plumbing around the pipeline.
- The HTTP calls to GitHub and Discord and the client's `fetch`: they are I/O, and their outcomes are inputs.
- `Promise.all` scheduling: it keeps input order, so the fan-out is a sequential map.
- Concurrency between a refresh and an in-flight scroll request: each client step is modelled as atomic.
- `setInterval` timing and the scroll geometry of `handleScroll`: the model reduces these to step functions. A scroll event that crosses the threshold is a `LoadMore` step.
- Date parsing, `toISOString` and `formatDate`: dates are integer seconds, and a day key is the day number.
- `new Date().toISOString()`, the embed timestamp used when the author date is missing: commit dates are always present in the model.
- `parseInt` of the query strings and its NaN cases: the model takes the parsed integers, including zero and negative values.
- The DOM: `innerHTML` templates, `escapeHtml`, colours, the loading indicator, the `totalCommits` text and the HTML of each commit card. `Client.Render` models only the order of the days.
- `initApp` and the `/api/config` fetch: the language and the private flag are parameters.
- `$`-patterns in the replacement text of `String.prototype.replace`: arguments are inserted literally.
- The `user` record of `/api/stats`: it is passed through unchanged.
- Client.LoadMore: its own contract covers only the no-op case. The effect of a step is stated by `BeginLoadMore`, `EndLoadMore`, `LoadMorePage` and `LoadMoreExtends`.
- In the client, `t` with a language that has no table throws before `hasMore` is read. The client model assumes a known language, so the first load is not modelled as failing for that reason.
- A feed that changes between two page requests: the session lemmas assume one fixed feed.
- The upstream per-repository fetch limit of 20 (10 for latest) caps the feed. `Aggregation.ChangelogFeedBounded` and `Aggregation.LatestFeedBounded` state the cap; that each fetch honours `per_page` is a property of the fetch inputs.
- Pagination.LatestIsFirstPage: relates the two endpoints over one common feed. In the server they build different feeds, from 10 commits per repository for latest (server.js:303) against 20 for the changelog (server.js:202). For example, one repository with 15 commits that are all newer than every other gives latest 10 of them, while page 1 of size 15 gives all 15.

## Findings

| source | as written | input that shows it | evidently intended | confidence | as-written member | corrected member |
|---|---|---|---|---|---|---|
| server.js:269 | `Math.min(parseInt(limit), 50)` lets a negative limit through, and `slice(0, limitNum)` then counts from the end. | `limit=-1` with 52 commits in the feed returns 51 commits. | A cap in [0, 50]: never more than 50 commits, and nothing for a negative limit. | not executed | Pagination.LatestAsWrittenExceedsCap | Pagination.LatestEndpointCorrected |
| public/app.js:178-186 | The catch of `loadChangelog` shows the error screen but leaves `hasMore` true after a network failure. `handleScroll` and `loadMoreCommits` then advance to page 2. | The page-1 request rejects, then the user scrolls the error screen. | Nothing is requested until the retry button or the timer reloads page 1. | not executed | Client.FailedLoadRequestsSecondPage | Client.FailedLoadStopsScrolling |
