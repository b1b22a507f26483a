/**
 The two feed endpoints of server.js: `/api/changelog`, which returns one
 page of the sorted feed together with that page grouped by day, and
 `/api/changelog/latest`, which returns the first N commits of the feed.

 Both slice the feed with `Array.prototype.slice`, whose arguments count
 from the end when negative and are clamped to the array bounds; `JsSlice`
 models that rule exactly, so the model also says what happens for the
 page and limit values the server does not validate.
 */
module Pagination {
  import opened Seqs
  import opened Model
  import opened Sorting
  import opened Grouping
  import opened Aggregation

  /** Default `limit` of `/api/changelog`. */
  const ChangelogDefaultLimit: int := 20

  /** Default `limit` of `/api/changelog/latest`. */
  const LatestDefaultLimit: int := 15

  /** Upper bound the latest endpoint puts on `limit`. */
  const LatestCap: int := 50

  /** A slice argument resolved against length `n`: negative values count
      from the end, and the result is clamped into `[0, n]`. */
  function SliceIndex(x: int, n: nat): (r: nat)
    ensures r <= n
    ensures 0 <= x <= n ==> r == x
    ensures x > n ==> r == n
    ensures x < 0 ==> r == Max(n + x, 0)
  {
    if x < 0 then (if n + x < 0 then 0 else n + x) else if x < n then x else n
  }

  /** `s.slice(start, end)`. */
  function JsSlice<T>(s: seq<T>, start: int, end: int): (r: seq<T>)
    ensures |r| <= |s|
  {
    var from, to := SliceIndex(start, |s|), SliceIndex(end, |s|);
    if from < to then s[from..to] else []
  }

  /** With non-negative bounds, a slice is the part of `s` between the two
      bounds clamped to the length of `s`. */
  lemma SliceNonNegative<T>(s: seq<T>, start: int, end: int)
    ensures 0 <= start <= end ==>
              JsSlice(s, start, end) == s[Min(start, |s|)..Min(end, |s|)]
              && |JsSlice(s, start, end)| <= end - start
  {
  }

  /** With non-positive bounds, a slice counts both bounds back from the
      end of `s`. */
  lemma SliceNonPositive<T>(s: seq<T>, start: int, end: int)
    ensures start <= end < 0 ==>
              JsSlice(s, start, end) == s[Max(|s| + start, 0)..Max(|s| + end, 0)]
  {
  }

  /** Bounds of the same sign in the wrong order give an empty slice. */
  lemma SliceReversed<T>(s: seq<T>, start: int, end: int)
    ensures (0 <= end <= start || end <= start < 0) ==> JsSlice(s, start, end) == []
  {
  }

  /** A slice holds only elements of the sliced sequence. */
  lemma SliceMember<T>(s: seq<T>, start: int, end: int, x: T)
    requires x in JsSlice(s, start, end)
    ensures x in s
  {
    var from, to := SliceIndex(start, |s|), SliceIndex(end, |s|);
    var t := s[from..to];
    var i :| 0 <= i < |t| && t[i] == x;
    assert t[i] == s[from + i];
  }

  /** Any slice of a sorted sequence is sorted. */
  lemma SliceSorted(s: seq<Commit>, start: int, end: int)
    requires SortedDesc(s, DateOf)
    ensures SortedDesc(JsSlice(s, start, end), DateOf)
  {
    var from, to := SliceIndex(start, |s|), SliceIndex(end, |s|);
    if from < to {
      var t := s[from..to];
      forall i, j | 0 <= i < j < |t|
        ensures DateOf(t[i]) >= DateOf(t[j])
      {
        assert t[i] == s[from + i] && t[j] == s[from + j];
      }
    }
  }

  /** Integer multiplication by repeated addition. The page bounds are
      products of two unbounded integers; defining them through this
      recursion keeps the verifier's nonlinear arithmetic out of every proof
      that mentions a page, and `ProductIsMul` ties it to `*`. */
  function Product(a: int, b: int): int
    decreases if a < 0 then -a else a
  {
    if a == 0 then 0 else if a > 0 then Product(a - 1, b) + b else Product(a + 1, b) - b
  }

  lemma {:induction false} ProductIsMul(a: int, b: int)
    ensures Product(a, b) == a * b
    decreases if a < 0 then -a else a
  {
    if a > 0 {
      ProductIsMul(a - 1, b);
    } else if a < 0 {
      ProductIsMul(a + 1, b);
    }
  }

  lemma {:induction false} ProductNonNegative(a: nat, b: nat)
    ensures Product(a, b) >= 0
  {
    if a > 0 {
      ProductNonNegative(a - 1, b);
    }
  }

  /** `startIndex` of server.js:235, `(page - 1) * limit`: where page `page`
      begins. */
  function StartIndex(page: int, limit: int): (r: int)
    ensures page >= 1 && limit >= 0 ==> r >= 0
  {
    if page >= 1 && limit >= 0 then ProductNonNegative(page - 1, limit); Product(page - 1, limit)
    else Product(page - 1, limit)
  }

  /** `endIndex` of server.js:236, `startIndex + limit`: where page `page`
      ends. */
  function EndIndex(page: int, limit: int): (r: int)
    ensures page == 0 ==> r == 0
    ensures page >= 1 && limit >= 0 ==> r >= StartIndex(page, limit) >= 0
  {
    assert Product(-1, limit) == -limit;
    StartIndex(page, limit) + limit
  }

  /** Page `page` starts where page `page - 1` ends. */
  lemma NextStart(page: int, limit: int)
    ensures StartIndex(page, limit) == EndIndex(page - 1, limit)
  {
  }

  /** The page bounds are the products the server computes: the end of page
      `page` is `page * limit`. */
  lemma PageBoundsAreProducts(page: int, limit: int)
    ensures StartIndex(page, limit) == (page - 1) * limit
    ensures EndIndex(page, limit) == page * limit
  {
    ProductIsMul(page - 1, limit);
  }

  /** The JSON body of a successful `/api/changelog` call. */
  datatype PageResult = PageResult(
    total: int,
    page: int,
    limit: int,
    hasMore: bool,
    grouped: Groups,
    commits: seq<Commit>)

  /** The signs of the page bounds for the arguments the server does not
      validate. */
  lemma UnvalidatedBounds(page: int, limit: int)
    ensures page == 0 ==> EndIndex(page, limit) == 0
    ensures limit == 0 ==> StartIndex(page, limit) == EndIndex(page, limit)
    ensures page < 0 && limit > 0 ==> StartIndex(page, limit) <= EndIndex(page, limit) < 0
    ensures page == 1 && limit < 0 ==> StartIndex(page, limit) == 0 && EndIndex(page, limit) == limit
    ensures page < 1 && limit < 0 ==> 0 <= EndIndex(page, limit) < StartIndex(page, limit)
    ensures page > 1 && limit < 0 ==> EndIndex(page, limit) < StartIndex(page, limit) < 0
  {
    if page < 0 && limit > 0 {
      ProductIsMul(page, limit);
      NextStart(page + 1, limit);
      assert Product(page, limit) < 0 by {
        assert (-page) * limit > 0;
      }
    } else if page < 1 && limit < 0 {
      ProductIsMul(page, limit);
      NextStart(page + 1, limit);
      assert Product(page, limit) >= 0 by {
        assert (-page) * (-limit) >= 0;
      }
    } else if page > 1 && limit < 0 {
      ProductIsMul(page - 1, limit);
      assert Product(page - 1, limit) < 0 by {
        assert (page - 1) * (-limit) > 0;
      }
    }
  }

  /** The paging of the feed at server.js:235-257, for any integers `page`
      and `limit`. For the valid arguments the page is the window between
      its two ends, cut to the feed. The server validates neither argument,
      and `slice` then gives: nothing for page 0; for a negative page and a
      non-negative limit, the window counted back from the end of the feed;
      for page 1 and a negative limit, all but the last `-limit` commits;
      and nothing for any other page with a negative limit. */
  function Paginate(feed: seq<Commit>, page: int, limit: int): (r: PageResult)
    ensures r.total == |feed| && r.page == page && r.limit == limit
    ensures r.hasMore <==> EndIndex(page, limit) < |feed|
    ensures page >= 1 && limit >= 0 ==>
              |r.commits| <= limit
              && r.commits == feed[Min(StartIndex(page, limit), |feed|)..Min(EndIndex(page, limit), |feed|)]
    ensures page == 0 ==> r.commits == []
    ensures page < 0 && limit > 0 ==>
              && StartIndex(page, limit) <= EndIndex(page, limit) < 0
              && r.commits == feed[Max(|feed| + StartIndex(page, limit), 0)..Max(|feed| + EndIndex(page, limit), 0)]
    ensures page == 1 && limit < 0 ==> r.commits == feed[..Max(|feed| + limit, 0)]
    ensures (page != 1 && limit < 0) || limit == 0 ==> r.commits == []
  {
    var startIndex := StartIndex(page, limit);
    var endIndex := EndIndex(page, limit);
    var commits := JsSlice(feed, startIndex, endIndex);
    SliceNonNegative(feed, startIndex, endIndex);
    SliceNonPositive(feed, startIndex, endIndex);
    SliceReversed(feed, startIndex, endIndex);
    UnvalidatedBounds(page, limit);
    PageResult(|feed|, page, limit, endIndex < |feed|, GroupByDate(commits), commits)
  }

  /** `page=-1&limit=20` on a feed of 60 commits returns commits 20 to 39,
      with `hasMore` set. */
  lemma PaginateNegativePage(feed: seq<Commit>)
    requires |feed| == 60
    ensures Paginate(feed, -1, 20).commits == feed[20..40]
    ensures Paginate(feed, -1, 20).hasMore
  {
    PageBoundsAreProducts(-1, 20);
  }

  /** The `grouped` field groups the page's commits by day: one group per
      day, holding exactly that day's commits, in order of first appearance. */
  lemma PageIsGrouped(feed: seq<Commit>, page: int, limit: int)
    ensures IsGrouping(Paginate(feed, page, limit).grouped, Paginate(feed, page, limit).commits)
  {
    GroupByDateIsGrouping(Paginate(feed, page, limit).commits);
  }

  /** Page `page` holds the commits between the end of page `page - 1` and
      its own end, both cut to the length of the feed. */
  lemma PageBetweenEnds(feed: seq<Commit>, page: int, limit: int)
    requires page >= 1 && limit >= 0
    ensures var a, b := Min(EndIndex(page - 1, limit), |feed|), Min(EndIndex(page, limit), |feed|);
            && a <= b
            && Paginate(feed, page, limit).commits == feed[a..b]
  {
    NextStart(page, limit);
  }

  /** The pages from 1 to k, concatenated: what a client holds after
      loading them one after the other. */
  function Loaded(feed: seq<Commit>, limit: int, k: nat): seq<Commit>
  {
    if k == 0 then [] else Loaded(feed, limit, k - 1) + Paginate(feed, k, limit).commits
  }

  /** Consecutive pages tile the feed: the first k pages are its first
      `k * limit` commits (the end of page k), with nothing skipped or
      repeated. */
  lemma {:induction false} PagesTile(feed: seq<Commit>, limit: int, k: nat)
    requires limit >= 1
    ensures Loaded(feed, limit, k) == feed[..Min(EndIndex(k, limit), |feed|)]
  {
    if k > 0 {
      var a, b := Min(EndIndex(k - 1, limit), |feed|), Min(EndIndex(k, limit), |feed|);
      calc {
        Loaded(feed, limit, k);
        Loaded(feed, limit, k - 1) + Paginate(feed, k, limit).commits;
        { PagesTile(feed, limit, k - 1); PageBetweenEnds(feed, k, limit); }
        feed[..a] + feed[a..b];
        { PrefixSplit(feed, a, b); }
        feed[..b];
      }
    }
  }

  /** Once a page reports no more commits, the pages loaded so far hold the
      whole feed. */
  lemma NoMoreMeansAllLoaded(feed: seq<Commit>, limit: int, k: nat)
    requires limit >= 1 && k >= 1
    requires !Paginate(feed, k, limit).hasMore
    ensures Loaded(feed, limit, k) == feed
  {
    PagesTile(feed, limit, k);
  }

  /** A page is empty exactly when it starts at or past the end of the feed. */
  lemma PageEmptyIffPastEnd(feed: seq<Commit>, page: int, limit: int)
    requires page >= 1 && limit >= 1
    ensures Paginate(feed, page, limit).commits == [] <==> StartIndex(page, limit) >= |feed|
  {
  }

  /** `hasMore` promises that the next page is not empty. */
  lemma HasMoreMeansNextPageNonEmpty(feed: seq<Commit>, page: int, limit: int)
    requires page >= 1 && limit >= 1
    requires Paginate(feed, page, limit).hasMore
    ensures Paginate(feed, page + 1, limit).commits != []
  {
    PageEmptyIffPastEnd(feed, page + 1, limit);
  }

  /** A page of the sorted feed is sorted, its day groups come newest day
      first, and reading the groups in key order gives the page. */
  lemma PageOfSortedFeed(feed: seq<Commit>, page: int, limit: int)
    requires SortedDesc(feed, DateOf)
    ensures SortedDesc(Paginate(feed, page, limit).commits, DateOf)
    ensures StrictlyDescendingDays(Paginate(feed, page, limit).grouped)
    ensures Flatten(Paginate(feed, page, limit).grouped) == Paginate(feed, page, limit).commits
  {
    var r := Paginate(feed, page, limit);
    SliceSorted(feed, StartIndex(page, limit), EndIndex(page, limit));
    SortedGrouping(r.commits);
  }

  /** `/api/changelog`: `None` stands for the 500 reply when the repository
      listing cannot be fetched. */
  function Changelog(listing: Option<seq<Repo>>, showPrivate: bool, fetch: Repo -> Fetched, page: int, limit: int)
    : (r: Option<PageResult>)
    ensures r.None? <==> listing.None?
    ensures r.Some? ==>
              var feed := Feed(listing.value, showPrivate, fetch);
              && r.value.page == page && r.value.limit == limit
              && r.value.total == |feed|
              && (r.value.hasMore <==> EndIndex(page, limit) < |feed|)
              && (page >= 1 && limit >= 0 ==>
                    r.value.commits == feed[Min(StartIndex(page, limit), |feed|)..Min(EndIndex(page, limit), |feed|)])
              && r.value.grouped == GroupByDate(r.value.commits)
  {
    match listing
    case None => None
    case Some(repos) => Some(Paginate(Feed(repos, showPrivate, fetch), page, limit))
  }

  /** `/api/changelog` with its query parameters as received: each is the
      parsed value, `None` when the query omits it, and the defaults are
      page 1 and limit 20 (server.js:166). */
  function ChangelogRequest(listing: Option<seq<Repo>>, showPrivate: bool, fetch: Repo -> Fetched, page: Option<int>, limit: Option<int>)
    : (r: Option<PageResult>)
    ensures r.None? <==> listing.None?
    ensures r.Some? ==>
              && r.value.page == (if page.Some? then page.value else 1)
              && r.value.limit == (if limit.Some? then limit.value else ChangelogDefaultLimit)
    ensures r.Some? && page.None? && limit.None? ==>
              var feed := Feed(listing.value, showPrivate, fetch);
              && r.value.commits == feed[..Min(ChangelogDefaultLimit, |feed|)]
              && (r.value.hasMore <==> ChangelogDefaultLimit < |feed|)
  {
    var p := match page case None => 1 case Some(n) => n;
    var l := match limit case None => ChangelogDefaultLimit case Some(n) => n;
    Changelog(listing, showPrivate, fetch, p, l)
  }

  /** With private repositories hidden, no page of the changelog shows a
      commit of a private repository. */
  lemma ChangelogHidesPrivate(listing: Option<seq<Repo>>, fetch: Repo -> Fetched, page: int, limit: int, c: Commit)
    requires Changelog(listing, false, fetch, page, limit).Some?
    requires c in Changelog(listing, false, fetch, page, limit).value.commits
    ensures !c.repo.isPrivate
  {
    var feed := Feed(listing.value, false, fetch);
    SliceMember(feed, StartIndex(page, limit), EndIndex(page, limit), c);
    FeedHidesPrivate(listing.value, false, fetch, c);
  }

  // ---------------------------------------------------------------------
  // `/api/changelog/latest`.

  /** The JSON body of a successful `/api/changelog/latest` call. */
  datatype LatestResult = LatestResult(total: int, limit: int, commits: seq<Commit>)

  /** The latest endpoint as server.js:269 and :334 write it: the cap is
      `Math.min(limit, 50)` and the slice is `slice(0, cap)`. */
  function LatestAsWritten(feed: seq<Commit>, limit: int): (r: LatestResult)
    ensures r.limit == Min(limit, LatestCap)
    ensures r.total == |r.commits| <= |feed|
    ensures limit >= 0 ==> r.commits == feed[..Min(r.limit, |feed|)]
    ensures limit < 0 ==> r.commits == feed[..Max(|feed| + limit, 0)]
  {
    var limitNum := Min(limit, LatestCap);
    var commits := JsSlice(feed, 0, limitNum);
    LatestResult(|commits|, limitNum, commits)
  }

  /** A negative `limit` is passed through by `Math.min` and makes the slice
      drop commits from the end instead: with 52 commits in the feed and
      `limit=-1`, 51 commits come back, above the cap of 50. */
  lemma LatestAsWrittenExceedsCap(c: Commit)
    ensures |LatestAsWritten(seq(52, i => c), -1).commits| == 51 > LatestCap
  {
  }

  /** The evidently intended latest endpoint: the limit is clamped into
      `[0, 50]`, so a negative limit returns nothing. */
  function Latest(feed: seq<Commit>, limit: int): (r: LatestResult)
    ensures r.limit == Max(Min(limit, LatestCap), 0)
    ensures r.total == |r.commits| <= LatestCap
    ensures r.commits <= feed
    ensures |r.commits| == Min(Max(limit, 0), Min(LatestCap, |feed|))
  {
    var limitNum := Max(Min(limit, LatestCap), 0);
    var commits := feed[..Min(limitNum, |feed|)];
    LatestResult(|commits|, limitNum, commits)
  }

  /** For every limit the server was meant to accept, the corrected endpoint
      agrees with the code as written. */
  lemma LatestAgreesWhenNonNegative(feed: seq<Commit>, limit: int)
    requires limit >= 0
    ensures Latest(feed, limit) == LatestAsWritten(feed, limit)
  {
  }

  /** The latest N commits are the first page of size N of the same feed. */
  lemma LatestIsFirstPage(feed: seq<Commit>, n: int)
    requires 1 <= n <= LatestCap
    ensures Latest(feed, n).commits == Paginate(feed, 1, n).commits
  {
  }

  /** The `limit` query parameter of the latest endpoint, 15 when absent. */
  function RequestedLimit(limit: Option<int>): int
  {
    match limit
    case None => LatestDefaultLimit
    case Some(n) => n
  }

  /** `/api/changelog/latest` as written (server.js:266-346). `limit` is the
      parsed query parameter, `None` when the query has none; `None` as the
      result stands for the 500 reply when the repository listing cannot be
      fetched. */
  function LatestEndpoint(listing: Option<seq<Repo>>, showPrivate: bool, fetch: Repo -> Fetched, limit: Option<int>)
    : (r: Option<LatestResult>)
    ensures r.None? <==> listing.None?
    ensures r.Some? ==> r.value.total == |r.value.commits| && r.value.limit <= LatestCap
    ensures r.Some? && limit.None? ==>
              var feed := Feed(listing.value, showPrivate, fetch);
              r.value.limit == LatestDefaultLimit && r.value.commits == feed[..Min(LatestDefaultLimit, |feed|)]
    ensures r.Some? && limit.Some? ==> r.value.limit == Min(limit.value, LatestCap)
    ensures r.Some? && RequestedLimit(limit) >= 0 ==>
              var feed := Feed(listing.value, showPrivate, fetch);
              && r.value.commits <= feed
              && |r.value.commits| == Min(RequestedLimit(limit), Min(LatestCap, |feed|))
  {
    match listing
    case None => None
    case Some(repos) => Some(LatestAsWritten(Feed(repos, showPrivate, fetch), RequestedLimit(limit)))
  }

  /** The latest endpoint with the corrected clamp: never more than 50
      commits, whatever the limit. */
  function LatestEndpointCorrected(listing: Option<seq<Repo>>, showPrivate: bool, fetch: Repo -> Fetched, limit: Option<int>)
    : (r: Option<LatestResult>)
    ensures r.None? <==> listing.None?
    ensures r.Some? ==>
              var feed := Feed(listing.value, showPrivate, fetch);
              && r.value.limit == Max(Min(RequestedLimit(limit), LatestCap), 0)
              && r.value.commits <= feed
              && |r.value.commits| == Min(Max(RequestedLimit(limit), 0), Min(LatestCap, |feed|))
              && r.value.total == |r.value.commits|
  {
    match listing
    case None => None
    case Some(repos) => Some(Latest(Feed(repos, showPrivate, fetch), RequestedLimit(limit)))
  }

  /** The correction changes nothing for an absent or non-negative limit. */
  lemma LatestEndpointAgrees(listing: Option<seq<Repo>>, showPrivate: bool, fetch: Repo -> Fetched, limit: Option<int>)
    requires RequestedLimit(limit) >= 0
    ensures LatestEndpointCorrected(listing, showPrivate, fetch, limit) == LatestEndpoint(listing, showPrivate, fetch, limit)
  {
    if listing.Some? {
      LatestAgreesWhenNonNegative(Feed(listing.value, showPrivate, fetch), RequestedLimit(limit));
    }
  }
}
