/**
 The browser client's paging state in public/app.js: `currentPage`,
 `isLoading`, `hasMore` and `allDates`, changed by the first load
 (`loadChangelog`), the infinite-scroll step (`loadMoreCommits`) and the
 five-minute refresh, and shown by `renderChangelog`.

 `allDates` is a JavaScript object keyed by day; its keys are not
 integer-like, so they enumerate in insertion order, and it is a `Groups`
 association list in that order. A request's outcome is an input: the
 server's page, a 500 reply (whose body has neither `hasMore` nor `grouped`,
 so `hasMore` becomes `undefined` and `Object.keys(undefined)` throws), or a
 failure of `fetch` or of the JSON decoding.
 */
module Client {
  import opened Seqs
  import opened Model
  import opened Sorting
  import opened Grouping
  import opened Aggregation
  import opened Pagination

  /** The `limit=20` of every page request of the client. */
  const PageSize: int := 20

  /** What was last drawn into the changelog container. */
  datatype Screen =
    | Waiting              // before the first load finishes
    | Failed               // the error text with the retry button
    | Rendered(dates: Groups)  // `renderChangelog` on these `allDates`

  /** What the container then shows. */
  datatype Content =
    | Loading
    | ErrorText
    | NoCommits            // the `noCommits` text
    | Timeline(groups: Groups)

  datatype ClientState = ClientState(
    currentPage: int,
    isLoading: bool,
    hasMore: bool,
    allDates: Groups,
    screen: Screen)

  /** The globals as the script declares them. */
  const Initial: ClientState := ClientState(1, false, true, [], Waiting)

  datatype Reply =
    | NetworkFailure       // `fetch` or `res.json()` rejects
    | ServerError          // the 500 body `{ error }`
    | Ok(body: PageResult)

  function GroupDay(g: Group): int { g.day }

  /** `renderChangelog`: the keys of `allDates` sorted newest day first with
      a stable sort, or the empty-state text when there are none. */
  function Render(all: Groups): Content
  {
    if all == [] then NoCommits else Timeline(SortDesc(all, GroupDay))
  }

  /** What the container shows for what was last drawn into it. */
  function Contents(sc: Screen): Content
  {
    match sc
    case Waiting => Loading
    case Failed => ErrorText
    case Rendered(all) => Render(all)
  }

  /** The empty-state message exactly when there is nothing to show;
      otherwise every day of `allDates`, newest first. */
  lemma RenderShows(all: Groups)
    ensures Render(all) == NoCommits <==> all == []
    ensures Render(all).Timeline? <==> all != []
    ensures Render(all).Timeline? ==>
              SortedDesc(Render(all).groups, GroupDay) && multiset(Render(all).groups) == multiset(all)
  {
  }

  // ---------------------------------------------------------------------
  // The first load.

  /** `loadChangelog` as written (public/app.js:155-187): reset the paging
      state, then merge page 1 into the empty `allDates`. A failed request
      shows the error screen; a 500 reply clears `hasMore` on the way, a
      network failure leaves it `true`. `isLoading` is not touched. */
  function LoadChangelogAsWritten(s: ClientState, reply: Reply): (r: ClientState)
    ensures r.currentPage == 1 && r.isLoading == s.isLoading
    ensures reply.Ok? ==>
              && r.hasMore == reply.body.hasMore
              && r.allDates == Merge([], reply.body.grouped)
              && r.screen == Rendered(r.allDates)
    ensures !reply.Ok? ==>
              r.allDates == [] && r.screen == Failed && (r.hasMore <==> reply.NetworkFailure?)
  {
    var reset := s.(currentPage := 1, allDates := [], hasMore := true);
    match reply
    case Ok(body) =>
      var all := Merge(reset.allDates, body.grouped);
      reset.(hasMore := body.hasMore, allDates := all, screen := Rendered(all))
    case ServerError => reset.(hasMore := false, screen := Failed)
    case NetworkFailure => reset.(screen := Failed)
  }

  /** `loadChangelog` with `hasMore` cleared whenever the first page could
      not be shown, so that scrolling the error screen requests nothing. */
  function LoadChangelog(s: ClientState, reply: Reply): (r: ClientState)
    ensures r.currentPage == 1 && r.isLoading == s.isLoading
    ensures reply.Ok? ==> r == LoadChangelogAsWritten(s, reply)
    ensures !reply.Ok? ==> r.allDates == [] && r.screen == Failed && !r.hasMore
  {
    var r := LoadChangelogAsWritten(s, reply);
    if reply.Ok? then r else r.(hasMore := false)
  }

  // ---------------------------------------------------------------------
  // Infinite scroll.

  /** The synchronous head of `loadMoreCommits` (public/app.js:190-194): a
      no-op while a request is in flight or after the last page; otherwise
      it marks the client busy, advances `currentPage` and requests that
      page. */
  function BeginLoadMore(s: ClientState): (r: (ClientState, Option<int>))
    ensures s.isLoading || !s.hasMore ==> r == (s, None)
    ensures !s.isLoading && s.hasMore ==>
              && r.0 == s.(isLoading := true, currentPage := s.currentPage + 1)
              && r.1 == Some(s.currentPage + 1)
  {
    if s.isLoading || !s.hasMore then (s, None)
    else (s.(isLoading := true, currentPage := s.currentPage + 1), Some(s.currentPage + 1))
  }

  /** The rest of `loadMoreCommits` once the request settles
      (public/app.js:203-233): a page is merged into `allDates` and shown; a
      failure rolls `currentPage` back, and a 500 reply also clears
      `hasMore`; in every case the client is no longer busy. */
  function EndLoadMore(s: ClientState, reply: Reply): (r: ClientState)
    ensures !r.isLoading
    ensures reply.Ok? ==>
              && r.currentPage == s.currentPage
              && r.hasMore == reply.body.hasMore
              && r.allDates == Merge(s.allDates, reply.body.grouped)
              && r.screen == Rendered(r.allDates)
    ensures !reply.Ok? ==>
              && r.currentPage == s.currentPage - 1
              && r.allDates == s.allDates && r.screen == s.screen
              && r.hasMore == (s.hasMore && reply.NetworkFailure?)
  {
    match reply
    case Ok(body) =>
      var all := Merge(s.allDates, body.grouped);
      s.(hasMore := body.hasMore, allDates := all, screen := Rendered(all), isLoading := false)
    case ServerError => s.(hasMore := false, currentPage := s.currentPage - 1, isLoading := false)
    case NetworkFailure => s.(currentPage := s.currentPage - 1, isLoading := false)
  }

  /** One whole `loadMoreCommits` call whose request gets `reply`. */
  function LoadMore(s: ClientState, reply: Reply): (r: ClientState)
    ensures s.isLoading || !s.hasMore ==> r == s
  {
    var begun := BeginLoadMore(s);
    if begun.1.None? then s else EndLoadMore(begun.0, reply)
  }

  /** A scroll step never removes or reorders what the timeline holds: it
      only appends commits to days already there and adds new days
      behind them. */
  lemma LoadMoreExtends(s: ClientState, reply: Reply)
    ensures Extends(s.allDates, LoadMore(s, reply).allDates)
  {
    if !s.isLoading && s.hasMore && reply.Ok? {
      MergeExtends(s.allDates, reply.body.grouped);
    }
  }

  /** The five-minute timer (public/app.js:320-325): reset, then call
      `loadChangelog` as written. */
  function Refresh(s: ClientState, reply: Reply): ClientState
  {
    LoadChangelogAsWritten(s.(currentPage := 1, allDates := [], hasMore := true), reply)
  }

  /** The timer's own reset adds nothing to what `loadChangelog` resets. */
  lemma RefreshIsReload(s: ClientState, reply: Reply)
    ensures Refresh(s, reply) == LoadChangelogAsWritten(s, reply)
  {
  }

  // ---------------------------------------------------------------------
  // The paging invariant against the server's feed.

  /** How many commits of the feed the first `page` pages hold. */
  function Shown(feed: seq<Commit>, page: int): (n: nat)
    requires page >= 0
    ensures n <= |feed|
    ensures page == 0 ==> n == 0
  {
    Min(PageSize * page, |feed|)
  }

  /** `body` is page `page` of `feed` as the server answers it: the
      commits between the ends of pages `page - 1` and `page`, grouped by
      day, and whether the feed goes on past them. */
  predicate ServesPage(body: PageResult, feed: seq<Commit>, page: int)
  {
    && page >= 1
    && Shown(feed, page - 1) <= Shown(feed, page)
    && body.commits == feed[Shown(feed, page - 1)..Shown(feed, page)]
    && body.grouped == GroupByDate(body.commits)
    && (body.hasMore <==> Shown(feed, page) < |feed|)
  }

  /** The server's reply to `limit=20&page=p` is page `p` of its feed. */
  lemma PaginateServesPage(feed: seq<Commit>, page: int)
    requires page >= 1
    ensures ServesPage(Paginate(feed, page, PageSize), feed, page)
  {
    PageBetweenEnds(feed, page, PageSize);
    PageBoundsAreProducts(page, PageSize);
    PageBoundsAreProducts(page - 1, PageSize);
  }

  /** An idle client whose `allDates` groups the first `n` commits of
      `feed`, shows them, and knows whether more remain. */
  predicate Holds(s: ClientState, feed: seq<Commit>, n: nat)
  {
    && n <= |feed|
    && !s.isLoading
    && s.allDates == GroupByDate(feed[..n])
    && s.screen == Rendered(s.allDates)
    && (s.hasMore <==> n < |feed|)
  }

  /** An idle client that holds exactly pages 1 to `currentPage` of `feed`,
      grouped by day, shows them, and knows whether more remain. */
  predicate Consistent(s: ClientState, feed: seq<Commit>)
  {
    s.currentPage >= 1 && Holds(s, feed, Shown(feed, s.currentPage))
  }

  /** A first load answered with page 1 leaves the client consistent with
      the feed. */
  lemma LoadChangelogOk(s: ClientState, feed: seq<Commit>, body: PageResult)
    requires !s.isLoading && ServesPage(body, feed, 1)
    ensures Consistent(LoadChangelog(s, Ok(body)), feed)
  {
    assert feed[0..Shown(feed, 1)] == feed[..Shown(feed, 1)];
    MergeIntoEmpty(body.commits);
  }

  /** A scroll step that gets a page: one page further, idle again, the
      page merged into `allDates` and shown. */
  lemma LoadMorePage(s: ClientState, body: PageResult)
    requires !s.isLoading && s.hasMore
    ensures var all := Merge(s.allDates, body.grouped);
            LoadMore(s, Ok(body)) == ClientState(s.currentPage + 1, false, body.hasMore, all, Rendered(all))
  {
  }

  /** A scroll step answered with the commits `feed[a..b]`, when the
      client holds `feed[..a]`: afterwards it holds `feed[..b]`. */
  lemma LoadMoreSlice(s: ClientState, feed: seq<Commit>, a: nat, b: nat, body: PageResult)
    requires Holds(s, feed, a) && s.hasMore && a <= b <= |feed|
    requires body.commits == feed[a..b] && body.grouped == GroupByDate(body.commits)
    requires body.hasMore <==> b < |feed|
    ensures LoadMore(s, Ok(body)).currentPage == s.currentPage + 1
    ensures Holds(LoadMore(s, Ok(body)), feed, b)
  {
    LoadMorePage(s, body);
    PrefixSplit(feed, a, b);
    MergeGroupByDate(feed[..a], body.commits);
  }

  /** `Consistent` at page `k + 1`, spelled out. */
  lemma ConsistentAt(r: ClientState, feed: seq<Commit>, k: int)
    requires k >= 1 && r.currentPage == k + 1 && Holds(r, feed, Shown(feed, k + 1))
    ensures Consistent(r, feed)
  {
  }

  /** Page `k + 1` in terms of the commits shown after `k` pages. */
  lemma ServesNextPage(body: PageResult, feed: seq<Commit>, k: int)
    requires k >= 1 && ServesPage(body, feed, k + 1)
    ensures Shown(feed, k) <= Shown(feed, k + 1)
    ensures body.commits == feed[Shown(feed, k)..Shown(feed, k + 1)]
    ensures body.grouped == GroupByDate(body.commits)
    ensures body.hasMore <==> Shown(feed, k + 1) < |feed|
  {
    assert Shown(feed, (k + 1) - 1) == Shown(feed, k);
  }

  /** A scroll step answered with the next page keeps the client
      consistent: it asks for page `currentPage + 1`, and merging that
      page's groups into `allDates` gives the grouping of one page more of
      the feed. */
  lemma LoadMoreOk(s: ClientState, feed: seq<Commit>, body: PageResult)
    requires Consistent(s, feed) && s.hasMore
    requires ServesPage(body, feed, s.currentPage + 1)
    ensures LoadMore(s, Ok(body)).currentPage == s.currentPage + 1
    ensures Consistent(LoadMore(s, Ok(body)), feed)
  {
    var k := s.currentPage;
    ServesNextPage(body, feed, k);
    LoadMoreSlice(s, feed, Shown(feed, k), Shown(feed, k + 1), body);
    ConsistentAt(LoadMore(s, Ok(body)), feed, k);
  }

  /** A request that never reached the server leaves a consistent client
      exactly as it was. */
  lemma LoadMoreNetworkFailure(s: ClientState, feed: seq<Commit>)
    requires Consistent(s, feed)
    ensures LoadMore(s, NetworkFailure) == s
  {
  }

  /** A 500 reply ends the infinite scroll: `hasMore` is cleared, nothing
      else changes, and later scroll steps do nothing until a reload. */
  lemma ServerErrorStopsScrolling(s: ClientState, reply: Reply)
    requires !s.isLoading
    ensures LoadMore(s, ServerError) == s.(hasMore := false)
    ensures LoadMore(LoadMore(s, ServerError), reply) == LoadMore(s, ServerError)
  {
  }

  /** Once the server reports no more commits, `allDates` groups the whole
      feed. */
  lemma AllLoaded(s: ClientState, feed: seq<Commit>)
    requires Consistent(s, feed) && !s.hasMore
    ensures s.allDates == GroupByDate(feed)
  {
    assert feed[..|feed|] == feed;
  }

  /** On the server's newest-first feed the timeline shows `allDates` in
      its own key order, and reading it day by day gives the loaded
      commits in feed order. */
  lemma RenderOfConsistent(s: ClientState, feed: seq<Commit>)
    requires Consistent(s, feed) && SortedDesc(feed, DateOf)
    ensures Flatten(s.allDates) == feed[..Shown(feed, s.currentPage)]
    ensures Shown(feed, s.currentPage) == 0 ==> Contents(s.screen) == NoCommits
    ensures Shown(feed, s.currentPage) > 0 ==> Contents(s.screen) == Timeline(s.allDates)
  {
    var loaded := feed[..Shown(feed, s.currentPage)];
    assert SortedDesc(loaded, DateOf) by {
      forall i, j | 0 <= i < j < |loaded|
        ensures DateOf(loaded[i]) >= DateOf(loaded[j])
      {
        assert loaded[i] == feed[i] && loaded[j] == feed[j];
      }
    }
    SortedGrouping(loaded);
    assert SortedDesc(s.allDates, GroupDay) by {
      forall i, j | 0 <= i < j < |s.allDates|
        ensures GroupDay(s.allDates[i]) >= GroupDay(s.allDates[j])
      {
      }
    }
    SortOfSorted(s.allDates, GroupDay);
    if loaded != [] {
      assert s.allDates != [];
    } else {
      assert s.allDates == GroupByDate([]);
    }
  }

  // ---------------------------------------------------------------------
  // A whole session.

  /** A server answering the client's requests: page `p` of the reply to
      `limit=20&page=p`. */
  type Server = int -> PageResult

  /** The server answers every page request with that page of `feed`. */
  ghost predicate Serves(server: Server, feed: seq<Commit>)
  {
    forall p :: p >= 1 ==> ServesPage(server(p), feed, p)
  }

  /** The changelog endpoint over a fixed feed is such a server. */
  lemma ChangelogServes(feed: seq<Commit>)
    ensures Serves(p => Paginate(feed, p, PageSize), feed)
  {
    forall p | p >= 1
      ensures ServesPage(Paginate(feed, p, PageSize), feed, p)
    {
      PaginateServesPage(feed, p);
    }
  }

  /** The page a serving server gives for request `p`. */
  lemma ServesAt(server: Server, feed: seq<Commit>, p: int)
    requires Serves(server, feed) && p >= 1
    ensures ServesPage(server(p), feed, p)
  {
  }

  /** A run of scroll steps: each state is the one before it after a
      scroll step that the server answers with the page the client asks
      for. */
  ghost predicate IsRun(run: seq<ClientState>, server: Server)
  {
    forall i, j :: 0 <= i && j == i + 1 && j < |run| ==>
      run[j] == LoadMore(run[i], Ok(server(run[i].currentPage + 1)))
  }

  /** A scroll step answered by the server keeps the client consistent;
      while more commits remain, it loads one page more, and after the last
      page it changes nothing. */
  lemma StepConsistent(s: ClientState, server: Server, feed: seq<Commit>)
    requires ServesPage(server(s.currentPage + 1), feed, s.currentPage + 1) && Consistent(s, feed)
    ensures Consistent(LoadMore(s, Ok(server(s.currentPage + 1))), feed)
    ensures s.hasMore ==> LoadMore(s, Ok(server(s.currentPage + 1))).currentPage == s.currentPage + 1
    ensures !s.hasMore ==> LoadMore(s, Ok(server(s.currentPage + 1))) == s
  {
    if s.hasMore {
      LoadMoreOk(s, feed, server(s.currentPage + 1));
    }
  }

  /** Consecutive states of a run. */
  lemma RunStep(run: seq<ClientState>, server: Server, i: int)
    requires IsRun(run, server) && 0 < i < |run|
    ensures run[i] == LoadMore(run[i - 1], Ok(server(run[i - 1].currentPage + 1)))
  {
  }

  /** A step of a run from a consistent state answered with the page the
      client asks for: consistent again, one page further while more
      commits remain, and still at the end after the last page. */
  lemma RunStepConsistent(run: seq<ClientState>, server: Server, feed: seq<Commit>, i: int)
    requires IsRun(run, server) && 0 < i < |run| && Consistent(run[i - 1], feed)
    requires ServesPage(server(run[i - 1].currentPage + 1), feed, run[i - 1].currentPage + 1)
    ensures Consistent(run[i], feed)
    ensures run[i - 1].hasMore ==> run[i].currentPage == run[i - 1].currentPage + 1
    ensures !run[i - 1].hasMore ==> !run[i].hasMore
  {
    RunStep(run, server, i);
    StepConsistent(run[i - 1], server, feed);
  }

  /** Every state of a run that starts consistent is consistent, and while
      more commits remain the `i`-th step has loaded `i` pages more. */
  lemma {:induction false} RunConsistent(run: seq<ClientState>, server: Server, feed: seq<Commit>, i: int)
    requires Serves(server, feed) && IsRun(run, server)
    requires |run| > 0 && Consistent(run[0], feed)
    requires 0 <= i < |run|
    ensures Consistent(run[i], feed)
    ensures run[i].hasMore ==> run[i].currentPage == run[0].currentPage + i
    decreases i
  {
    if i > 0 {
      RunConsistent(run, server, feed, i - 1);
      ServesAt(server, feed, run[i - 1].currentPage + 1);
      RunStepConsistent(run, server, feed, i);
    }
  }

  /** A consistent client that still expects more has not reached the end
      of the feed. */
  lemma ConsistentPageBound(s: ClientState, feed: seq<Commit>)
    requires Consistent(s, feed) && s.hasMore
    ensures PageSize * s.currentPage < |feed|
  {
  }

  /** A whole session against a server with an unchanging feed: the first
      load, then scroll steps. Once as many pages of twenty as the session
      has states cover the feed, the client has stopped asking and
      `allDates` groups the entire feed. */
  lemma SessionLoadsEverything(run: seq<ClientState>, server: Server, feed: seq<Commit>)
    requires Serves(server, feed) && IsRun(run, server)
    requires |run| > 0 && run[0] == LoadChangelog(Initial, Ok(server(1)))
    requires PageSize * |run| >= |feed|
    ensures var r := run[|run| - 1];
            && Consistent(r, feed)
            && !r.hasMore
            && r.allDates == GroupByDate(feed)
  {
    ServesAt(server, feed, 1);
    LoadChangelogOk(Initial, feed, server(1));
    RunConsistent(run, server, feed, |run| - 1);
    var r := run[|run| - 1];
    if r.hasMore {
      ConsistentPageBound(r, feed);
    }
    AllLoaded(r, feed);
  }

  /** `/api/changelog` with `limit=20` over a repository listing whose
      fetches do not change serves every page request from its feed. */
  lemma ChangelogEndpointServes(repos: seq<Repo>, showPrivate: bool, fetch: Repo -> Fetched)
    ensures Serves(p => Changelog(Some(repos), showPrivate, fetch, p, PageSize).value, Feed(repos, showPrivate, fetch))
  {
    var feed := Feed(repos, showPrivate, fetch);
    forall p | p >= 1
      ensures ServesPage(Changelog(Some(repos), showPrivate, fetch, p, PageSize).value, feed, p)
    {
      PaginateServesPage(feed, p);
    }
  }

  /** The same for the changelog endpoint itself: a session of `k` states
      against `/api/changelog` over unchanging repositories whose feed has
      at most `20 * k` commits ends holding the grouping of the whole feed. */
  lemma ChangelogSession(run: seq<ClientState>, repos: seq<Repo>, showPrivate: bool, fetch: Repo -> Fetched)
    requires IsRun(run, p => Changelog(Some(repos), showPrivate, fetch, p, PageSize).value)
    requires |run| > 0
    requires run[0] == LoadChangelog(Initial, Ok(Changelog(Some(repos), showPrivate, fetch, 1, PageSize).value))
    requires PageSize * |run| >= |Feed(repos, showPrivate, fetch)|
    ensures !run[|run| - 1].hasMore
    ensures run[|run| - 1].allDates == GroupByDate(Feed(repos, showPrivate, fetch))
  {
    var server: Server := p => Changelog(Some(repos), showPrivate, fetch, p, PageSize).value;
    ChangelogEndpointServes(repos, showPrivate, fetch);
    assert run[0] == LoadChangelog(Initial, Ok(server(1)));
    SessionLoadsEverything(run, server, Feed(repos, showPrivate, fetch));
  }

  // ---------------------------------------------------------------------
  // After a failed first load.

  /** As written, a first load or a timer refresh that fails on the network
      leaves `hasMore` true, so the next scroll over the error screen
      requests page 2 while page 1 was never shown; when that request
      succeeds, the timeline holds page 2 alone. */
  lemma FailedLoadRequestsSecondPage(s: ClientState, feed: seq<Commit>)
    requires !s.isLoading
    ensures var t := LoadChangelogAsWritten(s, NetworkFailure);
            && Refresh(s, NetworkFailure) == t
            && t.allDates == [] && t.screen == Failed
            && BeginLoadMore(t).1 == Some(2)
            && LoadMore(t, Ok(Paginate(feed, 2, PageSize))).allDates
                 == GroupByDate(feed[Shown(feed, 1)..Shown(feed, 2)])
  {
    var page := Paginate(feed, 2, PageSize);
    PaginateServesPage(feed, 2);
    MergeIntoEmpty(page.commits);
  }

  /** With `hasMore` cleared on failure, scroll steps do nothing until the
      retry button or the timer loads page 1 again. */
  lemma FailedLoadStopsScrolling(s: ClientState, failure: Reply, reply: Reply)
    requires !failure.Ok?
    ensures BeginLoadMore(LoadChangelog(s, failure)).1 == None
    ensures LoadMore(LoadChangelog(s, failure), reply) == LoadChangelog(s, failure)
  {
  }
}
