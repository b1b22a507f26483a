/**
 The server side of the changelog: the visibility filter on the repository
 listing, the fan-out that tags each repository's commits with the
 repository, and the merge into one feed sorted by author date, newest first
 (the shared body of `/api/changelog` and `/api/changelog/latest` in
 server.js).

 The upstream calls are not modelled: each repository's commit fetch is an
 input of type `Fetched`, `None` when the call failed. `Promise.all` keeps
 the order of the promises it is given, so the fan-out is a map over the
 visible repositories in listing order.
 */
module Aggregation {
  import opened Seqs
  import opened Model
  import opened Sorting

  /** `per_page` of each repository's commit fetch for `/api/changelog`. */
  const ChangelogFetchLimit: int := 20

  /** `per_page` of each repository's commit fetch for `/api/changelog/latest`. */
  const LatestFetchLimit: int := 10

  /** The repositories shown: all of them when private ones are enabled,
      otherwise the public ones. */
  function VisibleRepos(repos: seq<Repo>, showPrivate: bool): (r: seq<Repo>)
    ensures |r| <= |repos|
    ensures forall i :: 0 <= i < |r| ==> r[i] in repos
    ensures !showPrivate ==> forall i :: 0 <= i < |r| ==> !r[i].isPrivate
    ensures showPrivate ==> r == repos
  {
    if showPrivate then repos else Filter(repos, IsPublic)
  }

  /** Every repository the policy allows is kept. */
  lemma VisibleReposKeeps(repos: seq<Repo>, showPrivate: bool, i: int)
    requires 0 <= i < |repos| && (showPrivate || !repos[i].isPrivate)
    ensures repos[i] in VisibleRepos(repos, showPrivate)
  {
    if !showPrivate {
      FilterKeeps(repos, IsPublic, i);
    }
  }

  /** The filter works repository by repository, so the kept ones stay in
      listing order. */
  lemma VisibleReposInOrder(a: seq<Repo>, b: seq<Repo>, showPrivate: bool)
    ensures VisibleRepos(a + b, showPrivate) == VisibleRepos(a, showPrivate) + VisibleRepos(b, showPrivate)
  {
    if !showPrivate {
      FilterConcat(a, b, IsPublic);
    }
  }

  /** With private repositories hidden, N repositories of which K are
      private leave exactly N - K. */
  lemma VisibleReposCount(repos: seq<Repo>)
    ensures |VisibleRepos(repos, false)| == |repos| - |Filter(repos, IsPrivate)|
  {
    FilterPartitionLength(repos, IsPrivate, IsPublic);
  }

  /** The six repository fields copied onto each commit. */
  function TagOf(r: Repo): RepoTag
  {
    RepoTag(r.name, r.fullName, r.htmlUrl, r.language, r.description, r.isPrivate)
  }

  /** One repository's fetched commits, each tagged with the repository. */
  function TagCommits(r: Repo, raws: seq<RawCommit>): (cs: seq<Commit>)
    ensures |cs| == |raws|
    ensures forall i :: 0 <= i < |cs| ==> cs[i].raw == raws[i] && cs[i].repo == TagOf(r)
  {
    seq(|raws|, i requires 0 <= i < |raws| => Commit(raws[i], TagOf(r)))
  }

  /** What one repository adds to the feed: nothing when its fetch failed. */
  function Contribution(r: Repo, f: Fetched): (cs: seq<Commit>)
    ensures f.None? ==> cs == []
    ensures f.Some? ==> |cs| == |f.value|
  {
    match f
    case None => []
    case Some(raws) => TagCommits(r, raws)
  }

  lemma ContributionProvenance(r: Repo, f: Fetched, c: Commit)
    requires c in Contribution(r, f)
    ensures c.repo == TagOf(r) && f.Some? && c.raw in f.value
  {
  }

  /** The repository-ordered concatenation of all contributions. */
  function Aggregate(repos: seq<Repo>, fetched: seq<Fetched>): seq<Commit>
    requires |fetched| == |repos|
  {
    if repos == [] then []
    else Contribution(repos[0], fetched[0]) + Aggregate(repos[1..], fetched[1..])
  }

  /** Every aggregated commit was returned by the fetch of some repository
      and carries that repository's tag. */
  lemma {:induction false} AggregateProvenance(repos: seq<Repo>, fetched: seq<Fetched>, c: Commit)
    requires |fetched| == |repos|
    requires c in Aggregate(repos, fetched)
    ensures exists i :: 0 <= i < |repos| && c.repo == TagOf(repos[i]) && fetched[i].Some? && c.raw in fetched[i].value
  {
    if c in Contribution(repos[0], fetched[0]) {
      ContributionProvenance(repos[0], fetched[0], c);
    } else {
      AggregateProvenance(repos[1..], fetched[1..], c);
      var j :| 0 <= j < |repos| - 1 && c.repo == TagOf(repos[1..][j]) && fetched[1..][j].Some? && c.raw in fetched[1..][j].value;
      assert repos[1..][j] == repos[j + 1] && fetched[1..][j] == fetched[j + 1];
    }
  }

  lemma {:induction false} AggregateConcat(r1: seq<Repo>, f1: seq<Fetched>, r2: seq<Repo>, f2: seq<Fetched>)
    requires |f1| == |r1| && |f2| == |r2|
    ensures Aggregate(r1 + r2, f1 + f2) == Aggregate(r1, f1) + Aggregate(r2, f2)
  {
    if r1 == [] {
      assert r1 + r2 == r2 && f1 + f2 == f2;
    } else {
      assert (r1 + r2)[1..] == r1[1..] + r2;
      assert (f1 + f2)[1..] == f1[1..] + f2;
      AggregateConcat(r1[1..], f1[1..], r2, f2);
    }
  }

  /** Repository `i`'s contribution sits between those of the repositories
      before it and those after it. */
  lemma AggregateSplit(repos: seq<Repo>, fetched: seq<Fetched>, i: int)
    requires |fetched| == |repos| && 0 <= i < |repos|
    ensures Aggregate(repos, fetched)
         == Aggregate(repos[..i], fetched[..i])
          + Contribution(repos[i], fetched[i])
          + Aggregate(repos[i + 1..], fetched[i + 1..])
  {
    var pre, fpre := repos[..i], fetched[..i];
    var rest, frest := repos[i..], fetched[i..];
    assert repos == pre + rest;
    assert fetched == fpre + frest;
    AggregateConcat(pre, fpre, rest, frest);
    assert rest[0] == repos[i] && frest[0] == fetched[i];
    assert rest[1..] == repos[i + 1..] && frest[1..] == fetched[i + 1..];
    assert Aggregate(rest, frest)
        == Contribution(repos[i], fetched[i]) + Aggregate(repos[i + 1..], fetched[i + 1..]);
  }

  /** Replacing repository `i`'s fetch result changes only its own
      contribution. */
  lemma AggregateReplace(repos: seq<Repo>, fetched: seq<Fetched>, i: int, f: Fetched)
    requires |fetched| == |repos| && 0 <= i < |repos|
    ensures Aggregate(repos, fetched[i := f])
         == Aggregate(repos[..i], fetched[..i])
          + Contribution(repos[i], f)
          + Aggregate(repos[i + 1..], fetched[i + 1..])
  {
    var g := fetched[i := f];
    assert g[..i] == fetched[..i];
    assert g[i + 1..] == fetched[i + 1..];
    AggregateSplit(repos, g, i);
  }

  /** A failed fetch for repository `i` removes exactly its contribution and
      leaves every other repository's commits where they were. */
  lemma FailureIsolation(repos: seq<Repo>, fetched: seq<Fetched>, i: int)
    requires |fetched| == |repos| && 0 <= i < |repos|
    ensures Aggregate(repos, fetched[i := None])
         == Aggregate(repos[..i], fetched[..i]) + Aggregate(repos[i + 1..], fetched[i + 1..])
  {
    AggregateReplace(repos, fetched, i, None);
    var pre := Aggregate(repos[..i], fetched[..i]);
    assert pre + [] == pre;
  }

  lemma MulSucc(a: int, n: int)
    ensures a * (n + 1) == a * n + a
  {
  }

  /** With at most `limit` commits per fetch, the feed holds at most
      `limit` commits per repository; deeper pages are never reachable. */
  lemma {:induction false} AggregateBounded(repos: seq<Repo>, fetched: seq<Fetched>, limit: nat)
    requires |fetched| == |repos|
    requires forall i :: 0 <= i < |fetched| && fetched[i].Some? ==> |fetched[i].value| <= limit
    ensures |Aggregate(repos, fetched)| <= limit * |repos|
  {
    if repos != [] {
      AggregateBounded(repos[1..], fetched[1..], limit);
      MulSucc(limit, |repos[1..]|);
    }
  }

  /** The merged feed: the concatenation sorted by author date, newest first,
      with commits of equal date in concatenation order. */
  function BuildFeed(repos: seq<Repo>, fetched: seq<Fetched>): (feed: seq<Commit>)
    requires |fetched| == |repos|
    ensures SortedDesc(feed, DateOf)
    ensures multiset(feed) == multiset(Aggregate(repos, fetched))
    ensures forall d :: WithKey(feed, DateOf, d) == WithKey(Aggregate(repos, fetched), DateOf, d)
  {
    SortStableAll(Aggregate(repos, fetched), DateOf);
    SortDesc(Aggregate(repos, fetched), DateOf)
  }

  /** Commits that do not come from repository tag `t`. */
  function NotFrom(s: seq<Commit>, t: RepoTag): seq<Commit>
  {
    Filter(s, (c: Commit) => c.repo != t)
  }

  lemma {:induction false} AggregateOthers(repos: seq<Repo>, fetched: seq<Fetched>, t: RepoTag)
    requires |fetched| == |repos|
    requires forall j :: 0 <= j < |repos| ==> TagOf(repos[j]) != t
    ensures NotFrom(Aggregate(repos, fetched), t) == Aggregate(repos, fetched)
  {
    var all := Aggregate(repos, fetched);
    forall c | c in all
      ensures c.repo != t
    {
      AggregateProvenance(repos, fetched, c);
    }
    FilterKeepsAll(all, (c: Commit) => c.repo != t);
  }

  /** When repository names are distinct, failing repository `i`'s fetch
      is the same as removing its commits from the concatenation. */
  lemma AggregateWithoutRepo(repos: seq<Repo>, fetched: seq<Fetched>, i: int)
    requires |fetched| == |repos| && 0 <= i < |repos|
    requires forall j :: 0 <= j < |repos| && j != i ==> repos[j].name != repos[i].name
    ensures Aggregate(repos, fetched[i := None]) == NotFrom(Aggregate(repos, fetched), TagOf(repos[i]))
  {
    var t := TagOf(repos[i]);
    var p := (c: Commit) => c.repo != t;
    var rPre, fPre := repos[..i], fetched[..i];
    var rPost, fPost := repos[i + 1..], fetched[i + 1..];
    var pre, post := Aggregate(rPre, fPre), Aggregate(rPost, fPost);
    var mine := Contribution(repos[i], fetched[i]);
    forall j | 0 <= j < |rPre|
      ensures TagOf(rPre[j]) != t
    {
      assert rPre[j] == repos[j];
    }
    AggregateOthers(rPre, fPre, t);
    forall j | 0 <= j < |rPost|
      ensures TagOf(rPost[j]) != t
    {
      assert rPost[j] == repos[i + 1 + j];
    }
    AggregateOthers(rPost, fPost, t);
    forall c | c in mine
      ensures !p(c)
    {
      ContributionProvenance(repos[i], fetched[i], c);
    }
    FilterDropsAll(mine, p);
    calc {
      NotFrom(Aggregate(repos, fetched), t);
      { AggregateSplit(repos, fetched, i); }
      Filter(pre + mine + post, p);
      { FilterConcat(pre + mine, post, p); FilterConcat(pre, mine, p); }
      Filter(pre, p) + Filter(mine, p) + Filter(post, p);
      pre + [] + post;
      { assert pre + [] == pre; }
      pre + post;
      { FailureIsolation(repos, fetched, i); }
      Aggregate(repos, fetched[i := None]);
    }
  }

  /** At the level of the sorted feed: when repository names are distinct,
      the feed after repository `i`'s fetch fails is the full feed with that
      repository's commits removed, nothing else changed. */
  lemma FailedFetchDropsOnlyItsCommits(repos: seq<Repo>, fetched: seq<Fetched>, i: int)
    requires |fetched| == |repos| && 0 <= i < |repos|
    requires forall j :: 0 <= j < |repos| && j != i ==> repos[j].name != repos[i].name
    ensures BuildFeed(repos, fetched[i := None]) == NotFrom(BuildFeed(repos, fetched), TagOf(repos[i]))
  {
    var t := TagOf(repos[i]);
    AggregateWithoutRepo(repos, fetched, i);
    SortFilterCommute(Aggregate(repos, fetched), DateOf, (c: Commit) => c.repo != t);
  }

  /** The Promise.all fan-out: one fetch result per visible repository, in
      repository order. */
  function FetchAll(repos: seq<Repo>, fetch: Repo -> Fetched): (fetched: seq<Fetched>)
    ensures |fetched| == |repos|
    ensures forall i :: 0 <= i < |repos| ==> fetched[i] == fetch(repos[i])
  {
    seq(|repos|, i requires 0 <= i < |repos| => fetch(repos[i]))
  }

  /** The feed built from a repository listing: filter, fan out, merge. */
  function Feed(listing: seq<Repo>, showPrivate: bool, fetch: Repo -> Fetched): seq<Commit>
  {
    var visible := VisibleRepos(listing, showPrivate);
    BuildFeed(visible, FetchAll(visible, fetch))
  }

  /** With private repositories hidden, no commit of a private repository
      reaches the feed, and every commit comes from a listed repository. */
  lemma FeedHidesPrivate(listing: seq<Repo>, showPrivate: bool, fetch: Repo -> Fetched, c: Commit)
    requires c in Feed(listing, showPrivate, fetch)
    ensures exists r :: r in listing && c.repo == TagOf(r) && fetch(r).Some? && c.raw in fetch(r).value
    ensures !showPrivate ==> !c.repo.isPrivate
  {
    var visible := VisibleRepos(listing, showPrivate);
    var fetched := FetchAll(visible, fetch);
    assert c in multiset(Aggregate(visible, fetched));
    AggregateProvenance(visible, fetched, c);
    var i :| 0 <= i < |visible| && c.repo == TagOf(visible[i]) && fetched[i].Some? && c.raw in fetched[i].value;
    assert visible[i] in listing;
  }

  /** When every fetch honours `per_page: 20`, the changelog feed holds at
      most 20 commits per visible repository: pages past that depth are
      empty however many commits the repositories have. */
  lemma ChangelogFeedBounded(listing: seq<Repo>, showPrivate: bool, fetch: Repo -> Fetched)
    requires forall r :: fetch(r).Some? ==> |fetch(r).value| <= ChangelogFetchLimit
    ensures |Feed(listing, showPrivate, fetch)| <= ChangelogFetchLimit * |VisibleRepos(listing, showPrivate)|
  {
    var visible := VisibleRepos(listing, showPrivate);
    AggregateBounded(visible, FetchAll(visible, fetch), ChangelogFetchLimit);
  }

  /** The latest endpoint fetches `per_page: 10`, so its feed holds at most
      10 commits per visible repository. */
  lemma LatestFeedBounded(listing: seq<Repo>, showPrivate: bool, fetch: Repo -> Fetched)
    requires forall r :: fetch(r).Some? ==> |fetch(r).value| <= LatestFetchLimit
    ensures |Feed(listing, showPrivate, fetch)| <= LatestFetchLimit * |VisibleRepos(listing, showPrivate)|
  {
    var visible := VisibleRepos(listing, showPrivate);
    AggregateBounded(visible, FetchAll(visible, fetch), LatestFetchLimit);
  }
}
