/**
 The `/api/stats` endpoint of server.js: repository count, star and fork
 totals, the per-language tally and the first five repositories in listing
 order, all over the repositories that the visibility filter keeps.

 The tally is a JavaScript object keyed by language name, filled with
 `stats[lang] = (stats[lang] || 0) + 1`; its keys are not integer-like, so
 they enumerate in insertion order, and it is modelled as an association
 list in that order.
 */
module Stats {
  import opened Seqs
  import opened Model
  import opened Aggregation

  /** How many repositories `recentRepos` lists. */
  const RecentRepoCount: int := 5

  datatype LangCount = LangCount(language: string, count: int)

  type LanguageStats = seq<LangCount>

  /** The JSON body of a successful `/api/stats` call, without the user
      record that is passed through unchanged. */
  datatype StatsResult = StatsResult(
    repoCount: int,
    totalStars: int,
    totalForks: int,
    languageStats: LanguageStats,
    recentRepos: seq<Repo>)

  /** `if (repo.language)`: the language is present and not empty. */
  predicate HasLanguage(r: Repo)
  {
    r.language.Some? && r.language.value != ""
  }

  /** The repositories written in language `l`. */
  function WithLanguage(repos: seq<Repo>, l: string): seq<Repo>
  {
    Filter(repos, (r: Repo) => HasLanguage(r) && r.language.value == l)
  }

  /** The keys of the tally, in enumeration order. */
  function Languages(t: LanguageStats): (ls: seq<string>)
    ensures |ls| == |t|
    ensures forall i :: 0 <= i < |t| ==> ls[i] == t[i].language
  {
    seq(|t|, i requires 0 <= i < |t| => t[i].language)
  }

  /** Position of key `l`, or `|t|` when the tally has no such key. */
  function LangIndex(t: LanguageStats, l: string): (k: nat)
    ensures k <= |t|
    ensures k < |t| ==> t[k].language == l
    ensures forall j :: 0 <= j < k ==> t[j].language != l
  {
    if t == [] then 0
    else if t[0].language == l then 0
    else 1 + LangIndex(t[1..], l)
  }

  /** `stats[l] || 0`. */
  function CountOf(t: LanguageStats, l: string): int
  {
    var k := LangIndex(t, l);
    if k < |t| then t[k].count else 0
  }

  /** `stats[l] = (stats[l] || 0) + 1`. */
  function Bump(t: LanguageStats, l: string): (r: LanguageStats)
    ensures Languages(r) == if l in Languages(t) then Languages(t) else Languages(t) + [l]
  {
    var k := LangIndex(t, l);
    if k < |t| then t[k := LangCount(l, t[k].count + 1)] else t + [LangCount(l, 1)]
  }

  /** The `forEach` over the repositories (server.js:401-406). */
  function Tally(repos: seq<Repo>): LanguageStats
  {
    if repos == [] then []
    else
      var init, last := repos[..|repos| - 1], repos[|repos| - 1];
      if HasLanguage(last) then Bump(Tally(init), last.language.value) else Tally(init)
  }

  predicate DistinctLanguages(t: LanguageStats)
  {
    forall i, j :: 0 <= i < j < |t| ==> t[i].language != t[j].language
  }

  predicate PositiveCounts(t: LanguageStats)
  {
    forall i :: 0 <= i < |t| ==> t[i].count >= 1
  }

  /** `LangIndex` is determined by its contract. */
  lemma LangIndexIs(t: LanguageStats, l: string, k: nat)
    requires k <= |t|
    requires k < |t| ==> t[k].language == l
    requires forall j :: 0 <= j < k ==> t[j].language != l
    ensures LangIndex(t, l) == k
  {
  }

  /** A bump adds one to its own key and leaves every other count alone. */
  lemma CountOfBump(t: LanguageStats, l: string, m: string)
    requires DistinctLanguages(t)
    ensures CountOf(Bump(t, l), m) == CountOf(t, m) + (if l == m then 1 else 0)
  {
    var k := LangIndex(t, l);
    var r := Bump(t, l);
    if k < |t| {
      var km := LangIndex(t, m);
      if km < |t| {
        LangIndexIs(r, m, km);
      } else {
        LangIndexIs(r, m, |t|);
      }
    } else {
      assert r == t + [LangCount(l, 1)];
      if l == m {
        LangIndexIs(r, m, |t|);
      } else if LangIndex(t, m) < |t| {
        LangIndexIs(r, m, LangIndex(t, m));
      } else {
        LangIndexIs(r, m, |r|);
      }
    }
  }

  lemma BumpKeeps(t: LanguageStats, l: string)
    requires DistinctLanguages(t) && PositiveCounts(t)
    ensures DistinctLanguages(Bump(t, l)) && PositiveCounts(Bump(t, l))
  {
    var r := Bump(t, l);
    forall i, j | 0 <= i < j < |r|
      ensures r[i].language != r[j].language
    {
      assert Languages(r)[i] == r[i].language && Languages(r)[j] == r[j].language;
      if j < |t| {
        assert Languages(t)[i] == t[i].language && Languages(t)[j] == t[j].language;
      } else {
        assert Languages(t)[i] == t[i].language;
      }
    }
  }

  /** The tally has one key per language, and every count is positive. */
  lemma {:induction false} TallyWellFormed(repos: seq<Repo>)
    ensures DistinctLanguages(Tally(repos)) && PositiveCounts(Tally(repos))
  {
    if repos != [] {
      var init, last := repos[..|repos| - 1], repos[|repos| - 1];
      TallyWellFormed(init);
      if HasLanguage(last) {
        BumpKeeps(Tally(init), last.language.value);
      }
    }
  }

  /** The count of every language is the number of repositories written in
      it (and a language no repository uses counts 0). */
  lemma {:induction false} TallyCounts(repos: seq<Repo>, l: string)
    ensures CountOf(Tally(repos), l) == |WithLanguage(repos, l)|
  {
    if repos != [] {
      var init, last := repos[..|repos| - 1], repos[|repos| - 1];
      assert repos == init + [last];
      TallyCounts(init, l);
      TallyWellFormed(init);
      FilterSnoc(init, last, (r: Repo) => HasLanguage(r) && r.language.value == l);
      if HasLanguage(last) {
        CountOfBump(Tally(init), last.language.value, l);
      }
    }
  }

  /** A language is a key of the tally exactly when some repository is
      written in it. */
  lemma TallyKeys(repos: seq<Repo>, l: string)
    ensures l in Languages(Tally(repos)) <==> WithLanguage(repos, l) != []
  {
    var t := Tally(repos);
    TallyWellFormed(repos);
    TallyCounts(repos, l);
    var k := LangIndex(t, l);
    if k < |t| {
      assert Languages(t)[k] == l;
    } else {
      forall i | 0 <= i < |t|
        ensures Languages(t)[i] != l
      {
      }
    }
  }

  function Count(e: LangCount): int { e.count }

  lemma SumByUpdate(t: LanguageStats, k: nat, e: LangCount)
    requires k < |t|
    ensures SumBy(t[k := e], Count) == SumBy(t, Count) - t[k].count + e.count
  {
    assert t == t[..k] + [t[k]] + t[k + 1..];
    assert t[k := e] == t[..k] + [e] + t[k + 1..];
    SumByConcat(t[..k] + [t[k]], t[k + 1..], Count);
    SumByConcat(t[..k], [t[k]], Count);
    SumByConcat(t[..k] + [e], t[k + 1..], Count);
    SumByConcat(t[..k], [e], Count);
  }

  /** The counts add up to the number of repositories with a language. */
  lemma {:induction false} TallyTotal(repos: seq<Repo>)
    ensures SumBy(Tally(repos), Count) == |Filter(repos, HasLanguage)|
  {
    if repos != [] {
      var init, last := repos[..|repos| - 1], repos[|repos| - 1];
      assert repos == init + [last];
      TallyTotal(init);
      FilterSnoc(init, last, HasLanguage);
      if HasLanguage(last) {
        var t := Tally(init);
        var k := LangIndex(t, last.language.value);
        if k < |t| {
          SumByUpdate(t, k, LangCount(last.language.value, t[k].count + 1));
        } else {
          SumByConcat(t, [LangCount(last.language.value, 1)], Count);
        }
      }
    }
  }

  function Stars(r: Repo): int { r.stars }

  function Forks(r: Repo): int { r.forks }

  /** `TallyCounts` for every language at once. */
  lemma TallyCountsAll(repos: seq<Repo>)
    ensures forall l :: CountOf(Tally(repos), l) == |WithLanguage(repos, l)|
  {
    forall l
      ensures CountOf(Tally(repos), l) == |WithLanguage(repos, l)|
    {
      TallyCounts(repos, l);
    }
  }

  /** `/api/stats` (server.js:394-421). `None` stands for the 500 reply when
      the user record or the repository listing cannot be fetched. */
  function StatsOf(userFetched: bool, listing: Option<seq<Repo>>, showPrivate: bool): (r: Option<StatsResult>)
    ensures r.None? <==> !userFetched || listing.None?
    ensures r.Some? ==>
              var visible := VisibleRepos(listing.value, showPrivate);
              && r.value.repoCount == |visible|
              && r.value.totalStars == SumBy(visible, Stars)
              && r.value.totalForks == SumBy(visible, Forks)
              && (forall l :: CountOf(r.value.languageStats, l) == |WithLanguage(visible, l)|)
              && r.value.recentRepos <= visible
              && |r.value.recentRepos| == Min(RecentRepoCount, |visible|)
  {
    if !userFetched || listing.None? then None
    else
      var repos := VisibleRepos(listing.value, showPrivate);
      TallyCountsAll(repos);
      Some(StatsResult(
        |repos|,
        SumBy(repos, Stars),
        SumBy(repos, Forks),
        Tally(repos),
        repos[..Min(RecentRepoCount, |repos|)]))
  }

  /** Hiding private repositories takes exactly their stars and forks out of
      the totals. */
  lemma HiddenTotals(listing: seq<Repo>)
    ensures StatsOf(true, Some(listing), true).value.totalStars
              == StatsOf(true, Some(listing), false).value.totalStars + SumBy(Filter(listing, IsPrivate), Stars)
    ensures StatsOf(true, Some(listing), true).value.totalForks
              == StatsOf(true, Some(listing), false).value.totalForks + SumBy(Filter(listing, IsPrivate), Forks)
  {
    SumByPartition(listing, IsPublic, IsPrivate, Stars);
    SumByPartition(listing, IsPublic, IsPrivate, Forks);
  }

  /** The language tally of the reply counts the visible repositories. */
  lemma StatsLanguages(listing: seq<Repo>, showPrivate: bool, l: string)
    ensures var t := StatsOf(true, Some(listing), showPrivate).value.languageStats;
            && CountOf(t, l) == |WithLanguage(VisibleRepos(listing, showPrivate), l)|
            && SumBy(t, Count) == |Filter(VisibleRepos(listing, showPrivate), HasLanguage)|
  {
    TallyCounts(VisibleRepos(listing, showPrivate), l);
    TallyTotal(VisibleRepos(listing, showPrivate));
  }
}
