/**
 Grouping commits by UTC calendar day. A JavaScript object whose keys are
 `YYYY-MM-DD` strings enumerates its keys in insertion order, so the server's
 `groupedByDate` object and the client's `allDates` object are both modelled
 as an association list of day groups, in the order their keys were first
 created. Both are built with the same step: create the key's empty list if
 the key is missing, then push onto it (`AppendTo`).
 */
module Grouping {
  import opened Seqs
  import opened Model
  import opened Sorting

  datatype Group = Group(day: int, commits: seq<Commit>)

  type Groups = seq<Group>

  /** The keys of the object, in enumeration order. */
  function Days(g: Groups): (ds: seq<int>)
    ensures |ds| == |g|
    ensures forall i :: 0 <= i < |g| ==> ds[i] == g[i].day
  {
    seq(|g|, i requires 0 <= i < |g| => g[i].day)
  }

  predicate DistinctDays(g: Groups)
  {
    forall i, j :: 0 <= i < j < |g| ==> g[i].day != g[j].day
  }

  /** Position of key `d`, or `|g|` when the object has no such key. */
  function KeyIndex(g: Groups, d: int): (k: nat)
    ensures k <= |g|
    ensures k < |g| ==> g[k].day == d
    ensures forall j :: 0 <= j < k ==> g[j].day != d
  {
    if g == [] then 0
    else if g[0].day == d then 0
    else 1 + KeyIndex(g[1..], d)
  }

  /** `if (!obj[d]) obj[d] = []; obj[d].push(...cs)`. */
  function AppendTo(g: Groups, d: int, cs: seq<Commit>): (r: Groups)
    ensures Days(r) == if d in Days(g) then Days(g) else Days(g) + [d]
  {
    var k := KeyIndex(g, d);
    if k < |g| then g[k := Group(d, g[k].commits + cs)] else g + [Group(d, cs)]
  }

  /** One step of the server's `forEach` over the page (server.js:243-247). */
  function Push(g: Groups, c: Commit): Groups
  {
    AppendTo(g, DayOf(c), [c])
  }

  /** The server's `groupedByDate` for a page of commits. */
  function GroupByDate(s: seq<Commit>): Groups
  {
    if s == [] then [] else Push(GroupByDate(s[..|s| - 1]), s[|s| - 1])
  }

  /** The client's merge of a grouped page into `allDates`: for each key of
      the page, in order, append its commits to that key's list. */
  function Merge(all: Groups, page: Groups): Groups
    decreases page
  {
    if page == [] then all
    else Merge(AppendTo(all, page[0].day, page[0].commits), page[1..])
  }

  // ---------------------------------------------------------------------
  // The independent description of a grouping.

  /** The commits of `s` on day `d`, in order. */
  function CommitsOn(s: seq<Commit>, d: int): seq<Commit>
  {
    Filter(s, (c: Commit) => DayOf(c) == d)
  }

  /** Index of the first commit of `s` on day `d`, or `|s|` if there is none. */
  function FirstDayIndex(s: seq<Commit>, d: int): (r: nat)
    ensures r <= |s|
    ensures r < |s| ==> DayOf(s[r]) == d
    ensures forall j :: 0 <= j < r ==> DayOf(s[j]) != d
  {
    if s == [] then 0
    else if DayOf(s[0]) == d then 0
    else 1 + FirstDayIndex(s[1..], d)
  }

  /** `g` groups `s` by day: one non-empty group per day that occurs in `s`,
      no day twice, each group holding exactly that day's commits in their
      order in `s`, and the groups ordered by the first appearance of their
      day in `s`. */
  ghost predicate IsGrouping(g: Groups, s: seq<Commit>)
  {
    && DistinctDays(g)
    && NonEmptyGroups(g)
    && HoldsDayCommits(g, s)
    && CoversDays(g, s)
    && FirstAppearanceOrder(g, s)
  }

  predicate NonEmptyGroups(g: Groups)
  {
    forall i :: 0 <= i < |g| ==> g[i].commits != []
  }

  ghost predicate HoldsDayCommits(g: Groups, s: seq<Commit>)
  {
    forall i :: 0 <= i < |g| ==> g[i].commits == CommitsOn(s, g[i].day)
  }

  ghost predicate CoversDays(g: Groups, s: seq<Commit>)
  {
    forall c :: c in s ==> DayOf(c) in Days(g)
  }

  ghost predicate FirstAppearanceOrder(g: Groups, s: seq<Commit>)
  {
    forall i, j :: 0 <= i < j < |g| ==> FirstDayIndex(s, g[i].day) < FirstDayIndex(s, g[j].day)
  }

  lemma FirstDayIndexSnoc(s: seq<Commit>, c: Commit, d: int)
    requires FirstDayIndex(s, d) < |s|
    ensures FirstDayIndex(s + [c], d) == FirstDayIndex(s, d)
  {
    var r0, r1 := FirstDayIndex(s, d), FirstDayIndex(s + [c], d);
    assert (s + [c])[r0] == s[r0];
  }

  lemma DayOccurs(g: Groups, s: seq<Commit>, i: int)
    requires IsGrouping(g, s) && 0 <= i < |g|
    ensures FirstDayIndex(s, g[i].day) < |s|
  {
    var c := g[i].commits[0];
    assert c in CommitsOn(s, g[i].day);
    var j :| 0 <= j < |s| && s[j] == c;
  }

  lemma PushOnto(g: Groups, s: seq<Commit>, c: Commit)
    requires IsGrouping(g, s)
    requires DayOf(c) in Days(g)
    ensures IsGrouping(Push(g, c), s + [c])
  {
    var d := DayOf(c);
    var k := KeyIndex(g, d);
    var r := Push(g, c);
    assert r == g[k := Group(d, g[k].commits + [c])];
    forall i | 0 <= i < |r|
      ensures r[i].commits == CommitsOn(s + [c], r[i].day)
    {
      FilterSnoc(s, c, (x: Commit) => DayOf(x) == r[i].day);
    }
    forall i | 0 <= i < |g|
      ensures FirstDayIndex(s + [c], g[i].day) == FirstDayIndex(s, g[i].day)
    {
      DayOccurs(g, s, i);
      FirstDayIndexSnoc(s, c, g[i].day);
    }
    forall x | x in s + [c]
      ensures DayOf(x) in Days(r)
    {
      if x != c {
        assert x in s;
      }
    }
  }

  lemma PushNewCommits(g: Groups, s: seq<Commit>, c: Commit)
    requires HoldsDayCommits(g, s) && CoversDays(g, s)
    requires DayOf(c) !in Days(g)
    ensures HoldsDayCommits(g + [Group(DayOf(c), [c])], s + [c])
  {
    var d := DayOf(c);
    var r := g + [Group(d, [c])];
    forall x | x in s
      ensures DayOf(x) != d
    {
    }
    FilterDropsAll(s, (x: Commit) => DayOf(x) == d);
    forall i | 0 <= i < |r|
      ensures r[i].commits == CommitsOn(s + [c], r[i].day)
    {
      FilterSnoc(s, c, (x: Commit) => DayOf(x) == r[i].day);
    }
  }

  lemma PushNewOrder(g: Groups, s: seq<Commit>, c: Commit)
    requires IsGrouping(g, s)
    requires DayOf(c) !in Days(g)
    ensures FirstAppearanceOrder(g + [Group(DayOf(c), [c])], s + [c])
  {
    var d := DayOf(c);
    forall i | 0 <= i < |g|
      ensures FirstDayIndex(s + [c], g[i].day) == FirstDayIndex(s, g[i].day) < |s|
    {
      DayOccurs(g, s, i);
      FirstDayIndexSnoc(s, c, g[i].day);
    }
    assert FirstDayIndex(s + [c], d) == |s| by {
      forall j | 0 <= j < |s|
        ensures DayOf((s + [c])[j]) != d
      {
        assert (s + [c])[j] == s[j] && s[j] in s;
      }
      assert (s + [c])[|s|] == c;
    }
  }

  lemma PushNew(g: Groups, s: seq<Commit>, c: Commit)
    requires IsGrouping(g, s)
    requires DayOf(c) !in Days(g)
    ensures IsGrouping(Push(g, c), s + [c])
  {
    var d := DayOf(c);
    var r := Push(g, c);
    assert KeyIndex(g, d) == |g|;
    assert r == g + [Group(d, [c])];
    PushNewCommits(g, s, c);
    PushNewOrder(g, s, c);
    forall x | x in s + [c]
      ensures DayOf(x) in Days(r)
    {
      if x != c {
        assert x in s;
      }
    }
  }

  /** The server's grouping meets the description above. */
  lemma {:induction false} GroupByDateIsGrouping(s: seq<Commit>)
    ensures IsGrouping(GroupByDate(s), s)
  {
    if s != [] {
      var init, c := s[..|s| - 1], s[|s| - 1];
      assert s == init + [c];
      GroupByDateIsGrouping(init);
      if DayOf(c) in Days(GroupByDate(init)) {
        PushOnto(GroupByDate(init), init, c);
      } else {
        PushNew(GroupByDate(init), init, c);
      }
    }
  }

  // ---------------------------------------------------------------------
  // Merging grouped pages on the client.

  /** `later` keeps every key of `earlier` at the same position, and every
      list of `earlier` is a prefix of the corresponding list of `later`. */
  predicate Extends(earlier: Groups, later: Groups)
  {
    && |earlier| <= |later|
    && forall i :: 0 <= i < |earlier| ==>
         later[i].day == earlier[i].day && earlier[i].commits <= later[i].commits
  }

  lemma AppendToExtends(g: Groups, d: int, cs: seq<Commit>)
    ensures Extends(g, AppendTo(g, d, cs))
  {
  }

  /** Merging a page never removes or reorders what `allDates` held. */
  lemma {:induction false} MergeExtends(all: Groups, page: Groups)
    ensures Extends(all, Merge(all, page))
    decreases page
  {
    if page != [] {
      var next := AppendTo(all, page[0].day, page[0].commits);
      AppendToExtends(all, page[0].day, page[0].commits);
      MergeExtends(next, page[1..]);
      forall i | 0 <= i < |all|
        ensures all[i].commits <= Merge(all, page)[i].commits
      {
        assert all[i].commits <= next[i].commits;
      }
    }
  }

  /** `KeyIndex` is determined by its contract. */
  lemma KeyIndexIs(g: Groups, d: int, k: nat)
    requires k <= |g|
    requires k < |g| ==> g[k].day == d
    requires forall j :: 0 <= j < k ==> g[j].day != d
    ensures KeyIndex(g, d) == k
  {
  }

  lemma KeyIndexByDays(g1: Groups, g2: Groups, d: int)
    requires Days(g1) == Days(g2)
    ensures KeyIndex(g1, d) == KeyIndex(g2, d)
  {
    var k := KeyIndex(g1, d);
    assert |g1| == |Days(g1)| == |g2|;
    forall j | 0 <= j < |g1|
      ensures g2[j].day == g1[j].day
    {
      assert Days(g1)[j] == Days(g2)[j];
    }
    KeyIndexIs(g2, d, k);
  }

  lemma {:induction false} MergeConcat(x: Groups, a: Groups, b: Groups)
    ensures Merge(x, a + b) == Merge(Merge(x, a), b)
    decreases a
  {
    if a == [] {
      assert a + b == b;
    } else {
      assert (a + b)[0] == a[0];
      assert (a + b)[1..] == a[1..] + b;
      MergeConcat(AppendTo(x, a[0].day, a[0].commits), a[1..], b);
    }
  }

  lemma MergeOne(x: Groups, grp: Group)
    ensures Merge(x, [grp]) == AppendTo(x, grp.day, grp.commits)
  {
    assert [grp][1..] == [];
  }

  lemma AppendToTwice(x: Groups, d: int, u: seq<Commit>, v: seq<Commit>)
    ensures AppendTo(AppendTo(x, d, u), d, v) == AppendTo(x, d, u + v)
  {
    var k := KeyIndex(x, d);
    var y := AppendTo(x, d, u);
    if k < |x| {
      KeyIndexByDays(x, y, d);
      assert x[k].commits + u + v == x[k].commits + (u + v);
    } else {
      assert y == x + [Group(d, u)];
      assert y[|x|].day == d;
      KeyIndexIs(y, d, |x|);
    }
  }

  lemma AppendToCommute(x: Groups, d: int, w: seq<Commit>, e: int, v: seq<Commit>)
    requires d != e && d in Days(x)
    ensures AppendTo(AppendTo(x, e, v), d, w) == AppendTo(AppendTo(x, d, w), e, v)
  {
    var xd := AppendTo(x, d, w);
    var xe := AppendTo(x, e, v);
    KeyIndexByDays(x, xd, e);
    var kd := KeyIndex(x, d);
    assert Days(x)[kd] == d;
    assert kd < |x|;
    assert forall j :: 0 <= j < |x| ==> xe[j].day == x[j].day;
    KeyIndexIs(xe, d, kd);
    var gd := Group(d, x[kd].commits + w);
    var ke := KeyIndex(x, e);
    if ke < |x| {
      var ge := Group(e, x[ke].commits + v);
      assert xe == x[ke := ge] && xd == x[kd := gd];
      assert AppendTo(xe, d, w) == x[ke := ge][kd := gd];
      assert AppendTo(xd, e, v) == x[kd := gd][ke := ge];
      UpdateCommute(x, ke, ge, kd, gd);
    } else {
      assert xe == x + [Group(e, v)] && xd == x[kd := gd];
      assert AppendTo(xe, d, w) == (x + [Group(e, v)])[kd := gd];
      assert AppendTo(xd, e, v) == x[kd := gd] + [Group(e, v)];
      UpdateConcat(x, [Group(e, v)], kd, gd);
    }
  }

  lemma TailDays(h: Groups, d: int)
    requires h != [] && d !in Days(h)
    ensures d !in Days(h[1..]) && d != h[0].day
  {
    assert Days(h)[0] == h[0].day;
    forall j | 0 <= j < |h| - 1
      ensures Days(h[1..])[j] != d
    {
      assert Days(h[1..])[j] == Days(h)[j + 1];
    }
  }

  lemma {:induction false} MergeAppendCommute(x: Groups, d: int, w: seq<Commit>, h: Groups)
    requires d in Days(x) && d !in Days(h)
    ensures Merge(AppendTo(x, d, w), h) == AppendTo(Merge(x, h), d, w)
    decreases h
  {
    if h != [] {
      TailDays(h, d);
      var x' := AppendTo(x, h[0].day, h[0].commits);
      AppendToCommute(x, d, w, h[0].day, h[0].commits);
      assert d in Days(x');
      MergeAppendCommute(x', d, w, h[1..]);
    }
  }

  lemma MergePushNew(x: Groups, h: Groups, c: Commit)
    requires KeyIndex(h, DayOf(c)) == |h|
    ensures Merge(x, Push(h, c)) == Push(Merge(x, h), c)
  {
    var g := Group(DayOf(c), [c]);
    assert Push(h, c) == h + [g];
    MergeConcat(x, h, [g]);
    MergeOne(Merge(x, h), g);
  }

  lemma DaysAfter(h: Groups, k: nat)
    requires DistinctDays(h) && k < |h|
    ensures h[k].day !in Days(h[k + 1..])
  {
    var h2 := h[k + 1..];
    forall j | 0 <= j < |h2|
      ensures Days(h2)[j] != h[k].day
    {
      assert h2[j] == h[k + 1 + j];
    }
  }

  lemma MergePushExisting(x: Groups, h: Groups, c: Commit)
    requires DistinctDays(h)
    requires KeyIndex(h, DayOf(c)) < |h|
    ensures Merge(x, Push(h, c)) == Push(Merge(x, h), c)
  {
    var d := DayOf(c);
    var k := KeyIndex(h, d);
    var h1, hk, h2 := h[..k], h[k], h[k + 1..];
    var hk' := Group(d, hk.commits + [c]);
    assert h == h1 + [hk] + h2;
    assert Push(h, c) == h1 + [hk'] + h2;
    var m1 := Merge(x, h1);
    DaysAfter(h, k);
    AppendToExtends(m1, d, hk.commits);
    calc {
      Merge(x, Push(h, c));
      { MergeConcat(x, h1 + [hk'], h2); }
      Merge(Merge(x, h1 + [hk']), h2);
      { MergeConcat(x, h1, [hk']); MergeOne(m1, hk'); }
      Merge(AppendTo(m1, d, hk.commits + [c]), h2);
      { AppendToTwice(m1, d, hk.commits, [c]); }
      Merge(AppendTo(AppendTo(m1, d, hk.commits), d, [c]), h2);
      { MergeAppendCommute(AppendTo(m1, d, hk.commits), d, [c], h2); }
      AppendTo(Merge(AppendTo(m1, d, hk.commits), h2), d, [c]);
      { MergeConcat(x, h1, [hk]); MergeOne(m1, hk); }
      AppendTo(Merge(Merge(x, h1 + [hk]), h2), d, [c]);
      { MergeConcat(x, h1 + [hk], h2); }
      Push(Merge(x, h), c);
    }
  }

  /** Merging a page grouped with one more commit is merging the page and
      then pushing the commit. */
  lemma MergePush(x: Groups, h: Groups, c: Commit)
    requires DistinctDays(h)
    ensures Merge(x, Push(h, c)) == Push(Merge(x, h), c)
  {
    if KeyIndex(h, DayOf(c)) == |h| {
      MergePushNew(x, h, c);
    } else {
      MergePushExisting(x, h, c);
    }
  }

  lemma GroupByDateSnoc(s: seq<Commit>, c: Commit)
    ensures GroupByDate(s + [c]) == Push(GroupByDate(s), c)
  {
    assert (s + [c])[..|s + [c]| - 1] == s;
  }

  /** Merging the grouping of `b` into the grouping of `a` gives the grouping
      of `a + b`, key order included. */
  lemma {:induction false} MergeGroupByDate(a: seq<Commit>, b: seq<Commit>)
    ensures Merge(GroupByDate(a), GroupByDate(b)) == GroupByDate(a + b)
    decreases |b|
  {
    if b == [] {
      assert a + b == a;
    } else {
      var init, c := b[..|b| - 1], b[|b| - 1];
      assert b == init + [c];
      assert a + b == (a + init) + [c];
      GroupByDateIsGrouping(init);
      calc {
        Merge(GroupByDate(a), GroupByDate(b));
        { GroupByDateSnoc(init, c); }
        Merge(GroupByDate(a), Push(GroupByDate(init), c));
        { MergePush(GroupByDate(a), GroupByDate(init), c); }
        Push(Merge(GroupByDate(a), GroupByDate(init)), c);
        { MergeGroupByDate(a, init); }
        Push(GroupByDate(a + init), c);
        { GroupByDateSnoc(a + init, c); }
        GroupByDate(a + b);
      }
    }
  }

  /** `allDates` starts empty, so the first merge just copies the page. */
  lemma {:induction false} MergeIntoEmpty(s: seq<Commit>)
    ensures Merge([], GroupByDate(s)) == GroupByDate(s)
  {
    var none: seq<Commit> := [];
    assert GroupByDate(none) == [];
    assert none + s == s;
    MergeGroupByDate(none, s);
  }

  // ---------------------------------------------------------------------
  // Grouping a page of the sorted feed.

  /** The commits of all groups, in key order. */
  function Flatten(g: Groups): seq<Commit>
  {
    if g == [] then [] else Flatten(g[..|g| - 1]) + g[|g| - 1].commits
  }

  predicate StrictlyDescendingDays(g: Groups)
  {
    forall i, j :: 0 <= i < j < |g| ==> g[i].day > g[j].day
  }

  lemma PushSameDay(g: Groups, c: Commit)
    requires g != [] && StrictlyDescendingDays(g)
    requires DayOf(c) == g[|g| - 1].day
    ensures Push(g, c) == g[..|g| - 1] + [Group(DayOf(c), g[|g| - 1].commits + [c])]
  {
    KeyIndexIs(g, DayOf(c), |g| - 1);
  }

  lemma PushLaterDay(g: Groups, c: Commit)
    requires StrictlyDescendingDays(g)
    requires g != [] ==> DayOf(c) < g[|g| - 1].day
    ensures Push(g, c) == g + [Group(DayOf(c), [c])]
  {
    KeyIndexIs(g, DayOf(c), |g|);
  }

  /** Pushing a commit of the last group's day keeps the days strictly
      decreasing and appends the commit to the reading order. */
  lemma PushSameDayStep(g: Groups, c: Commit)
    requires g != [] && StrictlyDescendingDays(g)
    requires DayOf(c) == g[|g| - 1].day
    ensures var r := Push(g, c);
            && StrictlyDescendingDays(r) && Flatten(r) == Flatten(g) + [c]
            && r != [] && r[|r| - 1].day == DayOf(c)
  {
    PushSameDay(g, c);
    var r := Push(g, c);
    var front := g[..|g| - 1];
    assert r[..|r| - 1] == front;
    assert g == front + [g[|g| - 1]];
    assert Flatten(g) == Flatten(front) + g[|g| - 1].commits;
    assert Flatten(r) == Flatten(front) + (g[|g| - 1].commits + [c]);
  }

  /** Pushing a commit of an older day opens a new last group. */
  lemma PushLaterDayStep(g: Groups, c: Commit)
    requires StrictlyDescendingDays(g)
    requires g != [] ==> DayOf(c) < g[|g| - 1].day
    ensures var r := Push(g, c);
            && StrictlyDescendingDays(r) && Flatten(r) == Flatten(g) + [c]
            && r != [] && r[|r| - 1].day == DayOf(c)
  {
    PushLaterDay(g, c);
    var r := Push(g, c);
    assert r[..|r| - 1] == g;
  }

  /** `g` lays out the newest-first page `s`: its days strictly decrease,
      reading its groups in key order gives `s`, and its last group is the
      day of the last commit. */
  predicate LaysOut(g: Groups, s: seq<Commit>)
  {
    && StrictlyDescendingDays(g)
    && Flatten(g) == s
    && (g == [] <==> s == [])
    && (s != [] ==> g[|g| - 1].day == DayOf(s[|s| - 1]))
  }

  /** Pushing the last commit of `s`, no newer than the one before it,
      onto a layout of the rest of `s` lays out `s`. */
  lemma PushLaysOut(g: Groups, s: seq<Commit>)
    requires s != [] && LaysOut(g, s[..|s| - 1])
    requires |s| >= 2 ==> DayOf(s[|s| - 1]) <= DayOf(s[|s| - 2])
    ensures LaysOut(Push(g, s[|s| - 1]), s)
  {
    var c := s[|s| - 1];
    FrontLast(s);
    if g != [] && DayOf(c) == g[|g| - 1].day {
      PushSameDayStep(g, c);
    } else {
      assert g != [] ==> g[|g| - 1].day == DayOf(s[|s| - 2]);
      PushLaterDayStep(g, c);
    }
  }

  /** The front of a sorted sequence is sorted, and its last two commits
      are in day order. */
  lemma SortedSnoc(s: seq<Commit>)
    requires SortedDesc(s, DateOf) && s != []
    ensures SortedDesc(s[..|s| - 1], DateOf)
    ensures |s| >= 2 ==> DayOf(s[|s| - 1]) <= DayOf(s[|s| - 2])
  {
    if |s| >= 2 {
      DayMonotone(s[|s| - 1], s[|s| - 2]);
    }
  }

  /** A page of the sorted feed: its groups have strictly decreasing days,
      the last group is the last commit's day, and reading the groups in key
      order gives the page back. */
  lemma {:induction false} SortedGrouping(s: seq<Commit>)
    requires SortedDesc(s, DateOf)
    ensures LaysOut(GroupByDate(s), s)
  {
    if s != [] {
      SortedSnoc(s);
      SortedGrouping(s[..|s| - 1]);
      PushLaysOut(GroupByDate(s[..|s| - 1]), s);
    }
  }
}
