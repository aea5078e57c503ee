/**
 * The three recommendation tiers of the recommendation controller and the
 * tier gate that chooses between them. Database reads are the in-memory
 * queries of module CatalogQueries; a thrown error inside a tier is a `None`
 * from that tier's phase function, and the tier's `catch` is the match on it.
 */
module RecommendationController {
  import opened Wrappers
  import opened Sorting
  import opened CatalogQueries
  import SystemResources

  type Tier = SystemResources.Tier

  datatype Reason = GenreMatch | ArtStyleMatch | TagMatch | SimilarToRead | Trending

  datatype Item = Item(manhwa: Manhwa, score: real, reason: Reason)

  datatype Metadata = Metadata(itemsConsidered: nat, totalAvailable: nat, confidenceScore: real)

  datatype Recommendations = Recommendations(items: seq<Item>, metadata: Metadata)

  /** The user's stored preferences; a missing user or preference list is the empty list. */
  datatype Preferences = Preferences(genres: seq<string>, artStyles: seq<string>)

  /**
   * The request options: `genres` and `tags` are the comma-separated filters
   * already split (absent or empty string is `None`); `limit` 0 means no limit.
   */
  datatype Options = Options(genres: Option<seq<string>>, tags: Option<seq<string>>, limit: nat, offset: nat)

  /** The sort key of `sort((a, b) => b.score - a.score)`. */
  function Score(it: Item): real {
    it.score
  }

  function Min(a: int, b: int): int {
    if a <= b then a else b
  }

  // ---------------------------------------------------------------------------
  // Tier gate

  /** The tier chosen from cpu and memory percentages, the history count and the hour of day. */
  function SelectTier(cpu: int, memory: int, historyCount: nat, hour: int): (t: Tier)
    ensures cpu >= 70 || memory >= 70 || historyCount < 5 ==> t == SystemResources.Lightweight
    ensures t == SystemResources.Enhanced <==>
      cpu < 50 && memory < 50 && historyCount >= 5 && 2 <= hour <= 5
    ensures t == SystemResources.Standard <==>
      cpu < 70 && memory < 70 && historyCount >= 5 && !(cpu < 50 && memory < 50 && 2 <= hour <= 5)
  {
    if cpu < 70 && memory < 70 && historyCount >= 5 then
      if 2 <= hour <= 5 && cpu < 50 && memory < 50 then SystemResources.Enhanced
      else SystemResources.Standard
    else SystemResources.Lightweight
  }

  /** Lower load and a longer history never select a lower tier. */
  lemma SelectTierMonotone(cpu: int, memory: int, count: nat, cpu': int, memory': int, count': nat, hour: int)
    requires cpu' <= cpu && memory' <= memory && count <= count'
    ensures SystemResources.Rank(SelectTier(cpu, memory, count, hour))
         <= SystemResources.Rank(SelectTier(cpu', memory', count', hour))
  {
  }

  /** When the resource measurement fails, the 70% fallback snapshot always selects the lightweight tier. */
  lemma MeasurementFailureSelectsLightweight(now: int, count: nat, hour: int)
    ensures var s := SystemResources.CalculateResourceUsage(SystemResources.MeasurementFailed, now);
      SelectTier(s.cpu, s.memory, count, hour) == SystemResources.Lightweight
  {
  }

  // ---------------------------------------------------------------------------
  // Shares of `limit` taken by the merges

  /** `Math.floor(limit * 0.4)`. */
  function FloorFortyPercent(limit: nat): (n: nat)
    ensures n as real <= 0.4 * limit as real < n as real + 1.0
  {
    2 * limit / 5
  }

  /** `Math.ceil(limit * 0.6)`. */
  function CeilSixtyPercent(limit: nat): (n: nat)
    ensures n as real - 1.0 < 0.6 * limit as real <= n as real
    ensures FloorFortyPercent(limit) + n == limit
  {
    (3 * limit + 4) / 5
  }

  /** `Math.floor(limit * 0.7)`. */
  function FloorSeventyPercent(limit: nat): (n: nat)
    ensures n as real <= 0.7 * limit as real < n as real + 1.0
  {
    7 * limit / 10
  }

  /** `Math.ceil(limit * 0.3)`. */
  function CeilThirtyPercent(limit: nat): (n: nat)
    ensures n as real - 1.0 < 0.3 * limit as real <= n as real
    ensures FloorSeventyPercent(limit) + n == limit
  {
    (3 * limit + 9) / 10
  }

  // ---------------------------------------------------------------------------
  // Lightweight tier

  function AsSet(xs: seq<string>): set<string> {
    set x | x in xs
  }

  /**
   * The query built field by field: the genre filter (else the preferred
   * genres), the tag filter, and `$nin` the user's read ids when there are any.
   */
  function LightweightQuery(opts: Options, prefs: Preferences, readIds: set<Id>): (q: Query)
    ensures q.artStyleIn.None? && q.idIn.None?
    ensures opts.genres.Some? ==> q.genresIn == Some(AsSet(opts.genres.value))
    ensures opts.genres.None? ==> (q.genresIn.Some? <==> |prefs.genres| > 0)
    ensures opts.tags.Some? <==> q.tagsIn.Some?
    ensures forall m :: Matches(q, m) ==> m.id !in readIds
  {
    Query(
      genresIn := if opts.genres.Some? then Some(AsSet(opts.genres.value))
                  else if |prefs.genres| > 0 then Some(AsSet(prefs.genres)) else None,
      tagsIn := if opts.tags.Some? then Some(AsSet(opts.tags.value)) else None,
      artStyleIn := None,
      idIn := None,
      idNotIn := if |readIds| > 0 then Some(readIds) else None)
  }

  /** How many elements of `xs` occur in `ys` (`xs.filter(x => ys.includes(x)).length`). */
  function CountIn(xs: seq<string>, ys: seq<string>): (n: nat)
    ensures n <= |xs|
    ensures ys == [] ==> n == 0
  {
    if xs == [] then 0 else (if xs[0] in ys then 1 else 0) + CountIn(xs[1..], ys)
  }

  /** `size > 0 ? count / size : 0`. */
  function Ratio(count: nat, size: nat): real {
    if size > 0 then count as real / size as real else 0.0
  }

  /** `Math.min(1, viewCount / 10000)`. */
  function PopularityFactor(viewCount: int): (p: real)
    ensures p <= 1.0
    ensures viewCount >= 0 ==> 0.0 <= p
    ensures viewCount >= 10000 ==> p == 1.0
  {
    if viewCount as real / 10000.0 < 1.0 then viewCount as real / 10000.0 else 1.0
  }

  /** More than half of `size` preferences matched. */
  lemma RatioAboveHalf(count: nat, size: nat)
    ensures Ratio(count, size) > 0.5 <==> size > 0 && 2 * count > size
  {
    if size > 0 {
      var r := count as real / size as real;
      var n := size as real;
      assert r * n == count as real;
      if r > 0.5 {
        assert r * n > 0.5 * n;
      }
      if r <= 0.5 {
        assert r * n <= 0.5 * n;
      }
    }
  }

  /** One lightweight item: the 0.4/0.3/0.3 weighted score and its reason. */
  function LightweightItem(m: Manhwa, prefs: Preferences): (it: Item)
    ensures it.manhwa == m
    ensures it.reason == GenreMatch <==> |prefs.genres| > 0 && 2 * CountIn(m.genres, prefs.genres) > |prefs.genres|
    ensures it.reason == ArtStyleMatch <==>
      !(|prefs.genres| > 0 && 2 * CountIn(m.genres, prefs.genres) > |prefs.genres|) &&
      |prefs.artStyles| > 0 && 2 * CountIn(m.artStyle, prefs.artStyles) > |prefs.artStyles|
    ensures it.reason in {GenreMatch, ArtStyleMatch, Trending}
  {
    var genreScore := Ratio(CountIn(m.genres, prefs.genres), |prefs.genres|);
    var artStyleScore := Ratio(CountIn(m.artStyle, prefs.artStyles), |prefs.artStyles|);
    RatioAboveHalf(CountIn(m.genres, prefs.genres), |prefs.genres|);
    RatioAboveHalf(CountIn(m.artStyle, prefs.artStyles), |prefs.artStyles|);
    var score := 0.4 * genreScore + 0.3 * artStyleScore + 0.3 * PopularityFactor(m.viewCount);
    var reason := if genreScore > 0.5 then GenreMatch else if artStyleScore > 0.5 then ArtStyleMatch else Trending;
    Item(m, score, reason)
  }

  /** Without preferred genres or art styles only popularity counts, and the reason is trending. */
  lemma NoPreferencesScore(m: Manhwa, prefs: Preferences)
    requires prefs.genres == [] && prefs.artStyles == []
    ensures LightweightItem(m, prefs).score == 0.3 * PopularityFactor(m.viewCount)
    ensures LightweightItem(m, prefs).reason == Trending
  {
  }

  ghost predicate NoDuplicates(xs: seq<string>) {
    forall i, j :: 0 <= i < j < |xs| ==> xs[i] != xs[j]
  }

  /** Proof step for `CommonCons`: the set of a list is its head plus the set of its tail. */
  lemma AsSetCons(xs: seq<string>)
    requires xs != []
    ensures AsSet(xs) == {xs[0]} + AsSet(xs[1..])
  {
    assert xs == [xs[0]] + xs[1..];
  }

  /** The tail of a duplicate-free list is duplicate-free and lacks the head. */
  lemma NoDuplicatesTail(xs: seq<string>)
    requires xs != [] && NoDuplicates(xs)
    ensures NoDuplicates(xs[1..]) && xs[0] !in xs[1..]
  {
    var rest := xs[1..];
    forall i, j | 0 <= i < j < |rest| ensures rest[i] != rest[j] {
      assert rest[i] == xs[i + 1] && rest[j] == xs[j + 1];
    }
    forall k | 0 <= k < |rest| ensures rest[k] != xs[0] {
      assert rest[k] == xs[k + 1];
    }
  }

  /** Adding a new head adds one common element exactly when the head occurs in `ys`. */
  lemma CommonCons(xs: seq<string>, ys: seq<string>)
    requires xs != [] && xs[0] !in xs[1..]
    ensures |AsSet(xs) * AsSet(ys)| == (if xs[0] in ys then 1 else 0) + |AsSet(xs[1..]) * AsSet(ys)|
  {
    AsSetCons(xs);
    var common := AsSet(xs[1..]) * AsSet(ys);
    assert xs[0] !in common;
    if xs[0] in ys {
      assert AsSet(xs) * AsSet(ys) == {xs[0]} + common;
    } else {
      assert AsSet(xs) * AsSet(ys) == common;
    }
  }

  /** Counting a duplicate-free `xs` against `ys` counts their common elements. */
  lemma {:induction false} CountInIsCardinality(xs: seq<string>, ys: seq<string>)
    requires NoDuplicates(xs)
    ensures CountIn(xs, ys) == |AsSet(xs) * AsSet(ys)|
  {
    if xs != [] {
      NoDuplicatesTail(xs);
      CountInIsCardinality(xs[1..], ys);
      CommonCons(xs, ys);
    }
  }

  lemma {:induction false} AsSetSize(xs: seq<string>)
    ensures |AsSet(xs)| <= |xs|
  {
    if xs != [] {
      AsSetSize(xs[1..]);
      assert xs == [xs[0]] + xs[1..];
      assert AsSet(xs) == {xs[0]} + AsSet(xs[1..]);
    }
  }

  lemma SubsetSize<T>(a: set<T>, b: set<T>)
    requires a <= b
    ensures |a| <= |b|
  {
    assert b == a + (b - a);
    assert a * (b - a) == {};
  }

  /** Counting a duplicate-free list against `ys` never exceeds `|ys|`. */
  lemma CountInBounded(xs: seq<string>, ys: seq<string>)
    requires NoDuplicates(xs)
    ensures CountIn(xs, ys) <= |ys|
  {
    CountInIsCardinality(xs, ys);
    SubsetSize(AsSet(xs) * AsSet(ys), AsSet(ys));
    AsSetSize(ys);
  }

  /** Proof step for `LightweightScoreBounded`: a share of at most the whole lies in [0, 1]. */
  lemma RatioBounded(count: nat, size: nat)
    requires count <= size
    ensures 0.0 <= Ratio(count, size) <= 1.0
  {
  }

  /** A lightweight score lies in [0, 1] when the item's genre and art-style lists have no duplicates. */
  lemma LightweightScoreBounded(m: Manhwa, prefs: Preferences)
    requires NoDuplicates(m.genres) && NoDuplicates(m.artStyle) && m.viewCount >= 0
    ensures 0.0 <= LightweightItem(m, prefs).score <= 1.0
  {
    CountInBounded(m.genres, prefs.genres);
    CountInBounded(m.artStyle, prefs.artStyles);
    RatioBounded(CountIn(m.genres, prefs.genres), |prefs.genres|);
    RatioBounded(CountIn(m.artStyle, prefs.artStyles), |prefs.artStyles|);
  }

  /** The lightweight matches before paging, sorted by view count, largest first. */
  function LightweightMatches(userId: Id, prefs: Preferences, catalog: seq<Manhwa>, history: seq<HistoryRow>, opts: Options): seq<Manhwa> {
    Find(catalog, LightweightQuery(opts, prefs, ReadIds(history, userId)))
  }

  /** The page of matches `.sort({ 'popularity.viewCount': -1 }).skip(offset).limit(limit)` returns. */
  function LightweightWindow(userId: Id, prefs: Preferences, catalog: seq<Manhwa>, history: seq<HistoryRow>, opts: Options): seq<Manhwa> {
    Page(SortDesc(LightweightMatches(userId, prefs, catalog, history, opts), ViewCount), opts.offset, opts.limit)
  }

  /** `getLightweightRecommendations`. */
  function GetLightweight(userId: Id, prefs: Preferences, catalog: seq<Manhwa>, history: seq<HistoryRow>, opts: Options): (r: Recommendations)
    ensures var total := |LightweightMatches(userId, prefs, catalog, history, opts)|;
      r.metadata == Metadata(total, total, 0.7)
    ensures opts.limit > 0 ==> |r.items| <= opts.limit
  {
    var matches := LightweightMatches(userId, prefs, catalog, history, opts);
    var page := LightweightWindow(userId, prefs, catalog, history, opts);
    Recommendations(
      seq(|page|, i requires 0 <= i < |page| => LightweightItem(page[i], prefs)),
      Metadata(|matches|, |matches|, 0.7))
  }


  /**
   * The lightweight items score, one for one, the page `LightweightWindow`:
   * the offset/limit window (`Page`) of the matches sorted by view count,
   * largest first.
   */
  lemma LightweightPage(userId: Id, prefs: Preferences, catalog: seq<Manhwa>, history: seq<HistoryRow>, opts: Options)
    ensures |GetLightweight(userId, prefs, catalog, history, opts).items| == |LightweightWindow(userId, prefs, catalog, history, opts)|
    ensures forall i :: 0 <= i < |GetLightweight(userId, prefs, catalog, history, opts).items| ==>
      GetLightweight(userId, prefs, catalog, history, opts).items[i] ==
      LightweightItem(LightweightWindow(userId, prefs, catalog, history, opts)[i], prefs)
    ensures SortedDesc(LightweightWindow(userId, prefs, catalog, history, opts), ViewCount)
  {
    var matches := LightweightMatches(userId, prefs, catalog, history, opts);
    SortDescSorted(matches, ViewCount);
    PageSorted(SortDesc(matches, ViewCount), opts.offset, opts.limit, ViewCount);
  }

  /**
   * Every lightweight item is an active catalog manhwa that passes the
   * request filters (else the preferred genres) and that the user has not read.
   */
  lemma LightweightItemsQualify(userId: Id, prefs: Preferences, catalog: seq<Manhwa>, history: seq<HistoryRow>, opts: Options)
    ensures var r := GetLightweight(userId, prefs, catalog, history, opts);
      forall i :: 0 <= i < |r.items| ==>
        && r.items[i].manhwa in catalog
        && r.items[i].manhwa.isActive
        && r.items[i].manhwa.id !in ReadIds(history, userId)
        && (opts.genres.Some? ==> AnyIn(r.items[i].manhwa.genres, AsSet(opts.genres.value)))
        && (opts.genres.None? && |prefs.genres| > 0 ==> AnyIn(r.items[i].manhwa.genres, AsSet(prefs.genres)))
        && (opts.tags.Some? ==> AnyIn(r.items[i].manhwa.tags, AsSet(opts.tags.value)))
  {
    var r := GetLightweight(userId, prefs, catalog, history, opts);
    var q := LightweightQuery(opts, prefs, ReadIds(history, userId));
    var matches := LightweightMatches(userId, prefs, catalog, history, opts);
    var sorted := SortDesc(matches, ViewCount);
    var window := LightweightWindow(userId, prefs, catalog, history, opts);
    forall i | 0 <= i < |r.items|
      ensures r.items[i].manhwa in catalog && Matches(q, r.items[i].manhwa)
    {
      var m := sorted[opts.offset + i];
      assert window[i] == m;
      assert r.items[i].manhwa == m;
      assert m in multiset(sorted);
      assert m in matches;
    }
  }

  // ---------------------------------------------------------------------------
  // Standard tier: similar users

  /** One `$group` result of the similar-user aggregation. */
  datatype SimilarUser = SimilarUser(user: Id, commonManhwas: nat, manhwas: seq<Id>)

  /** The ids of `xs` in order of first appearance, each once. */
  function Distinct(xs: seq<Id>): (d: seq<Id>)
    ensures forall x :: x in d <==> x in xs
    ensures forall i, j :: 0 <= i < j < |d| ==> d[i] != d[j]
  {
    if xs == [] then []
    else
      var init := xs[..|xs| - 1];
      var rest := Distinct(init);
      assert xs == init + [xs[|xs| - 1]];
      if xs[|xs| - 1] in rest then rest else rest + [xs[|xs| - 1]]
  }

  /** The `_id: '$user'` keys of a `$group`, in order of first appearance. */
  function UsersOf(rows: seq<HistoryRow>): (us: seq<Id>)
    ensures forall u :: u in us <==> exists r :: r in rows && r.user == u
    ensures forall i, j :: 0 <= i < j < |us| ==> us[i] != us[j]
  {
    var users := seq(|rows|, i requires 0 <= i < |rows| => rows[i].user);
    assert forall r :: r in rows ==> r.user in users by {
      forall r | r in rows ensures r.user in users {
        var k :| 0 <= k < |rows| && rows[k] == r;
        assert users[k] == r.user;
      }
    }
    Distinct(users)
  }

  /** The manhwas of `u`'s rows, in row order (`$push: '$manhwa'`). */
  function ManhwasOf(rows: seq<HistoryRow>, u: Id): (ms: seq<Id>)
    ensures |ms| == |UserRows(rows, u)|
    ensures forall i :: 0 <= i < |ms| ==> ms[i] == UserRows(rows, u)[i].manhwa
    ensures forall m :: m in ms <==> exists r :: r in rows && r.user == u && r.manhwa == m
  {
    if rows == [] then []
    else
      var rest := ManhwasOf(rows[1..], u);
      assert forall r :: r in rows <==> r == rows[0] || r in rows[1..];
      if rows[0].user == u then
        assert UserRows(rows, u) == [rows[0]] + UserRows(rows[1..], u);
        [rows[0].manhwa] + rest
      else
        assert UserRows(rows, u) == UserRows(rows[1..], u);
        rest
  }

  /** The first `$match`: rows of other users on a manhwa in `ids`, in natural order. */
  function MatchedRows(history: seq<HistoryRow>, userId: Id, ids: set<Id>): (rows: seq<HistoryRow>)
    ensures forall r :: r in rows <==> r in history && r.manhwa in ids && r.user != userId
  {
    if history == [] then []
    else
      var rest := MatchedRows(history[1..], userId, ids);
      assert forall r :: r in history <==> r == history[0] || r in history[1..];
      if history[0].manhwa in ids && history[0].user != userId then [history[0]] + rest else rest
  }

  /**
   * `$group` by user over `matched`: `commonManhwas` counts the user's
   * matched rows, and `manhwas` pushes the manhwa of every row of that user
   * in `pushed`.
   */
  function GroupByUser(matched: seq<HistoryRow>, pushed: seq<HistoryRow>): (groups: seq<SimilarUser>)
    ensures |groups| == |UsersOf(matched)|
    ensures forall i :: 0 <= i < |groups| ==>
      && groups[i].user == UsersOf(matched)[i]
      && groups[i].commonManhwas == |ManhwasOf(matched, groups[i].user)|
      && groups[i].manhwas == ManhwasOf(pushed, groups[i].user)
  {
    var us := UsersOf(matched);
    seq(|us|, i requires 0 <= i < |us| =>
      SimilarUser(us[i], |ManhwasOf(matched, us[i])|, ManhwasOf(pushed, us[i])))
  }

  /** Every user of `matched` has exactly one group, and every group is some matched user's. */
  lemma GroupByUserKeys(matched: seq<HistoryRow>, pushed: seq<HistoryRow>)
    ensures forall r :: r in matched ==> exists g :: g in GroupByUser(matched, pushed) && g.user == r.user
    ensures forall g :: g in GroupByUser(matched, pushed) ==> exists r :: r in matched && r.user == g.user
    ensures var groups := GroupByUser(matched, pushed);
      forall i, j :: 0 <= i < j < |groups| ==> groups[i].user != groups[j].user
  {
    var groups := GroupByUser(matched, pushed);
    var us := UsersOf(matched);
    forall r | r in matched ensures exists g :: g in groups && g.user == r.user {
      assert r.user in us;
      var k :| 0 <= k < |us| && us[k] == r.user;
      assert groups[k] in groups;
    }
    forall g | g in groups ensures exists r :: r in matched && r.user == g.user {
      var k :| 0 <= k < |groups| && groups[k] == g;
      assert us[k] in us;
    }
  }

  /** The sort key of `$sort: { commonManhwas: -1 }`. */
  function CommonCount(g: SimilarUser): real {
    g.commonManhwas as real
  }

  /** `$match: { commonManhwas: { $gte: 3 } }`. */
  function AtLeastThreeInCommon(groups: seq<SimilarUser>): (r: seq<SimilarUser>)
    ensures forall g :: g in r <==> g in groups && g.commonManhwas >= 3
  {
    if groups == [] then []
    else
      var rest := AtLeastThreeInCommon(groups[1..]);
      assert forall g :: g in groups <==> g == groups[0] || g in groups[1..];
      if groups[0].commonManhwas >= 3 then [groups[0]] + rest else rest
  }

  /**
   * The similar-user pipeline: group `matched` by user, keep users with at
   * least 3 matched rows, sort by that count (largest first) and keep 20.
   * The kept groups are the qualifying ones with the largest counts.
   */
  function SimilarUsers(matched: seq<HistoryRow>, pushed: seq<HistoryRow>): (similar: seq<SimilarUser>)
    ensures SortedDesc(similar, CommonCount)
    ensures forall g :: g in similar ==> g in GroupByUser(matched, pushed) && g.commonManhwas >= 3
    ensures |similar| == Min(20, |AtLeastThreeInCommon(GroupByUser(matched, pushed))|)
    ensures forall g, h :: g in GroupByUser(matched, pushed) && g.commonManhwas >= 3 && g !in similar && h in similar ==>
      g.commonManhwas <= h.commonManhwas
  {
    var groups := GroupByUser(matched, pushed);
    var kept := AtLeastThreeInCommon(groups);
    SortThenTake(kept, 20, CommonCount);
    var similar := Take(SortDesc(kept, CommonCount), 20);
    assert forall g, h :: g in groups && g.commonManhwas >= 3 && g !in similar && h in similar ==>
      g.commonManhwas <= h.commonManhwas by {
      forall g, h | g in groups && g.commonManhwas >= 3 && g !in similar && h in similar
        ensures g.commonManhwas <= h.commonManhwas
      {
        assert g in kept;
        assert CommonCount(g) <= CommonCount(h);
      }
    }
    similar
  }

  // ---------------------------------------------------------------------------
  // Standard tier: candidate pool

  function IdSet(xs: seq<Id>): set<Id> {
    set x | x in xs
  }

  /** `userHistory.map(h => h.manhwa._id)`: the ids of the user's rows, in order. */
  function UserManhwaIds(history: seq<HistoryRow>, userId: Id): (ids: seq<Id>)
    ensures IdSet(ids) == ReadIds(history, userId)
  {
    var rows := UserRows(history, userId);
    var ids := seq(|rows|, i requires 0 <= i < |rows| => rows[i].manhwa);
    assert forall m :: m in ids ==> m in ReadIds(history, userId) by {
      forall m | m in ids ensures m in ReadIds(history, userId) {
        var k :| 0 <= k < |ids| && ids[k] == m;
        assert rows[k] in rows;
      }
    }
    assert forall m :: m in ReadIds(history, userId) ==> m in ids by {
      forall m | m in ReadIds(history, userId) ensures m in ids {
        var r :| r in history && r.user == userId && r.manhwa == m;
        assert r in rows;
        var k :| 0 <= k < |rows| && rows[k] == r;
        assert ids[k] == m;
      }
    }
    ids
  }

  /** Every manhwa pushed for some similar user. */
  function Pushed(similar: seq<SimilarUser>): set<Id> {
    set g, m | g in similar && m in g.manhwas :: m
  }

  lemma PushedAppend(similar: seq<SimilarUser>, g: SimilarUser)
    ensures Pushed(similar + [g]) == Pushed(similar) + IdSet(g.manhwas)
  {
    var s := similar + [g];
    forall m | m in Pushed(s) ensures m in Pushed(similar) + IdSet(g.manhwas) {
      var h :| h in s && m in h.manhwas;
      if h != g {
        assert h in similar;
      }
    }
  }

  /**
   * Builds `similarUserManhwas`: adds every pushed manhwa of every similar
   * user, then deletes each of the user's own manhwa ids.
   */
  method CollectCandidatePool(similar: seq<SimilarUser>, userManhwaIds: seq<Id>) returns (pool: set<Id>)
    ensures pool == Pushed(similar) - IdSet(userManhwaIds)
  {
    pool := {};
    var i := 0;
    while i < |similar|
      invariant 0 <= i <= |similar|
      invariant pool == Pushed(similar[..i])
    {
      var manhwas := similar[i].manhwas;
      var j := 0;
      while j < |manhwas|
        invariant 0 <= j <= |manhwas|
        invariant pool == Pushed(similar[..i]) + IdSet(manhwas[..j])
      {
        assert manhwas[..j + 1] == manhwas[..j] + [manhwas[j]];
        pool := pool + {manhwas[j]};
        j := j + 1;
      }
      assert manhwas[..j] == manhwas;
      assert similar[..i + 1] == similar[..i] + [similar[i]];
      PushedAppend(similar[..i], similar[i]);
      i := i + 1;
    }
    assert similar[..i] == similar;
    ghost var added := pool;
    var k := 0;
    while k < |userManhwaIds|
      invariant 0 <= k <= |userManhwaIds|
      invariant pool == added - IdSet(userManhwaIds[..k])
    {
      assert userManhwaIds[..k + 1] == userManhwaIds[..k] + [userManhwaIds[k]];
      pool := pool - {userManhwaIds[k]};
      k := k + 1;
    }
    assert userManhwaIds[..k] == userManhwaIds;
  }

  /**
   * As written, the similar-user aggregation pushes only manhwas the user has
   * read (its first `$match` keeps only those rows), so nothing survives the
   * deletion of the user's own ids: the candidate pool is always empty.
   */
  lemma AsWrittenPoolEmpty(history: seq<HistoryRow>, userId: Id)
    ensures var ids := UserManhwaIds(history, userId);
      var matched := MatchedRows(history, userId, IdSet(ids));
      Pushed(SimilarUsers(matched, matched)) - IdSet(ids) == {}
  {
    var ids := IdSet(UserManhwaIds(history, userId));
    var matched := MatchedRows(history, userId, ids);
    SelfPushedWithin(matched, ids);
  }

  /** Grouping rows that all lie on `ids` and pushing from those same rows pushes only `ids`. */
  lemma SelfPushedWithin(matched: seq<HistoryRow>, ids: set<Id>)
    requires forall r :: r in matched ==> r.manhwa in ids
    ensures Pushed(SimilarUsers(matched, matched)) <= ids
  {
    PushedFromRows(SimilarUsers(matched, matched), matched, matched);
  }

  /** Every manhwa pushed by groups of `GroupByUser` is that of a row, in `pushed`, of one of those groups' users. */
  lemma PushedFromRows(similar: seq<SimilarUser>, matched: seq<HistoryRow>, pushed: seq<HistoryRow>)
    requires forall g :: g in similar ==> g in GroupByUser(matched, pushed)
    ensures forall m :: m in Pushed(similar) ==> exists r :: r in pushed && r.manhwa == m && r.user in SimilarIds(similar)
  {
    forall m | m in Pushed(similar) ensures exists r :: r in pushed && r.manhwa == m && r.user in SimilarIds(similar) {
      var g :| g in similar && m in g.manhwas;
      PushedRow(g, m, matched, pushed);
      var r :| r in pushed && r.user == g.user && r.manhwa == m;
      assert r.user in SimilarIds(similar);
    }
  }

  lemma PushedRow(g: SimilarUser, m: Id, matched: seq<HistoryRow>, pushed: seq<HistoryRow>)
    requires g in GroupByUser(matched, pushed) && m in g.manhwas
    ensures exists r :: r in pushed && r.user == g.user && r.manhwa == m
  {
    var groups := GroupByUser(matched, pushed);
    var k :| 0 <= k < |groups| && groups[k] == g;
    assert m in ManhwasOf(pushed, g.user);
  }

  // ---------------------------------------------------------------------------
  // Standard tier: ratings of the candidates among similar users

  /** One `$group` result of the ratings aggregation; `avgRating` is `None` for `$avg` of no ratings (`null`). */
  datatype RatingGroup = RatingGroup(manhwa: Id, avgRating: Option<real>, readCount: nat)

  /** An entry of `ratingsMap`. */
  datatype RatingInfo = RatingInfo(avgRating: real, readCount: nat)

  /** The ratings `$match`: rows of a similar user on a candidate, in natural order. */
  function CohortRows(history: seq<HistoryRow>, similarIds: set<Id>, pool: set<Id>): (rows: seq<HistoryRow>)
    ensures forall r :: r in rows <==> r in history && r.user in similarIds && r.manhwa in pool
  {
    if history == [] then []
    else
      var rest := CohortRows(history[1..], similarIds, pool);
      assert forall r :: r in history <==> r == history[0] || r in history[1..];
      if history[0].user in similarIds && history[0].manhwa in pool then [history[0]] + rest else rest
  }

  /** The rows on manhwa `m`. */
  function RowsOn(rows: seq<HistoryRow>, m: Id): (on: seq<HistoryRow>)
    ensures |on| <= |rows|
    ensures forall r :: r in on <==> r in rows && r.manhwa == m
  {
    if rows == [] then []
    else
      var rest := RowsOn(rows[1..], m);
      assert forall r :: r in rows <==> r == rows[0] || r in rows[1..];
      if rows[0].manhwa == m then [rows[0]] + rest else rest
  }

  /** The `rating` field of each row, in row order. */
  function RatingColumn(rows: seq<HistoryRow>): (c: seq<Option<real>>)
    ensures |c| == |rows|
    ensures forall i :: 0 <= i < |rows| ==> c[i] == rows[i].rating
  {
    if rows == [] then [] else [rows[0].rating] + RatingColumn(rows[1..])
  }

  /** A rating of the tail's ratings `rest`, or of the head row, is some row's rating. */
  lemma RatingsMembersCons(rows: seq<HistoryRow>, rest: seq<real>)
    requires rows != []
    requires forall x :: x in rest ==> exists r :: r in rows[1..] && r.rating == Some(x)
    ensures forall x :: x in (if rows[0].rating.Some? then [rows[0].rating.value] else []) + rest ==>
      exists r :: r in rows && r.rating == Some(x)
  {
    assert rows[0] in rows;
    assert forall r :: r in rows[1..] ==> r in rows;
  }

  /** Each rating's count carries over from the tail's ratings `rest` to the whole of `rows`. */
  lemma RatingCountsCons(rows: seq<HistoryRow>, rest: seq<real>)
    requires rows != []
    requires forall x :: multiset(rest)[x] == multiset(RatingColumn(rows[1..]))[Some(x)]
    ensures forall x ::
      (multiset((if rows[0].rating.Some? then [rows[0].rating.value] else []) + rest)[x] == multiset(RatingColumn(rows))[Some(x)])
  {
    assert RatingColumn(rows) == [rows[0].rating] + RatingColumn(rows[1..]);
  }

  /**
   * The ratings present on `rows` (`$avg` skips missing ones): each value
   * occurs as often as rows carry it.
   */
  function RatingsOf(rows: seq<HistoryRow>): (rs: seq<real>)
    ensures forall x :: x in rs ==> exists r :: r in rows && r.rating == Some(x)
    ensures forall x :: multiset(rs)[x] == multiset(RatingColumn(rows))[Some(x)]
  {
    if rows == [] then []
    else
      var rest := RatingsOf(rows[1..]);
      RatingsMembersCons(rows, rest);
      RatingCountsCons(rows, rest);
      (if rows[0].rating.Some? then [rows[0].rating.value] else []) + rest
  }

  function Sum(xs: seq<real>): real {
    if xs == [] then 0.0 else xs[0] + Sum(xs[1..])
  }

  /** `$avg`: the mean of the values, `null` when there are none. */
  function Average(xs: seq<real>): Option<real> {
    if xs == [] then None else Some(Sum(xs) / |xs| as real)
  }

  /** Proof step for `SumBounds`: one more value of at least (at most) `c` adds `c` to the bound. */
  lemma Distribute(m: real, n: real, c: real)
    requires m == n + 1.0
    ensures m * c == n * c + c
  {
  }

  lemma {:induction false} SumBounds(xs: seq<real>, lo: real, hi: real)
    requires forall x :: x in xs ==> lo <= x <= hi
    ensures |xs| as real * lo <= Sum(xs) <= |xs| as real * hi
  {
    if xs != [] {
      var rest := xs[1..];
      forall x | x in rest
        ensures lo <= x <= hi
      {
        var k :| 0 <= k < |rest| && rest[k] == x;
        assert xs[k + 1] == x;
        assert x in xs;
      }
      SumBounds(rest, lo, hi);
      assert xs[0] in xs;
      assert Sum(xs) == xs[0] + Sum(rest);
      Distribute(|xs| as real, |rest| as real, lo);
      Distribute(|xs| as real, |rest| as real, hi);
    }
  }

  /** Proof step for `AverageBounds`: dividing a sum of `n` values by `n` keeps the per-value bounds. */
  lemma DivideBounds(x: real, n: real, lo: real, hi: real)
    requires n > 0.0 && n * lo <= x <= n * hi
    ensures lo <= x / n <= hi
  {
    assert x / n - lo == (x - n * lo) / n;
    assert hi - x / n == (n * hi - x) / n;
  }

  /** The mean of values in [lo, hi] lies in [lo, hi]. */
  lemma AverageBounds(xs: seq<real>, lo: real, hi: real)
    requires forall x :: x in xs ==> lo <= x <= hi
    ensures Average(xs).Some? ==> lo <= Average(xs).value <= hi
  {
    if xs != [] {
      SumBounds(xs, lo, hi);
      DivideBounds(Sum(xs), |xs| as real, lo, hi);
    }
  }

  /** The `_id: '$manhwa'` keys of a `$group`, in order of first appearance. */
  function ManhwaIdsOf(rows: seq<HistoryRow>): (ms: seq<Id>)
    ensures forall m :: m in ms <==> exists r :: r in rows && r.manhwa == m
    ensures forall i, j :: 0 <= i < j < |ms| ==> ms[i] != ms[j]
  {
    var ids := seq(|rows|, i requires 0 <= i < |rows| => rows[i].manhwa);
    assert forall r :: r in rows ==> r.manhwa in ids by {
      forall r | r in rows ensures r.manhwa in ids {
        var k :| 0 <= k < |rows| && rows[k] == r;
        assert ids[k] == r.manhwa;
      }
    }
    Distinct(ids)
  }

  lemma GroupsAreNonEmpty(rows: seq<HistoryRow>)
    ensures var ms := ManhwaIdsOf(rows);
      forall i :: 0 <= i < |ms| ==> |RowsOn(rows, ms[i])| >= 1
  {
    var ms := ManhwaIdsOf(rows);
    forall i | 0 <= i < |ms| ensures |RowsOn(rows, ms[i])| >= 1 {
      assert ms[i] in ms;
      var r :| r in rows && r.manhwa == ms[i];
      assert r in RowsOn(rows, ms[i]);
    }
  }

  /** The `$group` by manhwa, in order of first appearance. */
  function RatingGroups(rows: seq<HistoryRow>): (groups: seq<RatingGroup>)
    ensures |groups| == |ManhwaIdsOf(rows)|
    ensures forall i :: 0 <= i < |groups| ==>
      && groups[i].manhwa == ManhwaIdsOf(rows)[i]
      && groups[i].readCount >= 1
      && groups[i].readCount == |RowsOn(rows, groups[i].manhwa)|
      && groups[i].avgRating == Average(RatingsOf(RowsOn(rows, groups[i].manhwa)))
  {
    var ms := ManhwaIdsOf(rows);
    GroupsAreNonEmpty(rows);
    seq(|ms|, i requires 0 <= i < |ms| =>
      var on := RowsOn(rows, ms[i]);
      RatingGroup(ms[i], Average(RatingsOf(on)), |on|))
  }

  /** Every manhwa of `rows` has exactly one group, and every group is some row's manhwa. */
  lemma RatingGroupsKeys(rows: seq<HistoryRow>)
    ensures forall r :: r in rows ==> exists g :: g in RatingGroups(rows) && g.manhwa == r.manhwa
    ensures forall g :: g in RatingGroups(rows) ==> exists r :: r in rows && r.manhwa == g.manhwa
    ensures var groups := RatingGroups(rows);
      forall i, j :: 0 <= i < j < |groups| ==> groups[i].manhwa != groups[j].manhwa
  {
    var groups := RatingGroups(rows);
    var ms := ManhwaIdsOf(rows);
    forall r | r in rows ensures exists g :: g in groups && g.manhwa == r.manhwa {
      assert r.manhwa in ms;
      var k :| 0 <= k < |ms| && ms[k] == r.manhwa;
      assert groups[k] in groups;
    }
    forall g | g in groups ensures exists r :: r in rows && r.manhwa == g.manhwa {
      var k :| 0 <= k < |groups| && groups[k] == g;
      assert ms[k] in ms;
    }
  }

  /** `{ avgRating: r.avgRating || 3, readCount: r.readCount }`: a `null` or zero average becomes 3. */
  function Normalized(g: RatingGroup): (info: RatingInfo)
    ensures info.readCount == g.readCount
    ensures g.avgRating.Some? && g.avgRating.value != 0.0 ==> info.avgRating == g.avgRating.value
    ensures g.avgRating.None? || g.avgRating.value == 0.0 ==> info.avgRating == 3.0
  {
    RatingInfo(if g.avgRating.None? || g.avgRating.value == 0.0 then 3.0 else g.avgRating.value, g.readCount)
  }

  /** `ratingsMap` after the `forEach` over the groups: a later group with the same id overwrites. */
  function RatingsMap(groups: seq<RatingGroup>): (ratings: map<Id, RatingInfo>)
    ensures forall m :: m in ratings <==> exists i :: 0 <= i < |groups| && groups[i].manhwa == m
    ensures forall m :: m in ratings ==> exists i :: 0 <= i < |groups| && groups[i].manhwa == m && ratings[m] == Normalized(groups[i])
  {
    if groups == [] then map[]
    else
      var init := groups[..|groups| - 1];
      var last := groups[|groups| - 1];
      var rest := RatingsMap(init);
      assert forall i :: 0 <= i < |init| ==> init[i] == groups[i];
      rest[last.manhwa := Normalized(last)]
  }

  /** Fills `ratingsMap` one group at a time. */
  method BuildRatingsMap(groups: seq<RatingGroup>) returns (ratings: map<Id, RatingInfo>)
    ensures ratings == RatingsMap(groups)
  {
    ratings := map[];
    var i := 0;
    while i < |groups|
      invariant 0 <= i <= |groups|
      invariant ratings == RatingsMap(groups[..i])
    {
      assert groups[..i + 1][..i] == groups[..i];
      ratings := ratings[groups[i].manhwa := Normalized(groups[i])];
      i := i + 1;
    }
    assert groups[..i] == groups;
  }

  /** `ratingsMap[id] || { avgRating: 3, readCount: 1 }`. */
  function RatingInfoFor(ratings: map<Id, RatingInfo>, id: Id): RatingInfo {
    if id in ratings then ratings[id] else RatingInfo(3.0, 1)
  }

  /** Ratings in [0, 5] give map entries whose average lies in [0, 5] and whose read count is at least 1. */
  lemma RatingsMapInRange(rows: seq<HistoryRow>)
    requires forall r :: r in rows && r.rating.Some? ==> 0.0 <= r.rating.value <= 5.0
    ensures forall m :: m in RatingsMap(RatingGroups(rows)) ==>
      0.0 <= RatingsMap(RatingGroups(rows))[m].avgRating <= 5.0 && RatingsMap(RatingGroups(rows))[m].readCount >= 1
  {
    var groups := RatingGroups(rows);
    var ratings := RatingsMap(groups);
    forall m | m in ratings ensures 0.0 <= ratings[m].avgRating <= 5.0 && ratings[m].readCount >= 1 {
      var i :| 0 <= i < |groups| && groups[i].manhwa == m && ratings[m] == Normalized(groups[i]);
      var rs := RatingsOf(RowsOn(rows, m));
      forall x | x in rs ensures 0.0 <= x <= 5.0 {
        var r :| r in RowsOn(rows, m) && r.rating == Some(x);
      }
      AverageBounds(rs, 0.0, 5.0);
    }
  }

  /** The collaborative score: 0.6 for the similar users' rating, 0.2 for their read count, 0.2 for popularity. */
  function CollaborativeScore(info: RatingInfo, viewCount: int): (score: real)
    ensures 0.0 <= info.avgRating <= 5.0 && viewCount >= 0 ==> 0.0 <= score <= 1.0
  {
    var readFactor := if info.readCount as real / 10.0 < 1.0 then info.readCount as real / 10.0 else 1.0;
    (info.avgRating / 5.0) * 0.6 + readFactor * 0.2 + PopularityFactor(viewCount) * 0.2
  }

  /** A candidate no similar user's row mentions is scored with average 3 and read count 1. */
  lemma MissingRatingDefault(ratings: map<Id, RatingInfo>, m: Manhwa)
    requires m.id !in ratings
    ensures CollaborativeScore(RatingInfoFor(ratings, m.id), m.viewCount) == 0.38 + 0.2 * PopularityFactor(m.viewCount)
  {
  }

  /** `Manhwa.find({ _id: { $in: pool }, isActive: true })`, each scored as `similar_to_read`. */
  function CollaborativeItems(catalog: seq<Manhwa>, pool: set<Id>, ratings: map<Id, RatingInfo>): (items: seq<Item>)
    ensures forall i :: 0 <= i < |items| ==>
      && items[i].manhwa in catalog
      && items[i].manhwa.isActive
      && items[i].manhwa.id in pool
      && items[i].reason == SimilarToRead
      && items[i].score == CollaborativeScore(RatingInfoFor(ratings, items[i].manhwa.id), items[i].manhwa.viewCount)
    ensures |items| == |Find(catalog, Query(None, None, None, Some(pool), None))|
    ensures forall i :: 0 <= i < |items| ==> items[i].manhwa == Find(catalog, Query(None, None, None, Some(pool), None))[i]
    ensures forall m :: m in catalog && m.isActive && m.id in pool ==> exists i :: 0 <= i < |items| && items[i].manhwa == m
  {
    var recs := Find(catalog, Query(None, None, None, Some(pool), None));
    assert forall i :: 0 <= i < |recs| ==> recs[i] in recs;
    assert forall m :: m in catalog && m.isActive && m.id in pool ==> m in recs;
    seq(|recs|, i requires 0 <= i < |recs| =>
      Item(recs[i], CollaborativeScore(RatingInfoFor(ratings, recs[i].id), recs[i].viewCount), SimilarToRead))
  }

  // ---------------------------------------------------------------------------
  // Merge of two tiers

  /**
   * `[...first.slice(0, nFirst), ...second.slice(0, nSecond)].sort(by score
   * descending).slice(0, limit)`.
   */
  function Merge(first: seq<Item>, nFirst: nat, second: seq<Item>, nSecond: nat, limit: nat): (r: seq<Item>)
    ensures |r| == Min(limit, |Take(first, nFirst)| + |Take(second, nSecond)|)
    ensures SortedDesc(r, Score)
    ensures multiset(r) <= multiset(Take(first, nFirst)) + multiset(Take(second, nSecond))
    ensures forall x, y :: x in multiset(Take(first, nFirst)) + multiset(Take(second, nSecond)) - multiset(r) && y in r ==>
      Score(x) <= Score(y)
  {
    var combined := Take(first, nFirst) + Take(second, nSecond);
    var sorted := SortDesc(combined, Score);
    SortDescSorted(combined, Score);
    TakeMultiset(sorted, limit);
    TakeKeepsLargest(sorted, limit, Score);
    if limit < |sorted| then PrefixSorted(sorted, limit, Score); Take(sorted, limit)
    else Take(sorted, limit)
  }

  /** An item of a merge bounded by the kept parts of two inputs comes from one of them. */
  lemma DrawnFrom<T>(r: seq<T>, first: seq<T>, nFirst: nat, second: seq<T>, nSecond: nat)
    requires multiset(r) <= multiset(Take(first, nFirst)) + multiset(Take(second, nSecond))
    ensures forall it :: it in r ==> it in first || it in second
  {
    forall it | it in r ensures it in first || it in second {
      assert it in multiset(r);
      if it in multiset(Take(first, nFirst)) {
        assert it in Take(first, nFirst);
      } else {
        assert it in Take(second, nSecond);
      }
    }
  }

  // ---------------------------------------------------------------------------
  // Standard tier

  /**
   * The similar users the aggregation is meant to find: other users sharing at
   * least 3 of the user's manhwas, each with every manhwa that user has read.
   */
  function SimilarUsersCorrected(history: seq<HistoryRow>, userId: Id): seq<SimilarUser> {
    var ids := IdSet(UserManhwaIds(history, userId));
    SimilarUsers(MatchedRows(history, userId, ids), history)
  }

  /** The similar users as the aggregation is written: `$push` sees only the matched rows. */
  function SimilarUsersAsWritten(history: seq<HistoryRow>, userId: Id): seq<SimilarUser> {
    var ids := IdSet(UserManhwaIds(history, userId));
    var matched := MatchedRows(history, userId, ids);
    SimilarUsers(matched, matched)
  }

  /** `similarUsers.map(u => u._id)`. */
  function SimilarIds(similar: seq<SimilarUser>): set<Id> {
    set g | g in similar :: g.user
  }

  /** The candidate pool: manhwas of the similar users that the user has not read. */
  function StandardPool(history: seq<HistoryRow>, userId: Id): (pool: set<Id>)
    ensures forall m :: m in pool ==> m !in ReadIds(history, userId)
  {
    Pushed(SimilarUsersCorrected(history, userId)) - IdSet(UserManhwaIds(history, userId))
  }

  /** Every candidate was read by one of the similar users. */
  lemma StandardPoolReadBySimilar(history: seq<HistoryRow>, userId: Id)
    ensures forall m :: m in StandardPool(history, userId) ==>
      exists r :: r in history && r.manhwa == m && r.user in SimilarIds(SimilarUsersCorrected(history, userId))
  {
    PushedFromRows(SimilarUsersCorrected(history, userId), MatchedRows(history, userId, IdSet(UserManhwaIds(history, userId))), history);
  }

  /** The candidates in `pool`, scored with the ratings of the users in `similarIds`, in natural catalog order. */
  function CollaborativeFor(catalog: seq<Manhwa>, history: seq<HistoryRow>, similarIds: set<Id>, pool: set<Id>): seq<Item> {
    CollaborativeItems(catalog, pool, RatingsMap(RatingGroups(CohortRows(history, similarIds, pool))))
  }

  /** The scored collaborative candidates of the standard tier. */
  function StandardCollaborative(catalog: seq<Manhwa>, history: seq<HistoryRow>, userId: Id): seq<Item> {
    CollaborativeFor(catalog, history, SimilarIds(SimilarUsersCorrected(history, userId)), StandardPool(history, userId))
  }

  /**
   * The `try` block of the standard tier after the lightweight baseline `lw`:
   * `None` when it throws (a history row whose manhwa does not populate makes
   * `h.manhwa.genres` throw), otherwise what it returns.
   */
  function StandardPhase(userId: Id, catalog: seq<Manhwa>, history: seq<HistoryRow>, opts: Options, lw: Recommendations): (r: Option<Recommendations>)
    ensures r.None? <==> |UserRows(history, userId)| >= 5 && !AllPopulate(catalog, UserRows(history, userId))
    ensures r.Some? && r.value != lw ==> r.value.metadata == lw.metadata.(confidenceScore := 0.85) && |r.value.items| <= opts.limit
  {
    var userHistory := UserRows(history, userId);
    if |userHistory| < 5 then Some(lw)
    else if !AllPopulate(catalog, userHistory) then None
    else if |SimilarUsersCorrected(history, userId)| == 0 then Some(lw)
    else if StandardPool(history, userId) == {} then Some(lw)
    else
      var collab := StandardCollaborative(catalog, history, userId);
      Some(Recommendations(
        Merge(lw.items, FloorFortyPercent(opts.limit), collab, CeilSixtyPercent(opts.limit), opts.limit),
        lw.metadata.(confidenceScore := 0.85)))
  }

  /**
   * `getStandardRecommendations` with the candidate pool drawn from everything
   * the similar users read. A reader with at least 5 rows that all populate,
   * at least one similar user and a non-empty pool gets the merge of the first
   * 40% of the lightweight items with the first 60% of the collaborative ones,
   * with confidence 0.85; every other reader gets the lightweight result.
   */
  function GetStandard(userId: Id, prefs: Preferences, catalog: seq<Manhwa>, history: seq<HistoryRow>, opts: Options): (r: Recommendations)
    ensures var lw := GetLightweight(userId, prefs, catalog, history, opts);
      |UserRows(history, userId)| < 5 || !AllPopulate(catalog, UserRows(history, userId)) ||
      SimilarUsersCorrected(history, userId) == [] || StandardPool(history, userId) == {}
      ==> r == lw
    ensures var lw := GetLightweight(userId, prefs, catalog, history, opts);
      |UserRows(history, userId)| >= 5 && AllPopulate(catalog, UserRows(history, userId)) &&
      SimilarUsersCorrected(history, userId) != [] && StandardPool(history, userId) != {}
      ==>
        && r.metadata == lw.metadata.(confidenceScore := 0.85)
        && r.items == Merge(lw.items, FloorFortyPercent(opts.limit),
                            StandardCollaborative(catalog, history, userId), CeilSixtyPercent(opts.limit), opts.limit)
  {
    var lw := GetLightweight(userId, prefs, catalog, history, opts);
    match StandardPhase(userId, catalog, history, opts, lw)
    case None => lw
    case Some(r) => r
  }

  /** The standard tier never recommends a manhwa the user has read, nor an inactive one. */
  lemma StandardExcludesRead(userId: Id, prefs: Preferences, catalog: seq<Manhwa>, history: seq<HistoryRow>, opts: Options)
    ensures forall it :: it in GetStandard(userId, prefs, catalog, history, opts).items ==>
      it.manhwa in catalog && it.manhwa.isActive && it.manhwa.id !in ReadIds(history, userId)
  {
    var lw := GetLightweight(userId, prefs, catalog, history, opts);
    var collab := StandardCollaborative(catalog, history, userId);
    var r := GetStandard(userId, prefs, catalog, history, opts);
    LightweightItemsQualify(userId, prefs, catalog, history, opts);
    assert forall it :: it in lw.items ==> it.manhwa in catalog && it.manhwa.isActive && it.manhwa.id !in ReadIds(history, userId) by {
      forall it | it in lw.items ensures it.manhwa in catalog && it.manhwa.isActive && it.manhwa.id !in ReadIds(history, userId) {
        var k :| 0 <= k < |lw.items| && lw.items[k] == it;
      }
    }
    if r != lw {
      assert r.items == Merge(lw.items, FloorFortyPercent(opts.limit), collab, CeilSixtyPercent(opts.limit), opts.limit);
      DrawnFrom(r.items, lw.items, FloorFortyPercent(opts.limit), collab, CeilSixtyPercent(opts.limit));
      StandardCollaborativeQualifies(catalog, history, userId);
    }
  }

  /** Every collaborative candidate is an active catalog manhwa the user has not read. */
  lemma StandardCollaborativeQualifies(catalog: seq<Manhwa>, history: seq<HistoryRow>, userId: Id)
    ensures forall it :: it in StandardCollaborative(catalog, history, userId) ==>
      it.manhwa in catalog && it.manhwa.isActive && it.manhwa.id !in ReadIds(history, userId)
  {
    var collab := StandardCollaborative(catalog, history, userId);
    forall it | it in collab ensures it.manhwa in catalog && it.manhwa.isActive && it.manhwa.id !in ReadIds(history, userId) {
      var k :| 0 <= k < |collab| && collab[k] == it;
    }
  }

  /** What every scorer needs to keep scores in [0, 1]: duplicate-free feature lists, non-negative view counts, ratings in [0, 5]. */
  ghost predicate WellFormed(catalog: seq<Manhwa>, history: seq<HistoryRow>) {
    && (forall m :: m in catalog ==> NoDuplicates(m.genres) && NoDuplicates(m.artStyle) && m.viewCount >= 0)
    && (forall r :: r in history && r.rating.Some? ==> 0.0 <= r.rating.value <= 5.0)
  }

  lemma LightweightScoresBounded(userId: Id, prefs: Preferences, catalog: seq<Manhwa>, history: seq<HistoryRow>, opts: Options)
    requires WellFormed(catalog, history)
    ensures var r := GetLightweight(userId, prefs, catalog, history, opts);
      forall it :: it in r.items ==> 0.0 <= it.score <= 1.0
  {
    var r := GetLightweight(userId, prefs, catalog, history, opts);
    LightweightItemsQualify(userId, prefs, catalog, history, opts);
    forall it | it in r.items ensures 0.0 <= it.score <= 1.0 {
      var k :| 0 <= k < |r.items| && r.items[k] == it;
      LightweightPage(userId, prefs, catalog, history, opts);
      LightweightScoreBounded(it.manhwa, prefs);
    }
  }

  lemma CollaborativeItemsBounded(catalog: seq<Manhwa>, pool: set<Id>, ratings: map<Id, RatingInfo>)
    requires forall m :: m in catalog ==> m.viewCount >= 0
    requires forall k :: k in ratings ==> 0.0 <= ratings[k].avgRating <= 5.0
    ensures forall it :: it in CollaborativeItems(catalog, pool, ratings) ==> 0.0 <= it.score <= 1.0
  {
    var collab := CollaborativeItems(catalog, pool, ratings);
    forall it | it in collab ensures 0.0 <= it.score <= 1.0 {
      var k :| 0 <= k < |collab| && collab[k] == it;
      assert 0.0 <= RatingInfoFor(ratings, it.manhwa.id).avgRating <= 5.0;
    }
  }

  lemma CollaborativeForBounded(catalog: seq<Manhwa>, history: seq<HistoryRow>, similarIds: set<Id>, pool: set<Id>)
    requires WellFormed(catalog, history)
    ensures forall it :: it in CollaborativeFor(catalog, history, similarIds, pool) ==> 0.0 <= it.score <= 1.0
  {
    var rows := CohortRows(history, similarIds, pool);
    RatingsMapInRange(rows);
    CollaborativeItemsBounded(catalog, pool, RatingsMap(RatingGroups(rows)));
  }

  /** With well-formed data every standard score lies in [0, 1]. */
  lemma StandardScoresBounded(userId: Id, prefs: Preferences, catalog: seq<Manhwa>, history: seq<HistoryRow>, opts: Options)
    requires WellFormed(catalog, history)
    ensures forall it :: it in GetStandard(userId, prefs, catalog, history, opts).items ==> 0.0 <= it.score <= 1.0
  {
    var lw := GetLightweight(userId, prefs, catalog, history, opts);
    var collab := StandardCollaborative(catalog, history, userId);
    var r := GetStandard(userId, prefs, catalog, history, opts);
    LightweightScoresBounded(userId, prefs, catalog, history, opts);
    CollaborativeForBounded(catalog, history, SimilarIds(SimilarUsersCorrected(history, userId)), StandardPool(history, userId));
    if r != lw {
      assert r.items == Merge(lw.items, FloorFortyPercent(opts.limit), collab, CeilSixtyPercent(opts.limit), opts.limit);
      DrawnFrom(r.items, lw.items, FloorFortyPercent(opts.limit), collab, CeilSixtyPercent(opts.limit));
    }
  }

  /**
   * The standard tier as written: the same steps over `SimilarUsersAsWritten`,
   * and a non-empty pool reaches `mongoose.Types.ObjectId`, which is not
   * defined in the controller, so it throws.
   */
  function StandardPhaseAsWritten(userId: Id, catalog: seq<Manhwa>, history: seq<HistoryRow>, opts: Options, lw: Recommendations): (r: Option<Recommendations>)
    ensures r.None? <==> |UserRows(history, userId)| >= 5 && !AllPopulate(catalog, UserRows(history, userId))
    ensures r.Some? ==> r.value == lw
  {
    var userHistory := UserRows(history, userId);
    if |userHistory| < 5 then Some(lw)
    else if !AllPopulate(catalog, userHistory) then None
    else
      var similar := SimilarUsersAsWritten(history, userId);
      AsWrittenPoolEmpty(history, userId);
      if |similar| == 0 then Some(lw)
      else if Pushed(similar) - IdSet(UserManhwaIds(history, userId)) == {} then Some(lw)
      else None
  }

  /** `getStandardRecommendations` as written: it returns the lightweight result for every input. */
  function GetStandardAsWritten(userId: Id, prefs: Preferences, catalog: seq<Manhwa>, history: seq<HistoryRow>, opts: Options): (r: Recommendations)
    ensures r == GetLightweight(userId, prefs, catalog, history, opts)
  {
    var lw := GetLightweight(userId, prefs, catalog, history, opts);
    match StandardPhaseAsWritten(userId, catalog, history, opts, lw)
    case None => lw
    case Some(r) => r
  }

  // ---------------------------------------------------------------------------
  // Set similarity

  /** Jaccard similarity `|a ∩ b| / |a ∪ b|`, and 0 when either set is empty. */
  function Jaccard(a: set<string>, b: set<string>): (s: real)
    ensures 0.0 <= s <= 1.0
    ensures a == {} || b == {} ==> s == 0.0
  {
    if |a| == 0 || |b| == 0 then 0.0
    else
      SubsetSize(a * b, a + b);
      SubsetSize(a, a + b);
      |a * b| as real / |a + b| as real
  }

  lemma JaccardSymmetric(a: set<string>, b: set<string>)
    ensures Jaccard(a, b) == Jaccard(b, a)
  {
    assert a * b == b * a;
    assert a + b == b + a;
  }

  lemma SubsetSameSize<T>(a: set<T>, b: set<T>)
    requires a <= b && |a| == |b|
    ensures a == b
  {
    assert b == a + (b - a);
    assert a * (b - a) == {};
  }

  /** The similarity is 1 exactly for two equal non-empty sets. */
  lemma JaccardOne(a: set<string>, b: set<string>)
    ensures Jaccard(a, b) == 1.0 <==> a != {} && a == b
  {
    if a != {} && b != {} {
      var common := a * b;
      var all := a + b;
      SubsetSize(a, all);
      var x := |common| as real / |all| as real;
      assert x * |all| as real == |common| as real;
      if Jaccard(a, b) == 1.0 {
        assert |common| == |all|;
        SubsetSameSize(common, all);
        assert a <= common && b <= common;
      }
      if a == b {
        assert common == a && all == a;
      }
    }
  }

  /** The similarity is 0 exactly when the sets share nothing. */
  lemma JaccardZero(a: set<string>, b: set<string>)
    ensures Jaccard(a, b) == 0.0 <==> a * b == {}
  {
    if a != {} && b != {} {
      SubsetSize(a, a + b);
      if a * b != {} {
        var x :| x in a * b;
        assert |a * b| >= 1 by {
          assert {x} <= a * b;
          SubsetSize({x}, a * b);
        }
      }
    }
  }

  /** `calculateSetSimilarity`: counts the intersection by walking `set1`, then divides by the union size. */
  method CalculateSetSimilarity(set1: set<string>, set2: set<string>) returns (similarity: real)
    ensures similarity == Jaccard(set1, set2)
  {
    if |set1| == 0 || |set2| == 0 {
      return 0.0;
    }
    var intersectionSize := 0;
    var rest := set1;
    ghost var seen: set<string> := {};
    while rest != {}
      invariant rest + seen == set1 && rest * seen == {}
      invariant intersectionSize == |seen * set2|
      decreases |rest|
    {
      var item :| item in rest;
      if item in set2 {
        assert (seen + {item}) * set2 == seen * set2 + {item};
        intersectionSize := intersectionSize + 1;
      } else {
        assert (seen + {item}) * set2 == seen * set2;
      }
      rest := rest - {item};
      seen := seen + {item};
    }
    assert seen == set1;
    var unionSize := |set1| + |set2| - intersectionSize;
    assert unionSize == |set1 + set2|;
    similarity := intersectionSize as real / unionSize as real;
  }

  // ---------------------------------------------------------------------------
  // Enhanced tier

  /** `ReadingHistory.find({ user, rating: { $gte: 4 } })`, in natural order. */
  function Favourites(history: seq<HistoryRow>, userId: Id): (favs: seq<HistoryRow>)
    ensures forall r :: r in favs <==> r in history && r.user == userId && r.rating.Some? && r.rating.value >= 4.0
  {
    if history == [] then []
    else
      var rest := Favourites(history[1..], userId);
      assert forall r :: r in history <==> r == history[0] || r in history[1..];
      var r := history[0];
      if r.user == userId && r.rating.Some? && r.rating.value >= 4.0 then [r] + rest else rest
  }

  datatype Feature = GenreFeature | ArtStyleFeature | TagFeature

  function FeatureList(m: Manhwa, f: Feature): seq<string> {
    match f
    case GenreFeature => m.genres
    case ArtStyleFeature => m.artStyle
    case TagFeature => m.tags
  }

  /** `favoriteGenres`, `favoriteArtStyles` or `favoriteTags`: one feature's values over the favourites. */
  function FavouriteFeature(favs: seq<Manhwa>, f: Feature): set<string> {
    set m, x | m in favs && x in FeatureList(m, f) :: x
  }

  /** The populated manhwas of the favourite rows. */
  function FavouriteManhwas(catalog: seq<Manhwa>, favs: seq<HistoryRow>): (ms: seq<Manhwa>)
    requires AllPopulate(catalog, favs)
    ensures |ms| == |favs|
    ensures forall i :: 0 <= i < |ms| ==> ms[i] in catalog && ms[i].id == favs[i].manhwa
  {
    seq(|favs|, i requires 0 <= i < |favs| => Populate(catalog, favs[i].manhwa).value)
  }

  function NonEmpty(s: set<string>): Option<set<string>> {
    if |s| > 0 then Some(s) else None
  }

  /** `contentQuery`: active, not a favourite, and `$in` each non-empty favourite feature set. */
  function ContentQuery(fav: seq<Manhwa>): (q: Query)
    ensures forall m :: Matches(q, m) <==>
      && m.isActive
      && (forall f :: f in fav ==> m.id != f.id)
      && (FavouriteFeature(fav, GenreFeature) != {} ==> AnyIn(m.genres, FavouriteFeature(fav, GenreFeature)))
      && (FavouriteFeature(fav, TagFeature) != {} ==> AnyIn(m.tags, FavouriteFeature(fav, TagFeature)))
      && (FavouriteFeature(fav, ArtStyleFeature) != {} ==> AnyIn(m.artStyle, FavouriteFeature(fav, ArtStyleFeature)))
  {
    Query(
      genresIn := NonEmpty(FavouriteFeature(fav, GenreFeature)),
      tagsIn := NonEmpty(FavouriteFeature(fav, TagFeature)),
      artStyleIn := NonEmpty(FavouriteFeature(fav, ArtStyleFeature)),
      idIn := None,
      idNotIn := Some(set m | m in fav :: m.id))
  }

  /**
   * A content-based item: 0.4 genre, 0.4 art-style and 0.2 tag similarity to
   * the favourites; the reason is art style or tags only on a strict lead
   * over both other similarities, else genre.
   */
  function ContentItem(m: Manhwa, favGenres: set<string>, favArtStyles: set<string>, favTags: set<string>): (it: Item)
    ensures it.manhwa == m
    ensures 0.0 <= it.score <= 1.0
    ensures it.reason == ArtStyleMatch <==>
      Jaccard(AsSet(m.artStyle), favArtStyles) > Jaccard(AsSet(m.genres), favGenres) &&
      Jaccard(AsSet(m.artStyle), favArtStyles) > Jaccard(AsSet(m.tags), favTags)
    ensures it.reason == TagMatch <==>
      Jaccard(AsSet(m.tags), favTags) > Jaccard(AsSet(m.genres), favGenres) &&
      Jaccard(AsSet(m.tags), favTags) > Jaccard(AsSet(m.artStyle), favArtStyles)
    ensures it.reason in {GenreMatch, ArtStyleMatch, TagMatch}
  {
    var genreSimilarity := Jaccard(AsSet(m.genres), favGenres);
    var artStyleSimilarity := Jaccard(AsSet(m.artStyle), favArtStyles);
    var tagSimilarity := Jaccard(AsSet(m.tags), favTags);
    var score := genreSimilarity * 0.4 + artStyleSimilarity * 0.4 + tagSimilarity * 0.2;
    var reason :=
      if artStyleSimilarity > genreSimilarity && artStyleSimilarity > tagSimilarity then ArtStyleMatch
      else if tagSimilarity > genreSimilarity && tagSimilarity > artStyleSimilarity then TagMatch
      else GenreMatch;
    Item(m, score, reason)
  }

  /** `Manhwa.find(contentQuery).limit(20)`, each scored against the favourite feature sets. */
  function ContentItems(catalog: seq<Manhwa>, fav: seq<Manhwa>): (items: seq<Item>)
    ensures |items| <= 20
    ensures forall i :: 0 <= i < |items| ==>
      && items[i].manhwa in catalog
      && Matches(ContentQuery(fav), items[i].manhwa)
      && items[i] == ContentItem(items[i].manhwa, FavouriteFeature(fav, GenreFeature),
                                 FavouriteFeature(fav, ArtStyleFeature), FavouriteFeature(fav, TagFeature))
    ensures |items| == Min(20, |Find(catalog, ContentQuery(fav))|)
    ensures forall i :: 0 <= i < |items| ==> items[i].manhwa == Find(catalog, ContentQuery(fav))[i]
  {
    var all := Find(catalog, ContentQuery(fav));
    var found := Take(all, 20);
    var genres := FavouriteFeature(fav, GenreFeature);
    var artStyles := FavouriteFeature(fav, ArtStyleFeature);
    var tags := FavouriteFeature(fav, TagFeature);
    assert forall i :: 0 <= i < |found| ==> found[i] == all[i] && all[i] in all;
    seq(|found|, i requires 0 <= i < |found| => ContentItem(found[i], genres, artStyles, tags))
  }

  /**
   * A content item is active, is none of the favourites, and shares a value
   * with every non-empty favourite feature set.
   */
  lemma ContentItemsQualify(catalog: seq<Manhwa>, fav: seq<Manhwa>)
    ensures forall it :: it in ContentItems(catalog, fav) ==>
      && it.manhwa.isActive
      && (forall m :: m in fav ==> it.manhwa.id != m.id)
      && (FavouriteFeature(fav, GenreFeature) != {} ==> AnyIn(it.manhwa.genres, FavouriteFeature(fav, GenreFeature)))
      && (FavouriteFeature(fav, ArtStyleFeature) != {} ==> AnyIn(it.manhwa.artStyle, FavouriteFeature(fav, ArtStyleFeature)))
      && (FavouriteFeature(fav, TagFeature) != {} ==> AnyIn(it.manhwa.tags, FavouriteFeature(fav, TagFeature)))
  {
    var items := ContentItems(catalog, fav);
    forall it | it in items
      ensures Matches(ContentQuery(fav), it.manhwa)
    {
      var k :| 0 <= k < |items| && items[k] == it;
    }
  }

  /**
   * The `try` block of the enhanced tier after the standard result: `None`
   * when it throws (a favourite row whose manhwa does not populate), otherwise
   * what it returns.
   */
  function EnhancedPhase(userId: Id, catalog: seq<Manhwa>, history: seq<HistoryRow>, opts: Options, standard: Recommendations): (r: Option<Recommendations>)
    ensures r.None? <==> Favourites(history, userId) != [] && !AllPopulate(catalog, Favourites(history, userId))
    ensures r.Some? && r.value != standard ==> r.value.metadata == standard.metadata.(confidenceScore := 0.95) && |r.value.items| <= opts.limit
  {
    var favs := Favourites(history, userId);
    if |favs| == 0 then Some(standard)
    else if !AllPopulate(catalog, favs) then None
    else
      var content := ContentItems(catalog, FavouriteManhwas(catalog, favs));
      Some(Recommendations(
        Merge(standard.items, FloorSeventyPercent(opts.limit), content, CeilThirtyPercent(opts.limit), opts.limit),
        standard.metadata.(confidenceScore := 0.95)))
  }

  /** The content items of the enhanced tier, or none when a favourite does not populate. */
  function EnhancedContent(catalog: seq<Manhwa>, history: seq<HistoryRow>, userId: Id): seq<Item> {
    var favs := Favourites(history, userId);
    if AllPopulate(catalog, favs) then ContentItems(catalog, FavouriteManhwas(catalog, favs)) else []
  }

  /**
   * The enhanced tier over the standard result `standard`: `standard` itself
   * unless the user has favourites that all populate; then the merge of the
   * first 70% of the standard items with the first 30% of the content items,
   * with confidence 0.95. A thrown error falls back to the standard result,
   * which recomputing it yields again.
   */
  function EnhancedFrom(userId: Id, catalog: seq<Manhwa>, history: seq<HistoryRow>, opts: Options, standard: Recommendations): (r: Recommendations)
    ensures Favourites(history, userId) == [] || !AllPopulate(catalog, Favourites(history, userId)) ==> r == standard
    ensures Favourites(history, userId) != [] && AllPopulate(catalog, Favourites(history, userId)) ==>
      && r.metadata == standard.metadata.(confidenceScore := 0.95)
      && r.items == Merge(standard.items, FloorSeventyPercent(opts.limit),
                          EnhancedContent(catalog, history, userId), CeilThirtyPercent(opts.limit), opts.limit)
  {
    match EnhancedPhase(userId, catalog, history, opts, standard)
    case None => standard
    case Some(r) => r
  }

  /**
   * `getEnhancedRecommendations` composed with the CORRECTED standard tier
   * (`GetStandard`); `GetEnhancedAsWritten` composes the standard tier as
   * the code has it.
   */
  function GetEnhanced(userId: Id, prefs: Preferences, catalog: seq<Manhwa>, history: seq<HistoryRow>, opts: Options): (r: Recommendations)
    ensures Favourites(history, userId) == [] || !AllPopulate(catalog, Favourites(history, userId)) ==>
      r == GetStandard(userId, prefs, catalog, history, opts)
    ensures Favourites(history, userId) != [] && AllPopulate(catalog, Favourites(history, userId)) ==>
      && r.metadata == GetStandard(userId, prefs, catalog, history, opts).metadata.(confidenceScore := 0.95)
      && r.items == Merge(GetStandard(userId, prefs, catalog, history, opts).items, FloorSeventyPercent(opts.limit),
                          EnhancedContent(catalog, history, userId), CeilThirtyPercent(opts.limit), opts.limit)
      && |r.items| <= opts.limit
  {
    EnhancedFrom(userId, catalog, history, opts, GetStandard(userId, prefs, catalog, history, opts))
  }

  /** With well-formed data every enhanced score lies in [0, 1]. */
  lemma ContentScoresBounded(catalog: seq<Manhwa>, history: seq<HistoryRow>, userId: Id)
    ensures forall it :: it in EnhancedContent(catalog, history, userId) ==> 0.0 <= it.score <= 1.0
  {
    var content := EnhancedContent(catalog, history, userId);
    forall it | it in content ensures 0.0 <= it.score <= 1.0 {
      var k :| 0 <= k < |content| && content[k] == it;
    }
  }

  lemma EnhancedScoresBounded(userId: Id, prefs: Preferences, catalog: seq<Manhwa>, history: seq<HistoryRow>, opts: Options)
    requires WellFormed(catalog, history)
    ensures forall it :: it in GetEnhanced(userId, prefs, catalog, history, opts).items ==> 0.0 <= it.score <= 1.0
  {
    var standard := GetStandard(userId, prefs, catalog, history, opts);
    var content := EnhancedContent(catalog, history, userId);
    var r := EnhancedFrom(userId, catalog, history, opts, standard);
    StandardScoresBounded(userId, prefs, catalog, history, opts);
    ContentScoresBounded(catalog, history, userId);
    if r != standard {
      assert r.items == Merge(standard.items, FloorSeventyPercent(opts.limit), content, CeilThirtyPercent(opts.limit), opts.limit);
      DrawnFrom(r.items, standard.items, FloorSeventyPercent(opts.limit), content, CeilThirtyPercent(opts.limit));
    }
  }

  // ---------------------------------------------------------------------------
  // Dispatch

  /**
   * The `switch` on the selected tier, dispatching to the CORRECTED standard
   * tier; `RecommendationsForAsWritten` dispatches as the code has it.
   */
  function RecommendationsFor(tier: Tier, userId: Id, prefs: Preferences, catalog: seq<Manhwa>, history: seq<HistoryRow>, opts: Options): (r: Recommendations)
    ensures r.metadata.itemsConsidered == |LightweightMatches(userId, prefs, catalog, history, opts)|
    ensures r.metadata.totalAvailable == |LightweightMatches(userId, prefs, catalog, history, opts)|
    ensures r.metadata.confidenceScore == 0.7 || r.metadata.confidenceScore == 0.85 || r.metadata.confidenceScore == 0.95
    ensures tier.Lightweight? ==> r.metadata.confidenceScore == 0.7
    ensures tier.Standard? ==> r.metadata.confidenceScore != 0.95
    ensures opts.limit > 0 ==> |r.items| <= opts.limit
  {
    match tier
    case Lightweight => GetLightweight(userId, prefs, catalog, history, opts)
    case Standard => GetStandard(userId, prefs, catalog, history, opts)
    case Enhanced => GetEnhanced(userId, prefs, catalog, history, opts)
  }

  /** Whatever the tier, every recommended score lies in [0, 1] on well-formed data. */
  lemma ScoresBounded(tier: Tier, userId: Id, prefs: Preferences, catalog: seq<Manhwa>, history: seq<HistoryRow>, opts: Options)
    requires WellFormed(catalog, history)
    ensures forall it :: it in RecommendationsFor(tier, userId, prefs, catalog, history, opts).items ==> 0.0 <= it.score <= 1.0
  {
    match tier
    case Lightweight => LightweightScoresBounded(userId, prefs, catalog, history, opts);
    case Standard => StandardScoresBounded(userId, prefs, catalog, history, opts);
    case Enhanced => EnhancedScoresBounded(userId, prefs, catalog, history, opts);
  }

  // ---------------------------------------------------------------------------
  // The tiers as written

  /**
   * `getEnhancedRecommendations` as written: the enhanced stage over the
   * standard tier as the code has it, which is the lightweight result. A
   * reader without favourites that all populate gets the lightweight result;
   * otherwise the first 70% of the lightweight items are merged with the first
   * 30% of the content items, with confidence 0.95.
   */
  function GetEnhancedAsWritten(userId: Id, prefs: Preferences, catalog: seq<Manhwa>, history: seq<HistoryRow>, opts: Options): (r: Recommendations)
    ensures Favourites(history, userId) == [] || !AllPopulate(catalog, Favourites(history, userId)) ==>
      r == GetLightweight(userId, prefs, catalog, history, opts)
    ensures Favourites(history, userId) != [] && AllPopulate(catalog, Favourites(history, userId)) ==>
      && r.metadata == GetLightweight(userId, prefs, catalog, history, opts).metadata.(confidenceScore := 0.95)
      && r.items == Merge(GetLightweight(userId, prefs, catalog, history, opts).items, FloorSeventyPercent(opts.limit),
                          EnhancedContent(catalog, history, userId), CeilThirtyPercent(opts.limit), opts.limit)
  {
    EnhancedFrom(userId, catalog, history, opts, GetStandardAsWritten(userId, prefs, catalog, history, opts))
  }

  /**
   * The `switch` on the selected tier as written: the standard tier gives
   * exactly the lightweight result, so confidence 0.85 never occurs.
   */
  function RecommendationsForAsWritten(tier: Tier, userId: Id, prefs: Preferences, catalog: seq<Manhwa>, history: seq<HistoryRow>, opts: Options): (r: Recommendations)
    ensures !tier.Enhanced? ==> r == GetLightweight(userId, prefs, catalog, history, opts)
    ensures tier.Enhanced? ==> r == GetEnhancedAsWritten(userId, prefs, catalog, history, opts)
    ensures r.metadata.confidenceScore == 0.7 || r.metadata.confidenceScore == 0.95
    ensures opts.limit > 0 ==> |r.items| <= opts.limit
  {
    match tier
    case Lightweight => GetLightweight(userId, prefs, catalog, history, opts)
    case Standard => GetStandardAsWritten(userId, prefs, catalog, history, opts)
    case Enhanced => GetEnhancedAsWritten(userId, prefs, catalog, history, opts)
  }
}
