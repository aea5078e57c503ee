# manhwa-ai core, modelled in Dafny

This project models the logic at the heart of the manhwa-ai recommendation service. The service is an Express/Mongoose backend with a Next.js frontend that ranks a catalog of serialized comics ("manhwa") for a reader.

The model covers these parts:

- **The recommendation pipeline** (`recommendationController.js`):
  - the resource-aware tier gate;
  - the three scorers, lightweight (popularity and preferences), standard (collaborative filtering over similar readers) and enhanced (content similarity with the reader's favourites);
  - their merges and their fall-backs;
  - the standard tier twice: as written, where its candidate pool is always empty and it returns the lightweight result (`GetStandardAsWritten`, `GetEnhancedAsWritten`, `RecommendationsForAsWritten`), and corrected, where the pool holds what similar readers read (`GetStandard`, `GetEnhanced`, `RecommendationsFor`); see "## Findings";
  - the Jaccard helper `calculateSetSimilarity`.
- **The in-memory cache** that stands in for Redis (`createMockRedisClient`). It has two dictionaries, key expiry, and a periodic sweep.
- **The document logic of two models:**
  - the `ReadingHistory` chapter upsert and its reading statistics;
  - the `Manhwa` running rating sum, its average and the basic-info projection.
- **The resource monitor** (`systemResources.js`):
  - the CPU-delta aggregation;
  - the memory percentages and the measurement-failure fall-back;
  - the heavy-load and free-tier decisions;
  - the `throttleIfNeeded` retry loop.
- **Two React components' state logic:**
  - reading-history pagination, the page-button window and star rendering;
  - the preference dashboard's toggle, add and remove operations.

The database is replaced by values:

- The catalog is a `seq<Manhwa>`, in collection order.
- Reading history is a `seq<HistoryRow>` of `(user, manhwa, rating)` rows.
- A Mongo query is a `Query` value, and `find` is a filter that keeps order (`CatalogQueries.Find`).
- `sort`, `skip` and `limit` are a stable descending sort and `CatalogQueries.Page`. In `Page`, limit 0 means "no limit", as in Mongo.
- The two `aggregate` pipelines are pure functions that group by first appearance.

Clocks, OS counters and random timing become parameters:

- `now`, the hour of day;
- CPU time samples;
- memory figures;
- the sequence of snapshots that `throttleIfNeeded` would observe.

Scores are exact `real`s.

Each source file becomes one module:

| module | file | form |
|---|---|---|
| `RecommendationController` | backend/controllers/recommendationController.js | pure functions. The pool, ratings-map and set-similarity loops are methods proved equal to their specification functions. |
| `CatalogQueries` | (Mongo queries used by the controller) | pure functions |
| `Sorting` | (stable sort and slicing used by the controller) | pure functions and lemmas |
| `MockRedis` | backend/config/redis.js | `Client` class with `cache` and `expirations` map fields |
| `ReadingHistoryModel` | backend/models/ReadingHistory.js | `ReadingHistoryDocument` class, with the upsert specified by a function |
| `ManhwaModel` | backend/models/Manhwa.js | `Popularity` datatype and `ManhwaDocument` class |
| `SystemResources` | backend/utils/systemResources.js | functions, and methods for the two loops |
| `ReadingHistoryView` | frontend/components/ReadingHistory.js | functions, and methods for the loops that push buttons and stars |
| `PreferenceDashboard` | frontend/components/UserPreferenceDashboard.js | `Dashboard` class over a `Preferences` value |

### Behaviour of the code that the model keeps

- **Content query combinator.** The enhanced tier's content query (recommendationController.js:363-378) sets up to three separate `$in` fields on one query object, and Mongo ANDs them. A candidate must share an element with every non-empty favourite set, and an empty favourite set adds no condition (`ContentQuery`).
- **When the higher confidence is set.** The standard tier's branch at recommendationController.js:262-320 would set confidence 0.85 whenever the candidate pool is non-empty. As written, that pool is always empty (see "## Findings"), so the standard tier never sets 0.85 (`GetStandardAsWritten`, `RecommendationsForAsWritten`); the corrected tier `GetStandard` sets it whenever its pool is non-empty. The enhanced tier sets 0.95 whenever a favourite exists and all favourites populate (recommendationController.js:349-432). Both happen even if the catalog query then finds nothing (`GetStandard`, `EnhancedFrom`).
- **No score clamping.** No scorer clamps its score. The model proves that every score lies in [0,1] for well-formed data (`ScoresBounded`): view counts are non-negative, ratings lie in [0,5], and genre and art-style lists have no duplicates. With a duplicated genre, the lightweight genre ratio can exceed 1.
- **Preferred genres filter.** When no explicit genre filter is given, the reader's preferred genres become a genres `$in` filter (recommendationController.js:139-142). So a reader who prefers only Action is never offered a manhwa without Action (`LightweightQuery`).
- **Ties in the enhanced reason.** The reason is `genre_match` unless art style or tags strictly lead both other similarities, so every tie goes to `genre_match` (`ContentItem`).

## Model

| member | source | states |
|---|---|---|
| RecommendationController.SelectTier | backend/controllers/recommendationController.js:31-42 | lightweight whenever cpu ≥ 70, memory ≥ 70 or fewer than 5 history rows; enhanced iff the standard gate holds, hour in [2,5], cpu < 50 and memory < 50; standard iff the gate holds and the enhanced condition fails |
| RecommendationController.SelectTierMonotone | backend/controllers/recommendationController.js:34-42 | lowering cpu or memory, or adding history, never selects a lower tier |
| RecommendationController.MeasurementFailureSelectsLightweight | backend/controllers/recommendationController.js:25-35 | when resource measurement fails (the 70/70/70 snapshot) the lightweight tier is chosen whatever the history and hour |
| RecommendationController.FloorFortyPercent | backend/controllers/recommendationController.js:314 | equals floor(0.4·limit) |
| RecommendationController.CeilSixtyPercent | backend/controllers/recommendationController.js:315 | equals ceil(0.6·limit), and the 40% and 60% shares add up to limit |
| RecommendationController.FloorSeventyPercent | backend/controllers/recommendationController.js:426 | equals floor(0.7·limit) |
| RecommendationController.CeilThirtyPercent | backend/controllers/recommendationController.js:427 | equals ceil(0.3·limit), and the 70% and 30% shares add up to limit |
| RecommendationController.LightweightQuery | backend/controllers/recommendationController.js:123-152 | an explicit genre filter becomes genres `$in`; without one, a genres `$in` is set iff the reader has preferred genres; a tags `$in` is set iff tags are given; no art-style or id-inclusion condition; no matching manhwa is one the reader has read |
| RecommendationController.PopularityFactor | backend/controllers/recommendationController.js:176 | min(1, viewCount/10000): at most 1, non-negative for non-negative counts, exactly 1 from 10000 views on |
| RecommendationController.RatioAboveHalf | backend/controllers/recommendationController.js:172-182 | an overlap ratio exceeds 0.5 iff the preference list is non-empty and more than half of it matches |
| RecommendationController.LightweightItem | backend/controllers/recommendationController.js:166-189 | keeps the manhwa; reason is genre_match iff more than half the preferred genres match, art_style_match iff that fails and more than half the preferred art styles match, otherwise trending |
| RecommendationController.NoPreferencesScore | backend/controllers/recommendationController.js:172-182 | with no preferred genres or art styles the score is 0.3·popularity and the reason is trending |
| RecommendationController.CountInIsCardinality | backend/controllers/recommendationController.js:168-169 | for a duplicate-free genre list, the filtered match count equals the size of the intersection of the two sets |
| RecommendationController.CountInBounded | backend/controllers/recommendationController.js:168-173 | for a duplicate-free list, the match count is at most the number of preferences, so each ratio is at most 1 |
| RecommendationController.LightweightScoreBounded | backend/controllers/recommendationController.js:166-177 | the weighted score lies in [0,1] when genre and art-style lists have no duplicates and views are non-negative |
| RecommendationController.GetLightweight | backend/controllers/recommendationController.js:155-197 | itemsConsidered and totalAvailable are the number of matches; confidence 0.7; at most limit items when a limit is given |
| RecommendationController.LightweightPage | backend/controllers/recommendationController.js:158-189 | the items score, one for one and in order, the offset/limit window of the matches sorted by view count descending, and that window is sorted |
| RecommendationController.LightweightItemsQualify | backend/controllers/recommendationController.js:123-162 | every item comes from the catalog, is active, is not in the reader's history, and passes the explicit genre and tag filters or else the preferred-genre filter |
| RecommendationController.Distinct | backend/controllers/recommendationController.js:223-248 | same members as the input, without repetition |
| RecommendationController.UsersOf | backend/controllers/recommendationController.js:231-236 | the `$group` keys: each user with at least one row, once each |
| RecommendationController.ManhwasOf | backend/controllers/recommendationController.js:234 | the `$push` list: one entry per row of that user, in row order, so its length is the user's number of rows; its members are exactly the manhwas of those rows |
| RecommendationController.MatchedRows | backend/controllers/recommendationController.js:224-229 | the first `$match`: exactly the rows on one of the reader's manhwas by another user |
| RecommendationController.GroupByUser | backend/controllers/recommendationController.js:230-236 | the groups are keyed by `UsersOf` (every matched user, once each, in first-appearance order); each count is the user's number of matched rows and each list the manhwas of the user's rows in the pushed rows |
| RecommendationController.GroupByUserKeys | backend/controllers/recommendationController.js:230-236 | every matched user has a group, every group belongs to a matched user, and no user has two groups |
| RecommendationController.AtLeastThreeInCommon | backend/controllers/recommendationController.js:238-241 | keeps exactly the groups with at least 3 manhwas in common |
| RecommendationController.SimilarUsers | backend/controllers/recommendationController.js:223-248 | min(20, number of qualifying groups) users, sorted by common count descending, each a group of `GroupByUser` with at least 3 in common; no qualifying group left out has a larger count than a kept one |
| RecommendationController.PushedFromRows | backend/controllers/recommendationController.js:230-236 | every manhwa pushed for a group is that of a row, among the pushed rows, of that group's user |
| RecommendationController.UserManhwaIds | backend/controllers/recommendationController.js:216-220 | the mapped ids are exactly the reader's read ids |
| RecommendationController.PushedAppend | backend/controllers/recommendationController.js:255-257 | adding a similar user adds exactly that user's manhwas to the pushed set |
| RecommendationController.CollectCandidatePool | backend/controllers/recommendationController.js:253-260 | the pool is every manhwa pushed for a similar user minus every manhwa the reader has read |
| RecommendationController.AsWrittenPoolEmpty | backend/controllers/recommendationController.js:223-260 | as written, the pool is always empty, because the `$push` only collects rows already restricted to the reader's own manhwas |
| RecommendationController.SelfPushedWithin | backend/controllers/recommendationController.js:223-248 | grouping rows that all lie on a set of manhwas pushes only manhwas of that set |
| RecommendationController.CohortRows | backend/controllers/recommendationController.js:271-276 | exactly the history rows of a similar user on a pooled manhwa |
| RecommendationController.RowsOn | backend/controllers/recommendationController.js:279-281 | exactly the rows on one manhwa |
| RecommendationController.RatingsOf | backend/controllers/recommendationController.js:281 | the values `$avg` averages: every value occurs exactly as often as rows carry that rating, and missing ratings are skipped |
| RecommendationController.SumBounds | backend/controllers/recommendationController.js:281 | a sum of values in [lo,hi] lies between n·lo and n·hi |
| RecommendationController.AverageBounds | backend/controllers/recommendationController.js:281 | an average of values in [lo,hi] lies in [lo,hi] |
| RecommendationController.ManhwaIdsOf | backend/controllers/recommendationController.js:278-283 | the `$group` keys: each manhwa with a row, once each |
| RecommendationController.GroupsAreNonEmpty | backend/controllers/recommendationController.js:278-283 | every group has at least one row |
| RecommendationController.RatingGroups | backend/controllers/recommendationController.js:270-284 | the groups are keyed by `ManhwaIdsOf` (every manhwa of the rows, once each); readCount = its number of rows (at least 1); avgRating = the average of its ratings |
| RecommendationController.RatingGroupsKeys | backend/controllers/recommendationController.js:278-283 | every manhwa of the rows has a group, every group is some row's manhwa, and no manhwa has two groups |
| RecommendationController.Normalized | backend/controllers/recommendationController.js:289-292 | `avgRating \|\| 3`: a missing or zero average becomes 3; readCount kept |
| RecommendationController.RatingsMap | backend/controllers/recommendationController.js:287-293 | a key for exactly the grouped manhwas, each mapped to a normalized group |
| RecommendationController.BuildRatingsMap | backend/controllers/recommendationController.js:287-293 | the forEach loop builds exactly RatingsMap |
| RecommendationController.RatingsMapInRange | backend/controllers/recommendationController.js:270-293 | with ratings in [0,5] every entry has avgRating in [0,5] and readCount ≥ 1 |
| RecommendationController.CollaborativeScore | backend/controllers/recommendationController.js:297-303 | 0.6·avg/5 + 0.2·min(1, readCount/10) + 0.2·popularity lies in [0,1] for avg in [0,5] and non-negative views |
| RecommendationController.MissingRatingDefault | backend/controllers/recommendationController.js:297 | a manhwa missing from the map scores as avgRating 3, readCount 1: 0.38 + 0.2·popularity |
| RecommendationController.CollaborativeItems | backend/controllers/recommendationController.js:264-310 | one item per match of the pool query, in catalog order, so every active pooled catalog manhwa is scored; each item has reason similar_to_read and the collaborative score of its rating info |
| RecommendationController.Merge | backend/controllers/recommendationController.js:313-317 | length min(limit, taken first + taken second), sorted by score descending, a sub-multiset of the two prefixes, and no prefix item left out scores above a kept item |
| RecommendationController.DrawnFrom | backend/controllers/recommendationController.js:313-317 | every merged item comes from one of the two lists |
| RecommendationController.StandardPool | backend/controllers/recommendationController.js:252-260 | the corrected pool holds no manhwa the reader has read |
| RecommendationController.StandardPoolReadBySimilar | backend/controllers/recommendationController.js:252-257 | every pooled manhwa was read by a similar user |
| RecommendationController.GetStandard | backend/controllers/recommendationController.js:201-331 | the CORRECTED standard tier (the pool drawn from everything similar readers read): the lightweight result unchanged with fewer than 5 rows, a failed populate, no similar users or an empty pool; otherwise the lightweight metadata with confidence 0.85 and the `Merge` of the first 40% of the lightweight items with the first 60% of the collaborative ones |
| RecommendationController.StandardPhase | backend/controllers/recommendationController.js:207-326 | the `try` block throws exactly when the reader has at least 5 rows and one of them does not populate; a changed result has confidence 0.85 and at most limit items |
| RecommendationController.StandardCollaborativeQualifies | backend/controllers/recommendationController.js:252-267 | every collaborative candidate is an active catalog manhwa the reader has not read |
| RecommendationController.StandardExcludesRead | backend/controllers/recommendationController.js:252-267 | every standard item is an active catalog manhwa the reader has not read |
| RecommendationController.LightweightScoresBounded | backend/controllers/recommendationController.js:166-189 | with well-formed data every lightweight score lies in [0,1] |
| RecommendationController.CollaborativeItemsBounded | backend/controllers/recommendationController.js:296-310 | with rating info in [0,5] and non-negative views, every collaborative score lies in [0,1] |
| RecommendationController.CollaborativeForBounded | backend/controllers/recommendationController.js:270-310 | with well-formed data every collaborative score lies in [0,1] |
| RecommendationController.StandardScoresBounded | backend/controllers/recommendationController.js:296-320 | with well-formed data every standard score lies in [0,1] |
| RecommendationController.StandardPhaseAsWritten | backend/controllers/recommendationController.js:207-331 | as written, the collaborative phase fails (falls back) exactly when the reader has at least 5 rows and one of them does not populate, and otherwise returns the lightweight result; the throwing line 274 is never reached |
| RecommendationController.GetStandardAsWritten | backend/controllers/recommendationController.js:201-331 | as written, the standard tier returns the lightweight result for every input |
| RecommendationController.Jaccard | backend/controllers/recommendationController.js:444-458 | lies in [0,1]; 0 when either set is empty |
| RecommendationController.JaccardSymmetric | backend/controllers/recommendationController.js:444-458 | symmetric in its two sets |
| RecommendationController.JaccardOne | backend/controllers/recommendationController.js:444-458 | equals 1 iff the sets are equal and non-empty |
| RecommendationController.JaccardZero | backend/controllers/recommendationController.js:444-458 | equals 0 iff the sets are disjoint |
| RecommendationController.CalculateSetSimilarity | backend/controllers/recommendationController.js:444-458 | the counting loop returns exactly the Jaccard similarity |
| RecommendationController.Favourites | backend/controllers/recommendationController.js:344-347 | exactly the reader's rows rated at least 4 |
| RecommendationController.FavouriteManhwas | backend/controllers/recommendationController.js:344-359 | one populated catalog manhwa per favourite row, with that row's id |
| RecommendationController.ContentItem | backend/controllers/recommendationController.js:385-422 | keeps the manhwa; score in [0,1]; art_style_match iff art style strictly leads genre and tag similarity; tag_match iff tag strictly leads both; genre_match otherwise |
| RecommendationController.ContentItems | backend/controllers/recommendationController.js:380-422 | the first min(20, matches) matches of the content query, in catalog order, each scored against the favourite feature sets |
| RecommendationController.ContentQuery | backend/controllers/recommendationController.js:363-378 | a manhwa matches iff it is active, is not a favourite, and shares an element with every non-empty favourite feature set; an empty set adds no condition |
| RecommendationController.ContentItemsQualify | backend/controllers/recommendationController.js:363-382 | every content item is an active catalog manhwa, not a favourite, that shares an element with every non-empty favourite feature set |
| RecommendationController.EnhancedFrom | backend/controllers/recommendationController.js:334-441 | the standard result unchanged with no favourites or a failed populate; otherwise the standard metadata with confidence 0.95 and the `Merge` of the first 70% of the standard items with the first 30% of the content items |
| RecommendationController.EnhancedPhase | backend/controllers/recommendationController.js:335-436 | the `try` block throws exactly when a favourite row does not populate; a changed result has confidence 0.95 and at most limit items |
| RecommendationController.GetEnhanced | backend/controllers/recommendationController.js:334-441 | the enhanced tier composed with the CORRECTED standard tier `GetStandard`: its result unless the reader has favourites that all populate; then its metadata with confidence 0.95 and the `Merge` of its first 70% with the first 30% of the content items, at most limit items |
| RecommendationController.GetEnhancedAsWritten | backend/controllers/recommendationController.js:334-441 | the enhanced tier as written, over the standard tier as written: the lightweight result unless the reader has favourites that all populate; then the lightweight metadata with confidence 0.95 and the `Merge` of the first 70% of the lightweight items with the first 30% of the content items |
| RecommendationController.ContentScoresBounded | backend/controllers/recommendationController.js:385-422 | every content score lies in [0,1] |
| RecommendationController.EnhancedScoresBounded | backend/controllers/recommendationController.js:334-441 | with well-formed data every enhanced score lies in [0,1] |
| RecommendationController.ScoresBounded | backend/controllers/recommendationController.js:50-62 | whatever tier is dispatched, every score lies in [0,1] for well-formed data |
| RecommendationController.RecommendationsFor | backend/controllers/recommendationController.js:50-62 | the dispatch with the CORRECTED standard tier: whatever the tier, the metadata counts are the lightweight query's number of matches, confidence is 0.7, 0.85 or 0.95 (0.7 for the lightweight tier, never 0.95 for the standard tier), and a given limit bounds the number of items |
| RecommendationController.RecommendationsForAsWritten | backend/controllers/recommendationController.js:50-62 | the dispatch as written: the lightweight and standard tiers both give exactly the lightweight result, the enhanced tier gives `GetEnhancedAsWritten`, confidence is 0.7 or 0.95 (never 0.85), and a given limit bounds the number of items |
| CatalogQueries.Find | backend/controllers/recommendationController.js:158 | keeps, in catalog order, exactly the manhwas matching the query |
| CatalogQueries.Page | backend/controllers/recommendationController.js:160-161 | skip then limit: empty past the end, element i is element offset+i, limit 0 keeps the rest |
| CatalogQueries.PageSorted | backend/controllers/recommendationController.js:159-161 | a window of a sorted list is sorted |
| CatalogQueries.ReadIds | backend/controllers/recommendationController.js:145-148 | exactly the manhwas of the reader's history rows |
| CatalogQueries.UserRows | backend/controllers/recommendationController.js:209-211 | exactly the reader's history rows, in order |
| CatalogQueries.Populate | backend/controllers/recommendationController.js:209-211 | the first catalog manhwa with the id, none iff no manhwa has it |
| Sorting.SortDesc | backend/controllers/recommendationController.js:316 | keeps length and multiset of the items |
| Sorting.SortDescSorted | backend/controllers/recommendationController.js:316 | the result is sorted non-increasingly by the key |
| Sorting.SortDescKeepsSorted | backend/controllers/recommendationController.js:159 | sorting an already sorted list leaves it unchanged (stability) |
| Sorting.SortDescMembers | backend/controllers/recommendationController.js:316 | the sorted list has the same members |
| Sorting.Take | backend/controllers/recommendationController.js:314-317 | `slice(0, n)`: the prefix of length min(n, length) |
| Sorting.TakeMultiset | backend/controllers/recommendationController.js:314-317 | a prefix's multiset is contained in the whole's |
| Sorting.PrefixSorted | backend/controllers/recommendationController.js:316-317 | a prefix of a sorted list is sorted |
| MockRedis.ExpiredKeys | backend/config/redis.js:57-65 | exactly the keys whose expiration is at or before now |
| MockRedis.CeilSeconds | backend/config/redis.js:119 | ceil(ms/1000) |
| MockRedis.SweepUnobservable | backend/config/redis.js:57-78 | for keys without a zero expiration, sweeping at or before a later time does not change what `get` returns then |
| MockRedis.ZeroExpirationSweptButServed | backend/config/redis.js:57-78 | a key whose expiration is 0 is served by `get` (falsy expiration) yet removed by the sweep |
| MockRedis.SetExServesUntilExpiry | backend/config/redis.js:72-90 | after `set` with EX and a positive time, `get` returns the value until the expiry |
| MockRedis.SetKeepsPassedExpiration | backend/config/redis.js:81-90 | a plain `set` over a key whose expiration has passed leaves it unreadable |
| MockRedis.Client.constructor | backend/config/redis.js:52-55 | both maps start empty |
| MockRedis.Client.Get | backend/config/redis.js:72-78 | the stored value iff the key is present and has no expiration or one after now |
| MockRedis.Client.Exists | backend/config/redis.js:101-103 | 1 iff `get` would return a value, else 0 |
| MockRedis.Client.Ttl | backend/config/redis.js:115-121 | -2 for an absent key, -1 without expiration, the seconds left rounded up while they remain, else -2 |
| MockRedis.Client.TtlAgreesWithGet | backend/config/redis.js:72-121 | `ttl` is -2 iff `get` returns null |
| MockRedis.Client.Set | backend/config/redis.js:81-90 | stores the value, returns OK; sets expiration now + expire·1000 only for EX with non-zero expire, else leaves expirations alone; keeps expirations within cache |
| MockRedis.Client.Del | backend/config/redis.js:93-98 | removes the key from both maps; 1 iff it was cached, even if expired |
| MockRedis.Client.Expire | backend/config/redis.js:106-112 | on a cached key sets expiration now + seconds·1000 and returns 1; else 0 and no change |
| MockRedis.Client.FlushAll | backend/config/redis.js:124-130 | both maps empty, returns OK |
| MockRedis.Client.Sweep | backend/config/redis.js:57-65 | removes exactly the expired keys from both maps and keeps expirations within cache |
| ReadingHistoryModel.FindChapter | backend/models/ReadingHistory.js:83 | the first index with that chapter number, -1 iff there is none |
| ReadingHistoryModel.Upserted | backend/models/ReadingHistory.js:83-98 | the list grows by one exactly when no entry has the chapter number; afterwards some entry is the new reading (number, date, duration, completion); entries with other numbers are unchanged |
| ReadingHistoryModel.UpsertExisting | backend/models/ReadingHistory.js:85-89 | on an existing chapter only that entry's date, completion and duration change; length and other entries kept |
| ReadingHistoryModel.UpsertNew | backend/models/ReadingHistory.js:90-98 | on a new chapter exactly one entry is appended at the end |
| ReadingHistoryModel.UpsertKeepsUnique | backend/models/ReadingHistory.js:83-98 | unique chapter numbers stay unique |
| ReadingHistoryModel.TotalDurationUpdate | backend/models/ReadingHistory.js:113 | replacing one entry changes the total by the difference of the two durations |
| ReadingHistoryModel.UpsertTotalDuration | backend/models/ReadingHistory.js:81-98 | the total time after an upsert: old total minus the replaced duration plus the new one, or old total plus the new one |
| ReadingHistoryModel.ReadingHistoryDocument.constructor | backend/models/ReadingHistory.js:16-68 | schema defaults: no chapters, last chapter 0, progress 0, no rating, status Reading |
| ReadingHistoryModel.ReadingHistoryDocument.UpdateProgress | backend/models/ReadingHistory.js:81-108 | chapters become the upsert with defaults 100 and 0; lastChapterRead becomes max(old, chapter) and never decreases; uniqueness kept; other fields kept |
| ReadingHistoryModel.ReadingHistoryDocument.GetReadingStats | backend/models/ReadingHistory.js:111-125 | count = length, total = sum of durations (missing as 0), average·count = total or 0 when empty, other fields copied |
| ManhwaModel.Popularity.AverageRating | backend/models/Manhwa.js:132-136 | rating/ratingCount when the count is positive, else 0 |
| ManhwaModel.Popularity.WithRating | backend/models/Manhwa.js:154-157 | adds the rating to the sum and 1 to the count, nothing else |
| ManhwaModel.RatedInOrderSums | backend/models/Manhwa.js:154-157 | after ratings r1..rn, the sum grew by their sum and the count by n |
| ManhwaModel.AverageIsMean | backend/models/Manhwa.js:85-157 | from a fresh popularity, the average after r1..rn is their arithmetic mean |
| ManhwaModel.ManhwaDocument.constructor | backend/models/Manhwa.js:76-94 | popularity starts at zero counts and zero rating sum |
| ManhwaModel.ManhwaDocument.UpdateRating | backend/models/Manhwa.js:154-158 | popularity becomes WithRating of the old one; nothing else changes |
| ManhwaModel.ManhwaDocument.GetBasicInfo | backend/models/Manhwa.js:139-151 | the thumbnail when it is set and non-empty, else the cover; chapters = chapters.total; rating = average rating; other fields copied |
| SystemResources.GetCpuInfo | backend/utils/systemResources.js:109-123 | per core, idle time and a total that is idle plus user, nice, sys and irq |
| SystemResources.CpuPercent | backend/utils/systemResources.js:101 | not finite iff the total delta is 0; otherwise the greatest integer at most 100 − 100·idle/total |
| SystemResources.CpuPercentBounds | backend/utils/systemResources.js:91-101 | for 0 ≤ idle ≤ total and total > 0 the percentage lies in [0,100], 100 at no idle time and 0 at all idle time |
| SystemResources.GetCpuUsage | backend/utils/systemResources.js:77-103 | the accumulating loop yields the percentage of the summed idle and total deltas over the first sample's cores; it throws exactly when the second sample has fewer cores |
| SystemResources.UsedPercent | backend/utils/systemResources.js:16 | floor(100·(total − free)/total), within [0,100] when 0 ≤ free ≤ total |
| SystemResources.CalculateResourceUsage | backend/utils/systemResources.js:8-38 | measured cpu passed through; memory = floor(100·(total − free)/total) and process memory = floor(100·heapUsed/heapTotal), each in [0,100] on consistent readings; on failure the 70/70/70 snapshot |
| SystemResources.HeavyLoadMonotone | backend/utils/systemResources.js:44-47 | `IsUnderHeavyLoad` (cpu > 70, memory > 80 or process memory > 75) is monotone: higher readings never leave heavy load |
| SystemResources.FallbackIsNotHeavyLoad | backend/utils/systemResources.js:28-47 | the failure snapshot does not count as heavy load |
| SystemResources.EstimateFreeTierUsage | backend/utils/systemResources.js:53-71 | approaching the limit iff cpu > 60 or memory > 70; lightweight iff cpu > 75, standard iff 50 < cpu ≤ 75, enhanced iff cpu ≤ 50; credits in [0,5] for percentages |
| SystemResources.RecommendedTierAntitone | backend/utils/systemResources.js:63 | a higher cpu never recommends a higher tier |
| SystemResources.WithDefaults | backend/utils/systemResources.js:132-138 | absent options become 70, 80, a plain fallback, 1000 and 3; given ones are kept |
| SystemResources.ThrottleIfNeeded | backend/utils/systemResources.js:131-162 | undefined iff maxRetries ≤ 0; the callback runs on the first admitting sample among the first maxRetries, iff one exists; otherwise the fallback, called iff it is a function, after maxRetries samples |
| ReadingHistoryView.TotalPages | frontend/components/ReadingHistory.js:97 | ceil(n/10); at most one page iff n ≤ 10 |
| ReadingHistoryView.SliceIndex | frontend/components/ReadingHistory.js:100 | `slice` clamps an index into [0, length] |
| ReadingHistoryView.PageShowsItsWindow | frontend/components/ReadingHistory.js:97-100 | page p shows items [(p−1)·10, min(n, p·10)): at most 10, and at least one for a page that exists |
| ReadingHistoryView.CurrentItems | frontend/components/ReadingHistory.js:97-100 | at most 10 items; for a page p ≥ 1 they are the items from index (p−1)·10 on, in order, as many as remain up to 10 |
| ReadingHistoryView.PagesCoverList | frontend/components/ReadingHistory.js:97-100 | the pages in order concatenate to the list |
| ReadingHistoryView.RenderPagination | frontend/components/ReadingHistory.js:109-184 | nothing iff at most one page; otherwise first, prev, min(5, total) consecutive page buttons within [1,total] around the current page, next, last; first/prev disabled iff on page 1, next/last iff on the last page |
| ReadingHistoryView.Round | frontend/components/ReadingHistory.js:19 | the nearest integer, halves rounded up |
| ReadingHistoryView.RenderStars | frontend/components/ReadingHistory.js:17-30 | always 5 stars, the first round(rating) of them filled (clamped to 0..5) |
| ReadingHistoryView.RenderHistoryItem | frontend/components/ReadingHistory.js:38-87 | continue link to lastChapterRead + 1; stars iff rating > 0; progress width; thumbnail when set, else the cover |
| PreferenceDashboard.IndexOf | frontend/components/UserPreferenceDashboard.js:43 | the first position of the item, -1 iff absent |
| PreferenceDashboard.RemoveFirst | frontend/components/UserPreferenceDashboard.js:43-48 | `indexOf` then `splice(index, 1)`: an absent item leaves the list as it is; otherwise the first occurrence is removed and the rest keep their order |
| PreferenceDashboard.Toggle | frontend/components/UserPreferenceDashboard.js:40-53 | an absent item is appended at the end; a present one is removed by `RemoveFirst` |
| PreferenceDashboard.ToggleEffect | frontend/components/UserPreferenceDashboard.js:40-53 | an absent item is appended; a present one loses exactly its first occurrence, the other items keeping their order, so the length drops by one and the multiset loses one copy |
| PreferenceDashboard.ToggleTwiceRestores | frontend/components/UserPreferenceDashboard.js:40-53 | toggling an absent item twice restores the list |
| PreferenceDashboard.ToggleKeepsNoDuplicates | frontend/components/UserPreferenceDashboard.js:40-53 | a duplicate-free list stays duplicate-free, and the item is in it afterwards iff it was not before |
| PreferenceDashboard.RemoveAbsent | frontend/components/UserPreferenceDashboard.js:96-107 | removing an absent tag changes nothing |
| PreferenceDashboard.Trim | frontend/components/UserPreferenceDashboard.js:74 | the result is a contiguous part `s[a..b]` of the input with only white space before `a` and from `b` on, and neither end of it is white space; empty iff the input is all white space |
| PreferenceDashboard.TrimIdempotent | frontend/components/UserPreferenceDashboard.js:72-81 | trimming twice is trimming once |
| PreferenceDashboard.AddKeepsNoDuplicates | frontend/components/UserPreferenceDashboard.js:72-81 | appending an absent tag keeps the list duplicate-free |
| PreferenceDashboard.FromProps | frontend/components/UserPreferenceDashboard.js:21-25 | each list of the `userPreferences` prop is kept when given and becomes empty when missing |
| PreferenceDashboard.Dashboard.constructor | frontend/components/UserPreferenceDashboard.js:21-28 | starts from the prop's lists, missing ones empty, with both inputs blank |
| PreferenceDashboard.Dashboard.Resync | frontend/components/UserPreferenceDashboard.js:31-37 | on a changed prop the lists are reset from it, missing ones empty, and both inputs are kept |
| PreferenceDashboard.Dashboard.ToggleGenre | frontend/components/UserPreferenceDashboard.js:40-53 | only genres change, to their toggle |
| PreferenceDashboard.Dashboard.ToggleArtStyle | frontend/components/UserPreferenceDashboard.js:56-69 | only artStyles change, to their toggle |
| PreferenceDashboard.Dashboard.AddCustomTag | frontend/components/UserPreferenceDashboard.js:72-81 | appends the trimmed tag to genres and clears the input iff it is non-empty and new; otherwise nothing changes |
| PreferenceDashboard.Dashboard.AddExcludedTag | frontend/components/UserPreferenceDashboard.js:84-93 | the same for excludedTags and the excluded-tag input |
| PreferenceDashboard.Dashboard.RemoveTag | frontend/components/UserPreferenceDashboard.js:96-107 | removes the first occurrence from the named list only |

## Left out

- The Express handlers `getRecommendations` and `getTrending` (recommendationController.js:10-116, 461-498) are left out. They read and write the cache, persist a `Recommendation` document and format JSON; only their tier gate (31-42) and dispatch (50-62) are modelled.
- Mongoose queries, `populate`, `countDocuments`, `aggregate` and `save()` are foreign calls. They are replaced by in-memory sequences: `populate` is a lookup of the first catalog entry with the id.
- The order of Mongo results is not modelled. Documents come back in catalog order; ties in a sort keep that order (stable sort); `$group` emits groups in order of first appearance. Every property proved holds for any catalog order.
- `parseFloat(x.toFixed(2))` rounding and binary floating point are not modelled (recommendationController.js:186, 307, 419). Scores and shares are exact reals, and `limit*0.4` etc. are the exact floor and ceiling.
- SystemResources.UsedPercent, SystemResources.CpuPercent and SystemResources.CalculateResourceUsage: the percentages are floors of exact rationals, while the source floors a binary floating-point quotient (systemResources.js:16, 20, 101), which can come out one lower at an exact integer (28 rather than 29 for total 100, free 71).
- String plumbing of query parameters is not modelled: `genres.split(',')` is already a list, and `parseInt` of offset and limit is already a natural number.
- Id representation is not modelled. `$ne: userId` compares a string with an ObjectId and `ratingsMap` keys are `toString()`s; ids are one type here, so these comparisons behave as intended.
- The unused values `userGenres` (recommendationController.js:215-218) and the enhanced tier's `User.findById` preferences (340-341) are not modelled.
- GetEnhanced: the catch path at recommendationController.js:436-440 recomputes the standard tier; the model returns the same standard value, since recomputing it on unchanged data yields it again.
- StandardPhase: any other thrown error (a database failure) is not modelled; only a history row whose manhwa does not populate raises one, as `h.manhwa.genres` would.
- The real Redis client (redis.js:8-46) is network I/O and is left out. The `setInterval` scheduling (redis.js:57) is replaced by calling `Sweep(now)` with an explicit time.
- Object-key quirks of the mock (a key such as `__proto__`) are not modelled.
- OS and process counters (`os.cpus`, `os.totalmem`, `os.freemem`, `process.memoryUsage`), the 100 ms and retry delays, and `new Date()` are left out. They become parameters: two CPU samples, a `Measurement`, a sequence of snapshots, `now`.
- GetCpuUsage: a NaN reading from a zero total delta is reported as `NotFinite`; how JavaScript would carry NaN onward is not modelled.
- CalculateResourceUsage: its CPU reading is given through the `Measurement` input, not computed by `GetCpuUsage`. The TypeError that `GetCpuUsage` reports as `None` (a second sample with fewer cores, systemResources.js:93) reaches the catch at systemResources.js:28-36, which is the `MeasurementFailed` case; the two members are not composed.
- ThrottleIfNeeded: the callback's and the fallback function's own results are not modelled; the result says which one ran, and at which attempt.
- The logger, the `Recommendation` and `User` models, and the frontend pages, layout and grid are left out as I/O, rendering or configuration.
- RemoveTag: the source splices the array shared with the previous state (UserPreferenceDashboard.js:98-103); the model replaces the list by value, so that aliasing is not captured.
- React rendering itself is left out; buttons and stars are values with the fields the source sets (page, disabled, active, filled).
- ReadingHistoryModel: `markModified` and `save()` are persistence, and `dateRead`/`updatedAt` timestamps are the `now` parameter.
- ManhwaModel: the schema's `max: 5` on `popularity.rating` is not assumed, since `updateRating` keeps a running sum there.

## Findings

| source | as written | input that shows it | evidently intended | confidence | as-written member | corrected member |
|---|---|---|---|---|---|---|
| backend/controllers/recommendationController.js:223-262 | the similar-user `$group` pushes `$manhwa` only from rows already matched by `manhwa: {$in: userManhwaIds}`, so every pushed manhwa is one the reader has read, and deleting `userManhwaIds` empties the pool; the collaborative branch (and the unimported `mongoose` it would reach at line 274) never runs, and the standard tier always returns the lightweight result | reader 1 has read manhwas 1-5; reader 2 has read 1, 2, 3 and 9: reader 2 is similar (3 in common) but only 1, 2, 3 are pushed, so manhwa 9 never enters the pool | the pool holds what similar readers have read and the reader has not (manhwa 9 here), scored collaboratively and merged 40/60 | high (not executed) | RecommendationController.GetStandardAsWritten | RecommendationController.GetStandard |
