/**
 * The reading-history document of one user and one manhwa
 * (backend/models/ReadingHistory.js): `updateProgress`, which upserts a
 * chapter entry and advances `lastChapterRead`, and `getReadingStats`.
 * `new Date()` is the parameter `now`; `save()` is not modelled beyond the
 * `updatedAt` timestamp it writes.
 */
module ReadingHistoryModel {
  import opened Wrappers

  /** One element of `chapters`; `readDuration` is optional in the schema. */
  datatype ChapterEntry = ChapterEntry(chapterNumber: int, dateRead: int, readDuration: Option<int>, completionPercentage: int)

  datatype ReadingStatus = Reading | Completed | OnHold | Dropped | PlanToRead

  datatype ReadingStats = ReadingStats(
    totalChapters: nat, lastRead: int, totalTimeSpent: int, averageTimePerChapter: real,
    readingStatus: ReadingStatus, overallProgress: int, rating: Option<real>)

  /** No two entries share a chapter number. */
  ghost predicate UniqueChapters(chapters: seq<ChapterEntry>) {
    forall i, j :: 0 <= i < j < |chapters| ==> chapters[i].chapterNumber != chapters[j].chapterNumber
  }

  /** `chapters.findIndex(ch => ch.chapterNumber === n)`. */
  function FindChapter(chapters: seq<ChapterEntry>, n: int): (i: int)
    ensures -1 <= i < |chapters|
    ensures i >= 0 ==> chapters[i].chapterNumber == n
    ensures i >= 0 ==> forall j :: 0 <= j < i ==> chapters[j].chapterNumber != n
    ensures i == -1 <==> forall j :: 0 <= j < |chapters| ==> chapters[j].chapterNumber != n
  {
    if chapters == [] then -1
    else if chapters[0].chapterNumber == n then 0
    else
      var k := FindChapter(chapters[1..], n);
      if k == -1 then -1 else k + 1
  }

  /** The `chapters` list after `updateProgress(n, completion, duration)` at time `now`. */
  function Upserted(chapters: seq<ChapterEntry>, n: int, completion: int, duration: int, now: int): (r: seq<ChapterEntry>)
    ensures |r| == |chapters| + (if forall j :: 0 <= j < |chapters| ==> chapters[j].chapterNumber != n then 1 else 0)
    ensures exists k :: 0 <= k < |r| && r[k] == ChapterEntry(n, now, Some(duration), completion)
    ensures forall j :: 0 <= j < |chapters| && chapters[j].chapterNumber != n ==> r[j] == chapters[j]
  {
    var i := FindChapter(chapters, n);
    if i >= 0 then
      var r := chapters[i := chapters[i].(dateRead := now, completionPercentage := completion, readDuration := Some(duration))];
      assert r[i] == ChapterEntry(n, now, Some(duration), completion);
      r
    else
      var r := chapters + [ChapterEntry(n, now, Some(duration), completion)];
      assert r[|chapters|] == ChapterEntry(n, now, Some(duration), completion);
      r
  }

  /**
   * Re-reading a chapter rewrites only the date, completion and duration of the
   * first entry with that number (the only one while numbers are unique).
   */
  lemma UpsertExisting(chapters: seq<ChapterEntry>, n: int, completion: int, duration: int, now: int, i: nat)
    requires i < |chapters| && chapters[i].chapterNumber == n
    requires forall j :: 0 <= j < i ==> chapters[j].chapterNumber != n
    ensures |Upserted(chapters, n, completion, duration, now)| == |chapters|
    ensures Upserted(chapters, n, completion, duration, now)[i]
         == ChapterEntry(n, now, Some(duration), completion)
    ensures forall j :: 0 <= j < |chapters| && j != i ==> Upserted(chapters, n, completion, duration, now)[j] == chapters[j]
  {
    var k := FindChapter(chapters, n);
    assert k == i;
  }

  /** Reading a new chapter appends exactly one entry at the end. */
  lemma UpsertNew(chapters: seq<ChapterEntry>, n: int, completion: int, duration: int, now: int)
    requires forall j :: 0 <= j < |chapters| ==> chapters[j].chapterNumber != n
    ensures Upserted(chapters, n, completion, duration, now)
         == chapters + [ChapterEntry(n, now, Some(duration), completion)]
  {
  }

  /** Chapter numbers stay unique. */
  lemma {:induction false} UpsertKeepsUnique(chapters: seq<ChapterEntry>, n: int, completion: int, duration: int, now: int)
    requires UniqueChapters(chapters)
    ensures UniqueChapters(Upserted(chapters, n, completion, duration, now))
  {
    var r := Upserted(chapters, n, completion, duration, now);
    var k := FindChapter(chapters, n);
    assert forall j :: 0 <= j < |chapters| ==> r[j].chapterNumber == chapters[j].chapterNumber;
    if k == -1 {
      assert r[|chapters|].chapterNumber == n;
    }
  }

  /** `chapter.readDuration || 0`. */
  function DurationOf(c: ChapterEntry): int {
    if c.readDuration.Some? then c.readDuration.value else 0
  }

  /** The `reduce` of `getReadingStats`, left to right. */
  function TotalDuration(chapters: seq<ChapterEntry>): int {
    if chapters == [] then 0
    else TotalDuration(chapters[..|chapters| - 1]) + DurationOf(chapters[|chapters| - 1])
  }

  /** Replacing one entry changes the total by the difference of the two durations. */
  lemma {:induction false} TotalDurationUpdate(chapters: seq<ChapterEntry>, i: nat, c: ChapterEntry)
    requires i < |chapters|
    ensures TotalDuration(chapters[i := c]) == TotalDuration(chapters) - DurationOf(chapters[i]) + DurationOf(c)
  {
    var last := |chapters| - 1;
    if i < last {
      assert chapters[i := c][..last] == chapters[..last][i := c];
      TotalDurationUpdate(chapters[..last], i, c);
    } else {
      assert chapters[i := c][..last] == chapters[..last];
    }
  }

  /** How `updateProgress` moves the total reading time. */
  lemma UpsertTotalDuration(chapters: seq<ChapterEntry>, n: int, completion: int, duration: int, now: int)
    ensures var i := FindChapter(chapters, n);
      TotalDuration(Upserted(chapters, n, completion, duration, now))
        == TotalDuration(chapters) + duration - (if i >= 0 then DurationOf(chapters[i]) else 0)
  {
    var i := FindChapter(chapters, n);
    var r := Upserted(chapters, n, completion, duration, now);
    if i >= 0 {
      TotalDurationUpdate(chapters, i, chapters[i].(dateRead := now, completionPercentage := completion, readDuration := Some(duration)));
    } else {
      assert r[..|r| - 1] == chapters;
    }
  }

  class ReadingHistoryDocument {
    var chapters: seq<ChapterEntry>
    var lastChapterRead: int
    var overallProgress: int
    var rating: Option<real>
    var readingStatus: ReadingStatus
    var updatedAt: int

    /** A new document with the schema defaults. */
    constructor (now: int)
      ensures chapters == [] && lastChapterRead == 0 && overallProgress == 0
      ensures rating == None && readingStatus == Reading && updatedAt == now
    {
      chapters := [];
      lastChapterRead := 0;
      overallProgress := 0;
      rating := None;
      readingStatus := Reading;
      updatedAt := now;
    }

    /**
     * `updateProgress(chapterNumber, completionPercentage = 100, readDuration = 0)`.
     * An omitted argument is `None`.
     */
    method UpdateProgress(chapterNumber: int, completionPercentage: Option<int>, readDuration: Option<int>, now: int)
      modifies this
      ensures chapters == Upserted(old(chapters), chapterNumber,
                                   completionPercentage.GetOr(100), readDuration.GetOr(0), now)
      ensures lastChapterRead == if chapterNumber > old(lastChapterRead) then chapterNumber else old(lastChapterRead)
      ensures lastChapterRead >= old(lastChapterRead) && lastChapterRead >= chapterNumber
      ensures UniqueChapters(old(chapters)) ==> UniqueChapters(chapters)
      ensures overallProgress == old(overallProgress) && rating == old(rating) && readingStatus == old(readingStatus)
      ensures updatedAt == now
    {
      var completion := completionPercentage.GetOr(100);
      var duration := readDuration.GetOr(0);
      var existingChapterIndex := -1;
      var i := 0;
      while i < |chapters|
        invariant 0 <= i <= |chapters|
        invariant forall j :: 0 <= j < i ==> chapters[j].chapterNumber != chapterNumber
      {
        if chapters[i].chapterNumber == chapterNumber {
          existingChapterIndex := i;
          break;
        }
        i := i + 1;
      }
      assert existingChapterIndex == FindChapter(chapters, chapterNumber);
      ghost var before := chapters;
      if existingChapterIndex >= 0 {
        var entry := chapters[existingChapterIndex];
        chapters := chapters[existingChapterIndex := entry.(dateRead := now, completionPercentage := completion, readDuration := Some(duration))];
      } else {
        chapters := chapters + [ChapterEntry(chapterNumber, now, Some(duration), completion)];
      }
      if chapterNumber > lastChapterRead {
        lastChapterRead := chapterNumber;
      }
      if UniqueChapters(before) {
        UpsertKeepsUnique(before, chapterNumber, completion, duration, now);
      }
      // `save()` stamps the document.
      updatedAt := now;
    }

    /** `getReadingStats()`. */
    function GetReadingStats(): (s: ReadingStats)
      reads this
      ensures s.totalChapters == |chapters|
      ensures s.totalTimeSpent == TotalDuration(chapters)
      ensures |chapters| > 0 ==> s.averageTimePerChapter * (|chapters| as real) == s.totalTimeSpent as real
      ensures |chapters| == 0 ==> s.averageTimePerChapter == 0.0 && s.totalTimeSpent == 0
      ensures s.lastRead == updatedAt && s.readingStatus == readingStatus
      ensures s.overallProgress == overallProgress && s.rating == rating
    {
      var total := TotalDuration(chapters);
      var count := |chapters|;
      ReadingStats(count, updatedAt, total,
        if count > 0 then total as real / count as real else 0.0,
        readingStatus, overallProgress, rating)
    }
  }
}
