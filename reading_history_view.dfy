/**
 * The arithmetic of the reading-history list in the frontend
 * (frontend/components/ReadingHistory.js): which items a page shows, which
 * pagination buttons are rendered, how many rating stars are filled and
 * which chapter the "Continue" link opens. The rendered markup is reduced
 * to the values it is built from.
 */
module ReadingHistoryView {
  import opened Wrappers

  const ItemsPerPage: nat := 10

  /** `Math.ceil(n / ITEMS_PER_PAGE)`. */
  function TotalPages(n: nat): (t: nat)
    ensures (t - 1) * ItemsPerPage < n <= t * ItemsPerPage || (n == 0 && t == 0)
    ensures t <= 1 <==> n <= ItemsPerPage
  {
    (n + ItemsPerPage - 1) / ItemsPerPage
  }

  /** A JavaScript `slice` index: negative counts from the end, then clamp to 0..len. */
  function SliceIndex(i: int, len: nat): (r: nat)
    ensures r <= len
    ensures 0 <= i <= len ==> r == i
  {
    if i < 0 then (if len + i < 0 then 0 else len + i)
    else if i > len then len else i
  }

  /** `s.slice(start, end)`. */
  function Slice<T>(s: seq<T>, start: int, end: int): seq<T> {
    var b := SliceIndex(start, |s|);
    var e := SliceIndex(end, |s|);
    if b <= e then s[b..e] else []
  }

  /** `currentItems`: the slice from `(page - 1) * 10` to `(page - 1) * 10 + 10`. */
  function CurrentItems<T>(items: seq<T>, currentPage: int): (r: seq<T>)
    ensures |r| <= ItemsPerPage
    ensures currentPage >= 1 ==>
      var start := (currentPage - 1) * ItemsPerPage;
      && |r| == (if start >= |items| then 0 else if |items| - start < ItemsPerPage then |items| - start else ItemsPerPage)
      && (forall i :: 0 <= i < |r| ==> start + i < |items| && r[i] == items[start + i])
  {
    var startIndex := (currentPage - 1) * ItemsPerPage;
    Slice(items, startIndex, startIndex + ItemsPerPage)
  }

  /** Page `p` (counting from 1) shows the items `[(p - 1) * 10, min(n, p * 10))`, none beyond the last page. */
  lemma PageShowsItsWindow<T>(items: seq<T>, p: int)
    requires p >= 1
    ensures var n := |items|;
      CurrentItems(items, p) == if (p - 1) * 10 >= n then [] else items[(p - 1) * 10 .. if p * 10 < n then p * 10 else n]
    ensures |CurrentItems(items, p)| <= ItemsPerPage
    ensures p <= TotalPages(|items|) ==> |CurrentItems(items, p)| > 0
  {
  }

  /** Consecutive pages show consecutive, non-overlapping parts of the list, covering all of it. */
  lemma {:induction false} PagesCoverList<T>(items: seq<T>, pages: nat)
    requires pages <= TotalPages(|items|)
    ensures Concat(items, pages) == items[..if pages * 10 < |items| then pages * 10 else |items|]
  {
    if pages > 0 {
      PagesCoverList(items, pages - 1);
      PageShowsItsWindow(items, pages);
    }
  }

  /** The pages 1..pages one after the other. */
  function Concat<T>(items: seq<T>, pages: nat): seq<T> {
    if pages == 0 then [] else Concat(items, pages - 1) + CurrentItems(items, pages)
  }

  /** One pagination button: first, previous, a numbered page, next and last. */
  datatype Button =
    | First(disabled: bool)
    | Prev(disabled: bool)
    | PageNumber(page: int, active: bool)
    | Next(disabled: bool)
    | Last(disabled: bool)

  function Min(a: int, b: int): int { if a < b then a else b }
  function Max(a: int, b: int): int { if a < b then b else a }

  /**
   * `renderPagination()`: nothing for at most one page; otherwise first and
   * previous, a run of at most five consecutive numbered pages, then next and
   * last. Numbered buttons sit at indexes 2 .. |buttons| - 3.
   */
  method RenderPagination(currentPage: int, totalPages: int) returns (r: Option<seq<Button>>)
    ensures r.None? <==> totalPages <= 1
    ensures r.Some? ==> |r.value| == 4 + Min(5, totalPages)
    ensures r.Some? ==> r.value[0] == First(currentPage == 1) && r.value[1] == Prev(currentPage == 1)
    ensures r.Some? ==> r.value[|r.value| - 2] == Next(currentPage == totalPages)
    ensures r.Some? ==> r.value[|r.value| - 1] == Last(currentPage == totalPages)
    ensures r.Some? ==> forall j :: 2 <= j < |r.value| - 2 ==>
      r.value[j].PageNumber? && (r.value[j].active <==> r.value[j].page == currentPage)
    ensures r.Some? ==> forall j :: 2 <= j < |r.value| - 3 ==> r.value[j + 1].page == r.value[j].page + 1
    ensures r.Some? ==> 1 <= r.value[2].page && r.value[|r.value| - 3].page <= totalPages
    ensures r.Some? && 1 <= currentPage <= totalPages ==>
      r.value[2].page <= currentPage <= r.value[|r.value| - 3].page
  {
    if totalPages <= 1 {
      return None;
    }
    var pages := [First(currentPage == 1), Prev(currentPage == 1)];
    var startPage := Max(1, currentPage - 2);
    var endPage := Min(totalPages, startPage + 4);
    if endPage - startPage < 4 {
      startPage := Max(1, endPage - 4);
    }
    assert endPage - startPage + 1 == Min(5, totalPages);
    var i := startPage;
    while i <= endPage
      invariant startPage <= i <= endPage + 1
      invariant |pages| == 2 + (i - startPage)
      invariant pages[0] == First(currentPage == 1) && pages[1] == Prev(currentPage == 1)
      invariant forall j :: 2 <= j < |pages| ==> pages[j] == PageNumber(startPage + j - 2, currentPage == startPage + j - 2)
    {
      pages := pages + [PageNumber(i, currentPage == i)];
      i := i + 1;
    }
    pages := pages + [Next(currentPage == totalPages), Last(currentPage == totalPages)];
    return Some(pages);
  }

  /** `Math.round`: halves round up. */
  function Round(x: real): (n: int)
    ensures x - 0.5 < n as real <= x + 0.5
  {
    (x + 0.5).Floor
  }

  function Clamp(n: int, lo: int, hi: int): int { if n < lo then lo else if n > hi then hi else n }

  /** `renderStars(rating)`: five stars, `true` where the star is filled. */
  method RenderStars(rating: real) returns (stars: seq<bool>)
    ensures |stars| == 5
    ensures forall k :: 0 <= k < 5 ==> (stars[k] <==> k < Clamp(Round(rating), 0, 5))
  {
    stars := [];
    var roundedRating := Round(rating);
    var i := 1;
    while i <= 5
      invariant 1 <= i <= 6 && |stars| == i - 1
      invariant forall k :: 0 <= k < i - 1 ==> (stars[k] <==> k + 1 <= roundedRating)
    {
      stars := stars + [i <= roundedRating];
      i := i + 1;
    }
  }

  /** What one history entry shows. */
  datatype HistoryItem = HistoryItem(
    coverImage: string, thumbnailImage: Option<string>, lastChapterRead: int, overallProgress: int, rating: Option<real>)

  datatype ItemView = ItemView(imageSrc: string, progressWidth: int, stars: Option<seq<bool>>, continueChapter: int)

  /**
   * `ReadingHistoryItem`: the image (thumbnail when it is a non-empty string),
   * the stars only for a positive rating, and a "Continue" link to the chapter
   * after the last one read.
   */
  method RenderHistoryItem(item: HistoryItem) returns (v: ItemView)
    ensures v.continueChapter == item.lastChapterRead + 1
    ensures v.stars.Some? <==> item.rating.Some? && item.rating.value > 0.0
    ensures v.stars.Some? ==> |v.stars.value| == 5
    ensures v.stars.Some? ==> forall k :: 0 <= k < 5 ==> (v.stars.value[k] <==> k < Clamp(Round(item.rating.value), 0, 5))
    ensures v.progressWidth == item.overallProgress
    ensures v.imageSrc == if item.thumbnailImage.Some? && item.thumbnailImage.value != "" then item.thumbnailImage.value else item.coverImage
  {
    var stars: Option<seq<bool>> := None;
    if item.rating.Some? && item.rating.value > 0.0 {
      var s := RenderStars(item.rating.value);
      stars := Some(s);
    }
    var src := if item.thumbnailImage.Some? && item.thumbnailImage.value != "" then item.thumbnailImage.value else item.coverImage;
    v := ItemView(src, item.overallProgress, stars, item.lastChapterRead + 1);
  }
}
