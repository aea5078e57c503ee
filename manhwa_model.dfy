/**
 * The catalog document's own logic (backend/models/Manhwa.js): the
 * `averageRating` virtual, `updateRating` and `getBasicInfo`. The schema's
 * `max: 5` on `popularity.rating` is not assumed: `updateRating` keeps a
 * running sum there.
 */
module ManhwaModel {
  import opened Wrappers

  datatype Status = Ongoing | Completed | Hiatus | Cancelled

  datatype Kind = ManhwaKind | Manhua | Manga | Webtoon | OtherKind

  /** `popularity`; `rating` is the sum of all ratings given so far. */
  datatype Popularity = Popularity(viewCount: int, favoriteCount: int, rating: real, ratingCount: int) {

    /** The `averageRating` virtual. */
    function AverageRating(): (avg: real)
      ensures ratingCount > 0 ==> avg * (ratingCount as real) == rating
      ensures ratingCount <= 0 ==> avg == 0.0
    {
      if ratingCount > 0 then rating / ratingCount as real else 0.0
    }

    /** The `popularity` that `updateRating(r)` leaves behind. */
    function WithRating(r: real): (p: Popularity)
      ensures p.rating == rating + r && p.ratingCount == ratingCount + 1
      ensures p.viewCount == viewCount && p.favoriteCount == favoriteCount
    {
      this.(rating := rating + r, ratingCount := ratingCount + 1)
    }
  }

  /** `popularity` after `updateRating(rs[0])`, ..., `updateRating(rs[|rs| - 1])` in that order. */
  function RatedInOrder(p: Popularity, rs: seq<real>): Popularity
    decreases |rs|
  {
    if rs == [] then p else RatedInOrder(p.WithRating(rs[0]), rs[1..])
  }

  function Sum(rs: seq<real>): real {
    if rs == [] then 0.0 else rs[0] + Sum(rs[1..])
  }

  /** The arithmetic mean of a non-empty list of ratings. */
  function Mean(rs: seq<real>): real
    requires |rs| > 0
  {
    Sum(rs) / |rs| as real
  }

  lemma {:induction false} RatedInOrderSums(p: Popularity, rs: seq<real>)
    ensures RatedInOrder(p, rs).rating == p.rating + Sum(rs)
    ensures RatedInOrder(p, rs).ratingCount == p.ratingCount + |rs|
    ensures RatedInOrder(p, rs).viewCount == p.viewCount
    decreases |rs|
  {
    if rs != [] {
      RatedInOrderSums(p.WithRating(rs[0]), rs[1..]);
    }
  }

  /** From no ratings, the average after the updates `rs` is their arithmetic mean. */
  lemma AverageIsMean(p: Popularity, rs: seq<real>)
    requires p.rating == 0.0 && p.ratingCount == 0 && |rs| > 0
    ensures RatedInOrder(p, rs).AverageRating() == Mean(rs)
  {
    RatedInOrderSums(p, rs);
  }

  /** The listing summary `getBasicInfo` returns. */
  datatype BasicInfo = BasicInfo(
    id: nat, title: string, coverImage: string, genres: seq<string>, status: Status,
    chapters: int, rating: real, author: string, kind: Kind)

  class ManhwaDocument {
    const id: nat
    const title: string
    const coverImage: string
    const thumbnailImage: Option<string>
    const genres: seq<string>
    const status: Status
    const chaptersTotal: int
    const author: string
    const kind: Kind
    var popularity: Popularity

    constructor (id: nat, title: string, coverImage: string, thumbnailImage: Option<string>,
                 genres: seq<string>, status: Status, chaptersTotal: int, author: string, kind: Kind)
      ensures this.id == id && this.title == title && this.coverImage == coverImage
      ensures this.thumbnailImage == thumbnailImage && this.genres == genres && this.status == status
      ensures this.chaptersTotal == chaptersTotal && this.author == author && this.kind == kind
      ensures popularity == Popularity(0, 0, 0.0, 0)
    {
      this.id := id;
      this.title := title;
      this.coverImage := coverImage;
      this.thumbnailImage := thumbnailImage;
      this.genres := genres;
      this.status := status;
      this.chaptersTotal := chaptersTotal;
      this.author := author;
      this.kind := kind;
      popularity := Popularity(0, 0, 0.0, 0);
    }

    /** `updateRating(newRating)` before `save()`: one more rating in the running sum. */
    method UpdateRating(newRating: real)
      modifies this
      ensures popularity == old(popularity).WithRating(newRating)
    {
      popularity := popularity.(rating := popularity.rating + newRating,
                                ratingCount := popularity.ratingCount + 1);
    }

    /** `getBasicInfo()`: the thumbnail when it is a non-empty string, else the cover. */
    function GetBasicInfo(): (info: BasicInfo)
      reads this
      ensures info.coverImage == coverImage <==> thumbnailImage.None? || thumbnailImage.value == "" || thumbnailImage.value == coverImage
      ensures info.coverImage != coverImage ==> thumbnailImage == Some(info.coverImage)
      ensures info.chapters == chaptersTotal
      ensures popularity.ratingCount > 0 ==> info.rating * (popularity.ratingCount as real) == popularity.rating
      ensures popularity.ratingCount <= 0 ==> info.rating == 0.0
      ensures info.id == id && info.title == title && info.genres == genres && info.status == status
      ensures info.author == author && info.kind == kind
    {
      BasicInfo(
        id, title,
        if thumbnailImage.Some? && thumbnailImage.value != "" then thumbnailImage.value else coverImage,
        genres, status, chaptersTotal, popularity.AverageRating(), author, kind)
    }
  }
}
