/**
 * The database side of the recommendation pipeline, replaced by functions
 * over in-memory collections: the catalog is a sequence of manhwa documents
 * in natural order and the reading-history collection a sequence of rows.
 * A `find` is a filter that keeps natural order, `sort` is the stable sort of
 * module Sorting, and `skip`/`limit` is `Page`.
 */
module CatalogQueries {
  import opened Wrappers
  import opened Sorting

  type Id = nat

  /** The fields of a catalog document the scorers read. */
  datatype Manhwa = Manhwa(
    id: Id, genres: seq<string>, tags: seq<string>, artStyle: seq<string>, viewCount: int, isActive: bool)

  /** One reading-history document: a user, a manhwa and an optional 0..5 rating. */
  datatype HistoryRow = HistoryRow(user: Id, manhwa: Id, rating: Option<real>)

  /**
   * A catalog query: `isActive: true` and one condition per present field.
   * `xIn` is `{ x: { $in: [...] } }` on an array field (some element is
   * listed), `idIn` and `idNotIn` are `$in` and `$nin` on `_id`.
   */
  datatype Query = Query(
    genresIn: Option<set<string>>, tagsIn: Option<set<string>>, artStyleIn: Option<set<string>>,
    idIn: Option<set<Id>>, idNotIn: Option<set<Id>>)

  /** `$in` on an array field: some element of the field is among the values. */
  predicate AnyIn(field: seq<string>, values: set<string>) {
    exists i :: 0 <= i < |field| && field[i] in values
  }

  predicate Matches(q: Query, m: Manhwa) {
    && m.isActive
    && (q.genresIn.Some? ==> AnyIn(m.genres, q.genresIn.value))
    && (q.tagsIn.Some? ==> AnyIn(m.tags, q.tagsIn.value))
    && (q.artStyleIn.Some? ==> AnyIn(m.artStyle, q.artStyleIn.value))
    && (q.idIn.Some? ==> m.id in q.idIn.value)
    && (q.idNotIn.Some? ==> m.id !in q.idNotIn.value)
  }

  /** `Manhwa.find(q)`: the matching documents in natural order. */
  function Find(catalog: seq<Manhwa>, q: Query): (r: seq<Manhwa>)
    ensures |r| <= |catalog|
    ensures forall m :: m in r <==> m in catalog && Matches(q, m)
  {
    if catalog == [] then []
    else
      var rest := Find(catalog[1..], q);
      assert forall m :: m in catalog <==> m == catalog[0] || m in catalog[1..];
      if Matches(q, catalog[0]) then [catalog[0]] + rest else rest
  }

  /** The sort key of `sort({ 'popularity.viewCount': -1 })`. */
  function ViewCount(m: Manhwa): real {
    m.viewCount as real
  }

  /** `.skip(offset).limit(limit)`; a limit of 0 means no limit. */
  function Page<T>(s: seq<T>, offset: nat, limit: nat): (r: seq<T>)
    ensures offset >= |s| ==> r == []
    ensures offset < |s| ==> |r| == if limit == 0 || offset + limit > |s| then |s| - offset else limit
    ensures forall i :: 0 <= i < |r| ==> offset + i < |s| && r[i] == s[offset + i]
  {
    var rest := if offset <= |s| then s[offset..] else [];
    if limit == 0 then rest else Take(rest, limit)
  }

  /** A page of a sorted sequence is sorted. */
  lemma PageSorted<T>(s: seq<T>, offset: nat, limit: nat, key: T -> real)
    requires SortedDesc(s, key)
    ensures SortedDesc(Page(s, offset, limit), key)
  {
    var r := Page(s, offset, limit);
    forall i, j | 0 <= i < j < |r| ensures key(r[i]) >= key(r[j]) {
      assert r[i] == s[offset + i] && r[j] == s[offset + j];
    }
  }

  /** The ids of the manhwas `user` has a history row for. */
  function ReadIds(history: seq<HistoryRow>, user: Id): (ids: set<Id>)
    ensures forall m :: m in ids <==> exists r :: r in history && r.user == user && r.manhwa == m
  {
    set r | r in history && r.user == user :: r.manhwa
  }

  /** `ReadingHistory.find({ user })`, in natural order. */
  function UserRows(history: seq<HistoryRow>, user: Id): (rows: seq<HistoryRow>)
    ensures |rows| <= |history|
    ensures forall r :: r in rows <==> r in history && r.user == user
  {
    if history == [] then []
    else
      var rest := UserRows(history[1..], user);
      assert forall r :: r in history <==> r == history[0] || r in history[1..];
      if history[0].user == user then [history[0]] + rest else rest
  }

  /** `populate('manhwa')`: the catalog document with that id, or `null` when there is none. */
  function Populate(catalog: seq<Manhwa>, id: Id): (r: Option<Manhwa>)
    ensures r.Some? ==> r.value in catalog && r.value.id == id
    ensures r.None? <==> forall m :: m in catalog ==> m.id != id
  {
    if catalog == [] then None
    else if catalog[0].id == id then Some(catalog[0])
    else
      assert forall m :: m in catalog <==> m == catalog[0] || m in catalog[1..];
      Populate(catalog[1..], id)
  }

  /** Every row's manhwa populates. */
  predicate AllPopulate(catalog: seq<Manhwa>, rows: seq<HistoryRow>) {
    forall i :: 0 <= i < |rows| ==> Populate(catalog, rows[i].manhwa).Some?
  }
}
