/**
  Feed queries over the videos table (internal/api/feed/repo.go), the keyset-paged lists built on
  them (internal/api/feed/service.go) and the decoding of their cursors (internal/api/feed/handler.go).
  Times are milliseconds; zero stands for Go's zero time.
*/
module FeedRepo {
  import opened Wrappers
  import opened Ranking
  import opened Paging

  datatype Video = Video(id: nat, authorId: nat, title: string, createTime: int, likesCount: int, popularity: int)

  type Table = map<nat, Video>

  predicate WellFormed(db: Table) {
    forall id | id in db ::
      id == db[id].id && id > 0 && db[id].createTime > 0 && db[id].likesCount >= 0 && db[id].popularity >= 0
  }

  function Rows(db: Table): set<Video> {
    set id | id in db :: db[id]
  }

  // ---------------------------------------------------------------- by likes

  datatype LikesCursor = LikesCursor(likesCount: int, id: nat)

  function LikesKey(v: Video): Key {
    [v.likesCount, v.id]
  }

  /** The WHERE clause. */
  predicate LikesWhere(v: Video, c: LikesCursor) {
    v.likesCount < c.likesCount || (v.likesCount == c.likesCount && v.id < c.id)
  }

  /** The WHERE clause says "strictly after the cursor" in the ORDER BY order. */
  lemma LikesWhereIsBelow(v: Video, c: LikesCursor)
    ensures LikesWhere(v, c) <==> Less(LikesKey(v), [c.likesCount, c.id])
  {
    TwoKeys(v.likesCount, v.id, c.likesCount, c.id);
  }

  lemma TwoKeys(a: int, b: int, x: int, y: int)
    ensures Less([a, b], [x, y]) <==> a < x || (a == x && b < y)
  {
    assert [a, b][1..] == [b] && [x, y][1..] == [y];
    assert Less([b], [y]) <==> b < y by {
      assert [b][1..] == [] && [y][1..] == [];
      LessIrreflexive([]);
    }
  }

  lemma LikesDistinct(db: Table)
    requires WellFormed(db)
    ensures Distinct(Rows(db), LikesKey)
  {
    forall v, w | v in Rows(db) && w in Rows(db) && LikesKey(v) == LikesKey(w) ensures v == w {
      assert LikesKey(v)[1] == LikesKey(w)[1];
    }
  }

  function SelectByLikes(db: Table, cursor: Option<LikesCursor>): set<Video> {
    set v | v in Rows(db) && (cursor.Some? ==> LikesWhere(v, cursor.value))
  }

  function ListLikesCount(db: Table, limit: nat, cursor: Option<LikesCursor>): (page: seq<Video>)
    requires WellFormed(db)
    ensures Elements(page) <= SelectByLikes(db, cursor) && |page| <= limit
  {
    LikesDistinct(db);
    First(SelectByLikes(db, cursor), LikesKey, limit)
  }

  datatype LikesResponse = LikesResponse(
    videos: seq<Video>, nextLikesCountBefore: Option<int>, nextIdBefore: Option<nat>, hasMore: bool)

  function ServeLikes(db: Table, limit: nat, cursor: Option<LikesCursor>): LikesResponse
    requires WellFormed(db)
  {
    var videos := ListLikesCount(db, limit, cursor);
    if videos == [] then LikesResponse(videos, None, None, |videos| == limit)
    else
      var last := videos[|videos| - 1];
      LikesResponse(videos, Some(last.likesCount), Some(last.id), |videos| == limit)
  }

  /** A request's cursor, or its refusal. */
  datatype Decoded<+T> = BadRequest | Cursor(cursor: Option<T>)

  function DecodeLikes(likesCountBefore: Option<int>, idBefore: Option<nat>): Decoded<LikesCursor> {
    if likesCountBefore.None? && idBefore.None? then Cursor(None)
    else if likesCountBefore.None? || idBefore.None? then BadRequest
    else if likesCountBefore.value < 0 then BadRequest
    else if idBefore.value == 0 then
      if likesCountBefore.value != 0 then BadRequest else Cursor(None)
    else Cursor(Some(LikesCursor(likesCountBefore.value, idBefore.value)))
  }

  /** A request without a cursor, or with two zeros, is for the first page; one with half a cursor, a negative
      count, or a count without an id is refused; any other continues after the row with that count and id. */
  lemma LikesRequests(count: Option<int>, id: Option<nat>)
    ensures DecodeLikes(None, None) == Cursor(None) && DecodeLikes(Some(0), Some(0)) == Cursor(None)
    ensures DecodeLikes(count, id) == BadRequest
            <==> (count.None? && id.Some?) || (count.Some? && id.None?)
                 || (count.Some? && id.Some? && (count.value < 0 || (count.value > 0 && id.value == 0)))
    ensures count.Some? && id.Some? && count.value >= 0 && id.value > 0 ==>
              DecodeLikes(count, id) == Cursor(Some(LikesCursor(count.value, id.value)))
  {}

  function LikesCursorKey(cursor: Option<LikesCursor>): Option<Key> {
    match cursor
    case None => None
    case Some(c) => Some([c.likesCount, c.id])
  }

  lemma SelectIsRemaining(db: Table, cursor: Option<LikesCursor>)
    ensures SelectByLikes(db, cursor) == Remaining(Rows(db), LikesKey, LikesCursorKey(cursor))
  {
    forall v | v in Rows(db) && cursor.Some?
      ensures LikesWhere(v, cursor.value) <==> Less(LikesKey(v), LikesCursorKey(cursor).value)
    {
      LikesWhereIsBelow(v, cursor.value);
    }
  }

  lemma LikesIsPage(db: Table, limit: nat, cursor: Option<LikesCursor>)
    requires WellFormed(db)
    ensures Distinct(Rows(db), LikesKey)
    ensures ListLikesCount(db, limit, cursor) == Page(Rows(db), LikesKey, LikesCursorKey(cursor), limit)
  {
    LikesDistinct(db);
    SelectIsRemaining(db, cursor);
  }

  /** Every page that shows anything comes with the cursor of its last video. */
  lemma LikesNext(db: Table, limit: nat, cursor: Option<LikesCursor>)
    requires WellFormed(db)
    ensures var r := ServeLikes(db, limit, cursor);
            && (r.hasMore <==> |r.videos| == limit)
            && (r.videos != [] ==>
                  && r.nextLikesCountBefore == Some(r.videos[|r.videos| - 1].likesCount)
                  && r.nextIdBefore == Some(r.videos[|r.videos| - 1].id))
            && (r.videos == [] ==> r.nextLikesCountBefore == None && r.nextIdBefore == None)
  {}

  /** A cursor that a response returned is accepted and stands for the key of its last video. */
  lemma LikesCursorReturns(db: Table, limit: nat, cursor: Option<LikesCursor>)
    requires WellFormed(db) && limit > 0
    requires ServeLikes(db, limit, cursor).hasMore
    ensures var r := ServeLikes(db, limit, cursor);
            var d := DecodeLikes(r.nextLikesCountBefore, r.nextIdBefore);
            d.Cursor? && LikesCursorKey(d.cursor) == NextCursor(r.videos, LikesKey)
  {
    var videos := ListLikesCount(db, limit, cursor);
    assert videos[|videos| - 1] in Elements(videos);
    assert videos[|videos| - 1] in Rows(db);
  }

  /** The pages of a client that sends back what it got while there is more. */
  function FollowLikes(db: Table, limit: nat, cursor: Option<LikesCursor>): seq<seq<Video>>
    requires WellFormed(db) && limit > 0
    decreases |SelectByLikes(db, cursor)|
  {
    var r := ServeLikes(db, limit, cursor);
    if !r.hasMore then [r.videos]
    else
      var d := DecodeLikes(r.nextLikesCountBefore, r.nextIdBefore);
      LikesShrinks(db, limit, cursor);
      [r.videos] + FollowLikes(db, limit, d.cursor)
  }

  lemma LikesShrinks(db: Table, limit: nat, cursor: Option<LikesCursor>)
    requires WellFormed(db) && limit > 0
    requires ServeLikes(db, limit, cursor).hasMore
    ensures var r := ServeLikes(db, limit, cursor);
            var d := DecodeLikes(r.nextLikesCountBefore, r.nextIdBefore);
            d.Cursor? && |SelectByLikes(db, d.cursor)| < |SelectByLikes(db, cursor)|
  {
    LikesCursorReturns(db, limit, cursor);
    var r := ServeLikes(db, limit, cursor);
    var d := DecodeLikes(r.nextLikesCountBefore, r.nextIdBefore);
    LikesIsPage(db, limit, cursor);
    SelectIsRemaining(db, cursor);
    SelectIsRemaining(db, d.cursor);
    PageThenRest(Rows(db), LikesKey, LikesCursorKey(cursor), limit);
  }

  lemma {:induction false} FollowLikesIsPages(db: Table, limit: nat, cursor: Option<LikesCursor>)
    requires WellFormed(db) && limit > 0
    ensures Distinct(Rows(db), LikesKey)
    ensures FollowLikes(db, limit, cursor) == Pages(Rows(db), LikesKey, LikesCursorKey(cursor), limit)
    decreases |SelectByLikes(db, cursor)|
  {
    LikesIsPage(db, limit, cursor);
    var r := ServeLikes(db, limit, cursor);
    if r.hasMore {
      LikesCursorReturns(db, limit, cursor);
      LikesShrinks(db, limit, cursor);
      FollowLikesIsPages(db, limit, DecodeLikes(r.nextLikesCountBefore, r.nextIdBefore).cursor);
    }
  }

  /** With any ties, following the returned cursors from the first page lists the whole table by
      (likes_count, id) descending, every video once, and stops at the first page that is not full. */
  lemma LikesPagingComplete(db: Table, limit: nat)
    requires WellFormed(db) && limit > 0
    ensures Distinct(Rows(db), LikesKey)
    ensures Concat(FollowLikes(db, limit, None)) == Ranked(Rows(db), LikesKey)
    ensures FullUpToLast(FollowLikes(db, limit, None), limit)
  {
    FollowLikesIsPages(db, limit, None);
    PagesPartition(Rows(db), LikesKey, None, limit);
  }

  // ---------------------------------------------------------------- by popularity, from the database

  datatype PopularityCursor = PopularityCursor(popularity: int, time: int, id: nat)

  function PopularityKey(v: Video): Key {
    [v.popularity, v.createTime, v.id]
  }

  predicate PopularityWhere(v: Video, c: PopularityCursor) {
    || v.popularity < c.popularity
    || (v.popularity == c.popularity && v.createTime < c.time)
    || (v.popularity == c.popularity && v.createTime == c.time && v.id < c.id)
  }

  lemma PopularityWhereIsBelow(v: Video, c: PopularityCursor)
    ensures PopularityWhere(v, c) <==> Less(PopularityKey(v), [c.popularity, c.time, c.id])
  {
    assert PopularityKey(v)[1..] == [v.createTime, v.id];
    assert [c.popularity, c.time, c.id][1..] == [c.time, c.id];
    TwoKeys(v.createTime, v.id, c.time, c.id);
  }

  lemma PopularityDistinct(db: Table)
    requires WellFormed(db)
    ensures Distinct(Rows(db), PopularityKey)
  {
    forall v, w | v in Rows(db) && w in Rows(db) && PopularityKey(v) == PopularityKey(w) ensures v == w {
      assert PopularityKey(v)[2] == PopularityKey(w)[2];
    }
  }

  /** A cursor without a time or an id is ignored. */
  predicate Complete(c: PopularityCursor) {
    c.time != 0 && c.id > 0
  }

  function SelectByPopularity(db: Table, c: PopularityCursor): set<Video> {
    set v | v in Rows(db) && (Complete(c) ==> PopularityWhere(v, c))
  }

  function ListByPopularity(db: Table, limit: nat, c: PopularityCursor): (page: seq<Video>)
    requires WellFormed(db)
    ensures Elements(page) <= SelectByPopularity(db, c) && |page| <= limit
  {
    PopularityDistinct(db);
    First(SelectByPopularity(db, c), PopularityKey, limit)
  }

  datatype PopularityResponse = PopularityResponse(videos: seq<Video>, next: Option<PopularityCursor>, hasMore: bool)

  function ServePopularity(db: Table, limit: nat, c: PopularityCursor): PopularityResponse
    requires WellFormed(db)
  {
    var videos := ListByPopularity(db, limit, c);
    if videos == [] then PopularityResponse(videos, None, |videos| == limit)
    else
      var last := videos[|videos| - 1];
      PopularityResponse(videos, Some(PopularityCursor(last.popularity, last.createTime, last.id)), |videos| == limit)
  }

  /** What the handler passes on: the zero cursor when none was sent, otherwise the three values, of
      which the time and the id must both be present. */
  function DecodePopularity(popularity: int, before: int, idBefore: Option<nat>): Decoded<PopularityCursor> {
    if popularity < 0 then BadRequest
    else if before == 0 && idBefore.None? then Cursor(Some(PopularityCursor(0, 0, 0)))
    else if before == 0 || idBefore.None? || idBefore.value == 0 then BadRequest
    else Cursor(Some(PopularityCursor(popularity, before, idBefore.value)))
  }

  /** The same for three values: without a time and an id the request is for the first page. */
  lemma PopularityRequests(popularity: int, before: int, id: Option<nat>)
    ensures popularity >= 0 ==> DecodePopularity(popularity, 0, None) == Cursor(Some(PopularityCursor(0, 0, 0)))
    ensures DecodePopularity(popularity, before, id) == BadRequest
            <==> popularity < 0 || (before != 0 && (id.None? || id.value == 0)) || (before == 0 && id.Some?)
    ensures popularity >= 0 && before != 0 && id.Some? && id.value > 0 ==>
              DecodePopularity(popularity, before, id) == Cursor(Some(PopularityCursor(popularity, before, id.value)))
  {}

  /** The first page is of the whole table. */
  lemma FirstPageSelectsAll(db: Table)
    ensures SelectByLikes(db, None) == Rows(db) && SelectByPopularity(db, PopularityCursor(0, 0, 0)) == Rows(db)
  {}

  function PopularityCursorKey(c: PopularityCursor): Option<Key> {
    if Complete(c) then Some([c.popularity, c.time, c.id]) else None
  }

  lemma PopularityIsPage(db: Table, limit: nat, c: PopularityCursor)
    requires WellFormed(db)
    ensures Distinct(Rows(db), PopularityKey)
    ensures SelectByPopularity(db, c) == Remaining(Rows(db), PopularityKey, PopularityCursorKey(c))
    ensures ListByPopularity(db, limit, c) == Page(Rows(db), PopularityKey, PopularityCursorKey(c), limit)
  {
    PopularityDistinct(db);
    forall v | v in Rows(db) ensures PopularityWhere(v, c) <==> Less(PopularityKey(v), [c.popularity, c.time, c.id]) {
      PopularityWhereIsBelow(v, c);
    }
    assert SelectByPopularity(db, c) == Remaining(Rows(db), PopularityKey, PopularityCursorKey(c));
  }

  /** A returned cursor is that of the last video, and complete. */
  lemma PopularityNext(db: Table, limit: nat, c: PopularityCursor)
    requires WellFormed(db) && ServePopularity(db, limit, c).videos != []
    ensures var r := ServePopularity(db, limit, c);
            && (r.hasMore <==> |r.videos| == limit)
            && r.videos != [] && r.next.Some? && Complete(r.next.value) && r.next.value.popularity >= 0
            && PopularityCursorKey(r.next.value) == NextCursor(r.videos, PopularityKey)
  {
    var r := ServePopularity(db, limit, c);
    assert r.videos[|r.videos| - 1] in Elements(r.videos);
    assert r.videos[|r.videos| - 1] in Rows(db);
  }

  lemma PopularityShrinks(db: Table, limit: nat, c: PopularityCursor, next: PopularityCursor)
    requires WellFormed(db) && limit > 0 && |ListByPopularity(db, limit, c)| == limit
    requires PopularityCursorKey(next) == NextCursor(ListByPopularity(db, limit, c), PopularityKey)
    ensures |SelectByPopularity(db, next)| < |SelectByPopularity(db, c)|
  {
    PopularityIsPage(db, limit, c);
    PopularityIsPage(db, limit, next);
    PageThenRest(Rows(db), PopularityKey, PopularityCursorKey(c), limit);
  }

  /** A returned cursor is accepted, complete, and stands for the key of the last video; what it
      leaves is smaller. */
  lemma PopularityCursorReturns(db: Table, limit: nat, c: PopularityCursor)
    requires WellFormed(db) && limit > 0
    requires ServePopularity(db, limit, c).hasMore
    ensures var r := ServePopularity(db, limit, c);
            r.next.Some? && DecodePopularity(r.next.value.popularity, r.next.value.time, Some(r.next.value.id)) ==
                Cursor(r.next)
    ensures var r := ServePopularity(db, limit, c);
            && PopularityCursorKey(r.next.value) == NextCursor(r.videos, PopularityKey)
            && |SelectByPopularity(db, r.next.value)| < |SelectByPopularity(db, c)|
  {
    PopularityNext(db, limit, c);
    PopularityShrinks(db, limit, c, ServePopularity(db, limit, c).next.value);
  }

  function FollowPopularity(db: Table, limit: nat, c: PopularityCursor): seq<seq<Video>>
    requires WellFormed(db) && limit > 0
    decreases |SelectByPopularity(db, c)|
  {
    var r := ServePopularity(db, limit, c);
    if !r.hasMore then [r.videos]
    else
      PopularityCursorReturns(db, limit, c);
      [r.videos] + FollowPopularity(db, limit, r.next.value)
  }

  lemma {:induction false} FollowPopularityIsPages(db: Table, limit: nat, c: PopularityCursor)
    requires WellFormed(db) && limit > 0
    ensures Distinct(Rows(db), PopularityKey)
    ensures FollowPopularity(db, limit, c) == Pages(Rows(db), PopularityKey, PopularityCursorKey(c), limit)
    decreases |SelectByPopularity(db, c)|
  {
    PopularityIsPage(db, limit, c);
    var r := ServePopularity(db, limit, c);
    if r.hasMore {
      PopularityCursorReturns(db, limit, c);
      FollowPopularityIsPages(db, limit, r.next.value);
    }
  }

  /** With any ties, following the returned cursors lists the whole table by (popularity,
      create_time, id) descending, every video once. */
  lemma PopularityPagingComplete(db: Table, limit: nat)
    requires WellFormed(db) && limit > 0
    ensures Distinct(Rows(db), PopularityKey)
    ensures Concat(FollowPopularity(db, limit, PopularityCursor(0, 0, 0))) == Ranked(Rows(db), PopularityKey)
    ensures FullUpToLast(FollowPopularity(db, limit, PopularityCursor(0, 0, 0)), limit)
  {
    FollowPopularityIsPages(db, limit, PopularityCursor(0, 0, 0));
    PagesPartition(Rows(db), PopularityKey, None, limit);
  }
}
