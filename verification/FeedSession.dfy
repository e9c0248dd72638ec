/**
  A reader who scrolls through the newest-first feed: every request sends back the time of the last
  video shown (internal/api/feed/service.go and handler.go).  Between requests videos are published
  and the timeline is added to, trimmed or rebuilt.
*/
module FeedSession {
  import opened Ranking
  import opened FeedRepo
  import opened FeedLatest
  import opened FeedQuery
  import opened FeedService
  import C = EntityCache

  /** One request: its cursor, the table, the videos it could see, and the page that came back. */
  datatype Visit = Visit(before: int, db: Table, seen: set<Video>, page: seq<Video>)

  /** Rows are only added, and keep their creation times. */
  predicate Grows(db: Table, db': Table) {
    forall id | id in db :: id in db' && db'[id].createTime == db[id].createTime
  }

  predicate VisitOk(limit: nat, visit: Visit) {
    WellFormed(visit.db) && Sound(visit.db, visit.before, limit, visit.page)
  }

  /** A full page is followed by a request with the time of its last video. */
  predicate Linked(limit: nat, visit: Visit, next: Visit) {
    |visit.page| == limit > 0 && Grows(visit.db, next.db) && next.before == NextTime(visit.page)
  }

  /** The reader goes on while pages are full.  Anything may fail, as long as pages come back. */
  predicate Follows(limit: nat, visits: seq<Visit>) {
    && (forall i {:trigger VisitOk(limit, visits[i])} | 0 <= i < |visits| :: VisitOk(limit, visits[i]))
    && (forall i, j {:trigger Linked(limit, visits[i], visits[j])} | 0 <= i < |visits| - 1 && j == i + 1 ::
          Linked(limit, visits[i], visits[j]))
  }

  lemma FollowsRest(limit: nat, visits: seq<Visit>)
    requires Follows(limit, visits) && |visits| > 1
    ensures Follows(limit, visits[1..])
    ensures VisitOk(limit, visits[0]) && Linked(limit, visits[0], visits[1])
    ensures visits[1..][0] == visits[1] && visits[1..][|visits[1..]| - 1] == visits[|visits| - 1]
  {
    var rest := visits[1..];
    assert VisitOk(limit, visits[0]) && Linked(limit, visits[0], visits[1]);
    forall i | 0 <= i < |rest| ensures VisitOk(limit, rest[i]) {
      assert rest[i] == visits[i + 1] && VisitOk(limit, visits[i + 1]);
    }
    forall i, j | 0 <= i < |rest| - 1 && j == i + 1 ensures Linked(limit, rest[i], rest[j]) {
      assert rest[i] == visits[i + 1] && rest[j] == visits[i + 2] && Linked(limit, visits[i + 1], visits[i + 2]);
    }
  }

  function Shown(visits: seq<Visit>): seq<Video> {
    if visits == [] then [] else visits[0].page + Shown(visits[1..])
  }

  function LastDb(visits: seq<Visit>): Table
    requires visits != []
  {
    visits[|visits| - 1].db
  }

  lemma {:induction false} GrowsThroughout(limit: nat, visits: seq<Visit>)
    requires Follows(limit, visits) && visits != []
    ensures Grows(visits[0].db, LastDb(visits)) && WellFormed(LastDb(visits))
  {
    if |visits| > 1 {
      FollowsRest(limit, visits);
      GrowsThroughout(limit, visits[1..]);
    } else {
      assert VisitOk(limit, visits[0]);
    }
  }

  lemma SoundGrows(db: Table, db': Table, before: int, limit: nat, page: seq<Video>)
    requires Sound(db, before, limit, page) && Grows(db, db')
    ensures Sound(db', before, limit, page)
  {
    forall v | v in page ensures RowBelow(db', before, v) {
      assert RowBelow(db, before, v);
    }
  }

  lemma SoundJoin(db: Table, before: int, page: seq<Video>, rest: seq<Video>)
    requires WellFormed(db) && page != []
    requires Sound(db, before, |page|, page) && Sound(db, NextTime(page), |rest|, rest)
    ensures Sound(db, before, |page + rest|, page + rest)
  {
    JoinSound(db, before, |page| + |rest| + 1, page, NextTime(page), rest);
  }

  /** Whatever fails, is published, trimmed or rebuilt in between, and whatever ties there are: what is
      shown never gets newer, over all pages, no video is shown twice, and all of them are rows. */
  lemma {:induction false} NeverRepeats(limit: nat, visits: seq<Visit>)
    requires Follows(limit, visits) && visits != []
    ensures Sound(LastDb(visits), visits[0].before, |Shown(visits)|, Shown(visits))
  {
    var page, rest := visits[0].page, visits[1..];
    assert VisitOk(limit, visits[0]);
    GrowsThroughout(limit, visits);
    SoundGrows(visits[0].db, LastDb(visits), visits[0].before, limit, page);
    if |visits| == 1 {
      assert Shown(visits) == page;
    } else {
      FollowsRest(limit, visits);
      NeverRepeats(limit, rest);
      SoundJoin(LastDb(visits), visits[0].before, page, Shown(rest));
    }
  }

  /** The ids of an ordered listing are different, and there are no more of them than rows. */
  lemma {:induction false} ShownFits(shown: seq<Video>, db: Table)
    requires Ordered(shown) && forall v | v in shown :: v.id in db
    ensures |shown| <= |db|
  {
    if shown != [] {
      var last := shown[|shown| - 1];
      var init := shown[..|shown| - 1];
      forall v | v in init ensures v.id in db - {last.id} {
        var i :| 0 <= i < |init| && init[i] == v;
        assert shown[i] == v;
      }
      assert last in shown;
      ShownFits(init, db - {last.id});
      assert db.Keys == (db - {last.id}).Keys + {last.id};
    }
  }

  /** Pages before the last are full. */
  lemma {:induction false} ShownLength(limit: nat, visits: seq<Visit>)
    requires Follows(limit, visits) && visits != []
    ensures |Shown(visits)| >= (|visits| - 1) * limit
  {
    if |visits| > 1 {
      FollowsRest(limit, visits);
      ShownLength(limit, visits[1..]);
      LessOne(|visits| - 1, limit);
    }
  }

  lemma LessOne(n: nat, limit: nat)
    requires n > 0
    ensures n * limit == (n - 1) * limit + limit
  {}

  /** Scrolling ends: the full pages fit into the table as it was at the end. */
  lemma PagesBounded(limit: nat, visits: seq<Visit>)
    requires Follows(limit, visits) && visits != []
    ensures (|visits| - 1) * limit <= |LastDb(visits)|
  {
    NeverRepeats(limit, visits);
    forall v | v in Shown(visits) ensures v.id in LastDb(visits) {
      assert RowBelow(LastDb(visits), visits[0].before, v);
    }
    ShownFits(Shown(visits), LastDb(visits));
    ShownLength(limit, visits);
  }

  // ---------------------------------------------------------------- exactly what is missed

  /** The page is a whole answer of the query over what the request could see, up to cached counters. */
  ghost predicate VisitExact(limit: nat, visit: Visit) {
    exists whole :: IsQuery(Before(visit.seen, visit.before), limit, whole) && C.SameTimes(visit.page, whole)
  }

  /** Every request was answered in full. */
  ghost predicate Exact(limit: nat, visits: seq<Visit>) {
    forall i {:trigger VisitExact(limit, visits[i])} | 0 <= i < |visits| :: VisitExact(limit, visits[i])
  }

  /** The row was there and could be seen, whatever the cursor. */
  predicate InView(visit: Visit, id: nat) {
    id in visit.db && visit.db[id] in visit.seen
  }

  predicate VisibleThroughout(visits: seq<Visit>, id: nat) {
    forall i {:trigger InView(visits[i], id)} | 0 <= i < |visits| :: InView(visits[i], id)
  }

  predicate BelowCursor(visit: Visit, id: nat)
    requires id in visit.db
  {
    visit.before != 0 ==> visit.db[id].createTime < visit.before
  }

  predicate Lists(shown: seq<Video>, id: nat) {
    exists i :: 0 <= i < |shown| && shown[i].id == id
  }

  /** The page ends at a video of the same millisecond, without having listed this one. */
  predicate CutsOff(visit: Visit, id: nat) {
    && visit.page != [] && id in visit.db && visit.db[id].createTime == NextTime(visit.page)
    && !Lists(visit.page, id)
  }

  /** Some page with a next one does. */
  predicate CutOff(visits: seq<Visit>, id: nat) {
    exists i {:trigger CutsOff(visits[i], id)} :: 0 <= i < |visits| - 1 && CutsOff(visits[i], id)
  }

  lemma ListsJoin(page: seq<Video>, rest: seq<Video>, id: nat)
    ensures Lists(page, id) || Lists(rest, id) <==> Lists(page + rest, id)
  {
    if i :| 0 <= i < |page| && page[i].id == id {
      assert (page + rest)[i].id == id;
    } else if i :| 0 <= i < |rest| && rest[i].id == id {
      assert (page + rest)[|page| + i].id == id;
    }
  }

  lemma QueryOrPast(R: set<Video>, limit: nat, whole: seq<Video>, v: Video)
    requires IsQuery(R, limit, whole) && v in R && v !in whole && limit > 0
    ensures |whole| == limit && v.createTime <= NextTime(whole)
  {
    PageWithin(R, limit, whole);
    assert v !in Elements(whole);
    assert whole[limit - 1] in whole;
  }

  lemma ListedAlike(page: seq<Video>, whole: seq<Video>, v: Video)
    requires C.SameTimes(page, whole) && v in whole
    ensures Lists(page, v.id)
  {
    var i :| 0 <= i < |whole| && whole[i] == v;
    assert page[i].id == v.id;
  }

  lemma EndsAlike(page: seq<Video>, whole: seq<Video>)
    requires C.SameTimes(page, whole) && whole != []
    ensures |page| == |whole| && NextTime(page) == NextTime(whole)
  {}

  lemma PageOrPast(limit: nat, visit: Visit, id: nat)
    requires WellFormed(visit.db) && VisitExact(limit, visit) && InView(visit, id) && BelowCursor(visit, id)
             && limit > 0
    ensures Lists(visit.page, id) || (|visit.page| == limit && visit.db[id].createTime <= NextTime(visit.page))
  {
    var v := visit.db[id];
    var whole :| IsQuery(Before(visit.seen, visit.before), limit, whole) && C.SameTimes(visit.page, whole);
    if v in whole {
      ListedAlike(visit.page, whole, v);
    } else {
      QueryOrPast(Before(visit.seen, visit.before), limit, whole, v);
      EndsAlike(visit.page, whole);
    }
  }

  /** A video that a page did not reach and did not cut off is still ahead for the next request. */
  lemma StillAhead(limit: nat, visit: Visit, next: Visit, id: nat)
    requires VisitOk(limit, visit) && VisitExact(limit, visit) && InView(visit, id) && BelowCursor(visit, id)
             && limit > 0
    requires !Lists(visit.page, id) && !CutsOff(visit, id) && Linked(limit, visit, next) && InView(next, id)
    ensures BelowCursor(next, id)
  {
    PageOrPast(limit, visit, id);
  }

  lemma SeenRest(limit: nat, visits: seq<Visit>, id: nat)
    requires Exact(limit, visits) && VisibleThroughout(visits, id) && |visits| > 1
    ensures Exact(limit, visits[1..]) && VisibleThroughout(visits[1..], id)
    ensures VisitExact(limit, visits[0]) && InView(visits[0], id) && InView(visits[1], id)
  {
    var rest := visits[1..];
    assert VisitExact(limit, visits[0]) && InView(visits[0], id) && InView(visits[1], id);
    forall i | 0 <= i < |rest| ensures VisitExact(limit, rest[i]) && InView(rest[i], id) {
      assert rest[i] == visits[i + 1] && VisitExact(limit, visits[i + 1]) && InView(visits[i + 1], id);
    }
  }

  lemma CutOffRest(visits: seq<Visit>, id: nat)
    requires |visits| > 1
    ensures CutOff(visits, id) <==> CutsOff(visits[0], id) || CutOff(visits[1..], id)
  {
    var rest := visits[1..];
    if i :| 0 <= i < |visits| - 1 && CutsOff(visits[i], id) {
      if i > 0 {
        assert rest[i - 1] == visits[i];
        assert CutsOff(rest[i - 1], id);
      }
    }
    if i :| 0 <= i < |rest| - 1 && CutsOff(rest[i], id) {
      assert visits[i + 1] == rest[i];
      assert CutsOff(visits[i + 1], id);
    }
  }

  /** Every request could see the video, and it is still to come. */
  ghost predicate Awaited(limit: nat, visits: seq<Visit>, id: nat) {
    && visits != [] && limit > 0 && Follows(limit, visits) && Exact(limit, visits)
    && |visits[|visits| - 1].page| < limit
    && VisibleThroughout(visits, id) && InView(visits[0], id) && BelowCursor(visits[0], id)
  }

  lemma ListedOrAwaited(limit: nat, visits: seq<Visit>, id: nat)
    requires Awaited(limit, visits, id) && !CutOff(visits, id)
    ensures Lists(visits[0].page, id) || (|visits| > 1 && Awaited(limit, visits[1..], id) && !CutOff(visits[1..], id))
  {
    assert VisitOk(limit, visits[0]) && VisitExact(limit, visits[0]);
    if |visits| == 1 {
      PageOrPast(limit, visits[0], id);
    } else if !Lists(visits[0].page, id) {
      FollowsRest(limit, visits);
      SeenRest(limit, visits, id);
      CutOffRest(visits, id);
      StillAhead(limit, visits[0], visits[1], id);
    }
  }

  lemma {:induction false} ShownUnlessCutOff(limit: nat, visits: seq<Visit>, id: nat)
    requires Awaited(limit, visits, id) && !CutOff(visits, id)
    ensures Lists(Shown(visits), id)
  {
    ListedOrAwaited(limit, visits, id);
    if !Lists(visits[0].page, id) {
      ShownUnlessCutOff(limit, visits[1..], id);
    }
    ListsJoin(visits[0].page, Shown(visits[1..]), id);
  }

  /** What the later pages show is older than the first page's last video. */
  lemma LaterIsOlder(limit: nat, visits: seq<Visit>, v: Video)
    requires Follows(limit, visits) && |visits| > 1 && v in Shown(visits[1..])
    ensures visits[0].page != [] && v.createTime < NextTime(visits[0].page)
    ensures v.id in visits[0].db ==> v.createTime == visits[0].db[v.id].createTime
  {
    FollowsRest(limit, visits);
    NeverRepeats(limit, visits[1..]);
    GrowsThroughout(limit, visits);
    assert RowBelow(LastDb(visits[1..]), visits[1].before, v);
    assert Linked(limit, visits[0], visits[1]);
    assert visits[0].page[|visits[0].page| - 1] in visits[0].page;
    assert RowBelow(visits[0].db, visits[0].before, visits[0].page[|visits[0].page| - 1]);
  }

  lemma {:induction false} PageIsShown(visits: seq<Visit>, i: nat, v: Video)
    requires i < |visits| && v in visits[i].page
    ensures v in Shown(visits)
  {
    if i > 0 {
      PageIsShown(visits[1..], i - 1, v);
    }
  }

  /** A video that the first page lists is at least as new as that page's last one. */
  lemma ListedAbove(limit: nat, visit: Visit, id: nat)
    requires VisitOk(limit, visit) && id in visit.db && Lists(visit.page, id)
    ensures visit.db[id].createTime >= NextTime(visit.page)
  {
    var i :| 0 <= i < |visit.page| && visit.page[i].id == id;
    assert visit.page[i] in visit.page;
    assert RowBelow(visit.db, visit.before, visit.page[i]);
  }

  /** What one page cuts off, no page shows. */
  lemma {:induction false} CutOffIsLost(limit: nat, visits: seq<Visit>, id: nat)
    requires Follows(limit, visits) && visits != [] && id in visits[0].db && CutOff(visits, id)
    ensures !Lists(Shown(visits), id)
  {
    var page, rest := visits[0].page, visits[1..];
    var time := visits[0].db[id].createTime;
    FollowsRest(limit, visits);
    CutOffRest(visits, id);
    ListsJoin(page, Shown(rest), id);
    if CutsOff(visits[0], id) {
      if i :| 0 <= i < |Shown(rest)| && Shown(rest)[i].id == id {
        LaterIsOlder(limit, visits, Shown(rest)[i]);
      }
    } else {
      CutOffIsLost(limit, rest, id);
      var i :| 0 <= i < |rest| - 1 && CutsOff(rest[i], id);
      LostLater(limit, visits, i, id);
    }
  }

  lemma LostLater(limit: nat, visits: seq<Visit>, i: nat, id: nat)
    requires Follows(limit, visits) && |visits| > 1 && id in visits[0].db
    requires i < |visits[1..]| - 1 && CutsOff(visits[1..][i], id)
    ensures !Lists(visits[0].page, id)
  {
    var visit := visits[1..][i];
    var last := visit.page[|visit.page| - 1];
    PageIsShown(visits[1..], i, last);
    LaterIsOlder(limit, visits, last);
    GrowsTo(limit, visits, i + 1);
    assert VisitOk(limit, visits[0]);
    if Lists(visits[0].page, id) {
      ListedAbove(limit, visits[0], id);
    }
  }

  lemma {:induction false} GrowsTo(limit: nat, visits: seq<Visit>, i: nat)
    requires Follows(limit, visits) && i < |visits|
    ensures Grows(visits[0].db, visits[i].db)
  {
    if i > 0 {
      FollowsRest(limit, visits);
      GrowsTo(limit, visits[1..], i - 1);
    }
  }

  /** A video that every request could see, and that is older than the first cursor, is shown - once, by
      NeverRepeats - by the time the reader gets to a page that is not full, if and only if no page on the
      way ended inside its millisecond without it. */
  lemma ShownIffNotCutOff(limit: nat, visits: seq<Visit>, id: nat)
    requires Awaited(limit, visits, id)
    ensures Lists(Shown(visits), id) <==> !CutOff(visits, id)
  {
    if CutOff(visits, id) {
      CutOffIsLost(limit, visits, id);
    } else {
      ShownUnlessCutOff(limit, visits, id);
    }
  }

  /** Without ties a page that ends at the time of a video lists it. */
  lemma DistinctEndsListed(limit: nat, visit: Visit, id: nat)
    requires VisitExact(limit, visit) && InView(visit, id) && WellFormed(visit.db) && DistinctTimes(visit.seen)
    requires visit.page != [] && visit.db[id].createTime == NextTime(visit.page)
    ensures Lists(visit.page, id)
  {
    var whole :| IsQuery(Before(visit.seen, visit.before), limit, whole) && C.SameTimes(visit.page, whole);
    var last := |whole| - 1;
    assert whole[last] in Elements(whole);
    assert whole[last] == visit.db[id];
    assert visit.page[last].id == id;
  }

  /** So without ties nothing is missed. */
  lemma NothingMissed(limit: nat, visits: seq<Visit>, id: nat)
    requires Awaited(limit, visits, id)
    requires forall i | 0 <= i < |visits| :: DistinctTimes(visits[i].seen)
    ensures Lists(Shown(visits), id)
  {
    forall i | 0 <= i < |visits| ensures !CutsOff(visits[i], id) {
      assert VisitOk(limit, visits[i]) && VisitExact(limit, visits[i]) && InView(visits[i], id);
      if visits[i].page != [] && visits[i].db[id].createTime == NextTime(visits[i].page) {
        DistinctEndsListed(limit, visits[i], id);
      }
    }
    ShownIffNotCutOff(limit, visits, id);
  }

  // ---------------------------------------------------------------- responses as visits

  lemma StartsInFull(page: seq<Video>, whole: seq<Video>)
    requires Starts(page, whole) && |page| == |whole|
    ensures C.SameTimes(page, whole)
  {
    assert whole[..|whole|] == whole;
  }

  /** Every page that ListLatest returns is such a visit, and the cursor that comes with it is the time
      of its last video; it is exact when the reads and the stitch worked. */
  lemma ResponseIsVisit(db: Table, S: set<Video>, before: int, limit: nat, f: Faults, coherent: bool, r: Response)
    requires WellFormed(db) && limit > 0
    requires r.Page? && r == Respond(r.videos, limit) && Sound(db, before, limit, r.videos)
    ensures VisitOk(limit, Visit(before, db, S, r.videos))
    ensures Answers(S, before, limit, f, coherent, r) && f.ReadsWork() && !f.stitchFails ==>
              VisitExact(limit, Visit(before, db, S, r.videos))
    ensures r.hasMore ==> r.videos != [] && r.nextTime == NextTime(r.videos) > 0 && |r.videos| == limit
  {
    if Answers(S, before, limit, f, coherent, r) && f.ReadsWork() && !f.stitchFails {
      var whole :| IsQuery(Before(S, before), limit, whole) && AgreesWith(whole, f.stitchFails, coherent, r.videos);
      StartsInFull(r.videos, whole);
    }
    if r.hasMore {
      assert r.videos[|r.videos| - 1] in r.videos;
      assert RowBelow(db, before, r.videos[|r.videos| - 1]);
    }
  }
}
