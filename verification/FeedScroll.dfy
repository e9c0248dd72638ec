/**
  Scrolling through the newest-first feed as the service answers it (internal/api/feed/service.go, ListLatest)
  while the table and the timeline stay as they are: exactly when everything is shown.
*/
module FeedScroll {
  import opened Ranking
  import opened Paging
  import opened FeedRepo
  import opened FeedQuery
  import opened FeedLatest
  import opened FeedService
  import opened FeedTies
  import C = EntityCache
  import T = Timeline

  /** One request: whether Redis was off, when it came, and its response. */
  datatype Asked = Asked(redisNil: bool, now: int, r: Response)

  /** The response is a whole answer of the query over what the request reads from, up to cached counters. */
  ghost predicate InFull(db: Table, z: ZSet, limit: nat, before: int, asked: Asked)
    requires Within(db, z)
  {
    && asked.r.Page? && asked.r == Respond(asked.r.videos, limit)
    && exists whole ::
         && IsQuery(Before(Source(db, z, asked.redisNil, asked.now, before), before), limit, whole)
         && C.SameTimes(asked.r.videos, whole)
  }

  /** What ListLatest returns while its reads and the stitch work is such a response. */
  lemma PageIsInFull(db: Table, z: ZSet, limit: nat, before: int, now: int, f: Faults, coherent: bool, r: Response)
    requires Within(db, z) && r.Page? && f.ReadsWork() && !f.stitchFails
    requires Answers(Source(db, z, f.RedisNil(), now, before), before, limit, f, coherent, r)
    requires WellServed(db, before, limit, f, r)
    ensures InFull(db, z, limit, before, Asked(f.RedisNil(), now, r))
  {
    var S := Source(db, z, f.RedisNil(), now, before);
    var whole :| IsQuery(Before(S, before), limit, whole) && AgreesWith(whole, f.stitchFails, coherent, r.videos);
    assert whole[..|whole|] == whole;
  }

  /** The reader goes on with the returned cursor while there is more. */
  ghost predicate Scroll(db: Table, z: ZSet, limit: nat, before: int, asks: seq<Asked>)
    requires Within(db, z)
    decreases |asks|
  {
    && asks != [] && limit > 0 && InFull(db, z, limit, before, asks[0])
    && (|asks| > 1 <==> asks[0].r.hasMore)
    && (|asks| > 1 ==> Scroll(db, z, limit, asks[0].r.nextTime, asks[1..]))
  }

  /** The videos that requests read once there is a timeline: all of the table without Redis, and the
      visible ones with it. */
  function Seen(db: Table, z: ZSet, redisNil: bool): set<Video>
    requires Within(db, z) && z != map[]
  {
    if redisNil then Rows(db) else Visible(db, z)
  }

  /** A request reads those, except for a first page asked for before the clock has passed the oldest
      entry: that one comes from the table. */
  predicate SeesThose(z: ZSet, redisNil: bool, before: int, asked: Asked)
    requires z != map[]
  {
    asked.redisNil == redisNil && (redisNil || before != 0 || asked.now > Watermark(z))
  }

  predicate AllOnline(redisNil: bool, asks: seq<Asked>) {
    forall asked | asked in asks :: asked.redisNil == redisNil
  }

  lemma SeenPositive(db: Table, z: ZSet, redisNil: bool)
    requires WellFormed(db) && Within(db, z) && z != map[]
    ensures Seen(db, z, redisNil) <= Rows(db) && forall v | v in Rows(db) :: v.createTime > 0
  {}

  lemma PageFacts(limit: nat, whole: seq<Video>, r: Response)
    requires 0 < limit && |whole| <= limit && (whole != [] ==> NextTime(whole) > 0)
    requires r.Page? && r == Respond(r.videos, limit) && C.SameTimes(r.videos, whole)
    ensures r.hasMore <==> |whole| == limit
    ensures whole != [] ==> r.nextTime == NextTime(whole) > 0
  {}

  lemma SourceIsSeen(db: Table, z: ZSet, before: int, asked: Asked, redisNil: bool)
    requires WellFormed(db) && Within(db, z) && z != map[] && SeesThose(z, redisNil, before, asked)
    ensures Source(db, z, asked.redisNil, asked.now, before) == Seen(db, z, redisNil)
    ensures forall v | v in Before(Seen(db, z, redisNil), before) :: v.createTime > 0
  {}

  /** One page is an answer of the query over the videos seen, and goes on exactly when it is full, from the
      time of its last video. */
  lemma OnePage(db: Table, z: ZSet, limit: nat, before: int, asked: Asked, redisNil: bool) returns (whole: seq<Video>)
    requires WellFormed(db) && Within(db, z) && z != map[] && limit > 0
    requires InFull(db, z, limit, before, asked) && SeesThose(z, redisNil, before, asked)
    ensures IsQuery(Before(Seen(db, z, redisNil), before), limit, whole) && C.SameTimes(asked.r.videos, whole)
    ensures asked.r.hasMore <==> |whole| == limit
    ensures whole != [] ==> asked.r.nextTime == NextTime(whole) > 0
  {
    SourceIsSeen(db, z, before, asked, redisNil);
    var S := Source(db, z, asked.redisNil, asked.now, before);
    whole :| IsQuery(Before(S, before), limit, whole) && C.SameTimes(asked.r.videos, whole);
    if whole != [] {
      assert whole[|whole| - 1] in Elements(whole);
    }
    PageFacts(limit, whole, asked.r);
  }

  predicate SamePages(asks: seq<Asked>, wholes: seq<seq<Video>>) {
    |asks| == |wholes|
    && forall i {:trigger wholes[i]} | 0 <= i < |asks| :: asks[i].r.Page? && C.SameTimes(asks[i].r.videos, wholes[i])
  }

  lemma SessionStep(S: set<Video>, limit: nat, before: int, whole: seq<Video>, rest: seq<seq<Video>>)
    requires IsQuery(Before(S, before), limit, whole) && |whole| == limit > 0
    requires TableSession(S, limit, NextTime(whole), rest)
    ensures TableSession(S, limit, before, [whole] + rest)
  {
    assert ([whole] + rest)[1..] == rest;
  }

  lemma SamePagesStep(asks: seq<Asked>, whole: seq<Video>, rest: seq<seq<Video>>)
    requires asks != [] && asks[0].r.Page? && C.SameTimes(asks[0].r.videos, whole) && SamePages(asks[1..], rest)
    ensures SamePages(asks, [whole] + rest)
  {
    forall i | 0 <= i < |asks|
      ensures asks[i].r.Page? && C.SameTimes(asks[i].r.videos, ([whole] + rest)[i])
    {
      if i > 0 {
        assert asks[1..][i - 1] == asks[i] && rest[i - 1] == ([whole] + rest)[i];
      }
    }
  }

  /** Scrolling through what the service serves is scrolling through a table of the videos seen. */
  lemma {:induction false} ScrollIsSession(db: Table, z: ZSet, limit: nat, before: int, asks: seq<Asked>,
        redisNil: bool)
    returns (wholes: seq<seq<Video>>)
    requires WellFormed(db) && Within(db, z) && z != map[] && Scroll(db, z, limit, before, asks)
    requires AllOnline(redisNil, asks) && SeesThose(z, redisNil, before, asks[0])
    ensures TableSession(Seen(db, z, redisNil), limit, before, wholes) && SamePages(asks, wholes)
    decreases |asks|, 1
  {
    var whole := OnePage(db, z, limit, before, asks[0], redisNil);
    if |asks| == 1 {
      wholes := [whole];
    } else {
      var rest := RestIsSession(db, z, limit, before, asks, redisNil);
      SessionStep(Seen(db, z, redisNil), limit, before, whole, rest);
      SamePagesStep(asks, whole, rest);
      wholes := [whole] + rest;
    }
  }

  lemma {:induction false} RestIsSession(db: Table, z: ZSet, limit: nat, before: int, asks: seq<Asked>,
        redisNil: bool)
    returns (rest: seq<seq<Video>>)
    requires WellFormed(db) && Within(db, z) && z != map[] && Scroll(db, z, limit, before, asks)
    requires AllOnline(redisNil, asks) && |asks| > 1 && asks[0].r.nextTime > 0
    ensures TableSession(Seen(db, z, redisNil), limit, asks[0].r.nextTime, rest) && SamePages(asks[1..], rest)
    decreases |asks|, 0
  {
    assert asks[1] in asks && forall asked | asked in asks[1..] :: asked in asks;
    rest := ScrollIsSession(db, z, limit, asks[0].r.nextTime, asks[1..], redisNil);
  }

  // ---------------------------------------------------------------- what is shown

  predicate PageShows(r: Response, id: nat) {
    r.Page? && exists j :: 0 <= j < |r.videos| && r.videos[j].id == id
  }

  predicate Shows(asks: seq<Asked>, id: nat) {
    asks != [] && (PageShows(asks[0].r, id) || Shows(asks[1..], id))
  }

  lemma PageShowsId(r: Response, whole: seq<Video>, id: nat)
    requires r.Page? && C.SameTimes(r.videos, whole)
    ensures PageShows(r, id) <==> exists v :: v in whole && v.id == id
  {
    if v :| v in whole && v.id == id {
      var j :| 0 <= j < |whole| && whole[j] == v;
      assert r.videos[j].id == id;
    }
    if PageShows(r, id) {
      var j :| 0 <= j < |r.videos| && r.videos[j].id == id;
      assert whole[j] in whole;
    }
  }

  lemma {:induction false} ShowsId(asks: seq<Asked>, wholes: seq<seq<Video>>, id: nat)
    requires SamePages(asks, wholes)
    ensures Shows(asks, id) <==> exists v :: v in Concat(wholes) && v.id == id
  {
    if asks != [] {
      assert SamePages(asks[1..], wholes[1..]) by {
        assert forall i | 0 <= i < |asks| - 1 :: wholes[1..][i] == wholes[i + 1] && asks[1..][i] == asks[i + 1];
      }
      assert asks[0].r.Page? && C.SameTimes(asks[0].r.videos, wholes[0]);
      ShowsId(asks[1..], wholes[1..], id);
      PageShowsId(asks[0].r, wholes[0], id);
    }
  }

  /** Everything of the table below the cursor is shown. */
  predicate ShowsAllBelow(db: Table, asks: seq<Asked>, before: int) {
    forall id | id in db && (before != 0 ==> db[id].createTime < before) :: Shows(asks, id)
  }

  lemma ShowsAllElements(db: Table, asks: seq<Asked>, before: int, wholes: seq<seq<Video>>)
    requires WellFormed(db) && SamePages(asks, wholes) && Elements(Concat(wholes)) <= Before(Rows(db), before)
    ensures ShowsAllBelow(db, asks, before) <==> Elements(Concat(wholes)) == Before(Rows(db), before)
  {
    forall id | id in db ensures Shows(asks, id) <==> db[id] in Concat(wholes) {
      ShowsId(asks, wholes, id);
      forall v | v in Concat(wholes) && v.id == id ensures v == db[id] {
        assert v in Elements(Concat(wholes));
      }
    }
    if ShowsAllBelow(db, asks, before) {
      forall v | v in Before(Rows(db), before) ensures v in Elements(Concat(wholes)) {
        assert v.id in db && db[v.id] == v && (before != 0 ==> db[v.id].createTime < before);
        assert Shows(asks, v.id);
      }
      assert Elements(Concat(wholes)) == Before(Rows(db), before);
    }
    if Elements(Concat(wholes)) == Before(Rows(db), before) {
      forall id | id in db && (before != 0 ==> db[id].createTime < before) ensures Shows(asks, id) {
        assert db[id] in Before(Rows(db), before);
      }
    }
  }

  // ---------------------------------------------------------------- exactly when that is everything

  lemma SessionShowsIff(db: Table, S: set<Video>, limit: nat, before: int, asks: seq<Asked>, wholes: seq<seq<Video>>)
    requires WellFormed(db) && S <= Rows(db) && TableSession(S, limit, before, wholes) && SamePages(asks, wholes)
    ensures ShowsAllBelow(db, asks, before)
            <==> Before(S, before) == Before(Rows(db), before) && CutsAtBoundaries(Before(Rows(db), before), limit)
  {
    SessionWithin(S, limit, before, wholes);
    ShowsAllElements(db, asks, before, wholes);
    CompleteIffCuts(S, limit, before, wholes);
  }

  /** Whatever is cached, whatever ties there are and for every page size: scrolling on from a cursor shows
      all of the table below it if and only if all of it is seen and no page boundary falls between videos
      of the same millisecond. */
  lemma ShowsAllBelowIff(db: Table, z: ZSet, limit: nat, before: int, asks: seq<Asked>, redisNil: bool)
    requires WellFormed(db) && Within(db, z) && z != map[] && Scroll(db, z, limit, before, asks)
    requires AllOnline(redisNil, asks) && SeesThose(z, redisNil, before, asks[0])
    ensures ShowsAllBelow(db, asks, before)
            <==> Before(Seen(db, z, redisNil), before) == Before(Rows(db), before)
                 && CutsAtBoundaries(Before(Rows(db), before), limit)
  {
    var wholes := ScrollIsSession(db, z, limit, before, asks, redisNil);
    SeenPositive(db, z, redisNil);
    SessionShowsIff(db, Seen(db, z, redisNil), limit, before, asks, wholes);
  }

  predicate ShowsAll(db: Table, asks: seq<Asked>) {
    forall id | id in db :: Shows(asks, id)
  }

  lemma FromTheTop(db: Table, z: ZSet, redisNil: bool, limit: nat, asks: seq<Asked>)
    requires WellFormed(db) && Within(db, z) && z != map[]
    ensures ShowsAllBelow(db, asks, 0) <==> ShowsAll(db, asks)
    ensures Before(Seen(db, z, redisNil), 0) == Before(Rows(db), 0) <==> redisNil || UpwardClosed(db, z)
    ensures Before(Rows(db), 0) == Rows(db)
  {
    assert Before(Rows(db), 0) == Rows(db) && Before(Seen(db, z, redisNil), 0) == Seen(db, z, redisNil);
    VisibleIsTable(db, z);
  }

  /** Scrolling from the top shows the whole table if and only if no video at or above the timeline's oldest
      entry is missing from the timeline - or Redis is off - and no page boundary falls between videos of
      the same millisecond. */
  lemma ShowsAllIff(db: Table, z: ZSet, limit: nat, asks: seq<Asked>, redisNil: bool)
    requires WellFormed(db) && Within(db, z) && z != map[] && Scroll(db, z, limit, 0, asks)
    requires AllOnline(redisNil, asks) && SeesThose(z, redisNil, 0, asks[0])
    ensures ShowsAll(db, asks) <==> (redisNil || UpwardClosed(db, z)) && CutsAtBoundaries(Rows(db), limit)
  {
    ShowsAllBelowIff(db, z, limit, 0, asks, redisNil);
    FromTheTop(db, z, redisNil, limit, asks);
  }

  lemma FirstFromTable(db: Table, z: ZSet, limit: nat, asked: Asked) returns (whole: seq<Video>)
    requires WellFormed(db) && Within(db, z) && z != map[] && limit > 0 && InFull(db, z, limit, 0, asked)
    requires asked.now <= Watermark(z)
    ensures IsQuery(Rows(db), limit, whole) && C.SameTimes(asked.r.videos, whole)
    ensures asked.r.hasMore <==> |whole| == limit
    ensures whole != [] ==> asked.r.nextTime == NextTime(whole) > 0
  {
    var S := Source(db, z, asked.redisNil, asked.now, 0);
    assert S == Rows(db) && Before(S, 0) == S;
    whole :| IsQuery(Before(S, 0), limit, whole) && C.SameTimes(asked.r.videos, whole);
    if whole != [] {
      assert whole[|whole| - 1] in Elements(whole);
    }
    PageFacts(limit, whole, asked.r);
  }

  /** The first page came from the table, before the clock had passed the timeline's oldest entry: then only
      the videos below that page have to be seen. */
  lemma ShowsAllFromTable(db: Table, z: ZSet, limit: nat, asks: seq<Asked>)
    requires WellFormed(db) && Within(db, z) && z != map[] && Scroll(db, z, limit, 0, asks)
    requires AllOnline(false, asks) && asks[0].now <= Watermark(z)
    ensures var c := asks[0].r.nextTime;
            ShowsAll(db, asks)
            <==> (asks[0].r.hasMore ==> Before(Visible(db, z), c) == Before(Rows(db), c))
                 && CutsAtBoundaries(Rows(db), limit)
  {
    var whole := FirstFromTable(db, z, limit, asks[0]);
    if |asks| == 1 {
      OnlyPageShowsAll(db, limit, asks, whole);
    } else {
      var rest := RestIsSession(db, z, limit, 0, asks, false);
      SeenPositive(db, z, false);
      LongShowsIff(db, Visible(db, z), limit, asks, whole, rest);
    }
  }

  lemma LongShowsIff(db: Table, S: set<Video>, limit: nat, asks: seq<Asked>, whole: seq<Video>, rest: seq<seq<Video>>)
    requires WellFormed(db) && S <= Rows(db) && IsQuery(Rows(db), limit, whole) && |whole| == limit > 0
    requires asks != [] && asks[0].r.Page? && C.SameTimes(asks[0].r.videos, whole) && SamePages(asks[1..], rest)
    requires TableSession(S, limit, NextTime(whole), rest)
    ensures ShowsAll(db, asks)
            <==> Before(S, NextTime(whole)) == Before(Rows(db), NextTime(whole)) && CutsAtBoundaries(Rows(db), limit)
  {
    SamePagesStep(asks, whole, rest);
    JoinedShowsIff(db, S, limit, asks, whole, rest);
  }

  lemma OnlyPageShowsAll(db: Table, limit: nat, asks: seq<Asked>, whole: seq<Video>)
    requires WellFormed(db) && IsQuery(Rows(db), limit, whole) && |whole| < limit
    requires |asks| == 1 && asks[0].r.Page? && C.SameTimes(asks[0].r.videos, whole)
    ensures ShowsAll(db, asks) && CutsAtBoundaries(Rows(db), limit)
  {
    ShortPageIsRest(Rows(db), limit, whole);
    SamePagesStep(asks, whole, []);
    assert [whole] + [] == [whole];
    assert [whole][1..] == [] && Concat([whole]) == whole;
    AllElementsShown(db, asks, [whole]);
  }

  lemma AllElementsShown(db: Table, asks: seq<Asked>, wholes: seq<seq<Video>>)
    requires WellFormed(db) && SamePages(asks, wholes) && Elements(Concat(wholes)) == Rows(db)
    ensures ShowsAll(db, asks)
  {
    assert Before(Rows(db), 0) == Rows(db);
    ShowsAllElements(db, asks, 0, wholes);
  }

  lemma JoinedShowsIff(db: Table, S: set<Video>, limit: nat, asks: seq<Asked>, whole: seq<Video>,
        rest: seq<seq<Video>>)
    requires WellFormed(db) && S <= Rows(db) && IsQuery(Rows(db), limit, whole) && |whole| == limit > 0
    requires TableSession(S, limit, NextTime(whole), rest) && SamePages(asks, [whole] + rest)
    ensures ShowsAll(db, asks)
            <==> Before(S, NextTime(whole)) == Before(Rows(db), NextTime(whole)) && CutsAtBoundaries(Rows(db), limit)
  {
    var wholes := [whole] + rest;
    assert Before(Rows(db), 0) == Rows(db);
    assert wholes[1..] == rest && wholes[0] == whole;
    ConcatElements(wholes);
    SessionWithin(S, limit, NextTime(whole), rest);
    ShowsAllElements(db, asks, 0, wholes);
    JoinedIsAll(Rows(db), S, limit, whole, rest);
  }

  lemma JoinedIsAll(R: set<Video>, S: set<Video>, limit: nat, whole: seq<Video>, rest: seq<seq<Video>>)
    requires S <= R && (forall v | v in R :: v.createTime > 0) && IsQuery(R, limit, whole) && |whole| == limit > 0
    requires TableSession(S, limit, NextTime(whole), rest)
    ensures Elements(whole) + Elements(Concat(rest)) == R
            <==> Before(S, NextTime(whole)) == Before(R, NextTime(whole)) && CutsAtBoundaries(R, limit)
  {
    var c, E := NextTime(whole), Elements(Concat(rest));
    assert Before(R, 0) == R;
    SessionWithin(S, limit, c, rest);
    CompleteIffCuts(S, limit, c, rest);
    FirstPageDecides(R, limit, 0, whole);
    NextIsBelow(R, 0, whole);
    assert Before(S, c) <= Before(R, c);
    PartsAreAll(R, Elements(whole), Before(R, c), E);
  }

  lemma PartsAreAll(R: set<Video>, top: set<Video>, below: set<Video>, E: set<Video>)
    requires top <= R && below <= R && E <= below
    ensures below == R - top ==> (top + E == R <==> E == below)
    ensures !(R <= top + below) ==> top + E != R
  {}
}
