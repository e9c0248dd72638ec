/**
  The newest-first feed as a question about sets (internal/api/feed/service.go, ListLatest).  A page is
  stitched from the timeline in Redis and a query over the table; what it must agree with is one plain
  ordered query over the videos that are visible.
*/
module FeedLatest {
  import opened Ranking
  import opened FeedQuery
  import opened FeedRepo
  import C = EntityCache
  import T = Timeline

  type ZSet = T.ZSet

  // ---------------------------------------------------------------- what is visible

  /** Every entry of the timeline is a video of the table with its creation time. */
  predicate Within(db: Table, z: ZSet) {
    forall m | m in z :: m in db && z[m] == db[m].createTime
  }

  function Hot(db: Table, z: ZSet): set<Video>
    requires Within(db, z)
  {
    set m | m in z :: db[m]
  }

  /** The score of the oldest entry. */
  function Watermark(z: ZSet): int
    requires z != map[]
  {
    LowestScoreExists(z);
    var low :| low in z && forall m | m in z :: z[low] <= z[m];
    z[low]
  }

  lemma LowestScoreExists(z: ZSet)
    requires z != map[]
    ensures exists low :: low in z && forall m | m in z :: z[low] <= z[m]
  {
    var low := OldestMember(z);
    assert forall m | m in z :: z[low] <= z[m];
  }

  /** ZRANGE 0 0 WITHSCORES: the entry of the lowest rank. */
  function Tail(z: ZSet): T.Entry
    requires z != map[]
  {
    T.EntriesSize(z);
    T.Ascending(T.Entries(z))[0]
  }

  lemma OldestMember(z: ZSet) returns (low: nat)
    requires z != map[]
    ensures low in z && z[low] == Tail(z).score
    ensures forall m | m in z :: z[low] <= z[m]
  {
    T.EntriesSize(z);
    var S := T.Entries(z);
    T.EntriesDistinct(S);
    var r := Ranked(S, T.EntryKey);
    var tail := r[|r| - 1];
    assert T.Ascending(S)[0] == tail;
    assert tail in Elements(r);
    low := tail.member;
    forall m | m in z ensures tail.score <= z[m] {
      var e := T.Entry(z[m], m);
      assert e in S && e in Elements(r);
      var i :| 0 <= i < |r| && r[i] == e;
      if i < |r| - 1 {
        T.ScoreOrder(tail, e);
      }
    }
  }

  lemma TailIsWatermark(z: ZSet)
    requires z != map[]
    ensures Tail(z).score == Watermark(z)
  {
    var low := OldestMember(z);
    LowestEntry(z);
    var other :| other in z && z[other] == Watermark(z);
  }

  lemma LowestEntry(z: ZSet)
    requires z != map[]
    ensures exists m :: m in z && z[m] == Watermark(z)
    ensures forall m | m in z :: Watermark(z) <= z[m]
  {
    LowestScoreExists(z);
  }

  /** What readers can reach: the timeline, and the rows older than all of it.  Rows at or above the
      watermark that are not in the timeline are hidden. */
  function Visible(db: Table, z: ZSet): set<Video>
    requires Within(db, z) && z != map[]
  {
    Hot(db, z) + Before(Rows(db), Watermark(z))
  }

  /** Every row at or above the watermark is in the timeline. */
  predicate UpwardClosed(db: Table, z: ZSet)
    requires z != map[]
  {
    forall id | id in db && db[id].createTime >= Watermark(z) :: id in z
  }

  /** The feed shows the whole table if and only if nothing is missing above the watermark. */
  lemma VisibleIsTable(db: Table, z: ZSet)
    requires WellFormed(db) && Within(db, z) && z != map[]
    ensures Visible(db, z) == Rows(db) <==> UpwardClosed(db, z)
  {
    LowestEntry(z);
    var low :| low in z && z[low] == Watermark(z);
    assert Watermark(z) > 0;
    if UpwardClosed(db, z) {
      forall v | v in Rows(db) ensures v in Visible(db, z) {
        assert db[v.id] == v;
      }
    }
    if Visible(db, z) == Rows(db) {
      forall id | id in db && db[id].createTime >= Watermark(z) ensures id in z {
        assert db[id] in Visible(db, z);
        var m :| m in z && db[m] == db[id];
        assert m == db[m].id == id;
      }
    }
  }

  // ---------------------------------------------------------------- which changes keep it so

  /** The creation times of the table, in the timeline's form. */
  function Times(db: Table): ZSet {
    map id | id in db :: db[id].createTime
  }

  /** Adding a video keeps the table in view if and only if no other row lies between it and the old
      watermark: an event that arrives late into a timeline that has room hides the rows in between. */
  lemma AddKeepsView(db: Table, z: ZSet, id: nat)
    requires Within(db, z) && z != map[] && UpwardClosed(db, z) && id in db
    ensures Within(db, z[id := db[id].createTime])
    ensures UpwardClosed(db, z[id := db[id].createTime])
       <==> forall other | other in db && db[id].createTime <= db[other].createTime < Watermark(z) :: other == id
  {
    var after := z[id := db[id].createTime];
    LowestEntry(z);
    LowestEntry(after);
    var low :| low in z && z[low] == Watermark(z);
    assert low in after && after[low] == z[low];
    assert id in after && after[id] == db[id].createTime;
    var low' :| low' in after && after[low'] == Watermark(after);
    assert Watermark(after) == if db[id].createTime < Watermark(z) then db[id].createTime else Watermark(z);
    assert forall other | other in db && db[other].createTime < Watermark(z) :: other !in z;
  }

  /** It happens: of three videos only the newest is in the timeline, and the table shows the others.  Then
      the oldest one's event arrives before that of the one in between, which can no longer be seen. */
  lemma LateEventHides()
    ensures var db := map[1 := Video(1, 7, "a", 10, 0, 0), 2 := Video(2, 7, "b", 20, 0, 0),
                          3 := Video(3, 7, "c", 30, 0, 0)];
            var z, after: ZSet := map[3 := 30], map[3 := 30, 1 := 10];
            && WellFormed(db) && Within(db, z) && 3 in z && Visible(db, z) == Rows(db)
            && after == z[1 := db[1].createTime] && Within(db, after) && db[2] !in Visible(db, after)
  {
    var db := map[1 := Video(1, 7, "a", 10, 0, 0), 2 := Video(2, 7, "b", 20, 0, 0), 3 := Video(3, 7, "c", 30, 0, 0)];
    var z, after: ZSet := map[3 := 30], map[3 := 30, 1 := 10];
    assert 3 in z && 1 in after;
    LowestEntry(z);
    LowestEntry(after);
    assert Watermark(after) <= after[1];
    VisibleIsTable(db, z);
  }

  /** A new row is hidden until it is added, unless it is older than the whole timeline. */
  lemma InsertKeepsView(db: Table, z: ZSet, v: Video)
    requires Within(db, z) && z != map[] && UpwardClosed(db, z) && v.id !in db
    ensures Within(db[v.id := v], z)
    ensures UpwardClosed(db[v.id := v], z) <==> v.createTime < Watermark(z)
  {
    LowestEntry(z);
  }

  // ---------------------------------------------------------------- one page

  function Scored(z: ZSet, before: int): set<T.Entry> {
    set e | e in T.Entries(z) && (before != 0 ==> e.score <= before - 1)
  }

  /** ZREVRANGEBYSCORE max -inf LIMIT 0 count, as video ids. */
  function NewestIds(z: ZSet, before: int, count: nat): (ids: seq<nat>) {
    var es := T.Newest(Scored(z, before), count);
    seq(|es|, i requires 0 <= i < |es| => es[i].member)
  }

  lemma LookupAll(db: Table, ids: seq<nat>)
    requires forall id | id in ids :: id in db
    ensures |C.TableLookup(db, ids)| == |ids|
    ensures forall i | 0 <= i < |ids| :: C.TableLookup(db, ids)[i] == db[ids[i]]
  {
    if ids != [] {
      LookupAll(db, ids[..|ids| - 1]);
      assert ids[|ids| - 1] in ids;
      forall i | 0 <= i < |ids| - 1 ensures C.TableLookup(db, ids)[i] == db[ids[i]] {
        assert ids[..|ids| - 1][i] == ids[i];
      }
    }
  }

  predicate Older(z: ZSet, id: nat, before: int) {
    id in z && (before != 0 ==> z[id] < before)
  }

  /** The listed entries are those of the listed ids. */
  lemma NewestIdsEntries(z: ZSet, before: int, count: nat)
    ensures var es := T.Newest(Scored(z, before), count);
            var ids := NewestIds(z, before, count);
            && |ids| == |es| <= count
            && (forall i | 0 <= i < |ids| :: Older(z, ids[i], before) && es[i] == T.Entry(z[ids[i]], ids[i]))
            && (forall id :: id in ids <==> Older(z, id, before) && T.Entry(z[id], id) in es)
  {
    var es := T.Newest(Scored(z, before), count);
    var ids := NewestIds(z, before, count);
    forall i | 0 <= i < |ids| ensures Older(z, ids[i], before) && es[i] == T.Entry(z[ids[i]], ids[i]) {
      assert es[i] in Elements(es);
    }
    assert forall e | e in es :: e.member in ids by {
      assert forall i | 0 <= i < |es| :: ids[i] == es[i].member;
    }
  }

  /** The listed ids are the newest ones below the cursor, newest first; ties come in Redis' order. */
  lemma NewestIdsOrdered(z: ZSet, before: int, count: nat)
    ensures var ids := NewestIds(z, before, count);
            && |ids| <= count
            && (forall i | 0 <= i < |ids| :: Older(z, ids[i], before))
            && (forall i, j | 0 <= i < j < |ids| :: z[ids[j]] <= z[ids[i]] && ids[i] != ids[j])
            && (forall id, i | Older(z, id, before) && id !in ids && 0 <= i < |ids| :: z[id] <= z[ids[i]])
            && (|ids| < count ==> forall id | Older(z, id, before) :: id in ids)
  {
    var S := Scored(z, before);
    T.EntriesDistinct(S);
    var es := T.Newest(S, count);
    var ids := NewestIds(z, before, count);
    NewestIdsEntries(z, before, count);
    forall i, j | 0 <= i < j < |ids| ensures z[ids[j]] <= z[ids[i]] && ids[i] != ids[j] {
      T.ScoreOrder(es[j], es[i]);
    }
    forall id, i | Older(z, id, before) && id !in ids && 0 <= i < |ids| ensures z[id] <= z[ids[i]] {
      FirstOutranks(S, T.EntryKey, count, es[i], T.Entry(z[id], id));
      T.ScoreOrder(T.Entry(z[id], id), es[i]);
    }
    if |ids| < count {
      assert Elements(es) == S;
      forall id | Older(z, id, before) ensures id in ids {
        assert T.Entry(z[id], id) in Elements(es);
      }
    }
  }

  /** The part of a page that comes from the timeline. */
  function HotPage(db: Table, z: ZSet, before: int, limit: nat): seq<Video> {
    C.TableLookup(db, NewestIds(z, before, limit))
  }

  lemma HotPageRows(db: Table, z: ZSet, before: int, limit: nat)
    requires WellFormed(db) && Within(db, z)
    ensures var page := HotPage(db, z, before, limit);
            var ids := NewestIds(z, before, limit);
            && |page| == |ids| <= limit
            && (forall i | 0 <= i < |ids| ::
               Older(z, ids[i], before) && page[i] == db[ids[i]] && page[i].createTime == z[ids[i]])
            && (forall v: Video :: v in page <==> v.id in ids && v.id in db && v == db[v.id])
  {
    var ids := NewestIds(z, before, limit);
    NewestIdsEntries(z, before, limit);
    LookupAll(db, ids);
    var page := HotPage(db, z, before, limit);
    forall v: Video | v.id in ids && v.id in db && v == db[v.id] ensures v in page {
      var i :| 0 <= i < |ids| && ids[i] == v.id;
      assert page[i] == v;
    }
  }

  lemma HotRows(db: Table, z: ZSet, before: int)
    requires WellFormed(db) && Within(db, z)
    ensures forall v: Video :: v in Before(Hot(db, z), before) <==>
              v.id in db && v == db[v.id] && Older(z, v.id, before) && z[v.id] == v.createTime
  {}

  /** It is an answer of the query over the videos of the timeline. */
  lemma HotPageIsQuery(db: Table, z: ZSet, before: int, limit: nat)
    requires WellFormed(db) && Within(db, z)
    ensures IsQuery(Before(Hot(db, z), before), limit, HotPage(db, z, before, limit))
  {
    var R, page, ids := Before(Hot(db, z), before), HotPage(db, z, before, limit), NewestIds(z, before, limit);
    NewestIdsOrdered(z, before, limit);
    HotPageRows(db, z, before, limit);
    HotRows(db, z, before);
    forall v | v in page ensures v in R {
      var i :| 0 <= i < |page| && page[i] == v;
      assert Older(z, ids[i], before);
    }
    HotPageOutranks(db, z, before, limit);
    assert forall i, j | 0 <= i < j < |page| :: page[j].createTime <= page[i].createTime && page[i].id != page[j].id;
    DifferentSize(page);
    SubsetSize(Elements(page), R);
    if |page| < limit {
      assert Elements(page) == R;
    }
  }

  lemma HotPageOutranks(db: Table, z: ZSet, before: int, limit: nat)
    requires WellFormed(db) && Within(db, z)
    ensures var page := HotPage(db, z, before, limit);
            forall v, w | v in page && w in Before(Hot(db, z), before) && w !in page :: w.createTime <= v.createTime
  {
    NewestIdsOrdered(z, before, limit);
    HotPageRows(db, z, before, limit);
    HotRows(db, z, before);
    var ids := NewestIds(z, before, limit);
    var page := HotPage(db, z, before, limit);
    forall v, w | v in page && w in Before(Hot(db, z), before) && w !in page ensures w.createTime <= v.createTime {
      var i :| 0 <= i < |page| && page[i] == v;
      assert Older(z, w.id, before) && w.id !in ids && z[w.id] <= z[ids[i]];
    }
  }

  /** What a request reads from.  A first page asked for when the clock has not passed the whole
      timeline goes to the table alone. */
  function View(db: Table, z: ZSet, now: int, before: int): set<Video>
    requires Within(db, z) && z != map[]
  {
    if before == 0 && now <= Watermark(z) then Rows(db) else Visible(db, z)
  }

  // ---------------------------------------------------------------- table and timeline together

  /** Below a cursor above the watermark, the visible videos split at the watermark. */
  lemma VisibleSplits(db: Table, z: ZSet, before: int)
    requires WellFormed(db) && Within(db, z) && z != map[] && (before == 0 || Watermark(z) < before)
    ensures Watermark(z) > 0
    ensures Splits(Before(Hot(db, z), before), Before(Rows(db), Watermark(z)), Watermark(z))
    ensures Before(Visible(db, z), before) == Before(Hot(db, z), before) + Before(Rows(db), Watermark(z))
  {
    LowestEntry(z);
    var low :| low in z && z[low] == Watermark(z);
    assert Watermark(z) > 0;
  }

  /** At or below the watermark the table alone answers as the visible videos would. */
  lemma ColdPage(db: Table, z: ZSet, before: int)
    requires Within(db, z) && z != map[] && before != 0 && before <= Watermark(z)
    ensures Before(Visible(db, z), before) == Before(Rows(db), before)
  {
    LowestEntry(z);
  }

  /** A full page from the timeline needs nothing from the table: whatever ties there are, it is an
      answer of the query over the visible videos. */
  lemma FullHotPage(db: Table, z: ZSet, before: int, limit: nat)
    requires WellFormed(db) && Within(db, z) && z != map[] && (before == 0 || Watermark(z) < before)
    requires |HotPage(db, z, before, limit)| == limit
    ensures IsQuery(Before(Visible(db, z), before), limit, HotPage(db, z, before, limit))
  {
    HotPageIsQuery(db, z, before, limit);
    VisibleSplits(db, z, before);
    FullFromAbove(Before(Hot(db, z), before), Before(Rows(db), Watermark(z)), Watermark(z), limit,
        HotPage(db, z, before, limit));
  }

  /** A page that runs out of the timeline has reached the watermark ... */
  lemma ShortHotPage(db: Table, z: ZSet, before: int, limit: nat)
    requires WellFormed(db) && Within(db, z) && z != map[] && (before == 0 || Watermark(z) < before)
    requires |HotPage(db, z, before, limit)| < limit
    ensures var hot := HotPage(db, z, before, limit);
            hot != [] && NextTime(hot) == Watermark(z)
  {
    var hot, R := HotPage(db, z, before, limit), Before(Hot(db, z), before);
    HotPageIsQuery(db, z, before, limit);
    PageWithin(R, limit, hot);
    LowestIsHot(db, z, before);
    LastIsLowest(hot, R, Watermark(z));
  }

  predicate LowestIs(R: set<Video>, W: int) {
    (forall v | v in R :: W <= v.createTime) && (exists v :: v in R && v.createTime == W)
  }

  lemma LowestIsHot(db: Table, z: ZSet, before: int)
    requires WellFormed(db) && Within(db, z) && z != map[] && (before == 0 || Watermark(z) < before)
    ensures LowestIs(Before(Hot(db, z), before), Watermark(z))
  {
    LowestEntry(z);
    var low :| low in z && z[low] == Watermark(z);
    assert db[low] in Before(Hot(db, z), before);
  }

  lemma LastIsLowest(page: seq<Video>, R: set<Video>, W: int)
    requires (forall i, j | 0 <= i < j < |page| :: page[j].createTime <= page[i].createTime) && Elements(page) == R
    requires LowestIs(R, W)
    ensures page != [] && NextTime(page) == W
  {
    var low :| low in R && low.createTime == W;
    assert low in Elements(page);
    var i :| 0 <= i < |page| && page[i] == low;
    assert page[|page| - 1] in Elements(page);
  }

  /** ... and goes on with the table from there: together they are such an answer too. */
  lemma StitchedPage(db: Table, z: ZSet, before: int, limit: nat, cold: seq<Video>)
    requires WellFormed(db) && Within(db, z) && z != map[] && (before == 0 || Watermark(z) < before)
    requires |HotPage(db, z, before, limit)| < limit
    requires IsQuery(Before(Rows(db), Watermark(z)), limit - |HotPage(db, z, before, limit)|, cold)
    ensures IsQuery(Before(Visible(db, z), before), limit, HotPage(db, z, before, limit) + cold)
  {
    HotPageIsQuery(db, z, before, limit);
    VisibleSplits(db, z, before);
    JoinQueries(Before(Hot(db, z), before), Before(Rows(db), Watermark(z)), Watermark(z), limit,
                HotPage(db, z, before, limit), cold);
  }

  // ---------------------------------------------------------------- timelines that are cut off

  /** Nothing is missing above the watermark if and only if the timeline is the top of the table. */
  lemma ClosedIsTop(db: Table, z: ZSet)
    requires WellFormed(db) && Within(db, z) && z != map[]
    ensures UpwardClosed(db, z) <==> Hot(db, z) == AtLeast(Rows(db), Watermark(z))
  {
    LowestEntry(z);
    if UpwardClosed(db, z) {
      forall v | v in AtLeast(Rows(db), Watermark(z)) ensures v in Hot(db, z) {
        assert db[v.id] == v;
      }
    }
    if Hot(db, z) == AtLeast(Rows(db), Watermark(z)) {
      forall id | id in db && db[id].createTime >= Watermark(z) ensures id in z {
        assert db[id] in Hot(db, z);
        var m :| m in z && db[m] == db[id];
        assert m == db[m].id == id;
      }
    }
  }

  /** The oldest entry of a timeline that holds a listing is the last of it. */
  lemma ListedWatermark(db: Table, z: ZSet, page: seq<Video>)
    requires WellFormed(db) && Within(db, z) && z != map[] && Hot(db, z) == Elements(page)
    requires forall i, j | 0 <= i < j < |page| :: page[j].createTime <= page[i].createTime
    ensures page != [] && NextTime(page) == Watermark(z)
  {
    LowestIsHot(db, z, 0);
    assert Before(Hot(db, z), 0) == Hot(db, z);
    LastIsLowest(page, Hot(db, z), Watermark(z));
  }

  /** A timeline that holds an answer of the query for n rows shows the whole table if and only if the
      n-th row and the next have different times. */
  lemma ListedShowsAll(db: Table, z: ZSet, n: nat, page: seq<Video>)
    requires WellFormed(db) && Within(db, z) && z != map[]
    requires IsQuery(Rows(db), n, page) && Hot(db, z) == Elements(page)
    ensures Visible(db, z) == Rows(db) <==> SharpAt(Rows(db), n)
  {
    ListedWatermark(db, z, page);
    TopIffSharp(Rows(db), n, page);
    ClosedIsTop(db, z);
    VisibleIsTable(db, z);
  }

  lemma NewestAreListed(all: ZSet, z: ZSet, n: nat)
    requires T.Entries(z) == T.NewestSet(T.Entries(all), n)
    ensures forall id :: id in z <==> id in NewestIds(all, 0, n)
    ensures forall id | id in z :: id in all && z[id] == all[id]
  {
    assert Scored(all, 0) == T.Entries(all);
    NewestIdsEntries(all, 0, n);
    EntriesWithin(z, all);
    forall id ensures id in z <==> id in NewestIds(all, 0, n) {
      if id in z {
        assert T.Entry(z[id], id) in T.Entries(z);
      }
      if id in NewestIds(all, 0, n) {
        assert T.Entry(all[id], id) in T.Entries(z);
      }
    }
  }

  /** The newest n entries hold the first n videos as the timeline lists them. */
  lemma NewestIsListed(db: Table, all: ZSet, z: ZSet, n: nat)
    requires WellFormed(db) && Within(db, all) && T.Entries(z) == T.NewestSet(T.Entries(all), n)
    ensures Within(db, z) && Hot(db, z) == Elements(HotPage(db, all, 0, n))
    ensures IsQuery(Hot(db, all), n, HotPage(db, all, 0, n))
  {
    NewestAreListed(all, z, n);
    HotPageRows(db, all, 0, n);
    ListedAreHot(db, z, HotPage(db, all, 0, n), NewestIds(all, 0, n));
    assert Before(Hot(db, all), 0) == Hot(db, all);
    HotPageIsQuery(db, all, 0, n);
  }

  lemma ListedAreHot(db: Table, z: ZSet, page: seq<Video>, ids: seq<nat>)
    requires WellFormed(db) && Within(db, z) && forall id :: id in z <==> id in ids
    requires forall v: Video :: v in page <==> v.id in ids && v.id in db && v == db[v.id]
    ensures Hot(db, z) == Elements(page)
  {}

  lemma EntriesWithin(z: ZSet, all: ZSet)
    requires T.Entries(z) <= T.Entries(all)
    ensures forall m | m in z :: m in all && z[m] == all[m]
  {
    forall m | m in z ensures m in all && z[m] == all[m] {
      assert T.Entry(z[m], m) in T.Entries(z);
    }
  }

  lemma TrimIsListed(db: Table, z: ZSet)
    requires WellFormed(db) && Within(db, z) && z != map[]
    ensures var kept, page := T.Trim(z), HotPage(db, z, 0, T.TIMELINE_LIMIT);
            && Within(db, kept) && kept != map[] && page != [] && Watermark(kept) == NextTime(page)
            && Hot(db, kept) == Elements(page) && IsQuery(Hot(db, z), T.TIMELINE_LIMIT, page)
  {
    var kept, page := T.Trim(z), HotPage(db, z, 0, T.TIMELINE_LIMIT);
    T.TrimKeepsNewest(z);
    NewestIsListed(db, z, kept, T.TIMELINE_LIMIT);
    var m :| m in z;
    assert db[m] in Hot(db, z);
    assert page[0] in Elements(page);
    ListedWatermark(db, kept, page);
  }

  /** A trim keeps the whole table in view if and only if the timeline's 1000th entry and the next have
      different times; it removes nothing when there is no next one. */
  lemma TrimKeepsView(db: Table, z: ZSet)
    requires WellFormed(db) && Within(db, z) && z != map[] && UpwardClosed(db, z)
    ensures Within(db, T.Trim(z)) && T.Trim(z) != map[]
    ensures UpwardClosed(db, T.Trim(z)) <==> SharpAt(Hot(db, z), T.TIMELINE_LIMIT)
  {
    TrimIsListed(db, z);
    ClosedIsTop(db, z);
    ClosedIsTop(db, T.Trim(z));
    LowerTop(db, z, HotPage(db, z, 0, T.TIMELINE_LIMIT));
    TopIffSharp(Hot(db, z), T.TIMELINE_LIMIT, HotPage(db, z, 0, T.TIMELINE_LIMIT));
  }

  lemma LowerTop(db: Table, z: ZSet, page: seq<Video>)
    requires Within(db, z) && z != map[] && Hot(db, z) == AtLeast(Rows(db), Watermark(z))
    requires page != [] && Elements(page) <= Hot(db, z)
    ensures AtLeast(Rows(db), NextTime(page)) == AtLeast(Hot(db, z), NextTime(page))
  {
    assert page[|page| - 1] in Elements(page);
  }

  /** n videos of one millisecond. */
  function Tied(n: nat): (db: Table)
    ensures |db| == n && WellFormed(db)
    ensures forall id :: id in db <==> 0 < id <= n
    ensures forall id | id in db :: db[id].createTime == 1
  {
    if n == 0 then map[] else Tied(n - 1)[n := Video(n, 1, "", 1, 0, 0)]
  }

  /** It does not: of 1001 videos of one millisecond a trim drops one, and the feed no longer shows it. */
  lemma TrimHidesTie()
    ensures var db := Tied(T.TIMELINE_LIMIT + 1); var z := Times(db);
            && Within(db, z) && z != map[] && UpwardClosed(db, z)
            && Within(db, T.Trim(z)) && T.Trim(z) != map[]
            && Visible(db, z) == Rows(db) && Visible(db, T.Trim(z)) != Rows(db)
  {
    var db := Tied(T.TIMELINE_LIMIT + 1);
    var z := Times(db);
    assert 1 in z;
    TiedIsBlunt(T.TIMELINE_LIMIT + 1, T.TIMELINE_LIMIT);
    assert Hot(db, z) == Rows(db);
    TrimKeepsView(db, z);
    VisibleIsTable(db, z);
    VisibleIsTable(db, T.Trim(z));
  }

  lemma {:induction false} TiedCount(n: nat)
    ensures |Rows(Tied(n))| == n
  {
    if n > 0 {
      TiedCount(n - 1);
      var db, less, v := Tied(n), Tied(n - 1), Video(n, 1, "", 1, 0, 0);
      assert db == less[n := v] && n !in less;
      forall w ensures w in Rows(db) <==> w in Rows(less) || w == v {
        assert db[n] == v;
        if w in Rows(less) {
          assert less[w.id] == w && db[w.id] == w;
        }
      }
      assert Rows(db) == Rows(less) + {v} && v !in Rows(less);
    }
  }

  lemma TiedIsBlunt(n: nat, k: nat)
    requires 0 < k < n
    ensures !SharpAt(Rows(Tied(n)), k)
  {
    TiedCount(n);
    forall t ensures |AtLeast(Rows(Tied(n)), t)| != k {
      assert AtLeast(Rows(Tied(n)), t) == if t <= 1 then Rows(Tied(n)) else {};
    }
  }

  /** A timeline of the newest 1000 rows shows the whole table if and only if the 1000th row and the next
      have different times. */
  lemma NewestShowsAll(db: Table, z: ZSet)
    requires WellFormed(db) && z != map[]
    requires T.Entries(z) == T.NewestSet(T.Entries(Times(db)), T.TIMELINE_LIMIT)
    ensures Within(db, z)
    ensures Visible(db, z) == Rows(db) <==> SharpAt(Rows(db), T.TIMELINE_LIMIT)
  {
    NewestIsListed(db, Times(db), z, T.TIMELINE_LIMIT);
    assert Hot(db, Times(db)) == Rows(db);
    ListedShowsAll(db, z, T.TIMELINE_LIMIT, HotPage(db, Times(db), 0, T.TIMELINE_LIMIT));
  }

  /** ZADD of queried rows to an empty timeline. */
  function Rebuilt(db: Table, newest: seq<Video>): ZSet {
    map id | id in db && db[id] in newest :: db[id].createTime
  }

  /** After a rebuild the same holds. */
  lemma RebuildShowsAll(db: Table, newest: seq<Video>)
    requires WellFormed(db) && db != map[] && IsQuery(Rows(db), T.TIMELINE_LIMIT, newest)
    ensures Within(db, Rebuilt(db, newest)) && Rebuilt(db, newest) != map[]
    ensures Visible(db, Rebuilt(db, newest)) == Rows(db) <==> SharpAt(Rows(db), T.TIMELINE_LIMIT)
  {
    var z := Rebuilt(db, newest);
    var id0 :| id0 in db;
    assert db[id0] in Rows(db);
    assert newest != [];
    assert newest[0] in Elements(newest);
    var m0 :| m0 in db && db[m0] == newest[0];
    assert m0 in z;
    forall v | v in newest ensures v in Hot(db, z) {
      assert v in Elements(newest);
    }
    assert Hot(db, z) == Elements(newest);
    ListedShowsAll(db, z, T.TIMELINE_LIMIT, newest);
  }
}
