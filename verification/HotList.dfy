/**
  The hot list: every popularity change goes to a sorted set for its minute, and a reader merges the last
  sixty of them (internal/api/video/popularity_cache.go and internal/api/feed/service.go,
  ListByPopularity).  Times are Unix seconds.
*/
module HotList {
  import opened Wrappers
  import opened Ranking
  import opened FeedRepo
  import opened Paging
  import T = Timeline
  import C = EntityCache

  const WINDOW: nat := 60
  const BUCKET_TTL: nat := 7200
  const MERGE_TTL: nat := 120

  type Scores = map<nat, int>

  /** A key without an expiry lives until it gets one. */
  datatype Stored = Stored(scores: Scores, expires: Option<nat>)

  function Minute(time: nat): nat {
    time / 60
  }

  predicate IsLive(keys: map<int, Stored>, key: int, now: nat) {
    key in keys && (keys[key].expires.None? || now < keys[key].expires.value)
  }

  function Read(keys: map<int, Stored>, key: int, now: nat): Scores {
    if IsLive(keys, key, now) then keys[key].scores else map[]
  }

  function Score(z: Scores, id: nat): int {
    if id in z then z[id] else 0
  }

  function Plus(y: Scores, z: Scores): Scores {
    map id | id in y.Keys + z.Keys :: Score(y, id) + Score(z, id)
  }

  /** ZUNIONSTORE with SUM: keys that do not exist count as empty. */
  function Union(buckets: map<int, Stored>, now: nat, keys: seq<int>): Scores {
    if keys == [] then map[] else Plus(Union(buckets, now, keys[..|keys| - 1]), Read(buckets, keys[|keys| - 1], now))
  }

  // ---------------------------------------------------------------- the changes behind the buckets

  /** A change that reached its bucket. */
  datatype Change = Change(time: nat, id: nat, amount: int)

  /** The sum of the changes of one video between two minutes, both included. */
  function Total(log: seq<Change>, first: int, last: int, id: nat): int {
    if log == [] then 0
    else
      var c := log[|log| - 1];
      Total(log[..|log| - 1], first, last, id) + if first <= Minute(c.time) <= last && c.id == id then c.amount else 0
  }

  predicate Touched(log: seq<Change>, first: int, last: int, id: nat) {
    exists k :: 0 <= k < |log| && log[k].id == id && first <= Minute(log[k].time) <= last
  }

  predicate SumAt(z: Scores, log: seq<Change>, first: int, last: int, id: nat) {
    (id in z <==> Touched(log, first, last, id)) && (id in z ==> z[id] == Total(log, first, last, id))
  }

  /** The scores are the sums of the changes between two minutes, for just the videos that have any. */
  ghost predicate SumsUp(z: Scores, log: seq<Change>, first: int, last: int) {
    forall id: nat :: SumAt(z, log, first, last, id)
  }

  function BucketScores(buckets: map<int, Stored>, m: int): Scores {
    if m in buckets then buckets[m].scores else map[]
  }

  /** A bucket holds the changes of its minute, and outlives it by close to two hours. */
  ghost predicate BucketOk(log: seq<Change>, buckets: map<int, Stored>, m: int) {
    && SumsUp(BucketScores(buckets, m), log, m, m)
    && (m in buckets && buckets[m].expires.Some? ==> buckets[m].expires.value >= m * 60 + BUCKET_TTL)
  }

  ghost predicate BucketsOk(log: seq<Change>, buckets: map<int, Stored>) {
    forall m :: BucketOk(log, buckets, m)
  }

  lemma TouchedAppend(log: seq<Change>, c: Change, first: int, last: int, id: nat)
    ensures Touched(log + [c], first, last, id)
            <==> Touched(log, first, last, id) || (c.id == id && first <= Minute(c.time) <= last)
  {
    var log' := log + [c];
    if Touched(log, first, last, id) {
      var k :| 0 <= k < |log| && log[k].id == id && first <= Minute(log[k].time) <= last;
      assert log'[k] == log[k];
    }
    if c.id == id && first <= Minute(c.time) <= last {
      assert log'[|log|] == c;
    }
  }

  lemma {:induction false} UntouchedTotal(log: seq<Change>, first: int, last: int, id: nat)
    requires !Touched(log, first, last, id)
    ensures Total(log, first, last, id) == 0
  {
    if log != [] {
      var init := log[..|log| - 1];
      assert log == init + [log[|log| - 1]];
      TouchedAppend(init, log[|log| - 1], first, last, id);
      UntouchedTotal(init, first, last, id);
    }
  }

  lemma {:induction false} TotalSplits(log: seq<Change>, first: int, middle: int, last: int, id: nat)
    requires first - 1 <= middle <= last
    ensures Total(log, first, last, id) == Total(log, first, middle, id) + Total(log, middle + 1, last, id)
  {
    if log != [] {
      TotalSplits(log[..|log| - 1], first, middle, last, id);
    }
  }

  lemma ScoreIsTotal(z: Scores, log: seq<Change>, first: int, last: int, id: nat)
    requires SumsUp(z, log, first, last)
    ensures Score(z, id) == Total(log, first, last, id)
  {
    assert SumAt(z, log, first, last, id);
    if id !in z {
      UntouchedTotal(log, first, last, id);
    }
  }

  /** Adjacent windows add up. */
  lemma PlusSumsUp(log: seq<Change>, first: int, middle: int, last: int, y: Scores, z: Scores)
    requires first - 1 <= middle <= last
    requires SumsUp(y, log, middle + 1, last) && SumsUp(z, log, first, middle)
    ensures SumsUp(Plus(y, z), log, first, last)
  {
    forall id: nat ensures SumAt(Plus(y, z), log, first, last, id) {
      assert SumAt(y, log, middle + 1, last, id) && SumAt(z, log, first, middle, id);
      TouchedSplits(log, first, middle, last, id);
      ScoreIsTotal(y, log, middle + 1, last, id);
      ScoreIsTotal(z, log, first, middle, id);
      TotalSplits(log, first, middle, last, id);
    }
  }

  lemma TouchedSplits(log: seq<Change>, first: int, middle: int, last: int, id: nat)
    requires first - 1 <= middle <= last
    ensures Touched(log, first, last, id) <==> Touched(log, first, middle, id) || Touched(log, middle + 1, last, id)
  {
    if Touched(log, first, last, id) {
      var k :| 0 <= k < |log| && log[k].id == id && first <= Minute(log[k].time) <= last;
      assert Minute(log[k].time) <= middle || middle + 1 <= Minute(log[k].time);
    }
  }

  /** The keys that a reader asks for: this minute and the 59 before it. */
  function Keys(asOf: int, count: nat): (keys: seq<int>)
    ensures |keys| == count && forall i | 0 <= i < count :: keys[i] == asOf - i
  {
    seq(count, i => asOf - i)
  }

  lemma {:induction false} UnionSumsUp(log: seq<Change>, buckets: map<int, Stored>, now: nat, asOf: int, count: nat)
    requires BucketsOk(log, buckets) && now < (asOf - count + 1) * 60 + BUCKET_TTL
    ensures SumsUp(Union(buckets, now, Keys(asOf, count)), log, asOf - count + 1, asOf)
  {
    if count == 0 {
      assert Union(buckets, now, Keys(asOf, 0)) == map[];
    } else {
      UnionSumsUp(log, buckets, now, asOf, count - 1);
      var m := asOf - count + 1;
      assert Keys(asOf, count)[..count - 1] == Keys(asOf, count - 1);
      assert BucketOk(log, buckets, m);
      PlusSumsUp(log, m, m, asOf, Union(buckets, now, Keys(asOf, count - 1)), Read(buckets, m, now));
    }
  }

  /** A merge made less than 61 minutes after the start of its last minute misses no bucket: every
      score is the sum of all changes of the sixty minutes. */
  lemma MergeIsWindow(log: seq<Change>, buckets: map<int, Stored>, now: nat, asOf: int)
    requires BucketsOk(log, buckets) && now < (asOf + 61) * 60
    ensures SumsUp(Union(buckets, now, Keys(asOf, WINDOW)), log, asOf - 59, asOf)
  {
    UnionSumsUp(log, buckets, now, asOf, WINDOW);
  }

  /** From the 61st minute on the oldest bucket can be gone. */
  lemma LateMergeMisses(asOf: nat, now: nat)
    requires asOf >= 59 && now >= (asOf + 61) * 60
    ensures var start := (asOf - 59) * 60;
            var log := [Change(start, 1, 1)];
            var buckets: map<int, Stored> := map[asOf - 59 := Stored(map[1 := 1], Some(start + BUCKET_TTL))];
            && BucketsOk(log, buckets)
            && !SumsUp(Union(buckets, now, Keys(asOf, WINDOW)), log, asOf - 59, asOf)
  {
    var start := (asOf - 59) * 60;
    var log := [Change(start, 1, 1)];
    var buckets: map<int, Stored> := map[asOf - 59 := Stored(map[1 := 1], Some(start + BUCKET_TTL))];
    assert Minute(start) == asOf - 59;
    assert log[..0] == [] && log == [] + [log[0]];
    forall m ensures BucketOk(log, buckets, m) {
      forall id: nat ensures SumAt(BucketScores(buckets, m), log, m, m, id) {
        TouchedAppend([], log[0], m, m, id);
      }
    }
    AllGone(buckets, now, Keys(asOf, WINDOW));
    assert log[0].id == 1;
    assert Touched(log, asOf - 59, asOf, 1);
    assert !SumAt(map[], log, asOf - 59, asOf, 1);
  }

  /** And from then on: a merge is sure to hold all changes of the sixty minutes if and only if it is made
      less than 61 minutes after the start of the last of them. */
  lemma MergeSureIffInTime(asOf: nat, now: nat)
    requires asOf >= 59
    ensures (forall log, buckets | BucketsOk(log, buckets) ::
               SumsUp(Union(buckets, now, Keys(asOf, WINDOW)), log, asOf - 59, asOf))
            <==> now < (asOf + 61) * 60
  {
    if now < (asOf + 61) * 60 {
      forall log, buckets | BucketsOk(log, buckets)
        ensures SumsUp(Union(buckets, now, Keys(asOf, WINDOW)), log, asOf - 59, asOf)
      {
        MergeIsWindow(log, buckets, now, asOf);
      }
    } else {
      LateMergeMisses(asOf, now);
    }
  }

  lemma {:induction false} AllGone(buckets: map<int, Stored>, now: nat, keys: seq<int>)
    requires forall m | m in keys :: !IsLive(buckets, m, now)
    ensures Union(buckets, now, keys) == map[]
  {
    if keys != [] {
      assert keys[|keys| - 1] in keys;
      AllGone(buckets, now, keys[..|keys| - 1]);
    }
  }

  // ---------------------------------------------------------------- recording a change

  /** ZINCRBY. */
  function Increment(buckets: map<int, Stored>, m: int, now: nat, id: nat, amount: int): map<int, Stored> {
    var scores := Read(buckets, m, now);
    var expires := if IsLive(buckets, m, now) then buckets[m].expires else None;
    buckets[m := Stored(scores[id := Score(scores, id) + amount], expires)]
  }

  lemma IncrementKeeps(log: seq<Change>, buckets: map<int, Stored>, now: nat, id: nat, amount: int)
    requires BucketsOk(log, buckets)
    ensures BucketsOk(log + [Change(now, id, amount)], Increment(buckets, Minute(now), now, id, amount))
  {
    var c, here := Change(now, id, amount), Minute(now);
    var log', buckets' := log + [c], Increment(buckets, here, now, id, amount);
    assert log'[..|log|] == log;
    assert now < here * 60 + 60;
    forall m ensures BucketOk(log', buckets', m) {
      assert BucketOk(log, buckets, m);
      forall other: nat ensures SumAt(BucketScores(buckets', m), log', m, m, other) {
        assert SumAt(BucketScores(buckets, m), log, m, m, other);
        TouchedAppend(log, c, m, m, other);
        if !Touched(log, m, m, other) {
          UntouchedTotal(log, m, m, other);
        }
      }
    }
  }

  // ---------------------------------------------------------------- pages of a merge

  /** ZREVRANGE order. */
  function ByScore(z: Scores): (ids: seq<nat>)
    ensures |ids| == |z|
  {
    T.EntriesDistinct(T.Entries(z));
    T.EntriesSize(z);
    var es := Ranked(T.Entries(z), T.EntryKey);
    seq(|es|, i requires 0 <= i < |es| => es[i].member)
  }

  /** Every member of the merge has one place, and a higher score comes first. */
  lemma ByScoreIsComplete(z: Scores)
    ensures forall id :: id in ByScore(z) <==> id in z
    ensures forall i, j | 0 <= i < j < |z| :: ByScore(z)[i] != ByScore(z)[j] && z[ByScore(z)[i]] >= z[ByScore(z)[j]]
  {
    T.EntriesDistinct(T.Entries(z));
    T.EntriesSize(z);
    var es, ids := Ranked(T.Entries(z), T.EntryKey), ByScore(z);
    forall i | 0 <= i < |es| ensures ids[i] in z && es[i] == T.Entry(z[ids[i]], ids[i]) {
      assert es[i] in Elements(es);
    }
    forall id | id in z ensures id in ids {
      assert T.Entry(z[id], id) in Elements(es);
      var i :| 0 <= i < |es| && es[i] == T.Entry(z[id], id);
      assert ids[i] == id;
    }
    forall i, j | 0 <= i < j < |z| ensures ids[i] != ids[j] && z[ids[i]] >= z[ids[j]] {
      T.ScoreOrder(es[j], es[i]);
    }
  }

  function Min(a: nat, b: nat): nat {
    if a < b then a else b
  }

  function Slice(ids: seq<nat>, offset: nat, limit: nat): seq<nat> {
    ids[Min(offset, |ids|)..Min(offset + limit, |ids|)]
  }

  lemma {:induction false} LookupSize(db: Table, ids: seq<nat>)
    ensures |C.TableLookup(db, ids)| <= |ids|
    ensures |C.TableLookup(db, ids)| == |ids| <==> forall id | id in ids :: id in db
  {
    if ids != [] {
      var init := ids[..|ids| - 1];
      LookupSize(db, init);
      assert ids == init + [ids[|ids| - 1]];
    }
  }

  lemma {:induction false} LookupJoin(db: Table, a: seq<nat>, b: seq<nat>)
    ensures C.TableLookup(db, a + b) == C.TableLookup(db, a) + C.TableLookup(db, b)
  {
    if b == [] {
      assert a + b == a;
    } else {
      var init := b[..|b| - 1];
      LookupJoin(db, a, init);
      assert (a + b)[..|a + b| - 1] == a + init;
    }
  }

  // ---------------------------------------------------------------- the service

  /** What goes wrong while one page is made. */
  datatype Faults = Faults(redisNil: bool, existsFails: bool, union: Outcome, expire: Outcome, rangeFails: bool,
                           rowsFail: bool, queryFails: bool)

  datatype Response =
    | Failed
    | FromMerge(videos: seq<Video>, asOf: nat, nextOffset: nat, hasMore: bool, next: Option<PopularityCursor>)
    | FromTable(page: PopularityResponse)

  /** When a merge was made, and how many changes there were by then. */
  datatype Made = Made(time: nat, seen: nat)

  /** A merge made in time holds the changes of its sixty minutes up to the moment it was made. */
  ghost predicate MergeOk(log: seq<Change>, merge: Stored, made: Made, asOf: int, now: nat) {
    && made.time <= now && made.seen <= |log|
    && (forall k | made.seen <= k < |log| :: made.time <= log[k].time)
    && (made.time < (asOf + 61) * 60 ==> SumsUp(merge.scores, log[..made.seen], asOf - 59, asOf))
    && MembersLogged(merge.scores, log)
  }

  ghost predicate MergeAt(log: seq<Change>, merges: map<int, Stored>, made: map<int, Made>, now: nat, a: int) {
    a in merges ==> a in made && MergeOk(log, merges[a], made[a], a, now)
  }

  ghost predicate MergesOk(log: seq<Change>, merges: map<int, Stored>, made: map<int, Made>, now: nat) {
    forall a :: MergeAt(log, merges, made, now, a)
  }

  lemma AppendKeepsMerges(log: seq<Change>, c: Change, merges: map<int, Stored>, made: map<int, Made>, now: nat)
    requires c.time == now && MergesOk(log, merges, made, now)
    ensures MergesOk(log + [c], merges, made, now)
  {
    forall a ensures MergeAt(log + [c], merges, made, now, a) {
      assert MergeAt(log, merges, made, now, a);
      if a in merges {
        assert (log + [c])[..made[a].seen] == log[..made[a].seen];
        MentionsAppend(log, c, merges[a].scores);
      }
    }
  }

  /** A fresh expiry never brings the end of a bucket nearer than its readers need. */
  lemma ExpireKeeps(log: seq<Change>, buckets: map<int, Stored>, now: nat)
    requires BucketsOk(log, buckets) && Minute(now) in buckets
    ensures BucketsOk(log, buckets[Minute(now) as int := buckets[Minute(now)].(expires := Some(now + BUCKET_TTL))])
  {
    var after := buckets[Minute(now) as int := buckets[Minute(now)].(expires := Some(now + BUCKET_TTL))];
    forall m ensures BucketOk(log, after, m) {
      assert BucketOk(log, buckets, m);
    }
  }

  /** Where the table would go on behind a page. */
  function LastCursor(videos: seq<Video>): Option<PopularityCursor> {
    if videos == [] then None
    else
      var last := videos[|videos| - 1];
      Some(PopularityCursor(last.popularity, last.createTime, last.id))
  }

  /** One page, given the ranking of the merge. */
  function PageOf(db: Table, ranking: seq<nat>, asOf: nat, limit: nat, offset: nat, cursor: PopularityCursor,
        f: Faults): Response
    requires WellFormed(db)
  {
    var ids := Slice(ranking, offset, limit);
    if !f.rangeFails && ids == [] && offset > 0 then FromMerge([], asOf * 60, offset, false, None)
    else if !f.rangeFails && ids != [] && !f.rowsFail then
      var items := C.TableLookup(db, ids);
      FromMerge(items, asOf * 60, offset + |items|, |items| == limit, LastCursor(items))
    else TablePage(db, limit, cursor, f)
  }

  function TablePage(db: Table, limit: nat, cursor: PopularityCursor, f: Faults): Response
    requires WellFormed(db)
  {
    if f.queryFails then Failed else FromTable(ServePopularity(db, limit, cursor))
  }

  function AsOf(reqAsOf: nat, now: nat): nat {
    if reqAsOf > 0 then Minute(reqAsOf) else Minute(now)
  }

  // ---------------------------------------------------------------- reading a merge page by page

  const FAULT_FREE := Faults(false, false, Done, Done, false, false, false)

  lemma PageShape(db: Table, ids: seq<nat>, asOf: nat, limit: nat, offset: nat, cursor: PopularityCursor)
    requires WellFormed(db) && limit > 0 && (ids != [] || offset > 0)
    ensures var r := PageOf(db, ids, asOf, limit, offset, cursor, FAULT_FREE);
            var items := C.TableLookup(db, Slice(ids, offset, limit));
            && r.FromMerge? && r.videos == items && |items| <= limit && r.asOf == asOf * 60
            && (r.hasMore <==> |items| == limit)
            && (r.hasMore ==> r.nextOffset == offset + limit <= |ids|)
  {
    LookupSize(db, Slice(ids, offset, limit));
  }

  /** The pages of a reader who sends back the next offset while there is more. */
  function HotPages(db: Table, ids: seq<nat>, asOf: nat, limit: nat, offset: nat, cursor: PopularityCursor)
    : seq<seq<Video>>
    requires WellFormed(db) && limit > 0 && (ids != [] || offset > 0)
    decreases |ids| - offset
  {
    var r := PageOf(db, ids, asOf, limit, offset, cursor, FAULT_FREE);
    PageShape(db, ids, asOf, limit, offset, cursor);
    if r.hasMore then [r.videos] + HotPages(db, ids, asOf, limit, r.nextOffset, cursor) else [r.videos]
  }

  /** The end of the first page that yields fewer videos than asked for. */
  function Reach(db: Table, ids: seq<nat>, limit: nat, offset: nat): (end: nat)
    requires limit > 0
    ensures offset <= |ids| ==> offset <= end <= |ids|
    decreases |ids| - offset
  {
    LookupSize(db, Slice(ids, offset, limit));
    if |C.TableLookup(db, Slice(ids, offset, limit))| == limit then Reach(db, ids, limit, offset + limit)
    else Min(offset + limit, |ids|)
  }

  lemma SlicesJoin(db: Table, ids: seq<nat>, offset: nat, limit: nat, end: nat)
    requires offset + limit <= end <= |ids|
    ensures C.TableLookup(db, ids[offset..end])
         == C.TableLookup(db, Slice(ids, offset, limit)) + C.TableLookup(db, ids[offset + limit..end])
  {
    LookupJoin(db, Slice(ids, offset, limit), ids[offset + limit..end]);
    assert Slice(ids, offset, limit) + ids[offset + limit..end] == ids[offset..end];
  }

  lemma HotPagesStep(db: Table, ids: seq<nat>, asOf: nat, limit: nat, offset: nat, cursor: PopularityCursor)
    requires WellFormed(db) && limit > 0 && (ids != [] || offset > 0) && offset <= |ids|
    ensures var items := C.TableLookup(db, Slice(ids, offset, limit));
            if |items| == limit then
              && offset + limit <= |ids|
              && HotPages(db, ids, asOf, limit, offset, cursor) == [items]
                 + HotPages(db, ids, asOf, limit, offset + limit, cursor)
              && Reach(db, ids, limit, offset) == Reach(db, ids, limit, offset + limit)
            else
              && |items| < limit && HotPages(db, ids, asOf, limit, offset, cursor) == [items]
              && ids[offset..Reach(db, ids, limit, offset)] == Slice(ids, offset, limit)
  {
    PageShape(db, ids, asOf, limit, offset, cursor);
    LookupSize(db, Slice(ids, offset, limit));
  }

  lemma PagesJoin(db: Table, ids: seq<nat>, limit: nat, offset: nat, end: nat, rest: seq<seq<Video>>)
    requires offset + limit <= end <= |ids| && FullUpToLast(rest, limit)
    requires |C.TableLookup(db, Slice(ids, offset, limit))| == limit
    requires Concat(rest) == C.TableLookup(db, ids[offset + limit..end])
    ensures var pages := [C.TableLookup(db, Slice(ids, offset, limit))] + rest;
            Concat(pages) == C.TableLookup(db, ids[offset..end]) && FullUpToLast(pages, limit)
  {
    var items := C.TableLookup(db, Slice(ids, offset, limit));
    ConcatCons(items, rest);
    FullCons(items, rest, limit);
    SlicesJoin(db, ids, offset, limit, end);
  }

  /** The pages from an offset on, and the part of the ranking that they show. */
  predicate PagesShow(pages: seq<seq<Video>>, db: Table, part: seq<nat>, limit: nat) {
    Concat(pages) == C.TableLookup(db, part) && FullUpToLast(pages, limit)
  }

  lemma FullHotPage(db: Table, ids: seq<nat>, asOf: nat, limit: nat, offset: nat, cursor: PopularityCursor)
    requires WellFormed(db) && limit > 0 && (ids != [] || offset > 0) && offset + limit <= |ids|
    requires |C.TableLookup(db, Slice(ids, offset, limit))| == limit
    requires PagesShow(HotPages(db, ids, asOf, limit, offset + limit, cursor), db,
                       ids[offset + limit..Reach(db, ids, limit, offset + limit)], limit)
    ensures PagesShow(HotPages(db, ids, asOf, limit, offset, cursor), db,
                      ids[offset..Reach(db, ids, limit, offset)], limit)
  {
    HotPagesStep(db, ids, asOf, limit, offset, cursor);
    PagesJoin(db, ids, limit, offset, Reach(db, ids, limit, offset + limit),
              HotPages(db, ids, asOf, limit, offset + limit, cursor));
  }

  lemma LastHotPage(db: Table, ids: seq<nat>, asOf: nat, limit: nat, offset: nat, cursor: PopularityCursor)
    requires WellFormed(db) && limit > 0 && (ids != [] || offset > 0) && offset <= |ids|
    requires |C.TableLookup(db, Slice(ids, offset, limit))| < limit
    ensures PagesShow(HotPages(db, ids, asOf, limit, offset, cursor), db,
                      ids[offset..Reach(db, ids, limit, offset)], limit)
  {
    HotPagesStep(db, ids, asOf, limit, offset, cursor);
    OnePage(C.TableLookup(db, Slice(ids, offset, limit)));
  }

  /** Whatever members the table lacks, the pages are the ranking in order, without repeats, up to the end
      of the first page that yields less than was asked for; all pages before it are full. */
  lemma {:induction false} HotPagesExact(db: Table, ids: seq<nat>, asOf: nat, limit: nat, offset: nat,
        cursor: PopularityCursor)
    requires WellFormed(db) && limit > 0 && (ids != [] || offset > 0) && offset <= |ids|
    ensures PagesShow(HotPages(db, ids, asOf, limit, offset, cursor), db,
                      ids[offset..Reach(db, ids, limit, offset)], limit)
    decreases |ids| - offset
  {
    LookupSize(db, Slice(ids, offset, limit));
    if |C.TableLookup(db, Slice(ids, offset, limit))| == limit {
      HotPagesExact(db, ids, asOf, limit, offset + limit, cursor);
      FullHotPage(db, ids, asOf, limit, offset, cursor);
    } else {
      LastHotPage(db, ids, asOf, limit, offset, cursor);
    }
  }

  lemma OnePage(page: seq<Video>)
    ensures Concat([page]) == page
  {
    ConcatCons(page, []);
    assert [page] + [] == [page];
  }

  lemma {:induction false} ReachesEnd(db: Table, ids: seq<nat>, limit: nat, offset: nat)
    requires limit > 0 && offset <= |ids| && forall id | id in ids :: id in db
    ensures Reach(db, ids, limit, offset) == |ids|
    decreases |ids| - offset
  {
    LookupSize(db, Slice(ids, offset, limit));
    if offset + limit <= |ids| {
      ReachesEnd(db, ids, limit, offset + limit);
    }
  }

  /** If the table has every member of the merge, the pages are the whole ranking, every video once. */
  lemma HotPagesComplete(db: Table, z: Scores, asOf: nat, limit: nat, cursor: PopularityCursor)
    requires WellFormed(db) && limit > 0 && z != map[] && forall id | id in z :: id in db
    ensures PagesShow(HotPages(db, ByScore(z), asOf, limit, 0, cursor), db, ByScore(z), limit)
    ensures |C.TableLookup(db, ByScore(z))| == |z|
  {
    var ids := ByScore(z);
    ByScoreIsComplete(z);
    ReachesEnd(db, ids, limit, 0);
    HotPagesExact(db, ids, asOf, limit, 0, cursor);
    assert ids[0..|ids|] == ids;
    LookupSize(db, ids);
  }

  /** A merge without members is no list at all: its first page comes from the table. */
  lemma EmptyMergeFallsBack(db: Table, asOf: nat, limit: nat, cursor: PopularityCursor)
    requires WellFormed(db)
    ensures PageOf(db, ByScore(map[]), asOf, limit, 0, cursor, FAULT_FREE) ==
            FromTable(ServePopularity(db, limit, cursor))
  {}

  /** While its merge lives, a request that names the minute of a page gets the next page from the same
      merge, whenever it comes. */
  lemma SameMergeAgain(merges: map<int, Stored>, buckets: map<int, Stored>, asOf: nat, now: nat)
    requires IsLive(merges, asOf, now) && asOf > 0
    ensures AsOf(asOf * 60, now) == asOf
    ensures Merged(merges, buckets, now, asOf, FAULT_FREE) == merges
    ensures Read(merges, asOf, now) == merges[asOf].scores
  {}

  // ---------------------------------------------------------------- who is in a merge

  predicate Mentions(log: seq<Change>, id: nat) {
    exists k :: 0 <= k < |log| && log[k].id == id
  }

  /** Every member of a merge or bucket has a change of its own. */
  ghost predicate MembersLogged(z: Scores, log: seq<Change>) {
    forall id | id in z :: Mentions(log, id)
  }

  lemma MentionsAppend(log: seq<Change>, c: Change, z: Scores)
    requires MembersLogged(z, log)
    ensures MembersLogged(z, log + [c])
  {
    forall id | id in z ensures Mentions(log + [c], id) {
      var k :| 0 <= k < |log| && log[k].id == id;
      assert (log + [c])[k].id == id;
    }
  }

  lemma {:induction false} UnionLogged(log: seq<Change>, buckets: map<int, Stored>, now: nat, keys: seq<int>)
    requires BucketsOk(log, buckets)
    ensures MembersLogged(Union(buckets, now, keys), log)
  {
    if keys != [] {
      var m := keys[|keys| - 1];
      UnionLogged(log, buckets, now, keys[..|keys| - 1]);
      assert BucketOk(log, buckets, m);
      forall id | id in Read(buckets, m, now) ensures Mentions(log, id) {
        assert SumAt(BucketScores(buckets, m), log, m, m, id);
      }
    }
  }

  /** Whoever has a change has a row: every caller looks the video up first, and rows stay. */
  ghost predicate Grounded(log: seq<Change>, db: Table) {
    forall k | 0 <= k < |log| :: log[k].id in db
  }

  /** So the members of every merge have rows, and its pages are the whole ranking. */
  lemma GroundedPages(log: seq<Change>, db: Table, z: Scores, asOf: nat, limit: nat, cursor: PopularityCursor)
    requires WellFormed(db) && Grounded(log, db) && MembersLogged(z, log) && z != map[] && limit > 0
    ensures PagesShow(HotPages(db, ByScore(z), asOf, limit, 0, cursor), db, ByScore(z), limit)
    ensures |C.TableLookup(db, ByScore(z))| == |z|
  {
    forall id | id in z ensures id in db {
      assert Mentions(log, id);
    }
    HotPagesComplete(db, z, asOf, limit, cursor);
  }

  // ---------------------------------------------------------------- keeping merges

  /** ZUNIONSTORE replaces the destination, and removes it when the union is empty. */
  function UnionStore(merges: map<int, Stored>, asOf: int, scores: Scores): map<int, Stored> {
    if scores == map[] then merges - {asOf} else merges[asOf := Stored(scores, None)]
  }

  function Merged(merges: map<int, Stored>, buckets: map<int, Stored>, now: nat, asOf: int, f: Faults): map<int,
        Stored> {
    if !f.existsFails && IsLive(merges, asOf, now) then merges
    else
      var merged := Union(buckets, now, Keys(asOf, WINDOW));
      var stored := if f.union.Applied() then UnionStore(merges, asOf, merged) else merges;
      if f.expire.Applied() && IsLive(stored, asOf, now) then
        stored[asOf := stored[asOf].(expires := Some(now + MERGE_TTL))]
      else stored
  }

  lemma StoreKeepsMerges(log: seq<Change>, buckets: map<int, Stored>, merges: map<int, Stored>, made: map<int, Made>,
        now: nat, asOf: int)
    requires BucketsOk(log, buckets) && MergesOk(log, merges, made, now)
    ensures MergesOk(log, UnionStore(merges, asOf, Union(buckets, now, Keys(asOf, WINDOW))),
            made[asOf := Made(now, |log|)], now)
  {
    var merges' := UnionStore(merges, asOf, Union(buckets, now, Keys(asOf, WINDOW)));
    assert log[..|log|] == log;
    UnionLogged(log, buckets, now, Keys(asOf, WINDOW));
    if now < (asOf + 61) * 60 {
      MergeIsWindow(log, buckets, now, asOf);
    }
    var made' := made[asOf := Made(now, |log|)];
    forall a ensures MergeAt(log, merges', made', now, a) {
      assert MergeAt(log, merges, made, now, a);
    }
  }

  lemma ExpireKeepsMerges(log: seq<Change>, merges: map<int, Stored>, made: map<int, Made>, now: nat, asOf: int)
    requires MergesOk(log, merges, made, now) && asOf in merges
    ensures MergesOk(log, merges[asOf := merges[asOf].(expires := Some(now + MERGE_TTL))], made, now)
  {
    var after := merges[asOf := merges[asOf].(expires := Some(now + MERGE_TTL))];
    forall a ensures MergeAt(log, after, made, now, a) {
      assert MergeAt(log, merges, made, now, a);
    }
  }

  lemma TimeKeepsMerges(log: seq<Change>, merges: map<int, Stored>, made: map<int, Made>, now: nat, later: nat)
    requires MergesOk(log, merges, made, now) && now <= later
    ensures MergesOk(log, merges, made, later)
  {
    forall a ensures MergeAt(log, merges, made, later, a) {
      assert MergeAt(log, merges, made, now, a);
    }
  }

  /** A reader who finds no merge makes one that holds every change of the sixty minutes, for the next
      two minutes; a reader who finds one gets what its maker saw. */
  lemma MergeServesWindow(log: seq<Change>, buckets: map<int, Stored>, merges: map<int, Stored>, now: nat, asOf: int,
        f: Faults)
    requires BucketsOk(log, buckets) && now < (asOf + 61) * 60
    ensures f.existsFails || !IsLive(merges, asOf, now) ==>
              f.union.Applied() ==>
                var after := Merged(merges, buckets, now, asOf, f);
                && SumsUp(Read(after, asOf, now), log, asOf - 59, asOf)
                && (f.expire.Applied() && asOf in after ==> after[asOf].expires == Some(now + MERGE_TTL))
    ensures !f.existsFails && IsLive(merges, asOf, now) ==> Merged(merges, buckets, now, asOf, f) == merges
  {
    MergeIsWindow(log, buckets, now, asOf);
  }

  // ---------------------------------------------------------------- what a reader is shown

  /** The videos with a change in the hour that ends with minute m, by the sum of their changes in it. */
  ghost predicate RanksHour(log: seq<Change>, m: nat, ids: seq<nat>) {
    && (forall id: nat :: id in ids <==> Touched(log, m - 59, m, id))
    && (forall i, j | 0 <= i < j < |ids| ::
          ids[i] != ids[j] && Total(log, m - 59, m, ids[i]) >= Total(log, m - 59, m, ids[j]))
  }

  /** The page shows the rows of the ids from `offset` on, as far as there are rows. */
  predicate ShowsFrom(db: Table, ids: seq<nat>, offset: nat, limit: nat, r: Response) {
    && r.FromMerge? && r.nextOffset == offset + |r.videos| && (r.hasMore <==> |r.videos| == limit)
    && (forall v | v in r.videos :: v.id in db && v == db[v.id])
    && (r.videos != [] ==>
          var last := r.videos[|r.videos| - 1];
          r.next == Some(PopularityCursor(last.popularity, last.createTime, last.id)))
    && if |ids| <= offset then r.videos == []
       else
         var n := if |ids| < offset + limit then |ids| - offset else limit;
         (forall id | id in ids :: id in db) ==>
           |r.videos| == n && forall k | 0 <= k < n :: r.videos[k] == db[ids[offset + k]]
  }

  /** No change fell into the hour that ends with minute m. */
  predicate QuietHour(log: seq<Change>, m: nat) {
    forall k | 0 <= k < |log| :: !(m - 59 <= log[k].time / 60 <= m)
  }

  /** A page of the hour that ends with minute m; the table answers a first page when nothing changed. */
  ghost predicate ServesHour(db: Table, log: seq<Change>, m: nat, limit: nat, offset: nat, cursor: PopularityCursor,
        r: Response)
    requires WellFormed(db)
  {
    if QuietHour(log, m) && offset == 0 then r == FromTable(ServePopularity(db, limit, cursor))
    else
      && r.FromMerge? && r.asOf == m * 60
      && exists ids :: RanksHour(log, m, ids) && ShowsFrom(db, ids, offset, limit, r)
  }

  lemma ScoresRankHour(z: Scores, log: seq<Change>, m: nat)
    requires SumsUp(z, log, m - 59, m)
    ensures RanksHour(log, m, ByScore(z))
  {
    ByScoreIsComplete(z);
    var ids := ByScore(z);
    forall id: nat ensures id in ids <==> Touched(log, m - 59, m, id) {
      assert SumAt(z, log, m - 59, m, id);
    }
    forall i, j | 0 <= i < j < |ids|
      ensures ids[i] != ids[j] && Total(log, m - 59, m, ids[i]) >= Total(log, m - 59, m, ids[j])
    {
      assert ids[i] in ids && ids[j] in ids;
      assert SumAt(z, log, m - 59, m, ids[i]) && SumAt(z, log, m - 59, m, ids[j]);
    }
  }

  lemma {:induction false} LookupRows(db: Table, ids: seq<nat>)
    requires WellFormed(db)
    ensures forall v | v in C.TableLookup(db, ids) :: v.id in db && v == db[v.id]
    ensures (forall id | id in ids :: id in db) ==>
              && |C.TableLookup(db, ids)| == |ids|
              && forall k | 0 <= k < |ids| :: C.TableLookup(db, ids)[k] == db[ids[k]]
  {
    if ids != [] {
      var init := ids[..|ids| - 1];
      LookupRows(db, init);
      assert ids == init + [ids[|ids| - 1]];
    }
  }

  lemma SliceShows(db: Table, ids: seq<nat>, asOf: nat, limit: nat, offset: nat, cursor: PopularityCursor)
    requires WellFormed(db) && limit > 0 && (ids != [] || offset > 0)
    ensures ShowsFrom(db, ids, offset, limit, PageOf(db, ids, asOf, limit, offset, cursor, FAULT_FREE))
    ensures PageOf(db, ids, asOf, limit, offset, cursor, FAULT_FREE).asOf == asOf * 60
  {
    var part := Slice(ids, offset, limit);
    LookupRows(db, part);
    assert forall id | id in part :: id in ids;
  }

  lemma HourServed(db: Table, z: Scores, log: seq<Change>, m: nat, limit: nat, offset: nat, cursor: PopularityCursor)
    requires WellFormed(db) && limit > 0 && SumsUp(z, log, m - 59, m)
    ensures ServesHour(db, log, m, limit, offset, cursor, PageOf(db, ByScore(z), m, limit, offset, cursor, FAULT_FREE))
  {
    ScoresRankHour(z, log, m);
    var ids := ByScore(z);
    if ids != [] || offset > 0 {
      SliceShows(db, ids, m, limit, offset, cursor);
    }
    if ids != [] {
      assert ids[0] in ids && Touched(log, m - 59, m, ids[0]);
    } else {
      forall k | 0 <= k < |log| ensures !(m - 59 <= log[k].time / 60 <= m) {
        assert log[k].id !in ids;
      }
    }
  }

  /** Without faults a request that makes the merge shows every change of its hour ... */
  lemma FreshMergeServes(db: Table, log: seq<Change>, buckets: map<int, Stored>, merges: map<int, Stored>, now: nat,
        m: nat, limit: nat, offset: nat, cursor: PopularityCursor)
    requires WellFormed(db) && limit > 0 && BucketsOk(log, buckets) && !IsLive(merges, m, now)
    ensures var after := Merged(merges, buckets, now, m, FAULT_FREE);
            var r := PageOf(db, ByScore(Read(after, m, now)), m, limit, offset, cursor, FAULT_FREE);
            && (now < (m + 61) * 60 ==> ServesHour(db, log, m, limit, offset, cursor, r))
            && (r.FromMerge? && r.videos != [] ==> m in after && after[m].expires == Some(now + 120))
  {
    var z := Read(Merged(merges, buckets, now, m, FAULT_FREE), m, now);
    if now < (m + 61) * 60 {
      MergeServesWindow(log, buckets, merges, now, m, FAULT_FREE);
      HourServed(db, z, log, m, limit, offset, cursor);
    }
  }

  /** ... and one that finds a merge made in time shows those that its maker saw. */
  lemma LiveMergeServes(db: Table, log: seq<Change>, merges: map<int, Stored>, made: map<int, Made>, now: nat,
        m: nat, limit: nat, offset: nat, cursor: PopularityCursor)
    requires WellFormed(db) && limit > 0 && MergesOk(log, merges, made, now) && IsLive(merges, m, now)
    ensures m in made && made[m].time <= now && made[m].seen <= |log|
    ensures made[m].time < (m + 61) * 60 ==>
              ServesHour(db, log[..made[m].seen], m, limit, offset, cursor,
                         PageOf(db, ByScore(Read(merges, m, now)), m, limit, offset, cursor, FAULT_FREE))
  {
    assert MergeAt(log, merges, made, now, m);
    if made[m].time < (m + 61) * 60 {
      HourServed(db, merges[m].scores, log[..made[m].seen], m, limit, offset, cursor);
    }
  }

  /** Both, for the minute that the request names, or for this minute. */
  lemma FaultFreeMeans(db: Table, log: seq<Change>, buckets: map<int, Stored>, merges: map<int, Stored>,
        made: map<int, Made>, now: nat, reqAsOf: nat, limit: nat, offset: nat, cursor: PopularityCursor,
        merges': map<int, Stored>, made': map<int, Made>, r: Response)
    requires WellFormed(db) && limit > 0 && BucketsOk(log, buckets) && MergesOk(log, merges, made, now)
    requires merges' == Merged(merges, buckets, now, AsOf(reqAsOf, now), FAULT_FREE)
    requires IsLive(merges, AsOf(reqAsOf, now), now) ==> made' == made
    requires r == PageOf(db, ByScore(Read(merges', AsOf(reqAsOf, now), now)), AsOf(reqAsOf, now), limit, offset, cursor,
                         FAULT_FREE)
    ensures var m := if reqAsOf > 0 then reqAsOf / 60 else now / 60;
            if m !in merges || (merges[m].expires.Some? && merges[m].expires.value <= now) then
              && (now < (m + 61) * 60 ==> ServesHour(db, log, m, limit, offset, cursor, r))
              && (r.FromMerge? && r.videos != [] ==> m in merges' && merges'[m].expires == Some(now + 120))
            else
              && m in made' && made'[m].time <= now && made'[m].seen <= |log| && merges' == merges
              && (made'[m].time < (m + 61) * 60 ==>
                    ServesHour(db, log[..made'[m].seen], m, limit, offset, cursor, r))
  {
    var m := AsOf(reqAsOf, now);
    if IsLive(merges, m, now) {
      LiveMergeServes(db, log, merges, made, now, m, limit, offset, cursor);
    } else {
      FreshMergeServes(db, log, buckets, merges, now, m, limit, offset, cursor);
    }
  }

  /** All that ListByPopularity promises of a page. */
  lemma RequestMeans(db: Table, log: seq<Change>, buckets: map<int, Stored>, merges: map<int, Stored>,
        made: map<int, Made>, now: nat, reqAsOf: nat, limit: nat, offset: nat, cursor: PopularityCursor, f: Faults,
        merges': map<int, Stored>, made': map<int, Made>, r: Response)
    requires WellFormed(db) && limit > 0 && BucketsOk(log, buckets) && MergesOk(log, merges, made, now)
    requires merges' == if f.redisNil then merges else Merged(merges, buckets, now, AsOf(reqAsOf, now), f)
    requires IsLive(merges, AsOf(reqAsOf, now), now) && !f.existsFails ==> made' == made
    requires r == if f.redisNil then TablePage(db, limit, cursor, f)
                  else PageOf(db, ByScore(Read(merges', AsOf(reqAsOf, now), now)), AsOf(reqAsOf, now), limit, offset,
                              cursor, f)
    ensures f.redisNil || f.rangeFails ==>
              r == if f.queryFails then Failed else FromTable(ServePopularity(db, limit, cursor))
    ensures f.rowsFail && r.FromMerge? ==> r.videos == [] && offset > 0 && r.nextOffset == offset && !r.hasMore
    ensures var m := if reqAsOf > 0 then reqAsOf / 60 else now / 60;
            f == Faults(false, false, Done, Done, false, false, false) ==>
              if m !in merges || (merges[m].expires.Some? && merges[m].expires.value <= now) then
                && (now < (m + 61) * 60 ==> ServesHour(db, log, m, limit, offset, cursor, r))
                && (r.FromMerge? && r.videos != [] ==> m in merges' && merges'[m].expires == Some(now + 120))
              else
                && m in made' && made'[m].time <= now && made'[m].seen <= |log| && merges' == merges
                && (made'[m].time < (m + 61) * 60 ==>
                      ServesHour(db, log[..made'[m].seen], m, limit, offset, cursor, r))
  {
    if f == FAULT_FREE {
      FaultFreeMeans(db, log, buckets, merges, made, now, reqAsOf, limit, offset, cursor, merges', made', r);
    }
  }

  class HotCache {
    var now: nat
    var buckets: map<int, Stored>
    var merges: map<int, Stored>
    var db: Table
    ghost var log: seq<Change>
    ghost var made: map<int, Made>

    ghost predicate Valid()
      reads this
    {
      && WellFormed(db)
      && BucketsOk(log, buckets)
      && (forall k | 0 <= k < |log| :: log[k].time <= now)
      && MergesOk(log, merges, made, now)
    }

    constructor (now: nat, db: Table)
      requires WellFormed(db)
      ensures Valid() && this.now == now && this.db == db && log == [] && buckets == map[] && merges == map[]
    {
      this.now := now;
      this.db := db;
      buckets, merges, log, made := map[], map[], [], map[];
    }

    method Wait(time: nat)
      requires Valid()
      modifies this`now
      ensures Valid() && now == old(now) + time
    {
      TimeKeepsMerges(log, merges, made, now, now + time);
      now := now + time;
    }

    /** A new row, or new counters of one; rows are never deleted. */
    method PutRow(v: Video)
      requires Valid() && v.id > 0 && v.createTime > 0 && v.likesCount >= 0 && v.popularity >= 0
      modifies this`db
      ensures Valid() && db == old(db)[v.id := v]
      ensures old(Grounded(log, db)) ==> Grounded(log, db)
    {
      db := db[v.id := v];
    }

    /** Records a change; the window key gets a fresh expiry if that command arrives. */
    method UpdatePopularityCache(id: nat, change: int, incr: Outcome, expire: Outcome)
      requires Valid()
      modifies this`buckets, this`log
      ensures Valid()
      ensures log == if id != 0 && change != 0 && incr.Applied() then old(log) + [Change(now, id, change)] else old(log)
      ensures old(Grounded(log, db)) && id in db ==> Grounded(log, db)
      ensures id != 0 && change != 0 && incr == Done && expire == Done ==>
                now / 60 in buckets && buckets[now / 60].expires == Some(now + 7200)
    {
      if id == 0 || change == 0 {
        return;
      }
      var window := Minute(now);
      if incr.Applied() {
        IncrementKeeps(log, buckets, now, id, change);
        AppendKeepsMerges(log, Change(now, id, change), merges, made, now);
        buckets := Increment(buckets, window, now, id, change);
        log := log + [Change(now, id, change)];
      }
      if expire.Applied() && IsLive(buckets, window, now) {
        ExpireKeeps(log, buckets, now);
        buckets := buckets[window as int := buckets[window].(expires := Some(now + BUCKET_TTL))];
      }
    }

    /** Makes the merge of a minute unless it is there.  The errors of both commands are ignored. */
    method Merge(asOf: nat, f: Faults)
      requires Valid()
      modifies this`merges, this`made
      ensures Valid()
      ensures merges == Merged(old(merges), buckets, now, asOf, f)
      ensures IsLive(old(merges), asOf, now) && !f.existsFails ==> made == old(made)
    {
      var keys := BucketKeys(asOf);
      var found := !f.existsFails && IsLive(merges, asOf, now);
      if !found {
        if f.union.Applied() {
          StoreKeepsMerges(log, buckets, merges, made, now, asOf);
          merges := UnionStore(merges, asOf, Union(buckets, now, keys));
          made := made[asOf as int := Made(now, |log|)];
        }
        if f.expire.Applied() && IsLive(merges, asOf, now) {
          ExpireKeepsMerges(log, merges, made, now, asOf);
          merges := merges[asOf as int := merges[asOf].(expires := Some(now + MERGE_TTL))];
        }
      }
    }

    method BucketKeys(asOf: nat) returns (keys: seq<int>)
      ensures keys == Keys(asOf, WINDOW)
    {
      keys := [];
      for i := 0 to WINDOW
        invariant keys == Keys(asOf, i)
      {
        keys := keys + [asOf - i];
      }
    }

    /** A page of the hot list; without Redis, or when it fails, a page of the table.  The hour ends with the
        minute that the request names, or else with this minute.  A request that finds no merge of it makes
        one for two minutes and shows all changes so far; one that finds a merge shows those its maker saw. */
    method ListByPopularity(limit: nat, reqAsOf: nat, offset: nat, cursor: PopularityCursor,
          f: Faults) returns (r: Response)
      requires Valid() && limit > 0
      modifies this`merges, this`made
      ensures Valid()
      ensures merges == if f.redisNil then old(merges) else Merged(old(merges), buckets, now, AsOf(reqAsOf, now), f)
      ensures f.redisNil || f.rangeFails ==>
                r == if f.queryFails then Failed else FromTable(ServePopularity(db, limit, cursor))
      ensures f.rowsFail && r.FromMerge? ==> r.videos == [] && offset > 0 && r.nextOffset == offset && !r.hasMore
      ensures var m := if reqAsOf > 0 then reqAsOf / 60 else now / 60;
              f == Faults(false, false, Done, Done, false, false, false) ==>
                if m !in old(merges) || (old(merges)[m].expires.Some? && old(merges)[m].expires.value <= now) then
                  now < (m + 61) * 60 ==> ServesHour(db, log, m, limit, offset, cursor, r)
                else
                  && m in made && made[m].time <= now && made[m].seen <= |log| && merges == old(merges)
                  && var served := ServesHour(db, log[..made[m].seen], m, limit, offset, cursor, r);
                     made[m].time < (m + 61) * 60 ==> served
      ensures r == if f.redisNil then TablePage(db, limit, cursor, f)
                   else PageOf(db, ByScore(Read(merges, AsOf(reqAsOf, now), now)), AsOf(reqAsOf, now), limit, offset,
                       cursor, f)
    {
      r := Serve(limit, reqAsOf, offset, cursor, f);
      RequestMeans(db, log, buckets, old(merges), old(made), now, reqAsOf, limit, offset, cursor, f, merges, made, r);
    }

    /** The request itself. */
    method Serve(limit: nat, reqAsOf: nat, offset: nat, cursor: PopularityCursor, f: Faults) returns (r: Response)
      requires Valid() && limit > 0
      modifies this`merges, this`made
      ensures Valid()
      ensures IsLive(old(merges), AsOf(reqAsOf, now), now) && !f.existsFails ==> made == old(made)
      ensures merges == if f.redisNil then old(merges) else Merged(old(merges), buckets, now, AsOf(reqAsOf, now), f)
      ensures r == if f.redisNil then TablePage(db, limit, cursor, f)
                   else PageOf(db, ByScore(Read(merges, AsOf(reqAsOf, now), now)), AsOf(reqAsOf, now), limit, offset,
                       cursor, f)
    {
      if !f.redisNil {
        var asOf := Minute(now);
        if reqAsOf > 0 {
          asOf := Minute(reqAsOf);
        }
        Merge(asOf, f);
        r := ReadMerge(asOf, limit, offset, cursor, f);
      } else {
        r := ReadTable(limit, cursor, f);
      }
    }

    /** A page of the merge of a minute. */
    method ReadMerge(asOf: nat, limit: nat, offset: nat, cursor: PopularityCursor, f: Faults) returns (r: Response)
      requires WellFormed(db)
      ensures r == PageOf(db, ByScore(Read(merges, asOf, now)), asOf, limit, offset, cursor, f)
    {
      var members := Slice(ByScore(Read(merges, asOf, now)), offset, limit);
      if !f.rangeFails && |members| == 0 {
        if offset > 0 {
          return FromMerge([], asOf * 60, offset, false, None);
        }
      }
      if !f.rangeFails && |members| > 0 {
        if !f.rowsFail {
          var ordered := OrderRows(members);
          return FromMerge(ordered, asOf * 60, offset + |ordered|, |ordered| == limit, LastCursor(ordered));
        }
      }
      r := ReadTable(limit, cursor, f);
    }

    method ReadTable(limit: nat, cursor: PopularityCursor, f: Faults) returns (r: Response)
      requires WellFormed(db)
      ensures r == TablePage(db, limit, cursor, f)
    {
      if f.queryFails {
        return Failed;
      }
      return FromTable(ServePopularity(db, limit, cursor));
    }

    /** GetByIDs returns rows in any order; they are put into the order of the ids. */
    method OrderRows(ids: seq<nat>) returns (ordered: seq<Video>)
      ensures ordered == C.TableLookup(db, ids)
    {
      var vMap: Table := map id | id in db && id in ids :: db[id];
      ordered := [];
      for i := 0 to |ids|
        invariant ordered == C.TableLookup(db, ids[..i])
      {
        assert ids[..i + 1][..i] == ids[..i];
        if ids[i] in vMap {
          ordered := ordered + [vMap[ids[i]]];
        }
      }
      assert ids[..|ids|] == ids;
    }
  }

  /** As the callers use it, reading any live merge of the cache page by page shows its whole ranking. */
  lemma LiveMergePages(c: HotCache, asOf: nat, limit: nat, cursor: PopularityCursor)
    requires c.Valid() && Grounded(c.log, c.db) && limit > 0
    requires IsLive(c.merges, asOf, c.now) && c.merges[asOf].scores != map[]
    ensures var z := c.merges[asOf].scores;
            && PagesShow(HotPages(c.db, ByScore(z), asOf, limit, 0, cursor), c.db, ByScore(z), limit)
            && |C.TableLookup(c.db, ByScore(z))| == |z|
  {
    assert MergeAt(c.log, c.merges, c.made, c.now, asOf);
    GroundedPages(c.log, c.db, c.merges[asOf].scores, asOf, limit, cursor);
  }
}
