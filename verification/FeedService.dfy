/**
  The newest-first feed as the service runs it (internal/api/feed/service.go, ListLatest): the timeline in
  Redis, the entity cache and the table, with the errors of each.
*/
module FeedService {
  import opened Wrappers
  import opened Ranking
  import opened FeedRepo
  import opened FeedLatest
  import opened FeedQuery
  import C = EntityCache
  import T = Timeline

  /** What goes wrong during one request, and how the ZADDs of successive rebuilds end. */
  datatype Faults = Faults(
    entity: C.Faults, tailFails: bool, rangeFails: bool, queryFails: bool, stitchFails: bool, rebuilds: seq<Outcome>)
  {
    predicate RedisNil() { entity.redisNil }

    /** The errors of the reads. */
    function Reads(): Faults { this.(rebuilds := []) }

    /** Only the query that completes a page may fail. */
    predicate ReadsWork() {
      !tailFails && !rangeFails && !queryFails && entity.failedReads == {}
    }
  }

  /** Rebuilding: the request ran out of time while the timeline stayed empty. */
  datatype Response = Failed | Rebuilding | Page(videos: seq<Video>, nextTime: int, hasMore: bool)

  function Respond(videos: seq<Video>, limit: nat): Response {
    Page(videos, if videos == [] then 0 else videos[|videos| - 1].createTime, |videos| == limit)
  }

  /** What a request reads from: everything, when there is no timeline to read first. */
  function Source(db: Table, z: ZSet, redisNil: bool, now: int, before: int): set<Video>
    requires Within(db, z)
  {
    if redisNil || z == map[] then Rows(db) else View(db, z, now, before)
  }

  /** Newest first, and no video twice. */
  predicate Ordered(vs: seq<Video>) {
    forall i, j | 0 <= i < j < |vs| :: vs[j].createTime <= vs[i].createTime && vs[i].id != vs[j].id
  }

  /** A row of the table below the cursor, perhaps with older counters. */
  predicate RowBelow(db: Table, before: int, v: Video) {
    v.id in db && v.createTime == db[v.id].createTime && (before != 0 ==> v.createTime < before)
  }

  /** Whatever fails and whatever ties there are, a page holds rows of the table, each once, newest
      first, strictly below the cursor. */
  predicate Sound(db: Table, before: int, limit: nat, page: seq<Video>) {
    Ordered(page) && |page| <= limit && forall v | v in page :: RowBelow(db, before, v)
  }

  /** The answer is the expected page, up to cached counters, or a start of it. */
  predicate Starts(page: seq<Video>, whole: seq<Video>) {
    |page| <= |whole| && C.SameTimes(page, whole[..|page|])
  }

  // ---------------------------------------------------------------- soundness of the parts

  lemma QuerySound(db: Table, before: int, limit: nat, page: seq<Video>)
    requires WellFormed(db) && IsQuery(Before(Rows(db), before), limit, page)
    ensures Sound(db, before, limit, page)
  {
    forall v | v in page ensures RowBelow(db, before, v) && v == db[v.id] {
      assert v in Elements(page);
    }
    forall i, j | 0 <= i < j < |page| ensures page[i].id != page[j].id {
      assert page[i] in page && page[j] in page;
    }
  }

  /** Ids of the timeline below the cursor, each once, newest first. */
  predicate NewestFirst(z: ZSet, before: int, ids: seq<nat>) {
    && (forall i | 0 <= i < |ids| :: Older(z, ids[i], before))
    && (forall i, j | 0 <= i < j < |ids| :: ids[i] in z && ids[j] in z && z[ids[j]] <= z[ids[i]] && ids[i] != ids[j])
  }

  predicate RowLike(db: Table, id: nat, found: Option<Video>) {
    found.Some? ==> found.value.id == id && id in db && found.value.createTime == db[id].createTime
  }

  /** Loading newest-first ids gives newest-first rows, whatever is missing or stale. */
  lemma {:induction false} LoadedSound(l1: C.Level, l2: C.Level, db: Table, now: int, f: C.Faults, z: ZSet,
        before: int, ids: seq<nat>)
    requires Within(db, z) && NewestFirst(z, before, ids)
    requires forall id | id in ids :: RowLike(db, id, C.Lookup(l1, l2, db, now, f, id))
    ensures Sound(db, before, |ids|, C.Collected(l1, l2, db, now, f, ids))
    ensures forall v | v in C.Collected(l1, l2, db, now, f, ids) :: v.id in ids
  {
    if ids != [] {
      var init, id := ids[..|ids| - 1], ids[|ids| - 1];
      LoadedSound(l1, l2, db, now, f, z, before, init);
      assert id in ids;
      var found := C.Lookup(l1, l2, db, now, f, id);
      if found.Some? {
        assert RowLike(db, id, found) && Older(z, ids[|ids| - 1], before);
        SoundSnoc(db, z, before, C.Collected(l1, l2, db, now, f, init), ids, found.value);
      }
    }
  }

  lemma SoundSnoc(db: Table, z: ZSet, before: int, page: seq<Video>, ids: seq<nat>, v: Video)
    requires Within(db, z) && NewestFirst(z, before, ids) && ids != []
    requires Sound(db, before, |ids| - 1, page) && forall w | w in page :: w.id in ids[..|ids| - 1]
    requires v.id == ids[|ids| - 1] && v.id in db && v.createTime == db[v.id].createTime
    ensures Sound(db, before, |ids|, page + [v])
  {
    forall w | w in page ensures v.createTime <= w.createTime && w.id != v.id {
      var i :| 0 <= i < |ids| - 1 && ids[..|ids| - 1][i] == w.id;
      assert RowBelow(db, before, w);
      assert ids[i] == w.id && z[ids[|ids| - 1]] <= z[ids[i]];
    }
    assert Older(z, ids[|ids| - 1], before);
    assert RowBelow(db, before, v);
  }

  /** What comes below the last video of a page has none of its videos. */
  lemma JoinSound(db: Table, before: int, limit: nat, base: seq<Video>, cursor: int, cold: seq<Video>)
    requires WellFormed(db) && Sound(db, before, limit, base) && |base| < limit
             && Sound(db, cursor, limit - |base|, cold)
    requires cursor == if base == [] then before else base[|base| - 1].createTime
    ensures Sound(db, before, limit, base + cold)
  {
    var page := base + cold;
    if base == [] {
      assert page == cold;
    } else {
      var last := base[|base| - 1];
      assert last in base && RowBelow(db, before, last);
      forall v | v in cold ensures RowBelow(db, before, v) && v.createTime < cursor {
        assert RowBelow(db, cursor, v);
      }
      forall v | v in base ensures cursor <= v.createTime && RowBelow(db, before, v) {
        var i :| 0 <= i < |base| && base[i] == v;
      }
      JoinOrdered(db, before, base, cold, cursor);
    }
  }

  lemma JoinOrdered(db: Table, before: int, base: seq<Video>, cold: seq<Video>, cursor: int)
    requires Ordered(base) && Ordered(cold)
    requires forall v | v in base :: RowBelow(db, before, v) && cursor <= v.createTime
    requires forall v | v in cold :: RowBelow(db, before, v) && v.createTime < cursor
    ensures Ordered(base + cold)
    ensures forall v | v in base + cold :: RowBelow(db, before, v)
  {
    var page := base + cold;
    forall i, j | 0 <= i < j < |page| ensures page[j].createTime <= page[i].createTime && page[i].id != page[j].id {
      if i < |base| <= j {
        assert page[i] in base && page[j] in cold;
      }
    }
  }

  // ---------------------------------------------------------------- what a page must be

  /** The page is `whole` up to cached counters; a failed stitch leaves only a start of it, and coherent
      caches make it exact. */
  predicate AgreesWith(whole: seq<Video>, stitchFails: bool, coherent: bool, videos: seq<Video>) {
    && Starts(videos, whole)
    && (!stitchFails ==> |videos| == |whole|)
    && (coherent ==> videos == whole[..|videos|])
  }

  /** The page agrees with an answer of one ordered query over the videos that the request can see. */
  ghost predicate Agrees(
    S: set<Video>, before: int, limit: nat, stitchFails: bool, coherent: bool, videos: seq<Video>)
  {
    exists whole :: IsQuery(Before(S, before), limit, whole) && AgreesWith(whole, stitchFails, coherent, videos)
  }

  lemma QueryAgrees(S: set<Video>, before: int, limit: nat, stitchFails: bool, coherent: bool, page: seq<Video>)
    requires IsQuery(Before(S, before), limit, page)
    ensures Agrees(S, before, limit, stitchFails, coherent, page)
  {
    assert page[..|page|] == page;
    assert AgreesWith(page, stitchFails, coherent, page);
  }

  /** At or below the oldest entry the table answers as the whole view would. */
  lemma ColdAgrees(db: Table, z: ZSet, now: int, before: int, limit: nat, stitchFails: bool, coherent: bool,
        page: seq<Video>)
    requires Within(db, z) && z != map[]
    requires (if before == 0 then now else before) <= Watermark(z)
    requires IsQuery(Before(Rows(db), before), limit, page)
    ensures Agrees(View(db, z, now, before), before, limit, stitchFails, coherent, page)
  {
    if before != 0 {
      ColdPage(db, z, before);
    }
    QueryAgrees(View(db, z, now, before), before, limit, stitchFails, coherent, page);
  }

  /** What loading the ids of the timeline must give. */
  predicate LoadedHot(db: Table, z: ZSet, before: int, limit: nat, coherent: bool, base: seq<Video>)
    requires Within(db, z)
  {
    C.SameTimes(base, HotPage(db, z, before, limit)) && (coherent ==> base == HotPage(db, z, before, limit))
  }

  lemma FullAgrees(db: Table, z: ZSet, before: int, limit: nat, stitchFails: bool, coherent: bool, base: seq<Video>)
    requires WellFormed(db) && Within(db, z) && z != map[] && (before == 0 || Watermark(z) < before)
    requires LoadedHot(db, z, before, limit, coherent, base) && |base| == limit
    ensures Agrees(Visible(db, z), before, limit, stitchFails, coherent, base)
  {
    var hot := HotPage(db, z, before, limit);
    FullHotPage(db, z, before, limit);
    assert hot[..|base|] == hot;
    assert AgreesWith(hot, stitchFails, coherent, base);
  }

  /** Where the table goes on. */
  function ColdCursor(base: seq<Video>, before: int): int {
    if |base| > 0 then base[|base| - 1].createTime else before
  }

  lemma StitchAgrees(db: Table, z: ZSet, before: int, limit: nat, stitchFails: bool, coherent: bool,
        base: seq<Video>, cold: seq<Video>)
    requires WellFormed(db) && Within(db, z) && z != map[] && (before == 0 || Watermark(z) < before)
    requires LoadedHot(db, z, before, limit, coherent, base) && |base| < limit
    requires IsQuery(Before(Rows(db), ColdCursor(base, before)), limit - |base|, cold)
    ensures Agrees(Visible(db, z), before, limit, stitchFails, coherent, if stitchFails then base else base + cold)
  {
    var hot := HotPage(db, z, before, limit);
    StitchIsQuery(db, z, before, limit, base, hot, cold);
    JoinAgrees(base, hot, cold, stitchFails, coherent);
  }

  lemma StitchIsQuery(db: Table, z: ZSet, before: int, limit: nat, base: seq<Video>, hot: seq<Video>, cold: seq<Video>)
    requires WellFormed(db) && Within(db, z) && z != map[] && (before == 0 || Watermark(z) < before)
    requires hot == HotPage(db, z, before, limit) && C.SameTimes(base, hot) && |base| < limit
    requires IsQuery(Before(Rows(db), ColdCursor(base, before)), limit - |base|, cold)
    ensures IsQuery(Before(Visible(db, z), before), limit, hot + cold)
  {
    ShortHotPage(db, z, before, limit);
    SameLast(base, hot);
    StitchedPage(db, z, before, limit, cold);
  }

  lemma JoinAgrees(base: seq<Video>, hot: seq<Video>, cold: seq<Video>, stitchFails: bool, coherent: bool)
    requires C.SameTimes(base, hot) && (coherent ==> base == hot)
    ensures AgreesWith(hot + cold, stitchFails, coherent, if stitchFails then base else base + cold)
  {
    JoinSameTimes(base, hot, cold);
  }

  lemma SameLast(a: seq<Video>, b: seq<Video>)
    requires C.SameTimes(a, b) && b != []
    ensures a != [] && a[|a| - 1].createTime == b[|b| - 1].createTime
  {}

  lemma JoinSameTimes(a: seq<Video>, b: seq<Video>, rest: seq<Video>)
    requires C.SameTimes(a, b)
    ensures Starts(a + rest, b + rest) && Starts(a, b + rest)
    ensures a == b ==> a == (b + rest)[..|a|]
    ensures (b + rest)[..|a + rest|] == b + rest
  {
    assert (b + rest)[..|a|] == b;
  }

  /** What a response to a request that reads from S must be. */
  ghost predicate Answers(S: set<Video>, before: int, limit: nat, f: Faults, coherent: bool, r: Response) {
    f.ReadsWork() && r.Page? ==> Agrees(S, before, limit, f.stitchFails, coherent, r.videos)
  }

  /** Behind a rebuild a request reads from everything, as it would have without a timeline, if no
      millisecond spans the 1000th row and the next. */
  lemma RebuiltSource(db: Table, newest: seq<Video>, now: int, before: int)
    requires WellFormed(db) && IsQuery(Rows(db), 1000, newest) && newest != []
    ensures Within(db, Rebuilt(db, newest)) && Rebuilt(db, newest) != map[]
    ensures SharpAt(Rows(db), 1000) ==> View(db, Rebuilt(db, newest), now, before) == Rows(db)
  {
    assert newest[0] in Elements(newest);
    assert newest[0] in Rows(db);
    assert newest[0].id in Rebuilt(db, newest);
    RebuildShowsAll(db, newest);
  }

  lemma IdsNewestFirst(z: ZSet, before: int, limit: nat)
    ensures NewestFirst(z, before, NewestIds(z, before, limit)) && |NewestIds(z, before, limit)| <= limit
  {
    NewestIdsOrdered(z, before, limit);
  }

  lemma StitchSound(db: Table, before: int, limit: nat, base: seq<Video>, cold: seq<Video>)
    requires WellFormed(db) && Sound(db, before, limit, base) && |base| < limit
    requires IsQuery(Before(Rows(db), ColdCursor(base, before)), limit - |base|, cold)
    ensures Sound(db, before, limit, base + cold)
  {
    var cursor := ColdCursor(base, before);
    QuerySound(db, cursor, limit - |base|, cold);
    JoinSound(db, before, limit, base, cursor, cold);
  }

  // ---------------------------------------------------------------- what a request does

  /** The cached entities, as values. */
  datatype Entities = Entities(history: C.History, l1: C.Level, l2: C.Level, now: int, writeDelay: int)
  {
    predicate Ok() {
      && writeDelay >= 0 && C.HistoryOk(history, now)
      && C.LevelOk(l1, history, now, C.Staleness(writeDelay))
      && C.LevelOk(l2, history, now, C.REDIS_TTL + writeDelay)
    }

    predicate Coherent() {
      C.LevelCoherent(l1, Db(), now) && C.LevelCoherent(l2, Db(), now)
    }

    function Db(): Table {
      C.Current(history)
    }
  }

  /** What loading the newest ids of the timeline gives. */
  function Loaded(e: Entities, z: ZSet, before: int, limit: nat, f: C.Faults): seq<Video> {
    C.Collected(e.l1, e.l2, e.Db(), e.now, f, NewestIds(z, before, limit))
  }

  /** The hot branch: the timeline first, and the table from its last video on. */
  predicate HotServed(e: Entities, z: ZSet, before: int, limit: nat, f: Faults, videos: seq<Video>) {
    var base := Loaded(e, z, before, limit, f.entity);
    if |base| >= limit || f.stitchFails then videos == base
    else
      && |base| <= |videos| && videos[..|base|] == base
      && IsQuery(Before(Rows(e.Db()), ColdCursor(base, before)), limit - |base|, videos[|base|..])
  }

  /** The response, given the timeline that the request ended with. */
  predicate Served(e: Entities, z: ZSet, before: int, limit: nat, f: Faults, r: Response) {
    if f.RedisNil() then
      if f.queryFails then r == Failed
      else r.Page? && r == Respond(r.videos, limit) && IsQuery(Before(Rows(e.Db()), before), limit, r.videos)
    else if f.tailFails then r == Failed
    else if z == map[] then
      if f.queryFails then r == Failed else if Rows(e.Db()) == {} then r == Page([], 0, false) else r == Rebuilding
    else if (if before != 0 then before else e.now) <= Tail(z).score then
      if f.queryFails then r == Failed
      else r.Page? && r == Respond(r.videos, limit) && IsQuery(Before(Rows(e.Db()), before), limit, r.videos)
    else
      if f.rangeFails then r == Failed
      else r.Page? && r == Respond(r.videos, limit) && HotServed(e, z, before, limit, f, r.videos)
  }

  /** A request changes the timeline only by rebuilding an empty one. */
  predicate RebuildOnly(db: Table, z: ZSet, z': ZSet, newest: seq<Video>) {
    z' == z || (z == map[] && newest != [] && IsQuery(Rows(db), 1000, newest) && z' == Rebuilt(db, newest))
  }

  // ---------------------------------------------------------------- what it does is right

  lemma LoadIsHot(e: Entities, z: ZSet, before: int, limit: nat, f: C.Faults)
    requires e.Ok() && Within(e.Db(), z) && f.failedReads == {}
    ensures LoadedHot(e.Db(), z, before, limit, e.Coherent(), Loaded(e, z, before, limit, f))
  {
    C.CallAnswers(e.l1, e.l2, e.history, e.now, f, NewestIds(z, before, limit), e.writeDelay);
  }

  lemma LoadIsSound(e: Entities, z: ZSet, before: int, limit: nat, f: C.Faults)
    requires e.Ok() && Within(e.Db(), z)
    ensures Sound(e.Db(), before, limit, Loaded(e, z, before, limit, f))
  {
    IdsNewestFirst(z, before, limit);
    EntitiesSound(e, z, before, NewestIds(z, before, limit), f);
  }

  lemma EntitiesSound(e: Entities, z: ZSet, before: int, ids: seq<nat>, f: C.Faults)
    requires e.Ok() && Within(e.Db(), z) && NewestFirst(z, before, ids)
    ensures Sound(e.Db(), before, |ids|, C.Collected(e.l1, e.l2, e.Db(), e.now, f, ids))
  {
    var db := e.Db();
    forall id | id in ids ensures RowLike(db, id, C.Lookup(e.l1, e.l2, db, e.now, f, id)) {
      if C.Lookup(e.l1, e.l2, db, e.now, f, id).Some? {
        C.LookupRow(e.l1, e.l2, e.history, e.now, f, id, e.writeDelay);
      }
    }
    LoadedSound(e.l1, e.l2, db, e.now, f, z, before, ids);
  }

  lemma HotServedAnswers(e: Entities, z: ZSet, before: int, limit: nat, f: Faults, videos: seq<Video>)
    requires e.Ok() && WellFormed(e.Db()) && Within(e.Db(), z) && z != map[]
    requires before == 0 || Watermark(z) < before
    requires f.entity.failedReads == {} && HotServed(e, z, before, limit, f, videos)
    ensures Agrees(Visible(e.Db(), z), before, limit, f.stitchFails, e.Coherent(), videos)
  {
    var base := Loaded(e, z, before, limit, f.entity);
    LoadIsHot(e, z, before, limit, f.entity);
    LoadIsSound(e, z, before, limit, f.entity);
    if |base| >= limit {
      FullAgrees(e.Db(), z, before, limit, f.stitchFails, e.Coherent(), base);
    } else if f.stitchFails {
      var cold := AnyQuery(e.Db(), ColdCursor(base, before), limit - |base|);
      StitchAgrees(e.Db(), z, before, limit, true, e.Coherent(), base, cold);
    } else {
      PrefixJoins(base, videos);
      StitchAgrees(e.Db(), z, before, limit, false, e.Coherent(), base, videos[|base|..]);
    }
  }

  lemma PrefixJoins(base: seq<Video>, videos: seq<Video>)
    requires |base| <= |videos| && videos[..|base|] == base
    ensures base + videos[|base|..] == videos
  {}

  lemma AnyQuery(db: Table, before: int, limit: nat) returns (page: seq<Video>)
    requires WellFormed(db)
    ensures IsQuery(Before(Rows(db), before), limit, page)
  {
    RowsDistinct(db, before);
    FirstIsQuery(Before(Rows(db), before), limit);
    page := First(Before(Rows(db), before), RowKey, limit);
  }

  /** For every table, ties included: while the reads work, a response agrees with an answer of one ordered
      query - over the whole table when there was no timeline to read, and over the visible videos
      otherwise. */
  lemma ServedAnswers(e: Entities, z: ZSet, before: int, limit: nat, f: Faults, r: Response)
    requires e.Ok() && WellFormed(e.Db()) && Within(e.Db(), z) && limit > 0
    requires Served(e, z, before, limit, f, r)
    ensures Answers(Source(e.Db(), z, f.RedisNil(), e.now, before), before, limit, f, e.Coherent(), r)
  {
    var db := e.Db();
    if r.Page? && f.ReadsWork() {
      if f.RedisNil() {
        QueryAgrees(Rows(db), before, limit, f.stitchFails, e.Coherent(), r.videos);
      } else if z == map[] {
        assert Before(Rows(db), before) == {};
        QueryAgrees(Rows(db), before, limit, f.stitchFails, e.Coherent(), []);
      } else if (if before != 0 then before else e.now) <= Tail(z).score {
        TailIsWatermark(z);
        ColdAgrees(db, z, e.now, before, limit, f.stitchFails, e.Coherent(), r.videos);
      } else {
        TailIsWatermark(z);
        HotServedAnswers(e, z, before, limit, f, r.videos);
      }
    }
  }

  /** A page from the timeline keeps all that the timeline has for it, even if the stitch fails, and nothing is
      added to a full one; any other page is a whole answer of the table query. */
  predicate PartsKept(db: Table, z: ZSet, now: int, before: int, limit: nat, f: Faults, r: Response)
    requires Within(db, z)
  {
    f.ReadsWork() && r.Page? ==>
      if f.RedisNil() || z == map[] || (if before != 0 then before else now) <= Watermark(z) then
        IsQuery(Before(Rows(db), before), limit, r.videos)
      else
        var hot := HotPage(db, z, before, limit);
        && |hot| <= |r.videos| && C.SameTimes(r.videos[..|hot|], hot)
        && (|hot| == limit || f.stitchFails ==> |r.videos| == |hot|)
  }

  lemma HotKept(e: Entities, z: ZSet, before: int, limit: nat, f: Faults, videos: seq<Video>)
    requires e.Ok() && WellFormed(e.Db()) && Within(e.Db(), z) && limit > 0
    requires f.entity.failedReads == {} && HotServed(e, z, before, limit, f, videos)
    ensures var hot := HotPage(e.Db(), z, before, limit);
            && |hot| <= |videos| && C.SameTimes(videos[..|hot|], hot)
            && (|hot| == limit || f.stitchFails ==> |videos| == |hot|)
  {
    LoadIsHot(e, z, before, limit, f.entity);
    HotPageIsQuery(e.Db(), z, before, limit);
    var base := Loaded(e, z, before, limit, f.entity);
    assert base[..] == base && videos[..|base|] == base;
  }

  lemma ServedParts(e: Entities, z: ZSet, before: int, limit: nat, f: Faults, r: Response)
    requires e.Ok() && WellFormed(e.Db()) && Within(e.Db(), z) && limit > 0
    requires Served(e, z, before, limit, f, r)
    requires !f.tailFails && !f.rangeFails && !f.queryFails && f.entity.failedReads == {} && r.Page?
    ensures if f.RedisNil() || z == map[] || (if before != 0 then before else e.now) <= Watermark(z) then
              IsQuery(Before(Rows(e.Db()), before), limit, r.videos)
            else
              var hot := HotPage(e.Db(), z, before, limit);
              && |hot| <= |r.videos| && C.SameTimes(r.videos[..|hot|], hot)
              && (|hot| == limit || f.stitchFails ==> |r.videos| == |hot|)
  {
    if !f.RedisNil() {
      if z == map[] {
        assert Before(Rows(e.Db()), before) == {};
      } else {
        TailIsWatermark(z);
        if (if before != 0 then before else e.now) > Watermark(z) {
          HotKept(e, z, before, limit, f, r.videos);
        }
      }
    }
  }

  /** A request fails exactly when the read that it needs fails: of the table without Redis, of the oldest entry
      with it, of the table when there is no timeline or the cursor is at or below it, and of the timeline
      otherwise. */
  lemma FailsExactly(e: Entities, z: ZSet, before: int, limit: nat, f: Faults, r: Response)
    requires WellFormed(e.Db()) && Within(e.Db(), z) && Served(e, z, before, limit, f, r)
    ensures r == Failed
            <==> if f.entity.redisNil then f.queryFails
                 else f.tailFails
                      || (if z == map[] || (if before != 0 then before else e.now) <= Watermark(z) then f.queryFails
                          else f.rangeFails)
  {
    if z != map[] {
      TailIsWatermark(z);
    }
  }

  /** What holds of every response, with or without ties. */
  predicate WellServed(db: Table, before: int, limit: nat, f: Faults, r: Response) {
    && (r.Page? ==> Sound(db, before, limit, r.videos) && r == Respond(r.videos, limit))
    && (f.ReadsWork() ==> !r.Failed?)
  }

  lemma HotServedSound(e: Entities, z: ZSet, before: int, limit: nat, f: Faults, videos: seq<Video>)
    requires e.Ok() && WellFormed(e.Db()) && Within(e.Db(), z) && HotServed(e, z, before, limit, f, videos)
    ensures Sound(e.Db(), before, limit, videos)
  {
    var base := Loaded(e, z, before, limit, f.entity);
    LoadIsSound(e, z, before, limit, f.entity);
    if |base| < limit && !f.stitchFails {
      StitchSound(e.Db(), before, limit, base, videos[|base|..]);
      PrefixJoins(base, videos);
    }
  }

  /** Whatever fails and whatever ties there are, every page is sound; and while the reads work no
      request fails. */
  lemma ServedSound(e: Entities, z: ZSet, before: int, limit: nat, f: Faults, r: Response)
    requires e.Ok() && WellFormed(e.Db()) && Within(e.Db(), z) && limit > 0 && Served(e, z, before, limit, f, r)
    ensures WellServed(e.Db(), before, limit, f, r)
  {
    if r.Page? && (f.RedisNil() || z != map[]) {
      if f.RedisNil() || (if before != 0 then before else e.now) <= Tail(z).score {
        QuerySound(e.Db(), before, limit, r.videos);
      } else {
        HotServedSound(e, z, before, limit, f, r.videos);
      }
    }
  }

  /** A request that finds the timeline empty reads from everything in the end, if no millisecond spans the
      1000th row and the next. */
  lemma EmptySource(db: Table, z: ZSet, z': ZSet, newest: seq<Video>, redisNil: bool, now: int, before: int)
    requires WellFormed(db) && Within(db, z') && RebuildOnly(db, z, z', newest)
    requires z == map[] && SharpAt(Rows(db), 1000)
    ensures Source(db, z', redisNil, now, before) == Rows(db)
  {
    if z' != map[] {
      RebuiltSource(db, newest, now, before);
    }
  }

  /** All that ListLatest promises of a response that was served. */
  lemma ResponseMeans(e: Entities, z0: ZSet, z: ZSet, newest: seq<Video>, before: int, limit: nat, f: Faults,
        r: Response)
    requires e.Ok() && WellFormed(e.Db()) && Within(e.Db(), z) && limit > 0
    requires RebuildOnly(e.Db(), z0, z, newest) && Served(e, z, before, limit, f, r)
    ensures WellServed(e.Db(), before, limit, f, r)
    ensures Answers(Source(e.Db(), z, f.RedisNil(), e.now, before), before, limit, f, e.Coherent(), r)
    ensures PartsKept(e.Db(), z, e.now, before, limit, f, r)
    ensures r == Failed
            <==> if f.entity.redisNil then f.queryFails
                 else f.tailFails
                      || (if z == map[] || (if before != 0 then before else e.now) <= Watermark(z) then f.queryFails
                          else f.rangeFails)
    ensures z0 == map[] && SharpAt(Rows(e.Db()), 1000) ==>
              Source(e.Db(), z, f.RedisNil(), e.now, before) == Rows(e.Db())
  {
    ServedSound(e, z, before, limit, f, r);
    ServedAnswers(e, z, before, limit, f, r);
    FailsExactly(e, z, before, limit, f, r);
    if f.ReadsWork() && r.Page? {
      ServedParts(e, z, before, limit, f, r);
    }
    if z0 == map[] && SharpAt(Rows(e.Db()), 1000) {
      EmptySource(e.Db(), z0, z, newest, f.RedisNil(), e.now, before);
    }
  }

  datatype RebuildResult = QueryFailed | EmptyDb | Success

  class Service {
    const cache: C.Cache
    var timeline: ZSet

    constructor (cache: C.Cache)
      requires cache.Valid() && WellFormed(C.Current(cache.history))
      ensures Valid() && this.cache == cache && timeline == map[]
    {
      this.cache := cache;
      timeline := map[];
    }

    function Db(): Table
      reads cache
    {
      C.Current(cache.history)
    }

    function Snapshot(): Entities
      reads cache
    {
      Entities(cache.history, cache.l1, cache.l2, cache.now, cache.writeDelay)
    }

    ghost predicate Valid()
      reads this, cache
    {
      cache.Valid() && WellFormed(Db()) && Within(Db(), timeline)
    }

    /** The table query. */
    method QueryLatest(limit: nat, before: int) returns (page: seq<Video>)
      requires WellFormed(Db())
      ensures IsQuery(Before(Rows(Db()), before), limit, page)
    {
      var rows := Before(Rows(Db()), before);
      RowsDistinct(Db(), before);
      page := First(rows, RowKey, limit);
      FirstIsQuery(rows, limit);
    }

    /** Every page is sound, and agrees with an answer of one ordered query over what the request can see
        in the timeline that it ends with: the one it found, or the one that was rebuilt from the table. */
    method ListLatest(limit: nat, before: int, f: Faults) returns (r: Response)
      requires Valid() && limit > 0
      modifies this`timeline, cache`l1, cache`writes
      ensures Valid()
      ensures old(cache.Coherent()) ==> cache.Coherent()
      ensures Answers(Source(Db(), timeline, f.RedisNil(), cache.now, before), before, limit, f.Reads(),
                      old(cache.Coherent()), r)
      ensures WellServed(Db(), before, limit, f.Reads(), r)
      ensures PartsKept(Db(), timeline, cache.now, before, limit, f.Reads(), r)
      ensures r == Failed
              <==> if f.entity.redisNil then f.queryFails
                   else f.tailFails
                        || (if timeline == map[] || (if before != 0 then before else cache.now) <= Watermark(timeline)
                            then f.queryFails else f.rangeFails)
      ensures r.Rebuilding? ==> old(timeline) == map[] && forall o | o in f.rebuilds :: !o.Applied()
      ensures exists newest :: RebuildOnly(Db(), old(timeline), timeline, newest)
      ensures old(timeline) == map[] && SharpAt(Rows(Db()), 1000) ==>
                Source(Db(), timeline, f.RedisNil(), cache.now, before) == Rows(Db())
    {
      ghost var e := Snapshot();
      assert e.Ok();
      ghost var newest;
      r, newest := Serve(limit, before, f);
      ResponseMeans(e, old(timeline), timeline, newest, before, limit, f.Reads(), r);
    }

    /** An empty timeline is rebuilt from the newest 1000 rows first, as often as it takes; at or below
        the oldest entry the table answers alone; otherwise the timeline answers, and the table fills
        up the page. */
    method Serve(limit: nat, before: int, f: Faults) returns (r: Response, ghost newest: seq<Video>)
      requires Valid() && limit > 0
      modifies this`timeline, cache`l1, cache`writes
      ensures Valid()
      ensures old(cache.Coherent()) ==> cache.Coherent()
      ensures Served(old(Snapshot()), timeline, before, limit, f.Reads(), r)
      ensures RebuildOnly(Db(), old(timeline), timeline, newest)
      ensures f.RedisNil() ==> timeline == old(timeline)
      ensures r.Rebuilding? ==> old(timeline) == map[] && forall o | o in f.rebuilds :: !o.Applied()
      decreases |f.rebuilds|
    {
      newest := [];
      if f.RedisNil() {
        r := ServeTable(limit, before, f.Reads());
      } else if f.tailFails {
        r := Failed;
      } else if timeline == map[] {
        var v, rows := Rebuild(f, if f.rebuilds == [] then NotDone else f.rebuilds[0]);
        newest := rows;
        if v.Success? && f.rebuilds != [] {
          ghost var rebuilt := timeline;
          r, newest := Serve(limit, before, f.(rebuilds := f.rebuilds[1..]));
          newest := if rebuilt == map[] then newest else rows;
        } else {
          r := if v.QueryFailed? then Failed else if v.EmptyDb? then Page([], 0, false) else Rebuilding;
          EmptyIsServed(old(Snapshot()), timeline, before, limit, f.Reads(), r);
        }
      } else {
        r := ServeTimeline(limit, before, f.Reads());
      }
    }

    method ServeTable(limit: nat, before: int, f: Faults) returns (r: Response)
      requires WellFormed(Db()) && f.RedisNil()
      ensures Served(Snapshot(), timeline, before, limit, f, r) && !r.Rebuilding?
    {
      if f.queryFails {
        return Failed;
      }
      var videos := QueryLatest(limit, before);
      TableIsServed(Snapshot(), timeline, before, limit, f, videos);
      return Respond(videos, limit);
    }

    /** Loads the newest 1000 rows into the empty timeline.  The outcome of the ZADD is not looked at. */
    method Rebuild(f: Faults, zadd: Outcome) returns (v: RebuildResult, ghost rows: seq<Video>)
      requires Valid() && timeline == map[]
      modifies this`timeline
      ensures Valid()
      ensures v.QueryFailed? <==> f.queryFails
      ensures !v.QueryFailed? ==> (v.EmptyDb? <==> Rows(Db()) == {})
      ensures RebuildOnly(Db(), old(timeline), timeline, rows)
      ensures timeline != map[] <==> v.Success? && zadd.Applied()
    {
      rows := [];
      if f.queryFails {
        return QueryFailed, rows;
      }
      var newest := QueryLatest(1000, 0);
      assert Before(Rows(Db()), 0) == Rows(Db());
      rows := newest;
      if |newest| == 0 {
        return EmptyDb, rows;
      }
      RebuiltSource(Db(), newest, cache.now, 0);
      assert newest[0] in Elements(newest);
      if zadd.Applied() {
        timeline := Rebuilt(Db(), newest);
      }
      v := Success;
    }

    method ServeTimeline(limit: nat, before: int, f: Faults) returns (r: Response)
      requires Valid() && limit > 0 && timeline != map[] && !f.RedisNil() && !f.tailFails
      modifies cache`l1, cache`writes
      ensures Valid()
      ensures old(cache.Coherent()) ==> cache.Coherent()
      ensures Served(old(Snapshot()), timeline, before, limit, f, r)
      ensures !r.Rebuilding?
    {
      ghost var e := Snapshot();
      var watermark := Tail(timeline).score;
      var reqTime := if before != 0 then before else cache.now;
      var baseVideos: seq<Video>;
      if reqTime <= watermark {
        if f.queryFails {
          return Failed;
        }
        baseVideos := QueryLatest(limit, before);
        TableIsServed(e, timeline, before, limit, f, baseVideos);
      } else {
        if f.rangeFails {
          return Failed;
        }
        baseVideos := ListHot(limit, before, f);
        TimelineIsServed(e, timeline, before, limit, f, baseVideos);
      }
      r := Respond(baseVideos, limit);
    }

    method ListHot(limit: nat, before: int, f: Faults) returns (baseVideos: seq<Video>)
      requires Valid()
      modifies cache`l1, cache`writes
      ensures Valid()
      ensures old(cache.Coherent()) ==> cache.Coherent()
      ensures HotServed(old(Snapshot()), timeline, before, limit, f, baseVideos)
    {
      ghost var e := Snapshot();
      var videoIDs := NewestIds(timeline, before, limit);
      baseVideos := [];
      if |videoIDs| > 0 {
        baseVideos := cache.GetVideosByIDs(videoIDs, f.entity);
      }
      ghost var base := baseVideos;
      assert base == Loaded(e, timeline, before, limit, f.entity);
      ghost var cold: seq<Video> := [];
      if |baseVideos| < limit {
        var remain := limit - |baseVideos|;
        var coldCursor := if |baseVideos| > 0 then baseVideos[|baseVideos| - 1].createTime else before;
        var coldVideos := QueryLatest(remain, coldCursor);
        cold := coldVideos;
        if !f.stitchFails {
          baseVideos := baseVideos + coldVideos;
        }
      }
      HotIsServed(e, timeline, before, limit, f, base, cold);
    }
  }

  lemma TableIsServed(e: Entities, z: ZSet, before: int, limit: nat, f: Faults, videos: seq<Video>)
    requires f.RedisNil() || (!f.tailFails && z != map[] && (if before != 0 then before else e.now) <= Tail(z).score)
    requires !f.queryFails && IsQuery(Before(Rows(e.Db()), before), limit, videos)
    ensures Served(e, z, before, limit, f, Respond(videos, limit))
  {}

  lemma EmptyIsServed(e: Entities, z: ZSet, before: int, limit: nat, f: Faults, r: Response)
    requires !f.RedisNil() && !f.tailFails && z == map[]
    requires r == if f.queryFails then Failed else if Rows(e.Db()) == {} then Page([], 0, false) else Rebuilding
    ensures Served(e, z, before, limit, f, r)
  {}

  lemma TimelineIsServed(e: Entities, z: ZSet, before: int, limit: nat, f: Faults, videos: seq<Video>)
    requires !f.RedisNil() && !f.tailFails && z != map[] && (if before != 0 then before else e.now) > Tail(z).score
    requires !f.rangeFails && HotServed(e, z, before, limit, f, videos)
    ensures Served(e, z, before, limit, f, Respond(videos, limit))
  {}

  lemma HotIsServed(e: Entities, z: ZSet, before: int, limit: nat, f: Faults, base: seq<Video>, cold: seq<Video>)
    requires base == Loaded(e, z, before, limit, f.entity)
    requires |base| < limit ==> IsQuery(Before(Rows(e.Db()), ColdCursor(base, before)), limit - |base|, cold)
    ensures HotServed(e, z, before, limit, f, if |base| < limit && !f.stitchFails then base + cold else base)
  {
    assert (base + cold)[..|base|] == base && (base + cold)[|base|..] == cold;
  }
}
