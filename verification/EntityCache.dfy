/**
  Loading videos by id through three levels: a local cache, Redis, and MySQL
  (internal/api/feed/service.go, GetVideosByIDs).  Times are milliseconds.  Cached values carry the
  time at which MySQL was read for them; the program does not store it, and no step reads it.
*/
module EntityCache {
  import opened Wrappers
  import opened FeedRepo

  const LOCAL_TTL: int := 5_000
  const REDIS_TTL: int := 3_600_000

  /** A cached payload decodes to a video, or it does not. */
  datatype Stored = Entity(video: Video) | Garbage

  datatype Entry = Entry(stored: Stored, loadedAt: int, expires: int)

  type Level = map<nat, Entry>

  /** A write to Redis that has been started but not done. */
  datatype Write = Write(video: Video, loadedAt: int)

  /** The row had this value from `since` until the next version. */
  datatype Version = Version(since: int, video: Video)

  type History = map<nat, seq<Version>>

  function Current(history: History): Table {
    map id | id in history && history[id] != [] :: history[id][|history[id]| - 1].video
  }

  /** Version k was the row's value at time t. */
  predicate HeldAs(versions: seq<Version>, v: Video, t: int, k: nat) {
    && k < |versions| && versions[k].video == v && versions[k].since <= t
    && (k + 1 < |versions| ==> t <= versions[k + 1].since)
  }

  /** The value was the row's value at time t. */
  predicate Held(versions: seq<Version>, v: Video, t: int) {
    exists k: nat | k < |versions| :: HeldAs(versions, v, t, k)
  }

  /** What goes wrong during one call: no Redis client, a failing MGET, failing row reads. */
  datatype Faults = Faults(redisNil: bool, mgetFails: bool, failedReads: set<nat>)
  {
    predicate UsesRedis() { !redisNil && !mgetFails }
  }

  function FromLevel(level: Level, now: int, id: nat): Option<Video> {
    if id in level && now < level[id].expires && level[id].stored.Entity? then Some(level[id].stored.video) else None
  }

  function FromTable(db: Table, f: Faults, id: nat): Option<Video> {
    if id in db && id !in f.failedReads then Some(db[id]) else None
  }

  /** Where a call finds a video: the first level that has it. */
  function Lookup(l1: Level, l2: Level, db: Table, now: int, f: Faults, id: nat): Option<Video> {
    if FromLevel(l1, now, id).Some? then FromLevel(l1, now, id)
    else if f.UsesRedis() && FromLevel(l2, now, id).Some? then FromLevel(l2, now, id)
    else FromTable(db, f, id)
  }

  /** The ids in their order, duplicates kept, those not found dropped. */
  function Collected(l1: Level, l2: Level, db: Table, now: int, f: Faults, ids: seq<nat>): seq<Video> {
    if ids == [] then []
    else
      var init := Collected(l1, l2, db, now, f, ids[..|ids| - 1]);
      match Lookup(l1, l2, db, now, f, ids[|ids| - 1])
      case Some(v) => init + [v]
      case None => init
  }

  /** A plain table lookup of a list of ids. */
  function TableLookup(db: Table, ids: seq<nat>): seq<Video> {
    if ids == [] then []
    else
      var init := TableLookup(db, ids[..|ids| - 1]);
      if ids[|ids| - 1] in db then init + [db[ids[|ids| - 1]]] else init
  }

  // ---------------------------------------------------------------- what entries may say

  /** The versions of one row, oldest first; the id and the creation time never change. */
  predicate VersionsOk(versions: seq<Version>, id: nat, now: int) {
    && (forall k | 0 <= k < |versions| ::
          && versions[k].video.id == id && versions[k].since <= now
          && versions[k].video.createTime == versions[0].video.createTime)
    && (forall j, k | 0 <= j <= k < |versions| :: versions[j].since <= versions[k].since)
  }

  predicate HistoryOk(history: History, now: int) {
    forall id {:trigger VersionsOk(history[id], id, now)} | id in history :: VersionsOk(history[id], id, now)
  }

  /** A value read from MySQL at `loadedAt`. */
  predicate ReadAt(history: History, now: int, id: nat, v: Video, loadedAt: int) {
    id in history && history[id] != [] && v.id == id && loadedAt <= now && Held(history[id], v, loadedAt)
  }

  /** An entry says what MySQL held when it was read, and does not outlive its lifetime. */
  predicate EntryOk(level: Level, history: History, now: int, lifetime: int, id: nat) {
    id in level && level[id].stored.Entity? ==>
      && ReadAt(history, now, id, level[id].stored.video, level[id].loadedAt)
      && level[id].expires <= level[id].loadedAt + lifetime
  }

  predicate LevelOk(level: Level, history: History, now: int, lifetime: int) {
    forall id {:trigger EntryOk(level, history, now, lifetime, id)} | id in level ::
        EntryOk(level, history, now, lifetime, id)
  }

  predicate WritesOk(writes: seq<Write>, history: History, now: int) {
    forall w | w in writes :: ReadAt(history, now, w.video.id, w.video, w.loadedAt)
  }

  predicate EntryCoherent(level: Level, db: Table, now: int, id: nat) {
    id in level && level[id].stored.Entity? && now < level[id].expires ==> id in db && level[id].stored.video == db[id]
  }

  /** Every value that could still be served or written is the row's current value. */
  predicate LevelCoherent(level: Level, db: Table, now: int) {
    forall id {:trigger EntryCoherent(level, db, now, id)} | id in level :: EntryCoherent(level, db, now, id)
  }

  predicate WritesCoherent(writes: seq<Write>, db: Table, now: int, writeDelay: int) {
    forall w | w in writes && now <= w.loadedAt + writeDelay :: w.video.id in db && w.video == db[w.video.id]
  }

  /** The value was the row's value at some moment of the last `span` milliseconds. */
  ghost predicate Fresh(history: History, now: int, span: int, v: Video) {
    v.id in history && exists t :: now - span <= t <= now && Held(history[v.id], v, t)
  }

  /** How old an answer can be: the two lifetimes add up, with the delay of a write to Redis. */
  function Staleness(writeDelay: int): int {
    REDIS_TTL + writeDelay + LOCAL_TTL
  }

  // ---------------------------------------------------------------- what a call changes

  predicate Missed(l1: Level, now: int, ids: seq<nat>, id: nat) {
    id in ids && FromLevel(l1, now, id).None?
  }

  /** What one level yields for some ids. */
  function Hits(level: Level, now: int, ids: seq<nat>): Table {
    map id | id in ids && FromLevel(level, now, id).Some? :: FromLevel(level, now, id).value
  }

  function RowsFound(db: Table, f: Faults, ids: seq<nat>): Table {
    map id | id in ids && FromTable(db, f, id).Some? :: db[id]
  }

  /** The local entries made from Redis hits: they keep the time of the MySQL read. */
  function Promoted(l2: Level, now: int, missed: seq<nat>): Level {
    map id | id in missed && FromLevel(l2, now, id).Some? ::
      Entry(l2[id].stored, l2[id].loadedAt, now + LOCAL_TTL)
  }

  /** The local entries made from MySQL rows. */
  function Loaded(db: Table, f: Faults, now: int, missed: seq<nat>): Level {
    map id | id in missed && FromTable(db, f, id).Some? :: Entry(Entity(db[id]), now, now + LOCAL_TTL)
  }

  /** The ids left for MySQL. */
  predicate MissedTwice(l1: Level, l2: Level, now: int, f: Faults, ids: seq<nat>, id: nat) {
    Missed(l1, now, ids, id) && (f.UsesRedis() ==> FromLevel(l2, now, id).None?)
  }

  /** What the call copies from Redis to the local cache, and what it caches from MySQL. */
  function CopiedUp(l1: Level, l2: Level, now: int, f: Faults, ids: seq<nat>): Level {
    map id | id in ids && Missed(l1, now, ids, id) && f.UsesRedis() && FromLevel(l2, now, id).Some? ::
      Entry(l2[id].stored, l2[id].loadedAt, now + LOCAL_TTL)
  }

  function ReadIn(l1: Level, l2: Level, db: Table, now: int, f: Faults, ids: seq<nat>): Level {
    map id | id in ids && MissedTwice(l1, l2, now, f, ids, id) && FromTable(db, f, id).Some? ::
      Entry(Entity(db[id]), now, now + LOCAL_TTL)
  }

  /** The local cache behind a call.  It does not depend on the order in which the row reads end. */
  function LocalAfter(l1: Level, l2: Level, db: Table, now: int, f: Faults, ids: seq<nat>): Level {
    l1 + CopiedUp(l1, l2, now, f, ids) + ReadIn(l1, l2, db, now, f, ids)
  }

  /** The writes to Redis that a call starts, in the order in which its row reads end. */
  predicate WritesStarted(started: seq<Write>, db: Table, now: int, f: Faults, missed: seq<nat>) {
    if f.redisNil then started == []
    else
      && (forall w | w in started ::
            w.loadedAt == now && w.video.id in missed && FromTable(db, f, w.video.id) == Some(w.video))
      && (forall id | id in missed && FromTable(db, f, id).Some? :: Write(db[id], now) in started)
  }

  /** The same of the whole call: one write for every id that only MySQL had. */
  predicate CallWrites(started: seq<Write>, l1: Level, l2: Level, db: Table, now: int, f: Faults, ids: seq<nat>) {
    if f.redisNil then started == []
    else
      && (forall w | w in started ::
            && w.loadedAt == now && MissedTwice(l1, l2, now, f, ids, w.video.id)
            && FromTable(db, f, w.video.id) == Some(w.video))
      && (forall id | id in ids && MissedTwice(l1, l2, now, f, ids, id) && FromTable(db, f, id).Some? ::
            Write(db[id], now) in started)
  }

  lemma HitsStep(level: Level, now: int, ids: seq<nat>, id: nat)
    ensures Hits(level, now, ids + [id])
         == if FromLevel(level, now, id).Some? then Hits(level, now, ids)[id := FromLevel(level, now, id).value]
            else Hits(level, now, ids)
  {}

  lemma RedisStep(local: Level, known: Table, l2: Level, now: int, ids: seq<nat>, id: nat)
    ensures FromLevel(l2, now, id).Some? ==>
              && local + Promoted(l2, now, ids + [id])
                 == (local + Promoted(l2, now, ids))[id := Entry(l2[id].stored, l2[id].loadedAt, now + LOCAL_TTL)]
              && known + Hits(l2, now, ids + [id]) == (known + Hits(l2, now, ids))[id := FromLevel(l2, now, id).value]
    ensures FromLevel(l2, now, id).None? ==>
              Promoted(l2, now, ids + [id]) == Promoted(l2, now, ids) && Hits(l2, now, ids + [id]) == Hits(l2, now, ids)
  {
    HitsStep(l2, now, ids, id);
  }

  function RowAdded(known: Table, row: Option<Video>, id: nat): Table {
    if row.Some? then known[id := row.value] else known
  }

  function RowCached(local: Level, row: Option<Video>, id: nat, now: int): Level {
    if row.Some? then local[id := Entry(Entity(row.value), now, now + LOCAL_TTL)] else local
  }

  function WriteStarted(row: Option<Video>, f: Faults, now: int): seq<Write> {
    if row.Some? && !f.redisNil then [Write(row.value, now)] else []
  }

  lemma LoadedStep(db: Table, f: Faults, now: int, ids: seq<nat>, id: nat)
    ensures Loaded(db, f, now, ids + [id]) == RowCached(Loaded(db, f, now, ids), FromTable(db, f, id), id, now)
    ensures RowsFound(db, f, ids + [id]) == RowAdded(RowsFound(db, f, ids), FromTable(db, f, id), id)
  {}

  lemma TableStep(local: Level, known: Table, db: Table, f: Faults, now: int, ids: seq<nat>, id: nat)
    ensures local + Loaded(db, f, now, ids + [id]) ==
            RowCached(local + Loaded(db, f, now, ids), FromTable(db, f, id), id, now)
    ensures known + RowsFound(db, f, ids + [id]) == RowAdded(known + RowsFound(db, f, ids), FromTable(db, f, id), id)
  {
    LoadedStep(db, f, now, ids, id);
  }

  /** The ids whose reads have ended are those at the positions no longer pending. */
  predicate Ended(missed: seq<nat>, pending: set<nat>, ended: seq<nat>) {
    && (forall i | i in pending :: i < |missed|)
    && (forall id :: id in ended ==> id in missed)
    && (forall i | 0 <= i < |missed| && i !in pending :: missed[i] in ended)
  }

  lemma EndedStep(missed: seq<nat>, pending: set<nat>, ended: seq<nat>, i: nat)
    requires Ended(missed, pending, ended) && i in pending
    ensures Ended(missed, pending - {i}, ended + [missed[i]])
  {}

  lemma CurrentIds(history: History, now: int)
    requires HistoryOk(history, now)
    ensures forall id | id in Current(history) :: Current(history)[id].id == id
  {
    forall id | id in Current(history) ensures Current(history)[id].id == id {
      assert VersionsOk(history[id], id, now);
    }
  }

  lemma StartedStep(started: seq<Write>, db: Table, now: int, f: Faults, ids: seq<nat>, id: nat)
    requires WritesStarted(started, db, now, f, ids)
    requires id in db ==> db[id].id == id
    ensures WritesStarted(started + WriteStarted(FromTable(db, f, id), f, now), db, now, f, ids + [id])
  {}

  /** What the reads that have ended did. */
  predicate ReadSoFar(local: Level, known: Table, db: Table, f: Faults, now: int, ended: seq<nat>,
                      l1: Level, videoMap: Table, started: seq<Write>) {
    && l1 == local + Loaded(db, f, now, ended)
    && videoMap == known + RowsFound(db, f, ended)
    && WritesStarted(started, db, now, f, ended)
  }

  lemma ReadStep(local: Level, known: Table, db: Table, f: Faults, now: int, ended: seq<nat>,
                 l1: Level, videoMap: Table, started: seq<Write>, id: nat)
    requires ReadSoFar(local, known, db, f, now, ended, l1, videoMap, started)
    requires id in db ==> db[id].id == id
    ensures var row := FromTable(db, f, id);
            ReadSoFar(local, known, db, f, now, ended + [id], RowCached(l1, row, id, now), RowAdded(videoMap, row, id),
                      started + WriteStarted(row, f, now))
  {
    TableStep(local, known, db, f, now, ended, id);
    StartedStep(started, db, now, f, ended, id);
  }

  lemma SameMembers(db: Table, f: Faults, now: int, a: seq<nat>, b: seq<nat>)
    requires forall id :: id in a <==> id in b
    ensures Loaded(db, f, now, a) == Loaded(db, f, now, b)
    ensures RowsFound(db, f, a) == RowsFound(db, f, b)
  {}

  /** A map that holds what Lookup finds for the listed ids yields the collected list. */
  lemma {:induction false} MapGivesCollected(found: Table, l1: Level, l2: Level, db: Table, now: int, f: Faults,
        ids: seq<nat>)
    requires forall id | id in ids ::
               if id in found then Lookup(l1, l2, db, now, f, id) == Some(found[id])
               else Lookup(l1, l2, db, now, f, id) == None
    ensures TableLookup(found, ids) == Collected(l1, l2, db, now, f, ids)
  {
    if ids != [] {
      MapGivesCollected(found, l1, l2, db, now, f, ids[..|ids| - 1]);
      assert ids[|ids| - 1] in ids;
    }
  }

  function RedisHits(l2: Level, now: int, f: Faults, missedL1: seq<nat>): Table {
    if f.UsesRedis() then Hits(l2, now, missedL1) else map[]
  }

  function RedisPromoted(l2: Level, now: int, f: Faults, missedL1: seq<nat>): Level {
    if f.UsesRedis() then Promoted(l2, now, missedL1) else map[]
  }

  /** The ids that the two searches missed. */
  ghost predicate MissedLists(l1: Level, l2: Level, now: int, f: Faults, ids: seq<nat>, missedL1: seq<nat>,
        missedL2: seq<nat>) {
    && (forall id :: id in missedL1 <==> Missed(l1, now, ids, id))
    && (forall id :: id in missedL2 <==> MissedTwice(l1, l2, now, f, ids, id))
  }

  lemma FoundOne(l1: Level, l2: Level, db: Table, now: int, f: Faults, ids: seq<nat>, missedL1: seq<nat>,
        missedL2: seq<nat>, id: nat)
    requires MissedLists(l1, l2, now, f, ids, missedL1, missedL2) && id in ids
    ensures var found := Hits(l1, now, ids) + RedisHits(l2, now, f, missedL1) + RowsFound(db, f, missedL2);
            Lookup(l1, l2, db, now, f, id) == if id in found then Some(found[id]) else None
  {
    assert id in missedL1 <==> Missed(l1, now, ids, id);
    assert id in missedL2 <==> MissedTwice(l1, l2, now, f, ids, id);
  }

  /** The three levels, searched one after the other, yield what Lookup finds. */
  lemma LevelsGiveCollected(l1: Level, l2: Level, db: Table, now: int, f: Faults, ids: seq<nat>, missedL1: seq<nat>,
        missedL2: seq<nat>)
    requires MissedLists(l1, l2, now, f, ids, missedL1, missedL2)
    ensures TableLookup(Hits(l1, now, ids) + RedisHits(l2, now, f, missedL1) + RowsFound(db, f, missedL2), ids)
         == Collected(l1, l2, db, now, f, ids)
  {
    var found := Hits(l1, now, ids) + RedisHits(l2, now, f, missedL1) + RowsFound(db, f, missedL2);
    forall id | id in ids ensures Lookup(l1, l2, db, now, f, id) == if id in found then Some(found[id]) else None {
      FoundOne(l1, l2, db, now, f, ids, missedL1, missedL2, id);
    }
    MapGivesCollected(found, l1, l2, db, now, f, ids);
  }

  /** ... and leave the local cache that LocalAfter describes. */
  lemma LevelsGiveLocal(l1: Level, l2: Level, db: Table, now: int, f: Faults, ids: seq<nat>, missedL1: seq<nat>,
        missedL2: seq<nat>)
    requires MissedLists(l1, l2, now, f, ids, missedL1, missedL2)
    ensures l1 + RedisPromoted(l2, now, f, missedL1) + Loaded(db, f, now, missedL2) ==
            LocalAfter(l1, l2, db, now, f, ids)
  {
    assert RedisPromoted(l2, now, f, missedL1) == CopiedUp(l1, l2, now, f, ids);
    assert Loaded(db, f, now, missedL2) == ReadIn(l1, l2, db, now, f, ids);
  }

  /** Coherent caches make the call a table lookup, whichever levels hit and whether or not Redis
      is up. */
  lemma {:induction false} CoherentIsTableLookup(l1: Level, l2: Level, db: Table, now: int, f: Faults, ids: seq<nat>)
    requires LevelCoherent(l1, db, now) && LevelCoherent(l2, db, now) && f.failedReads == {}
    ensures Collected(l1, l2, db, now, f, ids) == TableLookup(db, ids)
  {
    if ids != [] {
      var id := ids[|ids| - 1];
      assert EntryCoherent(l1, db, now, id) && EntryCoherent(l2, db, now, id);
      CoherentIsTableLookup(l1, l2, db, now, f, ids[..|ids| - 1]);
    }
  }

  lemma StartedByCall(started: seq<Write>, l1: Level, l2: Level, db: Table, now: int, f: Faults, ids: seq<nat>,
        missedL1: seq<nat>, missedL2: seq<nat>)
    requires MissedLists(l1, l2, now, f, ids, missedL1, missedL2) && WritesStarted(started, db, now, f, missedL2)
    ensures CallWrites(started, l1, l2, db, now, f, ids)
  {}

  lemma PlusNothing<K, V>(m: map<K, V>)
    ensures m + map[] == m
  {}

  /** The same when nothing was left for MySQL, and when nothing was left for Redis. */
  lemma NothingMissed(l1: Level, l2: Level, db: Table, now: int, f: Faults, ids: seq<nat>, missedL1: seq<nat>)
    requires MissedLists(l1, l2, now, f, ids, missedL1, [])
    ensures TableLookup(Hits(l1, now, ids) + RedisHits(l2, now, f, missedL1), ids) == Collected(l1, l2, db, now, f, ids)
    ensures l1 + RedisPromoted(l2, now, f, missedL1) == LocalAfter(l1, l2, db, now, f, ids)
    ensures missedL1 == [] ==>
              && TableLookup(Hits(l1, now, ids), ids) == Collected(l1, l2, db, now, f, ids)
              && l1 == LocalAfter(l1, l2, db, now, f, ids)
  {
    LevelsGiveCollected(l1, l2, db, now, f, ids, missedL1, []);
    LevelsGiveLocal(l1, l2, db, now, f, ids, missedL1, []);
    var found := Hits(l1, now, ids) + RedisHits(l2, now, f, missedL1);
    assert RowsFound(db, f, []) == map[] && Loaded(db, f, now, []) == map[];
    PlusNothing(found);
    PlusNothing(l1 + RedisPromoted(l2, now, f, missedL1));
    if missedL1 == [] {
      PlusNothing(Hits(l1, now, ids));
      PlusNothing(l1);
      assert RedisHits(l2, now, f, []) == map[] && RedisPromoted(l2, now, f, []) == map[];
    }
  }

  lemma CurrentHeld(history: History, now: int, id: nat)
    requires HistoryOk(history, now) && id in Current(history)
    ensures ReadAt(history, now, id, Current(history)[id], now)
  {
    assert VersionsOk(history[id], id, now);
    assert HeldAs(history[id], Current(history)[id], now, |history[id]| - 1);
  }

  /** A call keeps what local entries may say.  Redis entries are copied only to the local cache,
      which feeds nothing, so the two lifetimes add up once. */
  lemma CallKeepsLocal(l1: Level, l2: Level, history: History, now: int, f: Faults, ids: seq<nat>, writeDelay: int)
    requires HistoryOk(history, now) && writeDelay >= 0
    requires LevelOk(l1, history, now, Staleness(writeDelay)) && LevelOk(l2, history, now, REDIS_TTL + writeDelay)
    ensures LevelOk(LocalAfter(l1, l2, Current(history), now, f, ids), history, now, Staleness(writeDelay))
  {
    var after := LocalAfter(l1, l2, Current(history), now, f, ids);
    forall id | id in after ensures EntryOk(after, history, now, Staleness(writeDelay), id) {
      assert EntryOk(l1, history, now, Staleness(writeDelay), id);
      assert EntryOk(l2, history, now, REDIS_TTL + writeDelay, id);
      if id in ReadIn(l1, l2, Current(history), now, f, ids) {
        CurrentHeld(history, now, id);
      }
    }
  }

  lemma CallKeepsCoherence(l1: Level, l2: Level, db: Table, now: int, f: Faults, ids: seq<nat>)
    requires LevelCoherent(l1, db, now) && LevelCoherent(l2, db, now)
    ensures LevelCoherent(LocalAfter(l1, l2, db, now, f, ids), db, now)
  {
    var after := LocalAfter(l1, l2, db, now, f, ids);
    forall id | id in after ensures EntryCoherent(after, db, now, id) {
      assert EntryCoherent(l1, db, now, id) && EntryCoherent(l2, db, now, id);
    }
  }

  lemma StartedOk(started: seq<Write>, history: History, now: int, f: Faults, missed: seq<nat>)
    requires HistoryOk(history, now) && WritesStarted(started, Current(history), now, f, missed)
    ensures WritesOk(started, history, now)
    ensures forall w | w in started :: w.video.id in Current(history) && w.video == Current(history)[w.video.id]
  {
    forall w | w in started ensures ReadAt(history, now, w.video.id, w.video, w.loadedAt) {
      CurrentHeld(history, now, w.video.id);
    }
  }

  lemma LookupFresh(l1: Level, l2: Level, history: History, now: int, f: Faults, id: nat, writeDelay: int)
    requires HistoryOk(history, now) && writeDelay >= 0
    requires LevelOk(l1, history, now, Staleness(writeDelay)) && LevelOk(l2, history, now, REDIS_TTL + writeDelay)
    requires Lookup(l1, l2, Current(history), now, f, id).Some?
    ensures Lookup(l1, l2, Current(history), now, f, id).value.id == id
    ensures Fresh(history, now, Staleness(writeDelay), Lookup(l1, l2, Current(history), now, f, id).value)
  {
    var v := Lookup(l1, l2, Current(history), now, f, id).value;
    assert EntryOk(l1, history, now, Staleness(writeDelay), id);
    assert EntryOk(l2, history, now, REDIS_TTL + writeDelay, id);
    if FromLevel(l1, now, id).Some? {
      assert Held(history[id], v, l1[id].loadedAt);
    } else if f.UsesRedis() && FromLevel(l2, now, id).Some? {
      assert Held(history[id], v, l2[id].loadedAt);
    } else {
      CurrentHeld(history, now, id);
    }
  }

  /** Whatever was written between calls, every value returned was the row's value at some moment
      within the last hour, five seconds and write delay. */
  lemma {:induction false} BoundedStaleness(l1: Level, l2: Level, history: History, now: int, f: Faults,
        ids: seq<nat>, writeDelay: int)
    requires HistoryOk(history, now) && writeDelay >= 0
    requires LevelOk(l1, history, now, Staleness(writeDelay)) && LevelOk(l2, history, now, REDIS_TTL + writeDelay)
    ensures forall v | v in Collected(l1, l2, Current(history), now, f, ids) ::
              v.id in ids && Fresh(history, now, 3_605_000 + writeDelay, v)
  {
    if ids != [] {
      var init := ids[..|ids| - 1];
      BoundedStaleness(l1, l2, history, now, f, init, writeDelay);
      if Lookup(l1, l2, Current(history), now, f, ids[|ids| - 1]).Some? {
        LookupFresh(l1, l2, history, now, f, ids[|ids| - 1], writeDelay);
      }
    }
  }

  /** The levels in their order: a local entry that lives and decodes answers; after it a Redis entry that does,
      if Redis is up; after that the table. */
  lemma LevelsInOrder(l1: Level, l2: Level, db: Table, now: int, f: Faults, id: nat, v: Video)
    ensures id in l1 && l1[id].stored == Entity(v) && now < l1[id].expires ==>
              Lookup(l1, l2, db, now, f, id) == Some(v)
    ensures id !in l1 || l1[id].expires <= now || l1[id].stored.Garbage? ==>
              && (!f.redisNil && !f.mgetFails && id in l2 && l2[id].stored == Entity(v) && now < l2[id].expires ==>
                    Lookup(l1, l2, db, now, f, id) == Some(v))
              && (f.redisNil || f.mgetFails || id !in l2 || l2[id].expires <= now || l2[id].stored.Garbage? ==>
                    Lookup(l1, l2, db, now, f, id) == if id in db && id !in f.failedReads then Some(db[id]) else None)
  {}

  /** What a call finds in Redis or in the table is answered locally for five seconds from then on, whatever
      becomes of the table and of Redis, and no longer. */
  lemma LocalForFiveSeconds(l1: Level, l2: Level, db: Table, now: int, f: Faults, ids: seq<nat>, id: nat, later: int,
        l2': Level, db': Table, f': Faults)
    requires id in ids && Lookup(l1, l2, db, now, f, id).Some? && now <= later
    requires id in l1 ==> l1[id].expires <= now || l1[id].stored.Garbage?
    ensures var after := LocalAfter(l1, l2, db, now, f, ids);
            && (later < now + 5_000 ==> Lookup(after, l2', db', later, f', id) == Lookup(l1, l2, db, now, f, id))
            && (later >= now + 5_000 ==>
                  Lookup(after, l2', db', later, f', id) == Lookup(map[], l2', db', later, f', id))
  {}

  /** A value from an entry with a shorter lifetime behind its read is accordingly younger, and a row read at
      once is current. */
  lemma LookupFreshWithin(l1: Level, l2: Level, history: History, now: int, f: Faults, id: nat, span: int)
    requires HistoryOk(history, now) && span >= 0
    requires id in l1 ==> EntryOk(l1, history, now, span, id)
    requires id in l2 && !f.redisNil && !f.mgetFails ==> EntryOk(l2, history, now, span, id)
    requires Lookup(l1, l2, Current(history), now, f, id).Some?
    ensures Fresh(history, now, span, Lookup(l1, l2, Current(history), now, f, id).value)
  {
    var v := Lookup(l1, l2, Current(history), now, f, id).value;
    if FromLevel(l1, now, id).Some? {
      assert Held(history[id], v, l1[id].loadedAt);
    } else if f.UsesRedis() && FromLevel(l2, now, id).Some? {
      assert Held(history[id], v, l2[id].loadedAt);
    } else {
      CurrentHeld(history, now, id);
    }
  }

  /** What a call can find of a row is at most so old. */
  predicate YoungerThan(l1: Level, l2: Level, history: History, now: int, f: Faults, span: int, id: nat) {
    && (id in l1 ==> EntryOk(l1, history, now, span, id))
    && (id in l2 && !f.redisNil && !f.mgetFails ==> EntryOk(l2, history, now, span, id))
  }

  lemma {:induction false} CollectedFreshWithin(l1: Level, l2: Level, history: History, now: int, f: Faults,
        ids: seq<nat>, span: int, writeDelay: int)
    requires HistoryOk(history, now) && span >= 0 && writeDelay >= 0
    requires LevelOk(l1, history, now, Staleness(writeDelay)) && LevelOk(l2, history, now, REDIS_TTL + writeDelay)
    ensures forall v | v in Collected(l1, l2, Current(history), now, f, ids) ::
              YoungerThan(l1, l2, history, now, f, span, v.id) ==> Fresh(history, now, span, v)
  {
    if ids != [] {
      var init, id := ids[..|ids| - 1], ids[|ids| - 1];
      CollectedFreshWithin(l1, l2, history, now, f, init, span, writeDelay);
      if Lookup(l1, l2, Current(history), now, f, id).Some? {
        LookupFresh(l1, l2, history, now, f, id, writeDelay);
        if YoungerThan(l1, l2, history, now, f, span, id) {
          LookupFreshWithin(l1, l2, history, now, f, id, span);
        }
      }
    }
  }

  lemma RedisIsYoung(l2: Level, history: History, now: int, writeDelay: int)
    requires LevelOk(l2, history, now, REDIS_TTL + writeDelay)
    ensures forall id | id in l2 :: EntryOk(l2, history, now, 3_600_000 + writeDelay, id)
  {
    forall id | id in l2 ensures EntryOk(l2, history, now, 3_600_000 + writeDelay, id) {
      assert EntryOk(l2, history, now, REDIS_TTL + writeDelay, id);
    }
  }

  lemma CallFresh(l1: Level, l2: Level, history: History, now: int, f: Faults, ids: seq<nat>, writeDelay: int)
    requires HistoryOk(history, now) && writeDelay >= 0
    requires LevelOk(l1, history, now, Staleness(writeDelay)) && LevelOk(l2, history, now, REDIS_TTL + writeDelay)
    ensures var res := Collected(l1, l2, Current(history), now, f, ids);
            && (forall v | v in res :: v.id in ids && Fresh(history, now, 3_605_000 + writeDelay, v))
            && (forall v | v in res :: v.id !in l1 ==> Fresh(history, now, 3_600_000 + writeDelay, v))
            && forall v | v in res && (v.id in l1 ==> EntryOk(l1, history, now, 5_000, v.id)) ::
                 f.redisNil || f.mgetFails || v.id !in l2 ==> Fresh(history, now, 5_000, v)
  {
    BoundedStaleness(l1, l2, history, now, f, ids, writeDelay);
    CollectedFreshWithin(l1, l2, history, now, f, ids, 3_600_000 + writeDelay, writeDelay);
    CollectedFreshWithin(l1, l2, history, now, f, ids, 5_000, writeDelay);
    RedisIsYoung(l2, history, now, writeDelay);
  }

  /** A row that no cache had is written to Redis. */
  lemma MissedAreWritten(started: seq<Write>, l1: Level, l2: Level, db: Table, now: int, f: Faults, ids: seq<nat>)
    requires CallWrites(started, l1, l2, db, now, f, ids)
    ensures forall id | id in ids && id !in l1 && id !in l2 && id in db && !f.redisNil ::
              id !in f.failedReads ==> Write(db[id], now) in started
  {}

  /** Without Redis a call keeps local entries as young as their own lifetime. */
  lemma CallKeepsYoung(l1: Level, l2: Level, history: History, now: int, f: Faults, ids: seq<nat>)
    requires HistoryOk(history, now) && (f.redisNil || f.mgetFails) && LevelOk(l1, history, now, 5_000)
    ensures LevelOk(LocalAfter(l1, l2, Current(history), now, f, ids), history, now, 5_000)
  {
    var after := LocalAfter(l1, l2, Current(history), now, f, ids);
    forall id | id in after ensures EntryOk(after, history, now, 5_000, id) {
      assert EntryOk(l1, history, now, 5_000, id);
      if id in ReadIn(l1, l2, Current(history), now, f, ids) {
        CurrentHeld(history, now, id);
      }
    }
  }

  /** No row changed for as long as an entry lives: what can still be served is current. */
  lemma QuietMeansCoherent(level: Level, history: History, now: int, lifetime: int)
    requires HistoryOk(history, now) && LevelOk(level, history, now, lifetime)
    requires forall id | id in history && history[id] != [] :: history[id][|history[id]| - 1].since <= now - lifetime
    ensures LevelCoherent(level, Current(history), now)
  {
    forall id | id in level ensures EntryCoherent(level, Current(history), now, id) {
      assert EntryOk(level, history, now, lifetime, id);
      if level[id].stored.Entity? && now < level[id].expires {
        var versions, t := history[id], level[id].loadedAt;
        assert VersionsOk(versions, id, now);
        var k: nat :| k < |versions| && HeldAs(versions, level[id].stored.video, t, k);
        assert versions[|versions| - 1].since < t;
      }
    }
  }

  /** Creation times never change, so even a stale answer has the current id and creation time. */
  predicate SameTimes(a: seq<Video>, b: seq<Video>) {
    |a| == |b| && forall i | 0 <= i < |a| :: a[i].id == b[i].id && a[i].createTime == b[i].createTime
  }

  lemma HeldTime(history: History, now: int, id: nat, v: Video, t: int)
    requires HistoryOk(history, now) && id in history && history[id] != [] && Held(history[id], v, t)
    ensures v.id == id && v.createTime == Current(history)[id].createTime
  {
    assert VersionsOk(history[id], id, now);
    var k: nat :| k < |history[id]| && HeldAs(history[id], v, t, k);
    assert history[id][|history[id]| - 1].video.createTime == history[id][0].video.createTime;
  }

  lemma LookupRow(l1: Level, l2: Level, history: History, now: int, f: Faults, id: nat, writeDelay: int)
    requires HistoryOk(history, now) && writeDelay >= 0
    requires LevelOk(l1, history, now, Staleness(writeDelay)) && LevelOk(l2, history, now, REDIS_TTL + writeDelay)
    requires Lookup(l1, l2, Current(history), now, f, id).Some?
    ensures var v := Lookup(l1, l2, Current(history), now, f, id).value;
            v.id == id && id in Current(history) && v.createTime == Current(history)[id].createTime
  {
    LookupFresh(l1, l2, history, now, f, id, writeDelay);
    var v := Lookup(l1, l2, Current(history), now, f, id).value;
    var t :| Held(history[v.id], v, t);
    assert history[id] != [];
    HeldTime(history, now, id, v, t);
  }

  lemma LookupTime(l1: Level, l2: Level, history: History, now: int, f: Faults, id: nat, writeDelay: int)
    requires HistoryOk(history, now) && writeDelay >= 0 && f.failedReads == {}
    requires LevelOk(l1, history, now, Staleness(writeDelay)) && LevelOk(l2, history, now, REDIS_TTL + writeDelay)
    ensures Lookup(l1, l2, Current(history), now, f, id).Some? <==> id in Current(history)
    ensures id in Current(history) ==>
              var v := Lookup(l1, l2, Current(history), now, f, id).value;
              v.id == id && v.createTime == Current(history)[id].createTime
  {
    if Lookup(l1, l2, Current(history), now, f, id).Some? {
      LookupRow(l1, l2, history, now, f, id, writeDelay);
    }
  }

  lemma {:induction false} TimesAgree(l1: Level, l2: Level, history: History, now: int, f: Faults, ids: seq<nat>,
        writeDelay: int)
    requires HistoryOk(history, now) && writeDelay >= 0 && f.failedReads == {}
    requires LevelOk(l1, history, now, Staleness(writeDelay)) && LevelOk(l2, history, now, REDIS_TTL + writeDelay)
    ensures SameTimes(Collected(l1, l2, Current(history), now, f, ids), TableLookup(Current(history), ids))
  {
    if ids != [] {
      TimesAgree(l1, l2, history, now, f, ids[..|ids| - 1], writeDelay);
      LookupTime(l1, l2, history, now, f, ids[|ids| - 1], writeDelay);
      CurrentIds(history, now);
    }
  }

  lemma CallAnswers(l1: Level, l2: Level, history: History, now: int, f: Faults, ids: seq<nat>, writeDelay: int)
    requires HistoryOk(history, now) && writeDelay >= 0
    requires LevelOk(l1, history, now, Staleness(writeDelay)) && LevelOk(l2, history, now, REDIS_TTL + writeDelay)
    ensures forall v | v in Collected(l1, l2, Current(history), now, f, ids) ::
              v.id in ids && Fresh(history, now, Staleness(writeDelay), v)
    ensures f.failedReads == {} ==>
              SameTimes(Collected(l1, l2, Current(history), now, f, ids), TableLookup(Current(history), ids))
    ensures f.failedReads == {} && LevelCoherent(l1, Current(history), now)
            && LevelCoherent(l2, Current(history), now) ==>
              Collected(l1, l2, Current(history), now, f, ids) == TableLookup(Current(history), ids)
  {
    BoundedStaleness(l1, l2, history, now, f, ids, writeDelay);
    if f.failedReads == {} {
      TimesAgree(l1, l2, history, now, f, ids, writeDelay);
      if LevelCoherent(l1, Current(history), now) && LevelCoherent(l2, Current(history), now) {
        CoherentIsTableLookup(l1, l2, Current(history), now, f, ids);
      }
    }
  }

  // ---------------------------------------------------------------- writes between calls

  lemma LaterVersion(history: History, now: int, v: Video)
    requires HistoryOk(history, now) && v.id in Current(history) && v.createTime == Current(history)[v.id].createTime
    ensures HistoryOk(history[v.id := history[v.id] + [Version(now, v)]], now)
  {
    var after := history[v.id := history[v.id] + [Version(now, v)]];
    assert VersionsOk(history[v.id], v.id, now);
    forall id | id in after ensures VersionsOk(after[id], id, now) {
      assert id != v.id ==> VersionsOk(history[id], id, now);
    }
  }

  /** What was held at a past moment still was. */
  lemma HeldStays(history: History, now: int, id: nat, x: Video, t: int, v: Video)
    requires v.id in history && ReadAt(history, now, id, x, t)
    ensures ReadAt(history[v.id := history[v.id] + [Version(now, v)]], now, id, x, t)
  {
    var after := history[v.id := history[v.id] + [Version(now, v)]];
    var k: nat :| k < |history[id]| && HeldAs(history[id], x, t, k);
    assert HeldAs(after[id], x, t, k);
    assert Held(after[id], x, t);
  }

  /** A new row changes nothing that was said about the others. */
  lemma InsertKeepsLevel(level: Level, history: History, now: int, lifetime: int, v: Video)
    requires v.id !in history && LevelOk(level, history, now, lifetime)
    ensures LevelOk(level, history[v.id := [Version(now, v)]], now, lifetime)
    ensures LevelCoherent(level, Current(history), now) ==>
            LevelCoherent(level, Current(history[v.id := [Version(now, v)]]), now)
  {
    var after := history[v.id := [Version(now, v)]];
    forall id | id in level ensures EntryOk(level, after, now, lifetime, id) {
      assert EntryOk(level, history, now, lifetime, id);
    }
    if LevelCoherent(level, Current(history), now) {
      forall id | id in level ensures EntryCoherent(level, Current(after), now, id) {
        assert EntryCoherent(level, Current(history), now, id) && EntryOk(level, history, now, lifetime, id);
      }
    }
  }

  lemma InsertKeepsHistory(history: History, now: int, v: Video)
    requires HistoryOk(history, now) && v.id !in history
    ensures HistoryOk(history[v.id := [Version(now, v)]], now)
  {
    var after := history[v.id := [Version(now, v)]];
    forall id | id in after ensures VersionsOk(after[id], id, now) {
      assert id != v.id ==> VersionsOk(history[id], id, now);
    }
  }

  lemma InsertKeepsWrites(writes: seq<Write>, history: History, now: int, writeDelay: int, v: Video)
    requires v.id !in history && WritesOk(writes, history, now)
    ensures WritesOk(writes, history[v.id := [Version(now, v)]], now)
    ensures WritesCoherent(writes, Current(history), now, writeDelay) ==>
              WritesCoherent(writes, Current(history[v.id := [Version(now, v)]]), now, writeDelay)
  {
    forall w | w in writes ensures w.video.id != v.id {
      assert ReadAt(history, now, w.video.id, w.video, w.loadedAt);
    }
  }

  lemma LevelStays(level: Level, history: History, now: int, lifetime: int, v: Video)
    requires v.id in history && LevelOk(level, history, now, lifetime)
    ensures LevelOk(level, history[v.id := history[v.id] + [Version(now, v)]], now, lifetime)
  {
    var after := history[v.id := history[v.id] + [Version(now, v)]];
    forall id | id in level ensures EntryOk(level, after, now, lifetime, id) {
      assert EntryOk(level, history, now, lifetime, id);
      if level[id].stored.Entity? {
        HeldStays(history, now, id, level[id].stored.video, level[id].loadedAt, v);
      }
    }
  }

  /** Time passing takes nothing back. */
  lemma TimeKeepsLevel(level: Level, history: History, now: int, later: int, lifetime: int)
    requires now <= later && LevelOk(level, history, now, lifetime)
    ensures LevelOk(level, history, later, lifetime)
    ensures LevelCoherent(level, Current(history), now) ==> LevelCoherent(level, Current(history), later)
  {
    forall id | id in level ensures EntryOk(level, history, later, lifetime, id) {
      assert EntryOk(level, history, now, lifetime, id);
    }
    if LevelCoherent(level, Current(history), now) {
      forall id | id in level ensures EntryCoherent(level, Current(history), later, id) {
        assert EntryCoherent(level, Current(history), now, id);
      }
    }
  }

  lemma TimeKeepsHistory(history: History, now: int, later: int)
    requires now <= later && HistoryOk(history, now)
    ensures HistoryOk(history, later)
  {
    forall id | id in history ensures VersionsOk(history[id], id, later) {
      assert VersionsOk(history[id], id, now);
    }
  }

  /** One more good entry. */
  lemma StoreKeepsLevel(level: Level, history: History, now: int, lifetime: int, id: nat, entry: Entry)
    requires LevelOk(level, history, now, lifetime) && entry.stored.Entity?
    requires ReadAt(history, now, id, entry.stored.video, entry.loadedAt) && entry.expires <= entry.loadedAt + lifetime
    ensures LevelOk(level[id := entry], history, now, lifetime)
    ensures LevelCoherent(level, Current(history), now) && id in Current(history)
            && entry.stored.video == Current(history)[id] ==>
              LevelCoherent(level[id := entry], Current(history), now)
  {
    var after := level[id := entry];
    forall other | other in after ensures EntryOk(after, history, now, lifetime, other) {
      assert EntryOk(level, history, now, lifetime, other);
    }
    if LevelCoherent(level, Current(history), now) && id in Current(history)
       && entry.stored.video == Current(history)[id] {
      forall other | other in after ensures EntryCoherent(after, Current(history), now, other) {
        assert EntryCoherent(level, Current(history), now, other);
      }
    }
  }

  /** Fewer or undecodable entries do no harm. */
  lemma LossKeepsLevel(level: Level, fewer: Level, history: History, now: int, lifetime: int)
    requires LevelOk(level, history, now, lifetime)
    requires forall id | id in fewer :: id in level && (fewer[id] == level[id] || fewer[id].stored.Garbage?)
    ensures LevelOk(fewer, history, now, lifetime)
    ensures LevelCoherent(level, Current(history), now) ==> LevelCoherent(fewer, Current(history), now)
  {
    forall id | id in fewer ensures EntryOk(fewer, history, now, lifetime, id) {
      assert EntryOk(level, history, now, lifetime, id);
    }
    if LevelCoherent(level, Current(history), now) {
      forall id | id in fewer ensures EntryCoherent(fewer, Current(history), now, id) {
        assert EntryCoherent(level, Current(history), now, id);
      }
    }
  }

  class Cache {
    var now: int
    var history: History
    var l1: Level
    var l2: Level
    var writes: seq<Write>
    const writeDelay: int

    ghost predicate Valid()
      reads this
    {
      && writeDelay >= 0
      && HistoryOk(history, now)
      && LevelOk(l1, history, now, Staleness(writeDelay))
      && LevelOk(l2, history, now, REDIS_TTL + writeDelay)
      && WritesOk(writes, history, now)
    }

    predicate Coherent()
      reads this
    {
      LevelCoherent(l1, Current(history), now) && LevelCoherent(l2, Current(history), now)
      && WritesCoherent(writes, Current(history), now, writeDelay)
    }

    /** Nothing local is older than the local lifetime: so it is as long as nothing came from Redis. */
    predicate Young()
      reads this
    {
      LevelOk(l1, history, now, 5_000)
    }

    constructor (now: int, writeDelay: int)
      requires writeDelay >= 0
      ensures Valid() && Coherent() && Young() && history == map[] && this.now == now && this.writeDelay == writeDelay
    {
      this.now := now;
      this.writeDelay := writeDelay;
      history := map[];
      l1 := map[];
      l2 := map[];
      writes := [];
    }

    // ---- what happens between calls

    method Wait(time: nat)
      requires Valid()
      modifies this`now
      ensures Valid() && now == old(now) + time
      ensures old(Coherent()) ==> Coherent()
      ensures old(Young()) ==> Young()
    {
      if Young() {
        TimeKeepsLevel(l1, history, now, now + time, 5_000);
      }
      TimeKeepsHistory(history, now, now + time);
      TimeKeepsLevel(l1, history, now, now + time, Staleness(writeDelay));
      TimeKeepsLevel(l2, history, now, now + time, REDIS_TTL + writeDelay);
      now := now + time;
    }

    method InsertRow(v: Video)
      requires Valid() && v.id !in history
      modifies this`history
      ensures Valid() && history == old(history)[v.id := [Version(now, v)]]
      ensures old(Coherent()) ==> Coherent()
      ensures old(Young()) ==> Young()
    {
      if Young() {
        InsertKeepsLevel(l1, history, now, 5_000, v);
      }
      ghost var after := history[v.id := [Version(now, v)]];
      InsertKeepsHistory(history, now, v);
      InsertKeepsLevel(l1, history, now, Staleness(writeDelay), v);
      InsertKeepsLevel(l2, history, now, REDIS_TTL + writeDelay, v);
      InsertKeepsWrites(writes, history, now, writeDelay, v);
      assert Coherent() ==>
        LevelCoherent(l1, Current(after), now) && LevelCoherent(l2, Current(after), now)
        && WritesCoherent(writes, Current(after), now, writeDelay);
      history := history[v.id := [Version(now, v)]];
    }

    /** An update keeps the creation time. */
    method UpdateRow(v: Video)
      requires Valid() && v.id in Current(history) && v.createTime == Current(history)[v.id].createTime
      modifies this`history
      ensures Valid() && history == old(history)[v.id := old(history)[v.id] + [Version(now, v)]]
      ensures old(Young()) ==> Young()
    {
      if Young() {
        LevelStays(l1, history, now, 5_000, v);
      }
      LaterVersion(history, now, v);
      LevelStays(l1, history, now, Staleness(writeDelay), v);
      LevelStays(l2, history, now, REDIS_TTL + writeDelay, v);
      forall w | w in writes
        ensures ReadAt(history[v.id := history[v.id] + [Version(now, v)]], now, w.video.id, w.video, w.loadedAt)
      {
        HeldStays(history, now, w.video.id, w.video, w.loadedAt, v);
      }
      history := history[v.id := history[v.id] + [Version(now, v)]];
    }

    /** A started write reaches Redis within the write delay, or never. */
    method DeliverWrite(k: nat)
      requires Valid() && k < |writes| && now <= writes[k].loadedAt + writeDelay
      modifies this`l2, this`writes
      ensures Valid()
      ensures l2 == old(l2)[old(writes)[k].video.id :=
              Entry(Entity(old(writes)[k].video), old(writes)[k].loadedAt, now + 3_600_000)]
      ensures writes == old(writes)[..k] + old(writes)[k + 1..]
      ensures old(Coherent()) ==> Coherent()
    {
      var w := writes[k];
      assert w in writes;
      StoreKeepsLevel(l2, history, now, REDIS_TTL + writeDelay, w.video.id,
                      Entry(Entity(w.video), w.loadedAt, now + REDIS_TTL));
      l2 := l2[w.video.id := Entry(Entity(w.video), w.loadedAt, now + REDIS_TTL)];
      writes := writes[..k] + writes[k + 1..];
      assert forall x | x in writes :: x in old(writes);
    }

    method LoseWrite(k: nat)
      requires Valid() && k < |writes|
      modifies this`writes
      ensures Valid() && writes == old(writes)[..k] + old(writes)[k + 1..]
      ensures old(Coherent()) ==> Coherent()
    {
      writes := writes[..k] + writes[k + 1..];
      assert forall x | x in writes :: x in old(writes);
    }

    /** Either cache may drop entries, and a payload in Redis may turn out not to decode. */
    method Evict(local: set<nat>, remote: set<nat>, corrupt: set<nat>)
      requires Valid()
      modifies this`l1, this`l2
      ensures Valid() && l1 == old(l1) - local
      ensures l2 == map id | id in old(l2) && id !in remote ::
                      if id in corrupt then old(l2)[id].(stored := Garbage) else old(l2)[id]
      ensures old(Coherent()) ==> Coherent()
      ensures old(Young()) ==> Young()
    {
      if Young() {
        LossKeepsLevel(l1, l1 - local, history, now, 5_000);
      }
      LossKeepsLevel(l1, l1 - local, history, now, Staleness(writeDelay));
      LossKeepsLevel(l2, map id | id in l2 && id !in remote ::
          if id in corrupt then l2[id].(stored := Garbage) else l2[id],
                     history, now, REDIS_TTL + writeDelay);
      l1 := l1 - local;
      l2 := map id | id in l2 && id !in remote :: if id in corrupt then l2[id].(stored := Garbage) else l2[id];
    }

    // ---- the call

    /** Whatever was written between calls, every value returned was the row's value at some moment
        within the last hour, five seconds and write delay; within an hour and the delay if nothing local
        was kept for it; within five seconds if it did not come through Redis.  When the row reads succeed,
        the ids and creation times are the table's, and coherent caches make the whole call a plain
        table lookup.  A row that no cache had is written to Redis. */
    method GetVideosByIDs(videoIDs: seq<nat>, f: Faults) returns (res: seq<Video>)
      requires Valid()
      modifies this`l1, this`writes
      ensures Valid()
      ensures old(Coherent()) ==> Coherent()
      ensures res == Collected(old(l1), l2, Current(history), now, f, videoIDs)
      ensures l1 == LocalAfter(old(l1), l2, Current(history), now, f, videoIDs)
      ensures old(writes) <= writes
      ensures CallWrites(writes[|old(writes)|..], old(l1), l2, Current(history), now, f, videoIDs)
      ensures forall v | v in res :: v.id in videoIDs && Fresh(history, now, 3_605_000 + writeDelay, v)
      ensures forall v | v in res :: v.id !in old(l1) ==> Fresh(history, now, 3_600_000 + writeDelay, v)
      ensures forall v | v in res && (v.id in old(l1) ==> EntryOk(old(l1), history, now, 5_000, v.id)) ::
                f.redisNil || f.mgetFails || v.id !in l2 ==> Fresh(history, now, 5_000, v)
      ensures (f.redisNil || f.mgetFails) && old(Young()) ==> Young()
      ensures forall id | id in videoIDs && id !in old(l1) && id !in l2 && id in Current(history) && !f.redisNil ::
                id !in f.failedReads ==> Write(Current(history)[id], now) in writes
      ensures f.failedReads == {} ==> SameTimes(res, TableLookup(Current(history), videoIDs))
      ensures f.failedReads == {} && old(Coherent()) ==> res == TableLookup(Current(history), videoIDs)
    {
      CallAnswers(l1, l2, history, now, f, videoIDs, writeDelay);
      CallFresh(l1, l2, history, now, f, videoIDs, writeDelay);
      if (f.redisNil || f.mgetFails) && Young() {
        CallKeepsYoung(l1, l2, history, now, f, videoIDs);
      }
      res := Load(videoIDs, f);
      CallKeepsLocal(old(l1), l2, history, now, f, videoIDs, writeDelay);
      MissedAreWritten(writes[|old(writes)|..], old(l1), l2, Current(history), now, f, videoIDs);
      if old(Coherent()) {
        CallKeepsCoherence(old(l1), l2, Current(history), now, f, videoIDs);
      }
    }

    /** The search itself. */
    method Load(videoIDs: seq<nat>, f: Faults) returns (res: seq<Video>)
      requires HistoryOk(history, now) && WritesOk(writes, history, now)
      modifies this`l1, this`writes
      ensures res == Collected(old(l1), l2, Current(history), now, f, videoIDs)
      ensures l1 == LocalAfter(old(l1), l2, Current(history), now, f, videoIDs)
      ensures old(writes) <= writes && WritesOk(writes, history, now)
      ensures forall w | w in writes[|old(writes)|..] ::
              w.video.id in Current(history) && w.video == Current(history)[w.video.id]
      ensures CallWrites(writes[|old(writes)|..], old(l1), l2, Current(history), now, f, videoIDs)
    {
      if |videoIDs| == 0 {
        return [];
      }
      ghost var db := Current(history);
      var videoMap, missedL1 := LoadFromLocal(videoIDs);
      if |missedL1| == 0 {
        NothingMissed(l1, l2, db, now, f, videoIDs, []);
        StartedByCall([], l1, l2, db, now, f, videoIDs, [], []);
        res := BuildOrderedResult(videoIDs, videoMap);
        return;
      }
      var missedL2: seq<nat> := missedL1;
      if f.UsesRedis() {
        videoMap, missedL2 := LoadFromRedis(videoMap, missedL1);
      } else {
        assert videoMap == videoMap + RedisHits(l2, now, f, missedL1);
        assert l1 == l1 + RedisPromoted(l2, now, f, missedL1);
      }
      assert MissedLists(old(l1), l2, now, f, videoIDs, missedL1, missedL2);
      if |missedL2| == 0 {
        NothingMissed(old(l1), l2, db, now, f, videoIDs, missedL1);
        StartedByCall([], old(l1), l2, db, now, f, videoIDs, missedL1, missedL2);
        res := BuildOrderedResult(videoIDs, videoMap);
        return;
      }
      LevelsGiveCollected(old(l1), l2, db, now, f, videoIDs, missedL1, missedL2);
      LevelsGiveLocal(old(l1), l2, db, now, f, videoIDs, missedL1, missedL2);
      videoMap := LoadFromTable(videoMap, missedL2, f);
      StartedOk(writes[|old(writes)|..], history, now, f, missedL2);
      StartedByCall(writes[|old(writes)|..], old(l1), l2, db, now, f, videoIDs, missedL1, missedL2);
      assert writes == old(writes) + writes[|old(writes)|..];
      res := BuildOrderedResult(videoIDs, videoMap);
    }

    method LoadFromLocal(videoIDs: seq<nat>) returns (videoMap: Table, missedL1: seq<nat>)
      ensures videoMap == Hits(l1, now, videoIDs)
      ensures forall id :: id in missedL1 <==> Missed(l1, now, videoIDs, id)
    {
      videoMap, missedL1 := map[], [];
      for i := 0 to |videoIDs|
        invariant videoMap == Hits(l1, now, videoIDs[..i])
        invariant forall id :: id in missedL1 <==> Missed(l1, now, videoIDs[..i], id)
      {
        var id := videoIDs[i];
        assert videoIDs[..i + 1] == videoIDs[..i] + [id];
        HitsStep(l1, now, videoIDs[..i], id);
        var hit := FromLevel(l1, now, id);
        if hit.Some? {
          videoMap := videoMap[id := hit.value];
        } else {
          missedL1 := missedL1 + [id];
        }
      }
      assert videoIDs[..|videoIDs|] == videoIDs;
    }

    method LoadFromRedis(known: Table, missedL1: seq<nat>) returns (videoMap: Table, missedL2: seq<nat>)
      modifies this`l1
      ensures l1 == old(l1) + Promoted(l2, now, missedL1)
      ensures videoMap == known + Hits(l2, now, missedL1)
      ensures forall id :: id in missedL2 <==> id in missedL1 && FromLevel(l2, now, id).None?
    {
      var redis, time := l2, now;
      videoMap, missedL2 := known, [];
      for i := 0 to |missedL1|
        invariant l1 == old(l1) + Promoted(redis, time, missedL1[..i])
        invariant videoMap == known + Hits(redis, time, missedL1[..i])
        invariant forall id :: id in missedL2 <==> id in missedL1[..i] && FromLevel(redis, time, id).None?
      {
        var id := missedL1[i];
        assert missedL1[..i + 1] == missedL1[..i] + [id];
        RedisStep(old(l1), known, redis, time, missedL1[..i], id);
        var hit := FromLevel(redis, time, id);
        if hit.Some? {
          videoMap := videoMap[id := hit.value];
          l1 := l1[id := Entry(redis[id].stored, redis[id].loadedAt, time + LOCAL_TTL)];
        } else {
          missedL2 := missedL2 + [id];
        }
      }
      assert missedL1[..|missedL1|] == missedL1;
    }

    /** One row read. */
    method LoadRow(known: Table, id: nat, f: Faults) returns (videoMap: Table)
      modifies this`l1, this`writes
      ensures var row := FromTable(Current(history), f, id);
              && videoMap == RowAdded(known, row, id)
              && l1 == RowCached(old(l1), row, id, now)
              && writes == old(writes) + WriteStarted(row, f, now)
    {
      var row := FromTable(Current(history), f, id);
      videoMap := known;
      if row.Some? {
        if !f.redisNil {
          writes := writes + [Write(row.value, now)];
        }
        videoMap := videoMap[id := row.value];
        l1 := l1[id := Entry(Entity(row.value), now, now + LOCAL_TTL)];
      }
    }

    /** One read per missed id; the reads run side by side and end in any order. */
    method LoadFromTable(known: Table, missedL2: seq<nat>, f: Faults) returns (videoMap: Table)
      requires HistoryOk(history, now)
      modifies this`l1, this`writes
      ensures l1 == old(l1) + Loaded(Current(history), f, now, missedL2)
      ensures videoMap == known + RowsFound(Current(history), f, missedL2)
      ensures old(writes) <= writes
      ensures WritesStarted(writes[|old(writes)|..], Current(history), now, f, missedL2)
    {
      ghost var db := Current(history);
      CurrentIds(history, now);
      videoMap := known;
      var pending: set<nat> := set i {:trigger missedL2[i]} | 0 <= i < |missedL2|;
      ghost var ended: seq<nat> := [];
      ghost var started: seq<Write> := [];
      while pending != {}
        invariant Ended(missedL2, pending, ended)
        invariant writes == old(writes) + started
        invariant ReadSoFar(old(l1), known, db, f, now, ended, l1, videoMap, started)
      {
        var i :| i in pending;
        EndedStep(missedL2, pending, ended, i);
        var id := missedL2[i];
        ghost var row := FromTable(db, f, id);
        ghost var localBefore, mapBefore := l1, videoMap;
        ReadStep(old(l1), known, db, f, now, ended, localBefore, mapBefore, started, id);
        pending := pending - {i};
        videoMap := LoadRow(videoMap, id, f);
        ended := ended + [id];
        started := started + WriteStarted(row, f, now);
        assert l1 == RowCached(localBefore, row, id, now) && videoMap == RowAdded(mapBefore, row, id);
      }
      SameMembers(db, f, now, ended, missedL2);
      assert writes[|old(writes)|..] == started;
    }

    method BuildOrderedResult(orderedIDs: seq<nat>, dataMap: Table) returns (res: seq<Video>)
      ensures res == TableLookup(dataMap, orderedIDs)
    {
      res := [];
      for i := 0 to |orderedIDs|
        invariant res == TableLookup(dataMap, orderedIDs[..i])
      {
        assert orderedIDs[..i + 1][..i] == orderedIDs[..i];
        if orderedIDs[i] in dataMap {
          res := res + [dataMap[orderedIDs[i]]];
        }
      }
      assert orderedIDs[..|orderedIDs|] == orderedIDs;
    }
  }
}
