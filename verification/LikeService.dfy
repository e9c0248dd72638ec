/**
  Liking and unliking as code runs it: the service hands the change to the message queue or makes it itself
  (internal/api/like/service.go), and the worker applies what was handed over
  (internal/worker/like_worker.go).
*/
module LikeService {
  import opened Wrappers
  import opened LikeCounters

  // ---------------------------------------------------------------- the worker

  /** A message body as the worker sees it after decoding. */
  datatype Body = Malformed | Event(action: string, userId: nat, videoId: nat)

  predicate Usable(body: Body) {
    body.Event? && body.userId != 0 && body.videoId != 0 && (body.action == "like" || body.action == "unlike")
  }

  /** How the statements of one delivery end. */
  datatype Ends = Ends(existFails: bool, row: Outcome, count: Outcome, heat: Outcome)

  function WithRow(db: Db, like: Like, up: bool): Db {
    db.(likes := if up then db.likes + {like} else db.likes - {like})
  }

  /** The database after one delivery: the row first, and each counter only if everything before it was
      reported done. */
  function Applied(db: Db, like: Like, up: bool, e: Ends): Db {
    if e.existFails || like.video !in db.videos || (like in db.likes <==> up) || !e.row.Applied() then db
    else
      var d1 := WithRow(db, like, up);
      if !e.row.Reported() then d1
      else
        var d2 := if e.count.Applied() then ChangeLikesCount(d1, like.video, up) else d1;
        if e.count.Reported() && e.heat.Applied() then ChangePopularity(d2, like.video, up) else d2
  }

  /** Whether the delivery is reported as failed, and so retried. */
  predicate Errs(db: Db, like: Like, up: bool, e: Ends) {
    e.existFails
    || (like.video in db.videos
        && (!e.row.Reported() || (!(like in db.likes <==> up) && (!e.count.Reported() || !e.heat.Reported()))))
  }

  /** A delivery that is not reported as failed leaves the row as it was asked for. */
  lemma NoErrorMeansDone(db: Db, like: Like, up: bool, e: Ends)
    requires !Errs(db, like, up, e) && like.video in db.videos
    ensures like in Applied(db, like, up, e).likes <==> up
  {}

  /** One transaction: the row and both counters. */
  function Transacted(db: Db, like: Like, up: bool): Db {
    var d := WithRow(db, like, up);
    if like.video in db.videos then ChangePopularity(ChangeLikesCount(d, like.video, up), like.video, up) else d
  }

  /** The transaction's own checks: a like needs the video, and the row must not be as asked already. */
  predicate Refuses(db: Db, like: Like, up: bool) {
    (up && like.video !in db.videos) || (like in db.likes <==> up)
  }

  class LikeWorker {
    var db: Db

    constructor (db: Db)
      ensures this.db == db
    {
      this.db := db;
    }

    /** A like or an unlike of an existing video that is not reported as failed leaves the row as asked; without
        faults, what the service puts on the queue has the effect of the service's own transaction.  Anything
        else is dropped. */
    method Process(body: Body, e: Ends) returns (err: bool)
      modifies this
      ensures forall u, v | body == Event("like", u, v) && u != 0 && v != 0 ::
                !err && v in old(db).videos ==> Like(v, u) in db.likes
      ensures forall u, v | body == Event("unlike", u, v) && u != 0 && v != 0 ::
                !err && v in old(db).videos ==> Like(v, u) !in db.likes
      ensures forall like: Like, up: bool {:trigger Transacted(old(db), like, up)} ::
                body == Event(if up then "like" else "unlike", like.account, like.video)
                && like.account != 0 && like.video in old(db).videos && like.video != 0
                && (like in old(db).likes <==> !up)
                && e == Ends(false, Done, Done, Done) ==>
                  db == Transacted(old(db), like, up) && !err
      ensures body.Malformed? || body.userId == 0 || body.videoId == 0 || body.videoId !in old(db).videos
              || (body.action != "like" && body.action != "unlike") ==>
                db == old(db) && (err ==> body.Event? && e.existFails)
      ensures db == if Usable(body) then Applied(old(db), Like(body.videoId, body.userId), body.action == "like", e)
                    else old(db)
      ensures err <==> Usable(body) && Errs(old(db), Like(body.videoId, body.userId), body.action == "like", e)
    {
      if body.Malformed? {
        return false;
      }
      if body.userId == 0 || body.videoId == 0 {
        return false;
      }
      if body.action == "like" {
        err := ApplyLike(body.userId, body.videoId, e);
      } else if body.action == "unlike" {
        err := ApplyUnlike(body.userId, body.videoId, e);
      } else {
        err := false;
      }
    }

    method ApplyLike(userId: nat, videoId: nat, e: Ends) returns (err: bool)
      modifies this
      ensures db == Applied(old(db), Like(videoId, userId), true, e)
      ensures err <==> Errs(old(db), Like(videoId, userId), true, e)
    {
      if e.existFails {
        return true;
      }
      if videoId !in db.videos {
        return false;
      }
      var created := Like(videoId, userId) !in db.likes;
      if created && e.row.Applied() {
        db := WithRow(db, Like(videoId, userId), true);
      }
      if !e.row.Reported() {
        return true;
      }
      if !created {
        return false;
      }
      if e.count.Applied() {
        db := ChangeLikesCount(db, videoId, true);
      }
      if !e.count.Reported() {
        return true;
      }
      if e.heat.Applied() {
        db := ChangePopularity(db, videoId, true);
      }
      err := !e.heat.Reported();
    }

    method ApplyUnlike(userId: nat, videoId: nat, e: Ends) returns (err: bool)
      modifies this
      ensures db == Applied(old(db), Like(videoId, userId), false, e)
      ensures err <==> Errs(old(db), Like(videoId, userId), false, e)
    {
      if e.existFails {
        return true;
      }
      if videoId !in db.videos {
        return false;
      }
      var deleted := Like(videoId, userId) in db.likes;
      if deleted && e.row.Applied() {
        db := WithRow(db, Like(videoId, userId), false);
      }
      if !e.row.Reported() {
        return true;
      }
      if !deleted {
        return false;
      }
      if e.count.Applied() {
        db := ChangeLikesCount(db, videoId, false);
      }
      if !e.count.Reported() {
        return true;
      }
      if e.heat.Applied() {
        db := ChangePopularity(db, videoId, false);
      }
      err := !e.heat.Reported();
    }
  }

  /** A delivery is the steps of one worker in a row: a row step, then a count and a heat step for as
      long as the worker has something to do. */
  function Delivered(s: State, w: nat, like: Like, up: bool, e: Ends): State
    requires Known(s) && w < |s.jobs| && s.jobs[w].Idle? && like.video in s.db.videos
  {
    var s1 := Step(s, if up then InsertRow(w, like, e.row) else DeleteRow(w, like, e.row));
    if s1.jobs[w].Idle? then s1
    else
      var s2 := Step(s1, Count(w, e.count));
      if s2.jobs[w].Idle? then s2 else Step(s2, Heat(w, e.heat))
  }

  lemma DeliveredIsApplied(s: State, w: nat, like: Like, up: bool, e: Ends)
    requires Known(s) && w < |s.jobs| && s.jobs[w].Idle? && like.video in s.db.videos && !e.existFails
    ensures Delivered(s, w, like, up, e).db == Applied(s.db, like, up, e)
    ensures Delivered(s, w, like, up, e).jobs == s.jobs
  {
    var s' := Delivered(s, w, like, up, e);
    assert s'.jobs[w] == Idle;
    assert s'.jobs == s.jobs;
  }

  /** A redelivery of what was applied changes nothing, whether or not the counters got it. */
  lemma RedeliveryIsIdle(db: Db, like: Like, up: bool, e: Ends, again: Ends)
    requires e.row.Applied() && !e.existFails
    ensures Applied(Applied(db, like, up, e), like, up, again) == Applied(db, like, up, e)
  {}

  // ---------------------------------------------------------------- the service

  datatype Reply = Accepted | BadRequest | VideoNotFound | AlreadyLiked | NotLiked | DatabaseError

  /** What happens to one call: reads and the transaction can fail, and each queue takes its message or
      does not. */
  datatype Faults = Faults(
    existFails: bool, likedFails: bool, likeQueueTakes: bool, popularityQueueTakes: bool, tx: Outcome)

  datatype PopularityEvent = PopularityEvent(videoId: nat, change: int)

  /** Whether the transaction makes the change; it can make it although the caller is told otherwise. */
  predicate Transacts(db: Db, like: Like, up: bool, tx: Outcome) {
    tx.Applied() && !Refuses(db, like, up)
  }

  class LikeService {
    var db: Db
    var likeQueue: seq<Body>
    var popularityQueue: seq<PopularityEvent>
    var hotUpdates: seq<PopularityEvent>

    constructor (db: Db)
      ensures this.db == db && likeQueue == [] && popularityQueue == [] && hotUpdates == []
    {
      this.db := db;
      likeQueue, popularityQueue, hotUpdates := [], [], [];
    }

    /** Whether a call may go on. */
    predicate Checks(like: Like, up: bool, f: Faults)
      reads this
    {
      && like.video != 0 && like.account != 0 && !f.existFails && like.video in db.videos
      && !f.likedFails && (like in db.likes <==> !up)
    }

    /** Other calls and the workers go on while a call is under way: `later` is the database as they
        have left it when this call has tried the queues. */
    method Change(like: Like, up: bool, f: Faults, later: Db) returns (r: Reply)
      modifies this
      ensures like.video != 0 && like.account != 0 && like.video in old(db).videos && later == old(db)
              && f == Faults(false, false, true, true, Done) && (like in old(db).likes <==> !up) ==>
                && r == Accepted && db == old(db)
                && likeQueue == old(likeQueue)
                                + [Event(if up then "like" else "unlike", like.account, like.video)]
                && popularityQueue == old(popularityQueue) + [PopularityEvent(like.video, if up then 1 else -1)]
      ensures like.video != 0 && like.account != 0 && like.video in old(db).videos && later == old(db)
              && f == Faults(false, false, false, false, Done) && (like in old(db).likes <==> !up) ==>
                && r == Accepted && db == Transacted(old(db), like, up)
                && hotUpdates == old(hotUpdates) + [PopularityEvent(like.video, if up then 1 else -1)]
      ensures like.video == 0 || like.account == 0 ==> r == BadRequest
      ensures like.video != 0 && like.account != 0 ==>
                && (f.existFails ==> r == DatabaseError)
                && (!f.existFails && like.video !in old(db).videos ==> r == VideoNotFound)
                && (!f.existFails && like.video in old(db).videos ==>
                      && (f.likedFails ==> r == DatabaseError)
                      && (!f.likedFails && up && like in old(db).likes ==> r == AlreadyLiked)
                      && (!f.likedFails && !up && like !in old(db).likes ==> r == NotLiked))
      ensures (like in old(db).likes <==> up) || like.video !in old(db).videos ==>
                r != Accepted && db == old(db)
      ensures !old(Checks(like, up, f)) ==>
                r != Accepted && db == old(db) && likeQueue == old(likeQueue) && popularityQueue == old(popularityQueue)
                && hotUpdates == old(hotUpdates)
      ensures old(Checks(like, up, f)) ==>
                && (r == Accepted <==> f.likeQueueTakes || (f.tx.Reported() && !Refuses(later, like, up)))
                && likeQueue == old(likeQueue)
                     + (if f.likeQueueTakes then [Event(if up then "like" else "unlike", like.account, like.video)]
                        else [])
                && db == (if !f.likeQueueTakes && Transacts(later, like, up, f.tx) then Transacted(later, like, up)
                          else later)
                && popularityQueue == old(popularityQueue)
                     + (if f.popularityQueueTakes then [PopularityEvent(like.video, Sign(up))] else [])
                && hotUpdates == old(hotUpdates)
                     + (if r == Accepted && !f.popularityQueueTakes then [PopularityEvent(like.video, Sign(up))]
                        else [])
    {
      if like.video == 0 || like.account == 0 {
        return BadRequest;
      }
      if f.existFails {
        return DatabaseError;
      }
      if like.video !in db.videos {
        return VideoNotFound;
      }
      if f.likedFails {
        return DatabaseError;
      }
      var isLiked := like in db.likes;
      if isLiked == up {
        return if up then AlreadyLiked else NotLiked;
      }
      var mysqlEnqueued, redisEnqueued := false, false;
      if f.likeQueueTakes {
        likeQueue := likeQueue + [Event(if up then "like" else "unlike", like.account, like.video)];
        mysqlEnqueued := true;
      }
      if f.popularityQueueTakes {
        popularityQueue := popularityQueue + [PopularityEvent(like.video, Sign(up))];
        redisEnqueued := true;
      }
      db := later;
      if mysqlEnqueued && redisEnqueued {
        return Accepted;
      }
      if !mysqlEnqueued {
        r := Transact(like, up, f.tx);
        if r != Accepted {
          return;
        }
      }
      if !redisEnqueued {
        hotUpdates := hotUpdates + [PopularityEvent(like.video, Sign(up))];
      }
      return Accepted;
    }

    method Transact(like: Like, up: bool, tx: Outcome) returns (r: Reply)
      modifies this`db
      ensures r == Accepted <==> tx.Reported() && !Refuses(old(db), like, up)
      ensures db == if Transacts(old(db), like, up, tx) then Transacted(old(db), like, up) else old(db)
    {
      if up && like.video !in db.videos {
        return VideoNotFound;
      }
      if like in db.likes <==> up {
        return if up then AlreadyLiked else NotLiked;
      }
      if tx.Applied() {
        db := Transacted(db, like, up);
      }
      return if tx.Reported() then Accepted else DatabaseError;
    }
  }

  /** The fallback's transaction is the protocol's fallback step, which is possible exactly when the
      transaction does not refuse. */
  lemma TransactedIsFallback(s: State, like: Like, up: bool)
    requires Known(s) && like.video in s.db.videos
    ensures var a := if up then FallbackLike(like) else FallbackUnlike(like);
            && (Enabled(s, a) <==> !Refuses(s.db, like, up))
            && (Enabled(s, a) ==> Step(s, a).db == Transacted(s.db, like, up) && Step(s, a).jobs == s.jobs)
  {}

  /** An accepted change has the same effect on the database whether the queue took it and the worker
      applied it without faults, or the service made it itself. */
  lemma QueueOrFallback(db: Db, like: Like, up: bool)
    requires like.video in db.videos && !Refuses(db, like, up)
    ensures Applied(db, like, up, Ends(false, Done, Done, Done)) == Transacted(db, like, up)
  {}
}
