/**
  The worker that stores and removes comments (internal/worker/comment_worker.go).  A comment is stored
  under the id of the event that made it, which is unique, and is deleted by the id of its row, which the
  table counts up; zero stands for a missing id.
*/
module CommentWorker {
  import opened Wrappers
  import opened LikeCounters

  /** A message body as the worker sees it after decoding; a blank text is one of white space only. */
  datatype Body =
    | Malformed
    | Publish(event: nat, video: nat, author: nat, blank: bool)
    | Delete(row: nat)
    | Other

  datatype Ends = Ends(lookFails: bool, row: Outcome, heat: Outcome)

  predicate Usable(body: Body) {
    body.Publish? && body.event != 0 && body.video != 0 && body.author != 0 && !body.blank
  }

  function WithComment(db: Db, event: nat, video: nat): Db {
    db.(comments := db.comments[event := video])
  }

  /** The database after a comment was delivered: the popularity goes up only with a new row that was
      reported stored. */
  function Published(db: Db, event: nat, video: nat, e: Ends): Db {
    if e.lookFails || video !in db.videos || event in db.comments || !e.row.Applied() then db
    else
      var d1 := WithComment(db, event, video);
      if e.row.Reported() && e.heat.Applied() then ChangePopularity(d1, video, true) else d1
  }

  function Deleted(db: Db, event: nat, e: Ends): Db {
    if e.lookFails || event !in db.comments || !e.row.Applied() then db
    else db.(comments := db.comments - {event})
  }

  /** Every comment has one row, with an id that was given out before. */
  predicate RowsOk(db: Db, rows: map<nat, nat>, next: nat) {
    && (forall r | r in rows :: 0 < r < next && rows[r] in db.comments)
    && (forall event | event in db.comments :: exists r :: r in rows && rows[r] == event)
    && (forall r, r' | r in rows && r' in rows && rows[r] == rows[r'] :: r == r')
  }

  lemma RowAdded(db: Db, rows: map<nat, nat>, next: nat, event: nat, video: nat)
    requires next > 0 && RowsOk(db, rows, next) && event !in db.comments
    ensures RowsOk(WithComment(db, event, video), rows[next := event], next + 1)
  {
    var rows' := rows[next := event];
    forall x | x in WithComment(db, event, video).comments ensures exists r :: r in rows' && rows'[r] == x {
      if x == event {
        assert rows'[next] == event;
      } else {
        var r :| r in rows && rows[r] == x;
        assert rows'[r] == x;
      }
    }
  }

  lemma RowRemoved(db: Db, rows: map<nat, nat>, next: nat, row: nat)
    requires RowsOk(db, rows, next) && row in rows
    ensures RowsOk(db.(comments := db.comments - {rows[row]}), rows - {row}, next)
  {
    var rows' := rows - {row};
    forall x | x in db.comments && x != rows[row] ensures exists r :: r in rows' && rows'[r] == x {
      var r :| r in rows && rows[r] == x;
      assert rows'[r] == x;
    }
  }

  class CommentWorker {
    var db: Db
    var rows: map<nat, nat>
    var next: nat

    predicate Valid()
      reads this
    {
      next > 0 && RowsOk(db, rows, next)
    }

    constructor (db: Db, rows: map<nat, nat>, next: nat)
      requires next > 0 && RowsOk(db, rows, next)
      ensures Valid() && this.db == db && this.rows == rows && this.next == next
    {
      this.db, this.rows, this.next := db, rows, next;
    }

    method Process(body: Body, e: Ends) returns (err: bool)
      requires Valid()
      modifies this
      ensures Valid() && next >= old(next)
      ensures db == match body
                    case Publish(event, video, _, _) =>
                      if Usable(body) then Published(old(db), event, video, e) else old(db)
                    case Delete(row) => if row in old(rows) then Deleted(old(db), old(rows)[row], e) else old(db)
                    case _ => old(db)
      ensures !err && Usable(body) && body.video in db.videos ==> body.event in db.comments
      ensures !err && body.Delete? ==> body.row !in rows
      ensures forall row | row < old(next) && row !in old(rows) :: row !in rows
      ensures forall row | row in rows && row in old(rows) :: rows[row] == old(rows)[row]
      ensures forall event, video, author | body == Publish(event, video, author, false) ::
                event != 0 && video != 0 && author != 0 && video in old(db).videos ==>
                  && (!err ==> event in db.comments)
                  && (event in old(db).comments ==> db == old(db))
                  && (event !in old(db).comments && e == Ends(false, Done, Done) ==>
                        && db.comments == old(db).comments[event := video] && db.likes == old(db).likes
                        && video in db.videos
                        && db.videos[video].popularity == old(db).videos[video].popularity + 1)
      ensures forall row | body == Delete(row) && row != 0 && row in old(rows) ::
                e == Ends(false, Done, Done) ==>
                  db == old(db).(comments := old(db).comments - {old(rows)[row]}) && row !in rows
      ensures body.Malformed? || body.Other?
              || (body.Publish? && (body.blank || body.event == 0 || body.video == 0)) ==>
                db == old(db) && !err
      ensures !e.lookFails && e.row == Done && e.heat == Done ==> !err
    {
      match body
      case Malformed => err := false;
      case Other => err := false;
      case Publish(event, video, author, blank) => err := ApplyPublish(event, video, author, blank, e);
      case Delete(row) => err := ApplyDelete(row, e);
    }

    method ApplyPublish(event: nat, video: nat, author: nat, blank: bool, e: Ends) returns (err: bool)
      requires Valid()
      modifies this
      ensures Valid() && next >= old(next)
      ensures db == if Usable(Publish(event, video, author, blank)) then Published(old(db), event, video, e)
                    else old(db)
      ensures rows == old(rows) || rows == old(rows)[old(next) := event]
      ensures !err && Usable(Publish(event, video, author, blank)) && video in db.videos ==> event in db.comments
      ensures !e.lookFails && e.row == Done && e.heat == Done ==> !err
      ensures event == 0 || video == 0 || blank ==> !err
    {
      if event == 0 || video == 0 || author == 0 || blank {
        return false;
      }
      if e.lookFails {
        return true;
      }
      if video !in db.videos {
        return false;
      }
      var created := event !in db.comments;
      if created && e.row.Applied() {
        RowAdded(db, rows, next, event, video);
        db := WithComment(db, event, video);
        rows, next := rows[next := event], next + 1;
      }
      if !e.row.Reported() {
        return true;
      }
      if !created {
        return false;
      }
      if e.heat.Applied() {
        db := ChangePopularity(db, video, true);
      }
      err := !e.heat.Reported();
    }

    method ApplyDelete(row: nat, e: Ends) returns (err: bool)
      requires Valid()
      modifies this
      ensures Valid() && next == old(next)
      ensures db == if row in old(rows) then Deleted(old(db), old(rows)[row], e) else old(db)
      ensures rows == if db == old(db) then old(rows) else old(rows) - {row}
      ensures !err ==> row !in rows
      ensures !e.lookFails && e.row == Done ==> !err
    {
      if row == 0 {
        return false;
      }
      if e.lookFails {
        return true;
      }
      if row !in rows {
        return false;
      }
      if e.row.Applied() {
        RowRemoved(db, rows, next, row);
        db := Deleted(db, rows[row], e);
        rows := rows - {row};
      }
      err := !e.row.Reported();
    }
  }

  /** A delivery is the steps of one worker in a row. */
  lemma PublishedIsSteps(s: State, w: nat, event: nat, video: nat, e: Ends)
    requires Known(s) && w < |s.jobs| && s.jobs[w].Idle? && video in s.db.videos && !e.lookFails
    ensures var s1 := Step(s, InsertComment(w, event, video, e.row));
            var s2 := if s1.jobs[w].Idle? then s1 else Step(s1, Heat(w, e.heat));
            s2.db == Published(s.db, event, video, e) && s2.jobs[w].Idle?
  {}

  /** A redelivered comment is stored and counted once, unless it was deleted in between: then it is
      made again, and counted again. */
  lemma RedeliveredComment(db: Db, event: nat, video: nat)
    requires video in db.videos && event != 0 && event !in db.comments
    ensures var fine := Ends(false, Done, Done);
            var once := Published(db, event, video, fine);
            var again := Published(Deleted(once, event, fine), event, video, fine);
            && Published(once, event, video, fine) == once
            && once.videos[video].popularity == db.videos[video].popularity + 1
            && again.comments == once.comments
            && again.videos[video].popularity == db.videos[video].popularity + 2
  {
    assert db.comments[event := video] - {event} == db.comments;
  }
}
