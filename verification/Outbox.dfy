/**
  The outbox table and its SQL statements (internal/worker/outbox_worker.go).  Each statement is
  one atomic update of the table.
*/
module Outbox {
  import opened Wrappers
  import opened Ranking

  const MAX_OUTBOX_RETRY: int := 3
  const MAX_OUTBOX_ERROR_LENGTH: nat := 512

  datatype Status = Pending | Processing | Published | Failed

  datatype Row = Row(
    videoId: nat,
    createTime: int,
    status: Status,
    retryCount: int,
    lastError: string,
    updatedAt: int,
    publishedAt: Option<int>)

  /** Rows by primary key. */
  type Table = map<nat, Row>

  /** The columns of a scanned row that the worker uses later; the row may have changed by then. */
  datatype Msg = Msg(id: nat, videoId: nat, createTime: int, retryCount: int)

  function Scanned(rows: Table, id: nat): Msg
    requires id in rows
  {
    Msg(id, rows[id].videoId, rows[id].createTime, rows[id].retryCount)
  }

  function NewRow(videoId: nat, createTime: int, now: int): Row {
    Row(videoId, createTime, Pending, 0, "", now, None)
  }

  // ---------------------------------------------------------------- statements

  predicate Expired(row: Row, now: int, timeout: int) {
    row.status == Processing && row.updatedAt < now - timeout
  }

  function ResetExpired(rows: Table, now: int, timeout: int): Table {
    map id | id in rows ::
      if Expired(rows[id], now, timeout) then rows[id].(status := Pending, updatedAt := now) else rows[id]
  }

  /** The statement leaves no expired lease: the rows that had one can be claimed again at once, with
      everything but their status and time stamp kept, and no other row is touched.  Doing it again
      changes nothing. */
  lemma ResetFreesExpired(rows: Table, now: int, timeout: int)
    ensures var after := ResetExpired(rows, now, timeout);
            && after.Keys == rows.Keys
            && (forall id | id in after :: !Expired(after[id], now, timeout))
            && (forall id | id in rows && !Expired(rows[id], now, timeout) :: after[id] == rows[id])
            && (forall id | id in rows && Expired(rows[id], now, timeout) ::
                  && (id != 0 ==> Claimable(after, id))
                  && Scanned(after, id) == Scanned(rows, id) && after[id].updatedAt == now)
            && ResetExpired(after, now, timeout) == after
  {
    var after := ResetExpired(rows, now, timeout);
    assert ResetExpired(after, now, timeout) == after;
  }

  /** The claim matches a row only while it is pending. */
  predicate Claimable(rows: Table, id: nat) {
    id != 0 && id in rows && rows[id].status == Pending
  }

  function Claim(rows: Table, id: nat, now: int): Table {
    if Claimable(rows, id) then rows[id := rows[id].(status := Processing, updatedAt := now)] else rows
  }

  /** Matches on the id alone, whatever the status is by now. */
  function MarkPublished(rows: Table, id: nat, now: int): Table {
    if id != 0 && id in rows
    then rows[id := rows[id].(status := Published, lastError := "", publishedAt := Some(now), updatedAt := now)]
    else rows
  }

  function Truncate(error: string): (s: string)
    ensures s <= error && |s| == if |error| > 512 then 512 else |error|
  {
    if |error| <= MAX_OUTBOX_ERROR_LENGTH then error else error[..MAX_OUTBOX_ERROR_LENGTH]
  }

  /** Matches on the id alone and counts from the scanned retry count, not the stored one. */
  function MarkFailed(rows: Table, msg: Msg, error: string, now: int): Table {
    if msg.id != 0 && msg.id in rows then
      var next := msg.retryCount + 1;
      rows[msg.id := rows[msg.id].(
        status := if next > MAX_OUTBOX_RETRY then Failed else Pending,
        retryCount := next,
        lastError := Truncate(error),
        updatedAt := now)]
    else rows
  }

  /** The scan: at most `limit` pending rows, none newer than a pending row left out. */
  predicate IsScan(rows: Table, limit: nat, msgs: seq<Msg>) {
    && (forall m | m in msgs :: m.id in rows && rows[m.id].status == Pending && m == Scanned(rows, m.id))
    && (forall i, j | 0 <= i < j < |msgs| :: msgs[i].id != msgs[j].id && msgs[i].createTime <= msgs[j].createTime)
    && |msgs| <= limit
    && (|msgs| < limit ==> forall id | id in rows && rows[id].status == Pending :: Scanned(rows, id) in msgs)
    && (forall id, m | id in rows && rows[id].status == Pending && Scanned(rows, id) !in msgs && m in msgs ::
          m.createTime <= rows[id].createTime)
  }

  /** So a scan takes the oldest pending rows, oldest first and each once, and all of them if there are not
      more than it may take. */
  lemma ScanTakesOldest(rows: Table, limit: nat, msgs: seq<Msg>)
    requires IsScan(rows, limit, msgs)
    ensures |msgs| <= limit
    ensures forall i, j | 0 <= i < j < |msgs| :: msgs[i].id != msgs[j].id && msgs[i].createTime <= msgs[j].createTime
    ensures forall m | m in msgs :: m.id in rows && rows[m.id].status == Pending
                                    && m == Msg(m.id, rows[m.id].videoId, rows[m.id].createTime, rows[m.id].retryCount)
    ensures forall id | id in rows && rows[id].status == Pending && forall m | m in msgs :: m.id != id ::
              |msgs| == limit && forall m | m in msgs :: m.createTime <= rows[id].createTime
  {
    forall id | id in rows && rows[id].status == Pending && forall m | m in msgs :: m.id != id
      ensures |msgs| == limit && forall m | m in msgs :: m.createTime <= rows[id].createTime
    {
      assert Scanned(rows, id) !in msgs;
    }
  }

  // ---------------------------------------------------------------- one way the database may scan

  function PendingMsgs(rows: Table): set<Msg> {
    set id | id in rows && rows[id].status == Pending :: Scanned(rows, id)
  }

  function ScanKey(m: Msg): Key {
    [0 - m.createTime, 0 - (m.id as int)]
  }

  function Scan(rows: Table, limit: nat): (msgs: seq<Msg>)
    ensures IsScan(rows, limit, msgs)
    ensures PendingMsgs(rows) != {} && limit > 0 ==> msgs != []
  {
    MsgsDistinct(rows);
    var msgs := First(PendingMsgs(rows), ScanKey, limit);
    ScanIsScan(rows, limit, msgs);
    msgs
  }

  lemma MsgsDistinct(rows: Table)
    ensures Distinct(PendingMsgs(rows), ScanKey)
  {
    forall x, y | x in PendingMsgs(rows) && y in PendingMsgs(rows) && ScanKey(x) == ScanKey(y) ensures x == y {
      assert ScanKey(x)[1] == ScanKey(y)[1];
    }
  }

  lemma KeyOrder(a: Msg, b: Msg)
    requires Less(ScanKey(b), ScanKey(a))
    ensures a.createTime <= b.createTime
  {}

  lemma ScanIsScan(rows: Table, limit: nat, msgs: seq<Msg>)
    requires Distinct(PendingMsgs(rows), ScanKey)
    requires msgs == First(PendingMsgs(rows), ScanKey, limit)
    ensures IsScan(rows, limit, msgs)
  {
    var S := PendingMsgs(rows);
    assert forall m | m in msgs :: m in Elements(msgs) && m in S;
    forall i, j | 0 <= i < j < |msgs| ensures msgs[i].id != msgs[j].id && msgs[i].createTime <= msgs[j].createTime {
      KeyOrder(msgs[i], msgs[j]);
      LessIrreflexive(ScanKey(msgs[i]));
      assert msgs[i] in S && msgs[j] in S;
    }
    if |msgs| < limit {
      assert msgs == Ranked(S, ScanKey);
      forall id | id in rows && rows[id].status == Pending ensures Scanned(rows, id) in msgs {
        assert Scanned(rows, id) in Elements(msgs);
      }
    }
    forall id, m | id in rows && rows[id].status == Pending && Scanned(rows, id) !in msgs && m in msgs
      ensures m.createTime <= rows[id].createTime
    {
      FirstOutranks(S, ScanKey, limit, m, Scanned(rows, id));
      KeyOrder(m, Scanned(rows, id));
    }
  }
}
