/**
  One outbox worker as the program runs it (internal/worker/outbox_worker.go), and the proof that
  polling alone drains the table: every row ends published or failed.
*/
module OutboxWorker {
  import opened Wrappers
  import opened Outbox
  import P = OutboxProtocol

  /** What happens to the remote calls made for one message. */
  datatype Faults = Faults(claim: Outcome, broker: Outcome, mark: Outcome)

  const NO_FAULTS := Faults(Done, Done, Done)

  /** The faults of the i-th message of a batch. */
  function FaultsAt(faults: seq<Faults>, i: nat): Faults {
    if i < |faults| then faults[i] else NO_FAULTS
  }

  const PUBLISH_ERROR := "publish failed"

  /** The table after publishOne. */
  function AfterPublishOne(rows: Table, msg: Msg, now: int, f: Faults): Table {
    if msg.videoId == 0 || !Claimable(rows, msg.id) then rows
    else
      var claimed := if f.claim.Applied() then Claim(rows, msg.id, now) else rows;
      if !f.claim.Reported() || !f.mark.Applied() then claimed
      else if f.broker.Reported() then MarkPublished(claimed, msg.id, now)
      else MarkFailed(claimed, msg, PUBLISH_ERROR, now)
  }

  /** Whether publishOne hands the event to the broker. */
  predicate Hands(rows: Table, msg: Msg, f: Faults) {
    msg.videoId != 0 && Claimable(rows, msg.id) && f.claim.Reported() && f.broker.Applied()
  }

  /** What becomes of the row: it is published, or goes back to pending with one more retry, or has failed
      for good after the fourth; or it stays leased when the mark or the report of the claim is lost. */
  lemma PublishOneEnds(rows: Table, msg: Msg, now: int, f: Faults)
    ensures var rows' := AfterPublishOne(rows, msg, now, f);
            if msg.videoId == 0 || msg.id == 0 || msg.id !in rows || rows[msg.id].status != Pending
               || f.claim == NotDone
            then rows' == rows
            else
              && rows'.Keys == rows.Keys && (forall id | id in rows && id != msg.id :: rows'[id] == rows[id])
              && var row, row' := rows[msg.id], rows'[msg.id];
                 if f.claim == DoneUnseen || f.mark == NotDone then row' == row.(status := Processing, updatedAt := now)
                 else if f.broker == Done then
                   row' == row.(status := Published, lastError := "", publishedAt := Some(now), updatedAt := now)
                 else
                   row' == row.(status := if msg.retryCount < 3 then Pending else Failed,
                                retryCount := msg.retryCount + 1, lastError := "publish failed", updatedAt := now)
  {}

  /** The table after the first k messages of a batch. */
  function AfterBatch(rows: Table, msgs: seq<Msg>, k: nat, now: int, faults: seq<Faults>): Table
    requires k <= |msgs|
  {
    if k == 0 then rows
    else AfterPublishOne(AfterBatch(rows, msgs, k - 1, now, faults), msgs[k - 1], now, FaultsAt(faults, k - 1))
  }

  /** What the first k messages of a batch hand to the broker. */
  function SentBy(rows: Table, msgs: seq<Msg>, k: nat, now: int, faults: seq<Faults>): seq<Msg>
    requires k <= |msgs|
  {
    if k == 0 then []
    else
      SentBy(rows, msgs, k - 1, now, faults)
      + (if Hands(AfterBatch(rows, msgs, k - 1, now, faults), msgs[k - 1], FaultsAt(faults, k - 1))
         then [msgs[k - 1]] else [])
  }

  /** The table and the broker calls after the first k messages of a batch. */
  predicate BatchAt(rows: Table, sent: seq<Msg>, msgs: seq<Msg>, k: nat, now: int, faults: seq<Faults>, rows': Table,
        sent': seq<Msg>)
  {
    && k <= |msgs| && rows' == AfterBatch(rows, msgs, k, now, faults)
    && sent' == sent + SentBy(rows, msgs, k, now, faults)
  }

  lemma BatchStep(rows: Table, sent: seq<Msg>, msgs: seq<Msg>, i: nat, now: int, faults: seq<Faults>, rows': Table,
        sent': seq<Msg>)
    requires i < |msgs| && BatchAt(rows, sent, msgs, i, now, faults, rows', sent')
    ensures var f := FaultsAt(faults, i);
            BatchAt(rows, sent, msgs, i + 1, now, faults, AfterPublishOne(rows', msgs[i], now, f),
                    if Hands(rows', msgs[i], f) then sent' + [msgs[i]] else sent')
  {}

  /** Different messages, each with a video and read from a row that was pending. */
  predicate SentPending(msgs: seq<Msg>, rows: Table) {
    && (forall m | m in msgs ::
          m.videoId != 0 && m.id in rows && rows[m.id].status == Pending && m == Scanned(rows, m.id))
    && (forall i, j | 0 <= i < j < |msgs| :: msgs[i].id != msgs[j].id)
  }

  lemma OthersStay(rows: Table, msg: Msg, now: int, f: Faults, id: nat)
    requires id != msg.id
    ensures var rows' := AfterPublishOne(rows, msg, now, f);
            (id in rows' <==> id in rows) && (id in rows ==> rows'[id] == rows[id])
  {}

  /** Messages that are still to come find their rows as they were scanned. */
  lemma {:induction false} RestStays(rows: Table, msgs: seq<Msg>, k: nat, now: int, faults: seq<Faults>, limit: nat)
    requires IsScan(rows, limit, msgs) && k <= |msgs|
    ensures var rows' := AfterBatch(rows, msgs, k, now, faults);
            forall j | k <= j < |msgs| ::
              msgs[j].id in rows' && msgs[j].id in rows && rows'[msgs[j].id] == rows[msgs[j].id]
  {
    if k == 0 {
      assert forall j | 0 <= j < |msgs| :: msgs[j] in msgs;
    } else {
      RestStays(rows, msgs, k - 1, now, faults, limit);
      var before := AfterBatch(rows, msgs, k - 1, now, faults);
      forall j | k <= j < |msgs|
        ensures var rows' := AfterBatch(rows, msgs, k, now, faults);
                msgs[j].id in rows' && rows'[msgs[j].id] == rows[msgs[j].id]
      {
        OthersStay(before, msgs[k - 1], now, FaultsAt(faults, k - 1), msgs[j].id);
      }
    }
  }

  lemma {:induction false} SentWerePending(rows: Table, msgs: seq<Msg>, k: nat, now: int, faults: seq<Faults>,
        limit: nat)
    requires IsScan(rows, limit, msgs) && k <= |msgs|
    ensures SentPending(SentBy(rows, msgs, k, now, faults), rows)
    ensures forall m | m in SentBy(rows, msgs, k, now, faults) :: m in msgs[..k]
  {
    if k > 0 {
      SentWerePending(rows, msgs, k - 1, now, faults, limit);
      assert msgs[..k] == msgs[..k - 1] + [msgs[k - 1]];
      assert msgs[k - 1] in msgs;
      forall m | m in SentBy(rows, msgs, k - 1, now, faults) ensures m.id != msgs[k - 1].id {
        var i :| 0 <= i < k - 1 && msgs[..k - 1][i] == m;
        assert msgs[i].id != msgs[k - 1].id;
      }
    }
  }

  lemma FaultFreeMessage(rows: Table, msg: Msg, now: int)
    requires msg.id != 0 && msg.videoId != 0 && msg.id in rows && rows[msg.id].status == Pending
    ensures Hands(rows, msg, NO_FAULTS)
    ensures var rows' := AfterPublishOne(rows, msg, now, NO_FAULTS);
            msg.id in rows' && rows'[msg.id].status == Published
  {}

  /** Without faults every message of a batch is sent ... */
  lemma {:induction false} FaultFreeSends(rows: Table, msgs: seq<Msg>, k: nat, now: int, limit: nat)
    requires IsScan(rows, limit, msgs) && k <= |msgs| && forall id | id in rows :: id != 0 && rows[id].videoId != 0
    ensures SentBy(rows, msgs, k, now, []) == msgs[..k]
  {
    if k > 0 {
      FaultFreeSends(rows, msgs, k - 1, now, limit);
      RestStays(rows, msgs, k - 1, now, [], limit);
      assert msgs[k - 1] in msgs && msgs[..k] == msgs[..k - 1] + [msgs[k - 1]];
      FaultFreeMessage(AfterBatch(rows, msgs, k - 1, now, []), msgs[k - 1], now);
    }
  }

  /** ... and its row ends published. */
  lemma {:induction false} FaultFreePublishes(rows: Table, msgs: seq<Msg>, k: nat, now: int, limit: nat)
    requires IsScan(rows, limit, msgs) && k <= |msgs| && forall id | id in rows :: id != 0 && rows[id].videoId != 0
    ensures var rows' := AfterBatch(rows, msgs, k, now, []);
            forall i | 0 <= i < k :: msgs[i].id in rows' && rows'[msgs[i].id].status == Published
  {
    if k > 0 {
      var before, msg := AfterBatch(rows, msgs, k - 1, now, []), msgs[k - 1];
      FaultFreePublishes(rows, msgs, k - 1, now, limit);
      RestStays(rows, msgs, k - 1, now, [], limit);
      assert msg in msgs;
      FaultFreeMessage(before, msg, now);
      var rows' := AfterPublishOne(before, msg, now, NO_FAULTS);
      forall i | 0 <= i < k - 1 ensures msgs[i].id in rows' && rows'[msgs[i].id].status == Published {
        OthersStay(before, msg, now, NO_FAULTS, msgs[i].id);
      }
    }
  }

  lemma FaultFreeBatch(rows: Table, msgs: seq<Msg>, now: int, limit: nat)
    requires IsScan(rows, limit, msgs) && forall id | id in rows :: id != 0 && rows[id].videoId != 0
    ensures SentBy(rows, msgs, |msgs|, now, []) == msgs
    ensures var rows' := AfterBatch(rows, msgs, |msgs|, now, []);
            forall m | m in msgs :: m.id in rows' && rows'[m.id].status == Published
  {
    FaultFreeSends(rows, msgs, |msgs|, now, limit);
    FaultFreePublishes(rows, msgs, |msgs|, now, limit);
  }

  class Worker {
    var rows: Table
    var sent: seq<Msg>
    const timeout: int
    const batchSize: nat

    constructor (rows: Table, timeout: int, batchSize: nat)
      ensures this.rows == rows && sent == []
      ensures this.timeout == timeout && this.batchSize == batchSize
    {
      this.rows := rows;
      this.sent := [];
      this.timeout := timeout;
      this.batchSize := batchSize;
    }

    method ResetExpiredProcessing(now: int, db: Outcome) returns (err: bool)
      modifies this`rows
      ensures err <==> !db.Reported()
      ensures !db.Applied() ==> rows == old(rows)
      ensures db.Applied() ==>
                && rows == ResetExpired(old(rows), now, timeout)
                && (forall id | id in rows :: !Expired(rows[id], now, timeout))
                && (forall id | id in old(rows) && !Expired(old(rows)[id], now, timeout) ::
                   id in rows && rows[id] == old(rows)[id])
                && (forall id | id in old(rows) && id != 0 && Expired(old(rows)[id], now, timeout) ::
                   Claimable(rows, id))
    {
      ResetFreesExpired(rows, now, timeout);
      if db.Applied() {
        rows := ResetExpired(rows, now, timeout);
      }
      return !db.Reported();
    }

    method ClaimRow(id: nat, now: int, db: Outcome) returns (claimed: bool, err: bool)
      modifies this`rows
      ensures err <==> id != 0 && db != Done
      ensures claimed <==> id != 0 && id in old(rows) && old(rows)[id].status == Pending && db == Done
      ensures rows == if db.Applied() then Claim(old(rows), id, now) else old(rows)
      ensures claimed ==> rows == old(rows)[id := old(rows)[id].(status := Processing, updatedAt := now)]
    {
      if id == 0 {
        return false, false;
      }
      var matched := Claimable(rows, id);
      if db.Applied() {
        rows := Claim(rows, id, now);
      }
      if !db.Reported() {
        return false, true;
      }
      return matched, false;
    }

    /** Only a message with a video whose row was pending, and whose claim was reported, goes to the
        broker. */
    method PublishOne(msg: Msg, now: int, f: Faults) returns (err: bool)
      modifies this
      ensures rows == AfterPublishOne(old(rows), msg, now, f)
      ensures sent == if Hands(old(rows), msg, f) then old(sent) + [msg] else old(sent)
      ensures sent == if msg.videoId != 0 && msg.id != 0 && msg.id in old(rows) && old(rows)[msg.id].status == Pending
                         && f.claim == Done && f.broker != NotDone
                      then old(sent) + [msg] else old(sent)
      ensures err <==> msg.videoId != 0 && msg.id != 0
                       && (f.claim != Done
                           || (msg.id in old(rows) && old(rows)[msg.id].status == Pending
                               && (f.broker != Done || f.mark != Done)))
    {
      if msg.videoId == 0 {
        return false;
      }
      var claimed, claimErr := ClaimRow(msg.id, now, f.claim);
      if claimErr {
        return true;
      }
      if !claimed {
        return false;
      }
      if f.broker.Applied() {
        sent := sent + [msg];
      }
      if !f.broker.Reported() {
        if f.mark.Applied() {
          rows := MarkFailed(rows, msg, PUBLISH_ERROR, now);
        }
        return true;
      }
      if f.mark.Applied() {
        rows := MarkPublished(rows, msg.id, now);
      }
      return !f.mark.Reported();
    }

    /** One poll: reset expired leases, scan a batch, handle its messages one by one.  What it sends are
        different messages of rows that were pending when it scanned; without faults it sends all of them,
        oldest first, and they are published. */
    method PollOnce(now: int, reset: Outcome, scanFails: bool, faults: seq<Faults>) returns (err: bool)
      modifies this
      ensures err <==> !reset.Reported() || scanFails
      ensures var ready := if reset.Applied() then ResetExpired(old(rows), now, timeout) else old(rows);
              if err then rows == ready && sent == old(sent)
              else
                var msgs := Scan(ready, batchSize);
                && rows == AfterBatch(ready, msgs, |msgs|, now, faults)
                && sent == old(sent) + SentBy(ready, msgs, |msgs|, now, faults)
                && SentPending(sent[|old(sent)|..], ready)
                && (faults == [] && (forall id | id in old(rows) :: id != 0 && old(rows)[id].videoId != 0) ==>
                      sent == old(sent) + msgs
                      && forall m | m in msgs :: m.id in rows && rows[m.id].status == Published)
    {
      var resetErr := ResetExpiredProcessing(now, reset);
      if resetErr || scanFails {
        return true;
      }
      var msgs := Scan(rows, batchSize);
      SentWerePending(rows, msgs, |msgs|, now, faults, batchSize);
      if faults == [] && forall id | id in rows :: id != 0 && rows[id].videoId != 0 {
        FaultFreeBatch(rows, msgs, now, batchSize);
      }
      PublishBatch(msgs, now, faults);
      return false;
    }

    method PublishBatch(msgs: seq<Msg>, now: int, faults: seq<Faults>)
      modifies this
      ensures rows == AfterBatch(old(rows), msgs, |msgs|, now, faults)
      ensures sent == old(sent) + SentBy(old(rows), msgs, |msgs|, now, faults)
    {
      var i := 0;
      while i < |msgs|
        invariant 0 <= i <= |msgs| && BatchAt(old(rows), old(sent), msgs, i, now, faults, rows, sent)
      {
        BatchStep(old(rows), old(sent), msgs, i, now, faults, rows, sent);
        var _ := PublishOne(msgs[i], now, FaultsAt(faults, i));
        i := i + 1;
      }
    }
  }

  // ---------------------------------------------------------------- agreement with the protocol

  /** Undisturbed, a worker's protocol steps for one message have the effect of PublishOne. */
  lemma StepsMakePublishOne(s: P.State, w: nat, f: Faults)
    requires P.Inv(s) && w < |s.workers| && s.workers[w].Batch? && s.workers[w].todo != []
    requires s.workers[w].todo[0].videoId != 0
    ensures var msg := s.workers[w].todo[0];
            var s1 := P.Step(s, P.TryClaim(w, f.claim));
            if !s1.workers[w].Claimed? then
              s1.rows == AfterPublishOne(s.rows, msg, s.now, f) && !Hands(s.rows, msg, f) && s1.handed == s.handed
            else
              var s2 := P.Step(s1, P.Publish(w, f.broker));
              var mark := if f.broker.Reported() then P.SetPublished(w, f.mark)
                          else P.SetFailed(w, PUBLISH_ERROR, f.mark);
              && P.Enabled(s2, mark)
              && P.Step(s2, mark).rows == AfterPublishOne(s.rows, msg, s.now, f)
              && s2.handed == if Hands(s.rows, msg, f) then s.handed + {msg.id} else s.handed
  {
    assert P.WorkerOk(s, s.workers[w]);
    assert P.MsgOk(s.rows, s.workers[w].todo[0]);
  }

  // ---------------------------------------------------------------- draining the table

  /** The attempts that an open row has left. */
  function Cost(row: Row): nat {
    if (row.status.Pending? || row.status.Processing?) && row.retryCount <= MAX_OUTBOX_RETRY && row.retryCount >= 0
    then MAX_OUTBOX_RETRY + 1 - row.retryCount else 0
  }

  function Budget(rows: Table, n: nat): nat {
    if n == 0 then 0
    else Budget(rows, n - 1) + if n - 1 in rows then Cost(rows[n - 1]) else 0
  }

  /** Rows that one worker without database errors can leave between polls: every open row is
      pending, has a video and has attempts left. */
  predicate Settled(rows: Table, n: nat) {
    forall id | id in rows ::
      && 0 < id < n && rows[id].videoId != 0 && !rows[id].status.Processing?
      && (rows[id].status.Pending? ==> 0 <= rows[id].retryCount <= MAX_OUTBOX_RETRY)
  }

  predicate DatabaseWorks(faults: seq<Faults>) {
    forall f | f in faults :: f.claim.Done? && f.mark.Done?
  }

  lemma BudgetUpdate(rows: Table, id: nat, row: Row, n: nat)
    requires id in rows && id < n
    ensures Budget(rows[id := row], n) == Budget(rows, n) - Cost(rows[id]) + Cost(row)
  {
    if id < n - 1 {
      BudgetUpdate(rows, id, row, n - 1);
    } else {
      BudgetElsewhere(rows, id, row, n - 1);
    }
  }

  lemma BudgetElsewhere(rows: Table, id: nat, row: Row, n: nat)
    requires id >= n
    ensures Budget(rows[id := row], n) == Budget(rows, n)
  {
    if n > 0 {
      BudgetElsewhere(rows, id, row, n - 1);
    }
  }

  /** An attempt on a pending row spends one of its attempts or closes it. */
  lemma AttemptSpends(rows: Table, msg: Msg, now: int, f: Faults, n: nat)
    requires Settled(rows, n) && f.claim.Done? && f.mark.Done?
    requires msg.id in rows && rows[msg.id].status.Pending? && msg == Scanned(rows, msg.id)
    ensures var rows' := AfterPublishOne(rows, msg, now, f);
            && Settled(rows', n) && Budget(rows', n) < Budget(rows, n)
            && rows'.Keys == rows.Keys
            && (forall id | id in rows && id != msg.id :: rows'[id] == rows[id])
  {
    var rows' := AfterPublishOne(rows, msg, now, f);
    assert rows' == rows[msg.id := rows'[msg.id]];
    BudgetUpdate(rows, msg.id, rows'[msg.id], n);
  }

  /** A batch that was scanned from the table spends at least one attempt per message. */
  lemma {:induction false} BatchSpends(rows: Table, msgs: seq<Msg>, k: nat, now: int, faults: seq<Faults>, n: nat,
        limit: nat)
    requires Settled(rows, n) && DatabaseWorks(faults) && IsScan(rows, limit, msgs) && k <= |msgs|
    ensures var rows' := AfterBatch(rows, msgs, k, now, faults);
            && Settled(rows', n) && Budget(rows', n) + k <= Budget(rows, n)
            && rows'.Keys == rows.Keys
            && (forall j | k <= j < |msgs| :: rows'[msgs[j].id] == rows[msgs[j].id])
  {
    if k > 0 {
      BatchSpends(rows, msgs, k - 1, now, faults, n, limit);
      var before, msg := AfterBatch(rows, msgs, k - 1, now, faults), msgs[k - 1];
      assert msg in msgs;
      AttemptSpends(before, msg, now, FaultsAt(faults, k - 1), n);
      forall j | k <= j < |msgs| ensures msgs[j].id in rows && msgs[j].id != msg.id {
        assert msgs[j] in msgs;
      }
    }
  }

  /** One fault-free poll at time `now`, with any outcome of the publishes. */
  function AfterPoll(rows: Table, now: int, timeout: int, limit: nat, faults: seq<Faults>): Table {
    var ready := ResetExpired(rows, now, timeout);
    var msgs := Scan(ready, limit);
    AfterBatch(ready, msgs, |msgs|, now, faults)
  }

  datatype Poll = Poll(now: int, faults: seq<Faults>)

  function AfterPolls(rows: Table, polls: seq<Poll>, timeout: int, limit: nat): Table
    decreases |polls|
  {
    if polls == [] then rows
    else AfterPolls(AfterPoll(rows, polls[0].now, timeout, limit, polls[0].faults), polls[1..], timeout, limit)
  }

  lemma PollSpends(rows: Table, poll: Poll, timeout: int, limit: nat, n: nat)
    requires Settled(rows, n) && DatabaseWorks(poll.faults) && limit > 0
    ensures var rows' := AfterPoll(rows, poll.now, timeout, limit, poll.faults);
            && Settled(rows', n) && rows'.Keys == rows.Keys
            && Budget(rows', n) <= Budget(rows, n)
            && ((exists id :: id in rows && rows[id].status.Pending?) ==> Budget(rows', n) < Budget(rows, n))
  {
    assert ResetExpired(rows, poll.now, timeout) == rows;
    var msgs := Scan(rows, limit);
    if id :| id in rows && rows[id].status.Pending? {
      assert Scanned(rows, id) in PendingMsgs(rows);
    }
    BatchSpends(rows, msgs, |msgs|, poll.now, poll.faults, n, limit);
  }

  /** A positive cost is at most the budget. */
  lemma CostWithinBudget(rows: Table, id: nat, n: nat)
    requires id in rows && id < n
    ensures Cost(rows[id]) <= Budget(rows, n)
  {
    if id < n - 1 {
      CostWithinBudget(rows, id, n - 1);
    }
  }

  lemma NothingLeft(rows: Table, k: nat, n: nat)
    requires Settled(rows, n) && forall id | id in rows :: !rows[id].status.Pending?
    ensures Budget(rows, k) == 0
  {}

  /** Whatever the broker answers, as many polls as there are attempts left leave no row open: every
      row is then published or failed. */
  lemma {:induction false} PollingDrains(rows: Table, polls: seq<Poll>, timeout: int, limit: nat, n: nat)
    requires Settled(rows, n) && limit > 0
    requires forall p | p in polls :: DatabaseWorks(p.faults)
    requires |polls| >= Budget(rows, n)
    ensures var rows' := AfterPolls(rows, polls, timeout, limit);
            && rows'.Keys == rows.Keys
            && (forall id | id in rows' :: rows'[id].status.Published? || rows'[id].status.Failed?)
    decreases |polls|
  {
    if polls == [] {
      forall id | id in rows ensures !rows[id].status.Pending? {
        CostWithinBudget(rows, id, n);
      }
    } else {
      var p := polls[0];
      assert p in polls && forall q | q in polls[1..] :: q in polls;
      PollSpends(rows, p, timeout, limit, n);
      var rows' := AfterPoll(rows, p.now, timeout, limit, p.faults);
      if forall id | id in rows :: !rows[id].status.Pending? {
        NothingLeft(rows, n, n);
      }
      PollingDrains(rows', polls[1..], timeout, limit, n);
    }
  }

  /** Four attempts per row are the most a fresh table can need. */
  lemma BudgetAtMostFourEach(rows: Table, n: nat)
    ensures Budget(rows, n) <= 4 * n
  {}
}
