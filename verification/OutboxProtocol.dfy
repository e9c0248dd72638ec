/**
  Any number of outbox workers over one table (internal/worker/outbox_worker.go), interleaved at
  the grain of one SQL statement or one broker call.  A worker may crash between any two steps, a
  statement may fail, or take effect and still be reported as failed, and a publish may be accepted
  by the broker although the worker is told otherwise.
*/
module OutboxProtocol {
  import opened Wrappers
  import opened Outbox

  /** Where a worker stands in pollOnce.  `todo` starts with the message being handled. */
  datatype Worker =
    | Idle
    | Swept
    | Batch(todo: seq<Msg>)
    | Claimed(todo: seq<Msg>, at: int)
    | Sent(todo: seq<Msg>, at: int)
    | Refused(todo: seq<Msg>, at: int)
  {
    /** Between winning a claim and marking the row. */
    predicate Holds() { Claimed? || Sent? || Refused? }

    function Todo(): seq<Msg> { if Idle? || Swept? then [] else todo }
  }

  /** `handed` are the rows whose event the broker has accepted at least once. */
  datatype State = State(
    now: int, timeout: int, limit: nat, rows: Table, workers: seq<Worker>, handed: set<nat>)

  datatype Action =
    | Tick(to: int)
    | Insert(id: nat, videoId: nat, createTime: int)
    | Sweep(w: nat, db: Outcome)
    | ScanRows(w: nat, found: Option<seq<Msg>>)
    | Skip(w: nat)
    | TryClaim(w: nat, db: Outcome)
    | Publish(w: nat, broker: Outcome)
    | SetPublished(w: nat, db: Outcome)
    | SetFailed(w: nat, error: string, db: Outcome)
    | Crash(w: nat)

  function Init(now: int, timeout: int, limit: nat, workers: nat): State {
    State(now, timeout, limit, map[], seq(workers, _ => Idle), {})
  }

  predicate Enabled(s: State, a: Action) {
    match a
    case Tick(to) => s.now < to
    case Insert(id, videoId, createTime) => id != 0 && id !in s.rows
    case Sweep(w, db) => w < |s.workers| && s.workers[w].Idle?
    case ScanRows(w, found) =>
      && w < |s.workers| && s.workers[w].Swept?
      && (found.Some? ==> IsScan(s.rows, s.limit, found.value))
    case Skip(w) => w < |s.workers| && s.workers[w].Batch? && s.workers[w].todo != []
        && s.workers[w].todo[0].videoId == 0
    case TryClaim(w, db) =>
      w < |s.workers| && s.workers[w].Batch? && s.workers[w].todo != [] && s.workers[w].todo[0].videoId != 0
    case Publish(w, broker) => w < |s.workers| && s.workers[w].Claimed? && s.workers[w].todo != []
    case SetPublished(w, db) => w < |s.workers| && s.workers[w].Sent? && s.workers[w].todo != []
    case SetFailed(w, error, db) => w < |s.workers| && s.workers[w].Refused? && s.workers[w].todo != []
    case Crash(w) => w < |s.workers|
  }

  /** The worker goes on with the rest of its batch. */
  function Next(todo: seq<Msg>): Worker
    requires todo != []
  {
    if |todo| == 1 then Idle else Batch(todo[1..])
  }

  function Put(s: State, w: nat, worker: Worker): State
    requires w < |s.workers|
  {
    s.(workers := s.workers[w := worker])
  }

  function Step(s: State, a: Action): State
    requires Enabled(s, a)
  {
    match a
    case Tick(to) => s.(now := to)
    case Insert(id, videoId, createTime) => s.(rows := s.rows[id := NewRow(videoId, createTime, s.now)])
    case Sweep(w, db) =>
      var rows' := if db.Applied() then ResetExpired(s.rows, s.now, s.timeout) else s.rows;
      Put(s.(rows := rows'), w, if db.Reported() then Swept else Idle)
    case ScanRows(w, found) => Put(s, w, if found.None? || found.value == [] then Idle else Batch(found.value))
    case Skip(w) => Put(s, w, Next(s.workers[w].todo))
    case TryClaim(w, db) =>
      var todo := s.workers[w].todo;
      var won := Claimable(s.rows, todo[0].id);
      var rows' := if db.Applied() then Claim(s.rows, todo[0].id, s.now) else s.rows;
      Put(s.(rows := rows'), w, if won && db.Reported() then Claimed(todo, s.now) else Next(todo))
    case Publish(w, broker) =>
      var Claimed(todo, at) := s.workers[w];
      var handed' := if broker.Applied() then s.handed + {todo[0].id} else s.handed;
      Put(s.(handed := handed'), w, if broker.Reported() then Sent(todo, at) else Refused(todo, at))
    case SetPublished(w, db) =>
      var todo := s.workers[w].todo;
      var rows' := if db.Applied() then MarkPublished(s.rows, todo[0].id, s.now) else s.rows;
      Put(s.(rows := rows'), w, Next(todo))
    case SetFailed(w, error, db) =>
      var todo := s.workers[w].todo;
      var rows' := if db.Applied() then MarkFailed(s.rows, todo[0], error, s.now) else s.rows;
      Put(s.(rows := rows'), w, Next(todo))
    case Crash(w) => Put(s, w, Idle)
  }

  // ---------------------------------------------------------------- runs

  predicate Possible(s: State, acts: seq<Action>)
    decreases |acts|, 0
  {
    acts == [] || (Possible(s, Front(acts)) && Enabled(After(s, Front(acts)), Final(acts)))
  }

  function After(s: State, acts: seq<Action>): State
    requires Possible(s, acts)
    decreases |acts|, 1
  {
    if acts == [] then s else Step(After(s, Front(acts)), Final(acts))
  }

  function Front(acts: seq<Action>): seq<Action>
    requires acts != []
  {
    acts[..|acts| - 1]
  }

  function Final(acts: seq<Action>): Action
    requires acts != []
  {
    acts[|acts| - 1]
  }

  /** The state before action i of a run. */
  function At(s: State, acts: seq<Action>, i: nat): State
    requires i <= |acts| && Possible(s, acts[..i])
  {
    After(s, acts[..i])
  }

  lemma {:induction false} PossiblePrefix(s: State, acts: seq<Action>, i: nat)
    requires Possible(s, acts) && i <= |acts|
    ensures Possible(s, acts[..i])
    ensures i < |acts| ==>
              && Possible(s, acts[..i + 1]) && Enabled(At(s, acts, i), acts[i])
              && At(s, acts, i + 1) == Step(At(s, acts, i), acts[i])
    decreases |acts|
  {
    if i == |acts| {
      assert acts[..i] == acts;
    } else {
      if i + 1 < |acts| {
        PossiblePrefix(s, Front(acts), i);
        assert Front(acts)[..i] == acts[..i] && Front(acts)[..i + 1] == acts[..i + 1];
      } else {
        assert acts[..i] == Front(acts) && acts[..i + 1] == acts;
      }
      assert Front(acts[..i + 1]) == acts[..i];
    }
  }

  // ---------------------------------------------------------------- the row invariant

  predicate RowOk(row: Row, handed: bool, now: int) {
    && 0 <= row.retryCount <= MAX_OUTBOX_RETRY + 1
    && (row.status.Pending? || row.status.Processing? ==> row.retryCount <= MAX_OUTBOX_RETRY)
    && (row.status.Failed? ==> row.retryCount == MAX_OUTBOX_RETRY + 1)
    && (row.status.Published? ==> handed)
    && row.updatedAt <= now
  }

  predicate MsgOk(rows: Table, m: Msg) {
    && m.id != 0 && m.id in rows
    && m.videoId == rows[m.id].videoId && m.createTime == rows[m.id].createTime
    && 0 <= m.retryCount <= MAX_OUTBOX_RETRY
  }

  predicate WorkerOk(s: State, worker: Worker) {
    && (forall m | m in worker.Todo() :: MsgOk(s.rows, m))
    && (forall i, j | 0 <= i < j < |worker.Todo()| :: worker.Todo()[i].id != worker.Todo()[j].id)
    && (!worker.Idle? && !worker.Swept? ==> worker.todo != [])
    && (worker.Holds() ==> worker.todo[0].videoId != 0 && worker.at <= s.now)
    && (worker.Sent? ==> worker.todo[0].id in s.handed)
  }

  predicate Inv(s: State) {
    && (forall id | id in s.rows :: id != 0 && RowOk(s.rows[id], id in s.handed, s.now))
    && (forall id | id in s.handed :: id in s.rows && s.rows[id].videoId != 0)
    && (forall w | 0 <= w < |s.workers| :: WorkerOk(s, s.workers[w]))
  }

  /** The rest of a batch is as well formed as the batch. */
  lemma NextOk(s: State, worker: Worker)
    requires WorkerOk(s, worker) && worker.Todo() != []
    ensures WorkerOk(s, Next(worker.Todo()))
  {
    var todo := worker.Todo();
    assert forall m | m in todo[1..] :: m in todo;
  }

  lemma StepInv(s: State, a: Action)
    requires Inv(s) && Enabled(s, a)
    ensures Inv(Step(s, a))
  {
    var t := Step(s, a);
    forall w | 0 <= w < |t.workers| ensures WorkerOk(t, t.workers[w]) {
      StepWorkerOk(s, a, w);
    }
    StepRowsOk(s, a);
  }

  /** The message that an action of a worker is about. */
  lemma HeadOk(s: State, w: nat)
    requires Inv(s) && w < |s.workers| && s.workers[w].Todo() != []
    ensures MsgOk(s.rows, s.workers[w].Todo()[0])
    ensures s.workers[w].Holds() ==> s.workers[w].todo[0].videoId != 0
    ensures s.workers[w].Sent? ==> s.workers[w].todo[0].id in s.handed
  {
    assert WorkerOk(s, s.workers[w]);
  }

  lemma StepRowsOk(s: State, a: Action)
    requires Inv(s) && Enabled(s, a)
    ensures var t := Step(s, a);
            && (forall id | id in t.rows :: id != 0 && RowOk(t.rows[id], id in t.handed, t.now))
            && (forall id | id in t.handed :: id in t.rows && t.rows[id].videoId != 0)
  {
    var t := Step(s, a);
    if !a.Tick? && !a.Insert? && a.w < |s.workers| && s.workers[a.w].Todo() != [] {
      HeadOk(s, a.w);
    }
    forall id | id in t.rows ensures id != 0 && RowOk(t.rows[id], id in t.handed, t.now) {
      assert id in s.rows ==> RowOk(s.rows[id], id in s.handed, s.now);
    }
  }

  lemma MsgStays(s: State, a: Action, m: Msg)
    requires Inv(s) && Enabled(s, a) && MsgOk(s.rows, m)
    ensures MsgOk(Step(s, a).rows, m)
  {}

  /** A worker that stays as it is, or goes on to the rest of its batch, stays well formed. */
  lemma StaysOk(s: State, a: Action, worker: Worker)
    requires Inv(s) && Enabled(s, a) && WorkerOk(s, worker)
    ensures WorkerOk(Step(s, a), worker)
  {
    forall m | m in worker.Todo() ensures MsgOk(Step(s, a).rows, m) {
      MsgStays(s, a, m);
    }
    assert s.handed <= Step(s, a).handed && s.now <= Step(s, a).now;
  }

  lemma StepWorkerOk(s: State, a: Action, w: nat)
    requires Inv(s) && Enabled(s, a)
    requires w < |s.workers|
    ensures WorkerOk(Step(s, a), Step(s, a).workers[w])
  {
    var worker := s.workers[w];
    assert WorkerOk(s, worker);
    StaysOk(s, a, worker);
    if worker.Todo() != [] {
      NextOk(s, worker);
      StaysOk(s, a, Next(worker.Todo()));
    }
  }

  lemma {:induction false} RunInv(s: State, acts: seq<Action>)
    requires Inv(s) && Possible(s, acts)
    ensures Inv(After(s, acts))
  {
    if acts != [] {
      RunInv(s, Front(acts));
      StepInv(After(s, Front(acts)), Final(acts));
    }
  }
}
