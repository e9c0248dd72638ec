/**
  How often a row can be tried.  A worker counts retries from its scanned snapshot, so with several
  workers the stored retry count can go down again; a potential over all outstanding snapshots
  bounds the attempts nevertheless.
*/
module OutboxBound {
  import opened Levels
  import opened Outbox
  import opened OutboxProtocol
  import opened OutboxGuarantees

  /** The retry level at which a row can be claimed next; 4 when it cannot be claimed. */
  function RowLevel(s: State, id: nat): (k: int) {
    if id !in s.rows then 0
    else if s.rows[id].status.Pending? || s.rows[id].status.Processing? then s.rows[id].retryCount
    else 4
  }

  /** The retry level of a worker's outstanding snapshot of the row; 4 when it has none. */
  function SnapshotLevel(todo: seq<Msg>, id: nat): int {
    if todo == [] then 4
    else if todo[0].id == id then todo[0].retryCount
    else SnapshotLevel(todo[1..], id)
  }

  lemma {:induction false} WeightAntitone(n: nat, j: int, k: int)
    requires j <= k
    requires n > 0
    ensures Weight(n, k) <= Weight(n, j)
    decreases 4 - j
  {
    if j < 4 && j < k {
      WeightAntitone(n, j + 1, k);
      assert n * Weight(n, j + 1) >= Weight(n, j + 1);
    }
  }

  function Min(j: int, k: int): int { if j <= k then j else k }

  /** What one worker can still cost, given the level of the row. */
  function Share(worker: Worker, id: nat, level: int, n: nat): nat {
    Weight(n, Min(SnapshotLevel(worker.Todo(), id), level))
  }

  function Shares(workers: seq<Worker>, id: nat, level: int, n: nat): nat {
    if workers == [] then 0 else Share(workers[0], id, level, n) + Shares(workers[1..], id, level, n)
  }

  function Potential(s: State, id: nat): nat {
    Shares(s.workers, id, RowLevel(s, id), |s.workers|)
  }

  // ---------------------------------------------------------------- one step

  lemma SharesUpdate(workers: seq<Worker>, w: nat, worker: Worker, id: nat, level: int, n: nat)
    requires w < |workers|
    requires Share(worker, id, level, n) <= Share(workers[w], id, level, n)
    ensures Shares(workers[w := worker], id, level, n) <= Shares(workers, id, level, n)
  {
    if w == 0 {
      assert workers[w := worker][1..] == workers[1..];
    } else {
      assert workers[w := worker][1..] == workers[1..][w - 1 := worker];
      SharesUpdate(workers[1..], w - 1, worker, id, level, n);
    }
  }

  /** When the row moves to another level, each worker's share grows by at most one fresh snapshot. */
  lemma SharesMove(workers: seq<Worker>, id: nat, level: int, to: int, n: nat)
    requires n > 0
    ensures Shares(workers, id, to, n) <= Shares(workers, id, level, n) + |workers| * Weight(n, to)
  {
    if workers != [] {
      SharesMove(workers[1..], id, level, to, n);
      var k := SnapshotLevel(workers[0].Todo(), id);
      WeightAntitone(n, Min(k, level), k);
      assert |workers| * Weight(n, to) == Weight(n, to) + (|workers| - 1) * Weight(n, to);
    }
  }

  /** The worker that marks the row gives up its own share. */
  lemma SharesMark(workers: seq<Worker>, w: nat, worker: Worker, id: nat, level: int, to: int, n: nat)
    requires n > 0 && w < |workers|
    requires SnapshotLevel(worker.Todo(), id) == 4 && to <= 4
    ensures Shares(workers[w := worker], id, to, n)
            <= Shares(workers, id, level, n) - Share(workers[w], id, level, n) + |workers| * Weight(n, to)
  {
    assert |workers| * Weight(n, to) == Weight(n, to) + (|workers| - 1) * Weight(n, to);
    if w == 0 {
      assert workers[w := worker][1..] == workers[1..];
      SharesMove(workers[1..], id, level, to, n);
    } else {
      assert workers[w := worker][1..] == workers[1..][w - 1 := worker];
      SharesMark(workers[1..], w - 1, worker, id, level, to, n);
      SharesMove([workers[0]], id, level, to, n);
      assert [workers[0]][1..] == [];
    }
  }

  lemma NoSnapshot(todo: seq<Msg>, id: nat)
    requires forall m | m in todo :: m.id != id
    ensures SnapshotLevel(todo, id) == 4
  {
    if todo != [] {
      assert forall m | m in todo[1..] :: m in todo;
      NoSnapshot(todo[1..], id);
    }
  }

  lemma SnapshotFromScan(s: State, msgs: seq<Msg>, id: nat)
    requires forall m | m in msgs :: m.id in s.rows && s.rows[m.id].status == Pending && m == Scanned(s.rows, m.id)
    ensures SnapshotLevel(msgs, id) == 4 || SnapshotLevel(msgs, id) == RowLevel(s, id)
  {
    if msgs != [] {
      assert forall m | m in msgs[1..] :: m in msgs;
      SnapshotFromScan(s, msgs[1..], id);
    }
  }

  lemma SnapshotAtMost4(s: State, todo: seq<Msg>, id: nat)
    requires forall m | m in todo :: MsgOk(s.rows, m)
    ensures SnapshotLevel(todo, id) <= 4
  {
    if todo != [] {
      assert MsgOk(s.rows, todo[0]) by { assert todo[0] in todo; }
      assert forall m | m in todo[1..] :: m in todo;
      SnapshotAtMost4(s, todo[1..], id);
    }
  }

  /** Going on with the rest of a batch drops the snapshot of the message just handled. */
  lemma NextLevel(s: State, worker: Worker, id: nat)
    requires WorkerOk(s, worker) && worker.Todo() != []
    ensures var todo := worker.Todo();
            && SnapshotLevel(Next(todo).Todo(), id) >= SnapshotLevel(todo, id)
            && (todo[0].id == id ==> SnapshotLevel(Next(todo).Todo(), id) == 4)
  {
    var todo := worker.Todo();
    SnapshotAtMost4(s, todo, id);
    assert Next(todo).Todo() == todo[1..];
    if todo[0].id == id {
      NoSnapshot(todo[1..], id);
    }
  }

  lemma LevelAtMost4(s: State, id: nat)
    requires Inv(s)
    ensures 0 <= RowLevel(s, id) <= 4
  {}

  /** The acting worker's snapshots never get older. */
  lemma ActorLevel(s: State, a: Action, id: nat)
    requires Inv(s) && Enabled(s, a) && !a.Tick? && !a.Insert? && !Marks(s, a, id)
    ensures var before := SnapshotLevel(s.workers[a.w].Todo(), id);
            var after := SnapshotLevel(Step(s, a).workers[a.w].Todo(), id);
            Min(after, RowLevel(s, id)) >= Min(before, RowLevel(s, id))
  {
    LevelAtMost4(s, id);
    assert WorkerOk(s, s.workers[a.w]);
    SnapshotAtMost4(s, s.workers[a.w].Todo(), id);
    if s.workers[a.w].Todo() != [] {
      NextLevel(s, s.workers[a.w], id);
    }
    if a.ScanRows? && a.found.Some? {
      SnapshotFromScan(s, a.found.value, id);
    }
  }

  lemma StepLevel(s: State, a: Action, id: nat)
    requires Inv(s) && Enabled(s, a) && !Marks(s, a, id)
    ensures RowLevel(Step(s, a), id) == RowLevel(s, id)
  {}

  lemma StepPotential(s: State, a: Action, id: nat)
    requires Inv(s) && Enabled(s, a)
    ensures Potential(Step(s, a), id) + (if Marks(s, a, id) then 1 else 0) <= Potential(s, id)
    ensures |Step(s, a).workers| == |s.workers|
  {
    var n := |s.workers|;
    if Marks(s, a, id) {
      MarkPotential(s, a, id);
    } else {
      StepLevel(s, a, id);
      if !a.Tick? && !a.Insert? {
        ActorLevel(s, a, id);
        var t := Step(s, a);
        var level := RowLevel(s, id);
        WeightAntitone(n, Min(SnapshotLevel(s.workers[a.w].Todo(), id), level),
            Min(SnapshotLevel(t.workers[a.w].Todo(), id), level));
        assert t.workers == s.workers[a.w := t.workers[a.w]];
        SharesUpdate(s.workers, a.w, t.workers[a.w], id, level, n);
      }
    }
  }

  /** A mark uses up the worker's snapshot at level j and moves the row to level j + 1, or closes it. */
  lemma MarkLevels(s: State, a: Action, id: nat) returns (j: int)
    requires Inv(s) && Enabled(s, a) && Marks(s, a, id)
    ensures 0 <= j <= 3 && SnapshotLevel(s.workers[a.w].Todo(), id) == j
    ensures RowLevel(Step(s, a), id) == j + 1 || RowLevel(Step(s, a), id) == 4
    ensures SnapshotLevel(Step(s, a).workers[a.w].Todo(), id) == 4
  {
    assert WorkerOk(s, s.workers[a.w]);
    assert MsgOk(s.rows, s.workers[a.w].todo[0]);
    j := s.workers[a.w].todo[0].retryCount;
    NextLevel(s, s.workers[a.w], id);
  }

  lemma MarkPotential(s: State, a: Action, id: nat)
    requires Inv(s) && Enabled(s, a) && Marks(s, a, id)
    ensures Potential(Step(s, a), id) + 1 <= Potential(s, id)
  {
    var t, n := Step(s, a), |s.workers|;
    var j := MarkLevels(s, a, id);
    var level, to := RowLevel(s, id), RowLevel(t, id);
    assert t.workers == s.workers[a.w := t.workers[a.w]];
    SharesMark(s.workers, a.w, t.workers[a.w], id, level, to, n);
    LevelAtMost4(s, id);
    WeightAntitone(n, Min(j, level), j);
    WeightAntitone(n, j + 1, to);
    MulMonotone(n, Weight(n, to), Weight(n, j + 1));
  }

  lemma MulMonotone(n: nat, x: nat, y: nat)
    requires x <= y
    ensures n * x <= n * y
  {}

  // ---------------------------------------------------------------- whole runs

  /** How often a marking statement reached the row: each is the end of one delivery attempt. */
  function Attempts(s: State, acts: seq<Action>, id: nat): nat
    requires Possible(s, acts)
  {
    if acts == [] then 0
    else Attempts(s, Front(acts), id) + (if Marks(After(s, Front(acts)), Final(acts), id) then 1 else 0)
  }

  lemma {:induction false} RunPotential(s: State, acts: seq<Action>, id: nat)
    requires IsRun(s, acts)
    ensures Attempts(s, acts, id) + Potential(After(s, acts), id) <= Potential(s, id)
    ensures |After(s, acts).workers| == |s.workers|
  {
    if acts != [] {
      RunPotential(s, Front(acts), id);
      RunsKeepInv(s, Front(acts));
      StepPotential(After(s, Front(acts)), Final(acts), id);
    }
  }

  lemma IdleShares(workers: seq<Worker>, id: nat, n: nat)
    requires forall w | 0 <= w < |workers| :: workers[w].Idle?
    ensures Shares(workers, id, 0, n) == |workers| * Weight(n, 0)
  {
    if workers != [] {
      IdleShares(workers[1..], id, n);
      assert |workers| * Weight(n, 0) == Weight(n, 0) + (|workers| - 1) * Weight(n, 0);
    }
  }

  /** With n workers, whatever crashes, failed statements, stale snapshots and expired leases occur,
      at most n + n^2 + n^3 + n^4 attempts on one row are ever marked; with one worker, at most 4. */
  lemma AttemptsBounded(s: State, acts: seq<Action>, id: nat)
    requires IsRun(s, acts)
    ensures Attempts(s, acts, id) <= Bound(|s.workers|)
    ensures |s.workers| == 1 ==> Attempts(s, acts, id) <= 4
  {
    RunPotential(s, acts, id);
    IdleShares(s.workers, id, |s.workers|);
    WeightZero(|s.workers|);
  }

  // ---------------------------------------------------------------- publishes in reliable runs

  /** No crash, and every statement that a worker issues for a row succeeds. */
  predicate Reliable(acts: seq<Action>) {
    forall a | a in acts ::
      !a.Crash? && (a.TryClaim? || a.SetPublished? || a.SetFailed? ==> a.db.Done?)
  }

  predicate PublishesRow(s: State, a: Action, id: nat)
    requires Enabled(s, a)
  {
    a.Publish? && s.workers[a.w].todo[0].id == id
  }

  function Publishes(s: State, acts: seq<Action>, id: nat): nat
    requires Possible(s, acts)
  {
    if acts == [] then 0
    else Publishes(s, Front(acts), id) + (if PublishesRow(After(s, Front(acts)), Final(acts), id) then 1 else 0)
  }

  /** Workers that have called the broker for the row and not marked it yet. */
  function Unmarked(worker: Worker, id: nat): nat {
    if (worker.Sent? || worker.Refused?) && worker.todo != [] && worker.todo[0].id == id then 1 else 0
  }

  function AllUnmarked(workers: seq<Worker>, id: nat): nat {
    if workers == [] then 0 else Unmarked(workers[0], id) + AllUnmarked(workers[1..], id)
  }

  lemma UnmarkedUpdate(workers: seq<Worker>, w: nat, worker: Worker, id: nat)
    requires w < |workers|
    ensures AllUnmarked(workers[w := worker], id)
            == AllUnmarked(workers, id) - Unmarked(workers[w], id) + Unmarked(worker, id)
  {
    if w == 0 {
      assert workers[w := worker][1..] == workers[1..];
    } else {
      assert workers[w := worker][1..] == workers[1..][w - 1 := worker];
      UnmarkedUpdate(workers[1..], w - 1, worker, id);
    }
  }

  lemma StepUnmarked(s: State, a: Action, id: nat)
    requires Inv(s) && Enabled(s, a) && Reliable([a])
    ensures AllUnmarked(Step(s, a).workers, id) + (if Marks(s, a, id) then 1 else 0)
            == AllUnmarked(s.workers, id) + (if PublishesRow(s, a, id) then 1 else 0)
  {
    assert a in [a];
    if !a.Tick? && !a.Insert? {
      UnmarkedUpdate(s.workers, a.w, Step(s, a).workers[a.w], id);
    }
  }

  lemma {:induction false} RunUnmarked(s: State, acts: seq<Action>, id: nat)
    requires IsRun(s, acts) && Reliable(acts)
    ensures Publishes(s, acts, id) == Attempts(s, acts, id) + AllUnmarked(After(s, acts).workers, id)
  {
    if acts == [] {
      IdleUnmarked(s.workers, id);
    } else {
      RunUnmarked(s, Front(acts), id);
      RunsKeepInv(s, Front(acts));
      StepUnmarked(After(s, Front(acts)), Final(acts), id);
    }
  }

  lemma IdleUnmarked(workers: seq<Worker>, id: nat)
    requires forall w | 0 <= w < |workers| :: workers[w].Idle?
    ensures AllUnmarked(workers, id) == 0
  {}

  /** Each publish that is still to be marked is paid for by the snapshot it used. */
  lemma UnmarkedHavePotential(workers: seq<Worker>, id: nat, level: int, n: nat)
    requires n > 0
    requires forall w | 0 <= w < |workers| && Unmarked(workers[w], id) == 1 :: workers[w].todo[0].retryCount <= 3
    ensures AllUnmarked(workers, id) <= Shares(workers, id, level, n)
  {
    if workers != [] {
      if Unmarked(workers[0], id) == 1 {
        var j := workers[0].todo[0].retryCount;
        assert Weight(n, Min(j, level)) >= 1;
      }
      UnmarkedHavePotential(workers[1..], id, level, n);
    }
  }

  /** Without crashes and database errors every publish of a row is marked, so the row's event is
      published at most n + n^2 + n^3 + n^4 times: at most 4 times by a single worker. */
  lemma PublishesBounded(s: State, acts: seq<Action>, id: nat)
    requires IsRun(s, acts) && Reliable(acts)
    ensures Publishes(s, acts, id) <= Bound(|s.workers|)
    ensures |s.workers| == 1 ==> Publishes(s, acts, id) <= 4
  {
    var t := After(s, acts);
    RunUnmarked(s, acts, id);
    RunPotential(s, acts, id);
    IdleShares(s.workers, id, |s.workers|);
    WeightZero(|s.workers|);
    RunsKeepInv(s, acts);
    if |t.workers| > 0 {
      forall w | 0 <= w < |t.workers| && Unmarked(t.workers[w], id) == 1 ensures t.workers[w].todo[0].retryCount <= 3 {
        assert WorkerOk(t, t.workers[w]);
        assert MsgOk(t.rows, t.workers[w].todo[0]);
      }
      UnmarkedHavePotential(t.workers, id, RowLevel(t, id), |t.workers|);
    }
  }
}
