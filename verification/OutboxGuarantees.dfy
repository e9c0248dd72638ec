/**
  What the outbox protocol guarantees over whole runs: the row invariant, claims before publishes,
  the lease, and a bound on the number of delivery attempts.
*/
module OutboxGuarantees {
  import opened Wrappers
  import opened Outbox
  import opened OutboxProtocol

  /** The state before action i of a run from an empty table. */
  ghost predicate IsRun(s: State, acts: seq<Action>) {
    && Possible(s, acts)
    && s.rows == map[] && s.handed == {}
    && (forall w | 0 <= w < |s.workers| :: s.workers[w].Idle?)
  }

  lemma RunsKeepInv(s: State, acts: seq<Action>)
    requires IsRun(s, acts)
    ensures Inv(After(s, acts))
  {
    assert Inv(s);
    RunInv(s, acts);
  }

  /** In every run: the stored retry count of a pending or processing row is at most three, that of a
      failed row is four, and a published row was accepted by the broker at least once.  The stored
      count can fall behind the number of refusals, since it is written from snapshots. */
  lemma RowsAlwaysOk(s: State, acts: seq<Action>, id: nat)
    requires IsRun(s, acts)
    requires id in After(s, acts).rows
    ensures var t := After(s, acts); var row := t.rows[id];
            && (row.status.Pending? || row.status.Processing? ==> 0 <= row.retryCount <= 3)
            && (row.status.Failed? ==> row.retryCount == 4)
            && (row.status.Published? ==> id in t.handed)
  {
    RunsKeepInv(s, acts);
  }

  // ---------------------------------------------------------------- claims before publishes

  /** The worker whose position an action changes. */
  predicate By(a: Action, w: nat) {
    !a.Tick? && !a.Insert? && a.w == w
  }

  predicate WinsClaim(s: State, a: Action, w: nat, id: nat)
    requires Enabled(s, a)
  {
    a.TryClaim? && a.w == w && s.workers[w].todo[0].id == id && Claimable(s.rows, id) && a.db.Done?
  }

  /** Only the worker's own winning claim brings it to a claimed message. */
  lemma StepToClaimed(s: State, a: Action, w: nat)
    requires Enabled(s, a) && w < |s.workers|
    ensures !By(a, w) ==> Step(s, a).workers[w] == s.workers[w]
    ensures By(a, w) && Step(s, a).workers[w].Claimed? ==>
              WinsClaim(s, a, w, Step(s, a).workers[w].todo[0].id)
    ensures |Step(s, a).workers| == |s.workers|
  {}

  /** A worker that stands at a claimed message won that claim earlier and has done nothing since. */
  lemma {:induction false} ClaimedByWinning(s: State, acts: seq<Action>, w: nat) returns (i: nat)
    requires Possible(s, acts)
    requires forall w | 0 <= w < |s.workers| :: s.workers[w].Idle?
    requires w < |After(s, acts).workers| && After(s, acts).workers[w].Claimed?
    requires After(s, acts).workers[w].todo != []
    ensures i < |acts|
    ensures Possible(s, acts[..i]) && Enabled(At(s, acts, i), acts[i])
    ensures WinsClaim(At(s, acts, i), acts[i], w, After(s, acts).workers[w].todo[0].id)
    ensures forall k | i < k < |acts| :: !By(acts[k], w)
    decreases |acts|
  {
    var front := Front(acts);
    var t := After(s, front);
    assert acts[..|front|] == front && acts[|front|] == Final(acts);
    StepToClaimed(t, Final(acts), w);
    if By(Final(acts), w) {
      i := |front|;
    } else {
      i := ClaimedByWinning(s, front, w);
      assert front[..i] == acts[..i];
    }
  }

  /** No publish without a winning claim of the same row by the same worker; in between that worker
      does nothing, so every claim pays for at most one publish. */
  lemma PublishNeedsClaim(s: State, acts: seq<Action>, j: nat) returns (i: nat)
    requires IsRun(s, acts) && j < |acts| && acts[j].Publish?
    ensures i < j
    ensures Possible(s, acts[..i]) && Enabled(At(s, acts, i), acts[i])
    ensures Possible(s, acts[..j]) && Enabled(At(s, acts, j), acts[j])
    ensures var w := acts[j].w;
            WinsClaim(At(s, acts, i), acts[i], w, At(s, acts, j).workers[w].todo[0].id)
    ensures forall k | i < k < j :: !By(acts[k], acts[j].w)
  {
    PossiblePrefix(s, acts, j);
    i := ClaimedByWinning(s, acts[..j], acts[j].w);
    assert acts[..j][..i] == acts[..i];
  }

  // ---------------------------------------------------------------- the lease

  /** The claim statement changes the row, whatever the worker is told. */
  predicate Claims(s: State, a: Action, id: nat)
    requires Enabled(s, a)
  {
    a.TryClaim? && s.workers[a.w].todo[0].id == id && Claimable(s.rows, id) && a.db.Applied()
  }

  /** A marking statement reaches the row. */
  predicate Marks(s: State, a: Action, id: nat)
    requires Enabled(s, a)
  {
    (a.SetPublished? || a.SetFailed?) && s.workers[a.w].todo[0].id == id && a.db.Applied()
  }

  /** Since a claim at time c the row has been leased, or its lease has run out. */
  predicate LeasedSince(s: State, id: nat, c: int) {
    && id in s.rows
    && (|| (s.rows[id].status.Processing? && s.rows[id].updatedAt == c)
        || (s.rows[id].status.Pending? && s.now > c + s.timeout))
  }

  lemma StepKeepsLease(s: State, a: Action, id: nat, c: int)
    requires Inv(s) && Enabled(s, a) && LeasedSince(s, id, c)
    requires !Marks(s, a, id) && !Claims(s, a, id)
    ensures LeasedSince(Step(s, a), id, c)
  {}

  /** Action k of a run neither marks nor claims the row. */
  predicate LeavesAlone(s: State, acts: seq<Action>, k: nat, id: nat)
    requires Possible(s, acts) && k < |acts|
  {
    PossiblePrefix(s, acts, k);
    !Marks(At(s, acts, k), acts[k], id) && !Claims(At(s, acts, k), acts[k], id)
  }

  lemma {:induction false} LeaseLasts(s: State, acts: seq<Action>, i: nat, j: nat, id: nat)
    requires IsRun(s, acts) && i < j <= |acts|
    requires Possible(s, acts[..i]) && Enabled(At(s, acts, i), acts[i]) && Claims(At(s, acts, i), acts[i], id)
    requires forall k | i < k < j :: LeavesAlone(s, acts, k, id)
    ensures Possible(s, acts[..j])
    ensures LeasedSince(At(s, acts, j), id, At(s, acts, i).now)
    decreases j
  {
    var c := At(s, acts, i).now;
    PossiblePrefix(s, acts, j - 1);
    PossiblePrefix(s, acts, j);
    if j > i + 1 {
      LeaseLasts(s, acts, i, j - 1, id);
      assert LeavesAlone(s, acts, j - 1, id);
      RunsKeepInv(s, acts[..j - 1]);
      StepKeepsLease(At(s, acts, j - 1), acts[j - 1], id, c);
    } else {
      ClaimLeases(At(s, acts, i), acts[i], id);
    }
  }

  lemma ClaimLeases(s: State, a: Action, id: nat)
    requires Enabled(s, a) && Claims(s, a, id)
    ensures LeasedSince(Step(s, a), id, s.now)
  {}

  /** Two claims of one row with no mark and no other claim between them are more than `timeout`
      apart. */
  lemma ClaimsAreFarApart(s: State, acts: seq<Action>, i: nat, j: nat, id: nat)
    requires IsRun(s, acts) && i < j < |acts|
    requires Possible(s, acts[..i]) && Enabled(At(s, acts, i), acts[i]) && Claims(At(s, acts, i), acts[i], id)
    requires Possible(s, acts[..j]) && Enabled(At(s, acts, j), acts[j]) && Claims(At(s, acts, j), acts[j], id)
    requires forall k | i < k < j :: LeavesAlone(s, acts, k, id)
    ensures At(s, acts, j).now - At(s, acts, i).now > At(s, acts, j).timeout
  {
    LeaseLasts(s, acts, i, j, id);
  }

  // ---------------------------------------------------------------- exclusive holders

  predicate HoldsRow(worker: Worker, id: nat) {
    worker.Holds() && worker.todo != [] && worker.todo[0].id == id
  }

  /** No worker has held a claim for longer than the lease. */
  predicate Prompt(s: State) {
    forall w | 0 <= w < |s.workers| :: s.workers[w].Holds() ==> s.now <= s.workers[w].at + s.timeout
  }

  /** A holder's row is still leased to it, and it has no rival. */
  ghost predicate Exclusive(s: State) {
    && (forall w | 0 <= w < |s.workers| :: s.workers[w].Holds() && s.workers[w].todo != [] ==>
          var id := s.workers[w].todo[0].id;
          id in s.rows && s.rows[id].status.Processing? && s.rows[id].updatedAt == s.workers[w].at)
    && (forall v, w, id | 0 <= v < |s.workers| && 0 <= w < |s.workers| ::
          HoldsRow(s.workers[v], id) && HoldsRow(s.workers[w], id) ==> v == w)
  }

  lemma StepKeepsExclusive(s: State, a: Action)
    requires Inv(s) && Enabled(s, a) && Exclusive(s) && Prompt(s)
    ensures Exclusive(Step(s, a))
  {
    var t := Step(s, a);
    forall w | 0 <= w < |t.workers| && t.workers[w].Holds() && t.workers[w].todo != []
      ensures var id := t.workers[w].todo[0].id;
              id in t.rows && t.rows[id].status.Processing? && t.rows[id].updatedAt == t.workers[w].at
    {
      StepKeepsHolder(s, a, w);
    }
    forall v, w, id | 0 <= v < |t.workers| && 0 <= w < |t.workers| && HoldsRow(t.workers[v], id)
        && HoldsRow(t.workers[w], id)
      ensures v == w
    {
      StepKeepsSole(s, a, v, w, id);
    }
  }

  lemma StepKeepsHolder(s: State, a: Action, w: nat)
    requires Inv(s) && Enabled(s, a) && Exclusive(s) && Prompt(s)
    requires w < |s.workers|
    requires var t := Step(s, a); t.workers[w].Holds() && t.workers[w].todo != []
    ensures var t := Step(s, a); var id := t.workers[w].todo[0].id;
            id in t.rows && t.rows[id].status.Processing? && t.rows[id].updatedAt == t.workers[w].at
  {
    var id := Step(s, a).workers[w].todo[0].id;
    if s.workers[w].Holds() {
      assert HoldsRow(s.workers[w], id);
      if (a.SetPublished? || a.SetFailed?) && a.w != w {
        assert HoldsRow(s.workers[a.w], s.workers[a.w].todo[0].id);
      }
    }
  }

  lemma StepKeepsSole(s: State, a: Action, v: nat, w: nat, id: nat)
    requires Inv(s) && Enabled(s, a) && Exclusive(s)
    requires v < |s.workers| && w < |s.workers|
    requires HoldsRow(Step(s, a).workers[v], id) && HoldsRow(Step(s, a).workers[w], id)
    ensures v == w
  {
    assert !By(a, v) || a.Publish? ==> HoldsRow(s.workers[v], id);
    assert !By(a, w) || a.Publish? ==> HoldsRow(s.workers[w], id);
  }

  /** Every state a run goes through satisfies Prompt. */
  ghost predicate AlwaysPrompt(s: State, acts: seq<Action>)
    requires Possible(s, acts)
  {
    forall i | 0 <= i <= |acts| && Possible(s, acts[..i]) :: Prompt(At(s, acts, i))
  }

  /** If no worker ever holds a claim for longer than the lease, at most one worker at a time stands
      between claiming and marking a row. */
  lemma {:induction false} AtMostOneHolder(s: State, acts: seq<Action>)
    requires IsRun(s, acts) && AlwaysPrompt(s, acts)
    ensures Exclusive(After(s, acts))
    decreases |acts|
  {
    if acts != [] {
      var front := Front(acts);
      PossiblePrefix(s, acts, |front|);
      assert acts[..|front|] == front;
      forall i | 0 <= i <= |front| && Possible(s, front[..i]) ensures Prompt(At(s, front, i)) {
        assert front[..i] == acts[..i];
        assert Prompt(At(s, acts, i));
      }
      AtMostOneHolder(s, front);
      RunsKeepInv(s, front);
      assert front[..|front|] == front;
      assert Prompt(At(s, front, |front|));
      StepKeepsExclusive(After(s, front), Final(acts));
    }
  }

  // ---------------------------------------------------------------- published rows

  predicate IsPublished(s: State, id: nat) {
    id in s.rows && s.rows[id].status.Published?
  }

  /** The worker believes that it holds the row and may still record a failure. */
  predicate MayFail(worker: Worker, id: nat) {
    (worker.Claimed? || worker.Refused?) && worker.todo != [] && worker.todo[0].id == id
  }

  predicate Unthreatened(s: State, id: nat) {
    forall w | 0 <= w < |s.workers| :: !MayFail(s.workers[w], id)
  }

  /** A published row cannot be claimed, so nobody comes to threaten it. */
  lemma StepKeepsPublished(s: State, a: Action, id: nat)
    requires Inv(s) && Enabled(s, a) && IsPublished(s, id) && Unthreatened(s, id)
    ensures IsPublished(Step(s, a), id) && Unthreatened(Step(s, a), id)
  {
    var t := Step(s, a);
    forall w | 0 <= w < |t.workers| ensures !MayFail(t.workers[w], id) {
      assert !MayFail(s.workers[w], id);
    }
  }

  lemma {:induction false} RunKeepsPublished(s: State, acts: seq<Action>, id: nat)
    requires Inv(s) && Possible(s, acts) && IsPublished(s, id) && Unthreatened(s, id)
    ensures IsPublished(After(s, acts), id) && Unthreatened(After(s, acts), id)
  {
    if acts != [] {
      RunKeepsPublished(s, Front(acts), id);
      RunInv(s, Front(acts));
      StepKeepsPublished(After(s, Front(acts)), Final(acts), id);
    }
  }

  /** A worker that may still fail can set the row back by a refused publish. */
  lemma ThreatUndoes(s: State, w: nat, id: nat) returns (acts: seq<Action>)
    requires Inv(s) && w < |s.workers| && IsPublished(s, id) && MayFail(s.workers[w], id)
    ensures Possible(s, acts) && !IsPublished(After(s, acts), id)
  {
    acts := [];
    if s.workers[w].Claimed? {
      Extend(s, acts, Publish(w, NotDone));
      acts := acts + [Publish(w, NotDone)];
    }
    Extend(s, acts, SetFailed(w, "", Done));
    acts := acts + [SetFailed(w, "", Done)];
  }

  /** A published row stays published in every run from here if and only if no worker stands between a claim
      of it and the report of a successful publish. */
  lemma PublishedForGoodIff(s: State, id: nat)
    requires Inv(s) && IsPublished(s, id)
    ensures (forall acts | Possible(s, acts) :: IsPublished(After(s, acts), id)) <==> Unthreatened(s, id)
  {
    if Unthreatened(s, id) {
      forall acts | Possible(s, acts) ensures IsPublished(After(s, acts), id) {
        RunKeepsPublished(s, acts, id);
      }
    } else {
      var w :| 0 <= w < |s.workers| && MayFail(s.workers[w], id);
      var acts := ThreatUndoes(s, w, id);
    }
  }

  /** Only a failure mark sets a published row back. */
  lemma OnlyFailureUndoes(s: State, a: Action, id: nat)
    requires Inv(s) && Enabled(s, a) && IsPublished(s, id)
    ensures !IsPublished(Step(s, a), id) ==> a.SetFailed? && Marks(s, a, id)
  {}

  /** With prompt workers a published row stays published for the rest of the run. */
  lemma {:induction false} PublishedStays(s: State, acts: seq<Action>, i: nat, id: nat)
    requires IsRun(s, acts) && AlwaysPrompt(s, acts) && i <= |acts|
    requires Possible(s, acts[..i])
    requires id in At(s, acts, i).rows && At(s, acts, i).rows[id].status.Published?
    ensures id in After(s, acts).rows && After(s, acts).rows[id].status.Published?
    decreases |acts|
  {
    if i == |acts| {
      assert acts[..i] == acts;
    } else {
      var front := Front(acts);
      forall k | 0 <= k <= |front| && Possible(s, front[..k]) ensures Prompt(At(s, front, k)) {
        assert front[..k] == acts[..k];
        assert Prompt(At(s, acts, k));
      }
      assert front[..i] == acts[..i];
      PublishedStays(s, front, i, id);
      AtMostOneHolder(s, front);
      RunsKeepInv(s, front);
      OnlyFailureUndoes(After(s, front), Final(acts), id);
    }
  }

  lemma Extend(s: State, acts: seq<Action>, a: Action)
    requires Possible(s, acts) && Enabled(After(s, acts), a)
    ensures Possible(s, acts + [a]) && After(s, acts + [a]) == Step(After(s, acts), a)
  {
    assert Front(acts + [a]) == acts;
  }

  lemma Play(s: State, acts: seq<Action>, a: Action, expected: State) returns (r: seq<Action>)
    requires Possible(s, acts) && Enabled(After(s, acts), a)
    requires Step(After(s, acts), a) == expected
    ensures r == acts + [a] && Possible(s, r) && After(s, r) == expected
  {
    Extend(s, acts, a);
    r := acts + [a];
  }

  function Snap(): Msg { Msg(1, 7, 1, 0) }

  function Stale(now: int, status: Status, updatedAt: int, workers: seq<Worker>): State {
    State(now, 10, 100, map[1 := Row(7, 1, status, 0, "", updatedAt, None)], workers, {})
  }

  /** Worker 0 claims the row and stalls past its lease. */
  lemma LeaseLost() returns (s: State, acts: seq<Action>)
    ensures s == State(1, 10, 100, map[], [Idle, Idle], {}) && |acts| == 5
    ensures Possible(s, acts) && After(s, acts) == Stale(20, Processing, 1, [Claimed([Snap()], 1), Idle])
  {
    s := State(1, 10, 100, map[], [Idle, Idle], {});
    acts := Play(s, [], Insert(1, 7, 1), Stale(1, Pending, 1, [Idle, Idle]));
    acts := Play(s, acts, Sweep(0, Done), Stale(1, Pending, 1, [Swept, Idle]));
    acts := Play(s, acts, ScanRows(0, Some([Snap()])), Stale(1, Pending, 1, [Batch([Snap()]), Idle]));
    acts := Play(s, acts, TryClaim(0, Done), Stale(1, Processing, 1, [Claimed([Snap()], 1), Idle]));
    acts := Play(s, acts, Tick(20), Stale(20, Processing, 1, [Claimed([Snap()], 1), Idle]));
  }

  /** Worker 1 reclaims the row and publishes its event. */
  lemma Republished() returns (s: State, acts: seq<Action>)
    ensures s == State(1, 10, 100, map[], [Idle, Idle], {}) && |acts| == 9
    ensures Possible(s, acts)
    ensures After(s, acts) ==
            Stale(20, Processing, 20, [Claimed([Snap()], 1), Sent([Snap()], 20)]).(handed := {1})
  {
    s, acts := LeaseLost();
    var stalled := Claimed([Snap()], 1);
    acts := Play(s, acts, Sweep(1, Done), Stale(20, Pending, 20, [stalled, Swept]));
    acts := Play(s, acts, ScanRows(1, Some([Snap()])), Stale(20, Pending, 20, [stalled, Batch([Snap()])]));
    acts := Play(s, acts, TryClaim(1, Done), Stale(20, Processing, 20, [stalled, Claimed([Snap()], 20)]));
    acts := Play(s, acts, Action.Publish(1, Done),
                 Stale(20, Processing, 20, [stalled, Sent([Snap()], 20)]).(handed := {1}));
  }

  function Undone(row: Row, workers: seq<Worker>): State {
    State(20, 10, 100, map[1 := row], workers, {1})
  }

  /** Without promptness it does not: the lease of worker 0 runs out, worker 1 publishes the row and
      marks it, then worker 0 fails to publish and sets the row back to pending. */
  lemma PublishedCanBeUndone() returns (s: State, acts: seq<Action>)
    ensures IsRun(s, acts) && |acts| == 12 && Possible(s, acts[..10])
    ensures 1 in At(s, acts, 10).rows && At(s, acts, 10).rows[1].status.Published?
    ensures 1 in After(s, acts).rows && After(s, acts).rows[1].status.Pending?
  {
    s, acts := Republished();
    var row := Row(7, 1, Published, 0, "", 20, Some(20));
    acts := Play(s, acts, SetPublished(1, Done), Undone(row, [Claimed([Snap()], 1), Idle]));
    var upToPublished := acts;
    acts := Play(s, acts, Action.Publish(0, NotDone), Undone(row, [Refused([Snap()], 1), Idle]));
    acts := Play(s, acts, SetFailed(0, "", Done),
                 Undone(row.(status := Pending, retryCount := 1), [Idle, Idle]));
    assert acts[..10] == upToPublished;
  }
}
