/**
  How much work any number of live outbox workers can do (internal/worker/outbox_worker.go): in runs without
  crashes and database errors every row is tried and scanned a bounded number of times, so scans run empty.
*/
module OutboxClaims {
  import opened Levels
  import opened Outbox
  import opened OutboxProtocol
  import opened OutboxGuarantees
  import opened OutboxBound

  // ---------------------------------------------------------------- counting over workers

  /** How many workers satisfy a property. */
  function Count(workers: seq<Worker>, p: Worker -> bool): (n: nat)
    ensures n <= |workers|
  {
    if workers == [] then 0 else (if p(workers[0]) then 1 else 0) + Count(workers[1..], p)
  }

  lemma CountUpdate(workers: seq<Worker>, w: nat, worker: Worker, p: Worker -> bool)
    requires w < |workers|
    ensures Count(workers[w := worker], p)
            == Count(workers, p) - (if p(workers[w]) then 1 else 0) + (if p(worker) then 1 else 0)
  {
    if w == 0 {
      assert workers[w := worker][1..] == workers[1..];
    } else {
      assert workers[w := worker][1..] == workers[1..][w - 1 := worker];
      CountUpdate(workers[1..], w - 1, worker, p);
    }
  }

  lemma CountNone(workers: seq<Worker>, p: Worker -> bool)
    requires forall w | 0 <= w < |workers| :: !p(workers[w])
    ensures Count(workers, p) == 0
  {}

  /** The messages of a batch that are still to be claimed. */
  function Waiting(worker: Worker): seq<Msg> {
    if worker.Batch? then worker.todo else if worker.Holds() && worker.todo != [] then worker.todo[1..] else []
  }

  predicate WaitsFor(worker: Worker, id: nat) {
    exists m :: m in Waiting(worker) && m.id == id
  }

  function Waiters(s: State, id: nat): nat {
    Count(s.workers, worker => WaitsFor(worker, id))
  }

  function Holders(s: State, id: nat): nat {
    Count(s.workers, worker => HoldsRow(worker, id))
  }

  // ---------------------------------------------------------------- what a step does

  predicate Tries(s: State, a: Action, id: nat)
    requires Enabled(s, a)
  {
    a.TryClaim? && s.workers[a.w].todo[0].id == id
  }

  predicate Wins(s: State, a: Action, id: nat)
    requires Enabled(s, a)
  {
    Tries(s, a, id) && Claimable(s.rows, id)
  }

  predicate Scans(s: State, a: Action, id: nat)
    requires Enabled(s, a)
  {
    a.ScanRows? && a.found.Some? && exists m :: m in a.found.value && m.id == id
  }

  /** The first message of a batch is the only one for its row. */
  lemma HeadOnce(s: State, worker: Worker, id: nat)
    requires WorkerOk(s, worker) && worker.Todo() != []
    ensures var todo := worker.Todo();
            && (WaitsFor(Batch(todo), id) <==> todo[0].id == id || WaitsFor(Next(todo), id))
            && (todo[0].id == id ==> !WaitsFor(Next(todo), id))
            && (worker.Holds() ==> (WaitsFor(worker, id) <==> WaitsFor(Next(todo), id)))
  {
    var todo := worker.Todo();
    assert todo == [todo[0]] + todo[1..];
    assert Waiting(Next(todo)) == todo[1..];
    if m :| m in todo && m.id == id && m != todo[0] {
      assert m in todo[1..];
    }
    if todo[0].id == id {
      forall m | m in todo[1..] ensures m.id != id {
        var i :| 0 <= i < |todo| - 1 && todo[1..][i] == m;
        assert todo[i + 1] == m;
      }
    }
  }

  lemma HeadHasVideo(s: State, worker: Worker, id: nat)
    requires WorkerOk(s, worker) && worker.Todo() != [] && worker.Todo()[0].id == id
    ensures id in s.rows && worker.Todo()[0].videoId == s.rows[id].videoId
  {
    assert MsgOk(s.rows, worker.Todo()[0]);
  }

  /** Trying a message ends the wait for its row, and a scan that lists a row begins one. */
  lemma ActorWaits(s: State, a: Action, id: nat)
    requires Inv(s) && Enabled(s, a) && Reliable([a]) && !a.Tick? && !a.Insert?
    requires id in s.rows ==> s.rows[id].videoId != 0
    ensures var before, after := WaitsFor(s.workers[a.w], id), WaitsFor(Step(s, a).workers[a.w], id);
            && (Tries(s, a, id) ==> before && !after)
            && (Scans(s, a, id) ==> !before && after && Claimable(s.rows, id))
            && (!Tries(s, a, id) && !Scans(s, a, id) ==> before == after)
  {
    var worker := s.workers[a.w];
    assert a in [a];
    assert WorkerOk(s, worker);
    if worker.Todo() != [] {
      HeadOnce(s, worker, id);
      if worker.Todo()[0].id == id {
        HeadHasVideo(s, worker, id);
      }
    }
    if a.Publish? {
      assert Waiting(Step(s, a).workers[a.w]) == Waiting(worker);
    }
  }

  /** Scans add to the workers that wait for a row, and tries take away. */
  lemma StepWaiters(s: State, a: Action, id: nat)
    requires Inv(s) && Enabled(s, a) && Reliable([a])
    requires id in Step(s, a).rows ==> Step(s, a).rows[id].videoId != 0
    ensures Waiters(Step(s, a), id) + (if Tries(s, a, id) then 1 else 0)
            == Waiters(s, id) + (if Scans(s, a, id) then 1 else 0)
  {
    if !a.Tick? && !a.Insert? {
      ActorWaits(s, a, id);
      assert Step(s, a).workers == s.workers[a.w := Step(s, a).workers[a.w]];
      CountUpdate(s.workers, a.w, Step(s, a).workers[a.w], worker => WaitsFor(worker, id));
    }
  }

  /** Wins add to the workers that hold a row, and marks take away. */
  lemma StepHolders(s: State, a: Action, id: nat)
    requires Inv(s) && Enabled(s, a) && Reliable([a])
    ensures Holders(Step(s, a), id) + (if Marks(s, a, id) then 1 else 0)
            == Holders(s, id) + (if Wins(s, a, id) then 1 else 0)
  {
    assert a in [a];
    if !a.Tick? && !a.Insert? {
      assert Step(s, a).workers == s.workers[a.w := Step(s, a).workers[a.w]];
      CountUpdate(s.workers, a.w, Step(s, a).workers[a.w], worker => HoldsRow(worker, id));
    }
  }

  /** The claims that are bound to be lost: those of the workers that wait for a row that is not pending. */
  function Doomed(s: State, id: nat): nat {
    if Claimable(s.rows, id) then 0 else Waiters(s, id)
  }

  /** A row that was not pending stops being so only when it is won or marked. */
  lemma StepClaimable(s: State, a: Action, id: nat)
    requires Inv(s) && Enabled(s, a)
    ensures Claimable(s.rows, id) && !Wins(s, a, id) && !Marks(s, a, id) ==> Claimable(Step(s, a).rows, id)
  {}

  /** Each win and each mark dooms at most one claim per worker, and each lost claim was doomed. */
  lemma StepDoomed(s: State, a: Action, id: nat)
    requires Inv(s) && Enabled(s, a) && Reliable([a])
    requires id in Step(s, a).rows ==> Step(s, a).rows[id].videoId != 0
    ensures Doomed(Step(s, a), id) + (if Tries(s, a, id) && !Wins(s, a, id) then 1 else 0)
            <= Doomed(s, id) + (if Wins(s, a, id) || Marks(s, a, id) then |s.workers| else 0)
  {
    StepWaiters(s, a, id);
    StepClaimable(s, a, id);
    ScansListPending(s, a, id);
  }

  lemma ScansListPending(s: State, a: Action, id: nat)
    requires Inv(s) && Enabled(s, a)
    ensures Scans(s, a, id) ==> Claimable(s.rows, id)
    ensures |Step(s, a).workers| == |s.workers|
  {}

  // ---------------------------------------------------------------- whole runs

  datatype Kind = Try | Win | Scan

  predicate Is(kind: Kind, s: State, a: Action, id: nat)
    requires Enabled(s, a)
  {
    match kind
    case Try => Tries(s, a, id)
    case Win => Wins(s, a, id)
    case Scan => Scans(s, a, id)
  }

  /** How many steps of a run are of one kind, for one row. */
  function Times(kind: Kind, s: State, acts: seq<Action>, id: nat): nat
    requires Possible(s, acts)
  {
    if acts == [] then 0
    else Times(kind, s, Front(acts), id) + if Is(kind, After(s, Front(acts)), Final(acts), id) then 1 else 0
  }

  lemma StepKeepsRow(s: State, a: Action, id: nat)
    requires Inv(s) && Enabled(s, a) && id in s.rows
    ensures id in Step(s, a).rows && Step(s, a).rows[id].videoId == s.rows[id].videoId
  {}

  /** The row, if there is one by the end, names a video. */
  predicate NamesVideo(s: State, id: nat) {
    id in s.rows ==> s.rows[id].videoId != 0
  }

  /** k times n. */
  function Repeated(n: nat, k: nat): nat {
    if k == 0 then 0 else n + Repeated(n, k - 1)
  }

  lemma {:induction false} RepeatedIsProduct(n: nat, k: nat)
    ensures Repeated(n, k) == n * k
  {
    if k > 0 {
      RepeatedIsProduct(n, k - 1);
      OneMore(n, k - 1);
    }
  }

  lemma OneMore(n: nat, k: nat)
    ensures n * (k + 1) == n * k + n
  {}

  /** Scans are tries and workers still waiting, wins are marks and workers still holding. */
  predicate Balanced(s: State, acts: seq<Action>, id: nat)
    requires Possible(s, acts)
  {
    && Times(Scan, s, acts, id) == Times(Try, s, acts, id) + Waiters(After(s, acts), id)
    && Times(Win, s, acts, id) == Attempts(s, acts, id) + Holders(After(s, acts), id)
  }

  /** Losses are bounded by wins and marks. */
  predicate LossesOk(s: State, acts: seq<Action>, id: nat)
    requires Possible(s, acts)
  {
    Times(Try, s, acts, id) + Doomed(After(s, acts), id)
    <= Times(Win, s, acts, id) + Repeated(|s.workers|, Times(Win, s, acts, id) + Attempts(s, acts, id))
  }

  lemma {:induction false} RunClaims(s: State, acts: seq<Action>, id: nat)
    requires IsRun(s, acts) && Reliable(acts) && NamesVideo(After(s, acts), id)
    ensures |After(s, acts).workers| == |s.workers| && Balanced(s, acts, id) && LossesOk(s, acts, id)
  {
    if acts == [] {
      CountNone(s.workers, worker => WaitsFor(worker, id));
      CountNone(s.workers, worker => HoldsRow(worker, id));
    } else {
      var t, a := After(s, Front(acts)), Final(acts);
      RunsKeepInv(s, Front(acts));
      assert a in acts && forall b | b in Front(acts) :: b in acts;
      if id in t.rows {
        StepKeepsRow(t, a, id);
      }
      RunClaims(s, Front(acts), id);
      BalancedOn(s, acts, id);
      LossesOn(s, acts, id);
      ScansListPending(t, a, id);
    }
  }

  lemma BalancedOn(s: State, acts: seq<Action>, id: nat)
    requires acts != [] && Possible(s, acts) && Balanced(s, Front(acts), id)
    requires Inv(After(s, Front(acts))) && Reliable([Final(acts)]) && NamesVideo(After(s, acts), id)
    ensures Balanced(s, acts, id)
  {
    StepWaiters(After(s, Front(acts)), Final(acts), id);
    StepHolders(After(s, Front(acts)), Final(acts), id);
  }

  lemma LossesOn(s: State, acts: seq<Action>, id: nat)
    requires acts != [] && Possible(s, acts) && LossesOk(s, Front(acts), id)
    requires |After(s, Front(acts)).workers| == |s.workers|
    requires Inv(After(s, Front(acts))) && Reliable([Final(acts)]) && NamesVideo(After(s, acts), id)
    ensures LossesOk(s, acts, id)
  {
    var t, a := After(s, Front(acts)), Final(acts);
    StepDoomed(t, a, id);
    WinsAreNotMarks(t, a, id);
    LossesAdd(|s.workers|, Times(Try, s, Front(acts), id), Times(Win, s, Front(acts), id),
              Attempts(s, Front(acts), id), Doomed(t, id), Doomed(After(s, acts), id),
              Tries(t, a, id), Wins(t, a, id), Marks(t, a, id));
  }

  function One(b: bool): nat { if b then 1 else 0 }

  lemma LossesAdd(n: nat, tries: nat, wins: nat, marks: nat, doomed: nat, doomed': nat, try': bool, win: bool,
        mark: bool)
    requires tries + doomed <= wins + Repeated(n, wins + marks) && !(win && mark) && (win ==> try')
    requires doomed' + One(try' && !win) <= doomed + if win || mark then n else 0
    ensures tries + One(try') + doomed' <= wins + One(win) + Repeated(n, wins + One(win) + marks + One(mark))
  {}

  lemma WinsAreNotMarks(s: State, a: Action, id: nat)
    requires Enabled(s, a)
    ensures !(Wins(s, a, id) && Marks(s, a, id)) && (Wins(s, a, id) ==> Tries(s, a, id))
  {}

  /** Tries of one row among n workers. */
  function TryBound(n: nat): nat {
    Bound(n) + n + n * (2 * Bound(n) + n)
  }

  /** Without crashes and database errors, whatever the broker answers and however n workers interleave, a row
      is tried at most TryBound(n) times and listed by at most n more scans. */
  lemma TriesBounded(s: State, acts: seq<Action>, id: nat)
    requires IsRun(s, acts) && Reliable(acts) && NamesVideo(After(s, acts), id)
    ensures Times(Try, s, acts, id) <= TryBound(|s.workers|)
    ensures Times(Scan, s, acts, id) <= TryBound(|s.workers|) + |s.workers|
  {
    var n := |s.workers|;
    RunClaims(s, acts, id);
    AttemptsBounded(s, acts, id);
    RepeatedIsProduct(n, Times(Win, s, acts, id) + Attempts(s, acts, id));
    MulMonotone(n, Times(Win, s, acts, id) + Attempts(s, acts, id), 2 * Bound(n) + n);
  }

  // ---------------------------------------------------------------- scans run empty

  predicate Finds(a: Action) {
    a.ScanRows? && a.found.Some? && a.found.value != []
  }

  /** How many scans of a run find anything. */
  function Findings(acts: seq<Action>): nat {
    if acts == [] then 0 else Findings(Front(acts)) + if Finds(Final(acts)) then 1 else 0
  }

  /** The scans of a run, counted once for every row below k that they list. */
  function Listings(s: State, acts: seq<Action>, k: nat): nat
    requires Possible(s, acts)
  {
    if k == 0 then 0 else Listings(s, acts, k - 1) + Times(Scan, s, acts, k - 1)
  }

  lemma {:induction false} ListingsStep(s: State, acts: seq<Action>, k: nat)
    requires acts != [] && Possible(s, acts)
    ensures Listings(s, acts, k) >= Listings(s, Front(acts), k)
    ensures (exists id: nat :: id < k && Scans(After(s, Front(acts)), Final(acts), id)) ==>
              Listings(s, acts, k) > Listings(s, Front(acts), k)
  {
    if k > 0 {
      ListingsStep(s, acts, k - 1);
    }
  }

  lemma {:induction false} NoListings(s: State, k: nat)
    ensures Listings(s, [], k) == 0
  {
    if k > 0 {
      NoListings(s, k - 1);
    }
  }

  lemma {:induction false} FindingsAreListed(s: State, acts: seq<Action>, k: nat)
    requires IsRun(s, acts) && forall id | id in After(s, acts).rows :: id < k
    ensures Findings(acts) <= Listings(s, acts, k)
  {
    if acts != [] {
      var t, a := After(s, Front(acts)), Final(acts);
      RunsKeepInv(s, Front(acts));
      forall id | id in t.rows ensures id < k {
        StepKeepsRow(t, a, id);
      }
      FindingsAreListed(s, Front(acts), k);
      ListingsStep(s, acts, k);
      if Finds(a) {
        assert a.found.value[0] in a.found.value;
        assert Scans(t, a, a.found.value[0].id);
      }
    }
  }

  lemma {:induction false} ListingsAtMost(s: State, acts: seq<Action>, k: nat, b: nat)
    requires Possible(s, acts) && forall id: nat :: Times(Scan, s, acts, id) <= b
    ensures Listings(s, acts, k) <= Repeated(b, k)
  {
    if k > 0 {
      ListingsAtMost(s, acts, k - 1, b);
    }
  }

  lemma FindingsBounded(s: State, acts: seq<Action>, k: nat, b: nat)
    requires IsRun(s, acts) && Reliable(acts) && b == TryBound(|s.workers|) + |s.workers|
    requires forall id | id in After(s, acts).rows :: id < k && After(s, acts).rows[id].videoId != 0
    ensures Findings(acts) <= Repeated(b, k)
  {
    FindingsAreListed(s, acts, k);
    forall id: nat ensures Times(Scan, s, acts, id) <= b {
      TriesBounded(s, acts, id);
    }
    ListingsAtMost(s, acts, k, b);
  }

  /** So a run over rows with ids below k has only so many scans that find anything, whoever makes them: in
      every run that goes on, the polls of all live workers find no pending row in the end. */
  lemma ScansRunEmpty(s: State, acts: seq<Action>, k: nat)
    requires IsRun(s, acts) && Reliable(acts)
    requires forall id | id in After(s, acts).rows :: id < k && After(s, acts).rows[id].videoId != 0
    ensures Findings(acts) <= (TryBound(|s.workers|) + |s.workers|) * k
  {
    var b := TryBound(|s.workers|) + |s.workers|;
    FindingsBounded(s, acts, k, b);
    RepeatedIsProduct(b, k);
  }
}
