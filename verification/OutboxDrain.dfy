/**
  No state that any number of outbox workers can reach is a dead end (internal/worker/outbox_worker.go):
  whatever the others left behind - stale snapshots, expired leases, claims of workers that stopped - one
  worker that goes on alone drains the table.
*/
module OutboxDrain {
  import opened Wrappers
  import opened Outbox
  import opened OutboxProtocol
  import W = OutboxWorker

  /** A step of worker w whose statements work, or time that passes. */
  predicate Solo(a: Action, w: nat) {
    match a
    case Tick(_) => true
    case Insert(_, _, _) => false
    case Sweep(v, db) => v == w && db.Done?
    case ScanRows(v, found) => v == w && found.Some?
    case Skip(v) => v == w
    case TryClaim(v, db) => v == w && db.Done?
    case Publish(v, _) => v == w
    case SetPublished(v, db) => v == w && db.Done?
    case SetFailed(v, _, db) => v == w && db.Done?
    case Crash(_) => false
  }

  /** Worker w can lead from s to t alone. */
  ghost predicate Leads(s: State, w: nat, t: State) {
    exists acts :: Possible(s, acts) && (forall a | a in acts :: Solo(a, w)) && After(s, acts) == t
  }

  lemma LeadsNowhere(s: State, w: nat)
    ensures Leads(s, w, s)
  {
    assert Possible(s, []) && After(s, []) == s;
  }

  lemma LeadsOn(s: State, w: nat, t: State, a: Action)
    requires Leads(s, w, t) && Enabled(t, a) && Solo(a, w)
    ensures Leads(s, w, Step(t, a))
  {
    var acts :| Possible(s, acts) && (forall b | b in acts :: Solo(b, w)) && After(s, acts) == t;
    var longer := acts + [a];
    assert Front(longer) == acts && Final(longer) == a;
    assert Possible(s, longer) && After(s, longer) == Step(t, a);
  }

  /** What stays as it is while worker w goes on alone. */
  predicate Beside(s: State, w: nat, t: State) {
    && Inv(t) && w < |t.workers| && t.timeout == s.timeout && t.limit == s.limit && t.rows.Keys == s.rows.Keys
    && (forall id | id in s.rows :: t.rows[id].videoId == s.rows[id].videoId)
  }

  /** One step on. */
  lemma Advance(s: State, w: nat, t: State, a: Action)
    requires Leads(s, w, t) && Beside(s, w, t) && Enabled(t, a) && Solo(a, w)
    ensures Leads(s, w, Step(t, a)) && Beside(s, w, Step(t, a))
  {
    LeadsOn(s, w, t, a);
    StepInv(t, a);
  }

  // ---------------------------------------------------------------- polls

  lemma MessageLeads(s: State, w: nat, t: State, f: W.Faults) returns (u: State)
    requires Leads(s, w, t) && Beside(s, w, t) && t.workers[w].Batch? && f.claim.Done? && f.mark.Done?
    requires t.workers[w].todo[0].videoId != 0
    ensures Leads(s, w, u) && Beside(s, w, u) && u.now == t.now
    ensures u.workers[w] == Next(t.workers[w].todo)
    ensures u.rows == W.AfterPublishOne(t.rows, t.workers[w].todo[0], t.now, f)
  {
    W.StepsMakePublishOne(t, w, f);
    Advance(s, w, t, TryClaim(w, f.claim));
    u := Step(t, TryClaim(w, f.claim));
    if u.workers[w].Claimed? {
      Advance(s, w, u, Publish(w, f.broker));
      u := Step(u, Publish(w, f.broker));
      var mark := if f.broker.Reported() then SetPublished(w, f.mark) else SetFailed(w, W.PUBLISH_ERROR, f.mark);
      Advance(s, w, u, mark);
      u := Step(u, mark);
    }
  }

  lemma {:induction false} BatchLeads(s: State, w: nat, t: State, k: nat, faults: seq<W.Faults>) returns (u: State)
    requires Leads(s, w, t) && Beside(s, w, t) && t.workers[w].Batch? && k <= |t.workers[w].todo|
    requires W.DatabaseWorks(faults) && forall m | m in t.workers[w].todo :: m.videoId != 0
    ensures Leads(s, w, u) && Beside(s, w, u) && u.now == t.now
    ensures u.rows == W.AfterBatch(t.rows, t.workers[w].todo, k, t.now, faults)
    ensures u.workers[w] == if k == |t.workers[w].todo| then Idle else Batch(t.workers[w].todo[k..])
  {
    u := t;
    if k > 0 {
      u := BatchLeads(s, w, t, k - 1, faults);
      var todo := t.workers[w].todo;
      assert u.workers[w].todo[0] == todo[k - 1] && todo[k - 1] in todo;
      assert todo[k - 1..][1..] == todo[k..];
      u := MessageLeads(s, w, u, W.FaultsAt(faults, k - 1));
    }
  }

  /** A worker that is between polls can make any poll that the outbox worker's code makes. */
  lemma PollLeads(s: State, w: nat, t: State, poll: W.Poll) returns (u: State)
    requires Leads(s, w, t) && Beside(s, w, t) && t.workers[w].Idle? && poll.now >= t.now
    requires W.DatabaseWorks(poll.faults) && forall id | id in t.rows :: t.rows[id].videoId != 0
    ensures Leads(s, w, u) && Beside(s, w, u) && u.workers[w].Idle? && u.now == poll.now
    ensures u.rows == W.AfterPoll(t.rows, poll.now, t.timeout, t.limit, poll.faults)
  {
    u := t;
    if poll.now > t.now {
      Advance(s, w, u, Tick(poll.now));
      u := Step(u, Tick(poll.now));
    }
    Advance(s, w, u, Sweep(w, Done));
    u := Step(u, Sweep(w, Done));
    var msgs := Scan(u.rows, u.limit);
    Advance(s, w, u, ScanRows(w, Some(msgs)));
    u := Step(u, ScanRows(w, Some(msgs)));
    if msgs != [] {
      assert WorkerOk(u, u.workers[w]);
      u := BatchLeads(s, w, u, |msgs|, poll.faults);
    }
  }

  /** The times of successive polls. */
  predicate InOrder(polls: seq<W.Poll>, now: int) {
    && (forall i | 0 <= i < |polls| :: now <= polls[i].now)
    && forall i, j | 0 <= i < j < |polls| :: polls[i].now <= polls[j].now
  }

  lemma {:induction false} PollsLead(s: State, w: nat, t: State, polls: seq<W.Poll>) returns (u: State)
    requires Leads(s, w, t) && Beside(s, w, t) && t.workers[w].Idle? && InOrder(polls, t.now)
    requires forall p | p in polls :: W.DatabaseWorks(p.faults)
    requires forall id | id in s.rows :: s.rows[id].videoId != 0
    ensures Leads(s, w, u) && u.rows == W.AfterPolls(t.rows, polls, t.timeout, t.limit)
    decreases |polls|
  {
    u := t;
    if polls != [] {
      assert polls[0] in polls && forall p | p in polls[1..] :: p in polls;
      u := PollLeads(s, w, t, polls[0]);
      u := PollsLead(s, w, u, polls[1..]);
    }
  }

  // ---------------------------------------------------------------- from anywhere

  /** What worker w does next to finish what it is at. */
  function Onward(t: State, w: nat): (a: Action)
    requires Inv(t) && w < |t.workers| && !t.workers[w].Idle?
    ensures Enabled(t, a) && Solo(a, w)
  {
    assert WorkerOk(t, t.workers[w]);
    match t.workers[w]
    case Swept => ScanRows(w, Some(Scan(t.rows, t.limit)))
    case Batch(todo) => if todo[0].videoId == 0 then Skip(w) else TryClaim(w, Done)
    case Claimed(_, _) => Publish(w, Done)
    case Sent(_, _) => SetPublished(w, Done)
    case Refused(_, _) => SetFailed(w, W.PUBLISH_ERROR, Done)
  }

  /** A worker can finish what it is at, even if it then marks rows that are no longer its own. */
  lemma {:induction false} FinishLeads(s: State, w: nat, t: State) returns (u: State)
    requires Leads(s, w, t) && Beside(s, w, t) && t.now == s.now
    ensures Leads(s, w, u) && Beside(s, w, u) && u.workers[w].Idle? && u.now == s.now
    decreases t.workers[w].Swept?, |t.workers[w].Todo()|,
              if t.workers[w].Batch? then 3 else if t.workers[w].Claimed? then 2 else 1
  {
    u := t;
    if !t.workers[w].Idle? {
      Advance(s, w, t, Onward(t, w));
      u := FinishLeads(s, w, Step(t, Onward(t, w)));
    }
  }

  /** Once every lease is over, one sweep leaves only rows that are pending or closed. */
  lemma SweptIsSettled(s: State, now: int, n: nat)
    requires Inv(s) && now > s.now + s.timeout
    requires forall id | id in s.rows :: id < n && s.rows[id].videoId != 0
    ensures W.Settled(ResetExpired(s.rows, now, s.timeout), n)
  {}

  predicate AllClosed(rows: Table) {
    forall id | id in rows :: rows[id].status.Published? || rows[id].status.Failed?
  }

  /** Enough polls after that close every row. */
  lemma PollsClose(s: State, polls: seq<W.Poll>, n: nat)
    requires Inv(s) && s.limit > 0 && |polls| >= 4 * n
    requires forall id | id in s.rows :: id < n && s.rows[id].videoId != 0
    requires forall p | p in polls :: W.DatabaseWorks(p.faults) && p.now > s.now + s.timeout
    ensures var rows := W.AfterPolls(s.rows, polls, s.timeout, s.limit); rows.Keys == s.rows.Keys && AllClosed(rows)
  {
    if polls == [] {
      assert n == 0;
    } else {
      assert polls[0] in polls;
      var swept := ResetExpired(s.rows, polls[0].now, s.timeout);
      ResetFreesExpired(s.rows, polls[0].now, s.timeout);
      assert W.AfterPolls(s.rows, polls, s.timeout, s.limit) == W.AfterPolls(swept, polls, s.timeout, s.limit);
      SweptIsSettled(s, polls[0].now, n);
      W.BudgetAtMostFourEach(swept, n);
      W.PollingDrains(swept, polls, s.timeout, s.limit, n);
    }
  }

  /** A worker that finishes what it is at, waits until the leases are over, and polls four times per
      row. */
  lemma DrainsFrom(s: State, w: nat, polls: seq<W.Poll>, n: nat)
    requires Inv(s) && w < |s.workers| && s.limit > 0
    requires forall id | id in s.rows :: id < n && s.rows[id].videoId != 0
    requires forall p | p in polls :: W.DatabaseWorks(p.faults) && p.now > s.now + s.timeout
    requires InOrder(polls, s.now) && |polls| >= 4 * n
    ensures exists t :: Leads(s, w, t) && t.rows.Keys == s.rows.Keys && AllClosed(t.rows)
  {
    LeadsNowhere(s, w);
    var t := FinishLeads(s, w, s);
    var u := PollsLead(s, w, t, polls);
    PollsClose(t, polls, n);
  }

  /** From every state that any number of workers can reach from an empty table, any one worker whose
      statements work from then on drains the table alone: every row ends published or failed, whatever
      the broker answers to its polls. */
  lemma OneWorkerDrains(start: State, acts: seq<Action>, w: nat, polls: seq<W.Poll>, n: nat)
    requires start == Init(start.now, start.timeout, start.limit, |start.workers|) && Possible(start, acts)
    requires w < |start.workers| && start.limit > 0
    requires var s := After(start, acts);
             && (forall id | id in s.rows :: id < n && s.rows[id].videoId != 0)
             && (forall p | p in polls :: W.DatabaseWorks(p.faults) && p.now > s.now + s.timeout)
             && InOrder(polls, s.now) && |polls| >= 4 * n
    ensures exists t ::
              && Leads(After(start, acts), w, t) && t.rows.Keys == After(start, acts).rows.Keys
              && AllClosed(t.rows)
  {
    RunInv(start, acts);
    RunKeepsSettings(start, acts);
    DrainsFrom(After(start, acts), w, polls, n);
  }

  lemma {:induction false} RunKeepsSettings(s: State, acts: seq<Action>)
    requires Possible(s, acts)
    ensures var t := After(s, acts); |t.workers| == |s.workers| && t.limit == s.limit && t.timeout == s.timeout
  {
    if acts != [] {
      RunKeepsSettings(s, Front(acts));
    }
  }
}
