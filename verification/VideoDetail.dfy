/**
  Reading one video through a cache that many nodes fill (internal/api/video/service.go, GetDetail).  On a
  miss a node competes for a lock, looks at the cache again, and only then reads MySQL; who does not get
  the lock polls the cache a few times before reading MySQL itself.  Requests of one process are merged,
  so a node has at most one such request under way.  Times are milliseconds.
*/
module VideoDetail {
  import opened Wrappers
  import L = TokenLock

  const LOCK_TTL: nat := 2000
  const POLLS: nat := 5

  // ---------------------------------------------------------------- one request

  datatype Video = Video(id: nat, title: string)

  /** What the cache key holds: nothing, a payload that decodes, or one that does not. */
  datatype Payload = Missing | Cached(video: Video) | Garbage

  /** What one look at the cache sees; a look can also fail. */
  datatype Look = Saw(payload: Payload) | LookFailed

  datatype Result = Found(video: Video) | NotFound | ReadFailed | Cancelled

  /** What a request meets: its looks at the cache - the first, the two around the lock, and the polls -
      what becomes of its lock, of its read of the row and of its write to the cache.  Its caller gives up
      after `patience` polls. */
  datatype Weather = Weather(
    first: Look, merged: Look, token: nat, lock: Outcome, again: Look, polls: seq<Look>, patience: nat,
    readFails: bool, fill: Outcome, unlock: Outcome)
  {
    /** The polls that are made if none of them answers. */
    function Tried(): seq<Look> {
      if patience < |polls| then polls[..patience] else polls
    }
  }

  predicate Hit(look: Look) {
    look.Saw? && look.payload.Cached?
  }

  function Looks(w: Weather): seq<Look> {
    [w.first, w.merged, w.again] + w.polls
  }

  /** Every payload seen is the row. */
  predicate SawOnly(w: Weather, v: Video) {
    forall look | look in Looks(w) :: Hit(look) ==> look.payload.video == v
  }

  /** What the request wrote back, if it read a row and its write arrived. */
  function Refilled(cache: Payload, row: Option<Video>, w: Weather): Payload {
    if row.Some? && !w.readFails && w.fill.Applied() then Cached(row.value) else cache
  }

  function FirstPoll(polls: seq<Look>): Option<Video> {
    if polls == [] then None else if Hit(polls[0]) then Some(polls[0].payload.video) else FirstPoll(polls[1..])
  }

  function Hits(look: Look): Option<Video> {
    if Hit(look) then Some(look.payload.video) else None
  }

  /** Whether a request gets as far as the lock: the first look and the one after merging both missed. */
  predicate Competes(w: Weather) {
    w.first == Saw(Missing) && !Hit(w.merged)
  }

  predicate Wins(w: Weather, lock: L.State) {
    w.lock.Reported() && !L.Taken(lock)
  }

  /** The look that answers a request, if one does. */
  function Answer(w: Weather, lock: L.State): Option<Video> {
    if Hit(w.first) then Hits(w.first)
    else if w.first != Saw(Missing) then None
    else if Hit(w.merged) then Hits(w.merged)
    else if !w.lock.Reported() then None
    else if Wins(w, lock) then Hits(w.again)
    else FirstPoll(w.Tried())
  }

  /** Whether the caller of a request gives up while it polls. */
  predicate GivesUp(w: Weather, lock: L.State) {
    Competes(w) && w.lock.Reported() && !Wins(w, lock) && w.patience < |w.polls| && FirstPoll(w.Tried()).None?
  }

  /** What a request answers that finds nothing in the cache. */
  function FromTable(w: Weather, row: Option<Video>): Result {
    if w.readFails then ReadFailed else if row.Some? then Found(row.value) else NotFound
  }

  /** The lock behind a request: a winner gives it back. */
  function LockAfter(w: Weather, lock: L.State, ttl: nat): L.State {
    var tried := if w.lock.Applied() then L.Do(lock, L.SetNX(w.token), ttl) else lock;
    if Wins(w, lock) && w.unlock.Applied() then L.Do(tried, L.Unlock(w.token), ttl) else tried
  }

  lemma {:induction false} FirstPollSeen(polls: seq<Look>)
    ensures FirstPoll(polls).Some? ==> Saw(Cached(FirstPoll(polls).value)) in polls
    ensures FirstPoll(polls).None? ==> forall look | look in polls :: !Hit(look)
  {
    if polls != [] {
      FirstPollSeen(polls[1..]);
      assert polls == [polls[0]] + polls[1..];
    }
  }

  /** A winner whose unlock arrives leaves the lock free. */
  lemma WinnerFreesLock(w: Weather, lock: L.State, ttl: nat)
    requires Wins(w, lock) && w.lock.Applied() && w.unlock.Applied() && ttl > 0
    ensures !L.Taken(LockAfter(w, lock, ttl))
  {}

  /** What answers a request was seen, and is the row if every payload seen was. */
  lemma AnswerSeen(w: Weather, lock: L.State)
    ensures Answer(w, lock).Some? ==> Saw(Cached(Answer(w, lock).value)) in Looks(w)
    ensures Answer(w, lock).Some? ==> forall v :: SawOnly(w, v) ==> Answer(w, lock).value == v
  {
    FirstPollSeen(w.Tried());
    assert w.first in Looks(w) && w.merged in Looks(w) && w.again in Looks(w);
    assert forall look | look in w.polls :: look in Looks(w);
  }

  lemma {:induction false} FirstPollIsFirst(polls: seq<Look>, i: nat)
    requires i < |polls| && polls[i].Saw? && polls[i].payload.Cached?
    requires forall j | 0 <= j < i :: !(polls[j].Saw? && polls[j].payload.Cached?)
    ensures FirstPoll(polls) == Some(polls[i].payload.video)
  {
    if i > 0 {
      FirstPollIsFirst(polls[1..], i - 1);
    }
  }

  /** The looks in their order: the first one, the one after merging, and then, with the lock, one more, or,
      if somebody else has it, up to five polls for as long as the caller waits. */
  lemma LooksInOrder(w: Weather, lock: L.State, v: Video)
    ensures w.first == Saw(Cached(v)) ==> Answer(w, lock) == Some(v) && !GivesUp(w, lock) && !Competes(w)
    ensures w.first == LookFailed || w.first == Saw(Garbage) ==>
              Answer(w, lock) == None && !GivesUp(w, lock) && !Competes(w)
    ensures w.first == Saw(Missing) && w.merged == Saw(Cached(v)) ==>
              Answer(w, lock) == Some(v) && !GivesUp(w, lock) && !Competes(w)
    ensures w.first == Saw(Missing)
            && (w.merged == LookFailed || w.merged == Saw(Missing) || w.merged == Saw(Garbage)) ==>
              && Competes(w)
              && (w.lock != Done ==> Answer(w, lock) == None && !GivesUp(w, lock))
              && (w.lock == Done && (lock.key.None? || lock.key.value.expires <= lock.now) ==>
                    && !GivesUp(w, lock)
                    && (w.again == Saw(Cached(v)) ==> Answer(w, lock) == Some(v))
                    && (w.again == LookFailed || w.again == Saw(Missing) || w.again == Saw(Garbage) ==>
                          Answer(w, lock) == None))
  {}

  lemma PollsInOrder(w: Weather, lock: L.State)
    requires |w.polls| == 5 && w.first == Saw(Missing) && w.lock == Done
    requires w.merged == LookFailed || w.merged == Saw(Missing) || w.merged == Saw(Garbage)
    requires lock.key.Some? && lock.now < lock.key.value.expires
    ensures forall i | 0 <= i < 5 && i < w.patience && w.polls[i].Saw? && w.polls[i].payload.Cached? ::
              (forall j | 0 <= j < i :: !(w.polls[j].Saw? && w.polls[j].payload.Cached?)) ==>
                Answer(w, lock) == Some(w.polls[i].payload.video)
    ensures (forall i | 0 <= i < 5 && i < w.patience :: !(w.polls[i].Saw? && w.polls[i].payload.Cached?)) ==>
              Answer(w, lock) == None && (GivesUp(w, lock) <==> w.patience < 5)
  {
    forall i | 0 <= i < 5 && i < w.patience && w.polls[i].Saw? && w.polls[i].payload.Cached?
               && forall j | 0 <= j < i :: !(w.polls[j].Saw? && w.polls[j].payload.Cached?)
      ensures Answer(w, lock) == Some(w.polls[i].payload.video)
    {
      FirstPollIsFirst(w.Tried(), i);
    }
    FirstPollSeen(w.Tried());
  }

  class DetailService {
    var cache: Payload
    const row: Option<Video>
    const lock: L.Lock

    constructor (row: Option<Video>, lock: L.Lock)
      ensures cache == Missing && this.row == row && this.lock == lock
    {
      cache := Missing;
      this.row := row;
      this.lock := lock;
    }

    /** A request answers with what some look saw, or gives up, or answers with the row; only in the last
        case it refills the cache.  So while cached payloads are the row, every video it answers with is. */
    method GetDetail(w: Weather) returns (r: Result)
      requires |w.polls| == 5
      modifies this`cache, lock
      ensures w.first == LookFailed || w.first == Saw(Garbage) ==>
                && r == (if w.readFails then ReadFailed else if row.Some? then Found(row.value) else NotFound)
                && cache == (if row.Some? && !w.readFails && w.fill != NotDone then Cached(row.value) else old(cache))
                && lock.state == old(lock.state)
      ensures w.first.Saw? && w.first.payload.Cached? ==>
                r == Found(w.first.payload.video) && cache == old(cache) && lock.state == old(lock.state)
      ensures r == Cancelled ==> w.patience < 5 && w.first == Saw(Missing)
      ensures r == match Answer(w, old(lock.state))
                   case Some(v) => Found(v)
                   case None => if GivesUp(w, old(lock.state)) then Cancelled else FromTable(w, row)
      ensures cache == if Answer(w, old(lock.state)).Some? || GivesUp(w, old(lock.state)) then old(cache)
                       else Refilled(old(cache), row, w)
      ensures lock.state == if Competes(w) then LockAfter(w, old(lock.state), lock.ttl) else old(lock.state)
      ensures row.Some? && SawOnly(w, row.value) ==>
                r == Found(row.value) || (r == ReadFailed && w.readFails) || r == Cancelled
    {
      ghost var before := lock.state;
      AnswerSeen(w, before);
      if Hit(w.first) {
        return Found(w.first.payload.video);
      }
      if w.first == Saw(Missing) {
        if Hit(w.merged) {
          return Found(w.merged.payload.video);
        }
        var locked, err := lock.TryLock(w.token, w.lock);
        if err {
          r := ReadRow(w);
          return;
        }
        if locked {
          if Hit(w.again) {
            r := Found(w.again.payload.video);
          } else {
            r := ReadRow(w);
          }
          var _ := lock.Release(w.token, w.unlock);
          return;
        }
        for i := 0 to POLLS
          invariant i <= |w.Tried()| && FirstPoll(w.Tried()) == FirstPoll(w.Tried()[i..])
        {
          if i == w.patience {
            return Cancelled;
          }
          if Hit(w.polls[i]) {
            return Found(w.polls[i].payload.video);
          }
        }
      }
      r := ReadRow(w);
    }

    method ReadRow(w: Weather) returns (r: Result)
      modifies this`cache
      ensures r == FromTable(w, row)
      ensures cache == Refilled(old(cache), row, w)
    {
      if w.readFails {
        return ReadFailed;
      }
      if row.None? {
        return NotFound;
      }
      if w.fill.Applied() {
        cache := Cached(row.value);
      }
      return Found(row.value);
    }
  }

  // ---------------------------------------------------------------- many nodes

  /** Where a node's request stands.  Claimed: it holds the lock and saw the cache empty, so it will read
      MySQL; Loaded: it has read it and will write the cache. */
  datatype Node =
    | Idle
    | Missed
    | Holding(token: nat)
    | Claimed(token: nat)
    | Loaded(token: nat)
    | Leaving(token: nat)
    | Waiting(polls: nat)
    | Direct
  {
    predicate HasToken() { Holding? || Claimed? || Loaded? || Leaving? }
    predicate Active() { Claimed? || Loaded? }
  }

  /** `queries` counts the times a lock holder decided to read MySQL; `losses` what forces another read: an
      entry that left the cache, a read or write that failed, a holder that stopped or outlived its lock. */
  datatype State = State(lock: L.State, filled: bool, nodes: seq<Node>, queries: nat, losses: nat)

  datatype Action =
    | Wait(time: nat)
    | FirstLook(n: nat)
    | TryLock(n: nat, token: nat, outcome: Outcome)
    | LookAgain(n: nat)
    | ReadRow(n: nat, ok: bool)
    | Fill(n: nat, outcome: Outcome)
    | Unlock(n: nat, outcome: Outcome)
    | Poll(n: nat)
    | DirectFill(n: nat, outcome: Outcome)
    | Stop(n: nat)
    | LoseEntry

  /** The node's lock is still in force. */
  predicate Protected(s: State, n: nat) {
    n < |s.nodes| && s.nodes[n].HasToken() && L.Taken(s.lock) && s.lock.key.value.token == s.nodes[n].token
  }

  /** Somebody is refilling the cache under a lock in force. */
  predicate Refilling(s: State) {
    exists n: nat :: n < |s.nodes| && s.nodes[n].Active() && Protected(s, n)
  }

  /** Tokens are drawn at random from a space so large that no two are equal. */
  predicate Unused(s: State, token: nat) {
    (forall n | 0 <= n < |s.nodes| && s.nodes[n].HasToken() :: s.nodes[n].token != token)
    && (s.lock.key.Some? ==> s.lock.key.value.token != token)
  }

  predicate Enabled(s: State, a: Action) {
    match a
    case Wait(_) => true
    case FirstLook(n) => n < |s.nodes| && s.nodes[n].Idle?
    case TryLock(n, token, _) => n < |s.nodes| && s.nodes[n].Missed? && Unused(s, token)
    case LookAgain(n) => n < |s.nodes| && s.nodes[n].Holding?
    case ReadRow(n, _) => n < |s.nodes| && s.nodes[n].Claimed?
    case Fill(n, _) => n < |s.nodes| && s.nodes[n].Loaded?
    case Unlock(n, _) => n < |s.nodes| && s.nodes[n].Leaving?
    case Poll(n) => n < |s.nodes| && s.nodes[n].Waiting?
    case DirectFill(n, _) => n < |s.nodes| && s.nodes[n].Direct?
    case Stop(n) => n < |s.nodes|
    case LoseEntry => s.filled
  }

  function Put(s: State, n: nat, node: Node): State
    requires n < |s.nodes|
  {
    s.(nodes := s.nodes[n := node])
  }

  function Lose(s: State): State {
    s.(losses := s.losses + 1)
  }

  function Step(s: State, a: Action): State
    requires Enabled(s, a)
  {
    match a
    case Wait(time) =>
      var later := s.(lock := L.Do(s.lock, L.Wait(time), LOCK_TTL));
      if Refilling(s) && !Refilling(later) then Lose(later) else later
    case FirstLook(n) => if s.filled then s else Put(s, n, Missed)
    case TryLock(n, token, outcome) =>
      var s' := if outcome.Applied() then s.(lock := L.Do(s.lock, L.SetNX(token), LOCK_TTL)) else s;
      Put(s', n, if !outcome.Reported() then Direct else if L.Taken(s.lock) then Waiting(POLLS) else Holding(token))
    case LookAgain(n) =>
      if s.filled then Put(s, n, Leaving(s.nodes[n].token))
      else
        var s' := Put(s, n, Claimed(s.nodes[n].token)).(queries := s.queries + 1);
        if Protected(s, n) then s' else Lose(s')
    case ReadRow(n, ok) =>
      if ok then Put(s, n, Loaded(s.nodes[n].token)) else Lose(Put(s, n, Leaving(s.nodes[n].token)))
    case Fill(n, outcome) =>
      var s' := Put(s, n, Leaving(s.nodes[n].token));
      if outcome.Applied() then s'.(filled := true) else Lose(s')
    case Unlock(n, outcome) =>
      var token := s.nodes[n].token;
      Put(if outcome.Applied() then s.(lock := L.Do(s.lock, L.Unlock(token), LOCK_TTL)) else s, n, Idle)
    case Poll(n) =>
      if s.filled then Put(s, n, Idle)
      else Put(s, n, if s.nodes[n].polls > 1 then Waiting(s.nodes[n].polls - 1) else Direct)
    case DirectFill(n, outcome) => Put(if outcome.Applied() then s.(filled := true) else s, n, Idle)
    case Stop(n) => Put(if s.nodes[n].Active() then Lose(s) else s, n, Idle)
    case LoseEntry => Lose(s.(filled := false))
  }

  predicate Starts(s: State) {
    && !s.filled && s.lock.key.None? && s.lock.log == [] && s.queries == 0 && s.losses == 0
    && forall n | 0 <= n < |s.nodes| :: s.nodes[n].Idle?
  }

  predicate Possible(s: State, acts: seq<Action>)
    decreases |acts|, 0
  {
    acts == [] || (Possible(s, acts[..|acts| - 1]) && Enabled(After(s, acts[..|acts| - 1]), acts[|acts| - 1]))
  }

  function After(s: State, acts: seq<Action>): State
    requires Possible(s, acts)
    decreases |acts|, 1
  {
    if acts == [] then s else Step(After(s, acts[..|acts| - 1]), acts[|acts| - 1])
  }

  /** No two nodes hold the same token. */
  predicate OwnTokens(nodes: seq<Node>) {
    forall m, n | 0 <= m < |nodes| && 0 <= n < |nodes| && nodes[m].HasToken() && nodes[n].HasToken()
        && nodes[m].token == nodes[n].token ::
      m == n
  }

  /** Reads are paid for by losses, except one while the cache is filled or being refilled. */
  predicate Paid(s: State) {
    s.queries <= s.losses + if s.filled || Refilling(s) then 1 else 0
  }

  lemma StepOwnTokens(s: State, a: Action)
    requires OwnTokens(s.nodes) && Enabled(s, a)
    ensures OwnTokens(Step(s, a).nodes)
  {
    match a
    case Wait(_) =>
    case LoseEntry =>
    case TryLock(n, token, outcome) => PutOwn(s.nodes, n, Step(s, a).nodes[n]);
    case FirstLook(n) => PutOwn(s.nodes, n, Step(s, a).nodes[n]);
    case LookAgain(n) => PutOwn(s.nodes, n, Step(s, a).nodes[n]);
    case ReadRow(n, _) => PutOwn(s.nodes, n, Step(s, a).nodes[n]);
    case Fill(n, _) => PutOwn(s.nodes, n, Step(s, a).nodes[n]);
    case Unlock(n, _) => PutOwn(s.nodes, n, Idle);
    case Poll(n) => PutOwn(s.nodes, n, Step(s, a).nodes[n]);
    case DirectFill(n, _) => PutOwn(s.nodes, n, Idle);
    case Stop(n) => PutOwn(s.nodes, n, Idle);
  }

  lemma PutOwn(nodes: seq<Node>, n: nat, node: Node)
    requires OwnTokens(nodes) && n < |nodes|
    requires node.HasToken() ==> forall m | 0 <= m < |nodes| && m != n && nodes[m].HasToken() ::
             nodes[m].token != node.token
    ensures OwnTokens(nodes[n := node])
  {}

  /** A node under a lock in force is the only one, so nobody else is refilling. */
  lemma NobodyElse(s: State, n: nat)
    requires OwnTokens(s.nodes) && Protected(s, n) && !s.nodes[n].Active()
    ensures !Refilling(s)
  {}

  /** If the nodes that are refilling stay as they are, refilling goes on. */
  lemma RefillingStays(s: State, t: State, n: nat)
    requires n < |s.nodes| && |t.nodes| == |s.nodes| && Refilling(s) && !s.nodes[n].Active()
    requires t.lock == s.lock && forall m | 0 <= m < |s.nodes| && m != n :: t.nodes[m] == s.nodes[m]
    ensures Refilling(t)
  {
    var m: nat :| m < |s.nodes| && s.nodes[m].Active() && Protected(s, m);
    assert t.nodes[m].Active() && Protected(t, m);
  }

  lemma LookAgainPaid(s: State, n: nat)
    requires OwnTokens(s.nodes) && Paid(s) && Enabled(s, LookAgain(n))
    ensures Paid(Step(s, LookAgain(n)))
  {
    var t := Step(s, LookAgain(n));
    if s.filled {
    } else if Protected(s, n) {
      assert t.nodes[n].Active() && Protected(t, n);
      NobodyElse(s, n);
    } else if Refilling(s) {
      RefillingStays(s, t, n);
    }
  }

  lemma ReadRowPaid(s: State, n: nat, ok: bool)
    requires Paid(s) && Enabled(s, ReadRow(n, ok))
    ensures Paid(Step(s, ReadRow(n, ok)))
  {
    var t := Step(s, ReadRow(n, ok));
    if Refilling(s) && ok {
      var m: nat :| m < |s.nodes| && s.nodes[m].Active() && Protected(s, m);
      assert t.nodes[m].Active() && Protected(t, m);
    }
  }

  lemma UnlockPaid(s: State, n: nat, outcome: Outcome)
    requires OwnTokens(s.nodes) && Paid(s) && Enabled(s, Unlock(n, outcome))
    ensures Paid(Step(s, Unlock(n, outcome)))
  {
    if Protected(s, n) {
      NobodyElse(s, n);
    } else if Refilling(s) {
      RefillingStays(s, Step(s, Unlock(n, outcome)), n);
    }
  }

  lemma StepPaid(s: State, a: Action)
    requires OwnTokens(s.nodes) && Paid(s) && Enabled(s, a)
    ensures Paid(Step(s, a))
  {
    match a
    case Wait(_) =>
    case LookAgain(n) => LookAgainPaid(s, n);
    case ReadRow(n, ok) => ReadRowPaid(s, n, ok);
    case Unlock(n, outcome) => UnlockPaid(s, n, outcome);
    case Fill(_, _) =>
    case LoseEntry =>
    case Stop(n) => if Refilling(s) && !s.nodes[n].Active() { RefillingStays(s, Step(s, a), n); }
    case FirstLook(n) => if Refilling(s) { RefillingStays(s, Step(s, a), n); }
    case TryLock(n, _, _) => if Refilling(s) { RefillingStays(s, Step(s, a), n); }
    case Poll(n) => if Refilling(s) { RefillingStays(s, Step(s, a), n); }
    case DirectFill(n, _) => if Refilling(s) { RefillingStays(s, Step(s, a), n); }
  }

  /** A node that gets the lock holds it for two seconds, unless it gives it back. */
  lemma LockedForTwoSeconds(s: State, n: nat, token: nat, time: nat)
    requires Enabled(s, TryLock(n, token, Done)) && !L.Taken(s.lock)
    ensures var t := Step(s, TryLock(n, token, Done));
            && t.nodes[n] == Holding(token)
            && (Protected(Step(t, Wait(time)), n) <==> time < 2000)
  {}

  /** In every run of any number of nodes, lock holders read MySQL at most once more often than an entry
      was lost, a read or a write failed, a holder stopped, or one outlived its lock.  In particular,
      while none of that happens they read it once. */
  lemma {:induction false} OneReadPerLoss(start: State, acts: seq<Action>)
    requires Starts(start) && Possible(start, acts)
    ensures var s := After(start, acts); OwnTokens(s.nodes) && Paid(s) && s.queries <= s.losses + 1
  {
    if acts != [] {
      var s := After(start, acts[..|acts| - 1]);
      OneReadPerLoss(start, acts[..|acts| - 1]);
      StepOwnTokens(s, acts[|acts| - 1]);
      StepPaid(s, acts[|acts| - 1]);
    }
  }

  /** The lock of such a run is exclusive: between two acquisitions the first was given back by its own
      token or its lifetime passed. */
  lemma {:induction false} LockStaysExclusive(start: State, acts: seq<Action>)
    requires Starts(start) && Possible(start, acts)
    ensures L.Inv(After(start, acts).lock, LOCK_TTL)
  {
    if acts != [] {
      var s := After(start, acts[..|acts| - 1]);
      LockStaysExclusive(start, acts[..|acts| - 1]);
      match acts[|acts| - 1]
      case Wait(time) => L.DoKeepsInv(s.lock, L.Wait(time), LOCK_TTL);
      case TryLock(_, token, _) => L.DoKeepsInv(s.lock, L.SetNX(token), LOCK_TTL);
      case Unlock(n, _) => L.DoKeepsInv(s.lock, L.Unlock(s.nodes[n].token), LOCK_TTL);
      case _ =>
    }
  }

  // ---------------------------------------------------------------- one request among the nodes

  /** What the cache key holds while it is filled with the row, or not at all. */
  function Entry(s: State, row: Option<Video>): Payload {
    if s.filled && row.Some? then Cached(row.value) else Missing
  }

  /** A request that nobody disturbs sees what the key holds whenever it looks. */
  predicate Undisturbed(s: State, w: Weather, row: Option<Video>) {
    |w.polls| == POLLS && Unused(s, w.token) && forall look | look in Looks(w) :: look == Saw(Entry(s, row))
  }

  function Polled(s: State, n: nat, times: nat): (r: State)
    requires n < |s.nodes| && !s.filled && s.nodes[n] == Waiting(POLLS) && times <= POLLS
    ensures r == Put(s, n, if times == POLLS then Direct else Waiting(POLLS - times))
  {
    if times == 0 then s else Step(Polled(s, n, times - 1), Poll(n))
  }

  /** The rest of a request that got the lock. */
  function Rebuilt(s: State, n: nat, w: Weather, loads: bool): (r: State)
    requires n < |s.nodes| && !s.filled && s.nodes[n] == Holding(w.token)
    ensures r.nodes == s.nodes[n := Idle] && (r.filled <==> loads && w.fill.Applied())
    ensures r.lock == if w.unlock.Applied() then L.Do(s.lock, L.Unlock(w.token), LOCK_TTL) else s.lock
  {
    var s' := Step(Step(s, LookAgain(n)), ReadRow(n, loads));
    Step(if loads then Step(s', Fill(n, w.fill)) else s', Unlock(n, w.unlock))
  }

  /** The rest of a request that did not. */
  function Waited(s: State, n: nat, w: Weather, loads: bool): (r: State)
    requires n < |s.nodes| && !s.filled && s.nodes[n] == Waiting(POLLS) && |w.polls| == POLLS
    ensures r.nodes == s.nodes[n := Idle] && r.lock == s.lock
    ensures r.filled <==> w.patience >= POLLS && loads && w.fill.Applied()
  {
    var s' := Polled(s, n, |w.Tried()|);
    Step(s', if s'.nodes[n].Direct? then DirectFill(n, if loads then w.fill else NotDone) else Stop(n))
  }

  /** The steps of node n that make up one request. */
  function Requested(s: State, n: nat, w: Weather, row: Option<Video>): State
    requires n < |s.nodes| && s.nodes[n].Idle? && Undisturbed(s, w, row)
  {
    var loads := row.Some? && !w.readFails;
    if s.filled then Step(s, FirstLook(n))
    else
      var s' := Step(Step(s, FirstLook(n)), TryLock(n, w.token, w.lock));
      if s'.nodes[n].Direct? then Step(s', DirectFill(n, if loads then w.fill else NotDone))
      else if s'.nodes[n].Waiting? then Waited(s', n, w, loads)
      else Rebuilt(s', n, w, loads)
  }

  lemma UndisturbedLooks(s: State, w: Weather, row: Option<Video>)
    requires Undisturbed(s, w, row)
    ensures var sees := Saw(Entry(s, row)); w.first == sees && w.merged == sees && w.again == sees
    ensures !s.filled ==> FirstPoll(w.Tried()).None?
  {
    assert w.first in Looks(w) && w.merged in Looks(w) && w.again in Looks(w);
    if !s.filled {
      FirstPollSeen(w.Tried());
      forall look | look in w.Tried() ensures look == Saw(Missing) {
        assert look in w.polls && look in Looks(w);
      }
    }
  }

  /** A request that nobody disturbs does to the lock and to the cache what its node's steps do, and is
      answered by the cache exactly when that is filled. */
  lemma RequestIsSteps(s: State, n: nat, w: Weather, row: Option<Video>)
    requires n < |s.nodes| && s.nodes[n].Idle? && Undisturbed(s, w, row) && (s.filled ==> row.Some?)
    ensures var s' := Requested(s, n, w, row);
            && s'.nodes == s.nodes
            && s'.lock == (if Competes(w) then LockAfter(w, s.lock, LOCK_TTL) else s.lock)
            && Answer(w, s.lock) == (if s.filled then row else None)
            && Entry(s', row) == if s.filled || GivesUp(w, s.lock) then Entry(s, row)
                                 else Refilled(Entry(s, row), row, w)
  {
    UndisturbedLooks(s, w, row);
    assert Requested(s, n, w, row).nodes == s.nodes[n := Idle] == s.nodes;
  }
}
