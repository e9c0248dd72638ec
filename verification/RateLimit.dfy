/**
  The sliding-window rate limiter: one Lua script over a sorted set and a sequence counter
  (internal/middleware/redis/redis.go).  Times are milliseconds.  Redis expires keys by its own
  clock; the scores are the callers' clocks, which may differ from it.
*/
module RateLimit {
  import opened Ranking
  import opened Wrappers

  /** The member "now-seq" of an admitted request. */
  datatype Member = Member(now: int, number: nat)

  /** The two keys of one limiter.  An expiry time is meaningful only while its key exists: the
      sorted set while it has members, the counter while it is positive. */
  datatype Store = Store(members: map<Member, int>, membersExpire: int, number: nat, numberExpire: int)

  const EMPTY := Store(map[], 0, 0, 0)

  /** What a command at Redis time `clock` sees. */
  function Expire(s: Store, clock: int): Store {
    s.(members := if clock >= s.membersExpire then map[] else s.members,
       number := if clock >= s.numberExpire then 0 else s.number)
  }

  /** ZREMRANGEBYSCORE key 0 max */
  function RemoveUpTo(members: map<Member, int>, max: int): map<Member, int> {
    map m | m in members && !(0 <= members[m] <= max) :: members[m]
  }

  /** PEXPIRE does nothing to a missing key. */
  function Renew(s: Store, at: int): Store {
    s.(membersExpire := if s.members == map[] then s.membersExpire else at,
       numberExpire := if s.number == 0 then s.numberExpire else at)
  }

  datatype Reply = Reply(allowed: bool, count: nat)

  class Limiter {
    var store: Store

    constructor ()
      ensures store == EMPTY
    {
      store := EMPTY;
    }

    /** The Lua script, run at Redis time `clock`. */
    method SlidingWindowScript(clock: int, now: int, window: int, limit: int, ttl: int) returns (r: Reply)
      modifies this
      ensures (store, r) == Script(old(store), clock, now, window, limit, ttl)
    {
      store := Expire(store, clock);
      var minScore := now - window;
      store := store.(members := RemoveUpTo(store.members, minScore));
      var count := |store.members|;
      if count >= limit {
        store := Renew(store, clock + ttl);
        return Reply(false, count);
      }
      store := store.(number := store.number + 1);
      ghost var kept := store.members;
      store := store.(members := store.members[Member(now, store.number) := now]);
      assert Member(now, store.number) in store.members;
      store := Renew(store, clock + ttl);
      assert store == Store(kept[Member(now, store.number) := now], clock + ttl, store.number, clock + ttl);
      return Reply(true, count + 1);
    }

    /** The Go side: a limiter without a key, a limit or a window admits everything, and so does one
        whose Redis call fails.  The window is in nanoseconds and is cut to milliseconds. */
    method SlidingWindowAllowAt(key: string, maxRequests: int, windowNs: int, clock: int, now: int, redis: Outcome)
      returns (allowed: bool, count: int, err: bool)
      modifies this
      ensures key == "" || maxRequests <= 0 || windowNs <= 0 ==>
                allowed && count == 0 && !err && store == old(store)
      ensures key != "" && maxRequests > 0 && windowNs > 0 ==>
                var w := windowNs / 1_000_000;
                var (after, reply) := Script(old(store), clock, now, w, maxRequests, w + 1000);
                && store == (if redis.Applied() then after else old(store))
                && (if redis.Reported() then allowed == reply.allowed && count == reply.count && !err
                    else allowed && count == 0 && err)
    {
      if key == "" || maxRequests <= 0 || windowNs <= 0 {
        return true, 0, false;
      }
      var ttlNs := windowNs + 1_000_000_000;
      assert ttlNs / 1_000_000 == windowNs / 1_000_000 + 1000;
      var reply := Reply(true, 0);
      if redis.Applied() {
        reply := SlidingWindowScript(clock, now, windowNs / 1_000_000, maxRequests, ttlNs / 1_000_000);
      }
      if !redis.Reported() {
        return true, 0, true;
      }
      return reply.allowed, reply.count, false;
    }
  }

  function Script(s: Store, clock: int, now: int, window: int, limit: int, ttl: int): (Store, Reply) {
    var seen := Expire(s, clock);
    var kept := RemoveUpTo(seen.members, now - window);
    if |kept| >= limit then (Renew(seen.(members := kept), clock + ttl), Reply(false, |kept|))
    else
      var number := seen.number + 1;
      (Store(kept[Member(now, number) := now], clock + ttl, number, clock + ttl), Reply(true, |kept| + 1))
  }

  // ---------------------------------------------------------------- the full log

  /** One request: when Redis runs it, and the caller's idea of the time. */
  datatype Request = Request(clock: int, now: int)

  datatype Admission = Admission(clock: int, now: int, number: nat)
  {
    function Key(): Member { Member(now, number) }
  }

  /** The limiter's settings: the window and the limit, with clocks off by at most `skew`. */
  datatype Settings = Settings(window: int, limit: int, skew: nat)
  {
    predicate Valid() { window >= 0 && limit > 0 }
    function Ttl(): int { window + 1000 }
  }

  /** A limiter together with the log of everything it ever admitted. */
  datatype Run = Run(store: Store, log: seq<Admission>, clock: int)

  predicate Timely(p: Settings, r: Run, q: Request) {
    r.clock <= q.clock && q.now >= 0 && q.clock - p.skew <= q.now <= q.clock + p.skew
  }

  function Answer(p: Settings, r: Run, q: Request): Reply {
    Script(r.store, q.clock, q.now, p.window, p.limit, p.Ttl()).1
  }

  function Next(p: Settings, r: Run, q: Request): Run {
    var (store, reply) := Script(r.store, q.clock, q.now, p.window, p.limit, p.Ttl());
    Run(store, if reply.allowed then r.log + [Admission(q.clock, q.now, store.number)] else r.log, q.clock)
  }

  predicate TimelyAll(p: Settings, r: Run, qs: seq<Request>)
    decreases |qs|, 0
  {
    qs == [] || (TimelyAll(p, r, qs[..|qs| - 1]) && Timely(p, After(p, r, qs[..|qs| - 1]), qs[|qs| - 1]))
  }

  function After(p: Settings, r: Run, qs: seq<Request>): Run
    decreases |qs|, 1
  {
    if qs == [] then r else Next(p, After(p, r, qs[..|qs| - 1]), qs[|qs| - 1])
  }

  // ---------------------------------------------------------------- invariant

  /** Admissions that no script run at or after `clock` has had a reason to remove. */
  predicate Fresh(p: Settings, log: seq<Admission>, clock: int, i: int)
    requires 0 <= i < |log|
  {
    log[i].now > clock + p.skew - p.window
  }

  /** The admission is still stored, under a number and with expiry times that protect it. */
  predicate Stored(p: Settings, s: Store, a: Admission) {
    && a.Key() in s.members && s.members[a.Key()] == a.now
    && a.clock + p.Ttl() <= s.membersExpire && a.clock + p.Ttl() <= s.numberExpire
    && a.number <= s.number
  }

  predicate LogOk(p: Settings, log: seq<Admission>, clock: int) {
    forall i | 0 <= i < |log| ::
      log[i].clock <= clock && log[i].now >= 0 && log[i].clock - p.skew <= log[i].now <= log[i].clock + p.skew
  }

  predicate Ordered(log: seq<Admission>) {
    forall i, j | 0 <= i < j < |log| :: log[i].clock <= log[j].clock
  }

  predicate AllStored(p: Settings, r: Run) {
    forall i | 0 <= i < |r.log| && Fresh(p, r.log, r.clock, i) :: Stored(p, r.store, r.log[i])
  }

  predicate Numbered(p: Settings, r: Run) {
    forall i, j | 0 <= i < j < |r.log| && Fresh(p, r.log, r.clock, i) && Fresh(p, r.log, r.clock, j) ::
      r.log[i].number < r.log[j].number
  }

  /** The member was admitted, and the set will outlive it by the time to live. */
  predicate Logged(p: Settings, r: Run, m: Member) {
    exists i :: 0 <= i < |r.log| && r.log[i].Key() == m && r.log[i].clock + p.Ttl() <= r.store.membersExpire
  }

  /** Nothing is stored that was never admitted. */
  predicate OnlyLogged(p: Settings, r: Run) {
    forall m {:trigger Logged(p, r, m)} | m in r.store.members :: r.store.members[m] == m.now && Logged(p, r, m)
  }

  /** The counter lives as long as the set and is ahead of all its members. */
  predicate KeysTogether(s: Store) {
    s.members != map[] ==>
      s.membersExpire == s.numberExpire && forall m | m in s.members :: 0 < m.number <= s.number
  }

  predicate Inv(p: Settings, r: Run) {
    && LogOk(p, r.log, r.clock) && Ordered(r.log) && AllStored(p, r) && Numbered(p, r)
    && OnlyLogged(p, r) && KeysTogether(r.store)
  }

  /** At the moment a request runs, the fresh admissions are unexpired and survive the trim. */
  lemma FreshSurvives(p: Settings, r: Run, q: Request, i: int)
    requires p.Valid() && LogOk(p, r.log, r.clock) && AllStored(p, r) && Timely(p, r, q)
    requires 0 <= i < |r.log| && Fresh(p, r.log, q.clock, i)
    ensures var seen := Expire(r.store, q.clock);
            && Stored(p, seen, r.log[i])
            && r.log[i].Key() in RemoveUpTo(seen.members, q.now - p.window)
  {
    assert Fresh(p, r.log, r.clock, i);
    assert Stored(p, r.store, r.log[i]);
  }

  lemma NextStored(p: Settings, r: Run, q: Request, i: int)
    requires p.Valid() && LogOk(p, r.log, r.clock) && AllStored(p, r) && Timely(p, r, q)
    requires 0 <= i < |r.log| && Fresh(p, r.log, q.clock, i)
    ensures Stored(p, Next(p, r, q).store, r.log[i])
    ensures |Next(p, r, q).log| > |r.log| ==> r.log[i].number < Next(p, r, q).log[|r.log|].number
  {
    FreshSurvives(p, r, q, i);
  }

  lemma NextOnlyLogged(p: Settings, r: Run, q: Request)
    requires p.Valid() && LogOk(p, r.log, r.clock) && OnlyLogged(p, r) && Timely(p, r, q)
    ensures OnlyLogged(p, Next(p, r, q))
  {
    var t := Next(p, r, q);
    forall m | m in t.store.members ensures t.store.members[m] == m.now && Logged(p, t, m) {
      if m in r.store.members {
        assert Logged(p, r, m);
        var i :| 0 <= i < |r.log| && r.log[i].Key() == m && r.log[i].clock + p.Ttl() <= r.store.membersExpire;
        assert t.log[i].Key() == m;
      } else {
        assert t.log[|r.log|].Key() == m;
      }
    }
  }

  /** The numbers of admitted requests restart only together with an empty set. */
  lemma NextKeysTogether(p: Settings, r: Run, q: Request)
    requires KeysTogether(r.store)
    ensures KeysTogether(Next(p, r, q).store)
  {}

  lemma NextInv(p: Settings, r: Run, q: Request)
    requires p.Valid() && Inv(p, r) && Timely(p, r, q)
    ensures Inv(p, Next(p, r, q))
  {
    var t := Next(p, r, q);
    NextOnlyLogged(p, r, q);
    NextKeysTogether(p, r, q);
    forall i | 0 <= i < |r.log| && Fresh(p, r.log, q.clock, i)
      ensures Stored(p, t.store, r.log[i])
      ensures |t.log| > |r.log| ==> r.log[i].number < t.log[|r.log|].number
    {
      NextStored(p, r, q, i);
    }
    forall i, j | 0 <= i < j < |t.log| && Fresh(p, t.log, t.clock, i) && Fresh(p, t.log, t.clock, j)
      ensures t.log[i].number < t.log[j].number
    {
      assert Fresh(p, r.log, q.clock, i);
      if j < |r.log| {
        assert Fresh(p, r.log, r.clock, i) && Fresh(p, r.log, r.clock, j);
      }
    }
  }

  lemma {:induction false} RunInv(p: Settings, qs: seq<Request>, clock: int)
    requires p.Valid() && TimelyAll(p, Start(clock), qs)
    ensures Inv(p, After(p, Start(clock), qs))
  {
    if qs != [] {
      RunInv(p, qs[..|qs| - 1], clock);
      NextInv(p, After(p, Start(clock), qs[..|qs| - 1]), qs[|qs| - 1]);
    }
  }

  function Start(clock: int): Run {
    Run(EMPTY, [], clock)
  }

  // ---------------------------------------------------------------- counting

  /** The admissions whose Redis time lies in (from, to]. */
  function Between(log: seq<Admission>, from: int, to: int): set<nat> {
    set i | 0 <= i < |log| && from < log[i].clock <= to
  }

  /** The admissions whose score lies in (from, to]. */
  function Scored(log: seq<Admission>, from: int, to: int): set<nat> {
    set i | 0 <= i < |log| && from < log[i].now <= to
  }

  function Keys(log: seq<Admission>, I: set<nat>): set<Member>
    requires forall i | i in I :: i < |log|
  {
    set i | i in I :: log[i].Key()
  }

  lemma KeysCount(log: seq<Admission>, I: set<nat>)
    requires forall i | i in I :: i < |log|
    requires forall i, j | i in I && j in I && i < j :: log[i].number < log[j].number
    ensures |Keys(log, I)| == |I|
  {
    if I != {} {
      var i :| i in I;
      var J := I - {i};
      assert Keys(log, I) == Keys(log, J) + {log[i].Key()};
      KeysCount(log, J);
    }
  }

  /** The stored members that a request counts. */
  function Counted(p: Settings, r: Run, q: Request): set<Member> {
    RemoveUpTo(Expire(r.store, q.clock).members, q.now - p.window).Keys
  }

  /** A request counts every admission that is still fresh, each under its own member. */
  lemma CountsFresh(p: Settings, r: Run, q: Request, I: set<nat>)
    requires p.Valid() && Inv(p, r) && Timely(p, r, q)
    requires forall i | i in I :: i < |r.log| && Fresh(p, r.log, q.clock, i)
    ensures Keys(r.log, I) <= Counted(p, r, q)
    ensures |Keys(r.log, I)| == |I| && |I| <= |Counted(p, r, q)|
  {
    forall i | i in I ensures r.log[i].Key() in Counted(p, r, q) {
      FreshSurvives(p, r, q, i);
    }
    forall i, j | i in I && j in I && i < j ensures r.log[i].number < r.log[j].number {
      assert Fresh(p, r.log, r.clock, i) && Fresh(p, r.log, r.clock, j);
    }
    KeysCount(r.log, I);
    SubsetSize(Keys(r.log, I), Counted(p, r, q));
  }

  // ---------------------------------------------------------------- guarantees

  /** The second log is the first with one admission at these times appended. */
  predicate Appended(log: seq<Admission>, longer: seq<Admission>, clock: int, now: int) {
    |longer| == |log| + 1 && longer[..|log|] == log && longer[|log|].clock == clock && longer[|log|].now == now
  }

  /** A request is admitted if and only if it counts fewer than `limit` members, and only then logged. */
  lemma NextShape(p: Settings, r: Run, q: Request)
    ensures Answer(p, r, q).allowed <==> |Counted(p, r, q)| < p.limit
    ensures Answer(p, r, q).count == |Counted(p, r, q)| + if Answer(p, r, q).allowed then 1 else 0
    ensures if Answer(p, r, q).allowed then Appended(r.log, Next(p, r, q).log, q.clock, q.now)
            else Next(p, r, q).log == r.log
  {}

  lemma Extend(log: seq<Admission>, longer: seq<Admission>, clock: int, now: int, from: int, to: int)
    requires Appended(log, longer, clock, now)
    ensures |Between(longer, from, to)| == |Between(log, from, to)| + if from < clock <= to then 1 else 0
    ensures |Scored(longer, from, to)| == |Scored(log, from, to)| + if from < now <= to then 1 else 0
  {
    assert forall i | 0 <= i < |log| :: longer[i] == log[i];
    assert Between(longer, from, to) == Between(log, from, to) + if from < clock <= to then {|log|} else {};
    assert Scored(longer, from, to) == Scored(log, from, to) + if from < now <= to then {|log|} else {};
  }

  /** An admitted request is counted against everything in the interval that ends with it. */
  lemma BelowLimit(p: Settings, r: Run, q: Request, to: int)
    requires p.Valid() && Inv(p, r) && Timely(p, r, q)
    requires Answer(p, r, q).allowed && to - p.window + 2 * p.skew < q.clock <= to
    ensures |Between(r.log, to - p.window + 2 * p.skew, to)| < p.limit
  {
    var before := Between(r.log, to - p.window + 2 * p.skew, to);
    forall i | i in before ensures i < |r.log| && Fresh(p, r.log, q.clock, i) {
      assert r.log[i].clock - p.skew <= r.log[i].now;
    }
    CountsFresh(p, r, q, before);
    NextShape(p, r, q);
  }

  lemma NextWithinLimit(p: Settings, r: Run, q: Request, to: int)
    requires p.Valid() && Inv(p, r) && Timely(p, r, q)
    requires |Between(r.log, to - p.window + 2 * p.skew, to)| <= p.limit
    ensures |Between(Next(p, r, q).log, to - p.window + 2 * p.skew, to)| <= p.limit
  {
    var from := to - p.window + 2 * p.skew;
    if Answer(p, r, q).allowed && from < q.clock <= to {
      BelowLimit(p, r, q, to);
    }
    GrowsByOne(p, r, q, from, to);
  }

  lemma GrowsByOne(p: Settings, r: Run, q: Request, from: int, to: int)
    ensures |Between(Next(p, r, q).log, from, to)|
            == |Between(r.log, from, to)| + if Answer(p, r, q).allowed && from < q.clock <= to then 1 else 0
    ensures |Scored(Next(p, r, q).log, from, to)|
            == |Scored(r.log, from, to)| + if Answer(p, r, q).allowed && from < q.now <= to then 1 else 0
  {
    NextShape(p, r, q);
    if Answer(p, r, q).allowed {
      Extend(r.log, Next(p, r, q).log, q.clock, q.now, from, to);
    }
  }

  /** With clocks off by at most `skew`, any interval of length window - 2 * skew holds at most
      `limit` admissions; with exact clocks, any interval as long as the window. */
  lemma {:induction false} AtMostLimit(p: Settings, qs: seq<Request>, clock: int, to: int)
    requires p.Valid() && TimelyAll(p, Start(clock), qs)
    ensures |Between(After(p, Start(clock), qs).log, to - p.window + 2 * p.skew, to)| <= p.limit
  {
    if qs != [] {
      AtMostLimit(p, qs[..|qs| - 1], clock, to);
      RunInv(p, qs[..|qs| - 1], clock);
      NextWithinLimit(p, After(p, Start(clock), qs[..|qs| - 1]), qs[|qs| - 1], to);
    }
  }

  /** With exact clocks the trimmed set is the full log cut to the window. */
  lemma CountsExactly(p: Settings, r: Run, q: Request)
    requires p.Valid() && p.skew == 0 && Inv(p, r) && Timely(p, r, q)
    ensures |Counted(p, r, q)| == |Scored(r.log, q.now - p.window, q.now)|
  {
    var I := Scored(r.log, q.now - p.window, q.now);
    CountsFresh(p, r, q, I);
    forall m | m in Counted(p, r, q) ensures m in Keys(r.log, I) {
      assert Logged(p, r, m);
      var i :| 0 <= i < |r.log| && r.log[i].Key() == m;
      assert i in I;
    }
    assert Counted(p, r, q) == Keys(r.log, I);
  }

  /** Right answer when `before` admissions lie in the window and `after` with this request. */
  predicate RightAnswer(p: Settings, reply: Reply, before: nat, after: nat) {
    && before <= p.limit
    && (!reply.allowed <==> before == p.limit)
    && (p.window > 0 || !reply.allowed ==> reply.count == after)
  }

  lemma ExactAnswer(p: Settings, r: Run, q: Request)
    requires |Counted(p, r, q)| == |Scored(r.log, q.now - p.window, q.now)| <= p.limit
    ensures RightAnswer(p, Answer(p, r, q), |Scored(r.log, q.now - p.window, q.now)|,
                        |Scored(Next(p, r, q).log, q.now - p.window, q.now)|)
  {
    NextShape(p, r, q);
    GrowsByOne(p, r, q, q.now - p.window, q.now);
  }

  /** With exact clocks the interval is as long as the window. */
  lemma AtMostLimitExact(p: Settings, qs: seq<Request>, clock: int, to: int)
    requires p.Valid() && p.skew == 0 && TimelyAll(p, Start(clock), qs)
    ensures |Between(After(p, Start(clock), qs).log, to - p.window, to)| <= p.limit
  {
    AtMostLimit(p, qs, clock, to);
    assert to - p.window + 2 * p.skew == to - p.window;
  }

  /** What the answer to a request must be in a given state. */
  predicate AnswersRightly(p: Settings, r: Run, q: Request) {
    RightAnswer(p, Answer(p, r, q), |Scored(r.log, q.now - p.window, q.now)|,
                |Scored(Next(p, r, q).log, q.now - p.window, q.now)|)
  }

  lemma ExactOn(p: Settings, r: Run, q: Request)
    requires p.Valid() && p.skew == 0 && Inv(p, r) && Timely(p, r, q)
    requires |Between(r.log, q.now - p.window, q.now)| <= p.limit
    ensures AnswersRightly(p, r, q)
  {
    ScoresAreClocks(p, r, q.now - p.window, q.now);
    CountsExactly(p, r, q);
    ExactAnswer(p, r, q);
  }

  /** A limiter state that some sequence of requests leads to. */
  ghost predicate Reached(p: Settings, r: Run) {
    exists qs, clock :: TimelyAll(p, Start(clock), qs) && After(p, Start(clock), qs) == r
  }

  lemma ReachedInv(p: Settings, r: Run)
    requires p.Valid() && Reached(p, r)
    ensures Inv(p, r)
    ensures p.skew == 0 ==> forall from, to :: from == to - p.window ==> |Between(r.log, from, to)| <= p.limit
  {
    var qs, clock :| TimelyAll(p, Start(clock), qs) && After(p, Start(clock), qs) == r;
    RunInv(p, qs, clock);
    if p.skew == 0 {
      forall from, to | from == to - p.window ensures |Between(r.log, from, to)| <= p.limit {
        AtMostLimitExact(p, qs, clock, to);
      }
    }
  }

  /** With exact clocks a request at time `now` is denied if and only if exactly `limit` admissions
      lie in (now - window, now], and the count it is told is the number of admissions in that
      interval, itself included. */
  lemma DeniedExactlyAtLimit(p: Settings, r: Run, q: Request)
    requires p.Valid() && p.skew == 0 && Reached(p, r) && Timely(p, r, q)
    ensures AnswersRightly(p, r, q)
  {
    ReachedInv(p, r);
    ExactOn(p, r, q);
  }

  /** Spelled out: with n admissions of the full log in (now - window, now], the request is admitted if n is
      below the limit, and told n + 1; and denied if n is the limit, and told n. */
  lemma AdmittedBelowLimit(p: Settings, r: Run, q: Request, n: nat)
    requires p.Valid() && p.skew == 0 && Reached(p, r) && Timely(p, r, q)
    requires n == |set i | 0 <= i < |r.log| && q.now - p.window < r.log[i].now <= q.now|
    ensures n < p.limit ==> Answer(p, r, q).allowed && Answer(p, r, q).count == n + 1
    ensures n >= p.limit ==> n == p.limit && !Answer(p, r, q).allowed && Answer(p, r, q).count == n
  {
    SpelledOut(r.log, q.now - p.window, q.now);
    CountedInWindow(p, r, q);
  }

  lemma SpelledOut(log: seq<Admission>, from: int, to: int)
    ensures Scored(log, from, to) == set i | 0 <= i < |log| && from < log[i].now <= to
  {}

  lemma CountedInWindow(p: Settings, r: Run, q: Request)
    requires p.Valid() && p.skew == 0 && Reached(p, r) && Timely(p, r, q)
    ensures var n := |Scored(r.log, q.now - p.window, q.now)|;
            && n <= p.limit && (Answer(p, r, q).allowed <==> n < p.limit)
            && Answer(p, r, q).count == n + if Answer(p, r, q).allowed then 1 else 0
  {
    ReachedInv(p, r);
    WindowCount(p, r, q);
  }

  lemma WindowCount(p: Settings, r: Run, q: Request)
    requires p.Valid() && p.skew == 0 && Inv(p, r) && Timely(p, r, q)
    requires |Between(r.log, q.now - p.window, q.now)| <= p.limit
    ensures var n := |Scored(r.log, q.now - p.window, q.now)|;
            && n <= p.limit && (Answer(p, r, q).allowed <==> n < p.limit)
            && Answer(p, r, q).count == n + if Answer(p, r, q).allowed then 1 else 0
  {
    ScoresAreClocks(p, r, q.now - p.window, q.now);
    CountsExactly(p, r, q);
    NextShape(p, r, q);
  }

  lemma ScoresAreClocks(p: Settings, r: Run, from: int, to: int)
    requires p.skew == 0 && LogOk(p, r.log, r.clock)
    ensures Between(r.log, from, to) == Scored(r.log, from, to)
  {}

  /** Key expiry takes no member from a request that would count it: the answer is the one of a store that
      never expires. */
  predicate ExpiryIdle(p: Settings, r: Run, q: Request) {
    RemoveUpTo(Expire(r.store, q.clock).members, q.now - p.window) == RemoveUpTo(r.store.members, q.now - p.window)
  }

  lemma ExpiryNeverMatters(p: Settings, r: Run, q: Request)
    requires p.Valid() && 2 * p.skew <= 1000 && Reached(p, r) && Timely(p, r, q)
    ensures ExpiryIdle(p, r, q)
  {
    ReachedInv(p, r);
    if q.clock >= r.store.membersExpire {
      forall m | m in r.store.members ensures m !in RemoveUpTo(r.store.members, q.now - p.window) {
        assert Logged(p, r, m);
        var i :| 0 <= i < |r.log| && r.log[i].Key() == m && r.log[i].clock + p.Ttl() <= r.store.membersExpire;
      }
    }
  }

  lemma ReachedByOne(p: Settings, clock: int, q: Request)
    requires Timely(p, Start(clock), q)
    ensures Reached(p, Next(p, Start(clock), q))
  {
    var qs := [q];
    assert qs[..|qs| - 1] == [];
    assert TimelyAll(p, Start(clock), []) && After(p, Start(clock), []) == Start(clock);
    assert TimelyAll(p, Start(clock), qs) && After(p, Start(clock), qs) == Next(p, Start(clock), q);
  }

  /** A caller whose clock is ahead is admitted, and one whose clock is behind comes as the keys expire. */
  lemma ExpiryMatters(p: Settings) returns (r: Run, q: Request)
    requires p.Valid() && 2 * p.skew > 1000
    ensures Reached(p, r) && Timely(p, r, q) && !ExpiryIdle(p, r, q)
  {
    var ahead := Request(p.skew, 2 * p.skew);
    q := Request(p.skew + p.window + 1000, p.window + 1000);
    r := Next(p, Start(0), ahead);
    ReachedByOne(p, 0, ahead);
    var m := Member(2 * p.skew, 1);
    assert RemoveUpTo(map[], ahead.now - p.window) == map[];
    assert r.store == Store(map[m := 2 * p.skew], p.skew + p.Ttl(), 1, p.skew + p.Ttl());
    assert m in RemoveUpTo(r.store.members, q.now - p.window);
    assert m !in RemoveUpTo(Expire(r.store, q.clock).members, q.now - p.window);
  }

  /** The extra second of time to live means that key expiry never matters if and only if clocks are off by
      at most half a second. */
  lemma ExpiryNeverMattersIff(p: Settings)
    requires p.Valid()
    ensures (forall r, q | Reached(p, r) && Timely(p, r, q) :: ExpiryIdle(p, r, q)) <==> 2 * p.skew <= 1000
  {
    if 2 * p.skew <= 1000 {
      forall r, q | Reached(p, r) && Timely(p, r, q) ensures ExpiryIdle(p, r, q) {
        ExpiryNeverMatters(p, r, q);
      }
    } else {
      var r, q := ExpiryMatters(p);
    }
  }

  /** An admission never overwrites a stored member, whatever the clocks do, so the count that it
      reports is the size of the set. */
  lemma NeverOverwrites(p: Settings, r: Run, q: Request)
    requires p.Valid() && Reached(p, r)
    ensures var seen := Expire(r.store, q.clock); Member(q.now, seen.number + 1) !in seen.members
    ensures Answer(p, r, q).allowed ==> |Next(p, r, q).store.members| == Answer(p, r, q).count
  {
    ReachedInv(p, r);
  }
}
