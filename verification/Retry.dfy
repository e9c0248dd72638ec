/**
  Consuming with retries (internal/worker/retry.go).  A failed message is published again to its
  exchange with a higher retry count, so every queue bound to its routing key gets a new copy; after
  three retries it is rejected into the dead-letter queue.  The model follows all copies of one
  published message over `fanout` queues.
*/
module Retry {
  import opened Levels
  import opened Wrappers

  const MAX_RETRY_COUNT: int := 3
  const RETRY_HEADER := "x-retry-count"

  datatype HeaderValue = Int32(n: int) | Other(text: string)
  type Headers = map<string, HeaderValue>

  /** A missing header, or one of another type, counts as zero. */
  function GetRetryCount(headers: Headers): int {
    if RETRY_HEADER in headers && headers[RETRY_HEADER].Int32? then headers[RETRY_HEADER].n else 0
  }

  /** Where a copy stands.  `first` is the index of the first of the copies that replace it. */
  datatype Place =
    | Queued
    | Delivered
    | Succeeded
    | Failing
    | Replaced(first: nat)
    | Acked
    | Superseded(first: nat)
    | Dead

  datatype Copy = Copy(queue: nat, headers: Headers, body: string, place: Place)
  {
    function Count(): int { GetRetryCount(headers) }

    /** Still in its queue, or with a consumer that has not acknowledged it. */
    predicate Live() { !place.Acked? && !place.Superseded? && !place.Dead? }

    predicate Held() { place.Delivered? || place.Succeeded? || place.Failing? || place.Replaced? }
  }

  datatype State = State(fanout: nat, copies: seq<Copy>, calls: nat)

  /** The copies that a publish puts into the matching queues. */
  function Fresh(fanout: nat, headers: Headers, body: string): (c: seq<Copy>)
    ensures |c| == fanout
    ensures forall k | 0 <= k < fanout :: c[k] == Copy(k, headers, body, Queued)
  {
    seq(fanout, k requires 0 <= k < fanout => Copy(k, headers, body, Queued))
  }

  function Published(fanout: nat, body: string): State {
    State(fanout, Fresh(fanout, map[], body), 0)
  }

  datatype Action =
    | Deliver(i: nat)
    | Process(i: nat, ok: bool)
    | Ack(i: nat)
    | Reject(i: nat)
    | Republish(i: nat, outcome: Outcome)
    | Crash(i: nat)

  predicate Enabled(s: State, a: Action) {
    && a.i < |s.copies|
    && match a
       case Deliver(i) => s.copies[i].place.Queued?
       case Process(i, ok) => s.copies[i].place.Delivered?
       case Ack(i) => s.copies[i].place.Succeeded? || s.copies[i].place.Replaced?
       case Reject(i) => s.copies[i].place.Failing? && s.copies[i].Count() >= MAX_RETRY_COUNT
       case Republish(i, outcome) => s.copies[i].place.Failing? && s.copies[i].Count() < MAX_RETRY_COUNT
       case Crash(i) => s.copies[i].Held()
  }

  function Put(s: State, i: nat, place: Place): State
    requires i < |s.copies|
  {
    s.(copies := s.copies[i := s.copies[i].(place := place)])
  }

  /** Adds the copies made by publishing copy i again. */
  function Again(s: State, i: nat): State
    requires i < |s.copies|
  {
    var c := s.copies[i];
    s.(copies := s.copies + Fresh(s.fanout, c.headers[RETRY_HEADER := Int32(c.Count() + 1)], c.body))
  }

  function Step(s: State, a: Action): State
    requires Enabled(s, a)
  {
    match a
    case Deliver(i) => Put(s, i, Delivered)
    case Process(i, ok) => Put(s, i, if ok then Succeeded else Failing).(calls := s.calls + 1)
    case Ack(i) =>
      Put(s, i, if s.copies[i].place.Succeeded? then Acked else Superseded(s.copies[i].place.first))
    case Reject(i) => Put(s, i, Dead)
    case Republish(i, outcome) =>
      var made := if outcome.Applied() then Again(s, i) else s;
      Put(made, i, if outcome.Reported() then Replaced(|s.copies|) else Queued)
    case Crash(i) => Put(s, i, Queued)
  }

  predicate Possible(s: State, acts: seq<Action>)
    decreases |acts|, 0
  {
    acts == [] || (Possible(s, acts[..|acts| - 1]) && Enabled(After(s, acts[..|acts| - 1]), acts[|acts| - 1]))
  }

  function After(s: State, acts: seq<Action>): State
    requires Possible(s, acts)
    decreases |acts|, 1
  {
    if acts == [] then s else Step(After(s, acts[..|acts| - 1]), acts[|acts| - 1])
  }

  // ---------------------------------------------------------------- one delivery, as the program runs it

  /** What handling a delivered copy does when nothing disturbs it. */
  function Handled(s: State, i: nat, ok: bool, republish: Outcome): State
    requires i < |s.copies| && s.copies[i].place.Delivered?
  {
    var called := Step(s, Process(i, ok));
    if ok then Step(called, Ack(i))
    else if s.copies[i].Count() >= MAX_RETRY_COUNT then Step(called, Reject(i))
    else
      var republished := Step(called, Republish(i, republish));
      if republish.Reported() then Step(republished, Ack(i)) else republished
  }

  /** A new copy for queue q: it waits there with the given count, and with everything else as in the
      copy it was made from. */
  predicate MadeFrom(c: Copy, origin: Copy, q: nat, retryCount: int) {
    && c.queue == q && c.place.Queued? && c.Count() == retryCount && c.body == origin.body
    && "x-retry-count" in c.headers && c.headers["x-retry-count"] == Int32(retryCount)
    && c.headers - {"x-retry-count"} == origin.headers - {"x-retry-count"}
  }

  /** Nothing else is such a copy. */
  lemma MadeFromIsFresh(made: seq<Copy>, origin: Copy, fanout: nat, retryCount: int)
    requires |made| == fanout && forall q | 0 <= q < fanout :: MadeFrom(made[q], origin, q, retryCount)
    ensures made == Fresh(fanout, origin.headers[RETRY_HEADER := Int32(retryCount)], origin.body)
  {
    forall q: nat | q < fanout ensures made[q].headers == origin.headers[RETRY_HEADER := Int32(retryCount)] {
      assert MadeFrom(made[q], origin, q, retryCount);
      SameHeaders(made[q].headers, origin.headers[RETRY_HEADER := Int32(retryCount)]);
    }
  }

  lemma AppendedIsFresh(before: seq<Copy>, after: seq<Copy>, i: nat, count: nat, retryCount: int)
    requires i < |before| && before <= after && |after| == |before| + count
    requires forall k | |before| <= k < |after| :: MadeFrom(after[k], before[i], k - |before|, retryCount)
    ensures after == before + Fresh(count, before[i].headers[RETRY_HEADER := Int32(retryCount)], before[i].body)
  {
    var made := after[|before|..];
    assert forall q | 0 <= q < count :: made[q] == after[|before| + q];
    MadeFromIsFresh(made, before[i], count, retryCount);
    assert after == before + made;
  }

  lemma SameHeaders(a: Headers, b: Headers)
    requires RETRY_HEADER in a && RETRY_HEADER in b && a[RETRY_HEADER] == b[RETRY_HEADER]
    requires a - {RETRY_HEADER} == b - {RETRY_HEADER}
    ensures a == b
  {
    assert a == (a - {RETRY_HEADER})[RETRY_HEADER := a[RETRY_HEADER]];
    assert b == (b - {RETRY_HEADER})[RETRY_HEADER := b[RETRY_HEADER]];
  }

  /** A failed delivery with retries left: the copies are appended, and the old one gives way to them or
      goes back to its queue. */
  lemma HandledByRetry(s: State, i: nat, outcome: Outcome, copies: seq<Copy>)
    requires i < |s.copies| && s.copies[i].place.Delivered? && s.copies[i].Count() < MAX_RETRY_COUNT
    requires copies == if outcome.Applied() then Again(s, i).copies else s.copies
    ensures var place := if outcome.Reported() then Superseded(|s.copies|) else Queued;
            Handled(s, i, false, outcome) == State(s.fanout, copies[i := copies[i].(place := place)], s.calls + 1)
  {}

  class Consumer {
    const fanout: nat
    var copies: seq<Copy>
    var calls: nat

    function Abs(): State
      reads this
    {
      State(fanout, copies, calls)
    }

    constructor (s: State)
      ensures Abs() == s
    {
      fanout := s.fanout;
      copies := s.copies;
      calls := s.calls;
    }

    method RepublishForRetry(i: nat, retryCount: int, outcome: Outcome) returns (err: bool)
      requires i < |copies|
      modifies this`copies
      ensures err <==> !outcome.Reported()
      ensures old(copies) <= copies
      ensures |copies| == |old(copies)| + if outcome.Applied() then fanout else 0
      ensures forall k | |old(copies)| <= k < |copies| ::
                MadeFrom(copies[k], old(copies)[i], k - |old(copies)|, retryCount)
    {
      var headers := copies[i].headers;
      headers := headers[RETRY_HEADER := Int32(retryCount)];
      if outcome.Applied() {
        copies := copies + Fresh(fanout, headers, copies[i].body);
      }
      return !outcome.Reported();
    }

    method HandleMainDelivery(i: nat, ok: bool, republish: Outcome)
      requires i < |copies| && copies[i].place.Delivered?
      modifies this
      ensures Abs() == Handled(old(Abs()), i, ok, republish)
      ensures calls == old(calls) + 1 && |copies| >= |old(copies)|
      ensures forall k | 0 <= k < |old(copies)| && k != i :: copies[k] == old(copies)[k]
      ensures copies[i] == old(copies)[i].(place := copies[i].place)
      ensures ok ==> copies[i].place == Acked && |copies| == |old(copies)|
      ensures !ok && old(copies)[i].Count() >= 3 ==> copies[i].place == Dead && |copies| == |old(copies)|
      ensures !ok && old(copies)[i].Count() < 3 ==>
                && copies[i].place == (if republish == Done then Superseded(|old(copies)|) else Queued)
                && |copies| == |old(copies)| + (if republish == NotDone then 0 else fanout)
                && forall k | |old(copies)| <= k < |copies| ::
                     MadeFrom(copies[k], old(copies)[i], k - |old(copies)|, old(copies)[i].Count() + 1)
    {
      calls := calls + 1;
      if !ok {
        var retryCount := copies[i].Count();
        if retryCount >= MAX_RETRY_COUNT {
          copies := copies[i := copies[i].(place := Dead)];
          return;
        }
        var nextRetry := retryCount + 1;
        var first := |copies|;
        ghost var before := old(Abs());
        var err := RepublishForRetry(i, nextRetry, republish);
        AppendedIsFresh(before.copies, copies, i, if republish.Applied() then fanout else 0, nextRetry);
        HandledByRetry(before, i, republish, copies);
        if err {
          copies := copies[i := copies[i].(place := Queued)];
          return;
        }
        copies := copies[i := copies[i].(place := Superseded(first))];
        return;
      }
      copies := copies[i := copies[i].(place := Acked)];
    }
  }

  // ---------------------------------------------------------------- nothing is lost

  /** Copy i has been replaced by a full set of copies with the next retry count. */
  predicate ReplacedBy(s: State, i: nat, first: nat)
    requires i < |s.copies|
  {
    && i < first && first + s.fanout <= |s.copies|
    && (forall j | first <= j < first + s.fanout ::
          && s.copies[j].queue == j - first && s.copies[j].body == s.copies[i].body
          && s.copies[j].Count() == s.copies[i].Count() + 1)
  }

  predicate CopyOk(s: State, i: nat)
    requires i < |s.copies|
  {
    var c := s.copies[i];
    && c.queue < s.fanout
    && 0 <= c.Count() <= MAX_RETRY_COUNT
    && (c.place.Replaced? || c.place.Superseded? ==> ReplacedBy(s, i, c.place.first))
  }

  predicate Inv(s: State) {
    forall i | 0 <= i < |s.copies| :: CopyOk(s, i)
  }

  /** A step adds copies and moves one; queues, headers and bodies never change. */
  predicate Grows(s: State, t: State) {
    && t.fanout == s.fanout && |s.copies| <= |t.copies|
    && (forall i | 0 <= i < |s.copies| ::
          t.copies[i].queue == s.copies[i].queue && t.copies[i].body == s.copies[i].body
          && t.copies[i].headers == s.copies[i].headers)
  }

  lemma StepGrows(s: State, a: Action)
    requires Enabled(s, a)
    ensures Grows(s, Step(s, a))
  {}

  lemma GrowsKeepsReplaced(s: State, t: State, i: nat, first: nat)
    requires Grows(s, t) && i < |s.copies| && ReplacedBy(s, i, first)
    ensures ReplacedBy(t, i, first)
  {}

  lemma StepCopyOk(s: State, a: Action, i: nat)
    requires Inv(s) && Enabled(s, a) && i < |s.copies|
    ensures CopyOk(Step(s, a), i)
  {
    StepGrows(s, a);
    var t := Step(s, a);
    assert CopyOk(s, i);
    if s.copies[i].place.Replaced? || s.copies[i].place.Superseded? {
      GrowsKeepsReplaced(s, t, i, s.copies[i].place.first);
    }
  }

  lemma StepInv(s: State, a: Action)
    requires Inv(s) && Enabled(s, a)
    ensures Inv(Step(s, a))
    ensures Grows(s, Step(s, a))
  {
    StepGrows(s, a);
    var t := Step(s, a);
    assert CopyOk(s, a.i);
    forall i | 0 <= i < |t.copies| ensures CopyOk(t, i) {
      if i < |s.copies| {
        StepCopyOk(s, a, i);
      }
    }
  }

  lemma {:induction false} RunInv(s: State, acts: seq<Action>)
    requires Inv(s) && Possible(s, acts)
    ensures Inv(After(s, acts)) && Grows(s, After(s, acts))
  {
    if acts != [] {
      RunInv(s, acts[..|acts| - 1]);
      StepInv(After(s, acts[..|acts| - 1]), acts[|acts| - 1]);
    }
  }

  /** Where a copy stands says how its last call ended: acknowledged only after a success, replaced only after
      a failure with retries left, dead-lettered only after a failure of the third retry. */
  predicate Explained(acts: seq<Action>, c: Copy, i: nat) {
    && (c.place.Succeeded? || c.place.Acked? ==> Process(i, true) in acts)
    && (c.place.Failing? || c.place.Replaced? || c.place.Superseded? || c.place.Dead? ==> Process(i, false) in acts)
    && (c.place.Replaced? || c.place.Superseded? ==> c.Count() < 3)
    && (c.place.Dead? ==> c.Count() >= 3)
  }

  lemma StepExplains(s: State, a: Action, acts: seq<Action>, i: nat)
    requires Enabled(s, a) && i < |Step(s, a).copies|
    requires i < |s.copies| ==> Explained(acts, s.copies[i], i)
    ensures Explained(acts + [a], Step(s, a).copies[i], i)
  {
    assert a in acts + [a] && forall b | b in acts :: b in acts + [a];
  }

  lemma {:induction false} PlacesExplained(fanout: nat, body: string, acts: seq<Action>, i: nat)
    requires Possible(Published(fanout, body), acts) && i < |After(Published(fanout, body), acts).copies|
    ensures Explained(acts, After(Published(fanout, body), acts).copies[i], i)
  {
    if acts != [] {
      var front, a := acts[..|acts| - 1], acts[|acts| - 1];
      if i < |After(Published(fanout, body), front).copies| {
        PlacesExplained(fanout, body, front, i);
      }
      StepExplains(After(Published(fanout, body), front), a, front, i);
      assert front + [a] == acts;
    }
  }

  /** Follows a copy through its replacements in the same queue to the one that still counts. */
  lemma {:induction false} Successor(s: State, i: nat) returns (j: nat)
    requires Inv(s) && i < |s.copies|
    ensures i <= j < |s.copies|
    ensures s.copies[j].queue == s.copies[i].queue && s.copies[j].body == s.copies[i].body
    ensures s.copies[j].Live() || s.copies[j].place.Acked? || s.copies[j].place.Dead?
    decreases |s.copies| - i
  {
    assert CopyOk(s, i);
    if s.copies[i].place.Superseded? {
      var k := s.copies[i].place.first + s.copies[i].queue;
      j := Successor(s, k);
    } else {
      j := i;
    }
  }

  /** After any run with crashes, failed republishes and redeliveries, each queue that the message
      was published to still accounts for it: a copy of it in that queue is live, was processed
      successfully and acknowledged, or failed on its third retry and is dead-lettered. */
  lemma NothingLost(fanout: nat, body: string, acts: seq<Action>, queue: nat) returns (j: nat)
    requires Possible(Published(fanout, body), acts) && queue < fanout
    ensures var t := After(Published(fanout, body), acts);
            && j < |t.copies| && t.copies[j].queue == queue && t.copies[j].body == body
            && (t.copies[j].Live()
                || (t.copies[j].place.Acked? && Process(j, true) in acts)
                || (t.copies[j].place.Dead? && Process(j, false) in acts && t.copies[j].Count() == 3))
  {
    RunInv(Published(fanout, body), acts);
    j := Successor(After(Published(fanout, body), acts), queue);
    PlacesExplained(fanout, body, acts, j);
    assert CopyOk(After(Published(fanout, body), acts), j);
  }

  // ---------------------------------------------------------------- how many calls

  datatype Measure = CallsLeft(f: nat) | ActionsLeft(f: nat)
  {
    /** How many process calls, or at most how many actions, a copy can still cause.  Each call comes
        with at most three other actions. */
    function Of(c: Copy): nat {
      match this
      case CallsLeft(_) => (
        match c.place
        case Queued => Weight(f, c.Count())
        case Delivered => Weight(f, c.Count())
        case Failing => f * Weight(f, c.Count() + 1)
        case _ => 0)
      case ActionsLeft(_) => (
        match c.place
        case Queued => 4 * Weight(f, c.Count())
        case Delivered => if Weight(f, c.Count()) == 0 then 0 else 4 * Weight(f, c.Count()) - 1
        case Failing => 4 * (f * Weight(f, c.Count() + 1)) + 2
        case Succeeded => 1
        case Replaced(_) => 1
        case _ => 0)
    }

    function Sum(copies: seq<Copy>): nat {
      if copies == [] then 0 else Of(copies[0]) + Sum(copies[1..])
    }
  }

  lemma SumUpdate(m: Measure, copies: seq<Copy>, i: nat, c: Copy)
    requires i < |copies|
    ensures m.Sum(copies[i := c]) == m.Sum(copies) - m.Of(copies[i]) + m.Of(c)
  {
    if i == 0 {
      assert copies[i := c][1..] == copies[1..];
    } else {
      assert copies[i := c][1..] == copies[1..][i - 1 := c];
      SumUpdate(m, copies[1..], i - 1, c);
    }
  }

  lemma SumAppend(m: Measure, copies: seq<Copy>, more: seq<Copy>)
    ensures m.Sum(copies + more) == m.Sum(copies) + m.Sum(more)
  {
    if copies == [] {
      assert copies + more == more;
    } else {
      assert (copies + more)[1..] == copies[1..] + more;
      SumAppend(m, copies[1..], more);
    }
  }

  lemma OneMore(n: nat, w: nat)
    ensures (n + 1) * w == w + n * w
  {}

  lemma {:induction false} SumSame(m: Measure, copies: seq<Copy>, w: nat)
    requires forall i | 0 <= i < |copies| :: m.Of(copies[i]) == w
    ensures m.Sum(copies) == |copies| * w
  {
    if copies != [] {
      SumSame(m, copies[1..], w);
      OneMore(|copies| - 1, w);
    }
  }

  /** No crash, and every republish succeeds. */
  predicate FaultFree(acts: seq<Action>) {
    forall a | a in acts :: !a.Crash? && (a.Republish? ==> a.outcome.Done?)
  }

  predicate AllFail(acts: seq<Action>) {
    forall a | a in acts :: a.Process? ==> !a.ok
  }

  function Calls(s: State): nat {
    CallsLeft(s.fanout).Sum(s.copies)
  }

  function Actions(s: State): nat {
    ActionsLeft(s.fanout).Sum(s.copies)
  }

  /** How a step changes a sum over the copies. */
  lemma StepSum(m: Measure, s: State, a: Action, w: nat)
    requires Enabled(s, a) && FaultFree([a])
    requires a.Republish? ==>
               forall c: Copy :: c.place.Queued? && c.Count() == s.copies[a.i].Count() + 1 ==> m.Of(c) == w
    ensures m.Sum(Step(s, a).copies)
            == m.Sum(s.copies) - m.Of(s.copies[a.i]) + m.Of(Step(s, a).copies[a.i])
               + if a.Republish? then s.fanout * w else 0
  {
    assert a in [a];
    var t := Step(s, a);
    if a.Republish? {
      var made := Again(s, a.i).copies[|s.copies|..];
      SumSame(m, made, w);
      SumAppend(m, s.copies, made);
      assert Again(s, a.i).copies == s.copies + made;
      SumUpdate(m, s.copies + made, a.i, t.copies[a.i]);
    } else {
      SumUpdate(m, s.copies, a.i, t.copies[a.i]);
    }
  }

  /** The copy that an action is about pays for a call and for the copies it makes. */
  lemma CallIsPaid(s: State, a: Action)
    requires Inv(s) && Enabled(s, a) && FaultFree([a])
    ensures var m, c := CallsLeft(s.fanout), s.copies[a.i];
            var spent := m.Of(Step(s, a).copies[a.i]) + (if a.Process? then 1 else 0)
                         + (if a.Republish? then s.fanout * Weight(s.fanout, c.Count() + 1) else 0);
            && spent <= m.Of(c) && (AllFail([a]) ==> spent == m.Of(c))
  {
    assert a in [a];
    assert CopyOk(s, a.i);
  }

  lemma StepCalls(s: State, a: Action)
    requires Inv(s) && Enabled(s, a) && FaultFree([a])
    ensures Step(s, a).calls + Calls(Step(s, a)) <= s.calls + Calls(s)
    ensures AllFail([a]) ==> Step(s, a).calls + Calls(Step(s, a)) == s.calls + Calls(s)
  {
    StepSum(CallsLeft(s.fanout), s, a, Weight(s.fanout, s.copies[a.i].Count() + 1));
    CallIsPaid(s, a);
  }

  /** The copy that an action is about pays for the action and for the copies it makes. */
  lemma ActionIsPaid(s: State, a: Action)
    requires Inv(s) && Enabled(s, a) && FaultFree([a])
    ensures var m, c := ActionsLeft(s.fanout), s.copies[a.i];
            m.Of(Step(s, a).copies[a.i]) + 1
            + (if a.Republish? then 4 * (s.fanout * Weight(s.fanout, c.Count() + 1)) else 0) <= m.Of(c)
  {
    assert a in [a];
    assert CopyOk(s, a.i);
  }

  lemma StepActions(s: State, a: Action)
    requires Inv(s) && Enabled(s, a) && FaultFree([a])
    ensures Actions(Step(s, a)) + 1 <= Actions(s)
  {
    var w := Weight(s.fanout, s.copies[a.i].Count() + 1);
    StepSum(ActionsLeft(s.fanout), s, a, 4 * w);
    FourTimes(s.fanout, w);
    ActionIsPaid(s, a);
  }

  lemma FourTimes(f: nat, w: nat)
    ensures f * (4 * w) == 4 * (f * w)
  {}

  lemma {:induction false} RunCounts(s: State, acts: seq<Action>)
    requires Inv(s) && Possible(s, acts) && FaultFree(acts)
    ensures After(s, acts).calls + Calls(After(s, acts)) <= s.calls + Calls(s)
    ensures AllFail(acts) ==> After(s, acts).calls + Calls(After(s, acts)) == s.calls + Calls(s)
    ensures |acts| + Actions(After(s, acts)) <= Actions(s)
  {
    if acts != [] {
      var front, a := acts[..|acts| - 1], acts[|acts| - 1];
      assert a in acts && forall b | b in front :: b in acts;
      RunCounts(s, front);
      RunInv(s, front);
      assert forall b | b in [a] :: b in acts;
      StepCalls(After(s, front), a);
      StepActions(After(s, front), a);
    }
  }

  /** Nothing is left to deliver or decide. */
  predicate Drained(s: State) {
    forall i | 0 <= i < |s.copies| :: !s.copies[i].Live()
  }

  lemma DrainedCalls(f: nat, copies: seq<Copy>)
    requires forall i | 0 <= i < |copies| :: !copies[i].Live()
    ensures CallsLeft(f).Sum(copies) == 0
  {
    if copies != [] {
      DrainedCalls(f, copies[1..]);
    }
  }

  /** Without faults one message published to f queues causes at most f + f^2 + f^3 + f^4 process
      calls, and its handling ends.  When every call fails, exactly that many are made: 4 for one
      queue, 30 for the two queues of a like. */
  lemma CallsBounded(f: nat, body: string, acts: seq<Action>)
    requires Possible(Published(f, body), acts) && FaultFree(acts)
    ensures After(Published(f, body), acts).calls <= Bound(f)
    ensures |acts| <= 4 * Bound(f)
    ensures AllFail(acts) && Drained(After(Published(f, body), acts)) ==>
              After(Published(f, body), acts).calls == Bound(f)
    ensures Bound(1) == 4 && Bound(2) == 30
  {
    var s := Published(f, body);
    RunCounts(s, acts);
    SumSame(CallsLeft(f), s.copies, Weight(f, 0));
    SumSame(ActionsLeft(f), s.copies, 4 * Weight(f, 0));
    WeightZero(f);
    FourTimes(f, Weight(f, 0));
    if Drained(After(s, acts)) {
      RunInv(s, acts);
      DrainedCalls(f, After(s, acts).copies);
    }
  }
}
