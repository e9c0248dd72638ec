/**
  The global timeline: a Redis sorted set of video ids scored by creation time
  (internal/worker/timeline_worker.go).  Consumers run ZADD and then a trim to the newest 1000 as
  two separate commands, so the commands of several consumers interleave.
*/
module Timeline {
  import opened Wrappers
  import opened Ranking

  const TIMELINE_LIMIT: nat := 1000

  /** A sorted set: member to score. */
  type ZSet = map<nat, int>

  datatype Entry = Entry(score: int, member: nat)

  /** The decimal digits of a member.  Redis breaks score ties by comparing members as bytes. */
  function Digits(n: nat): (d: seq<int>)
    ensures d != []
  {
    if n < 10 then [n] else Digits(n / 10) + [n % 10]
  }

  lemma {:induction false} DigitsInjective(m: nat, n: nat)
    requires Digits(m) == Digits(n)
    ensures m == n
  {
    if m >= 10 && n >= 10 {
      var a, b := Digits(m / 10), Digits(n / 10);
      assert (a + [m % 10])[|a|] == m % 10 && (b + [n % 10])[|b|] == n % 10;
      assert (a + [m % 10])[..|a|] == a && (b + [n % 10])[..|b|] == b;
      DigitsInjective(m / 10, n / 10);
    }
  }

  function EntryKey(e: Entry): Key {
    [e.score] + Digits(e.member)
  }

  lemma EntriesDistinct(S: set<Entry>)
    ensures Distinct(S, EntryKey)
  {
    forall x, y | x in S && y in S && EntryKey(x) == EntryKey(y) ensures x == y {
      assert EntryKey(x)[1..] == Digits(x.member) && EntryKey(y)[1..] == Digits(y.member);
      assert EntryKey(x)[0] == x.score && EntryKey(y)[0] == y.score;
      DigitsInjective(x.member, y.member);
    }
  }

  /** Of two videos of one millisecond, the one whose id comes later as a text ranks higher: 9 before 10. */
  lemma TiesByText(score: int)
    ensures Less(EntryKey(Entry(score, 10)), EntryKey(Entry(score, 9)))
    ensures Less(EntryKey(Entry(score, 1)), EntryKey(Entry(score, 10)))
  {
    assert Digits(10) == [1, 0] && Digits(9) == [9] && Digits(1) == [1];
    assert EntryKey(Entry(score, 10))[1..] == [1, 0] && EntryKey(Entry(score, 9))[1..] == [9];
    assert EntryKey(Entry(score, 1))[1..] == [1];
    assert [1, 0][1..] == [0] && [1][1..] == [];
  }

  /** A higher rank never goes with a lower score. */
  lemma ScoreOrder(x: Entry, y: Entry)
    requires Less(EntryKey(x), EntryKey(y))
    ensures x.score <= y.score && x != y
  {
    assert EntryKey(x)[0] == x.score && EntryKey(y)[0] == y.score;
    LessIrreflexive(EntryKey(x));
  }

  function Entries(z: ZSet): set<Entry> {
    set m | m in z :: Entry(z[m], m)
  }

  lemma EntriesSize(z: ZSet)
    ensures |Entries(z)| == |z|
  {
    if z != map[] {
      var m :| m in z;
      var rest := z - {m};
      assert z == rest[m := z[m]];
      assert Entries(z) == Entries(rest) + {Entry(z[m], m)};
      EntriesSize(rest);
    }
  }

  /** The sorted set from the newest entry to the oldest. */
  function Newest(S: set<Entry>, n: nat): (s: seq<Entry>)
    ensures |s| == (if |S| < n then |S| else n)
    ensures Elements(s) <= S && Descending(s, EntryKey)
  {
    EntriesDistinct(S);
    First(S, EntryKey, n)
  }

  function NewestSet(S: set<Entry>, n: nat): (t: set<Entry>)
    ensures t <= S
  {
    Elements(Newest(S, n))
  }

  /** ZRANGE order: from the lowest rank up. */
  function Ascending(S: set<Entry>): (s: seq<Entry>)
    ensures |s| == |S|
  {
    EntriesDistinct(S);
    var r := Ranked(S, EntryKey);
    seq(|r|, i requires 0 <= i < |r| => r[|r| - 1 - i])
  }

  /** A negative index counts from the end of the listing. */
  function Resolve(index: int, size: nat): int {
    if index < 0 then size + index else index
  }

  /** The entries at ranks start to stop, both included, clipped to the listing. */
  function RankRange(S: set<Entry>, start: int, stop: int): set<Entry> {
    var n := |S|;
    var lo := if Resolve(start, n) < 0 then 0 else Resolve(start, n);
    var hi := if Resolve(stop, n) >= n then n - 1 else Resolve(stop, n);
    if lo > hi || lo >= n then {} else Elements(Ascending(S)[lo..hi + 1])
  }

  function Without(z: ZSet, gone: set<Entry>): ZSet {
    map m | m in z && Entry(z[m], m) !in gone :: z[m]
  }

  lemma EntriesWithout(z: ZSet, gone: set<Entry>)
    ensures Entries(Without(z, gone)) == Entries(z) - gone
  {
    forall e ensures e in Entries(Without(z, gone)) <==> e in Entries(z) - gone {
      var w := Without(z, gone);
      assert e in Entries(w) <==> e.member in w && w[e.member] == e.score;
      assert e in Entries(z) <==> e.member in z && z[e.member] == e.score;
    }
  }

  function RemRangeByRank(z: ZSet, start: int, stop: int): ZSet {
    Without(z, RankRange(Entries(z), start, stop))
  }

  /** The trim that the worker issues. */
  function Trim(z: ZSet): ZSet {
    RemRangeByRank(z, 0, -(TIMELINE_LIMIT + 1))
  }

  /** Removing ranks 0 to -1001 keeps exactly the newest 1000 entries. */
  lemma TrimKeepsNewest(z: ZSet)
    ensures Entries(Trim(z)) == NewestSet(Entries(z), TIMELINE_LIMIT)
    ensures |Trim(z)| <= TIMELINE_LIMIT
  {
    RemovedRanks(Entries(z));
    EntriesWithout(z, RankRange(Entries(z), 0, -(TIMELINE_LIMIT + 1)));
    EntriesSize(Trim(z));
    SmallElements(Newest(Entries(z), TIMELINE_LIMIT));
  }

  lemma RemovedRanks(S: set<Entry>)
    ensures S - RankRange(S, 0, -(TIMELINE_LIMIT + 1)) == NewestSet(S, TIMELINE_LIMIT)
  {
    EntriesDistinct(S);
    var r, n := Ranked(S, EntryKey), |S|;
    if n <= TIMELINE_LIMIT {
      NewestCount(S, TIMELINE_LIMIT);
    } else {
      var old' := Ascending(S)[0..n - TIMELINE_LIMIT];
      assert RankRange(S, 0, -(TIMELINE_LIMIT + 1)) == Elements(old');
      SplitElements(r, EntryKey, TIMELINE_LIMIT);
      SameReversed(old', r[TIMELINE_LIMIT..]);
    }
  }

  // ---------------------------------------------------------------- one delivery

  /** A message body as the worker sees it after decoding. */
  datatype Body = Malformed | Event(videoId: nat, createTime: int)

  predicate Usable(body: Body) {
    body.Event? && body.videoId != 0 && body.createTime != 0
  }

  function AfterZAdd(z: ZSet, body: Body, zadd: Outcome): ZSet
    requires body.Event?
  {
    if zadd.Applied() then z[body.videoId := body.createTime] else z
  }

  function AfterProcess(z: ZSet, body: Body, zadd: Outcome, trim: Outcome): ZSet {
    if !Usable(body) then z
    else
      var z' := AfterZAdd(z, body, zadd);
      if zadd.Reported() && trim.Applied() then Trim(z') else z'
  }

  class TimelineWorker {
    var timeline: ZSet

    constructor ()
      ensures timeline == map[]
    {
      timeline := map[];
    }

    method ZAdd(member: nat, score: int, outcome: Outcome) returns (ok: bool)
      modifies this
      ensures ok == outcome.Reported()
      ensures timeline == if outcome.Applied() then old(timeline)[member := score] else old(timeline)
    {
      if outcome.Applied() {
        timeline := timeline[member := score];
      }
      return outcome.Reported();
    }

    method ZRemRangeByRank(start: int, stop: int, outcome: Outcome) returns (ok: bool)
      modifies this
      ensures ok == outcome.Reported()
      ensures timeline ==
              if outcome.Applied() then RemRangeByRank(old(timeline), start, stop) else old(timeline)
    {
      if outcome.Applied() {
        timeline := RemRangeByRank(timeline, start, stop);
      }
      return outcome.Reported();
    }

    /** Handles one delivery.  Unusable bodies are dropped, a failed ZADD is reported, a failed trim
        is not. */
    method Process(body: Body, zadd: Outcome, trim: Outcome) returns (err: bool)
      modifies this
      ensures timeline == AfterProcess(old(timeline), body, zadd, trim)
      ensures forall id, time | body == Event(id, time) && id != 0 && time != 0 ::
                && (err <==> zadd != Done)
                && (zadd == Done && trim != NotDone ==>
                      Entries(timeline) == NewestSet(Entries(old(timeline)[id := time]), 1000))
                && (zadd == DoneUnseen || (zadd == Done && trim == NotDone) ==> timeline == old(timeline)[id := time])
                && (zadd == NotDone ==> timeline == old(timeline))
      ensures body.Malformed? || body.videoId == 0 || body.createTime == 0 ==> timeline == old(timeline) && !err
      ensures err <==> Usable(body) && !zadd.Reported()
    {
      if body.Malformed? {
        return false;
      }
      if body.videoId == 0 || body.createTime == 0 {
        return false;
      }
      var added := ZAdd(body.videoId, body.createTime, zadd);
      if !added {
        return true;
      }
      TrimKeepsNewest(timeline);
      var _ := ZRemRangeByRank(0, -1001, trim);
      return false;
    }
  }

  // ---------------------------------------------------------------- any interleaving

  /** One Redis command of some consumer. */
  datatype Command = Add(member: nat, score: int) | TrimTo1000

  function Apply(z: ZSet, c: Command): ZSet {
    match c
    case Add(m, s) => z[m := s]
    case TrimTo1000 => Trim(z)
  }

  function Run(commands: seq<Command>): ZSet {
    if commands == [] then map[]
    else Apply(Run(commands[..|commands| - 1]), commands[|commands| - 1])
  }

  /** Everything that was ever added. */
  function Added(commands: seq<Command>): set<Entry> {
    set c | c in commands && c.Add? :: Entry(c.score, c.member)
  }

  /** Every event of one video carries the creation time of its row. */
  predicate Consistent(commands: seq<Command>) {
    forall c, d | c in commands && d in commands :: c.Add? && d.Add? && c.member == d.member ==> c.score == d.score
  }

  /** What holds between any two commands. */
  predicate Sandwiched(z: ZSet, added: set<Entry>) {
    NewestSet(added, TIMELINE_LIMIT) <= Entries(z) <= added
  }

  /** Two entries never disagree on the score of a member. */
  predicate Functional(S: set<Entry>) {
    forall e, f | e in S && f in S :: e.member == f.member ==> e.score == f.score
  }

  lemma AddKeepsSandwich(z: ZSet, added: set<Entry>, m: nat, s: int)
    requires Sandwiched(z, added)
    requires Functional(added + {Entry(s, m)})
    ensures Sandwiched(z[m := s], added + {Entry(s, m)})
    ensures Entries(z[m := s]) == Entries(z) + {Entry(s, m)}
  {
    assert m in z ==> z[m] == s by {
      if m in z {
        assert Entry(z[m], m) in Entries(z);
      }
    }
    EntriesUpdate(z, m, s);
    NewestMonotone(added, added + {Entry(s, m)});
  }

  lemma EntriesUpdate(z: ZSet, m: nat, s: int)
    requires m in z ==> z[m] == s
    ensures Entries(z[m := s]) == Entries(z) + {Entry(s, m)}
  {
    var z' := z[m := s];
    forall e ensures e in Entries(z') <==> e in Entries(z) + {Entry(s, m)} {
      assert e in Entries(z') <==> e.member in z' && z'[e.member] == e.score;
      assert e in Entries(z) <==> e.member in z && z[e.member] == e.score;
    }
  }

  /** Growing a set can only push entries out of its newest n. */
  lemma NewestMonotone(S: set<Entry>, T: set<Entry>)
    requires S <= T
    ensures NewestSet(T, TIMELINE_LIMIT) * S <= NewestSet(S, TIMELINE_LIMIT)
  {
    forall x | x in NewestSet(T, TIMELINE_LIMIT) * S ensures x in NewestSet(S, TIMELINE_LIMIT) {
      if x !in NewestSet(S, TIMELINE_LIMIT) {
        PushedOutStaysOut(S, T, x);
      }
    }
  }

  lemma PushedOutStaysOut(S: set<Entry>, T: set<Entry>, x: Entry)
    requires S <= T && x in S && x !in NewestSet(S, TIMELINE_LIMIT)
    ensures x !in NewestSet(T, TIMELINE_LIMIT)
  {
    var n := TIMELINE_LIMIT;
    if x in NewestSet(T, n) {
      forall y | y in NewestSet(S, n) ensures y in NewestSet(T, n) {
        OutrankedFirst(S, T, x, y);
      }
      NewestCount(S, n);
      NewestCount(T, n);
      SubsetSize(NewestSet(S, n) + {x}, NewestSet(T, n));
    }
  }

  lemma OutrankedFirst(S: set<Entry>, T: set<Entry>, x: Entry, y: Entry)
    requires S <= T && x in S && x !in NewestSet(S, TIMELINE_LIMIT) && y in NewestSet(S, TIMELINE_LIMIT)
    requires x in NewestSet(T, TIMELINE_LIMIT)
    ensures y in NewestSet(T, TIMELINE_LIMIT)
  {
    EntriesDistinct(S);
    EntriesDistinct(T);
    if y !in NewestSet(T, TIMELINE_LIMIT) {
      FirstOutranks(S, EntryKey, TIMELINE_LIMIT, y, x);
      FirstOutranks(T, EntryKey, TIMELINE_LIMIT, x, y);
      LessAsymmetric(EntryKey(x), EntryKey(y));
    }
  }

  lemma NewestCount(S: set<Entry>, n: nat)
    ensures |NewestSet(S, n)| == |Newest(S, n)|
    ensures |S| <= n ==> NewestSet(S, n) == S
  {
    DescendingSize(Newest(S, n), EntryKey);
    EntriesDistinct(S);
    if |S| <= n {
      assert Newest(S, n) == Ranked(S, EntryKey);
    }
  }

  lemma TrimKeepsSandwich(z: ZSet, added: set<Entry>)
    requires Sandwiched(z, added)
    ensures Sandwiched(Trim(z), added)
    ensures Entries(Trim(z)) == NewestSet(added, TIMELINE_LIMIT)
  {
    TrimKeepsNewest(z);
    EntriesDistinct(added);
    FirstSandwich(added, Entries(z), EntryKey, TIMELINE_LIMIT);
  }

  lemma {:induction false} RunSandwiched(commands: seq<Command>)
    requires Consistent(commands)
    ensures Sandwiched(Run(commands), Added(commands))
  {
    if commands != [] {
      var init, c := commands[..|commands| - 1], commands[|commands| - 1];
      assert commands == init + [c];
      RunSandwiched(init);
      match c {
        case Add(m, s) =>
          assert Added(commands) == Added(init) + {Entry(s, m)};
          AddKeepsSandwich(Run(init), Added(init), m, s);
        case TrimTo1000 =>
          assert Added(commands) == Added(init);
          TrimKeepsSandwich(Run(init), Added(init));
      }
    }
  }

  /** The commands up to the last trim, that trim included. */
  function LastTrim(commands: seq<Command>): (k: nat)
    ensures k <= |commands|
    ensures forall i | k <= i < |commands| :: commands[i].Add?
  {
    if commands == [] || commands[|commands| - 1].TrimTo1000? then |commands|
    else LastTrim(commands[..|commands| - 1])
  }

  /** The newest 1000 of what was added by the last trim, and all that was added since. */
  function LeftOver(commands: seq<Command>): set<Entry> {
    var k := LastTrim(commands);
    NewestSet(Added(commands[..k]), TIMELINE_LIMIT) + Added(commands[k..])
  }

  lemma LeftOverAdds(init: seq<Command>, m: nat, s: int)
    ensures LeftOver(init + [Add(m, s)]) == LeftOver(init) + {Entry(s, m)}
  {
    var commands := init + [Add(m, s)];
    var k := LastTrim(init);
    LastTrimStays(init, m, s);
    assert commands[..k] == init[..k] && commands[k..] == init[k..] + [Add(m, s)];
    AddedSnoc(init[k..], m, s);
  }

  lemma LastTrimStays(init: seq<Command>, m: nat, s: int)
    ensures LastTrim(init + [Add(m, s)]) == LastTrim(init)
  {
    assert (init + [Add(m, s)])[..|init|] == init;
  }

  lemma AddedSnoc(init: seq<Command>, m: nat, s: int)
    ensures Added(init + [Add(m, s)]) == Added(init) + {Entry(s, m)}
  {
    var commands := init + [Add(m, s)];
    forall e ensures e in Added(commands) <==> e in Added(init) || e == Entry(s, m) {
      assert Add(m, s) in commands && forall c | c in init :: c in commands;
    }
  }

  lemma LeftOverTrims(init: seq<Command>)
    ensures LeftOver(init + [TrimTo1000]) == NewestSet(Added(init), TIMELINE_LIMIT)
  {
    var commands := init + [TrimTo1000];
    assert LastTrim(commands) == |commands|;
    assert commands[..|commands|] == commands && commands[|commands|..] == [];
    assert Added(commands) == Added(init) && Added([]) == {};
  }

  /** So every run comes to this, however its commands interleave. */
  lemma {:induction false} RunLeavesOver(commands: seq<Command>)
    requires Consistent(commands)
    ensures Entries(Run(commands)) == LeftOver(commands)
  {
    if commands == [] {
      assert LastTrim([]) == 0 && Added([]) == {};
    } else {
      var init, c := commands[..|commands| - 1], commands[|commands| - 1];
      assert commands == init + [c];
      RunLeavesOver(init);
      RunSandwiched(init);
      match c {
        case Add(m, s) =>
          LeftOverAdds(init, m, s);
          OneMoreFunctional(init, m, s);
          AddKeepsSandwich(Run(init), Added(init), m, s);
        case TrimTo1000 =>
          LeftOverTrims(init);
          TrimKeepsSandwich(Run(init), Added(init));
      }
    }
  }

  lemma OneMoreFunctional(init: seq<Command>, m: nat, s: int)
    requires Consistent(init + [Add(m, s)])
    ensures Functional(Added(init) + {Entry(s, m)})
  {
    var commands := init + [Add(m, s)];
    assert Add(m, s) in commands && forall c | c in init :: c in commands;
    forall e | e in Added(init) ensures Add(e.member, e.score) in init {}
  }

  lemma ExactIffSmall(commands: seq<Command>)
    requires Consistent(commands)
    ensures Entries(Run(commands)) == NewestSet(Added(commands), TIMELINE_LIMIT) <==> |Run(commands)| <= TIMELINE_LIMIT
    ensures commands != [] && commands[|commands| - 1].TrimTo1000? ==> |Run(commands)| <= TIMELINE_LIMIT
  {
    RunSandwiched(commands);
    ExactWhenSmall(Run(commands), Added(commands));
    if commands != [] && commands[|commands| - 1].TrimTo1000? {
      TrimKeepsNewest(Run(commands[..|commands| - 1]));
    }
  }

  /** In every interleaving of ZADDs and trims, with duplicates and in any order, the sorted set
      holds the newest 1000 of everything ever added and nothing that was never added.  It is
      exactly the newest 1000 if and only if the newest 1000 of what was added by the last trim and
      what was added since are together at most 1000 entries. */
  lemma Confluence(commands: seq<Command>)
    requires Consistent(commands)
    ensures NewestSet(Added(commands), TIMELINE_LIMIT) <= Entries(Run(commands)) <= Added(commands)
    ensures Entries(Run(commands)) == NewestSet(Added(commands), TIMELINE_LIMIT)
            <==> |LeftOver(commands)| <= TIMELINE_LIMIT
  {
    RunSandwiched(commands);
    RunLeavesOver(commands);
    EntriesSize(Run(commands));
    ExactIffSmall(commands);
  }

  lemma ExactWhenSmall(z: ZSet, added: set<Entry>)
    requires Sandwiched(z, added)
    ensures Entries(z) == NewestSet(added, TIMELINE_LIMIT) <==> |z| <= TIMELINE_LIMIT
  {
    EntriesSize(z);
    NewestCount(added, TIMELINE_LIMIT);
    NewestCount(Entries(z), TIMELINE_LIMIT);
    EntriesDistinct(added);
    FirstSandwich(added, Entries(z), EntryKey, TIMELINE_LIMIT);
  }

  /** The order and the number of the ZADDs do not matter once a trim has run. */
  lemma OrderIrrelevant(left: seq<Command>, right: seq<Command>)
    requires Consistent(left) && Consistent(right)
    requires Added(left) == Added(right)
    requires left != [] && left[|left| - 1].TrimTo1000?
    requires right != [] && right[|right| - 1].TrimTo1000?
    ensures Run(left) == Run(right)
  {
    ExactIffSmall(left);
    ExactIffSmall(right);
    EntriesInjective(Run(left), Run(right));
  }

  lemma EntriesInjective(y: ZSet, z: ZSet)
    requires Entries(y) == Entries(z)
    ensures y == z
  {
    forall m | m in y ensures m in z && z[m] == y[m] {
      assert Entry(y[m], m) in Entries(z);
    }
    forall m | m in z ensures m in y {
      assert Entry(z[m], m) in Entries(y);
    }
  }

  // ---------------------------------------------------------------- deliveries as commands

  /** The commands of one delivery that take effect. */
  function CommandsOf(body: Body, zadd: Outcome, trim: Outcome): seq<Command> {
    if !Usable(body) || !zadd.Applied() then []
    else [Add(body.videoId, body.createTime)] + if zadd.Reported() && trim.Applied() then [TrimTo1000] else []
  }

  /** A delivery is an add and then a trim, cut short by what fails. */
  lemma DeliveryIsCommands(commands: seq<Command>, body: Body, zadd: Outcome, trim: Outcome)
    ensures AfterProcess(Run(commands), body, zadd, trim) == Run(commands + CommandsOf(body, zadd, trim))
  {
    if Usable(body) && zadd.Applied() {
      var add := Add(body.videoId, body.createTime);
      assert (commands + [add])[..|commands|] == commands;
      assert Run(commands + [add]) == AfterZAdd(Run(commands), body, zadd);
      if zadd.Reported() && trim.Applied() {
        var both := commands + [add, TrimTo1000];
        assert both[..|both| - 1] == commands + [add];
        assert commands + CommandsOf(body, zadd, trim) == both;
      } else {
        assert commands + CommandsOf(body, zadd, trim) == commands + [add];
      }
    } else {
      assert commands + CommandsOf(body, zadd, trim) == commands;
    }
  }

  datatype Handling = Handling(body: Body, zadd: Outcome, trim: Outcome)

  /** What a worker makes of an empty timeline by handling deliveries one by one. */
  function AfterAll(ds: seq<Handling>): ZSet {
    if ds == [] then map[]
    else AfterProcess(AfterAll(ds[..|ds| - 1]), ds[|ds| - 1].body, ds[|ds| - 1].zadd, ds[|ds| - 1].trim)
  }

  function AllCommands(ds: seq<Handling>): seq<Command> {
    if ds == [] then []
    else AllCommands(ds[..|ds| - 1]) + CommandsOf(ds[|ds| - 1].body, ds[|ds| - 1].zadd, ds[|ds| - 1].trim)
  }

  /** So a worker's deliveries are one of the runs of commands that Confluence is about. */
  lemma {:induction false} DeliveriesAreCommands(ds: seq<Handling>)
    ensures AfterAll(ds) == Run(AllCommands(ds))
  {
    if ds != [] {
      var init, d := ds[..|ds| - 1], ds[|ds| - 1];
      DeliveriesAreCommands(init);
      DeliveryIsCommands(AllCommands(init), d.body, d.zadd, d.trim);
    }
  }

  // ---------------------------------------------------------------- a timeline that stays too long

  /** The first n videos arrive in order, and every trim fails. */
  function LostTrims(n: nat): (ds: seq<Handling>)
    ensures |ds| == n
  {
    seq(n, i requires 0 <= i < n => Handling(Event(i + 1, i + 1), Done, NotDone))
  }

  function Backlog(n: nat): (z: ZSet)
    ensures |z| == n && forall m | m in z :: m <= n
  {
    if n == 0 then map[] else Backlog(n - 1)[n := n]
  }

  lemma {:induction false} LostTrimsPileUp(n: nat)
    ensures AfterAll(LostTrims(n)) == Backlog(n)
    ensures forall c | c in AllCommands(LostTrims(n)) :: c.Add? && c.score == c.member
  {
    if n == 0 {
      assert LostTrims(0) == [];
    } else {
      LostTrimsPileUp(n - 1);
      assert LostTrims(n)[..n - 1] == LostTrims(n - 1);
    }
  }

  /** After 1001 deliveries whose trims fail the timeline is not the newest 1000, although every
      delivery was reported as handled. */
  lemma FailedTrimsLeaveTooMany()
    ensures var ds := LostTrims(TIMELINE_LIMIT + 1);
            && |AfterAll(ds)| == TIMELINE_LIMIT + 1
            && Entries(AfterAll(ds)) != NewestSet(Added(AllCommands(ds)), TIMELINE_LIMIT)
  {
    var ds := LostTrims(TIMELINE_LIMIT + 1);
    LostTrimsPileUp(TIMELINE_LIMIT + 1);
    DeliveriesAreCommands(ds);
    ExactIffSmall(AllCommands(ds));
  }
}
