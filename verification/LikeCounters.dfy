/**
  likes_count and popularity are kept beside the like and comment rows they are derived from.  A worker
  changes a row, then one counter, then the other, in three statements (internal/worker/like_worker.go and
  comment_worker.go); the services' fallback does all three in one transaction
  (internal/api/like/service.go and comment/service.go).  The steps of several workers interleave, any
  statement can fail with or without effect, and a worker can stop between two of them.
*/
module LikeCounters {
  import opened Wrappers

  datatype Like = Like(video: nat, account: nat)

  datatype Counters = Counters(author: nat, likes: nat, popularity: nat)

  /** Comments are kept by event id. */
  datatype Db = Db(videos: map<nat, Counters>, likes: set<Like>, comments: map<nat, nat>)

  /** What a worker has still to add or take away for the row it changed. */
  datatype Job = Idle | Counting(video: nat, up: bool) | Heating(video: nat, up: bool)

  /** What became of the changes that the counters of one video did not get: lost with a failed
      statement or a stopped worker, or held back at zero; and the comments ever created. */
  datatype Ledger = Ledger(lostUp: nat, lostDown: nat, clamped: nat,
                           heatLostUp: nat, heatLostDown: nat, heatClamped: nat, created: nat)

  datatype State = State(db: Db, jobs: seq<Job>, books: map<nat, Ledger>)

  // ---------------------------------------------------------------- statements

  /** GREATEST(x + 1, 0) and GREATEST(x - 1, 0); the fallback's WHERE x > 0 does the same. */
  function Bump(x: nat, up: bool): nat {
    if up then x + 1 else if x > 0 then x - 1 else 0
  }

  function ChangeLikesCount(db: Db, v: nat, up: bool): Db
    requires v in db.videos
  {
    db.(videos := db.videos[v := db.videos[v].(likes := Bump(db.videos[v].likes, up))])
  }

  function ChangePopularity(db: Db, v: nat, up: bool): Db
    requires v in db.videos
  {
    db.(videos := db.videos[v := db.videos[v].(popularity := Bump(db.videos[v].popularity, up))])
  }

  // ---------------------------------------------------------------- bookkeeping

  function Lose(l: Ledger, up: bool): Ledger {
    if up then l.(lostUp := l.lostUp + 1) else l.(lostDown := l.lostDown + 1)
  }

  function LoseHeat(l: Ledger, up: bool): Ledger {
    if up then l.(heatLostUp := l.heatLostUp + 1) else l.(heatLostDown := l.heatLostDown + 1)
  }

  /** Change the row of a worker's video in the books. */
  function Book(s: State, v: nat, l: Ledger): State {
    s.(books := s.books[v := l])
  }

  function SetJob(s: State, w: nat, j: Job): State
    requires w < |s.jobs|
  {
    s.(jobs := s.jobs[w := j])
  }

  // ---------------------------------------------------------------- steps

  datatype Action =
    | InsertRow(w: nat, like: Like, outcome: Outcome)
    | DeleteRow(w: nat, like: Like, outcome: Outcome)
    | Count(w: nat, outcome: Outcome)
    | Heat(w: nat, outcome: Outcome)
    | Stop(w: nat)
    | FallbackLike(like: Like)
    | FallbackUnlike(like: Like)
    | InsertComment(w: nat, event: nat, video: nat, outcome: Outcome)
    | FallbackComment(event: nat, video: nat)
    | DeleteComment(event: nat)
    | AddVideo(video: nat, author: nat)

  predicate Enabled(s: State, a: Action) {
    match a
    case InsertRow(w, like, _) => w < |s.jobs| && s.jobs[w].Idle? && like.video in s.db.videos
    case DeleteRow(w, like, _) => w < |s.jobs| && s.jobs[w].Idle? && like.video in s.db.videos
    case Count(w, _) => w < |s.jobs| && s.jobs[w].Counting? && s.jobs[w].video in s.db.videos
    case Heat(w, _) => w < |s.jobs| && s.jobs[w].Heating? && s.jobs[w].video in s.db.videos
    case Stop(w) => w < |s.jobs| && (s.jobs[w].Idle? || s.jobs[w].video in s.db.videos)
    case FallbackLike(like) => like.video in s.db.videos && like !in s.db.likes
    case FallbackUnlike(like) => like.video in s.db.videos && like in s.db.likes
    case InsertComment(w, _, video, _) => w < |s.jobs| && s.jobs[w].Idle? && video in s.db.videos
    case FallbackComment(event, video) => video in s.db.videos && event !in s.db.comments
    case DeleteComment(event) => event in s.db.comments
    case AddVideo(video, _) => video !in s.db.videos
  }

  /** After a row was changed: on with the first counter, or, when the worker took the change for
      failed, both are lost - a redelivery finds the row as it should be and stops. */
  function RowChanged(s: State, w: nat, v: nat, up: bool, seen: bool): State
    requires w < |s.jobs| && v in s.books
  {
    if seen then SetJob(s, w, Counting(v, up)) else Book(s, v, LoseHeat(Lose(s.books[v], up), up))
  }

  function CountLikes(s: State, v: nat, up: bool): State
    requires v in s.db.videos && v in s.books
  {
    var s' := if !up && s.db.videos[v].likes == 0 then Book(s, v, s.books[v].(clamped := s.books[v].clamped + 1))
              else s;
    s'.(db := ChangeLikesCount(s.db, v, up))
  }

  function Counted(s: State, v: nat, up: bool, applied: bool): State
    requires v in s.db.videos && v in s.books
  {
    if applied then CountLikes(s, v, up) else Book(s, v, Lose(s.books[v], up))
  }

  function CountHeat(s: State, v: nat, up: bool): State
    requires v in s.db.videos && v in s.books
  {
    var s' := if !up && s.db.videos[v].popularity == 0
        then Book(s, v, s.books[v].(heatClamped := s.books[v].heatClamped + 1))
              else s;
    s'.(db := ChangePopularity(s.db, v, up))
  }

  function Created(s: State, v: nat): State
    requires v in s.books
  {
    Book(s, v, s.books[v].(created := s.books[v].created + 1))
  }

  function Step(s: State, a: Action): State
    requires Enabled(s, a) && s.books.Keys == s.db.videos.Keys
  {
    match a
    case InsertRow(w, like, outcome) =>
      if like in s.db.likes || !outcome.Applied() then s
      else RowChanged(s.(db := s.db.(likes := s.db.likes + {like})), w, like.video, true, outcome.Reported())
    case DeleteRow(w, like, outcome) =>
      if like !in s.db.likes || !outcome.Applied() then s
      else RowChanged(s.(db := s.db.(likes := s.db.likes - {like})), w, like.video, false, outcome.Reported())
    case Count(w, outcome) =>
      var v, up := s.jobs[w].video, s.jobs[w].up;
      var counted := Counted(s, v, up, outcome.Applied());
      if outcome.Reported() then SetJob(counted, w, Heating(v, up))
      else SetJob(Book(counted, v, LoseHeat(counted.books[v], up)), w, Idle)
    case Heat(w, outcome) =>
      var v, up := s.jobs[w].video, s.jobs[w].up;
      SetJob(if outcome.Applied() then CountHeat(s, v, up) else Book(s, v, LoseHeat(s.books[v], up)), w, Idle)
    case Stop(w) =>
      (match s.jobs[w]
       case Idle => s
       case Counting(v, up) => SetJob(Book(s, v, LoseHeat(Lose(s.books[v], up), up)), w, Idle)
       case Heating(v, up) => SetJob(Book(s, v, LoseHeat(s.books[v], up)), w, Idle))
    case FallbackLike(like) =>
      CountHeat(CountLikes(s.(db := s.db.(likes := s.db.likes + {like})), like.video, true), like.video, true)
    case FallbackUnlike(like) =>
      CountHeat(CountLikes(s.(db := s.db.(likes := s.db.likes - {like})), like.video, false), like.video, false)
    case InsertComment(w, event, v, outcome) =>
      if event in s.db.comments || !outcome.Applied() then s
      else
        var s' := Created(s.(db := s.db.(comments := s.db.comments[event := v])), v);
        if outcome.Reported() then SetJob(s', w, Heating(v, true)) else Book(s', v, LoseHeat(s'.books[v], true))
    case FallbackComment(event, v) =>
      CountHeat(Created(s.(db := s.db.(comments := s.db.comments[event := v])), v), v, true)
    case DeleteComment(event) => s.(db := s.db.(comments := s.db.comments - {event}))
    case AddVideo(v, author) =>
      s.(db := s.db.(videos := s.db.videos[v := Counters(author, 0, 0)]),
         books := s.books[v := Ledger(0, 0, 0, 0, 0, 0, 0)])
  }

  predicate Starts(s: State) {
    s.db == Db(map[], {}, map[]) && s.books == map[] && forall w | 0 <= w < |s.jobs| :: s.jobs[w].Idle?
  }

  predicate Possible(s: State, acts: seq<Action>)
    decreases |acts|, 0
  {
    acts == [] ||
    var init := acts[..|acts| - 1];
    && Possible(s, init)
    && After(s, init).books.Keys == After(s, init).db.videos.Keys
    && Enabled(After(s, init), acts[|acts| - 1])
  }

  function After(s: State, acts: seq<Action>): State
    requires Possible(s, acts)
    decreases |acts|, 1
  {
    if acts == [] then s else Step(After(s, acts[..|acts| - 1]), acts[|acts| - 1])
  }

  // ---------------------------------------------------------------- the law

  function RowsOf(likes: set<Like>, v: nat): set<Like> {
    set l | l in likes && l.video == v
  }

  function Sign(up: bool): int {
    if up then 1 else -1
  }

  /** What a job still owes the likes count, and the popularity, of a video. */
  function Owed(j: Job, v: nat): int {
    if j.Counting? && j.video == v then Sign(j.up) else 0
  }

  function HeatOwed(j: Job, v: nat): int {
    if !j.Idle? && j.video == v then Sign(j.up) else 0
  }

  function InFlight(jobs: seq<Job>, v: nat): int {
    if jobs == [] then 0 else InFlight(jobs[..|jobs| - 1], v) + Owed(jobs[|jobs| - 1], v)
  }

  function HeatInFlight(jobs: seq<Job>, v: nat): int {
    if jobs == [] then 0 else HeatInFlight(jobs[..|jobs| - 1], v) + HeatOwed(jobs[|jobs| - 1], v)
  }

  /** How far the likes count is from: rows - increments in flight + decrements in flight - lost
      increments + lost decrements + clamp hits. */
  function LikesGap(s: State, v: nat): int
    requires v in s.db.videos && v in s.books
  {
    var l := s.books[v];
    s.db.videos[v].likes - (|RowsOf(s.db.likes, v)| - InFlight(s.jobs, v) - l.lostUp + l.lostDown + l.clamped)
  }

  /** The same for the popularity, where every comment ever created counts as well. */
  function HeatGap(s: State, v: nat): int
    requires v in s.db.videos && v in s.books
  {
    var l := s.books[v];
    s.db.videos[v].popularity
    - (|RowsOf(s.db.likes, v)| + l.created - HeatInFlight(s.jobs, v) - l.heatLostUp + l.heatLostDown + l.heatClamped)
  }

  predicate LawAt(s: State, v: nat) {
    v in s.db.videos && v in s.books ==> LikesGap(s, v) == 0 && HeatGap(s, v) == 0
  }

  predicate Known(s: State) {
    && s.books.Keys == s.db.videos.Keys
    && (forall l | l in s.db.likes :: l.video in s.db.videos)
    && (forall w | 0 <= w < |s.jobs| && !s.jobs[w].Idle? :: s.jobs[w].video in s.db.videos)
  }

  ghost predicate Lawful(s: State) {
    forall v :: LawAt(s, v)
  }

  lemma {:induction false} InFlightUpdate(jobs: seq<Job>, w: nat, j: Job, v: nat)
    requires w < |jobs|
    ensures InFlight(jobs[w := j], v) == InFlight(jobs, v) - Owed(jobs[w], v) + Owed(j, v)
    ensures HeatInFlight(jobs[w := j], v) == HeatInFlight(jobs, v) - HeatOwed(jobs[w], v) + HeatOwed(j, v)
  {
    var init := jobs[..|jobs| - 1];
    if w == |jobs| - 1 {
      assert jobs[w := j][..|jobs| - 1] == init;
    } else {
      assert jobs[w := j][..|jobs| - 1] == init[w := j];
      InFlightUpdate(init, w, j, v);
    }
  }

  lemma {:induction false} NoneInFlight(jobs: seq<Job>, v: nat)
    requires forall w | 0 <= w < |jobs| && !jobs[w].Idle? :: jobs[w].video != v
    ensures InFlight(jobs, v) == 0 && HeatInFlight(jobs, v) == 0
  {
    if jobs != [] {
      NoneInFlight(jobs[..|jobs| - 1], v);
    }
  }

  lemma RowsAdded(likes: set<Like>, like: Like, v: nat)
    requires like !in likes
    ensures |RowsOf(likes + {like}, v)| == |RowsOf(likes, v)| + if like.video == v then 1 else 0
  {
    if like.video == v {
      assert RowsOf(likes + {like}, v) == RowsOf(likes, v) + {like};
    } else {
      assert RowsOf(likes + {like}, v) == RowsOf(likes, v);
    }
  }

  lemma RowsRemoved(likes: set<Like>, like: Like, v: nat)
    requires like in likes
    ensures |RowsOf(likes - {like}, v)| == |RowsOf(likes, v)| - if like.video == v then 1 else 0
  {
    RowsAdded(likes - {like}, like, v);
    assert likes - {like} + {like} == likes;
  }

  lemma StepKnown(s: State, a: Action)
    requires Known(s) && Enabled(s, a)
    ensures Known(Step(s, a))
  {}

  // ---- what each part of a step does to the gaps

  predicate Shifts(s: State, s': State, v: nat, likes: int, heat: int) {
    && v in s.db.videos && v in s.books && v in s'.db.videos && v in s'.books
    && LikesGap(s', v) == LikesGap(s, v) + likes && HeatGap(s', v) == HeatGap(s, v) + heat
  }

  /** The part of a change that concerns video v. */
  function On(v: nat, video: nat, change: int): int {
    if v == video then change else 0
  }

  lemma JobShifts(s: State, w: nat, j: Job, v: nat)
    requires w < |s.jobs| && v in s.db.videos && v in s.books
    ensures Shifts(s, SetJob(s, w, j), v, Owed(j, v) - Owed(s.jobs[w], v), HeatOwed(j, v) - HeatOwed(s.jobs[w], v))
  {
    InFlightUpdate(s.jobs, w, j, v);
  }

  lemma CountShifts(s: State, video: nat, up: bool, v: nat)
    requires video in s.db.videos && video in s.books && v in s.db.videos && v in s.books
    ensures Shifts(s, CountLikes(s, video, up), v, On(v, video, Sign(up)), 0)
    ensures Shifts(s, CountHeat(s, video, up), v, 0, On(v, video, Sign(up)))
  {}

  lemma LossShifts(s: State, video: nat, up: bool, v: nat)
    requires video in s.books && v in s.db.videos && v in s.books
    ensures Shifts(s, Book(s, video, Lose(s.books[video], up)), v, On(v, video, Sign(up)), 0)
    ensures Shifts(s, Book(s, video, LoseHeat(s.books[video], up)), v, 0, On(v, video, Sign(up)))
    ensures Shifts(s, Book(s, video, LoseHeat(Lose(s.books[video], up), up)), v, On(v, video, Sign(up)),
            On(v, video, Sign(up)))
    ensures Shifts(s, Created(s, video), v, 0, On(v, video, -1))
  {}

  function WithLikes(s: State, likes: set<Like>): State {
    s.(db := s.db.(likes := likes))
  }

  lemma RowShifts(s: State, like: Like, v: nat)
    requires v in s.db.videos && v in s.books
    ensures like !in s.db.likes ==>
              Shifts(s, WithLikes(s, s.db.likes + {like}), v, On(v, like.video, -1), On(v, like.video, -1))
    ensures like in s.db.likes ==>
              Shifts(s, WithLikes(s, s.db.likes - {like}), v, On(v, like.video, 1), On(v, like.video, 1))
  {
    if like !in s.db.likes {
      RowsAdded(s.db.likes, like, v);
    } else {
      RowsRemoved(s.db.likes, like, v);
    }
  }

  lemma CommentShifts(s: State, comments: map<nat, nat>, v: nat)
    requires v in s.db.videos && v in s.books
    ensures Shifts(s, s.(db := s.db.(comments := comments)), v, 0, 0)
  {}

  lemma RowChangedLaw(s: State, s1: State, w: nat, video: nat, up: bool, seen: bool, v: nat)
    requires w < |s1.jobs| && s1.jobs[w].Idle? && video in s1.books
    requires Shifts(s, s1, v, On(v, video, -Sign(up)), On(v, video, -Sign(up)))
    ensures Shifts(s, RowChanged(s1, w, video, up, seen), v, 0, 0)
  {
    if seen {
      JobShifts(s1, w, Counting(video, up), v);
    } else {
      LossShifts(s1, video, up, v);
    }
  }

  lemma RowLaw(s: State, a: Action, v: nat)
    requires a.InsertRow? || a.DeleteRow?
    requires Known(s) && Enabled(s, a) && v in s.db.videos
    ensures Shifts(s, Step(s, a), v, 0, 0)
  {
    RowShifts(s, a.like, v);
    var up := a.InsertRow?;
    if a.outcome.Applied() && (a.like in s.db.likes <==> !up) {
      var s1 := WithLikes(s, if up then s.db.likes + {a.like} else s.db.likes - {a.like});
      RowChangedLaw(s, s1, a.w, a.like.video, up, a.outcome.Reported(), v);
    }
  }

  lemma CountedShifts(s: State, video: nat, up: bool, applied: bool, v: nat)
    requires video in s.db.videos && video in s.books && v in s.db.videos && v in s.books
    ensures Shifts(s, Counted(s, video, up, applied), v, On(v, video, Sign(up)), 0)
    ensures Counted(s, video, up, applied).jobs == s.jobs
  {
    CountShifts(s, video, up, v);
    LossShifts(s, video, up, v);
  }

  lemma CountLaw(s: State, a: Action, v: nat)
    requires a.Count? && Known(s) && Enabled(s, a) && v in s.db.videos
    ensures Shifts(s, Step(s, a), v, 0, 0)
  {
    var video, up := s.jobs[a.w].video, s.jobs[a.w].up;
    CountedShifts(s, video, up, a.outcome.Applied(), v);
    var counted := Counted(s, video, up, a.outcome.Applied());
    if a.outcome.Reported() {
      JobShifts(counted, a.w, Heating(video, up), v);
    } else {
      LossShifts(counted, video, up, v);
      JobShifts(Book(counted, video, LoseHeat(counted.books[video], up)), a.w, Idle, v);
    }
  }

  lemma HeatLaw(s: State, a: Action, v: nat)
    requires a.Heat? && Known(s) && Enabled(s, a) && v in s.db.videos
    ensures Shifts(s, Step(s, a), v, 0, 0)
  {
    var video, up := s.jobs[a.w].video, s.jobs[a.w].up;
    CountShifts(s, video, up, v);
    LossShifts(s, video, up, v);
    var heated := if a.outcome.Applied() then CountHeat(s, video, up) else Book(s, video, LoseHeat(s.books[video], up));
    JobShifts(heated, a.w, Idle, v);
  }

  lemma StopLaw(s: State, a: Action, v: nat)
    requires a.Stop? && Known(s) && Enabled(s, a) && v in s.db.videos
    ensures Shifts(s, Step(s, a), v, 0, 0)
  {
    match s.jobs[a.w]
    case Idle =>
    case Counting(video, up) =>
      LossShifts(s, video, up, v);
      JobShifts(Book(s, video, LoseHeat(Lose(s.books[video], up), up)), a.w, Idle, v);
    case Heating(video, up) =>
      LossShifts(s, video, up, v);
      JobShifts(Book(s, video, LoseHeat(s.books[video], up)), a.w, Idle, v);
  }

  lemma FallbackLaw(s: State, a: Action, v: nat)
    requires a.FallbackLike? || a.FallbackUnlike?
    requires Known(s) && Enabled(s, a) && v in s.db.videos
    ensures Shifts(s, Step(s, a), v, 0, 0)
  {
    var up := a.FallbackLike?;
    RowShifts(s, a.like, v);
    var s1 := WithLikes(s, if up then s.db.likes + {a.like} else s.db.likes - {a.like});
    CountShifts(s1, a.like.video, up, v);
    CountShifts(CountLikes(s1, a.like.video, up), a.like.video, up, v);
  }

  lemma CommentLaw(s: State, a: Action, v: nat)
    requires a.InsertComment? || a.FallbackComment? || a.DeleteComment?
    requires Known(s) && Enabled(s, a) && v in s.db.videos
    ensures Shifts(s, Step(s, a), v, 0, 0)
  {
    match a
    case DeleteComment(event) => CommentShifts(s, s.db.comments - {event}, v);
    case FallbackComment(event, video) =>
      var s1 := s.(db := s.db.(comments := s.db.comments[event := video]));
      CommentShifts(s, s1.db.comments, v);
      LossShifts(s1, video, true, v);
      CountShifts(Created(s1, video), video, true, v);
    case InsertComment(w, event, video, outcome) =>
      if event !in s.db.comments && outcome.Applied() {
        var s1 := s.(db := s.db.(comments := s.db.comments[event := video]));
        CommentShifts(s, s1.db.comments, v);
        LossShifts(s1, video, true, v);
        var s2 := Created(s1, video);
        if outcome.Reported() {
          JobShifts(s2, w, Heating(video, true), v);
        } else {
          LossShifts(s2, video, true, v);
        }
      }
  }

  lemma NewVideoLaw(s: State, a: Action)
    requires a.AddVideo? && Known(s) && Enabled(s, a)
    ensures LawAt(Step(s, a), a.video)
  {
    NoneInFlight(s.jobs, a.video);
    assert RowsOf(s.db.likes, a.video) == {};
  }

  lemma StepShiftsNothing(s: State, a: Action, v: nat)
    requires Known(s) && Enabled(s, a) && v in s.db.videos
    ensures Shifts(s, Step(s, a), v, 0, 0)
  {
    match a
    case InsertRow(_, _, _) => RowLaw(s, a, v);
    case DeleteRow(_, _, _) => RowLaw(s, a, v);
    case Count(_, _) => CountLaw(s, a, v);
    case Heat(_, _) => HeatLaw(s, a, v);
    case Stop(_) => StopLaw(s, a, v);
    case FallbackLike(_) => FallbackLaw(s, a, v);
    case FallbackUnlike(_) => FallbackLaw(s, a, v);
    case InsertComment(_, _, _, _) => CommentLaw(s, a, v);
    case FallbackComment(_, _) => CommentLaw(s, a, v);
    case DeleteComment(_) => CommentLaw(s, a, v);
    case AddVideo(_, _) =>
  }

  lemma StepLawful(s: State, a: Action)
    requires Known(s) && Enabled(s, a) && Lawful(s)
    ensures Known(Step(s, a)) && Lawful(Step(s, a))
  {
    StepKnown(s, a);
    forall v ensures LawAt(Step(s, a), v) {
      if v in s.db.videos {
        assert LawAt(s, v);
        StepShiftsNothing(s, a, v);
      } else if a.AddVideo? && v == a.video {
        NewVideoLaw(s, a);
      }
    }
  }

  /** In every interleaving, with every fault: likes_count = like rows - increments in flight +
      decrements in flight - lost increments + lost decrements + clamp hits, and popularity likewise
      with the comments ever created. */
  lemma {:induction false} Accounting(start: State, acts: seq<Action>)
    requires Starts(start) && Possible(start, acts)
    ensures Known(After(start, acts)) && Lawful(After(start, acts))
  {
    if acts == [] {
      forall v ensures LawAt(start, v) {}
    } else {
      Accounting(start, acts[..|acts| - 1]);
      StepLawful(After(start, acts[..|acts| - 1]), acts[|acts| - 1]);
    }
  }

  // ---------------------------------------------------------------- what follows from it

  predicate AtRest(s: State, v: nat) {
    forall w | 0 <= w < |s.jobs| :: s.jobs[w].Idle? || s.jobs[w].video != v
  }

  predicate NothingLost(l: Ledger) {
    l.lostUp == 0 && l.lostDown == 0 && l.heatLostUp == 0 && l.heatLostDown == 0
  }

  /** At rest and without losses the likes count is right if and only if no decrement ever met a zero;
      otherwise it is too high by the number that did.  The same for the popularity. */
  lemma RightIffNeverClamped(start: State, acts: seq<Action>, v: nat)
    requires Starts(start) && Possible(start, acts)
    requires var s := After(start, acts); v in s.db.videos && v in s.books && AtRest(s, v) && NothingLost(s.books[v])
    ensures var s := After(start, acts);
            && (s.db.videos[v].likes == |RowsOf(s.db.likes, v)| <==> s.books[v].clamped == 0)
            && s.db.videos[v].likes == |RowsOf(s.db.likes, v)| + s.books[v].clamped
            && s.db.videos[v].popularity == |RowsOf(s.db.likes, v)| + s.books[v].created + s.books[v].heatClamped
  {
    Accounting(start, acts);
    var s := After(start, acts);
    assert LawAt(s, v);
    NoneInFlight(s.jobs, v);
  }

  /** A run with two workers on one video: the like's row, the unlike's row and both its counters, and
      then the like's counters. */
  function OvertakenAction(k: nat): Action
    requires k < 7
  {
    match k
    case 0 => AddVideo(1, 7)
    case 1 => InsertRow(0, Like(1, 1), Done)
    case 2 => DeleteRow(1, Like(1, 1), Done)
    case 3 => Count(1, Done)
    case 4 => Heat(1, Done)
    case 5 => Count(0, Done)
    case _ => Heat(0, Done)
  }

  function OvertakenState(k: nat): State
    requires k <= 7
  {
    match k
    case 0 => State(Db(map[], {}, map[]), [Idle, Idle], map[])
    case 1 => State(Db(map[1 := Counters(7, 0, 0)], {}, map[]), [Idle, Idle], map[1 := Ledger(0, 0, 0, 0, 0, 0, 0)])
    case 2 => State(Db(map[1 := Counters(7, 0, 0)], {Like(1, 1)}, map[]), [Counting(1, true), Idle],
        map[1 := Ledger(0, 0, 0, 0, 0, 0, 0)])
    case 3 => State(Db(map[1 := Counters(7, 0, 0)], {}, map[]), [Counting(1, true), Counting(1, false)],
        map[1 := Ledger(0, 0, 0, 0, 0, 0, 0)])
    case 4 => State(Db(map[1 := Counters(7, 0, 0)], {}, map[]), [Counting(1, true), Heating(1, false)],
        map[1 := Ledger(0, 0, 1, 0, 0, 0, 0)])
    case 5 => State(Db(map[1 := Counters(7, 0, 0)], {}, map[]), [Counting(1, true), Idle],
        map[1 := Ledger(0, 0, 1, 0, 0, 1, 0)])
    case 6 => State(Db(map[1 := Counters(7, 1, 0)], {}, map[]), [Heating(1, true), Idle],
        map[1 := Ledger(0, 0, 1, 0, 0, 1, 0)])
    case _ => State(Db(map[1 := Counters(7, 1, 1)], {}, map[]), [Idle, Idle], map[1 := Ledger(0, 0, 1, 0, 0, 1, 0)])
  }

  function OvertakenRun(k: nat): (acts: seq<Action>)
    requires k <= 7
    ensures |acts| == k
  {
    if k == 0 then [] else OvertakenRun(k - 1) + [OvertakenAction(k - 1)]
  }

  lemma OvertakenStep(k: nat)
    requires k < 7
    ensures Enabled(OvertakenState(k), OvertakenAction(k))
    ensures OvertakenState(k).books.Keys == OvertakenState(k).db.videos.Keys
    ensures Step(OvertakenState(k), OvertakenAction(k)) == OvertakenState(k + 1)
  {}

  lemma {:induction false} OvertakenReaches(k: nat)
    requires k <= 7
    ensures Possible(OvertakenState(0), OvertakenRun(k))
            && After(OvertakenState(0), OvertakenRun(k)) == OvertakenState(k)
  {
    if k > 0 {
      OvertakenReaches(k - 1);
      OvertakenStep(k - 1);
      OneMore(OvertakenState(0), OvertakenRun(k - 1), OvertakenAction(k - 1), OvertakenState(k - 1), OvertakenState(k));
    }
  }

  /** It does happen: an unlike overtakes the like it undoes, finds the counter at zero, and the
      increment that follows stays: one like, and no row. */
  lemma OvertakenLikeStays()
    ensures Starts(OvertakenState(0)) && Possible(OvertakenState(0), OvertakenRun(7))
    ensures var s := After(OvertakenState(0), OvertakenRun(7));
            && s.db.likes == {} && s.db.videos == map[1 := Counters(7, 1, 1)]
            && AtRest(s, 1) && s.books == map[1 := Ledger(0, 0, 1, 0, 0, 1, 0)] && NothingLost(s.books[1])
  {
    OvertakenReaches(7);
  }

  lemma OneMore(start: State, acts: seq<Action>, a: Action, s: State, s': State)
    requires Possible(start, acts) && After(start, acts) == s && s.books.Keys == s.db.videos.Keys
    requires Enabled(s, a) && Step(s, a) == s'
    ensures Possible(start, acts + [a]) && After(start, acts + [a]) == s'
  {
    assert (acts + [a])[..|acts|] == acts;
  }

  // ---------------------------------------------------------------- one change of a video at a time

  /** The video whose row an action changes. */
  function Target(s: State, a: Action): Option<nat> {
    match a
    case InsertRow(_, like, _) => Some(like.video)
    case DeleteRow(_, like, _) => Some(like.video)
    case FallbackLike(like) => Some(like.video)
    case FallbackUnlike(like) => Some(like.video)
    case InsertComment(_, _, video, _) => Some(video)
    case FallbackComment(_, video) => Some(video)
    case _ => None
  }

  predicate FaultFree(a: Action) {
    match a
    case InsertRow(_, _, outcome) => outcome.Done?
    case DeleteRow(_, _, outcome) => outcome.Done?
    case Count(_, outcome) => outcome.Done?
    case Heat(_, outcome) => outcome.Done?
    case InsertComment(_, _, _, outcome) => outcome.Done?
    case Stop(_) => false
    case _ => true
  }

  /** Nothing fails, and no row of a video changes while a worker still counts for that video. */
  predicate Orderly(s: State, a: Action) {
    FaultFree(a) && (Target(s, a).Some? ==> AtRest(s, Target(s, a).value))
  }

  predicate OrderlyRun(start: State, acts: seq<Action>)
    requires Possible(start, acts)
    decreases |acts|
  {
    acts == [] || (OrderlyRun(start, acts[..|acts| - 1]) && Orderly(After(start, acts[..|acts| - 1]), acts[|acts| - 1]))
  }

  /** At most one job per video is under way. */
  predicate OneEach(s: State) {
    forall w, x | 0 <= w < |s.jobs| && 0 <= x < |s.jobs| && !s.jobs[w].Idle? && !s.jobs[x].Idle?
        && s.jobs[w].video == s.jobs[x].video ::
      w == x
  }

  ghost predicate Clean(s: State) {
    forall v | v in s.books :: NothingLost(s.books[v]) && s.books[v].clamped == 0 && s.books[v].heatClamped == 0
  }

  lemma {:induction false} OnlyJob(jobs: seq<Job>, w: nat, v: nat)
    requires w < |jobs| && forall x | 0 <= x < |jobs| && x != w && !jobs[x].Idle? :: jobs[x].video != v
    ensures InFlight(jobs, v) == Owed(jobs[w], v) && HeatInFlight(jobs, v) == HeatOwed(jobs[w], v)
  {
    var init := jobs[..|jobs| - 1];
    if w == |jobs| - 1 {
      NoneInFlight(init, v);
    } else {
      OnlyJob(init, w, v);
    }
  }

  /** A decrement that is due never meets a zero. */
  lemma DueDecrement(s: State, w: nat)
    requires Known(s) && Lawful(s) && Clean(s) && OneEach(s) && w < |s.jobs| && !s.jobs[w].Idle? && !s.jobs[w].up
    ensures s.jobs[w].video in s.db.videos
    ensures s.jobs[w].Counting? ==> s.db.videos[s.jobs[w].video].likes > 0
    ensures s.db.videos[s.jobs[w].video].popularity > 0
  {
    assert LawAt(s, s.jobs[w].video);
    OnlyJob(s.jobs, w, s.jobs[w].video);
  }

  lemma OrderlyStep(s: State, a: Action)
    requires Known(s) && Lawful(s) && Clean(s) && OneEach(s) && Enabled(s, a) && Orderly(s, a)
    ensures Clean(Step(s, a)) && OneEach(Step(s, a))
  {
    match a
    case Count(w, _) => if !s.jobs[w].up { DueDecrement(s, w); }
    case Heat(w, _) => if !s.jobs[w].up { DueDecrement(s, w); }
    case FallbackUnlike(like) =>
      assert LawAt(s, like.video);
      NoneInFlight(s.jobs, like.video);
      assert like in RowsOf(s.db.likes, like.video);
    case _ =>
  }

  /** Fault-free runs that change one row of a video at a time, workers and fallback mixed: no decrement
      ever meets a zero, and a video at rest has exactly as many likes as rows, and the popularity of
      its rows and of the comments ever created for it. */
  lemma {:induction false} OrderlyRunsAreExact(start: State, acts: seq<Action>)
    requires Starts(start) && Possible(start, acts) && OrderlyRun(start, acts)
    ensures var s := After(start, acts);
            && Known(s) && Lawful(s) && Clean(s) && OneEach(s)
            && forall v | v in s.db.videos && AtRest(s, v) ::
                 && s.db.videos[v].likes == |RowsOf(s.db.likes, v)|
                 && s.db.videos[v].popularity == |RowsOf(s.db.likes, v)| + s.books[v].created
  {
    var s := After(start, acts);
    Accounting(start, acts);
    if acts != [] {
      var init := acts[..|acts| - 1];
      OrderlyRunsAreExact(start, init);
      OrderlyStep(After(start, init), acts[|acts| - 1]);
    }
    forall v | v in s.db.videos && AtRest(s, v)
      ensures s.db.videos[v].likes == |RowsOf(s.db.likes, v)|
      ensures s.db.videos[v].popularity == |RowsOf(s.db.likes, v)| + s.books[v].created
    {
      assert LawAt(s, v);
      NoneInFlight(s.jobs, v);
    }
  }

  // ---------------------------------------------------------------- an author's total

  function VideosBy(videos: map<nat, Counters>, author: nat): set<nat> {
    set v | v in videos && videos[v].author == author
  }

  function RowsOn(likes: set<Like>, ids: set<nat>): set<Like> {
    set l | l in likes && l.video in ids
  }

  ghost function Pick(ids: set<nat>): nat
    requires ids != {}
  {
    var v :| v in ids;
    v
  }

  ghost function SumLikes(videos: map<nat, Counters>, ids: set<nat>): nat
    requires ids <= videos.Keys
  {
    if ids == {} then 0 else videos[Pick(ids)].likes + SumLikes(videos, ids - {Pick(ids)})
  }

  /** SELECT SUM(likes_count) WHERE author_id = ?. */
  ghost function TotalLikesByAuthor(db: Db, author: nat): nat {
    SumLikes(db.videos, VideosBy(db.videos, author))
  }

  lemma {:induction false} SumIsRows(db: Db, ids: set<nat>)
    requires ids <= db.videos.Keys && forall v | v in ids :: db.videos[v].likes == |RowsOf(db.likes, v)|
    ensures SumLikes(db.videos, ids) == |RowsOn(db.likes, ids)|
  {
    if ids == {} {
      assert RowsOn(db.likes, ids) == {};
    } else {
      var v := Pick(ids);
      SumIsRows(db, ids - {v});
      assert RowsOn(db.likes, ids) == RowsOn(db.likes, ids - {v}) + RowsOf(db.likes, v);
      assert RowsOn(db.likes, ids - {v}) !! RowsOf(db.likes, v);
    }
  }

  /** After an orderly run an author's total is the number of like rows on the author's videos. */
  lemma AuthorTotals(start: State, acts: seq<Action>, author: nat)
    requires Starts(start) && Possible(start, acts) && OrderlyRun(start, acts)
    requires var s := After(start, acts); forall w | 0 <= w < |s.jobs| :: s.jobs[w].Idle?
    ensures var db := After(start, acts).db;
            TotalLikesByAuthor(db, author) == |RowsOn(db.likes, VideosBy(db.videos, author))|
  {
    OrderlyRunsAreExact(start, acts);
    var s := After(start, acts);
    assert forall v | v in s.db.videos :: AtRest(s, v);
    SumIsRows(s.db, VideosBy(s.db.videos, author));
  }
}
