/**
  From publishing a video to the timeline, end to end: the Publish transaction, the outbox workers,
  the timeline queue with retries and a dead-letter queue, the timeline consumers, and the rebuild
  that a reader of an empty timeline starts (internal/api/video/service.go,
  internal/worker/outbox_worker.go, retry.go, timeline_worker.go, internal/api/feed/service.go).
  Every action is one SQL statement, one broker call or one Redis command, in any order.
*/
module Pipeline {
  import opened Wrappers
  import opened Timeline
  import Outbox
  import P = OutboxProtocol

  const MAX_RETRY_COUNT: int := 3

  /** A timeline event names a video and its creation time, exactly what ZADD stores. */
  datatype Message = Message(event: Entry, retry: int)

  datatype Stage = Received | Added | Rejected | Trimmed | Republished

  datatype Delivery = Delivery(msg: Message, stage: Stage)
  {
    /** The consumer has not yet added the event, passed it on, or trimmed after adding it. */
    predicate Open() { stage.Received? || stage.Added? || stage.Rejected? }
  }

  /** `added` is every entry that a ZADD ever applied; `untrimmed` records that a trim failed or that
      a rebuild hit a timeline that was no longer empty. */
  datatype State = State(
    outbox: P.State,
    videos: map<nat, int>,
    queue: multiset<Message>,
    held: map<nat, Delivery>,
    dead: multiset<Message>,
    timeline: ZSet,
    rebuilds: map<nat, ZSet>,
    added: set<Entry>,
    untrimmed: bool)

  datatype Action =
    | PublishVideo(videoId: nat, rowId: nat)
    | Outbox(step: P.Action)
    | Deliver(tag: nat, msg: Message)
    | ZAdd(tag: nat, outcome: Outcome)
    | TrimTimeline(tag: nat, outcome: Outcome)
    | Ack(tag: nat)
    | Reject(tag: nat)
    | Republish(tag: nat, outcome: Outcome)
    | LoseConsumer(tag: nat)
    | ReadForRebuild(request: nat)
    | Rebuild(request: nat, outcome: Outcome)

  /** Nothing has happened yet; any number of workers stand idle. */
  predicate Starts(s: State) {
    && s.outbox.now > 0 && s.outbox.rows == map[] && s.outbox.handed == {}
    && (forall w | 0 <= w < |s.outbox.workers| :: s.outbox.workers[w].Idle?)
    && s.videos == map[] && s.queue == multiset{} && s.held == map[] && s.dead == multiset{}
    && s.timeline == map[] && s.rebuilds == map[] && s.added == {} && !s.untrimmed
  }

  predicate Enabled(s: State, a: Action) {
    match a
    case PublishVideo(videoId, rowId) =>
      videoId != 0 && videoId !in s.videos && P.Enabled(s.outbox, P.Insert(rowId, videoId, s.outbox.now))
    case Outbox(step) => !step.Insert? && P.Enabled(s.outbox, step)
    case Deliver(tag, msg) => tag !in s.held && msg in s.queue
    case ZAdd(tag, outcome) => tag in s.held && s.held[tag].stage.Received?
    case TrimTimeline(tag, outcome) => tag in s.held && s.held[tag].stage.Added?
    case Ack(tag) => tag in s.held && (s.held[tag].stage.Trimmed? || s.held[tag].stage.Republished?)
    case Reject(tag) => tag in s.held && s.held[tag].stage.Rejected? && s.held[tag].msg.retry >= MAX_RETRY_COUNT
    case Republish(tag, outcome) =>
      tag in s.held && s.held[tag].stage.Rejected? && s.held[tag].msg.retry < MAX_RETRY_COUNT
    case LoseConsumer(tag) => tag in s.held
    case ReadForRebuild(request) => s.timeline == map[] && request !in s.rebuilds
    case Rebuild(request, outcome) => request in s.rebuilds
  }

  /** The event of the message that a worker is handling. */
  function HeadEvent(s: P.State, w: nat): Entry
    requires w < |s.workers| && s.workers[w].Todo() != []
  {
    Entry(s.workers[w].Todo()[0].createTime, s.workers[w].Todo()[0].videoId)
  }

  /** The newest 1000 videos of the table. */
  function NewestVideos(videos: map<nat, int>): ZSet {
    map m | m in videos && Entry(videos[m], m) in NewestSet(Entries(videos), TIMELINE_LIMIT) :: videos[m]
  }

  function Step(s: State, a: Action): State
    requires Enabled(s, a)
  {
    match a
    case PublishVideo(videoId, rowId) =>
      s.(videos := s.videos[videoId := s.outbox.now],
         outbox := P.Step(s.outbox, P.Insert(rowId, videoId, s.outbox.now)))
    case Outbox(step) =>
      s.(outbox := P.Step(s.outbox, step),
         queue := if step.Publish? && step.broker.Applied()
                  then s.queue + multiset{Message(HeadEvent(s.outbox, step.w), 0)} else s.queue)
    case Deliver(tag, msg) => s.(queue := s.queue - multiset{msg}, held := s.held[tag := Delivery(msg, Received)])
    case ZAdd(tag, outcome) =>
      var e := s.held[tag].msg.event;
      s.(timeline := if outcome.Applied() then s.timeline[e.member := e.score] else s.timeline,
         added := if outcome.Applied() then s.added + {e} else s.added,
         held := s.held[tag := s.held[tag].(stage := if outcome.Reported() then Added else Rejected)])
    case TrimTimeline(tag, outcome) =>
      s.(timeline := if outcome.Applied() then Trim(s.timeline) else s.timeline,
         untrimmed := s.untrimmed || !outcome.Applied(),
         held := s.held[tag := s.held[tag].(stage := Trimmed)])
    case Ack(tag) => s.(held := s.held - {tag})
    case Reject(tag) => s.(held := s.held - {tag}, dead := s.dead + multiset{s.held[tag].msg})
    case Republish(tag, outcome) =>
      var msg := s.held[tag].msg;
      var again := if outcome.Applied() then multiset{msg.(retry := msg.retry + 1)} else multiset{};
      if outcome.Reported()
      then s.(queue := s.queue + again, held := s.held[tag := Delivery(msg, Republished)])
      else s.(queue := s.queue + again + multiset{msg}, held := s.held - {tag})
    case LoseConsumer(tag) => s.(held := s.held - {tag}, queue := s.queue + multiset{s.held[tag].msg})
    case ReadForRebuild(request) =>
      s.(rebuilds := s.rebuilds[request := NewestVideos(s.videos)])
    case Rebuild(request, outcome) =>
      var loaded := s.rebuilds[request];
      s.(timeline := if outcome.Applied() then s.timeline + loaded else s.timeline,
         added := if outcome.Applied() then s.added + Entries(loaded) else s.added,
         untrimmed := s.untrimmed || (outcome.Applied() && s.timeline != map[]),
         rebuilds := s.rebuilds - {request})
  }

  // ---------------------------------------------------------------- invariants

  function EventsOf(msgs: multiset<Message>): set<Entry> {
    set m | m in msgs :: m.event
  }

  function HeldEvents(held: map<nat, Delivery>): set<Entry> {
    set t | t in held :: held[t].msg.event
  }

  /** Events that a consumer has received and neither added nor passed on. */
  function UnaddedEvents(held: map<nat, Delivery>): set<Entry> {
    set t | t in held && (held[t].stage.Received? || held[t].stage.Rejected?) :: held[t].msg.event
  }

  /** Everything known of an event that the broker accepted: it waits, is dead, or was added. */
  function Known(s: State): set<Entry> {
    EventsOf(s.queue) + UnaddedEvents(s.held) + EventsOf(s.dead) + s.added
  }

  function RowEvent(row: Outbox.Row): Entry {
    Entry(row.createTime, row.videoId)
  }

  predicate HasRow(rows: Outbox.Table, video: nat) {
    exists id :: id in rows && rows[id].videoId == video
  }

  /** Rows and videos mirror each other: both are written by one transaction. */
  predicate Mirrored(rows: Outbox.Table, videos: map<nat, int>) {
    && (forall id | id in rows :: rows[id].videoId in videos && videos[rows[id].videoId] == rows[id].createTime)
    && (forall v | v in videos :: HasRow(rows, v))
  }

  /** Every message is about a video of the table. */
  predicate MessagesOk(s: State) {
    EventsOf(s.queue) + HeldEvents(s.held) + EventsOf(s.dead) <= Entries(s.videos)
  }

  /** Every event that the broker accepted is known. */
  predicate HandedOk(s: State) {
    forall id | id in s.outbox.handed :: id in s.outbox.rows && RowEvent(s.outbox.rows[id]) in Known(s)
  }

  predicate TimelineOk(s: State) {
    && s.added <= Entries(s.videos)
    && Sandwiched(s.timeline, s.added)
    && HeldAdded(s.held, s.added)
  }

  /** A consumer that is about to trim has added its event. */
  predicate DeliveryAdded(d: Delivery, added: set<Entry>) {
    d.stage.Added? ==> d.msg.event in added
  }

  predicate HeldAdded(held: map<nat, Delivery>, added: set<Entry>) {
    forall t {:trigger DeliveryAdded(held[t], added)} | t in held :: DeliveryAdded(held[t], added)
  }

  predicate RebuildsOk(s: State) {
    forall r | r in s.rebuilds :: Entries(s.rebuilds[r]) <= Entries(s.videos) && |s.rebuilds[r]| <= TIMELINE_LIMIT
  }

  /** A timeline of more than 1000 entries still has a trim coming, or one was lost. */
  predicate TrimComing(s: State) {
    |s.timeline| > TIMELINE_LIMIT ==>
      s.untrimmed || s.queue != multiset{} || s.dead != multiset{} || exists t :: t in s.held && s.held[t].Open()
  }

  /** Ids and creation times are never zero: the clock starts after the epoch. */
  predicate NonZero(s: State) {
    s.outbox.now > 0 && forall v | v in s.videos :: v != 0 && s.videos[v] > 0
  }

  predicate Inv(s: State) {
    && P.Inv(s.outbox)
    && NonZero(s)
    && Mirrored(s.outbox.rows, s.videos)
    && MessagesOk(s) && HandedOk(s) && TimelineOk(s) && RebuildsOk(s) && TrimComing(s)
  }

  lemma StartInv(s: State)
    requires Starts(s)
    ensures Inv(s)
  {}

  /** Worker steps never change which video a row is about. */
  lemma StepRows(s: P.State, a: P.Action)
    requires P.Enabled(s, a) && !a.Insert?
    ensures P.Step(s, a).rows.Keys == s.rows.Keys
    ensures forall id | id in s.rows :: RowEvent(P.Step(s, a).rows[id]) == RowEvent(s.rows[id])
    ensures P.Step(s, a).handed
            == s.handed + if a.Publish? && a.broker.Applied() then {s.workers[a.w].todo[0].id} else {}
  {}

  lemma InsertMirrored(rows: Outbox.Table, videos: map<nat, int>, id: nat, v: nat, now: int)
    requires Mirrored(rows, videos) && id !in rows && v !in videos
    ensures Mirrored(rows[id := Outbox.NewRow(v, now, now)], videos[v := now])
  {
    var rows' := rows[id := Outbox.NewRow(v, now, now)];
    forall u | u in videos[v := now] ensures HasRow(rows', u) {
      if u == v {
        assert rows'[id].videoId == u;
      } else {
        var k :| k in rows && rows[k].videoId == u;
        assert rows'[k].videoId == u;
      }
    }
  }

  lemma SameEventsMirrored(rows: Outbox.Table, rows': Outbox.Table, videos: map<nat, int>)
    requires Mirrored(rows, videos)
    requires rows'.Keys == rows.Keys && forall id | id in rows :: RowEvent(rows'[id]) == RowEvent(rows[id])
    ensures Mirrored(rows', videos)
  {
    forall v | v in videos ensures HasRow(rows', v) {
      var id :| id in rows && rows[id].videoId == v;
      assert RowEvent(rows'[id]).member == v;
    }
    forall id | id in rows' ensures rows'[id].videoId in videos && videos[rows'[id].videoId] == rows'[id].createTime {
      assert RowEvent(rows'[id]) == RowEvent(rows[id]);
    }
  }

  lemma StepMirrored(s: State, a: Action)
    requires P.Inv(s.outbox) && Mirrored(s.outbox.rows, s.videos) && Enabled(s, a)
    ensures P.Inv(Step(s, a).outbox) && Mirrored(Step(s, a).outbox.rows, Step(s, a).videos)
    ensures Entries(s.videos) <= Entries(Step(s, a).videos)
    ensures s.added <= Step(s, a).added
  {
    if a.PublishVideo? {
      P.StepInv(s.outbox, P.Insert(a.rowId, a.videoId, s.outbox.now));
      InsertMirrored(s.outbox.rows, s.videos, a.rowId, a.videoId, s.outbox.now);
      EntriesUpdate(s.videos, a.videoId, s.outbox.now);
    } else if a.Outbox? {
      P.StepInv(s.outbox, a.step);
      StepRows(s.outbox, a.step);
      SameEventsMirrored(s.outbox.rows, Step(s, a).outbox.rows, s.videos);
    }
  }

  /** The event that a worker publishes is the event of the row that it claimed. */
  lemma HeadIsRow(s: State, w: nat)
    requires P.Inv(s.outbox) && w < |s.outbox.workers| && s.outbox.workers[w].Todo() != []
    ensures var id := s.outbox.workers[w].Todo()[0].id;
            id in s.outbox.rows && RowEvent(s.outbox.rows[id]) == HeadEvent(s.outbox, w)
  {
    P.HeadOk(s.outbox, w);
  }

  lemma RowEventInVideos(s: State, id: nat)
    requires Mirrored(s.outbox.rows, s.videos) && id in s.outbox.rows
    ensures RowEvent(s.outbox.rows[id]) in Entries(s.videos)
  {}

  lemma EventsPlus(q: multiset<Message>, m: Message)
    ensures EventsOf(q + multiset{m}) == EventsOf(q) + {m.event}
  {
    var p := q + multiset{m};
    assert m in p;
    assert forall x | x in q :: x in p;
  }

  lemma EventsMinus(q: multiset<Message>, m: Message)
    requires m in q
    ensures EventsOf(q) == EventsOf(q - multiset{m}) + {m.event}
  {
    EventsPlus(q - multiset{m}, m);
    assert q - multiset{m} + multiset{m} == q;
  }

  lemma HeldPut(held: map<nat, Delivery>, tag: nat, d: Delivery)
    requires tag in held ==> held[tag].msg == d.msg
    ensures HeldEvents(held[tag := d]) == HeldEvents(held) + {d.msg.event}
    ensures UnaddedEvents(held[tag := d]) + {d.msg.event} == UnaddedEvents(held) + {d.msg.event}
    ensures d.stage.Received? || d.stage.Rejected? ==>
              UnaddedEvents(held[tag := d]) == UnaddedEvents(held) + {d.msg.event}
  {
    var held' := held[tag := d];
    assert tag in held';
    forall t | t in held && t != tag ensures t in held' && held'[t] == held[t] {}
  }

  lemma HeldDrop(held: map<nat, Delivery>, tag: nat)
    requires tag in held
    ensures HeldEvents(held - {tag}) <= HeldEvents(held)
    ensures UnaddedEvents(held - {tag}) + {held[tag].msg.event} == UnaddedEvents(held) + {held[tag].msg.event}
    ensures !held[tag].stage.Received? && !held[tag].stage.Rejected? ==>
            UnaddedEvents(held - {tag}) == UnaddedEvents(held)
  {
    var held' := held - {tag};
    forall t | t in held && t != tag ensures t in held' && held'[t] == held[t] {}
  }

  /** The message that an action is about. */
  function MessageOf(s: State, a: Action): Message
    requires Enabled(s, a) && !a.PublishVideo? && !a.Outbox? && !a.ReadForRebuild? && !a.Rebuild?
  {
    if a.Deliver? then a.msg else s.held[a.tag].msg
  }

  /** No step of the broker or of a consumer forgets an event, and none invents one. */
  lemma StepMessages(s: State, a: Action)
    requires Enabled(s, a) && !a.PublishVideo? && !a.Outbox? && !a.ReadForRebuild? && !a.Rebuild?
    requires HeldAdded(s.held, s.added)
    ensures Known(s) <= Known(Step(s, a))
    ensures var t := Step(s, a);
            EventsOf(t.queue) + HeldEvents(t.held) + EventsOf(t.dead)
            <= EventsOf(s.queue) + HeldEvents(s.held) + EventsOf(s.dead)
  {
    var m := MessageOf(s, a);
    assert !a.Deliver? ==> DeliveryAdded(s.held[a.tag], s.added);
    match a {
      case Deliver(tag, msg) =>
        EventsMinus(s.queue, msg);
        HeldPut(s.held, tag, Delivery(msg, Received));
      case ZAdd(tag, outcome) =>
        HeldPut(s.held, tag, Step(s, a).held[tag]);
      case TrimTimeline(tag, outcome) =>
        HeldPut(s.held, tag, Step(s, a).held[tag]);
      case Ack(tag) =>
        HeldDrop(s.held, tag);
      case Reject(tag) =>
        HeldDrop(s.held, tag);
        EventsPlus(s.dead, m);
      case Republish(tag, outcome) =>
        RepublishMessages(s, a);
      case LoseConsumer(tag) =>
        HeldDrop(s.held, tag);
        EventsPlus(s.queue, m);
    }
  }

  /** After a republish, or its failure, the event is in the queue again. */
  lemma RepublishQueue(s: State, a: Action)
    requires Enabled(s, a) && a.Republish?
    ensures EventsOf(Step(s, a).queue) == EventsOf(s.queue) + {s.held[a.tag].msg.event}
  {
    var m := s.held[a.tag].msg;
    var again := m.(retry := m.retry + 1);
    EventsPlus(s.queue, again);
    match a.outcome {
      case Done =>
      case DoneUnseen =>
        EventsPlus(s.queue + multiset{again}, m);
      case NotDone =>
        assert s.queue + multiset{} == s.queue;
        EventsPlus(s.queue, m);
    }
  }

  lemma RepublishMessages(s: State, a: Action)
    requires Enabled(s, a) && a.Republish?
    ensures Known(s) <= Known(Step(s, a))
    ensures var t := Step(s, a);
            EventsOf(t.queue) + HeldEvents(t.held) + EventsOf(t.dead)
            <= EventsOf(s.queue) + HeldEvents(s.held) + EventsOf(s.dead)
  {
    var m := s.held[a.tag].msg;
    RepublishQueue(s, a);
    assert m.event in HeldEvents(s.held);
    if a.outcome.Reported() {
      HeldPut(s.held, a.tag, Delivery(m, Republished));
    } else {
      HeldDrop(s.held, a.tag);
    }
  }

  /** A worker's publish puts the event of its row into the queue; nothing else is touched. */
  lemma OutboxEvents(s: State, a: Action)
    requires P.Inv(s.outbox) && Mirrored(s.outbox.rows, s.videos) && MessagesOk(s) && HandedOk(s)
    requires Enabled(s, a) && a.Outbox?
    ensures MessagesOk(Step(s, a)) && HandedOk(Step(s, a))
  {
    StepRows(s.outbox, a.step);
    if a.step.Publish? {
      HeadIsRow(s, a.step.w);
      RowEventInVideos(s, s.outbox.workers[a.step.w].todo[0].id);
      EventsPlus(s.queue, Message(HeadEvent(s.outbox, a.step.w), 0));
    }
    KnownStaysHanded(s, Step(s, a));
  }

  /** Rows that were handed over before a step are still accounted for after it. */
  lemma KnownStaysHanded(s: State, t: State)
    requires HandedOk(s) && Known(s) <= Known(t)
    requires forall id | id in s.outbox.rows ::
             id in t.outbox.rows && RowEvent(t.outbox.rows[id]) == RowEvent(s.outbox.rows[id])
    ensures forall id | id in s.outbox.handed :: id in t.outbox.rows && RowEvent(t.outbox.rows[id]) in Known(t)
  {}

  /** These actions leave every message where it is. */
  lemma OtherEvents(s: State, a: Action)
    requires Mirrored(s.outbox.rows, s.videos) && MessagesOk(s) && HandedOk(s)
    requires Enabled(s, a) && (a.PublishVideo? || a.ReadForRebuild? || a.Rebuild?)
    ensures MessagesOk(Step(s, a)) && HandedOk(Step(s, a))
  {
    if a.PublishVideo? {
      EntriesUpdate(s.videos, a.videoId, s.outbox.now);
    }
    KnownStaysHanded(s, Step(s, a));
  }

  lemma ConsumerEvents(s: State, a: Action)
    requires MessagesOk(s) && HandedOk(s) && HeldAdded(s.held, s.added)
    requires Enabled(s, a) && !a.PublishVideo? && !a.Outbox? && !a.ReadForRebuild? && !a.Rebuild?
    ensures MessagesOk(Step(s, a)) && HandedOk(Step(s, a))
  {
    StepMessages(s, a);
    ConsumerFrame(s, a);
    SameRowsKeep(s, Step(s, a));
  }

  lemma QueueFrame(s: State, a: Action)
    requires Enabled(s, a) && (a.Deliver? || a.LoseConsumer? || a.Republish?)
    ensures Step(s, a).outbox == s.outbox && Step(s, a).videos == s.videos && Step(s, a).rebuilds == s.rebuilds
  {}

  lemma HeldFrame(s: State, a: Action)
    requires Enabled(s, a) && (a.ZAdd? || a.TrimTimeline? || a.Ack? || a.Reject?)
    ensures Step(s, a).outbox == s.outbox && Step(s, a).videos == s.videos && Step(s, a).rebuilds == s.rebuilds
  {}

  /** Consumers touch neither the outbox nor the videos. */
  lemma ConsumerFrame(s: State, a: Action)
    requires Enabled(s, a) && !a.PublishVideo? && !a.Outbox? && !a.ReadForRebuild? && !a.Rebuild?
    ensures Step(s, a).outbox == s.outbox && Step(s, a).videos == s.videos && Step(s, a).rebuilds == s.rebuilds
  {
    if a.Deliver? || a.LoseConsumer? || a.Republish? {
      QueueFrame(s, a);
    } else {
      HeldFrame(s, a);
    }
  }

  lemma SameRowsKeep(s: State, t: State)
    requires MessagesOk(s) && HandedOk(s) && t.outbox == s.outbox && t.videos == s.videos && Known(s) <= Known(t)
    requires EventsOf(t.queue) + HeldEvents(t.held) + EventsOf(t.dead)
             <= EventsOf(s.queue) + HeldEvents(s.held) + EventsOf(s.dead)
    ensures MessagesOk(t) && HandedOk(t)
  {
    KnownStaysHanded(s, t);
  }

  lemma StepEvents(s: State, a: Action)
    requires Inv(s) && Enabled(s, a)
    ensures MessagesOk(Step(s, a)) && HandedOk(Step(s, a))
  {
    if a.Outbox? {
      OutboxEvents(s, a);
    } else if a.PublishVideo? || a.ReadForRebuild? || a.Rebuild? {
      OtherEvents(s, a);
    } else {
      ConsumerEvents(s, a);
    }
  }

  lemma EntriesUnion(y: ZSet, z: ZSet)
    requires Functional(Entries(y) + Entries(z))
    ensures Entries(y + z) == Entries(y) + Entries(z)
  {
    forall e ensures e in Entries(y + z) <==> e in Entries(y) + Entries(z) {
      assert e in Entries(y) <==> e.member in y && y[e.member] == e.score;
      assert e in Entries(z) <==> e.member in z && z[e.member] == e.score;
      assert e in Entries(y + z) <==> e.member in y + z && (y + z)[e.member] == e.score;
      if e.member in y && e.member in z {
        assert Entry(y[e.member], e.member) in Entries(y) && Entry(z[e.member], e.member) in Entries(z);
      }
    }
  }

  /** Loading a set of entries at once keeps the sandwich too. */
  lemma LoadKeepsSandwich(z: ZSet, added: set<Entry>, loaded: ZSet)
    requires Sandwiched(z, added) && Functional(added + Entries(loaded))
    ensures Sandwiched(z + loaded, added + Entries(loaded))
  {
    EntriesUnion(z, loaded);
    NewestMonotone(added, added + Entries(loaded));
  }

  lemma SubsetFunctional(S: set<Entry>, videos: map<nat, int>)
    requires S <= Entries(videos)
    ensures Functional(S)
  {}

  lemma NewestVideosOk(videos: map<nat, int>)
    ensures Entries(NewestVideos(videos)) == NewestSet(Entries(videos), TIMELINE_LIMIT)
    ensures |NewestVideos(videos)| <= TIMELINE_LIMIT
  {
    var z := NewestVideos(videos);
    var kept := NewestSet(Entries(videos), TIMELINE_LIMIT);
    forall e ensures e in Entries(z) <==> e in kept {
      assert e in Entries(z) <==> e.member in z && z[e.member] == e.score;
      assert e in Entries(videos) <==> e.member in videos && videos[e.member] == e.score;
    }
    EntriesSize(z);
    NewestCount(Entries(videos), TIMELINE_LIMIT);
  }

  /** The three kinds of actions that change the timeline keep it between the newest 1000 and
      everything added. */
  lemma StepSandwiched(s: State, a: Action)
    requires TimelineOk(s) && MessagesOk(s) && RebuildsOk(s) && Enabled(s, a)
    requires a.ZAdd? || a.TrimTimeline? || a.Rebuild?
    ensures Sandwiched(Step(s, a).timeline, Step(s, a).added)
    ensures Step(s, a).added <= Entries(s.videos)
  {
    match a {
      case ZAdd(tag, outcome) => ZAddSandwiched(s, tag, outcome);
      case TrimTimeline(tag, outcome) => TrimKeepsSandwich(s.timeline, s.added);
      case Rebuild(request, outcome) => RebuildSandwiched(s, request, outcome);
    }
  }

  lemma ZAddSandwiched(s: State, tag: nat, outcome: Outcome)
    requires TimelineOk(s) && MessagesOk(s) && Enabled(s, ZAdd(tag, outcome))
    ensures var t := Step(s, ZAdd(tag, outcome)); Sandwiched(t.timeline, t.added) && t.added <= Entries(s.videos)
  {
    var e := s.held[tag].msg.event;
    assert e in HeldEvents(s.held);
    SubsetFunctional(s.added + {e}, s.videos);
    AddKeepsSandwich(s.timeline, s.added, e.member, e.score);
  }

  lemma RebuildSandwiched(s: State, request: nat, outcome: Outcome)
    requires TimelineOk(s) && RebuildsOk(s) && Enabled(s, Rebuild(request, outcome))
    ensures var t := Step(s, Rebuild(request, outcome)); Sandwiched(t.timeline, t.added) && t.added <= Entries(s.videos)
  {
    SubsetFunctional(s.added + Entries(s.rebuilds[request]), s.videos);
    LoadKeepsSandwich(s.timeline, s.added, s.rebuilds[request]);
  }

  /** No other action touches the timeline or the record of what was added. */
  lemma TimelineUntouched(s: State, a: Action)
    requires Enabled(s, a) && !a.ZAdd? && !a.TrimTimeline? && !a.Rebuild?
    ensures Step(s, a).timeline == s.timeline && Step(s, a).added == s.added
  {
    match a {
      case PublishVideo(_, _) =>
      case Outbox(step) => OutboxFrame(s, step);
      case Deliver(_, _) =>
      case Ack(_) =>
      case Reject(_) =>
      case Republish(_, _) =>
      case LoseConsumer(_) =>
      case ReadForRebuild(_) =>
    }
  }

  /** A step of the outbox touches nothing behind the queue. */
  lemma OutboxFrame(s: State, step: P.Action)
    requires Enabled(s, Outbox(step))
    ensures Step(s, Outbox(step)) == s.(outbox := Step(s, Outbox(step)).outbox, queue := Step(s, Outbox(step)).queue)
  {}

  lemma PutAdded(held: map<nat, Delivery>, tag: nat, d: Delivery, added: set<Entry>, added': set<Entry>)
    requires HeldAdded(held, added) && added <= added' && DeliveryAdded(d, added')
    ensures HeldAdded(held[tag := d], added')
  {
    var after := held[tag := d];
    forall t | t in after ensures DeliveryAdded(after[t], added') {
      assert t in held ==> DeliveryAdded(held[t], added);
    }
  }

  lemma DropAdded(held: map<nat, Delivery>, tag: nat, added: set<Entry>)
    requires HeldAdded(held, added)
    ensures HeldAdded(held - {tag}, added)
  {
    var after := held - {tag};
    forall t | t in after ensures DeliveryAdded(after[t], added) {
      assert DeliveryAdded(held[t], added);
    }
  }

  lemma MoreAdded(held: map<nat, Delivery>, added: set<Entry>, added': set<Entry>)
    requires HeldAdded(held, added) && added <= added'
    ensures HeldAdded(held, added')
  {
    forall t | t in held ensures DeliveryAdded(held[t], added') {
      assert DeliveryAdded(held[t], added);
    }
  }

  lemma StepHeldAdded(s: State, a: Action)
    requires HeldAdded(s.held, s.added) && Enabled(s, a)
    ensures HeldAdded(Step(s, a).held, Step(s, a).added)
  {
    match a {
      case PublishVideo(_, _) =>
      case Outbox(step) => OutboxFrame(s, step);
      case Deliver(tag, msg) => PutAdded(s.held, tag, Delivery(msg, Received), s.added, s.added);
      case ZAdd(tag, outcome) => PutAdded(s.held, tag, Step(s, a).held[tag], s.added, Step(s, a).added);
      case TrimTimeline(tag, _) => PutAdded(s.held, tag, Step(s, a).held[tag], s.added, s.added);
      case Ack(tag) => DropAdded(s.held, tag, s.added);
      case Reject(tag) => DropAdded(s.held, tag, s.added);
      case Republish(tag, outcome) =>
        DropAdded(s.held, tag, s.added);
        PutAdded(s.held, tag, Delivery(s.held[tag].msg, Republished), s.added, s.added);
      case LoseConsumer(tag) => DropAdded(s.held, tag, s.added);
      case ReadForRebuild(_) =>
      case Rebuild(_, _) => MoreAdded(s.held, s.added, Step(s, a).added);
    }
  }

  lemma StepTimeline(s: State, a: Action)
    requires TimelineOk(s) && MessagesOk(s) && RebuildsOk(s) && Enabled(s, a)
    requires Entries(s.videos) <= Entries(Step(s, a).videos)
    ensures TimelineOk(Step(s, a))
  {
    if a.ZAdd? || a.TrimTimeline? || a.Rebuild? {
      StepSandwiched(s, a);
    } else {
      TimelineUntouched(s, a);
    }
    StepHeldAdded(s, a);
  }

  lemma StepRebuilds(s: State, a: Action)
    requires RebuildsOk(s) && Enabled(s, a)
    requires Entries(s.videos) <= Entries(Step(s, a).videos)
    ensures RebuildsOk(Step(s, a))
  {
    var t := Step(s, a);
    if a.ReadForRebuild? {
      NewestVideosOk(s.videos);
    }
    forall r | r in t.rebuilds
      ensures Entries(t.rebuilds[r]) <= Entries(t.videos) && |t.rebuilds[r]| <= TIMELINE_LIMIT
    {
      RebuildKept(s, a, r);
    }
  }

  lemma RebuildKept(s: State, a: Action, r: nat)
    requires Enabled(s, a) && r in Step(s, a).rebuilds
    ensures || (r in s.rebuilds && Step(s, a).rebuilds[r] == s.rebuilds[r])
            || (a.ReadForRebuild? && Step(s, a).rebuilds[r] == NewestVideos(s.videos))
  {
    match a {
      case Outbox(step) => OutboxFrame(s, step);
      case PublishVideo(_, _) =>
      case ReadForRebuild(_) =>
      case Rebuild(_, _) =>
      case _ => ConsumerFrame(s, a);
    }
  }

  lemma StepTrimComing(s: State, a: Action)
    requires RebuildsOk(s) && TrimComing(s) && Enabled(s, a)
    ensures TrimComing(Step(s, a))
  {
    if a.PublishVideo? || a.Outbox? || a.Ack? || a.ReadForRebuild? || a.Rebuild? {
      if a.Rebuild? {
        assert map[] + s.rebuilds[a.request] == s.rebuilds[a.request];
      }
      OthersStayOpen(s, a);
    } else if a.TrimTimeline? {
      TrimKeepsNewest(s.timeline);
    } else {
      ConsumerStaysOpen(s, a);
    }
  }

  /** These actions leave their message in the queue, with a consumer or dead. */
  lemma ConsumerStaysOpen(s: State, a: Action)
    requires Enabled(s, a)
    requires a.Deliver? || a.ZAdd? || a.Reject? || a.Republish? || a.LoseConsumer?
    ensures var t := Step(s, a);
            t.queue != multiset{} || t.dead != multiset{} || exists d :: d in t.held && t.held[d].Open()
  {
    var t := Step(s, a);
    match a {
      case Deliver(tag, msg) => assert t.held[tag].Open();
      case ZAdd(tag, outcome) => assert t.held[tag].Open();
      case Reject(tag) => assert s.held[tag].msg in t.dead;
      case Republish(tag, outcome) =>
        RepublishQueue(s, a);
        assert s.held[tag].msg.event in EventsOf(t.queue);
      case LoseConsumer(tag) => assert s.held[tag].msg in t.queue;
    }
  }

  lemma OthersStayOpen(s: State, a: Action)
    requires Enabled(s, a)
    requires a.PublishVideo? || a.Outbox? || a.Ack? || a.ReadForRebuild? || a.Rebuild?
    ensures (exists d :: d in s.held && s.held[d].Open())
            ==> exists d :: d in Step(s, a).held && Step(s, a).held[d].Open()
    ensures s.queue != multiset{} ==> Step(s, a).queue != multiset{}
  {
    var t := Step(s, a);
    if d :| d in s.held && s.held[d].Open() {
      assert d in t.held && t.held[d].Open();
    }
    if s.queue != multiset{} {
      var m :| m in s.queue;
      assert m in t.queue;
    }
  }

  lemma StepNonZero(s: State, a: Action)
    requires NonZero(s) && Enabled(s, a)
    ensures NonZero(Step(s, a))
  {
    match a {
      case PublishVideo(_, _) =>
      case Outbox(_) =>
      case _ =>
    }
  }

  /** The consumer's two commands for a usable event have the effect of the worker's Process, and the
      delivery is rejected exactly when Process reports an error. */
  lemma StepsMakeProcess(s: State, tag: nat, zadd: Outcome, trim: Outcome)
    requires tag in s.held && s.held[tag].stage.Received?
    requires Usable(Event(s.held[tag].msg.event.member, s.held[tag].msg.event.score))
    ensures var e := s.held[tag].msg.event;
            var t := Step(s, ZAdd(tag, zadd));
            var u := if t.held[tag].stage.Added? then Step(t, TrimTimeline(tag, trim)) else t;
            && u.timeline == AfterProcess(s.timeline, Event(e.member, e.score), zadd, trim)
            && (u.held[tag].stage.Rejected? <==> !zadd.Reported())
            && (u.held[tag].stage.Trimmed? <==> zadd.Reported())
  {}

  /** The worker drops events without a video or a creation time; no such event is ever delivered. */
  lemma NoEventIsDropped(start: State, acts: seq<Action>, tag: nat)
    requires Starts(start) && Possible(start, acts) && tag in After(start, acts).held
    ensures var e := After(start, acts).held[tag].msg.event; Usable(Event(e.member, e.score))
  {
    RunInv(start, acts);
    HeldIsVideo(After(start, acts), tag);
  }

  lemma HeldIsVideo(s: State, tag: nat)
    requires MessagesOk(s) && NonZero(s) && tag in s.held
    ensures s.held[tag].msg.event.member != 0 && s.held[tag].msg.event.score > 0
  {
    assert s.held[tag].msg.event in HeldEvents(s.held);
  }

  lemma StepInv(s: State, a: Action)
    requires Inv(s) && Enabled(s, a)
    ensures Inv(Step(s, a))
  {
    StepNonZero(s, a);
    StepMirrored(s, a);
    StepEvents(s, a);
    StepTimeline(s, a);
    StepRebuilds(s, a);
    StepTrimComing(s, a);
  }

  // ---------------------------------------------------------------- runs

  predicate Possible(s: State, acts: seq<Action>)
    decreases |acts|, 0
  {
    acts == [] || (Possible(s, acts[..|acts| - 1]) && Enabled(After(s, acts[..|acts| - 1]), acts[|acts| - 1]))
  }

  function After(s: State, acts: seq<Action>): State
    requires Possible(s, acts)
    decreases |acts|, 1
  {
    if acts == [] then s else Step(After(s, acts[..|acts| - 1]), acts[|acts| - 1])
  }

  lemma {:induction false} RunInv(s: State, acts: seq<Action>)
    requires Starts(s) && Possible(s, acts)
    ensures Inv(After(s, acts))
  {
    if acts == [] {
      StartInv(s);
    } else {
      RunInv(s, acts[..|acts| - 1]);
      StepInv(After(s, acts[..|acts| - 1]), acts[|acts| - 1]);
    }
  }

  /** The event waits in the queue or with a consumer, is dead-lettered, or was added. */
  predicate AccountedFor(s: State, event: Entry) {
    || (exists m :: m in s.queue && m.event == event)
    || (exists t :: t in s.held && s.held[t].msg.event == event)
    || (exists m :: m in s.dead && m.event == event)
    || event in s.added
  }

  lemma KnownIsAccountedFor(s: State, event: Entry)
    requires event in Known(s)
    ensures AccountedFor(s, event)
  {
    if event in EventsOf(s.queue) {
      var m :| m in s.queue && m.event == event;
    } else if event in UnaddedEvents(s.held) {
      var t :| t in s.held && s.held[t].msg.event == event;
    } else if event in EventsOf(s.dead) {
      var m :| m in s.dead && m.event == event;
    }
  }

  predicate CountsOk(msgs: multiset<Message>) {
    forall m | m in msgs :: 0 <= m.retry <= 3
  }

  predicate HeldCountsOk(held: map<nat, Delivery>) {
    forall t | t in held :: 0 <= held[t].msg.retry <= 3
  }

  predicate RetriesOk(s: State) {
    CountsOk(s.queue) && HeldCountsOk(s.held) && forall m | m in s.dead :: m.retry == 3
  }

  lemma MoreCounts(msgs: multiset<Message>, m: Message)
    requires CountsOk(msgs) && 0 <= m.retry <= 3
    ensures CountsOk(msgs + multiset{m})
  {}

  lemma HeldCounts(held: map<nat, Delivery>, tag: nat, d: Delivery)
    requires HeldCountsOk(held) && 0 <= d.msg.retry <= 3
    ensures HeldCountsOk(held[tag := d]) && HeldCountsOk(held - {tag})
  {}

  /** The copies that a republish leaves in the queue, by its outcome. */
  lemma RepublishCounts(queue: multiset<Message>, msg: Message, outcome: Outcome)
    requires CountsOk(queue) && 0 <= msg.retry < 3
    ensures var again := if outcome.Applied() then multiset{msg.(retry := msg.retry + 1)} else multiset{};
            CountsOk(queue + again) && CountsOk(queue + again + multiset{msg})
  {
    var more := msg.(retry := msg.retry + 1);
    if outcome.Applied() {
      MoreCounts(queue, more);
      MoreCounts(queue + multiset{more}, msg);
    } else {
      MoreCounts(queue, msg);
      assert queue + multiset{} == queue;
    }
  }

  lemma RepublishRetries(s: State, a: Action)
    requires RetriesOk(s) && Enabled(s, a) && a.Republish?
    ensures RetriesOk(Step(s, a))
  {
    RepublishCounts(s.queue, s.held[a.tag].msg, a.outcome);
    HeldCounts(s.held, a.tag, Delivery(s.held[a.tag].msg, Republished));
  }

  lemma QueueRetries(s: State, a: Action)
    requires RetriesOk(s) && Enabled(s, a) && (a.Deliver? || a.LoseConsumer?)
    ensures RetriesOk(Step(s, a))
  {
    if a.Deliver? {
      HeldCounts(s.held, a.tag, Delivery(a.msg, Received));
    } else {
      HeldCounts(s.held, a.tag, s.held[a.tag]);
      MoreCounts(s.queue, s.held[a.tag].msg);
    }
  }

  lemma HeldRetries(s: State, a: Action)
    requires RetriesOk(s) && Enabled(s, a) && (a.ZAdd? || a.TrimTimeline? || a.Ack? || a.Reject?)
    ensures RetriesOk(Step(s, a))
  {
    HeldCounts(s.held, a.tag, s.held[a.tag]);
    if a.ZAdd? || a.TrimTimeline? {
      HeldCounts(s.held, a.tag, Step(s, a).held[a.tag]);
    }
  }

  lemma StepRetries(s: State, a: Action)
    requires RetriesOk(s) && Enabled(s, a)
    ensures RetriesOk(Step(s, a))
  {
    if a.Outbox? {
      OutboxFrame(s, a.step);
      if a.step.Publish? {
        MoreCounts(s.queue, Message(HeadEvent(s.outbox, a.step.w), 0));
      }
    } else if a.Republish? {
      RepublishRetries(s, a);
    } else if a.Deliver? || a.LoseConsumer? {
      QueueRetries(s, a);
    } else if a.ZAdd? || a.TrimTimeline? || a.Ack? || a.Reject? {
      HeldRetries(s, a);
    }
  }

  /** No message is published again more than three times in a row, and none is given up before that. */
  lemma {:induction false} DeadAfterThreeRetries(start: State, acts: seq<Action>)
    requires Starts(start) && Possible(start, acts)
    ensures RetriesOk(After(start, acts))
    ensures forall m | m in After(start, acts).dead :: m.retry == 3
  {
    if acts != [] {
      var before := acts[..|acts| - 1];
      DeadAfterThreeRetries(start, before);
      StepRetries(After(start, before), acts[|acts| - 1]);
    }
  }

  /** In every run, with duplicate publishes, expired leases, crashes, lost consumers and failed
      commands, the event of a published row is accounted for. */
  lemma PublishedIsAccountedFor(start: State, acts: seq<Action>, id: nat)
    requires Starts(start) && Possible(start, acts)
    requires id in After(start, acts).outbox.rows && After(start, acts).outbox.rows[id].status.Published?
    ensures AccountedFor(After(start, acts), RowEvent(After(start, acts).outbox.rows[id]))
  {
    RunInv(start, acts);
    PublishedIsKnown(After(start, acts), id);
    KnownIsAccountedFor(After(start, acts), RowEvent(After(start, acts).outbox.rows[id]));
  }

  /** Once the broker has accepted a row's event, whatever becomes of the row, the event stays
      accounted for. */
  lemma HandedIsAccountedFor(start: State, acts: seq<Action>, id: nat)
    requires Starts(start) && Possible(start, acts)
    requires id in After(start, acts).outbox.handed
    ensures id in After(start, acts).outbox.rows
    ensures AccountedFor(After(start, acts), RowEvent(After(start, acts).outbox.rows[id]))
  {
    RunInv(start, acts);
    var s := After(start, acts);
    assert RowEvent(s.outbox.rows[id]) in Known(s);
    KnownIsAccountedFor(s, RowEvent(s.outbox.rows[id]));
  }

  lemma PublishedIsKnown(s: State, id: nat)
    requires Inv(s)
    requires id in s.outbox.rows && s.outbox.rows[id].status.Published?
    ensures RowEvent(s.outbox.rows[id]) in Known(s)
  {
    assert P.RowOk(s.outbox.rows[id], id in s.outbox.handed, s.outbox.now);
  }

  /** Every row is published and nothing is under way or dead-lettered. */
  predicate Settled(s: State) {
    && (forall id | id in s.outbox.rows :: s.outbox.rows[id].status.Published?)
    && s.queue == multiset{} && s.held == map[] && s.dead == multiset{}
  }

  lemma SettledAddedAll(s: State)
    requires Inv(s) && Settled(s)
    ensures s.added == Entries(s.videos)
  {
    assert s.added <= Entries(s.videos);
    forall e | e in Entries(s.videos) ensures e in s.added {
      assert HasRow(s.outbox.rows, e.member);
      var id :| id in s.outbox.rows && s.outbox.rows[id].videoId == e.member;
      PublishedIsKnown(s, id);
      SettledKnown(s);
    }
  }

  lemma SettledKnown(s: State)
    requires s.queue == multiset{} && s.held == map[] && s.dead == multiset{}
    ensures Known(s) == s.added
  {}

  /** Once everything is settled, every video was added, so the timeline holds the newest 1000
      videos of the table and no stranger.  It is exactly the newest 1000 if and only if it holds at
      most 1000 entries; only a lost trim, or a rebuild that came too late, can leave it longer. */
  lemma SettledTimeline(start: State, acts: seq<Action>)
    requires Starts(start) && Possible(start, acts)
    requires Settled(After(start, acts))
    ensures var s := After(start, acts);
            && NewestSet(Entries(s.videos), TIMELINE_LIMIT) <= Entries(s.timeline) <= Entries(s.videos)
            && (Entries(s.timeline) == NewestSet(Entries(s.videos), TIMELINE_LIMIT) <==> |s.timeline| <= TIMELINE_LIMIT)
            && (!s.untrimmed ==> |s.timeline| <= TIMELINE_LIMIT)
  {
    RunInv(start, acts);
    var s := After(start, acts);
    SettledAddedAll(s);
    ExactWhenSmall(s.timeline, s.added);
  }
}
