/**
  The broker topology that the program declares (internal/middleware/rabbitmq): topic exchanges,
  queues, bindings, and one dead-letter queue per queue.
*/
module Topology {
  import opened Wrappers

  /** Routing keys and binding keys, split at the dots. */
  type Words = seq<string>

  datatype Binding = Binding(exchange: string, key: Words, queue: string)

  datatype Broker = Broker(exchanges: set<string>, queues: set<string>, bindings: set<Binding>)

  const DLX_EXCHANGE := "dlx.events"

  function DlxQueue(queue: string): string {
    queue + ".dlx"
  }

  /** Topic matching: a star stands for exactly one word, a hash for any number of words. */
  predicate Matches(pattern: Words, key: Words)
    decreases |pattern| + |key|
  {
    if pattern == [] then key == []
    else if pattern[0] == "#" then Matches(pattern[1..], key) || (key != [] && Matches(pattern, key[1..]))
    else key != [] && (pattern[0] == "*" || pattern[0] == key[0]) && Matches(pattern[1..], key[1..])
  }

  lemma {:induction false} HashMatchesAll(key: Words)
    ensures Matches(["#"], key)
  {
    assert ["#"][1..] == [];
    if key != [] {
      HashMatchesAll(key[1..]);
    }
  }

  /** The queues that receive a message. */
  function Route(b: Broker, exchange: string, key: Words): set<string> {
    set x | x in b.bindings && x.exchange == exchange && Matches(x.key, key) :: x.queue
  }

  /** Queues are declared with dlx.events as their dead-letter exchange and no dead-letter routing
      key, so a rejected message is routed there under its own key. */
  function DeadLetter(b: Broker, key: Words): set<string> {
    Route(b, DLX_EXCHANGE, key)
  }

  datatype Declaration = Declaration(exchange: string, queue: string, key: Words)

  /** Something a declaration makes. */
  datatype Made = Exchange(name: string) | Queue(name: string) | Bound(binding: Binding)

  predicate Has(b: Broker, x: Made) {
    match x
    case Exchange(name) => name in b.exchanges
    case Queue(name) => name in b.queues
    case Bound(binding) => binding in b.bindings
  }

  /** What one declaration makes, in this order: its own side and then its dead-letter side. */
  function Steps(d: Declaration): (r: seq<Made>)
    ensures |r| == 6
  {
    [Exchange(d.exchange), Queue(d.queue), Bound(Binding(d.exchange, d.key, d.queue)),
     Exchange(DLX_EXCHANGE), Queue(DlxQueue(d.queue)), Bound(Binding(DLX_EXCHANGE, d.key, DlxQueue(d.queue)))]
  }

  /** A step is tried once all before it were reported done. */
  predicate Tried(ends: seq<Outcome>, i: nat) {
    i <= |ends| && forall j | 0 <= j < i :: ends[j].Reported()
  }

  /** Some step from `first` on that was tried made x, reported or not. */
  predicate MadeBy(d: Declaration, ends: seq<Outcome>, first: nat, x: Made)
    requires |ends| == 6
  {
    exists i: nat :: first <= i < 6 && Steps(d)[i] == x && Tried(ends, i) && ends[i].Applied()
  }

  class Channel {
    var broker: Broker

    constructor ()
      ensures broker == Broker({}, {}, {})
    {
      broker := Broker({}, {}, {});
    }

    method ExchangeDeclare(exchange: string, end: Outcome) returns (err: bool)
      modifies this
      ensures err <==> !end.Reported()
      ensures forall x :: Has(broker, x) <==> Has(old(broker), x) || (end.Applied() && x == Exchange(exchange))
    {
      if end.Applied() {
        broker := broker.(exchanges := broker.exchanges + {exchange});
      }
      err := !end.Reported();
    }

    method QueueDeclare(queue: string, end: Outcome) returns (err: bool)
      modifies this
      ensures err <==> !end.Reported()
      ensures forall x :: Has(broker, x) <==> Has(old(broker), x) || (end.Applied() && x == Queue(queue))
    {
      if end.Applied() {
        broker := broker.(queues := broker.queues + {queue});
      }
      err := !end.Reported();
    }

    method QueueBind(queue: string, key: Words, exchange: string, end: Outcome) returns (err: bool)
      modifies this
      ensures err <==> !end.Reported()
      ensures forall x ::
                Has(broker, x) <==> Has(old(broker), x) || (end.Applied() && x == Bound(Binding(exchange, key, queue)))
    {
      if end.Applied() {
        broker := broker.(bindings := broker.bindings + {Binding(exchange, key, queue)});
      }
      err := !end.Reported();
    }

    /** The exchange, the queue and the binding, each only after the one before; a failure on the
        dead-letter side is only logged. */
    method DeclareTopic(d: Declaration, ends: seq<Outcome>) returns (err: bool)
      requires |ends| == 6
      modifies this
      ensures d.exchange == "" || d.queue == "" || d.key == [] ==> err && broker == old(broker)
      ensures d.exchange != "" && d.queue != "" && d.key != [] && (forall i | 0 <= i < 6 :: ends[i] == Done) ==>
                && !err
                && broker.exchanges == old(broker).exchanges + {d.exchange, "dlx.events"}
                && broker.queues == old(broker).queues + {d.queue, d.queue + ".dlx"}
                && broker.bindings == old(broker).bindings
                     + {Binding(d.exchange, d.key, d.queue), Binding("dlx.events", d.key, d.queue + ".dlx")}
      ensures !(d.exchange == "" || d.queue == "" || d.key == []) ==>
                && (err <==> !Tried(ends, 3))
                && forall x :: Has(broker, x) <==> Has(old(broker), x) || MadeBy(d, ends, 0, x)
    {
      if d.exchange == "" || d.queue == "" || d.key == [] {
        return true;
      }
      err := ExchangeDeclare(d.exchange, ends[0]);
      if err {
        return;
      }
      err := QueueDeclare(d.queue, ends[1]);
      if err {
        return;
      }
      err := QueueBind(d.queue, d.key, d.exchange, ends[2]);
      if err {
        return;
      }
      var _ := DeclareDLX(d, ends);
      if forall i | 0 <= i < 6 :: ends[i] == Done {
        DoneIsDeclared(old(broker), d, ends, broker);
      }
    }

    method DeclareDLX(d: Declaration, ends: seq<Outcome>) returns (err: bool)
      requires |ends| == 6 && Tried(ends, 3)
      modifies this
      ensures err <==> !Tried(ends, 6)
      ensures forall x :: Has(broker, x) <==> Has(old(broker), x) || MadeBy(d, ends, 3, x)
    {
      err := ExchangeDeclare(DLX_EXCHANGE, ends[3]);
      if err {
        return;
      }
      err := QueueDeclare(DlxQueue(d.queue), ends[4]);
      if err {
        return;
      }
      err := QueueBind(DlxQueue(d.queue), d.key, DLX_EXCHANGE, ends[5]);
    }
  }

  /** The broker after a declaration of which every step succeeded. */
  function Declared(b: Broker, d: Declaration): Broker {
    Broker(
      b.exchanges + {d.exchange, DLX_EXCHANGE},
      b.queues + {d.queue, DlxQueue(d.queue)},
      b.bindings + {Binding(d.exchange, d.key, d.queue), Binding(DLX_EXCHANGE, d.key, DlxQueue(d.queue))})
  }

  /** If every step is reported done, a broker that has gained what the steps make is `Declared`. */
  lemma DoneIsDeclared(b: Broker, d: Declaration, ends: seq<Outcome>, after: Broker)
    requires |ends| == 6 && Tried(ends, 6)
    requires forall x :: Has(after, x) <==> Has(b, x) || MadeBy(d, ends, 0, x)
    ensures after == Declared(b, d)
  {
    forall x ensures MadeBy(d, ends, 0, x) <==> x in Steps(d) {
      assert forall i: nat | i < 6 :: Tried(ends, i) && ends[i].Applied();
    }
    forall name ensures name in after.exchanges <==> name in Declared(b, d).exchanges {
      assert Has(after, Exchange(name)) <==> name in after.exchanges;
    }
    forall name ensures name in after.queues <==> name in Declared(b, d).queues {
      assert Has(after, Queue(name)) <==> name in after.queues;
    }
    forall binding ensures binding in after.bindings <==> binding in Declared(b, d).bindings {
      assert Has(after, Bound(binding)) <==> binding in after.bindings;
    }
  }

  /** The topology after any number of declarations of which every step succeeded. */
  function DeclareAll(ds: seq<Declaration>): Broker {
    if ds == [] then Broker({}, {}, {})
    else Declared(DeclareAll(ds[..|ds| - 1]), ds[|ds| - 1])
  }

  lemma {:induction false} BindingsOf(ds: seq<Declaration>, x: Binding)
    ensures x in DeclareAll(ds).bindings <==>
            exists d ::
              && d in ds
              && (x == Binding(d.exchange, d.key, d.queue) || x == Binding(DLX_EXCHANGE, d.key, DlxQueue(d.queue)))
  {
    if ds != [] {
      var front, last := ds[..|ds| - 1], ds[|ds| - 1];
      BindingsOf(front, x);
      assert ds == front + [last];
      forall d | d in ds ensures d in front || d == last {}
      forall d | d in front || d == last ensures d in ds {}
    }
  }

  /** No application exchange is called dlx.events. */
  predicate Separate(ds: seq<Declaration>) {
    forall d | d in ds :: d.exchange != DLX_EXCHANGE
  }

  /** A message that an application exchange routes to a queue is, when rejected from it, routed to
      that queue's own dead-letter queue: both share the binding key. */
  lemma DeadLetterReachesOwnQueue(ds: seq<Declaration>, exchange: string, key: Words, queue: string)
    requires Separate(ds) && exchange != DLX_EXCHANGE
    requires queue in Route(DeclareAll(ds), exchange, key)
    ensures DlxQueue(queue) in DeadLetter(DeclareAll(ds), key)
  {
    var b := DeclareAll(ds);
    var x :| x in b.bindings && x.exchange == exchange && Matches(x.key, key) && x.queue == queue;
    BindingsOf(ds, x);
    var d :| d in ds && x == Binding(d.exchange, d.key, d.queue);
    var y := Binding(DLX_EXCHANGE, d.key, DlxQueue(d.queue));
    BindingsOf(ds, y);
    assert y in b.bindings && Matches(y.key, key);
  }

  /** The dead-letter queues reached are exactly those of the declared queues whose key matches. */
  lemma DeadLetterExactly(ds: seq<Declaration>, key: Words, q: string)
    requires Separate(ds)
    ensures q in DeadLetter(DeclareAll(ds), key) <==>
            exists d :: d in ds && Matches(d.key, key) && q == DlxQueue(d.queue)
  {
    var b := DeclareAll(ds);
    if q in DeadLetter(b, key) {
      var x :| x in b.bindings && x.exchange == DLX_EXCHANGE && Matches(x.key, key) && x.queue == q;
      BindingsOf(ds, x);
    }
    forall d | d in ds && Matches(d.key, key) && q == DlxQueue(d.queue) ensures q in DeadLetter(b, key) {
      var y := Binding(DLX_EXCHANGE, d.key, DlxQueue(d.queue));
      BindingsOf(ds, y);
      assert y in b.bindings;
    }
  }

  // ---------------------------------------------------------------- the deployed topology

  const LIKE := Declaration("like.events", "like.events", ["like", "*"])
  const COMMENT := Declaration("comment.events", "comment.events", ["comment", "*"])
  const SOCIAL := Declaration("social.events", "social.events", ["social", "*"])
  const TIMELINE := Declaration("video.timeline.events", "video.timeline.events", ["video", "timeline", "*"])
  const POPULARITY := Declaration("video.popularity.events", "video.popularity.events", ["video", "popularity", "*"])
  const NOTIFY_LIKE := Declaration("like.events", "notification.like", ["like", "like"])
  const NOTIFY_COMMENT := Declaration("comment.events", "notification.comment", ["comment", "publish"])
  const NOTIFY_SOCIAL := Declaration("social.events", "notification.social", ["social", "follow"])

  const DEPLOYED := [LIKE, COMMENT, SOCIAL, TIMELINE, POPULARITY, NOTIFY_LIKE, NOTIFY_COMMENT, NOTIFY_SOCIAL]

  /** The exchanges and routing keys that the program publishes with. */
  datatype RoutingKey = LikeLike | LikeUnlike | CommentPublish | CommentDelete | SocialFollow | SocialUnfollow
                      | TimelinePublish | PopularityUpdate
  {
    function Exchange(): string {
      match this
      case LikeLike => "like.events"
      case LikeUnlike => "like.events"
      case CommentPublish => "comment.events"
      case CommentDelete => "comment.events"
      case SocialFollow => "social.events"
      case SocialUnfollow => "social.events"
      case TimelinePublish => "video.timeline.events"
      case PopularityUpdate => "video.popularity.events"
    }

    function Key(): Words {
      match this
      case LikeLike => ["like", "like"]
      case LikeUnlike => ["like", "unlike"]
      case CommentPublish => ["comment", "publish"]
      case CommentDelete => ["comment", "delete"]
      case SocialFollow => ["social", "follow"]
      case SocialUnfollow => ["social", "unfollow"]
      case TimelinePublish => ["video", "timeline", "publish"]
      case PopularityUpdate => ["video", "popularity", "update"]
    }

    /** Whether the notification service listens to it too. */
    predicate Notified() { LikeLike? || CommentPublish? || SocialFollow? }
  }

  lemma RouteOfDeclared(ds: seq<Declaration>, exchange: string, key: Words, q: string)
    requires exchange != DLX_EXCHANGE
    ensures q in Route(DeclareAll(ds), exchange, key) <==>
            exists d :: d in ds && d.exchange == exchange && Matches(d.key, key) && d.queue == q
  {
    var b := DeclareAll(ds);
    if q in Route(b, exchange, key) {
      var x :| x in b.bindings && x.exchange == exchange && Matches(x.key, key) && x.queue == q;
      BindingsOf(ds, x);
    }
    forall d | d in ds && d.exchange == exchange && Matches(d.key, key) && d.queue == q
      ensures q in Route(b, exchange, key)
    {
      BindingsOf(ds, Binding(exchange, d.key, d.queue));
      assert Binding(exchange, d.key, d.queue) in b.bindings;
    }
  }

  predicate WordByWord(p: Words, k: Words) {
    |p| == |k| && forall i | 0 <= i < |p| :: p[i] == "*" || p[i] == k[i]
  }

  /** Without hashes a pattern matches word by word. */
  lemma {:induction false} MatchesWordByWord(p: Words, k: Words)
    requires forall i | 0 <= i < |p| :: p[i] != "#"
    ensures Matches(p, k) <==> WordByWord(p, k)
  {
    if p != [] && k != [] {
      MatchesWordByWord(p[1..], k[1..]);
      assert WordByWord(p, k) <==> (p[0] == "*" || p[0] == k[0]) && WordByWord(p[1..], k[1..]) by {
        if WordByWord(p[1..], k[1..]) && (p[0] == "*" || p[0] == k[0]) {
          forall i | 0 <= i < |p| ensures p[i] == "*" || p[i] == k[i] {
            if i > 0 {
              assert p[1..][i - 1] == p[i] && k[1..][i - 1] == k[i];
            }
          }
        }
      }
    }
  }

  /** The main queue of a routing key is named like its exchange. */
  function NotifyQueue(r: RoutingKey): string {
    if r.LikeLike? then "notification.like"
    else if r.CommentPublish? then "notification.comment"
    else "notification.social"
  }

  /** Every event reaches its main queue; likes, comments and follows also reach the notification
      queue bound to the same routing key. */
  lemma FanOut(r: RoutingKey)
    ensures Route(DeclareAll(DEPLOYED), r.Exchange(), r.Key())
            == {r.Exchange()} + if r.Notified() then {NotifyQueue(r)} else {}
  {
    var all := Route(DeclareAll(DEPLOYED), r.Exchange(), r.Key());
    forall q ensures q in all <==> q == r.Exchange() || (r.Notified() && q == NotifyQueue(r)) {
      RouteOfDeclared(DEPLOYED, r.Exchange(), r.Key(), q);
      forall d | d in DEPLOYED && d.exchange == r.Exchange()
        ensures Matches(d.key, r.Key()) <==> d.queue == r.Exchange() || (r.Notified() && d.queue == NotifyQueue(r))
      {
        Heard(r, d);
      }
      Deployed(r);
    }
  }

  /** Both queues of a routing key are declared on its exchange. */
  lemma Deployed(r: RoutingKey)
    ensures exists d :: d in DEPLOYED && d.exchange == r.Exchange() && d.queue == r.Exchange()
    ensures r.Notified() ==> exists d :: d in DEPLOYED && d.exchange == r.Exchange() && d.queue == NotifyQueue(r)
  {
    match r {
      case LikeLike => assert LIKE in DEPLOYED && NOTIFY_LIKE in DEPLOYED;
      case LikeUnlike => assert LIKE in DEPLOYED;
      case CommentPublish => assert COMMENT in DEPLOYED && NOTIFY_COMMENT in DEPLOYED;
      case CommentDelete => assert COMMENT in DEPLOYED;
      case SocialFollow => assert SOCIAL in DEPLOYED && NOTIFY_SOCIAL in DEPLOYED;
      case SocialUnfollow => assert SOCIAL in DEPLOYED;
      case TimelinePublish => assert TIMELINE in DEPLOYED;
      case PopularityUpdate => assert POPULARITY in DEPLOYED;
    }
  }

  /** A declared queue hears a routing key of its exchange if and only if it is the main queue or
      the notification queue of that key. */
  lemma Heard(r: RoutingKey, d: Declaration)
    requires d in DEPLOYED && d.exchange == r.Exchange()
    ensures Matches(d.key, r.Key()) <==> d.queue == r.Exchange() || (r.Notified() && d.queue == NotifyQueue(r))
  {
    assert d == LIKE || d == COMMENT || d == SOCIAL || d == TIMELINE || d == POPULARITY
        || d == NOTIFY_LIKE || d == NOTIFY_COMMENT || d == NOTIFY_SOCIAL;
    MatchesWordByWord(d.key, r.Key());
    LengthsDiffer();
    assert "like"[0] != "unlike"[0] && "publish"[0] != "delete"[0] && "follow"[0] != "unfollow"[0];
  }

  lemma LengthsDiffer()
    ensures |"like.events"| == 11 && |"comment.events"| == 14 && |"social.events"| == 13
    ensures |"video.timeline.events"| == 21 && |"video.popularity.events"| == 23
    ensures |"notification.like"| == 17 && |"notification.comment"| == 20 && |"notification.social"| == 19
  {}
}
