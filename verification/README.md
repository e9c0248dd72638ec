# GoVideo, verified

Dafny models of GoVideo's asynchronous pipeline and of the feed that reads from it, with proofs of what they
guarantee. `dafny verify dfyconfig.toml` checks the whole project.

## What is modelled

- **Publish, outbox, broker, timeline.** `Outbox` holds the SQL statements of the outbox worker,
  `OutboxProtocol` any number of workers whose statements, publishes and crashes interleave,
  `OutboxGuarantees`, `OutboxBound` and `OutboxClaims` what every run keeps, `OutboxWorker` the polling loop as
  one worker runs it, `OutboxDrain` how one worker drains what many left behind. `Topology` is the exchanges,
  queues and dead-letter queues that the program declares, `Retry` the copies of one message that retries make,
  `Timeline` the sorted set with its add and trim commands, and `Pipeline` all of it end to end.
- **Feed reads.** `FeedQuery` is the newest-first query with its ties, `FeedLatest` what the timeline and the table
  answer together, `FeedService` the service's code, `FeedSession` a reader who scrolls while everything changes,
  and `FeedTies` and `FeedScroll` exactly what a reader of an unchanging feed is shown. `EntityCache` is the
  three-level lookup by id; `Paging` and `FeedRepo` are the keyset-paged lists; `HotList` is the merged minute
  buckets. `EndToEnd` ties the settled pipeline to what readers see.
- **Redis scripts.** `RateLimit` is the sliding-window limiter, `TokenLock` the lock with a token, and
  `VideoDetail` the cached read of one video that uses the lock.
- **Derived counters.** `LikeCounters` is the interleaving of workers and fallback transactions that keep
  `likes_count` and `popularity`; `LikeService` and `CommentWorker` are the workers and the like service as code
  runs them.

`Ranking` (lists sorted by lexicographic keys), `Levels` (what four attempts per chance add up to) and `Wrappers` are
shared.

Code that changes state is a class whose methods follow the source's branches and loops; each is tied to a function
or relation on values, and the theorems about runs are lemmas about those. Steps that can interleave are one SQL
statement, one broker call or one Redis command each.

## Where the program does not do what one would expect

Each item names a lemma with an input for which the expected behaviour fails, and the exact condition under which
it holds.

- A published outbox row can go back to pending: marking does not look at the lease. Input:
  `OutboxGuarantees.PublishedCanBeUndone`. Condition: a published row stays published in every run from here if and
  only if no worker stands between a claim of that row and the report of a successful publish
  (`OutboxGuarantees.PublishedForGoodIff`); workers that finish within the lease never get there
  (`OutboxGuarantees.PublishedStays`).
- The timeline can be left with more than its 1000 newest entries: the error of a trim is dropped. Input:
  `Timeline.FailedTrimsLeaveTooMany`. Condition: it is exactly the newest 1000 if and only if the newest 1000 of what
  was added by the last trim, together with all that was added since, are at most 1000 entries
  (`Timeline.Confluence`).
- An event that arrives late into a timeline that has room hides the rows between it and the old oldest entry.
  Input: `FeedLatest.LateEventHides`. Condition: `FeedLatest.AddKeepsView`.
- The cursor of the newest-first feed is a bare time, so a page that ends between two videos of one millisecond
  loses the rest of them. Input: `FeedTies.TieAtBoundaryIsLost`. The trim cuts the timeline by rank, so it too can
  end between two such videos, and then the feed shows neither from the timeline nor from the table what was
  removed. Input: `FeedLatest.TrimHidesTie`. Condition, for every page size, with Redis or without, whatever the
  caches hold: scrolling an unchanging feed shows every video if and only if nothing at or above the timeline's
  oldest entry is missing from the timeline and no page boundary falls between videos of one millisecond
  (`FeedScroll.ShowsAllIff`); a trim keeps the first part if and only if the 1000th entry and the next differ in time
  (`FeedLatest.TrimKeepsView`, and `NewestShowsAll`, `RebuildShowsAll`, `EndToEnd.SettledFeedShowsAll` for the newest
  1000 rows).
- A merge of the hot list that is made too late misses the oldest bucket. Input: `HotList.LateMergeMisses`.
  Condition: a merge is sure to be the full window if and only if it is made less than 61 minutes after its last
  minute began (`HotList.MergeSureIffInTime`).
- A decrement that overtakes its increment meets a zero and leaves the count too high. Input:
  `LikeCounters.OvertakenLikeStays`. Condition: the count is right if and only if that never happened
  (`LikeCounters.RightIffNeverClamped`).
- The rate limiter's keys can expire while they hold admissions that still count. Input: `RateLimit.ExpiryMatters`.
  Condition: expiry never matters if and only if clocks are off by at most half a second
  (`RateLimit.ExpiryNeverMattersIff`).

## Assumptions

- A publish that the broker accepts is in every bound queue. All outbox workers share one clock.
- Redis neither loses nor evicts the timeline; expiries follow one Redis clock. Scores are exact integers
  (millisecond stamps stay below 2^53).
- MySQL statements are atomic; a failed statement may or may not have taken effect.
- Creation times and cursors are whole milliseconds. Rows of `videos` are never deleted.
- JSON encoding and decoding lose nothing; undecodable payloads are a case of their own.

## Model

| member | source | states |
|---|---|---|
| OutboxProtocol.StepInv | internal/worker/outbox_worker.go:78-196 | every statement, publish, crash or new row keeps the invariant of rows, snapshots and claims, for any number of workers |
| OutboxGuarantees.RowsAlwaysOk | internal/worker/outbox_worker.go:99-196 | in every run: pending or processing rows have a stored retry count of at most 3, failed rows exactly 4, published rows were accepted by the broker at least once |
| OutboxGuarantees.ClaimedByWinning | internal/worker/outbox_worker.go:142-157 | a worker at a claimed message won that claim earlier in the run and has done nothing since |
| OutboxGuarantees.PublishNeedsClaim | internal/worker/outbox_worker.go:113-137 | every publish is preceded by a winning claim of the same row by the same worker, which does nothing in between |
| OutboxGuarantees.LeaseLasts | internal/worker/outbox_worker.go:99-108 | from a claim on, while nobody marks or claims the row, it stays leased until the lease is over |
| OutboxGuarantees.ClaimsAreFarApart | internal/worker/outbox_worker.go:99-157 | two claims of one row with no mark or claim between them are more than the timeout apart |
| OutboxGuarantees.StepKeepsExclusive | internal/worker/outbox_worker.go:99-196 | one step of prompt workers keeps: a holder's row is leased to it and it has no rival |
| OutboxGuarantees.AtMostOneHolder | internal/worker/outbox_worker.go:99-157 | if no claim is held longer than the lease, at most one worker at a time is between claim and mark of a row, over whole runs |
| OutboxGuarantees.PublishedForGoodIff | internal/worker/outbox_worker.go:113-196 | a published row stays published in every run from here, whatever all workers do, if and only if no worker has claimed that row and not yet been told that its publish succeeded |
| OutboxGuarantees.PublishedStays | internal/worker/outbox_worker.go:160-196 | with prompt workers a published row stays published for the rest of the run |
| OutboxGuarantees.PublishedCanBeUndone | internal/worker/outbox_worker.go:177-196 | a run with two workers in which a published row becomes pending again |
| OutboxBound.StepPotential | internal/worker/outbox_worker.go:78-196 | no step raises the potential of a row, and a mark pays for itself |
| OutboxBound.AttemptsBounded | internal/worker/outbox_worker.go:78-196 | with n workers, stale snapshots, crashes and expired leases included, at most n + n^2 + n^3 + n^4 attempts on a row are ever marked; 4 for one worker |
| OutboxBound.PublishesBounded | internal/worker/outbox_worker.go:113-137 | without crashes and database errors the same bound holds for the number of publishes of one row |
| OutboxClaims.RunClaims | internal/worker/outbox_worker.go:78-157 | without crashes and database errors: scans of a row are tries plus workers still waiting for it, wins are marks plus workers still holding it, and lost claims are paid for by wins and marks |
| OutboxClaims.TriesBounded | internal/worker/outbox_worker.go:78-157 | so n live workers try one row at most B + n + n(2B + n) times, with B = n + n^2 + n^3 + n^4, and list it in at most n more scans |
| OutboxClaims.ScansRunEmpty | internal/worker/outbox_worker.go:78-96 | in every such run of n workers only so many scans find anything; from then on all polls of all workers find no pending row |
| Outbox.ResetFreesExpired | internal/worker/outbox_worker.go:99-108 | the statement leaves no expired lease: such rows can be claimed at once with their retry count kept, no other row changes, and doing it twice is doing it once |
| Outbox.ScanTakesOldest | internal/worker/outbox_worker.go:84-90 | a scan lists the oldest pending rows, oldest first and each once, and leaves a pending row out only when it is full |
| OutboxWorker.Worker.ResetExpiredProcessing | internal/worker/outbox_worker.go:99-108 | after it, reported or not, no lease is expired, rows that had such a lease can be claimed, and the others are as they were; a statement that did not take effect changes nothing |
| OutboxWorker.Worker.ClaimRow | internal/worker/outbox_worker.go:142-157 | the claim succeeds if and only if the row was pending, and is reported only when the statement was |
| OutboxWorker.Worker.PublishOne | internal/worker/outbox_worker.go:113-137 | the event is sent if and only if the row was pending, this worker's claim of it was reported and the broker took it; an error exactly when a statement was not reported done or the broker refused; the table for every outcome |
| OutboxWorker.PublishOneEnds | internal/worker/outbox_worker.go:113-196 | the row after each outcome: untouched without a claim, processing if the reply or the mark is lost, published, or one attempt more and pending, failed after the fourth; no other row changes |
| OutboxWorker.Worker.PollOnce | internal/worker/outbox_worker.go:78-96 | the loop over one batch has the effect of publishing the scanned snapshot message by message, on the table and on what is sent; what is sent are different messages of rows that were pending; without faults all scanned rows are sent and published; a poll that fails sends nothing |
| OutboxWorker.StepsMakePublishOne | internal/worker/outbox_worker.go:113-137 | the protocol steps of an undisturbed worker have the effect of PublishOne on the table and on what is handed to the broker; a worker whose claim is lost hands over nothing |
| OutboxWorker.BatchSpends | internal/worker/outbox_worker.go:78-96 | a batch spends at least one remaining attempt per message |
| OutboxWorker.PollingDrains | internal/worker/outbox_worker.go:78-196 | as many fault-free polls as there are attempts left leave every row published or failed, whatever the broker answers |
| OutboxDrain.PollLeads | internal/worker/outbox_worker.go:78-137 | a worker between polls can make, by protocol steps of its own, every poll that the code makes |
| OutboxDrain.FinishLeads | internal/worker/outbox_worker.go:78-196 | a worker can finish whatever it is at, even marks of rows it has lost |
| OutboxDrain.OneWorkerDrains | internal/worker/outbox_worker.go:78-196 | no state that n workers can reach - stale snapshots, open leases, stopped workers - is a dead end: any one worker alone can bring every row to published or failed, whatever the broker answers to its polls (rows name a video, as those of the service do) |
| Topology.Channel.DeclareTopic | internal/middleware/rabbitmq/rabbit_mq.go:58-106 | without faults, exchange, queue, binding and their dead-letter twins; for every outcome of each of its six steps: what the broker has afterwards, and an error exactly when a step of the main side was not reported done |
| Topology.DoneIsDeclared | internal/middleware/rabbitmq/dlx.go:14-55 | if every step is reported done, the broker gained the exchange, the queue, the binding and their dead-letter twins, and nothing else |
| Topology.BindingsOf | internal/middleware/rabbitmq/dlx.go:14-55 | the bindings after any number of declarations are exactly the declared ones and their dead-letter twins |
| Topology.DeadLetterReachesOwnQueue | internal/middleware/rabbitmq/dlx.go:31-52 | a message rejected from a queue is routed to that queue's own dead-letter queue |
| Topology.DeadLetterExactly | internal/middleware/rabbitmq/dlx.go:31-52 | the dead-letter queues reached are exactly those of the declared queues whose key matches |
| Topology.FanOut | internal/middleware/rabbitmq/notification_mq.go:17-33 | for every routing key the program publishes with, exactly the main queue and, for likes, comments and follows, the notification queue receive it |
| Retry.Consumer.RepublishForRetry | internal/worker/retry.go:87-110 | if the publish arrived, one waiting copy in every queue with the new count and everything else as in the original, and otherwise none; what was there stays, and an error means not confirmed |
| Retry.Consumer.HandleMainDelivery | internal/worker/retry.go:46-71 | a success acknowledges the copy; a failure at a count of three dead-letters it; an earlier one leaves it replaced by a copy in every queue with the next count, or back in its queue if the publish was not confirmed; no other copy changes |
| Retry.StepInv | internal/worker/retry.go:46-110 | deliveries, crashes and redeliveries keep every copy waiting, done, replaced by a full set with the next count, or dead-lettered |
| Retry.PlacesExplained | internal/worker/retry.go:46-71 | in every run an acknowledged copy was processed with success, and a dead-lettered one failed with a count of three |
| Retry.NothingLost | internal/worker/retry.go:46-71 | after any run, following the replacements in each queue leads to a copy that waits, was processed with success, or failed its third retry and is dead-lettered |
| Retry.CallsBounded | internal/worker/retry.go:46-110 | without faults one message on f queues causes at most f + f^2 + f^3 + f^4 calls of process, exactly that many when all fail, and the run ends |
| Timeline.TrimKeepsNewest | internal/worker/timeline_worker.go:66-70 | removing ranks 0 to -1001 keeps exactly the newest 1000 entries |
| Timeline.TiesByText | internal/worker/timeline_worker.go:57-70 | videos of one millisecond rank by the text of their ids, as Redis orders members |
| Timeline.TimelineWorker.Process | internal/worker/timeline_worker.go:44-72 | the set after one delivery, and the reported error, for every outcome of both commands; without faults the timeline is exactly the newest 1000 of what it held and the event |
| Timeline.DeliveryIsCommands | internal/worker/timeline_worker.go:44-72 | a delivery is the add and then the trim, cut short by their outcomes |
| Timeline.DeliveriesAreCommands | internal/worker/timeline_worker.go:44-72 | any sequence of deliveries is a run of such commands, so what is proved of runs holds of the worker |
| Timeline.RunSandwiched | internal/worker/timeline_worker.go:57-70 | in any interleaving of adds and trims the set lies between the newest 1000 of what was added and all of it |
| Timeline.RunLeavesOver | internal/worker/timeline_worker.go:57-70 | every run leaves exactly the newest 1000 of what was added by the last trim and all that was added since |
| Timeline.Confluence | internal/worker/timeline_worker.go:57-70 | that is exactly the newest 1000 of everything if and only if it is at most 1000 entries, and never less than them |
| Timeline.FailedTrimsLeaveTooMany | internal/worker/timeline_worker.go:66-70 | deliveries that all succeed but whose trims fail leave a timeline of more than 1000 entries |
| Timeline.OrderIrrelevant | internal/worker/timeline_worker.go:57-70 | two runs that added the same events and end with a trim end with the same set |
| Pipeline.StepInv | internal/worker/timeline_worker.go:44-72 | every action of the whole pipeline keeps its invariant |
| Pipeline.PublishedIsAccountedFor | internal/worker/outbox_worker.go:160-174 | in every run a published row's event is queued, with a consumer, dead-lettered, or was added to the timeline |
| Pipeline.HandedIsAccountedFor | internal/worker/retry.go:46-71 | in every run, an event that the broker has accepted is queued, with a consumer, dead-lettered, or was added to the timeline |
| Pipeline.DeadAfterThreeRetries | internal/worker/retry.go:55-71 | in every run of the pipeline only messages with a retry count of exactly three are dead-lettered |
| Pipeline.NoEventIsDropped | internal/worker/timeline_worker.go:44-56 | no event without a video or a time is ever delivered, so the timeline worker skips none |
| Pipeline.StepsMakeProcess | internal/worker/timeline_worker.go:44-72 | undisturbed, the pipeline's steps for one delivery have the effect of the worker's code |
| Pipeline.SettledTimeline | internal/api/video/service.go:53-91 | all rows published and queues drained: the timeline holds the newest 1000 published videos and no stranger, and is exactly them if and only if it holds at most 1000 |
| EndToEnd.SettledFeedShowsAll | internal/api/feed/service.go:224-291 | a settled, trimmed timeline lets readers see every published video if and only if no millisecond spans the 1000th video and the next |
| EntityCache.Cache.GetVideosByIDs | internal/api/feed/service.go:41-154 | every value is the row's of at most an hour, five seconds and the write delay ago, and of at most five seconds ago where MySQL filled the local cache or Redis is off; rows that both caches miss are written back; ids and times are the table's, and coherent caches give a plain table lookup |
| EntityCache.LevelsInOrder | internal/api/feed/service.go:41-154 | a live local entry answers first, then a live Redis entry, then the row |
| EntityCache.LocalForFiveSeconds | internal/api/feed/service.go:86-148 | what a call found is answered locally for five seconds, whatever changes meanwhile, and not a millisecond longer |
| EntityCache.Cache.LoadFromTable | internal/api/feed/service.go:112-153 | the parallel row reads have one result, whatever order they end in |
| EntityCache.Cache.BuildOrderedResult | internal/api/feed/service.go:609-617 | the ids in their order, duplicates kept, those not found dropped |
| EntityCache.CoherentIsTableLookup | internal/api/feed/service.go:41-154 | with coherent caches any mix of hits, misses, undecodable payloads and a Redis outage gives the table's rows |
| EntityCache.CallKeepsCoherence | internal/api/feed/service.go:86-148 | a call keeps the local cache coherent |
| EntityCache.CallKeepsLocal | internal/api/feed/service.go:86-148 | Redis entries are copied only to the local cache, so the two lifetimes add up once |
| EntityCache.BoundedStaleness | internal/api/feed/service.go:86-148 | every value returned was the row's value at some moment of the last 3605 seconds plus the write delay |
| EntityCache.QuietMeansCoherent | internal/api/feed/service.go:86-148 | when no row changed for as long as an entry lives, everything that can still be served is current |
| EntityCache.TimesAgree | internal/api/feed/service.go:41-154 | even stale answers have the table's ids and creation times |
| EntityCache.Cache.UpdateRow | internal/api/feed/service.go:127-148 | a write to a row between calls keeps the invariant behind bounded staleness |
| EntityCache.Cache.DeliverWrite | internal/api/feed/service.go:127-140 | a delayed write to Redis keeps it too |
| FeedQuery.QueryIsFirst | internal/api/feed/repo.go:24-38 | without ties the ordered, limited query has one answer |
| FeedQuery.TopIffSharp | internal/api/feed/repo.go:24-38 | whatever order ties come in, an answer holds every row down to its last time if and only if no millisecond spans its last row and the next |
| FeedQuery.JoinQueries | internal/api/feed/repo.go:24-38 | answers for what is above and what is below a moment are together an answer for both |
| FeedLatest.TailIsWatermark | internal/api/feed/service.go:178-226 | the first entry by rank has the lowest score of all |
| FeedLatest.VisibleIsTable | internal/api/feed/service.go:224-291 | readers can see the whole table if and only if no row at or above the oldest timeline entry is missing from the timeline |
| FeedLatest.AddKeepsView | internal/worker/timeline_worker.go:57-65 | adding a video keeps the whole table in view if and only if no other row lies between it and the old oldest entry |
| FeedLatest.LateEventHides | internal/worker/timeline_worker.go:57-65 | a table, a timeline and a late event after which the row in between can no longer be seen |
| FeedLatest.TrimKeepsView | internal/worker/timeline_worker.go:66-70 | a trim keeps the whole table in view if and only if no millisecond spans the timeline's 1000th entry and the next |
| FeedLatest.TrimHidesTie | internal/worker/timeline_worker.go:66-70 | 1001 videos of one millisecond, all in view, of which a trim hides one for good |
| FeedLatest.InsertKeepsView | internal/api/video/service.go:53-66 | a new row is hidden until it is added, unless it is older than the whole timeline |
| FeedLatest.NewestShowsAll | internal/api/feed/service.go:224-291 | a timeline of the newest 1000 rows shows the whole table if and only if no millisecond spans the 1000th row and the next |
| FeedLatest.RebuildShowsAll | internal/api/feed/service.go:187-223 | the same of a rebuilt timeline |
| FeedLatest.NewestIdsOrdered | internal/api/feed/service.go:245-264 | the ids read by score are the newest ones below the cursor, each once, newest first, ties in any order |
| FeedLatest.FullHotPage | internal/api/feed/service.go:245-271 | for every table and timeline a full page from the timeline is an answer of the ordered query over the visible videos |
| FeedLatest.ShortHotPage | internal/api/feed/service.go:271-279 | a page that runs out of the timeline ends at the time of its oldest entry |
| FeedLatest.StitchedPage | internal/api/feed/service.go:271-290 | that page and the table query from there on are together such an answer too |
| FeedService.Service.ListLatest | internal/api/feed/service.go:157-312 | for every table, with ties or without: whatever fails, a page holds at most `limit` rows of the table, each once, times never rising, below the cursor, and its cursor and `hasMore` are those of its last video; while the reads work it agrees with an answer of one ordered query over what the request can see; only an empty timeline is rebuilt, and then everything is seen unless a millisecond spans the 1000th row and the next; it fails for no other reason than a failed read on its way |
| FeedService.ServedParts | internal/api/feed/service.go:224-291 | while the reads work the page from the timeline is served as a whole; it is completed from the table only where it is short, and a stitch that fails leaves it as it is; requests at or below the oldest entry get the table's page |
| FeedService.FailsExactly | internal/api/feed/service.go:157-291 | which failed read makes the request fail: the tail and then the range or the table query with Redis, the table query without; a failed stitch never does |
| FeedService.ServedSound | internal/api/feed/service.go:157-291 | the same of what the branches serve, ties included |
| FeedService.Service.Serve | internal/api/feed/service.go:157-312 | the branches of the code: no Redis, empty timeline with rebuild and retry, cold, hot and stitched |
| FeedService.Service.Rebuild | internal/api/feed/service.go:187-220 | an empty timeline becomes the newest 1000 rows, unless the table is empty, the query fails or the ZADD does |
| FeedService.ServedAnswers | internal/api/feed/service.go:157-291 | what the code serves is an answer of one ordered query over the table or the visible videos, up to cached counters, for every table, timeline, cursor and cache |
| FeedSession.NeverRepeats | internal/api/feed/service.go:293-311 | whatever fails, whatever is published, added, trimmed or rebuilt between pages, and whatever videos share a millisecond, no video is shown twice and times never rise |
| FeedSession.PagesBounded | internal/api/feed/service.go:293-311 | scrolling ends, ties or not: the full pages fit into the table |
| FeedSession.ShownIffNotCutOff | internal/api/feed/handler.go:33-36 | while the feed changes in any way: a video that every request could see and that is older than the first cursor is shown by the time a page is not full if and only if no page on the way ended inside its millisecond without it |
| FeedSession.NothingMissed | internal/api/feed/handler.go:33-36 | so without ties every such video is shown |
| FeedSession.ResponseIsVisit | internal/api/feed/service.go:293-311 | every page the service returns is such a visit, and its cursor is the time of its last video |
| FeedTies.CompleteIffCuts | internal/api/feed/repo.go:24-38 | listing a fixed set of videos page by page shows all of it if and only if no page boundary falls between videos of one millisecond, for every page size |
| FeedTies.CompleteIffDistinct | internal/api/feed/repo.go:30-32 | without ties scrolling shows everything for every page size; with pages of one video only then |
| FeedTies.DistinctCuts | internal/api/feed/repo.go:30-32 | without ties no boundary falls between videos of one millisecond |
| FeedTies.TieAtBoundaryIsLost | internal/api/feed/repo.go:30-32 | a table with two videos of one millisecond at a page boundary, of which one is never shown |
| FeedTies.TieInsidePageIsKept | internal/api/feed/repo.go:30-32 | the same two videos inside one page are both shown |
| FeedScroll.PageIsInFull | internal/api/feed/service.go:157-312 | what the service returns while its reads work is a page of such a listing of what the request reads from |
| FeedScroll.ScrollIsSession | internal/api/feed/service.go:224-311 | following the returned cursors over an unchanging table and timeline is listing the visible videos page by page, whatever the caches hold |
| FeedScroll.ShowsAllIff | internal/api/feed/service.go:224-311 | it shows the whole table if and only if nothing at or above the oldest timeline entry is missing from the timeline, or Redis is off, and no page boundary falls between videos of one millisecond |
| FeedScroll.ShowsAllFromTable | internal/api/feed/service.go:226-243 | the same when the first page came from the table because the clock had not passed the timeline: only what is below that page must not be missing |
| Paging.PagesPartition | internal/api/feed/service.go:315-338 | following key cursors over a fixed set lists it exactly once, in order, and stops at the first page that is not full |
| FeedRepo.LikesWhereIsBelow | internal/api/feed/repo.go:53-65 | the WHERE clause is exactly "after the cursor" in the ORDER BY order |
| FeedRepo.LikesCursorReturns | internal/api/feed/handler.go:53-109 | a returned cursor is accepted and stands for the last video |
| FeedRepo.LikesNext | internal/api/feed/service.go:315-338 | the next cursor is that of the last video, and there is more exactly when the page is full |
| FeedRepo.LikesRequests | internal/api/feed/handler.go:53-109 | without a cursor a request is the first page; half a cursor, a negative count, or a count without an id is refused, and every other cursor is taken as sent |
| FeedRepo.LikesPagingComplete | internal/api/feed/service.go:315-338 | with any ties the returned cursors list the whole table once |
| FeedRepo.PopularityWhereIsBelow | internal/api/feed/repo.go:84-103 | the same for the three-column cursor |
| FeedRepo.PopularityCursorReturns | internal/api/feed/handler.go:112-164 | a returned three-column cursor is accepted, complete, and leaves strictly less |
| FeedRepo.PopularityRequests | internal/api/feed/handler.go:112-164 | the same for the three-column cursor, whose time decides whether it is one |
| FeedRepo.PopularityPagingComplete | internal/api/feed/service.go:431-458 | with any ties the returned cursors list the whole table once by popularity |
| HotList.HotCache.UpdatePopularityCache | internal/api/video/popularity_cache.go:13-31 | which changes reach the bucket of their minute, for every outcome of both commands |
| HotList.IncrementKeeps | internal/api/video/popularity_cache.go:20-30 | an increment keeps every bucket equal to the changes of its minute |
| HotList.MergeIsWindow | internal/api/feed/service.go:345-366 | a merge made less than 61 minutes after its last minute began sums all changes of the sixty minutes, for just the videos that have any |
| HotList.LateMergeMisses | internal/api/feed/service.go:345-366 | at any moment from 61 minutes on there are buckets in order from which the merge misses a change |
| HotList.MergeSureIffInTime | internal/api/feed/service.go:345-366 | a merge is the full window for every state of the buckets if and only if it is made less than 61 minutes after its last minute began |
| HotList.MergeServesWindow | internal/api/feed/service.go:358-367 | a reader who finds no merge makes such a one for two minutes; a reader who finds one leaves it |
| HotList.HotCache.ListByPopularity | internal/api/feed/service.go:341-458 | without faults, a request without a minute is served the current hour, one with a minute the hour up to that: the rows in descending order of their sums over exactly those sixty minutes, from the offset on, and the table only for a first page of an hour without changes; a merge that is found is the hour as it was when made; with faults, the table's page or an empty one |
| HotList.HourServed | internal/api/feed/service.go:368-427 | any scores that sum up an hour give such a page, next offset and next cursor |
| HotList.FreshMergeServes | internal/api/feed/service.go:341-427 | the same of a merge just made, which then lives for 120 seconds |
| HotList.ByScoreIsComplete | internal/api/feed/service.go:368-371 | every member of a merge has one place in its ranking, higher scores first |
| HotList.HotPagesExact | internal/api/feed/service.go:368-427 | a reader who follows the returned offsets over one merge gets the ranking, page by page, up to the end of the first page that lacks a video |
| HotList.HotPagesComplete | internal/api/feed/service.go:368-427 | if every member is in the table the pages are the whole ranking, each video once |
| HotList.LiveMergePages | internal/api/feed/service.go:341-427 | every merge that the service itself can hold has only videos of the table, so its pages are always the whole ranking |
| RateLimit.Limiter.SlidingWindowScript | internal/middleware/redis/redis.go:117-140 | the store and the reply after one run of the script |
| RateLimit.Limiter.SlidingWindowAllowAt | internal/middleware/redis/redis.go:168-201 | unlimited without a key, limit or window, and when Redis fails; otherwise the script's answer over the window in milliseconds |
| RateLimit.AtMostLimit | internal/middleware/redis/redis.go:117-140 | with clocks off by at most s, any real-time interval of length w - 2s holds at most `limit` admissions |
| RateLimit.AtMostLimitExact | internal/middleware/redis/redis.go:117-140 | with exact clocks every interval of the window's length does |
| RateLimit.DeniedExactlyAtLimit | internal/middleware/redis/redis.go:117-140 | a request is denied if and only if exactly `limit` admissions of the full log lie in the window |
| RateLimit.AdmittedBelowLimit | internal/middleware/redis/redis.go:117-140 | with exact clocks a request is admitted if and only if fewer than `limit` admissions lie in the window before it, and the reply counts them |
| RateLimit.ExpiryNeverMattersIff | internal/middleware/redis/redis.go:126-139 | the answers are always those of keys that never expire if and only if clocks are off by at most half a second |
| RateLimit.ExpiryMatters | internal/middleware/redis/redis.go:126-139 | with clocks off by more, for every window and limit: two requests of which the second finds its predecessor expired |
| RateLimit.NeverOverwrites | internal/middleware/redis/redis.go:133-139 | an admission never overwrites a stored member, whatever the clocks do |
| TokenLock.MutualExclusion | internal/middleware/redis/redis.go:76-96 | in every run, between two acquisitions the first was given back by its own token or its lifetime passed |
| TokenLock.Lock.TryLock | internal/middleware/redis/redis.go:76-86 | the lock is got if and only if it was free and the set was reported; the lost reply leaves it taken |
| TokenLock.Lock.Release | internal/middleware/redis/redis.go:143-149 | the key is deleted only under the caller's own token |
| VideoDetail.DetailService.GetDetail | internal/api/video/service.go:100-216 | the answer, the cache and the lock behind every branch, with failing reads and callers that give up; a first look that fails or does not decode is answered from the row; while cached payloads are the row, every video it answers with is the row, whatever becomes of its lock and its writes |
| VideoDetail.AnswerSeen | internal/api/video/service.go:122-198 | what answers a request without MySQL was seen in the cache |
| VideoDetail.LooksInOrder | internal/api/video/service.go:122-170 | the first look, the one after merging and the one under the lock answer in that order if they hit; a first look that fails or does not decode leads straight to MySQL, without the lock |
| VideoDetail.PollsInOrder | internal/api/video/service.go:171-198 | a loser of the lock is answered by the first of its five polls that hits, and reads MySQL if none does and it did not give up |
| VideoDetail.LockedForTwoSeconds | internal/api/video/service.go:137-150 | a lock that was got protects its holder for exactly two seconds |
| VideoDetail.NobodyElse | internal/api/video/service.go:137-170 | under a lock in force nobody else is refilling the cache |
| VideoDetail.StepPaid | internal/api/video/service.go:100-216 | every step of any node keeps: reads under the lock are paid for by losses, except one while the cache is filled or being refilled |
| VideoDetail.OneReadPerLoss | internal/api/video/service.go:100-216 | in every run of any number of nodes, lock holders read MySQL at most once more often than an entry was lost, a read or write failed, a holder stopped, or one outlived its lock |
| VideoDetail.LockStaysExclusive | internal/middleware/redis/redis.go:76-96 | in those runs the lock is exclusive in the sense of `TokenLock` |
| VideoDetail.RequestIsSteps | internal/api/video/service.go:100-216 | an undisturbed request does to the lock and the cache what its node's steps do, and is answered by the cache exactly when that is filled |
| LikeCounters.StepShiftsNothing | internal/worker/like_worker.go:66-118 | no step of any worker or fallback, with any fault, changes what the accounting law balances |
| LikeCounters.Accounting | internal/worker/like_worker.go:66-118 | in every interleaving: likes_count = rows - increments in flight + decrements in flight - lost increments + lost decrements + clamp hits, and popularity likewise with the comments ever created |
| LikeCounters.RightIffNeverClamped | internal/api/video/repo.go:60-77 | at rest and without losses the count is right if and only if no decrement met a zero, and otherwise too high by the number that did |
| LikeCounters.OvertakenLikeStays | internal/worker/like_worker.go:96-118 | a run with two workers that ends with one like and no row |
| LikeCounters.OrderlyRunsAreExact | internal/api/like/service.go:80-111 | fault-free runs that change one row of a video at a time, workers and fallback mixed, never clamp, and counts at rest are exact |
| LikeCounters.AuthorTotals | internal/api/video/repo.go:92-102 | after such a run an author's total is the number of like rows on the author's videos |
| LikeService.LikeWorker.Process | internal/worker/like_worker.go:44-63 | a like or unlike of an existing video that is not reported as failed leaves the row as asked; without faults, an event as the service queues it has the effect of the service's own transaction; malformed and unknown events are dropped |
| LikeService.LikeWorker.ApplyLike | internal/worker/like_worker.go:66-93 | the row first, then each counter only if everything before was reported done |
| LikeService.LikeWorker.ApplyUnlike | internal/worker/like_worker.go:96-118 | the same for an unlike |
| LikeService.DeliveredIsApplied | internal/worker/like_worker.go:66-118 | a delivery is the protocol steps of one worker in a row |
| LikeService.NoErrorMeansDone | internal/worker/like_worker.go:66-118 | a delivery not reported as failed leaves the row as it was asked for |
| LikeService.LikeService.Change | internal/api/like/service.go:34-200 | a plain like or unlike is accepted and queued once, or transacted once when the queue is down; every other request is refused with its reason and changes nothing; never both, even if others change the database between its check and its transaction; a refused one changes no row unless its commit took effect unseen, though its popularity event may be out already |
| LikeService.TransactedIsFallback | internal/api/like/service.go:80-111 | the fallback's transaction is the protocol's fallback step, possible exactly when the transaction does not refuse |
| LikeService.QueueOrFallback | internal/api/like/service.go:164-194 | queue and worker, or fallback, have the same effect on the database |
| CommentWorker.CommentWorker.ApplyPublish | internal/worker/comment_worker.go:61-90 | the popularity goes up only with a new row that was reported stored; without an error the comment is there |
| CommentWorker.CommentWorker.ApplyDelete | internal/worker/comment_worker.go:93-107 | the comment with that row id is removed and the popularity stays; without an error the row is gone |
| CommentWorker.CommentWorker.Process | internal/worker/comment_worker.go:44-58 | a well-formed publish not reported as failed is stored, counted once if it is new, and a repeated one changes nothing; a deletion removes its row; malformed bodies are dropped; without faults no error; row ids that are gone never come back, so a repeated deletion cannot hit a comment that was made again |
| CommentWorker.PublishedIsSteps | internal/worker/comment_worker.go:61-90 | a delivery is the protocol steps of one worker in a row |
| CommentWorker.RedeliveredComment | internal/worker/comment_worker.go:76-89 | a redelivered comment is stored and counted once, unless it was deleted in between: then it is made and counted again |

## Left out

- EntityCache.Cache.GetVideosByIDs: a call happens at one instant, so staleness is measured at the call; singleflight sharing of row reads is not modelled.
- FeedService.Service.ListLatest: a request sees one table, one timeline and one clock reading, apart from the rebuild; requests that share a rebuild or a query through singleflight are not modelled. The list of liked flags added to the response is left out.
- HotList.HotCache.ListByPopularity: deleting the cached video detail when popularity changes, and the liked flags, are left out.
- VideoDetail.OneReadPerLoss: reads by nodes that gave up waiting for the lock, or whose lock call failed, are not counted; sleeps and timeouts are steps without a length.
- Retry.Consumer.HandleMainDelivery: the loop that receives deliveries and its reconnects are left out; one message is followed over all its queues.
- OutboxWorker.Worker.PublishOne: the byte length at which the stored error text is cut is modelled on characters, and trimming of white space is left out.
- Pipeline.SettledTimeline: publisher confirms and a broker that loses messages are not modelled; acceptance means queued.
- VideoDetail.DetailService.GetDetail: what the looks at the cache see is given, since other nodes write it meanwhile; requests merged by singleflight are one request.
- CommentWorker.CommentWorker.Process: the comment service's own fallback is a step of LikeCounters, not a class.
- ListByFollowing, ListByTag, tags, messages, profiles, follows and server-sent events: simple queries and inserts.
- Accounts, tokens, HTTP handlers beyond cursor decoding, uploads and configuration.
