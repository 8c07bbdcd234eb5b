# DewDB, modelled in Dafny

DewDB is a sharded document database. This project models the parts of it that decide whether a client
can trust an answer, and proves them for every input, every run or every reachable state.

| files | what they model |
|---|---|
| `Feeds`, `FeedObjects`, `FeedGaps`, `FeedRuns`, `FeedReaders`, `FeedSlips` | the change feed of a collection: a bounded buffer of committed events with a resume floor, a published position, subscribers, pins, idle retention, gaps and closing; as values with their laws, as the objects that change in place, with changes that cannot be resolved, as a step system with the overlapping batches of the apply path that feeds it, what such a run promises one reader, and the runs that lose a change |
| `ChangeStreams`, `Webhooks`, `WebhookRuns`, `WebhookStreams` | the two consumers: a filtered stream, and the delivery loop that posts batches until they are acknowledged and recorded by a majority; and the stream of a sender as a reader of the shared feed |
| `AdmissionGate`, `AdmissionRuns` | the bound on uncommitted frames, over all interleavings of concurrent writers |
| `Endpoints`, `HashRings`, `RingAgreement`, `Movement`, `ShardMaps`, `RingCaches` | node identity, the consistent-hash ring, how much of it a change moves, the range-map validator and the cache of built rings |
| `JsonValues`, `JsonOrder`, `Rows`, `Paging` | the order of JSON values and of rows, the merge across shards, and paging by cursor |
| `Filters`, `FilterMeanings`, `FilterAcceptance`, `FilterParsers` | filter evaluation, what a filter's text asks, which filters are accepted, and the depth-bounded parser |
| `Aggregates` | grouped metrics on a shard and their merge at the router |
| `Documents`, `Base64`, `EntityTags`, `Preconditions` | projection, merge patch, base64 and conditional writes |
| `Basics` | shared vocabulary: orderings, results, sums and stable sorting |

Whatever the program changes in place is a class or a loop here, proved against a function; the
properties are then proved of that function. `dafny verify dfyconfig.toml` checks everything.

The log that the feed is judged against is everything the collection ever commits, in order. Any number of
batches are applied at once. Each asks whether the feed is watched, in three reads with anything between
them, drains up to a point, which the `pending` lock keeps in log order, and then, with no lock held,
publishes and perhaps notes a gap, or asks again. Clocks are non-decreasing numbers; hashes are an arbitrary
function to 64-bit values; the reply of an endpoint and the outcome of a proposal are inputs.

## Where the code and its own promises differ

Each is a property that turned out false, with an input that shows it and the exact condition under which
it holds. The model follows the code.

- A batch with a document that cannot be resolved is published and then reported with `note_gap`
  (src/storage/collection.rs:1548-1576). The gap empties the buffer and raises the floor only to the newest
  lost change (src/changefeed.rs:210-223), so changes of the same batch that did resolve and are newer are
  gone while the floor says they are there, and while the comment beside the call says they stay servable:
  `LostChangeHidesLaterOnes`, and exactly when in `LostChangeIsSoundIff`. A reader that polls between the
  two calls can keep a hole as well: `ReaderSlipsBetween`, and exactly when in `BetweenIsSoundIff` and
  `ReadersBetweenKeepIff`. A lost change that nothing published is newer than is told to every reader:
  `LostNewestIsTold`.
- Batches drain in order but publish with no lock held (src/storage/collection.rs:1427-1576), and they do
  overlap: every write of a standalone node (src/api/write.rs:124) and every acknowledgement of a replica
  (src/state.rs:341) applies what is committed, and concurrent commits are expected
  (src/storage/collection.rs:101-102). A batch published after a newer one reaches readers out of order or
  not at all, with no gap: `PublishedOutOfTurn`, and exactly when in `FinishKeepsIff`, `PublishIsSoundIff` and
  `PollsKeepIff`.
- `subscribe` and `pin_from` take the applied position as an argument that the caller read before the feed
  is locked (src/changefeed.rs:239-300). A quiet feed woken with a stale one skips a change:
  `StaleWatermarkSkipsAChange`, and exactly when in `StaleWatermark`.
- `active` reads the readers and the pins without the lock that it then takes for the idle clock
  (src/changefeed.rs:172-178). A reader that attaches in between stops the clock and is not counted, so an
  unwatched batch ends without a gap (src/storage/collection.rs:1537-1542): `ReaderIsNeverTold`, and exactly
  when in `AskingKeepsIff`.
- `keyspace_movement` takes ownership to be constant between two tokens (src/ring.rs:173-174), while at a
  token that two shards share the search may land on either. The arc then counts its last hash with the
  rest: `DisputedTokenIsMissed`, and exactly when in `KeyspaceMovement`.
- The ring cache is keyed by version alone (src/state.rs:1043-1061), while two views can share a version
  and a node prefers the greater author (src/cluster/metadata.rs:206-223). The node then goes on answering
  from the other's ring: `CacheIsRightIff`, `TieBreakLeavesAStaleRing`.
- The comment on a test says the JSON order has no ties between unequal values (src/json.rs:156-158).
  Numbers compare through `f64`, so unequal ones tie, as docs/documentation.md says of the range operators:
  `UnequalNumbersTie`, and exactly when in `JsonCmpTies` and, for integers, `IntegersTieIff`.
- Events an endpoint acknowledged just before a step-down can lie beyond the recorded position:
  `AcknowledgedBeyondRecorded`. They end at it exactly when `RecordedIsAllIff` says, and in general they are
  those up to the recorded position followed by those not yet recorded: `EveryAdmittedEventIsAcknowledged`.

## Model

| member | source | states |
|---|---|---|
| `FeedRuns.NoReaderMissesAnEvent` | src/changefeed.rs:239-323 | In every run in which no step slips, with any number of batches in flight and however their asking, draining, publishing and gaps, attaching, polling, pins, leaving, closing and the clock interleave, each reader has been handed exactly the committed events between its start and its cursor, in order and once each; a reader that named a position starts there; one that was ended fell under a floor that is still refused, or the feed closed |
| `FeedRuns.WaitsOnlyForBatches` | src/changefeed.rs:374-397 | Without a slip, a reader that is told to wait is owed, of all that has been applied, only changes that a batch in flight has yet to publish or to report as a gap |
| `FeedRuns.RunIsSoundIff` | src/storage/collection.rs:1427-1576 | With batches overlapping freely, a run keeps the whole feed invariant in every state if and only if none of its steps slips; each slip is a guard on the state before the step |
| `FeedRuns.NothingLeftMeansNothingMissing` | src/changefeed.rs:374-397 | Without a slip, and with no batch in flight, a reader that is told to wait already holds everything applied since its start |
| `FeedRuns.EveryStateIsSound` | src/changefeed.rs:151-323 | Up to the first slip every reachable state keeps the feed invariant: floor at most position, events committed and within the limit, subscriber count equal to the live readers, every reader true to the log, and, while anyone watches, events in order, nothing above the floor missing below something held, and nothing applied missing that no batch in flight brings |
| `FeedRuns.StepKeepsIff` | src/changefeed.rs:172-323 | Each single step keeps that invariant if and only if it does not slip |
| `FeedRuns.AskingKeepsIff` | src/changefeed.rs:172-178 | The three reads of `active` are three steps, at the start and at the end of a batch; one slips exactly when its answer abandons a change that is owed to somebody and that nothing else brings: at the start by answering yes, after which only what it drains is published, and at the end by answering no while someone has come since the reads that saw nobody |
| `FeedRuns.FinishKeepsIff` | src/storage/collection.rs:1427-1576 | Publishing a watched batch, whatever others are in flight, slips exactly when it comes out of turn for what is held, or passes a change above the floor that is still to come or could not be resolved; a lost change that nothing published is newer than costs nothing |
| `FeedRuns.GapKeepsIff` | src/changefeed.rs:210-223 | Noting a gap on a watched feed slips exactly when something held is newer than it and no other batch brings that again |
| `FeedRuns.AttachKeepsIff` | src/changefeed.rs:239-277 | Attaching with an applied position read earlier slips exactly when it wakes a quiet feed that is behind: from a later position, with something applied since that no batch brings, or as it was left, with something missing |
| `FeedRuns.PinKeepsIff` | src/changefeed.rs:280-300 | The same of a pin |
| `FeedRuns.BehindIsFelt` | src/changefeed.rs:311-323 | Behind what is applied, a reader at the feed position is told to wait while it is owed a change, and the next whole batch leaves the feed sound if and only if everything missing went under the floor |
| `FeedReaders.ReaderStarts` | src/changefeed.rs:239-277 | On any run, a reader is let in if and only if the feed is open and not full and the position it names, if any, is neither under the floor nor ahead; it starts at the position it names, or, naming none, at the position of a feed in use, and on one not in use at the greater of that and the applied position its caller read |
| `FeedReaders.HandedOnlyLater` | src/changefeed.rs:255-265 | On a run without a slip a reader that names no position is never handed anything at or below the position the feed had when it came, and one that names a position nothing at or below that |
| `FeedReaders.NeverTooMany` | src/changefeed.rs:244-246 | No run has more readers at once than the feed allows |
| `FeedReaders.StaysClosed` | src/changefeed.rs:227-242 | Once closed, in any run, the feed stays closed and empty, lets nobody in, and ends every reader that polls |
| `FeedReaders.PinsHold` | src/changefeed.rs:280-300 | In any run the pins are those taken less those dropped, and while there is one the feed is active |
| `FeedReaders.RetainedForTheWindow` | src/changefeed.rs:172-182 | After its last reader leaves, and while nobody comes, a feed nothing pins is active for exactly the retention window, closing aside |
| `FeedReaders.AskedAtOnce` | src/changefeed.rs:172-178 | The three reads of an asking, with nothing between them, answer whether the feed is active |
| `Feeds.HeldIsSlice` | src/changefeed.rs:311-323 | From any cursor the floor does not refuse, the buffer is the committed log without a hole up to the position |
| `Feeds.PushAllKeepsTail` | src/changefeed.rs:184-206 | The push-then-pop loop keeps the newest events the buffer has room for, and the floor ends at the newest one let go |
| `Feeds.PublishIsSoundIff` | src/changefeed.rs:184-206 | Publishing everything committed in a window, whenever it comes, keeps the feed sound if and only if it does not come out of turn and every commit below the window not yet published lies under the floor the eviction leaves |
| `Feeds.WholeBatchIsSoundIff` | src/changefeed.rs:184-206 | For a batch above everything held, the second half decides: every commit between the old position and the batch lies under that floor |
| `Feeds.OutOfTurnIff` | src/changefeed.rs:184-206 | What stays in the buffer is in order if and only if the published events do not come too late for the newest held while leaving room for it |
| `Feeds.PollsKeepIff` | src/changefeed.rs:374-397 | Every reader true to the log stays true through a poll if and only if nothing above the floor is missing below something held |
| `Feeds.PublishKeepsSound` | src/changefeed.rs:184-206 | A batch that starts no later than the position always keeps the feed sound |
| `Feeds.GapIsSoundIff` | src/changefeed.rs:210-223 | Noting a gap is sound if and only if nothing held is newer than it |
| `Feeds.OtherStepsKeepSound` | src/changefeed.rs:227-309 | Subscribing, pinning, unpinning, detaching and closing keep the feed sound at any clock reading and any watermark |
| `Feeds.OverrunNamesAWayBack` | src/changefeed.rs:172-178 | A refusal for falling behind names a floor the same state admits, and on an open feed being active is the exact complement of the quiet test that permits catching up |
| `Feeds.PollKeepsPromise` | src/changefeed.rs:374-397 | One poll of a feed that is in order and unbroken, complete or not, extends what was handed over by exactly the next committed events; only a reader with no named position and nothing read may jump to the floor; an overrun is reported only under the floor; a reader left waiting has been given everything held |
| `Feeds.ReconnectContinues` | src/changefeed.rs:239-277 | A reader that comes back naming its cursor is let in if and only if the floor has not passed it and the feed has not slept through something since, and then nothing is lost or repeated across the break |
| `Feeds.ReadExtends` | src/changefeed.rs:311-323 | A non-empty read is the next stretch of the log, never an old event and never past the position |
| `Feeds.BatchesAreBounded` | src/changefeed.rs:311-323 | A batch has at most 256 events, and a shorter one leaves nothing held unread |
| `Feeds.AnswersAre` | src/changefeed.rs:239-277 | Each refusal of a subscription exactly when it is given, with the floor or position it names, and the feed afterwards |
| `FeedObjects.Changefeed.Publish` | src/changefeed.rs:184-206 | The object steps as the specification does, counts what it published, and wakes its readers at the new position |
| `FeedObjects.Changefeed.NoteGap` | src/changefeed.rs:210-223 | The object steps as the specification does and wakes its readers |
| `FeedObjects.Changefeed.Close` | src/changefeed.rs:227-235 | Closing empties and shuts the feed, once, and wakes its readers |
| `FeedObjects.Changefeed.Subscribe` | src/changefeed.rs:239-277 | The answer and the new state are the specification's; a reader naming no position starts where the feed now stands, one naming a position there; an overrun is counted exactly when it is answered |
| `FeedObjects.Changefeed.IsActive` | src/changefeed.rs:172-178 | With nothing between its three reads, activity is answered as specified and excludes the quiet state |
| `FeedObjects.Changefeed.SeesClock` | src/changefeed.rs:176-177 | The read under the lock is of the idle clock and the closed flag alone |
| `FeedObjects.Changefeed.PinFrom` | src/changefeed.rs:280-300 | Pinning a quiet feed moves it to the watermark and wakes its readers exactly when the position moved |
| `FeedObjects.Changefeed.Detach` | src/changefeed.rs:302-309 | Leaving gives back one subscriber and starts the idle clock with the last |
| `FeedObjects.Changefeed.DropPin` | src/changefeed.rs:342-348 | Dropping a pin gives back exactly one |
| `FeedObjects.Changefeed.Read` | src/changefeed.rs:311-323 | A read changes nothing and answers from the held events |
| `FeedObjects.Subscription.NextBatch` | src/changefeed.rs:374-397 | The loop moves `cursor` and `delivered` exactly as one poll of the specification, leaves the feed as it was, and counts an overrun exactly when it reports one |
| `FeedGaps.PublishChanges` | src/storage/collection.rs:1548-1576 | Resolving a batch and publishing it, with a gap for what did not resolve, as the loop over the changes does |
| `FeedGaps.LostChangeIsSoundIff` | src/storage/collection.rs:1548-1576 | Publish-then-gap keeps the feed sound if and only if no change that did resolve is newer than both the newest lost change and the floor the eviction leaves |
| `FeedGaps.LostChangeHidesLaterOnes` | src/changefeed.rs:210-223 | A concrete batch where a subscriber from the floor is admitted, is told to wait, and is owed two committed events it will never be given |
| `FeedGaps.BetweenIsSoundIff` | src/storage/collection.rs:1570-1575 | Between publishing a batch and noting its gap the feed is sound if and only if every lost change lies under the floor the eviction leaves |
| `FeedGaps.PollBetweenKeepsIff` | src/storage/collection.rs:1570-1575 | A poll in between keeps a reader true to the log if and only if it hands over nothing newer than a lost change that was ahead of it |
| `FeedGaps.ReadersBetweenKeepIff` | src/storage/collection.rs:1570-1575 | Every reader that polls in between stays true to the log if and only if no lost change above the floor is older than one that did resolve |
| `FeedGaps.ReaderSlipsBetween` | src/storage/collection.rs:1548-1576 | A concrete batch: a reader that polls between the publish and the gap keeps a hole it is never told about |
| `FeedSlips.StaleWatermark` | src/changefeed.rs:239-300 | A quiet feed woken by a pin or a subscription with an applied position read earlier publishes the next whole batch soundly if and only if every change applied since went under the floor |
| `FeedSlips.StaleWatermarkSkipsAChange` | src/changefeed.rs:239-300 | A concrete late position, of a pin and of a subscription, after which an admitted reader is handed an event past one it never sees |
| `FeedSlips.ReaderComesWhileAsking` | src/changefeed.rs:172-178 | A run in which a reader attaches after a batch saw neither reader nor pin and before it reads the idle clock, and the batch ends without a gap |
| `FeedSlips.ReaderIsNeverTold` | src/storage/collection.rs:1537-1542 | The same run continued: the reader is handed change 2 without change 1 and is never told |
| `FeedSlips.PublishedOutOfTurn` | src/storage/collection.rs:1427-1576 | A run of two overlapping batches: the later publishes first, a reader is handed change 2, and change 1 arrives behind it; the reader waits, no gap is noted, and it never gets change 1 |
| `FeedSlips.LostNewestIsTold` | src/storage/collection.rs:1548-1576 | A run in which nothing slips and the newest change of a batch cannot be resolved: the reader is handed the change before it and is then ended over the gap |
| `ChangeStreams.CdcStream.Next` | src/cdc.rs:108-134 | On a feed that is in order and unbroken, each event yielded is the next admitted one of the log, so far and in order; while waiting, nothing held is left unread, and on a sound feed nothing admitted; an overrun names the floor that passed the cursor, an end means the feed closed, and without a yield a leaderless stream that asks for the leader says so |
| `ChangeStreams.AdmittedIsAsked` | src/cdc.rs:54-62 | An event is admitted if and only if its operation is listed, where there is a list, and its document, if it carries one, is what the filter's text asks for |
| `ChangeStreams.CdcStream.Drain` | src/cdc.rs:108-134 | Draining yields the first queued event the filter admits and drops only what it refuses |
| `ChangeStreams.YieldedIsNext` | src/cdc.rs:54-62 | What has been yielded is every admitted event up to the last one yielded |
| `ChangeStreams.YieldedAll` | src/cdc.rs:108-134 | With the queue empty, what has been yielded is every admitted event up to the cursor |
| `ChangeStreams.FiltersCommute` | src/cdc.rs:54-62 | Filtering a window of the log and taking a window of the filtered log agree |
| `WebhookRuns.EveryAdmittedEventIsAcknowledged` | src/webhook.rs:630-720 | Across any run of opens, reads, failed posts, retries, step-downs, restarts and positions that land after their sender stopped, with no recorded gap, and with every read yielding the next admitted event as a feed on which nothing slips does (`WebhookStreams.PullNext`), the acknowledged events with redeliveries collapsed are exactly the admitted events from the start to the recorded position, then those acknowledged and not yet recorded; no node's position passes the recorded one or an unacknowledged admitted event |
| `WebhookRuns.RecordedIsAllIff` | src/webhook.rs:538-612 | On such a run the acknowledged events are exactly the admitted ones up to the recorded position if and only if none of them is newer than it |
| `WebhookRuns.AcknowledgedBeyondRecorded` | src/webhook.rs:538-612 | A run that ends in a step-down with an acknowledged event nobody recorded |
| `WebhookRuns.RunKeeps` | src/webhook.rs:630-720 | Every gap-free run whose reads yield the next admitted event keeps every sender's yield a slice of the log and every settled position acknowledged |
| `WebhookStreams.PullNext` | src/webhook.rs:680-720 | What a stream yields next, its subscription a reader of a feed run in which nothing slips and which resumed where its sender did, is exactly what the sender's read step takes |
| `WebhookStreams.ReaderCanBeRead` | src/changefeed.rs:374-397 | In every state of such a run a live reader's feed is in order and unbroken, and the reader is true to the log from the position it named |
| `WebhookStreams.NextIsPulled` | src/cdc.rs:108-134 | The next admitted event after those yielded continues the admitted log from the sender's base |
| `WebhookRuns.StepKeeps` | src/webhook.rs:538-720 | Each single step keeps that invariant |
| `WebhookRuns.PositionsOnlyGrow` | src/webhook.rs:630-720 | A sender opens at the greater of its own and the recorded position, and no position goes back but by a restart or a gap |
| `WebhookRuns.AckExtends` | src/webhook.rs:538-612 | An acknowledged batch that overlaps what came before extends the collapsed history by exactly its new events |
| `WebhookRuns.BatchIsSlice` | src/webhook.rs:680-720 | A batch in hand is the admitted log from what is settled to what was pulled |
| `Webhooks.Delivery.PostUntilAcknowledged` | src/webhook.rs:538-612 | Exactly the leading failures are posted again, and the turn after them decides: gone or revoked ends and disables, lost leadership steps down, a success ends as recording its position does; the position moves only on a recorded acknowledgement, to the batch's last event; every counter and the last error are exact |
| `Webhooks.Delivery.Open` | src/webhook.rs:630-678 | From the state before the call: with no progress pending and an open feed with room the stream opens if and only if the greater of the local and the recorded position lies between the floor and the position of the feed as caught up; below the floor is a counted gap resumed at the floor; above the feed is one exactly if the log ends below; the feed afterwards is named in each case |
| `Webhooks.CommitPosition` | src/webhook.rs:428-455 | The first try that decides does: recorded if and only if it finds a majority holding the position, deposed if and only if leadership was gone below it, unfinished if and only if none decides |
| `AdmissionRuns.BoundHolds` | src/state.rs:255-292 | In every interleaving of sample, settle, stage, commit and release, with frames of a replicated log (src/storage/wal.rs:568) staged beside them unasked, what a collection staged of its own plus what is reserved and not yet staged never exceeds the bound, so the total exceeds it by at most what replication staged; the held count is the sum of live reservations, and nothing is left when they are gone |
| `AdmissionRuns.AdmittedWhenItFits` | src/state.rs:255-292 | In every reachable state a write is admitted exactly when what is staged, what live reservations hold and its own frames fit the bound; with everything drained, exactly when it alone fits |
| `AdmissionRuns.StepKeeps` | src/state.rs:88-292 | Each single step keeps the bound and the bookkeeping, a sampled count that has gone stale included |
| `AdmissionGate.Gate.AdmitWrite` | src/state.rs:255-292 | The decision, the reservation and the rejection count, with no reservation on any refusal |
| `AdmissionGate.Gate.Release` | src/state.rs:88-98 | A release gives back its frames, saturating, and removes an entry that reaches zero |
| `AdmissionGate.DecidesIff` | src/state.rs:255-292 | Each of the four answers exactly when it is given: unbounded without a bound or replication, too wide above the bound alone, a backlog naming staged and held frames, else a reservation |
| `AdmissionGate.ReleaseGivesBack` | src/state.rs:88-98 | A release lowers its own collection by its frames, down to no entry at zero, and touches no other |
| `Endpoints.IdentityIsOneQuestion` | src/util.rs:13-41 | `same_endpoint`, equality of node keys and a tie in `cmp_endpoint` coincide for every two URLs |
| `Endpoints.CmpEndpoint` | src/util.rs:32-41 | The character loop is the order of the node keys it never builds |
| `Endpoints.SpellingsOfOneNode` | src/util.rs:13-28 | Two URLs are one node if and only if the hosts they name, behind the first "//" or with none, up to a path, query or fragment, differ in the case of ASCII letters alone, by character code |
| `Endpoints.SpelledIsEndpoint` | src/util.rs:11-16 | Every URL names one host, its endpoint |
| `Endpoints.KeyIsLowerCase` | src/util.rs:25-28 | A key is the host with no capital letter, and nothing but case changed |
| `HashRings.Build` | src/ring.rs:113-128 | Building lays out every virtual node of every shard in token order, tied tokens ordered by node identity |
| `HashRings.SearchIsRight` | src/ring.rs:139-149 | The binary search lands on an equal token, or on the only gap the hash fits |
| `HashRings.OwnerIsNearest` | src/ring.rs:139-149 | No token is nearer, going clockwise, than the owner's |
| `HashRings.OwnerIsFirst` | src/ring.rs:139-149 | Where tokens collide the owner is the least by endpoint, except at the colliding position itself, where the search may land on any |
| `HashRings.OwnerOfFirst` | src/ring.rs:139-149 | With no endpoint listed twice, the first point, going clockwise and by endpoint at one place, decides the owner |
| `HashRings.PointsOfBuilt` | src/ring.rs:113-128 | A built ring holds exactly the virtual nodes of its members |
| `HashRings.OneShardMovesOnlyItsShare` | src/ring.rs:113-149 | Tokens colliding or not, adding a shard (or, read backwards, removing one) changes the owner of a hash only to (from) that shard, and exactly when one of its tokens comes before all of the old owner's |
| `RingAgreement.SameMembersSameOwners` | src/ring.rs:113-149 | Rings built from the same members in any order and any equivalent spelling give every hash the same owner identity |
| `RingAgreement.RespelledMembersSameOwners` | src/ring.rs:113-149 | Two nodes that list the same members in any order, each URL spelled any way that names the same host in any letter case, name the same host as the owner of every hash |
| `RingAgreement.BuiltPoints` | src/ring.rs:113-128 | A built ring depends on its members only through their identities |
| `RingAgreement.OrderDoesNotMatter` | src/ring.rs:50-52 | The bag of tokens does not depend on the order of the members |
| `Movement.KeyspaceMovement` | src/ring.rs:175-215 | For every two rings the reported movement is the number of hashes whose owner changes, and the transfers the exact per-pair counts, one per pair that moves, widest first, summing to it, if and only if of every move as many arcs begin with it as end with it; so always when no two shards share a token; otherwise the total is off by that difference |
| `Movement.DisputedTokenIsMissed` | src/ring.rs:175-215 | Two rings, one with a token two shards share, where a hash changes hands and the report says nothing moves |
| `Movement.UndisputedIsBalanced` | src/ring.rs:175-215 | Rings in which no two shards share a token meet the condition |
| `Movement.ArcHasOneOwner` | src/ring.rs:175-215 | Between neighbouring boundaries of two rings, the wrapping arc included, every hash has the owner of the arc's probe if and only if the last one has |
| `Movement.ArcsCount` | src/ring.rs:175-215 | The sum of the widths of the arcs counts the hashes, but for the ends that do not go with their probes |
| `Movement.CountIsSize` | src/ring.rs:175-215 | Counting by arcs counts the set of hashes |
| `Movement.TallyArc` | src/ring.rs:175-215 | One turn of the loop adds one arc to the total and to its pair, and leaves every other pair |
| `Movement.TallyIsExactIff` | src/ring.rs:175-215 | When every arc is tallied the report is exact if and only if the moves balance |
| `Movement.BoundariesCover` | src/ring.rs:175-215 | The deduplicated boundaries are strictly ascending and cover both rings |
| `ShardMaps.ValidateShardRing` | src/ring.rs:239-282 | A shard map is accepted if and only if it is not empty and exactly one shard reaches every 64-bit hash, going clockwise from its start and short of its end, in whatever order the shards are listed; and a refusal is justified: nobody reaches the range it calls uncovered, and both shards it says overlap reach one hash |
| `ShardMaps.OwnsWhatItReaches` | src/ring.rs:217-226 | A shard owns a hash if and only if its range is the whole ring or the hash lies clockwise from its start before its end |
| `ShardMaps.SegmentsHoldWhatTheyOwn` | src/ring.rs:217-237 | The segments of a range, wrapping and whole-ring ranges included, hold exactly the hashes it owns, once |
| `ShardMaps.SortedSegments` | src/ring.rs:239-282 | The sorted segments cover the ring once if and only if every hash has exactly one owner |
| `ShardMaps.CollectSegments` | src/ring.rs:229-237 | The segments gathered are those of every shard |
| `ShardMaps.Stuck` | src/ring.rs:239-282 | A gap or an overlap met on the walk means some hash has no owner or two |
| `ShardMaps.WholeRingOverlaps` | src/ring.rs:239-282 | A whole-ring shard beside any other shard gives some hash two owners |
| `RingCaches.CacheIsRightIff` | src/state.rs:1043-1061 | The cache answers as rebuilding would, in every interleaving of lookups, if and only if no two of the views asked about share a version and differ in layout, and none at version zero has a ring |
| `RingCaches.TieBreakLeavesAStaleRing` | src/cluster/metadata.rs:206-223 | Two views published at one version: every node adopts the greater author's, and a node that laid out the other keeps answering from it unless the layouts agree |
| `RingCaches.AdoptionConverges` | src/cluster/metadata.rs:627-651 | Two published views leave the same survivor whichever arrives first |
| `RingCaches.AdoptedIff` | src/cluster/metadata.rs:206-223 | A view is adopted if and only if it is no seed and of a higher version, or of the same version and by a greater author or over a seed |
| `RingCaches.SurvivorIsNewest` | src/cluster/metadata.rs:627-651 | Whatever views come in, in any order, the one kept is of the highest version published and by the greatest author of that version |
| `RingCaches.LayoutIsOfView` | src/state.rs:1043-1061 | The two halves of a layout hold exactly the virtual nodes of the ring in force and of the ring being moved to |
| `RingCaches.RingCache.RingsFor` | src/state.rs:1043-1061 | A hit answers from the cache; a miss answers what the view means and installs it unless a newer version landed |
| `RingCaches.RingCache.Install` | src/state.rs:1043-1061 | An older version never displaces a newer one |
| `JsonValues.GetPathValue` | src/json.rs:3-11 | The loop over path parts is recursive lookup, absence included |
| `JsonValues.LookupLeads` | src/json.rs:3-11 | A path finds a value if and only if its parts lead to it through objects, one named member after another |
| `JsonValues.SplitIff` | src/json.rs:6 | Splitting a path gives the one list of dot-free parts that joins back to it |
| `Orders.FirstDifferenceDecides` | src/json.rs:47 | Text compares by its first differing character, the smaller first, and a proper prefix comes first |
| `JsonOrder.JsonCmpReverses` | src/json.rs:32-66 | Comparing two values the other way round gives the reverse answer, at every depth |
| `JsonOrder.JsonCmpChains` | src/json.rs:32-66 | The comparison is transitive across every type and depth, ties included |
| `JsonOrder.JsonCmpTies` | src/json.rs:32-66 | Two values tie if and only if they are alike, numbers compared as the `f64` they are read as |
| `JsonOrder.KindsInTurn` | src/json.rs:20-29 | Nulls, booleans, numbers, strings, arrays and objects come in that order, false before true |
| `JsonOrder.ArraysByElement` | src/json.rs:32-66 | Arrays compare by their first differing element, and a prefix comes first |
| `JsonOrder.ObjectsByEntry` | src/json.rs:57-66 | Objects compare entry by entry in ascending key order, by key and then by value, and one with fewer entries comes first |
| `JsonOrder.ScalarsCompare` | src/json.rs:38-47 | Numbers compare by value and text by its first differing character |
| `JsonOrder.IntegersTieIff` | src/json.rs:32-66 | Integers up to 2^53 compare exactly; from there to twice that two tie if and only if they round to one multiple of four |
| `JsonOrder.UnequalNumbersTie` | src/json.rs:156-176 | 2^53 and 2^53 + 1 tie, which the test beside the code says two different values cannot |
| `Rows.CompareRowsReverses` | src/query.rs:169-178 | Rows compare antisymmetrically, and a tie means one key |
| `Rows.CompareRowsChains` | src/query.rs:169-178 | The row order is transitive |
| `Rows.FirstDifferingKeyDecides` | src/query.rs:142-178 | Of the values the sort paths lead to, null where they lead nowhere, the first pair that differs decides, reversed if descending, and the document key where all tie |
| `Rows.RowsComeBeforeIff` | src/query.rs:169-178 | The comparison says less if and only if that rule puts the row first |
| `Rows.FirstKeyInOrder` | src/query.rs:169-178 | Of two rows in sort order the earlier never has the later value under the first key, nor in a descending sort the smaller |
| `Rows.CursorAdmitsBy` | src/query.rs:180-187 | A cursor admits the rows its recorded values put it before, by that rule; with fewer values than keys the document key decides the rest, and the older single value is read as a list of one |
| `Rows.RowOrderIsTotal` | src/query.rs:169-178 | The row order is total, and strict on distinct keys |
| `Rows.CursorAdmitsLaterRows` | src/query.rs:182-187 | A row is after the cursor made from another row if and only if the row order puts it after that row |
| `Rows.KwayMerge` | src/query.rs:189-216 | Merging sorted lists gives the first `limit` rows of sorting everything they hold, ties included, and no row comes before one ahead of it |
| `Rows.MergeStep` | src/query.rs:189-216 | The least head, earliest list first, is what a stable sort of everything unread puts first |
| `Rows.BestHead` | src/query.rs:189-216 | The scan finds the least unread head, earliest list first, or that all are spent |
| `Paging.SortedPage` | src/storage/collection.rs:1083-1140 | The bounded buffer that is sorted and cut as it fills returns the top of everything wanted, and says whether more was |
| `Paging.RouterPage` | src/cluster/router.rs:1109-1158 | A page is the first `limit` rows, in the one global order, of everything wanted on any shard, none before one ahead of it; a next cursor exactly when rows are left |
| `Paging.Crawl` | src/api/docs.rs:506-516 | Following cursors ends, and the pages concatenate to every accepted row once, each before those behind it by the values its sort paths lead to; every page but the last is full |
| `Paging.WholeOrder` | src/query.rs:169-178 | Sorting the accepted rows gives each once, in that order |
| `Paging.ResumeWantsTheRest` | src/query.rs:182-187 | Resuming after the k-th row of the whole order wants exactly the rows from there on |
| `Paging.TopOfConcat` | src/cluster/router.rs:1109-1158 | The top of a union is the top of the tops |
| `FilterMeanings.AcceptedIsAsked` | src/query.rs:393-528 | An accepted filter matches exactly the documents its text asks for, read straight off the JSON as the documentation describes it |
| `FilterMeanings.CondMeans` | src/query.rs:424-447 | A parsed condition holds of a value, or of its absence, exactly when the text asks for it |
| `FilterMeanings.OpMeans` | src/query.rs:449-495 | Each of the 17 operators means what its text says, on a missing path included |
| `FilterMeanings.OperatorsRelate` | src/query.rs:310-357 | Negated operators ask what the others do not, a bound with its tie is the opposite bound denied within one type, and a list of one is an equality |
| `FilterMeanings.BranchesRelate` | src/query.rs:374-381 | `$nor` asks what `$or` does not, a branch list of one asks what its filter does, and existence is asked either way |
| `Filters.OperatorsAre` | src/query.rs:405 | An operator is a key that begins with a dollar sign |
| `FilterAcceptance.AcceptedIff` | src/query.rs:393-547 | A filter is accepted if and only if it has the documented shape, every operator its kind of operand, every condition range bounds of one kind, and nests no deeper than the ceiling |
| `Filters.DepthIsTheCeiling` | src/query.rs:393-447 | An accepted filter nests `$and`, `$or`, `$nor`, `$not` and `$elemMatch` together no deeper than 16, in the document and in what was parsed; a depth refusal means the document does nest deeper |
| `Filters.ConjunctsHold` | src/query.rs:359-381 | Every conjunct holds on every document that matches, and conjuncts decide a filter made of conjunctions alone |
| `Filters.IndexedPathIsPresent` | src/query.rs:294-308 | If a matching document lacks the path of a conjunct, the conjunct has only `$exists` and `$not` |
| `Filters.ConjunctsDecide` | src/query.rs:359-381 | A filter matches if and only if its conjuncts hold and the disjunctions reached beside them match |
| `Filters.AcceptedRangesAgree` | src/query.rs:532-547 | The range check accepts exactly the conditions whose bounds all compare one kind of value |
| `FilterParsers.Expression` | src/query.rs:393-415 | The loop that fills the parts, stopping at the first refusal, is the recursive parse |
| `FilterParsers.Branches` | src/query.rs:417-422 | The branches parse in order one level deeper; an empty list is refused |
| `FilterParsers.Conditions` | src/query.rs:424-447 | A condition parses as specified: literals, operator objects, mixtures refused, ranges checked last |
| `FilterParsers.Operators` | src/query.rs:424-447 | The operators of a condition parse in key order, stopping at the first refusal |
| `FilterParsers.CheckRangeAgreement` | src/query.rs:532-547 | The scan that remembers one kind decides whether every pair of bounds agrees |
| `Aggregates.ShardedAggregate` | src/aggregate.rs:319-351 | Aggregating every shard and merging gives, for every group, what one aggregation over all the documents gives, and refuses on the group ceiling exactly when that would |
| `Aggregates.GroupsMean` | src/aggregate.rs:221-276 | The groups are one for each way documents can agree under all group fields, absence included, each counting and measuring exactly the documents that do |
| `Aggregates.KeysAgreeIff` | src/aggregate.rs:265-276 | Two documents share a key if and only if they agree under every group field; the key is none without fields, else exactly the fields present with their values |
| `Aggregates.OnlyItsKind` | src/aggregate.rs:278-315 | A metric reports only what its kind asks for, and one without a field counts the documents |
| `Aggregates.TotalsAdd` | src/aggregate.rs:278-300 | A metric uses the documents that have its field, for sums and averages those with a number there, and totals add those numbers up |
| `Aggregates.PartsAddUp` | src/aggregate.rs:319-330 | Matched and scanned totals add up over the parts, and one partial part makes the whole partial |
| `Aggregates.Merge` | src/aggregate.rs:319-351 | Merging finished partials is the aggregate of the concatenated documents, with matched and scanned totals and the partial mark carried over; refused exactly above the ceiling |
| `Aggregates.MetricsMerge` | src/aggregate.rs:74-93 | Absorbing one finished metric into another is the finished metric of both lists, for count, sum, avg, min and max |
| `Aggregates.TotalsMean` | src/aggregate.rs:278-315 | A sum is the total of the usable numbers, absent without any, and an average their mean |
| `Aggregates.ExtremesAre` | src/aggregate.rs:278-315 | A min or max is the first extreme value present, absent without any |
| `Aggregates.GroupsMerge` | src/aggregate.rs:319-351 | Absorbing groups key by key gives the groups of the concatenation |
| `Aggregates.LabelledMerge` | src/aggregate.rs:319-351 | Metrics merge label by label, a label named twice answering for its last metric |
| `Aggregates.Aggregator.Add` | src/aggregate.rs:221-243 | A document is added to its group, refused exactly when it would open a group past the ceiling |
| `Aggregates.Aggregator.Finish` | src/aggregate.rs:247-262 | Finishing publishes every group over exactly its documents |
| `Aggregates.AbsorbPart` | src/aggregate.rs:319-351 | Absorbing one partial is refused exactly when the keys together pass the ceiling |
| `Documents.Project` | src/json.rs:85-97 | Looking up each requested path in the projection gives what the document gives, absence included, for overlapping and repeated fields in any order; nothing else is invented |
| `Documents.MergePatch` | src/json.rs:99-120 | The in-place loop over the patch is the recursive definition of section 2 of RFC 7396 |
| `Documents.MergedTwice` | src/json.rs:99-120 | Applying a patch twice is applying it once |
| `Documents.UntouchedStays` | src/json.rs:99-120 | A path the patch does not touch keeps its value, at every depth |
| `Documents.TouchedIsMerged` | src/json.rs:99-120 | A path the patch names holds the merge of the old value and the new, or nothing where the patch says null |
| `Base64.RoundTrip` | src/util.rs:152-200 | Decoding undoes encoding for every byte string in both alphabets |
| `Base64.EncodeWith` | src/util.rs:152-173 | The text is the input's bits in sextets of the alphabet, zeros to the next sextet and padding to a group of four (sections 4 and 5 of RFC 4648) |
| `Base64.Decode` | src/util.rs:175-200 | The bytes are the sextets' bits cut in eights, either alphabet accepted, or the first foreign character is named; the 32-bit accumulator and the byte cast never overflow |
| `Base64.EncodingIsUnique` | src/util.rs:152-173 | One text encodes an input, in whole groups of four |
| `Base64.DecodingIsUnique` | src/util.rs:175-200 | A text has one decoding |
| `Base64.CutsByte` | src/util.rs:189-197 | After each character the bytes cut and the bits kept are together the number read so far, with fewer than twelve bits in the accumulator and a cut byte below 256 |
| `Alphabets.AlphabetIs` | src/util.rs:137-138 | The 64 characters of each alphabet by code, the last two `+` and `/` or `-` and `_` |
| `Alphabets.ValueIff` | src/util.rs:181-191 | A character is read as a sextet if and only if one of the alphabets has it there |
| `EntityTags.RoundTrip` | src/api/precondition.rs:90-132 | Rendering any non-empty list of valid tags, with any commas and blanks between, and parsing it gives the list back, commas inside quotes included |
| `EntityTags.ParsesWhatIsSpelled` | src/api/precondition.rs:90-132 | The parser answers with some tags if and only if the text spells them in the grammar |
| `EntityTags.ParseTags` | src/api/precondition.rs:90-132 | The index loop ends and answers as the recursive parse, error by error, `*` alone standing for any |
| `EntityTags.TagFrom` | src/api/precondition.rs:104-125 | One turn of the loop takes one tag with its weakness, or names what is wrong with it, and moves on |
| `EntityTags.ClassesAre` | src/api/precondition.rs:90-125 | What a tag may hold, what separates tags and what is trimmed, by character code |
| `EntityTags.StarIffAlone` | src/api/precondition.rs:90-93 | A header stands for any if and only if it is one star with nothing but space around it |
| `Preconditions.ComparesAndSwaps` | src/api/precondition.rs:47-71 | Listing versions in `If-Match` lets a write through exactly when the document stands at one of them, and in `If-None-Match` exactly when it does not |
| `Preconditions.HoldsAsDecided` | src/api/precondition.rs:47-71 | The decision is that of sections 13.1.1, 13.1.2 and 13.2.2 of RFC 9110, strong and weak comparison included |
| `Preconditions.StarAsksForAny` | src/api/precondition.rs:47-71 | `*` asks only whether there is a document, so `If-None-Match: *` creates and never replaces |
| `Preconditions.WeakTagsOnlyPrevent` | src/api/precondition.rs:47-71 | A weak tag never lets an `If-Match` write through, and stops an `If-None-Match` one exactly when its text is the document's |
| `Preconditions.EtagsAreDistinct` | src/storage/index.rs:26-30 | Two versions never share a tag |
| `Preconditions.EtagIsTermAndPosition` | src/storage/index.rs:26-30 | A tag is the term and the position in decimal, without leading zeros, with a point between them and quotes around |
| `Preconditions.HeaderAnswers` | src/api/precondition.rs:73-88 | No line is no condition, and a line that cannot be read refuses the header |
| `Preconditions.LinesAreOneList` | src/api/precondition.rs:73-88 | Repeated header lines read as one list |
| `Preconditions.ParseHeader` | src/api/precondition.rs:73-88 | Lines are joined by commas and parsed once; no line means no condition, and an unreadable one is refused |

## Left out

- FeedRuns.NoReaderMissesAnEvent: holds up to the first step that slips, after which the feed of a watched collection no longer has what its readers are owed and nothing in flight brings it; `StepKeepsIff` and `RunIsSoundIff` say exactly which steps those are.
- FeedRuns.RunIsSoundIff: frames are staged before anything above them is applied, which is the append's duty; a frame that migration wrote, or a delete of an absent key, is not a change of the log.
- FeedObjects.Changefeed.IsActive: an object's methods run one after another, so what comes between its three reads is modelled in FeedRuns, where each is a step.
- Movement.KeyspaceMovement: arc widths are counts of hashes, not the `f64` fractions that are reported, and transfers of one width may come in any order; which of several equal tokens is found is the textbook search's choice.
- Paging.RouterPage: every shard answers with a page; a shard that is unreachable, absent or refuses ends the query with an error that is not modelled.
- Paging.Crawl: documents do not change between pages, and a key is on one shard.
- HashRings.OneShardMovesOnlyItsShare: says nothing of a hash that is itself a token two shards share, since the search may land on either; no endpoint is listed twice, as `validate` demands.
- RingAgreement.SameMembersSameOwners: takes the search as a function of the token positions, as one build of the standard library's search is.
- Aggregates.MetricsMerge: sums and averages are exact reals, so the rounding of `f64` addition is not modelled.
- Aggregates.ShardedAggregate: groups are a map by key, so the text a slot is stored under and the order groups are listed in are not modelled; slot texts are taken to be injective.
- WebhookRuns.EveryAdmittedEventIsAcknowledged: takes each read to yield the next admitted event, which `WebhookStreams.PullNext` proves of a feed on which nothing slips; a slip leaves the stream a hole that no gap records. The registration stays the same; replacing a sender when its filter changes is not modelled, and a gap ends the claim, as the code records it.
- WebhookRuns.RecordedIsAllIff: rests on the same yield.
- WebhookRuns.RunKeeps: rests on the same yield.
- Webhooks.Delivery.Open: a collection that is not on the node and a filter that no longer parses are tried again and not modelled.
- EntityTags.ParseTags: error texts are names of the cases; trimming knows the ASCII blanks, the only ones a header value can hold.
- FilterParsers.Expression: refusals are cases without the operator and field names in their texts; objects iterate in key order, as the parsed map does.
- JsonOrder.JsonCmpTies: a decimal is the `f64` it is read as, and an integer carries the `f64` it compares as, which is left open but for integers up to 2^54; parsing digits to an `f64` is not modelled.
- RingCaches.CacheIsRightIff: the index catalogue that a view also carries is not part of a layout.
- AdmissionRuns.BoundHolds: a write stages no more frames than it reserved, which is the append's duty; frames a follower stages for its leader ask for nothing and are counted apart; a bound of zero and a node without replication admit everything and are modelled in the gate alone.
- Raft elections, commit index, leases, membership, WAL, compaction, snapshots and secondary indexes are not part of this model.
- HTTP handlers, streaming transports, status codes, credentials, TLS, signing, configuration, logging and metrics histograms: plumbing around the modelled cores.
- Waiting: where the code sleeps, retries after a delay or awaits a wake-up, the model returns that it waits.
- 64-bit overflow of log positions and counters is not modelled; the 32-bit accumulator of base64 and the 64-bit hash ring are.
- xxhash, JSON text parsing, key ranges, sort and field syntax, and cursor text beyond base64: foreign or shallow.
