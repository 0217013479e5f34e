# The bridge's engine, modelled and proved

The bridge copies AT Protocol records into SSB feeds and SSB messages back into AT Protocol repositories.
This project models the part of it that keeps state and proves what that state promises. It holds no HTML,
no HTTP, no SQL: tables are maps, `ORDER BY` and `LIMIT` are sorting and taking a prefix, and every answer
from outside (a PDS, a relay, a publisher, a clock) is a parameter that may be anything.

| file | what it models |
|---|---|
| `RecordIndex.dfy`, `Indexer.dfy`, `RepoTracking.dfy` | the repository indexer: commits, backfills, the commit buffer, the record table and the event log beside it; how repositories come to be tracked |
| `Draining.dfy`, `Stranded.dfy` | what a backfill applies of the buffered commits; which of them no run ever applies |
| `WorkQueue.dfy`, `Subscription.dfy` | the indexer's work queue and its replay-then-live subscriptions, as interleaved steps |
| `SingleFlight.dfy` | concurrent roots that resolve dependencies and wait for each other's flights |
| `PublishLanes.dfy`, `ClosedLanes.dfy` | the publisher's lanes, callers, cancellations and shutdown; when a caller meets a closed lane |
| `Mapper.dfy`, `RecordFields.dfy` | records to messages and their fields, reference placeholders and what becomes of them |
| `RichText.dfy`, `FacetMeaning.dfy` | the rewritten text, mentions and facets, in both directions |
| `LateReferences.dfy` | resolving a message's references in two passes, the second of which finds more |
| `Messages.dfy`, `Lifecycle.dfy`, `Processor.dfy`, `Providing.dfy` | the message table, the deferred/pending/failed/published decision, the mutually recursive record processor, and what it asks for and decides |
| `DeferReason.dfy`, `DeferredQuery.dfy`, `DeferredCascade.dfy` | defer reasons, the query for a batch of deferred messages, the cascading pass over it |
| `Retry.dfy`, `Counters.dfy` | retries and their delay; what the attempt counters of a row say |
| `DeferredPass.dfy`, `LateParent.dfy` | which batches one pass publishes whole, and a thread that it does not |
| `Republishing.dfy`, `Resending.dfy`, `PublishedTwice.dfy` | how often a pass sends a candidate, when it is twice, and a batch of which one is |
| `ReverseEvents.dfy`, `ReverseSync.dfy` | SSB messages to AT Protocol writes |
| `ReverseRecords.dfy`, `ReverseOutcomes.dfy` | which record a message has created; what becomes of the others, and what the tables keep |
| `ReverseReasons.dfy`, `ReverseFollows.dfy` | over whole runs: why the cursor passed each entry, and whose follows an unfollow undoes |
| `Keyset.dfy` | keyset pagination of the message list |
| `UiIndex.dfy` | the client's incremental index |
| `Text.dfy`, `Wrappers.dfy` | string helpers, optional and fallible values |

Objects that the source updates in place are classes (`Indexer.Service`, `Mapper.MappedMessage`,
`Messages.MessageTable`, `Processor.Scope`, `Processor.RecordProcessor`, `DeferredCascade.Pass`,
`ReverseSync.ReverseProcessor`, `UiIndex.Index`). Each of their methods is proved to move the object exactly
as a function on values says, or is contracted directly, and the properties over many calls are proved about
those functions. The four concurrent protocols are step systems over values: `Enabled` and `Apply` say what
one step of one participant does, and theorems range over every interleaving.

## What holds, and what does not

Some statements one would expect of this code are not true of it. They are proved in the form that is true,
with the condition on which it depends.

- Roots that resolve dependencies can wait for each other forever, exactly when the reference graph has a
  cycle that can race (`SingleFlight.DeadlockExactlyOnCycles`, `SingleFlight.StuckForever`): any cycle of three
  or more records can, and one of two exactly if each record is referred to by a like that is the other or by a
  third record (`SingleFlight.RaceableIff`). A single root never waits for itself.
- After a backfill the current revision is that of the snapshot, also when newer buffered commits were
  drained after it. The next commit breaks the chain exactly when the last drained revision was another one
  (`Indexer.FollowerOfDrainedCommit`). A backfill tombstones nothing (`RecordIndex.SnapshotLeavesOthers`), and
  a backfill completes if and only if its snapshot decodes and every buffered commit of its generation is sound:
  its archive is readable and holds each record that it creates or updates (`Draining.BackfillCompletesIff`). A
  buffered commit, and a deletion in it, can still be applied by some further run if and only if it is sound and
  its generation is the repository's own (`Stranded.ReplayableIffSound`, `Stranded.ReachesRowIff`); there are
  others (`Stranded.HalfReadIsNeverApplied`).
- A subscription loses events when producers broadcast out of append order. A schedule of the producers
  leaves every subscriber without a gap, however the two are interleaved, if and only if it broadcasts in
  append order (`Subscription.GapFreeExactlyInAppendOrder`).
- An enqueue can be lost, exactly by a cancellation: a run leaves a DID owed a backfill that nothing will
  start if and only if its sender was cancelled while it was all that was on the way, and no enqueue followed
  (`WorkQueue.LostExactlyByDrop`).
- The comment on `SanitizeForPublish` (`internal/mapper/mapper.go:433-436`) says that internal fields must
  never be published. A retry sends the stored payload unsanitized, so an expired deferral is published with
  its placeholders; `Retry.RetryIsCleanIff` gives the exact condition. On the lifecycle path the comment holds.
- Attempt counters do not count attempts alone: an expiry adds a row's own counters to it. Over any run the
  counters of a row are its attempts since it was last reset if and only if no expiry since found a count
  (`Counters.CountersAreAttemptsIff`); and since a deferred row always has one, its deferrals are counted
  rightly if and only if it did not expire since (`Counters.DeferralsAreRightIff`, `Counters.ExpiredRowCountsTwo`).
- One pass over the deferred messages can send a candidate twice. Without a resolver it never does
  (`Republishing.WithoutResolverSentOnce`). With one that answers with the records it is asked for, it sends a
  candidate twice exactly when its stored record maps, an attempt before its own came to it through the
  dependencies and found its references, and its own attempt can send it or one after it comes to it so
  (`Resending.SentTwiceIff`), and never more often (`Republishing.SentAtMostTwice`).
  `PublishedTwice.ParentIsSentTwice` is such a batch, in the order in which the query gives it.
- A call to Publish that races Close crashes the program, exactly when it is neither sent nor cancelled by the
  time its lane is closed (`ClosedLanes.CrashesIff`); without further calls Close is safe if and only if no caller
  is still sending (`ClosedLanes.CloseIsUnsafeIff`).
- The comment at `internal/bridge/processor.go:535-540` says that a chain of deferred replies collapses in a
  single pass. A batch of replies does exactly when, in the order of the cascade, every reply comes after its
  root and its parent (`DeferredPass.RepliesPublishedWholeIff`); the batch [A, C, B] of a thread A, B, C is
  left with C deferred (`LateParent.ThreadIsNotPublishedWhole`).
- Resolving references twice equals resolving them once with fixed lookups. With lookups that know more the
  second time it does exactly when no mention became resolvable in between and no root was found after its
  parent (`LateReferences.TwoPassesAreOneIff`); either loses something for good
  (`LateReferences.UnknownMentionIsDropped`, `LateReferences.LateRootGetsNoTangle`).
- `docs/reverse-sync.md` lets operators see failed events, but a message that does not decode is never
  stored as one: its event has no action, the table refuses it, and the batch stops there for good
  (`ReverseSync.NoProgressIffBlocked`, `ReverseSync.UndecodableStopsTheCursor`).
- The client's index of several logs equals every rebuild from nothing, once all logs are synced, if and only
  if the logs agree on the messages they share (`UiIndex.SyncedIsEveryRebuildIff`).

## Model

| member | source | states |
|---|---|---|
| SingleFlight.NeverWaitsForItself | internal/bridge/dependencies.go:238-344 | in every reachable state of any number of concurrent roots, on any reference graph, a root that waits does not wait for a flight it leads |
| SingleFlight.WaiterGetsLeaderResult | internal/bridge/dependencies.go:258-264 | whatever a wait returned is the result with which the leader of that flight finished |
| SingleFlight.OneLeaderPerUri | internal/bridge/dependencies.go:323-344 | no two flights for one URI are led at once, and a root nests at most sixteen |
| SingleFlight.UnblockedRootMoves | internal/bridge/dependencies.go:238-344 | a root with work left that is not blocked always has a step to take |
| SingleFlight.AcyclicNeverStuck | internal/bridge/dependencies.go:238-344 | without a reference cycle that can race, no reachable state has all unfinished roots blocked |
| SingleFlight.CycleCanGetStuck | internal/bridge/dependencies.go:258-263 | any cycle that can race can leave all roots waiting for each other |
| SingleFlight.DeadlockExactlyOnCycles | internal/bridge/dependencies.go:238-344 | deadlock is reachable if and only if the graph has a cycle of two or more records each of which some root can come to lead without counting the next as visited |
| SingleFlight.RaceableIff | internal/bridge/processor.go:370-383 | such are all cycles of three or more, and those of two whose records are each referred to by a like that is the other, whose deletion resolves its subject, or by a third record |
| SingleFlight.StuckForever | internal/bridge/dependencies.go:258-263 | once all roots with work left wait for each other, none of them ever moves again, whatever else is started |
| PublishLanes.LaneIndex | internal/publishqueue/publisher.go:112-119 | every DID has one lane, within the number of workers |
| PublishLanes.PerDidOrder | internal/publishqueue/publisher.go:45-135 | in every interleaving the delegate calls for a DID, then its requests still in the lane, are its accepted requests in order |
| PublishLanes.CallsOfOneDidNeverOverlap | internal/publishqueue/publisher.go:121-133 | between two delegate calls for one DID the first has returned |
| PublishLanes.AcceptedIffCalledOrQueued | internal/publishqueue/publisher.go:82-86 | an accepted request is either called or still queued, never both, and nothing else is |
| PublishLanes.CallerGetsOwnAnswer | internal/publishqueue/publisher.go:88-94 | what Publish returns without cancellation is the delegate's answer to that very request |
| PublishLanes.CloseLeavesNothingBehind | internal/publishqueue/publisher.go:96-110 | once Close returned, each accepted request was passed on exactly once and answered, cancelled ones included |
| PublishLanes.CloseTerminates | internal/publishqueue/publisher.go:96-110 | once the lanes are closed work only shrinks, some worker can always move while there is any, and then Close can return |
| ClosedLanes.CrashesIff | internal/publishqueue/publisher.go:82-100 | a run can crash at a caller if and only if the caller's request was neither sent nor cancelled and its lane is among those closed so far |
| ClosedLanes.CloseIsUnsafeIff | internal/publishqueue/publisher.go:82-110 | from any state of a run, what remains can crash without a new call to Publish if and only if some caller is still sending |
| WorkQueue.TokenPerQueuedDid | internal/atindex/service.go:738-774 | senders, channel copies and received tokens of a DID number one when it is marked queued and none otherwise |
| WorkQueue.NeverQueuedTwice | internal/atindex/service.go:738-768 | a DID is in the channel at most once |
| WorkQueue.LostExactlyByDrop | internal/atindex/service.go:738-774 | after any run a DID is owed a backfill with nothing on the way to run it if and only if its sender was cancelled with an enqueue outstanding and none starting, and neither an enqueue nor a start followed |
| WorkQueue.OwedDidIsOnItsWay | internal/atindex/service.go:419-431 | so without a cancelled sender, a DID enqueued since its last backfill began is queued or about to be backfilled |
| WorkQueue.BackfillWithin | internal/atindex/service.go:419-431 | until its backfill begins, each step that brings a DID on its way closer, its send, a receive, its dequeue, uses up one of those remaining, and no step adds any |
| WorkQueue.SentIsBackfilledIff | internal/atindex/service.go:419-431 | once a DID is in the channel its backfill begins if and only if the steps that bring it closer number those that remained: the receives up to its own, its dequeue and the start |
| WorkQueue.EnqueueLeadsToBackfill | internal/atindex/service.go:419-431 | an enqueue whose DID is not cancelled is followed by a backfill that begins after it, within as many such steps as the channel has places and three more: the send, the dequeue and the start |
| WorkQueue.WayBehindOthers | internal/atindex/service.go:738-774 | behind n other DIDs an enqueue takes exactly n and four such steps, in a run with no other enqueue of it and no cancellation, for every n the channel has room for |
| WorkQueue.TokenCanMove | internal/atindex/service.go:738-774 | a step that brings a DID on its way closer is always possible, unless its sender finds the channel full; then a worker can make room |
| WorkQueue.DroppedSenderLosesEnqueue | internal/atindex/service.go:751-757 | a cancelled sender takes with it the enqueues that found the DID marked |
| Subscription.DeliveryIncreases | internal/atindex/service.go:255-277 | in every interleaving delivered record cursors strictly increase and lie after the start cursor |
| Subscription.DeliveryIsPrefix | internal/atindex/service.go:214-282 | with broadcasts in append order, what was delivered is a gap-free prefix of the log after the start, through overflows and evictions |
| Subscription.CaughtUpMeansComplete | internal/atindex/service.go:214-282 | a registered subscriber with an empty channel and nothing left to broadcast has delivered everything |
| Subscription.GapFreeExactlyInAppendOrder | internal/atindex/service.go:214-282 | a schedule of the producers delivers a gap-free prefix in every interleaving with a subscriber if and only if it broadcasts in append order |
| Subscription.RacingProducersLoseEvents | internal/atindex/service.go:263-267 | two producers that broadcast out of order make a subscriber skip an event |
| RecordIndex.RebuildIsLastEvent | internal/db/atproto.go:302-315 | folding the log keeps for each key exactly what its last event says |
| RecordIndex.OpsKeepAgreement | internal/atindex/service.go:530-617 | a commit keeps the table equal to the fold of the log, also when it fails part-way |
| RecordIndex.EntriesKeepAgreement | internal/atindex/service.go:468-491 | so does a snapshot |
| RecordIndex.CommitLeaves | internal/atindex/service.go:536-608 | each row holds what the commit's last operation on its key says; all other rows are as before |
| RecordIndex.CommitLogs | internal/atindex/service.go:536-608 | a commit logs one event for each operation that writes, in their order |
| RecordIndex.CommitRecords | internal/atindex/service.go:554-609 | each of those events tells its operation in full: the kind, the content or the deletion, the revision and the sequence number, and whether it is live |
| RecordIndex.TombstoneKeepsContent | internal/atindex/service.go:563-607 | a deletion keeps the identifier and JSON of the row it found |
| RecordIndex.SnapshotLeavesOthers | internal/atindex/service.go:468-488 | a backfill leaves the rows that its snapshot does not contain |
| RecordIndex.SnapshotLeaves | internal/atindex/service.go:466-490 | the row of a key of the repository is what the last entry of the snapshot for it says, at the snapshot's revision; without an entry it is as it was |
| RecordIndex.SnapshotLogs | internal/atindex/service.go:466-490 | a snapshot logs one upsert, not live, with the content of each entry that names a record, in their order |
| RecordIndex.SnapshotStopsAt | internal/atindex/service.go:468-476 | a snapshot stops at its first entry that names a record and does not decode, with the entries before it stored |
| Indexer.LogRebuildsTable | internal/atindex/service.go:284-616 | after any run of calls, failed ones included, folding the event log rebuilds the record table exactly |
| Indexer.OtherOutcomesChangeNoRecord | internal/atindex/service.go:301-317 | a break, a duplicate or buffering changes no record |
| Indexer.GenerationsNeverDecrease | internal/atindex/service.go:174-178 | over any run no repository disappears and no generation goes down |
| Indexer.CommitAccountedFor | internal/atindex/service.go:284-324 | a commit of a tracked repository is applied, buffered under its current generation and enqueued, or the current one again by revision and identifier, each exactly on its condition; the relay position advances only then |
| Indexer.AppliedCommitsAreChained | internal/atindex/service.go:308-323 | while a repository stays synced with a known revision, the commits applied form an unbroken since/rev chain from its first to its last revision |
| Indexer.DrainVisitsEachOnce | internal/db/atproto.go:214-238 | a drain visits each buffered revision of the generation once, strictly by sequence number and revision |
| Indexer.BufferStaysUnique | internal/db/atproto.go:200-212 | in every run a revision is buffered at most once per generation |
| Indexer.BackfillDrains | internal/atindex/service.go:513-528 | a completed backfill empties the buffer of its generation only, a failed one leaves it |
| Indexer.BackfillEndsAtSnapshot | internal/atindex/service.go:493-507 | a completed backfill is synced at the snapshot's revision, whatever was drained |
| Indexer.DrainEndsAtLast | internal/atindex/service.go:493-528 | draining moves the repository to the last revision of its listing, and a backfill that completes moves it on to the snapshot's |
| Indexer.FollowerOfDrainedCommit | internal/atindex/service.go:308-317 | after a backfill that drained a listing, a commit made since its last one breaks the chain if and only if that was not the snapshot's revision |
| Indexer.DrainedRevIsForgotten | internal/atindex/service.go:493-499 | it does happen: one drained commit ahead of the snapshot makes its successor break the chain |
| RepoTracking.TrackEnqueuesIff | internal/atindex/service.go:105-148 | tracking keeps what is known of a repository, starts an unknown one at its first generation, and enqueues it exactly when it is new or its records are not complete |
| RepoTracking.ResyncEnqueues | internal/atindex/service.go:150-188 | a resynchronization always moves on to the next generation, pending, and enqueues |
| RepoTracking.FirstCommitTracksIff | internal/atindex/service.go:683-703 | the first commit of an unknown repository is buffered, and the repository tracked and enqueued, exactly when its bridged account is active |
| RepoTracking.UntrackedIsIgnored | internal/atindex/service.go:190-200 | untracking keeps what is known, and from then on a commit moves only the position of the relay, unless its account is an active bridged one |
| RepoTracking.AccountStateIs | internal/atindex/service.go:367-417 | an account event puts its repository into the state that its status names and otherwise leaves its state, its generation and its revision |
| Draining.AppliesIffSound | internal/atindex/service.go:530-552 | whether a commit can be applied depends on no table: it can if and only if its archive is readable and holds every record that it creates or updates |
| Draining.BackfillAppliesIff | internal/atindex/service.go:513-528 | a backfill applies a buffered commit if and only if that commit and all before it in the listing are sound |
| Draining.BackfillCompletesIff | internal/atindex/service.go:438-511 | a backfill of a tracked repository completes if and only if every record of the snapshot decodes and every buffered commit of its generation is sound |
| Draining.BackfillLeaves | internal/atindex/service.go:466-528 | after a backfill that completes, a key has the row that the last operation of the last buffered commit writing it left, otherwise the content of the last entry of the snapshot for it at the snapshot's revision, and otherwise its row from before |
| Draining.BackfillLogs | internal/atindex/service.go:466-528 | its events come first in the log it adds: one upsert, not live, for each entry of the snapshot that names a record, in their order; with nothing buffered there are no others |
| Draining.BackfillCursor | internal/atindex/service.go:493-507 | it leaves the position of the last event of its snapshot, if there was one, also when the drain logged later ones |
| Draining.ApplyMoves | internal/atindex/service.go:610-617 | a commit that is applied moves its repository to its revision, identifier and sequence number, and to the position of the last event it logged |
| Draining.FailedBackfillIsErrored | internal/atindex/service.go:776-783 | a backfill that fails marks its repository, keeps its generation and its buffer, and without a snapshot stores nothing and says why |
| Stranded.SyncedHasNothingBuffered | internal/atindex/service.go:301-306 | in every run a synced repository has no commit of its generation in the buffer |
| Stranded.ReplayableIffSound | internal/atindex/service.go:513-528 | after any run a buffered commit can be applied by a backfill of some further run if and only if it is sound and its generation is the one its repository has now |
| Stranded.ReachesRowIff | internal/atindex/service.go:554-609 | on the same condition what it says of a key that it writes, a deletion or a record, can reach the record table through a backfill |
| Stranded.HalfReadIsNeverApplied | internal/atindex/service.go:542-552 | a commit that creates a record its archive lacks and deletes another is buffered, no backfill of any further run applies it, and no backfill completes while it is there |
| Stranded.StaleForGood | internal/db/atproto.go:214-238 | once the repository is past its generation, no backfill of any run lists a buffered commit, let alone applies it, and none discards it |
| Indexer.Service.TrackRepo | internal/atindex/service.go:105-148 | tracks a new or known repository, in place, as the state function says |
| Indexer.Service.RequestResync | internal/atindex/service.go:150-188 | moves a repository to a new generation and enqueues it |
| Indexer.Service.UntrackRepo | internal/atindex/service.go:190-200 | stops tracking a repository in place |
| Indexer.Service.ApplyCommit | internal/atindex/service.go:530-617 | the loop over operations leaves the tables that the fold over them gives, up to the first that fails |
| Indexer.Service.OnCommit | internal/atindex/service.go:284-324 | handles one commit event as the decision function says |
| Indexer.Service.OnAccount | internal/atindex/service.go:367-417 | handles one account event as its function says |
| Indexer.Service.DrainBufferedCommits | internal/atindex/service.go:513-528 | replays the listing in order and discards it only when all went through |
| Indexer.Service.RunBackfill | internal/atindex/service.go:433-511 | runs one backfill as its function says, failures included |
| RichText.RewriteRichText | internal/mapper/mapper.go:218-267 | the text built is the input with what each used facet covers made a link to its first link that is not blank and not shown already, each at its shifted position, and everything else copied; with the mentions of those facets and tags |
| RichText.StrippedIsInput | internal/mapper/mapper.go:238-284 | for any facet list, the output without the added link wrappers is the input text |
| RichText.TextIsRewritten | internal/mapper/mapper.go:238-284 | for any facet list the text is rewritten so, told by positions and length from the used facets alone |
| FacetMeaning.SortedIsOrdered | internal/mapper/mapper.go:230-235 | facets are taken in order of start, then of end, and none is lost |
| FacetMeaning.MentionsAreGiven | internal/mapper/mapper.go:286-316 | every mention is one that a used facet or a tag gives, and each of those has a mention with its link and name |
| RichText.MentionsAreClean | internal/mapper/mapper.go:286-316 | no mention has a blank link and none is listed twice |
| RichText.FindFirstNonOverlappingToken | internal/bridge/reverse_sync.go:845-864 | finds the leftmost occurrence of the token that overlaps nothing, and none exactly when there is none |
| RichText.LeftmostFree | internal/bridge/reverse_sync.go:845-864 | the position it gives is free and no earlier one is; without one, none is |
| RichText.BuildReverseFacets | internal/bridge/reverse_sync.go:681-777 | the facets placed are those of the mentions in turn, each leftmost free, then those of the bare URLs |
| RichText.ReverseFacetsWellPlaced | internal/bridge/reverse_sync.go:681-777 | placed facets are non-empty, in bounds and pairwise disjoint |
| RichText.PlacedFacetsAreAllUsed | internal/mapper/mapper.go:231-252 | the outbound rewriting accepts every facet the inbound side places |
| FacetMeaning.WantIff | internal/bridge/reverse_sync.go:702-754 | a mention asks for a facet on a token exactly if its link is a feed with an account, a tag or a URL, with that as its feature; the post is refused exactly for a mention of a blob that was not embedded, or one whose lookup fails |
| FacetMeaning.FacetsCameOf | internal/bridge/reverse_sync.go:681-777 | each facet of an inbound post covers the token of a mention that asks for it, with that feature, or links a URL of the text |
| FacetMeaning.GrantedIsPlaced | internal/bridge/reverse_sync.go:705-754 | a mention that asks for a facet gets it on the leftmost free occurrence of its token, and none if there is none |
| FacetMeaning.UrlIsLinkedIff | internal/bridge/reverse_sync.go:756-772 | the URLs linked are exactly those that, without punctuation at their end, are clear of the facets of the mentions |
| Mapper.BookkeepingIsPrefix | internal/mapper/mapper.go:437-443 | a field is internal exactly when its name has the prefix |
| Mapper.MappingsEmitOnlyChecked | internal/mapper/mapper.go:52-209 | every internal field any mapping emits is one that the unresolved-reference check reads |
| Mapper.DeletionsEmitOnlyChecked | internal/bridge/processor.go:502-524 | and every one of a message that undoes a record |
| Mapper.SanitizingLosesNoReference | internal/mapper/mapper.go:437-443 | with nothing unresolved, sanitizing removes only blank internal fields and nothing else |
| RecordFields.MappedRecordSays | internal/mapper/mapper.go:27-216 | a record maps exactly if its type is supported and its JSON decodes; each field of the message, by its name, holds what the record says, and there is no other |
| RecordFields.MappedDeletionSays | internal/bridge/processor.go:502-524 | only likes, follows and blocks are undone, by a neutral vote on the same record or a neutral contact of the same account |
| RecordFields.KnownRefsResolve | internal/mapper/mapper.go:334-411 | a thread, repost or list that the table knows gives way to its reference, in the field that SSB has for it |
| RecordFields.KnownThreadIsTangled | internal/mapper/mapper.go:349-368 | a reply whose root and parent are known hangs from both |
| RecordFields.KnownSubjectIsLinked | internal/mapper/mapper.go:370-377 | a vote on a known record links its message |
| RecordFields.KnownQuoteIsLinked | internal/mapper/mapper.go:379-390 | a known quote is linked below the text, which loses the line breaks at its end |
| RecordFields.KnownContactResolves | internal/mapper/mapper.go:392-397 | the account of a contact gives way to its feed |
| RecordFields.KnownAboutResolves | internal/mapper/mapper.go:399-404 | so does that of a profile |
| RecordFields.MentionsResolve | internal/mapper/mapper.go:379-430 | of the mentions, a known quote among them, those of accounts become mentions of their feeds or go, and the others stay |
| RecordFields.UnknownRefsStay | internal/mapper/mapper.go:334-411 | a reference stays as it is exactly while nothing is found for it |
| RecordFields.CompleteIff | internal/mapper/mapper.go:448-465 | a contact is complete when it names a feed, a vote when it links a message, anything else always |
| Mapper.ReplacingTwiceIsOnce | internal/mapper/mapper.go:334-431 | with fixed lookups that never give a DID, a second pass over the references changes nothing |
| LateReferences.TwoPassesAreOneIff | internal/mapper/mapper.go:334-431 | on any message, with lookups that know more the second time, two passes give the message of one if and only if no mention became resolvable and no root was found after its parent |
| LateReferences.LateRootGetsNoTangle | internal/mapper/mapper.go:350-370 | a reply whose root is found only after its parent never gets the tangle one pass would have given it |
| LateReferences.GrownMentionsIff | internal/mapper/mapper.go:413-430 | for the mentions alone: two passes give those of one exactly when no mention became resolvable |
| LateReferences.UnknownMentionIsDropped | internal/mapper/mapper.go:413-430 | a mention dropped by the first pass stays lost although the feed becomes known |
| Mapper.MappedMessage.ReplaceATProtoRefs | internal/mapper/mapper.go:334-431 | resolves the references of a message in place as the pass function says |
| Mapper.MappedMessage.SanitizeForPublish | internal/mapper/mapper.go:437-443 | removes exactly the internal fields, in whatever order they are visited |
| Messages.RowAfterWrites | internal/db/messages.go:15-77 | after any writes to any rows a row holds its last write, the sum of all attempts, and its first creation time |
| Messages.RewritingDoublesCounters | internal/db/messages.go:41-44 | a row written back with its own counters keeps them exactly when they are zero |
| Counters.CountersAre | internal/db/messages.go:41-44 | over any run of records handled, deletions, renewed attempts, retries, expiries and resets, the counters of a row are the attempts made since its last reset and what its expiries since found |
| Counters.CountersAreAttemptsIff | internal/bridge/processor.go:609-618 | so they are the attempts made since the last reset if and only if no expiry since found a count, for calls and for deferrals |
| Counters.DeferralsAreRightIff | internal/bridge/processor.go:609-618 | with expiries of deferred rows only, deferrals are counted rightly since the last reset if and only if the row did not expire since |
| Counters.ExpiredRowCountsTwo | internal/bridge/processor.go:609-618 | a record deferred once that expires counts two deferrals |
| Messages.UpsertKeepsRowsOk | internal/db/messages.go:15-77 | writing a row that keeps the row promise keeps it for the table |
| Messages.MessageTable.AddMessage | internal/db/messages.go:15-77 | replaces or inserts one row as the upsert says |
| Messages.MessageTable.ResetMessageForRetry | internal/db/messages.go:190-209 | resets one row and keeps the promise of all: published has a reference, deferred a reason, failed and deleted no reference |
| DeferReason.SplitJoin | internal/bridge/processor_lifecycle.go:20-23 | splitting a joined reason gives its parts back |
| DeferReason.ReasonRoundTrip | internal/bridge/processor.go:631-642 | parsing the reason of a message recovers the URI of each of its unresolved references, in order |
| DeferReason.ParseDeferReasonUris | internal/bridge/processor.go:631-642 | the loop reads off those URIs |
| DeferredQuery.QueryAgreesWithParser | internal/db/messages.go:584-589 | for every reason, the reference the query cuts out of it is the first that parsing it gives |
| Lifecycle.SendsOnlyResolved | internal/bridge/processor_lifecycle.go:19-76 | what is sent has nothing unresolved, no internal field, and is complete for its type |
| Lifecycle.DecidedState | internal/bridge/processor_lifecycle.go:19-76 | published, deferred and pending are each decided exactly on their condition |
| Lifecycle.DecidedSends | internal/bridge/processor_lifecycle.go:51-75 | the publisher is called once when the message is resolved and complete, and otherwise not |
| Lifecycle.PublishedIsAnswer | internal/bridge/processor_lifecycle.go:51-75 | a message that is sent is sent by exactly one call, as its own account and sanitized, and its row keeps the publisher's answer: published under the reference it gave, or failed with its error; one that is not sent is neither |
| Lifecycle.DeferredSaysWhy | internal/bridge/processor_lifecycle.go:20-45 | a deferred row says which references it waits for, or that the message is incomplete |
| Lifecycle.BlobErrorIsNoted | internal/bridge/processor.go:843-852 | an error of bridging blobs is noted on the row behind whatever else it says, unless the message is found incomplete |
| Lifecycle.DecidedRowIsOk | internal/bridge/processor_lifecycle.go:19-76 | the row decided on keeps the row promise, given non-blank publisher references |
| Processor.KeptByWrite | internal/bridge/processor.go:414-427 | a write changes no bridged row unless it is another version, a deletion or a retry of it |
| Processor.FinishingKeepsOk | internal/bridge/processor.go:441-478 | deciding and storing a message keeps every row's promise, every sent message presentable, and every other bridged row |
| Processor.PublishedRefIsAnswer | internal/bridge/processor.go:441-478 | over any run of record events a published row has the reference that the last successful call for its record gave; without such a call it had it from the start |
| Processor.RecordRowIs | internal/bridge/processor.go:441-478 | handling a record leaves a row under its URI with its version, account, type, JSON and thread |
| Processor.RecordProcessor.ApplyMappedMessageLifecycle | internal/bridge/processor_lifecycle.go:19-76 | decides in place on a mapped message as the decision function says |
| Processor.RecordProcessor.Process | internal/bridge/processor.go:414-500 | ends on any reference graph, and leaves the table, the calls, the scope and the fetches that the recursive function gives; succeeds if and only if the record is a duplicate or maps, whatever happens to its dependencies; keeps all promises |
| Processor.RecordProcessor.EnsureRecord | internal/bridge/dependencies.go:238-321 | fails untouched on a blank URI or at depth sixteen, does nothing for a visited URI, and otherwise visits it, leaves what its function gives, and keeps all promises |
| Processor.RecordProcessor.Hydrate | internal/bridge/processor.go:909-924 | keeps all promises and never fails, whatever a dependency does |
| Processor.RecordProcessor.ProcessRecord | internal/bridge/processor.go:414-478 | per root, each requested URI is processed at most once and never the root's own, with at most 256 fetches |
| Processor.RecordProcessor.HandleRecordEvents | internal/bridge/processor.go:327-337 | handles record events in turn, each with the outcome its function gives, and keeps all promises over the whole run; a create or update of a duplicate changes and sends nothing |
| Processor.EchoesDoNothing | internal/bridge/processor.go:421-427 | over any run of record events, each event that brings a bridged record in its own version changes and sends nothing, as long as no other version, deletion or retry of it is written |
| Providing.EnsuringProvides | internal/bridge/dependencies.go:238-321 | asking for a record processes it exactly if it is asked for the first time, above depth sixteen, and either waits in its row or, neither bridged nor given up, is given by its host, of which one root asks at most 256; otherwise no table changes |
| Providing.HydrationAsksAll | internal/bridge/processor.go:909-924 | a root asks for everything that a message refers to, of a thread, a subject or a quote, and the table does not resolve |
| Providing.ProcessingDecides | internal/bridge/processor.go:414-478 | a record that maps and is new in its version has all that asked for first, and then its message is decided, with every reference that the table has learned by then; any other changes nothing |
| Providing.SubjectIsLinked | internal/bridge/processor.go:414-478 | so a vote links the message of its subject, known at first or learned since |
| Providing.AttemptDecides | internal/bridge/processor.go:644-711 | an attempt at a deferred message does the same, as a root, with the message of its record, or what undoes it once deleted |
| Providing.DeletionDecides | internal/bridge/processor.go:339-500 | a deletion marks a record that cannot be undone; for any other it decides on the message that undoes it, once what this refers to was asked for |
| RecordFields.DependenciesAre | internal/bridge/processor.go:1011-1036 | what is asked for is exactly what a message still refers to of a thread, a subject or a quote |
| RecordFields.DeletionRowIs | internal/bridge/processor.go:345-387 | the row of a deletion keeps the version and JSON that the event or the row before still has |
| RecordFields.OnlyMarkedIff | internal/bridge/processor.go:389-394 | posts, profiles, and what has no content left but the mark of a deletion are only marked |
| Processor.RecordProcessor.ProcessDeletedRecord | internal/bridge/processor.go:339-411 | marks the row deleted or decides on the message that undoes the record, with the outcome its function gives, and keeps all promises |
| Processor.RecordProcessor.ResolveDeferredMessage | internal/bridge/processor.go:644-711 | attempts one deferred message again from its stored record, without a look at its row, with the outcome its function gives, and keeps all promises |
| RecordFields.AttemptRowIs | internal/bridge/processor.go:644-711 | an attempt leaves the row of the same record |
| Processor.RecordProcessor.ExpireDeferredMessages | internal/bridge/processor.go:600-626 | writes every candidate as failed, in turn, sends nothing and keeps all promises |
| Processor.ExpiredAreFailed | internal/bridge/processor.go:609-618 | each of distinct candidates is failed, with the reason, and keeps its message; every other row is as it was |
| DeferredCascade.IndexDependents | internal/bridge/processor.go:551-557 | the reverse index holds for each URI the candidates whose reasons name it |
| DeferredCascade.ResolveAt | internal/bridge/processor.go:563-590 | attempts a candidate unless it was attempted before and, if it is published, all that depend on it, in the order and with the outcome of the pass function |
| DeferredCascade.ResolveDeferredMessages | internal/bridge/processor.go:541-597 | attempts every candidate exactly once, with the outcome of the pass function and Published + Deferred + Failed = Attempted = Selected |
| DeferredPass.PassIsItsAttempts | internal/bridge/processor.go:563-590 | the world a pass leaves is that of its attempts, one after the other |
| DeferredPass.PublishedWholeIff | internal/bridge/processor.go:535-597 | without a resolver, a batch is published whole in one pass if and only if in the order of the cascade, which depends on the reasons only, each candidate comes after those it waits for |
| DeferredPass.RepliesWaitExactly | internal/bridge/processor.go:571-584 | a reply to records that are known or in the batch waits exactly for its root and its parent where these are in the batch |
| DeferredPass.RepliesPublishedWholeIff | internal/bridge/processor.go:535-597 | a batch of such replies is published whole in one pass if and only if every reply comes after its root and its parent in the order of the cascade |
| DeferredPass.ForestIsPublishedWhole | internal/bridge/processor.go:535-540 | so is every forest in which a candidate waits for its parent only and each root comes before its tree |
| LateParent.ThreadIsNotPublishedWhole | internal/bridge/processor.go:535-540 | not so a thread A, B, C in the batch [A, C, B], which the query gives in that order: everything else is in place, and C is left deferred |
| Republishing.SentAtMostTwice | internal/bridge/processor.go:644-711 | with a resolver that answers with the records it is asked for, a pass calls the publisher for a candidate once if its record maps and its row had come of a call when it was attempted, and once if its row comes of a call at the end, as it does if its own attempt could send it |
| Resending.SentTwiceIff | internal/bridge/processor.go:541-597 | with such a resolver a pass sends a candidate twice if and only if its record maps, an earlier attempt came to it through its dependencies with its references found, and its own can send it or a later one comes to it so |
| Republishing.WithoutResolverSentOnce | internal/bridge/processor.go:541-597 | without a resolver a pass sends each candidate at most once |
| PublishedTwice.ParentIsSentTwice | internal/bridge/processor.go:644-711 | a reply whose parent is deferred and whose root is not to be found, and then the parent, whose own thread was bridged meanwhile: the query gives the batch so, the first attempt publishes the parent, and the parent's own sends it again |
| Retry.RetryBackoff | internal/bridge/processor.go:867-886 | the doubling loop computes the capped delay in 64-bit arithmetic without overflow, for every base and attempt count |
| Retry.BackoffIsCappedDoubling | internal/bridge/processor.go:867-886 | for a base up to ten minutes the delay is min(base · 2^(attempts−1), 10 min) |
| Retry.BackoffMonotoneIff | internal/bridge/processor.go:871-873 | the delay never shrinks with attempts if and only if the base is at most ten minutes |
| Retry.RetryMessage | internal/bridge/processor.go:755-802 | sends a stored payload as it is and stores the outcome, credited to the call, keeping all promises |
| Retry.RetriedRowIsOk | internal/bridge/processor.go:755-802 | the retried row keeps the row promise, counts one attempt, and is published exactly when a call succeeded |
| Retry.RetriedIsAnswer | internal/bridge/processor.go:755-802 | a retried row is that of the same record; published, it has the reference with which the one call was answered, and failed the error |
| Retry.DueIff | internal/bridge/processor.go:854-866 | a row is due at once without attempts, and otherwise once the capped, doubled delay has passed since its last; and then stays due |
| Retry.RetryIsCleanIff | internal/bridge/processor.go:775-784 | a retried message has no internal field exactly when the publisher had refused it or its mapping had none |
| Retry.ExpiredReferenceIsSent | internal/bridge/processor.go:611-614 | a reference that never resolved is published with its internal field once its deferral expired |
| Retry.RetryFailedMessages | internal/bridge/processor.go:714-753 | calls the publisher once, in order, with the payload of each candidate that is due and has one; Attempted counts the due, Published the calls accepted, and Selected = Attempted + Deferred, Attempted = Published + Failed; each row tried has one attempt more, every other is untouched |
| Retry.TriesAreBounded | internal/db/messages.go:540-576 | over any number of passes a row gets at most its remaining attempts, and its counter grows by exactly its tries |
| ReverseEvents.UnfollowDeletesOwnFollow | internal/bridge/reverse_sync.go:1103-1145 | an unfollow to carry out deletes the record of the latest published follow by the same account of the same target |
| ReverseEvents.UnfollowFindsFollow | internal/db/reverse_sync.go:359-387 | and is carried out exactly when there is such a follow, and otherwise deferred |
| ReverseEvents.HonestLookupsExist | internal/db/reverse_sync.go:359-387 | there are lookups that answer as the database does, which the statements about them assume |
| ReverseEvents.ReplyIsOnKnownRecords | internal/bridge/reverse_sync.go:1151-1181 | a reply to carry out names bridged records as its root and its parent, and is deferred while one of them is not bridged |
| ReverseFollows.DeletionsUndoOwnFollows | internal/bridge/reverse_sync.go:282-490 | over any run each remote deletion removes a record created earlier in the run by a published follow, for an unfollow by the same account of the same target |
| ReverseFollows.UnfollowIsCarriedOut | internal/bridge/reverse_sync.go:364-490 | after any run an allowed unfollow of a followed account deletes the record of the latest follow, credentials and the remote side permitting, and otherwise is deferred and deletes nothing |
| ReverseEvents.ReplyNamesBoth | internal/bridge/reverse_sync.go:1385-1419 | a post is a reply with both ends named, or names no thread anywhere |
| ReverseEvents.BuildIsWell | internal/bridge/reverse_sync.go:921-1149 | every event built names its message, author and account, and has an action |
| ReverseRecords.WaitingAsksRightly | internal/bridge/reverse_sync.go:921-1149 | an event to carry out that is no unfollow comes with the record that its message wants: a follow of the account that the feed resolves to, a like or repost of the record with that reference, a profile of its fields, a post of its text and thread; and names its target |
| ReverseRecords.CreatesIffWanted | internal/bridge/reverse_sync.go:921-1149 | and there is one exactly when the message wants such a record |
| ReverseRecords.ThreadEndsAre | internal/bridge/reverse_sync.go:1385-1419 | each end of a thread is the first reference given for it, by the message's fields, its tangle, or the other end |
| ReverseRecords.HandlingCreatesWanted | internal/bridge/reverse_sync.go:364-490 | handling a message creates a record only if a mapped author wants it; it is that record, completed with its facets, images or avatar only, and the event keeps the identifiers answered |
| ReverseRecords.WantedIsCreated | internal/bridge/reverse_sync.go:364-490 | and a wanted record is created and its event published, where the account can write and the host accepts it |
| ReverseRecords.AccountOfFeed | internal/db/reverse_sync.go:163-203 | the account of a feed is that of its active mapping, or else that of an active bridged account |
| ReverseRecords.WithoutAccessIsTold | internal/bridge/reverse_sync.go:411-430 | an event whose account has no credential waits for one, and one without a session fails, each saying why; nothing is written |
| ReverseRecords.RefusedIsTold | internal/bridge/reverse_sync.go:467-472 | an event whose record the host refuses fails with what the host said |
| ReverseRecords.RetryHandlesAgain | internal/bridge/reverse_sync.go:327-351 | a retry handles the message again as its event keeps it |
| ReverseOutcomes.SkippedIff | internal/bridge/reverse_sync.go:921-1149 | a message is skipped, and for that reason, exactly if its mapping does not allow what it asks for or it is never carried over |
| ReverseOutcomes.NothingAskedIff | internal/bridge/reverse_sync.go:921-1149 | it makes no event exactly if it is of another kind or a vote that is not positive |
| ReverseOutcomes.DeferredIff | internal/bridge/reverse_sync.go:921-1149 | if no unfollow, it is deferred exactly if a record it needs is not bridged or a feed has no account, and the reason names that |
| ReverseOutcomes.PersistedIs | internal/db/reverse_sync.go:205-279 | persisting an event keeps all of it, adds up its attempts, touches no other, and refuses one without its identifiers |
| ReverseOutcomes.AttemptIsCounted | internal/bridge/reverse_sync.go:411-430 | an attempt is counted exactly if the account has a credential |
| ReverseOutcomes.CreatedRowIs | internal/bridge/reverse_sync.go:1183-1209 | a record created under an identifier has a published row under it, with the version and JSON answered, and the message, account and thread it came of |
| ReverseOutcomes.MappingIs | internal/db/reverse_sync.go:85-161 | a mapping counts for its trimmed feed until it is removed, and for no other |
| ReverseSync.AtMostOneWrite | internal/bridge/reverse_sync.go:282-490 | over any run a message has at most one successful remote write, and one exactly when its event is published |
| ReverseSync.FinalStaysFinal | internal/bridge/reverse_sync.go:343-377 | published and skipped events are the same after any further run |
| ReverseSync.HandleKeepsInv | internal/bridge/reverse_sync.go:364-490 | handling a message touches no other event, and fails to finish exactly when it is mapped, not done and does not decode |
| ReverseSync.BatchKeepsInv | internal/bridge/reverse_sync.go:309-324 | the cursor moves over exactly the entries dealt with: to the limit, the end of the log, or the entry that blocks it |
| ReverseSync.BatchAccounts | internal/bridge/reverse_sync.go:309-324 | every entry the cursor passed in a batch names no message, or its message has an event, or was given none |
| ReverseSync.RunAccounts | internal/bridge/reverse_sync.go:282-325 | so it is after any run of batches, retries and mappings over a log that grows in between |
| ReverseReasons.RunCallsFor | internal/bridge/reverse_sync.go:364-490 | and over any run each entry passed was given the outcome that the tables of that moment call for: an event dealt with before, an author not mapped, a message that asks for nothing, or an event recorded, each exactly on its condition |
| ReverseSync.NoProgressIffBlocked | internal/bridge/reverse_sync.go:388-397 | a batch makes no progress if and only if the next entry is unreadable or undecodable, and then changes nothing |
| ReverseSync.BlockedForGood | internal/bridge/reverse_sync.go:388-397 | no batch over a log that grows ever gets past such an entry |
| ReverseSync.UndecodableStopsTheCursor | internal/bridge/reverse_sync.go:386-397 | it does happen: an undecodable first message of the first author mapped stops the cursor, and is never stored |
| ReverseSync.RetryKeepsInv | internal/bridge/reverse_sync.go:327-351 | a retry touches its own event only, and never a published or skipped one |
| ReverseSync.CreatedIsRecognised | internal/bridge/reverse_sync.go:1183-1209 | a record created with an identifier is at once a duplicate to the forward direction |
| ReverseSync.EchoStaysRecognised | internal/bridge/processor.go:421-427 | and stays one, its row unchanged, as long as no other version or rewrite of it is written |
| ReverseSync.NoEcho | internal/bridge/reverse_sync.go:1183-1209 | let the forward direction handle any record events after such a write: each that brings the record back in the version written sends and changes nothing, as long as no other version, deletion or retry of it is written |
| ReverseSync.ReverseProcessor.PersistReverseEvent | internal/db/reverse_sync.go:205-279 | upserts an event with its attempts added up, or refuses an incomplete one |
| ReverseSync.ReverseProcessor.ProcessDecodedMessage | internal/bridge/reverse_sync.go:364-490 | handles one message as the handling function says |
| ReverseSync.ReverseProcessor.ProcessBatch | internal/bridge/reverse_sync.go:282-325 | the cursor loop has the outcome of the repeated step |
| ReverseSync.ReverseProcessor.RetryEvent | internal/bridge/reverse_sync.go:327-351 | resets an event that is not final and handles its message again |
| ReverseSync.ReverseProcessor.AddReverseIdentityMapping | internal/db/reverse_sync.go:85-115 | maps a feed to an account in place |
| ReverseSync.ReverseProcessor.RemoveReverseIdentityMapping | internal/db/reverse_sync.go:149-161 | makes the mapping of a feed inactive |
| Keyset.CursorRoundTrip | internal/db/message_cursor.go:15-59 | a cursor is written exactly for a row with a time and a URI, and reads back as it with the URI trimmed |
| Keyset.ClauseIsOrder | internal/db/message_cursor.go:61-74 | the four keyset clauses mean after and before the cursor in the order of the list |
| Keyset.ReverseMessages | internal/db/message_cursor.go:87-91 | reverses an array in place |
| Keyset.TableHasView | internal/db/message_cursor.go:76-85 | each table has exactly its rows in two strict orders, one the other backwards |
| Keyset.ListMessagesPage | internal/db/messages.go:267-371 | queries, cuts and turns round the rows of a page as its function says |
| Keyset.PageAfter | internal/db/messages.go:316-369 | the page after a row's cursor is the slice of the list that follows it, and has a next page exactly when rows are left |
| Keyset.PageBefore | internal/db/messages.go:342-369 | the page before a row's cursor is the slice that ends at it |
| Keyset.WalkYieldsList | internal/db/messages.go:267-371 | following the next cursors yields the whole strictly sorted list, without gap or repeat, and stops exactly at its end |
| Keyset.PrevReturns | internal/db/messages.go:346-369 | the previous cursor of page k+1 gives the rows of page k back |
| UiIndex.FoldedIsLast | cmd/ssb-client/ui_index.go:255-310 | upserting a log leaves for each key its last record there, or what was there before |
| UiIndex.SettledKeyIsRight | cmd/ssb-client/ui_index.go:176-253 | after any appends, syncs and failed syncs of several logs in one table, a key with no entry ahead of its log's cursor has a row exactly when a log holds it, and the row is the last record some log has of it |
| UiIndex.SyncedIsEveryRebuildIff | cmd/ssb-client/ui_index.go:176-230 | once all logs are synced the table equals every rebuild from nothing, in whatever order, if and only if the logs agree on the messages they share |
| UiIndex.SuccessEqualsRebuild | cmd/ssb-client/ui_index.go:200-230 | for a single log, a successful sync after any appends and failures leaves the rows of a rebuild from nothing |
| UiIndex.SyncSucceedsIff | cmd/ssb-client/ui_index.go:200-230 | a sync succeeds if and only if there is nothing new, or no readable new entry is the one whose write fails and the cursor can be saved |
| UiIndex.SyncTakes | cmd/ssb-client/ui_index.go:200-253 | a key that the sync came to in the new entries, all of them or those up to the failure, has its last record there; any other is as it was; the cursor is the length of the log on success and stays on failure |
| UiIndex.HealthySyncsCatchUp | cmd/ssb-client/ui_index.go:174-230 | after any appends and failures, one healthy sync of each log leaves all of them synced |
| UiIndex.RepairedIsEveryRebuildIff | cmd/ssb-client/ui_index.go:174-230 | and the table then equals every rebuild exactly when the logs agree |
| UiIndex.Index.SyncLog | cmd/ssb-client/ui_index.go:200-253 | syncs in place as its function says and leaves the cursors of other logs alone |
| UiIndex.Index.Sync | cmd/ssb-client/ui_index.go:174-198 | syncs the user's log, if there is one, and then the receive log, and stops at the first failure |

## Left out

- Network, websocket, XRPC, PLC, CAR and CBOR decoding, JSON and base64: functions from outside, or results that may be anything. A JSON round trip keeps a message as it is.
- Pages, HTTP handlers, command lines, logging, metrics and rate limiting.
- Database failures: reads and writes succeed, except where the database layer itself refuses a row. The client index is the exception: there any upsert or cursor write may fail.
- Real time: the time is a parameter, one per call. Timestamps that nothing depends on are not kept.
- White space is that of ASCII; texts are sequences of bytes, and no other Unicode rule applies.
- Concurrent handlers on the same row: handlers and backfills are atomic steps. Interleaving is modelled for the work queue, the subscriptions, the single flights and the lanes, whose shared state is a value that steps replace, not an object behind a lock.
- Blob bridging may fail, and the error is noted on the row, but its rewriting of a message is not modelled; nor are the images of an inbound post, only their outcome.
- Of the commit loop of the processor (`internal/bridge/processor.go:224-287`) only that record events are handled one after the other; identity events and the handle and endpoint of a repository: no invariant depends on them.
- The choice among several rows with one SSB reference or several follows that are equally late, and the order of retry candidates: any choice and any order is allowed. The theorems about deferred batches hold of any order as well; the two witness batches are in the query's own (`DeferredQuery.Selected`).
- Offset paging for other sorts, and a request for the previous page without a cursor.
- Subscription.DeliveryIsPrefix: assumes that broadcasts happen in append order; Subscription.GapFreeExactlyInAppendOrder shows that nothing less will do.
- Stranded.ReplayableIffSound: the further run may deliver other buffered revisions once more, with other content; Draining.BackfillAppliesIff says what a backfill applies of a buffer as it is.
- WorkQueue.OwedDidIsOnItsWay: assumes that no sender of the DID was cancelled; the exact condition is that of WorkQueue.LostExactlyByDrop.
- WorkQueue.EnqueueLeadsToBackfill: counts the steps that bring the DID closer; that the scheduler takes them is not modelled.
- DeferredPass.PublishedWholeIff: is about passes without a resolver; with one, an attempt may fetch and publish records besides its candidate.
- Resending.SentTwiceIff: assumes that the publisher gives no blank reference, that no candidate's row is published or failed when the pass begins, and that a fetch answers with the record whose URI was asked for; a host asked by handle may answer with another URI, and then a record can be sent again by that route.
- DeferredQuery.QueryAgreesWithParser: a reason that names no URI is taken to join no row.
- LateReferences.TwoPassesAreOneIff: assumes that the later lookups find at least what the earlier ones did, the same, and that the earlier ones never give a DID.
- DeferReason.ReasonRoundTrip: assumes that no reference contains the separator, which is not escaped.
- Mapper.ReplacingTwiceIsOnce: assumes lookups that do not change and never give a DID; LateReferences.TwoPassesAreOneIff is about lookups that do.
- ReverseRecords.CreatesIffWanted: assumes that every row with a reference has its identifiers; ReverseRecords.WaitingAsksRightly and ReverseRecords.HandlingCreatesWanted do not.
- ReverseRecords.WantedIsCreated: assumes the same of the rows.
- ReverseOutcomes.DeferredIff: assumes the same of the rows, and is not about unfollows, which are those of ReverseEvents.UnfollowFindsFollow.
- FacetMeaning.UrlIsLinkedIff: assumes that the URLs are found from left to right, clear of each other, as a regular expression finds them.
- Keyset.WalkYieldsList: assumes rows with a creation time and URIs without surrounding blanks, which are the rows that have cursors.
- Retry.TriesAreBounded: assumes that nothing else writes the row between the passes; a reset or an expiry changes its counter.
- Indexer.Service.OnAccount: the time and the handle of account and identity events are not kept.
