# Messenger core: a verified model

A Dafny model of the parts of the messenger whose correctness is not visible in any single function: the unread
projection that is kept incrementally from an unreliable stream, one-to-one calls with their lazy expiry and background
sweeper, and the smaller protocols that feed or guard them. `dafny verify dfyconfig.toml` checks all of it.

## What is modelled

**Messages and unread counters.** `Unread` holds one conversation: members, log, facts, read marks, the checkpoint
`applied_through_seq` and the projection rows, and the effect of every operation on them. `UnreadStore` changes the same
tables statement by statement, as the repository and services do, and each scenario is proved to have exactly that effect.
`UnreadRuns` takes whole runs: deliveries late, twice, out of order or never, receipts ahead of the consumer, lost rows,
restoring reads, erasures. `Receipts` is the join of read marks. `Kafka` is the subscriber with its manual commits and the
group it forms with the broker; `EndToEnd` joins it to the counters. `Outbox` is the lease protocol of the relays.

**Calls.** `Calls` is the automaton. `CallWorld` holds the four tables and each transaction as one atomic step with one
clock value; `CallStore` carries the transactions out in place, row by row, and is proved equal to those steps. `CallRuns` is
about whole runs (lines, summaries, versions, reasons, tabs), `CallReplies` and `CallOutcomes` about what users are told
and what becomes of the tables, `CallSweeper` is the
simulation between runs with and without the sweeper, `CallSignals` numbering, repeats and recovery of signals.

**Separate protocols.** `Sessions` (revocation against the registry of realtime connections), `History` (paging while the
conversation grows), `RateLimit` (fixed window), `RetryBudget` (retry amplification), `Compatibility` (the contract checker
against the meaning of the keys it compares: sections 6.1 and 6.2 of JSON Schema Validation 2020-12, section 4.8.12 of
OpenAPI 3.1.0). `Departures` collects runs in which code and description part; `Sets` and `Wrappers` are helpers.

Transactions under a row lock are atomic steps. Clocks, failures of the network, concurrent inserts, locked rows and the
answers of other services are parameters of the steps. Identifiers are numbers; moments of calls are microseconds.

## Where the code and its description part

The code is followed, and in each case the exact condition is a lemma.

- The sweeper is described as having no influence. A caller who answers or declines his own overdue call is told
  "ended" before a sweep and "not found" after it; an undelivered call withdrawn after the ringing ran out ends as failed
  before a sweep and is already missed after it; and the repeat of a signal that has expired goes out under its old number
  before a sweep and under a new one after it. `CallSweeper.SweepShowsExactlyWhen`: in replies, published signals and
  tables nothing else shows. `Departures` has a run for each.
- A second tab is described as being told that the call was taken. A call accepted because both sides rang each other
  records no label, so every tab of the callee is told it answered. `CallRuns.AnsweredWithSuccessExactlyWhen`,
  `Departures.BothTabsAnswered`.
- A connection is described as either seen by the revocation of its session or refused. If its client id is already
  registered under another session it is admitted and not seen. `Sessions.AccountedExactlyWhenNeverTaken`,
  `Sessions.TakenClientIsNotHandedBack`.
- The compatibility checker is described as catching a shortened enumeration. Python finds `1 == True`, so an entry
  replaced by its equal of another type is missed. `Compatibility.NoFindingsExactlySound`,
  `Compatibility.RetypedEnumIsMissed`.
- The checker is described as leaving a widening alone. `integer` widened to `number` is reported. `Compatibility.WideningIsReported`.
- A refused caller is told after how many seconds to come back, and may be refused again then: the rest of the window is
  rounded to the nearest second. `RateLimit.WaitIsEnoughExactlyWhen`, `RateLimit.RefusedTwice`.
- Unreadable records are described as skipped. A record whose headers cannot be decoded is not: every poll that reaches it
  raises, and its partition stays there. `Kafka.BadHeadersBlock`.
- The outbox is described as sending the events of a conversation in the order they were written. It does so within a
  batch; a record that failed is put off, and one written after it is claimed and published first.
  `Outbox.InOrderWithinBatch`, `Outbox.OlderIsOvertaken`.
- After an author is erased, his own messages become foreign to him as well, so his own row, unlike everyone else's, may
  no longer be the count. `Unread.ErasureOfOneself`, `Departures.ErasedAuthorsRow`.
- `rebuild` counts only messages of the reader's membership, `recount_unread` and `bump_unread` do not look at it. They agree
  in direct conversations, where both members were there from the start. `Unread.RebuildAgreesWithRecount`,
  `Departures.LateMemberIsCountedTwoWays`.

## Model

| member | source | states |
|---|---|---|
| `Unread.RebuildAgreesWithRecount` | apps/messenger/messenger/repositories/unread.py:282-451 | `rebuild` and `recount_unread` give the same number if and only if no unread message falls outside the reader's membership window |
| `Unread.CountThroughNext` | apps/messenger/messenger/repositories/unread.py:44-73 | raising the bound by one adds exactly the next message, if it is foreign and above the mark |
| `Unread.DeltaOfStoredMessage` | apps/messenger/messenger/services/unread.py:361-425 | the delta decided from an event and the stored mark is the contribution of its message to the full count |
| `Unread.RebuildThenBump` | apps/messenger/messenger/repositories/unread.py:216-451 | rebuilding through `c` and bumping for `c + 1` is rebuilding through `c + 1`; a receipt ahead of the checkpoint makes later bumps add nothing |
| `Unread.FreshEventRow` | apps/messenger/messenger/services/unread.py:167-216 | after a fresh event every member has a row and it is the from-scratch count through the event, in each of the branches: applied, gap, no recipients, missing rows |
| `Unread.EventMeaning` | apps/messenger/messenger/services/unread.py:147-216 | an event at or below the checkpoint changes nothing; a fresh one leaves exactly one row per member, each the full count, and the checkpoint at its number |
| `Unread.EventKeepsSound` | apps/messenger/messenger/services/unread.py:115-216 | no delivery, late, repeated, out of order or stripped of its recipients, makes a counter wrong |
| `Unread.NoticesTellTheTruth` | apps/messenger/messenger/services/unread.py:361-570 | readers are told the number that was written, nobody whose number changed is left out, and an applied event announces an increment of one, never to its author |
| `Unread.ToldExactlyWhen` | apps/messenger/messenger/services/unread.py:361-570 | told is everybody after a recount of the conversation, else whoever lost the row or has the message yet to read; nobody after a duplicate |
| `Unread.ReceiptMeaning` | apps/messenger/messenger/services/receipts.py:182-375 | a receipt is accepted exactly from a member and within the head seen; the stored mark is at least the claimed one, the row becomes the count above it and below the checkpoint, no other row moves, and the reply tells the mark as stored and as it was before |
| `Unread.ReceiptRefusals` | apps/messenger/messenger/services/receipts.py:271-302 | which refusal a receipt gets: its numbers first, then the membership, then the head |
| `Unread.RebuiltFromTables` | apps/messenger/messenger/repositories/unread.py:374-451 | a rebuild writes a row for each active member asked for, counting the foreign, unread messages of their time |
| `Unread.DecisionTellsWhy` | apps/messenger/messenger/services/unread.py:147-216 | the outcome is duplicate, rebuilt for want of recipients, for a gap or for missing rows, or applied, exactly as event, checkpoint and rows say |
| `Unread.ReceiptKeepsSound` | apps/messenger/messenger/services/receipts.py:308-347 | receipts keep every counter right, also when they run ahead of the consumer |
| `Unread.RestoreMeaning` | apps/messenger/messenger/services/unread.py:289-358 | a restoring transaction leaves from-scratch counts through the head, where the checkpoint then stands, also for rows that were not lost and for a row of the viewer that came back before the lock was taken |
| `Unread.ListingMeaning` | apps/messenger/messenger/services/unread.py:219-286 | a list gives a number to members and to nobody else: the full count through the checkpoint as first read, or, for a lost row, through the head as found by the later transaction |
| `Unread.SendMeaning` | apps/messenger/messenger/services/messages.py:226-254 | a new message takes the next number with a fact that names exactly the other active members, and is above every checkpoint and mark: no stored counter changes its meaning |
| `Unread.ErasureMeaning` | apps/messenger/messenger/domain/unread.py:257-269 | erasing an author changes the count of no other reader |
| `Unread.ErasureOfOneself` | apps/messenger/messenger/domain/unread.py:257-322 | the erased author's own row stays right if and only if none of the author's messages lies between mark and checkpoint |
| `Unread.LossMeaning` | apps/messenger/messenger/repositories/unread.py:178-213 | losing any rows keeps the remaining ones right |
| `UnreadRuns.StepKeepsSound` | apps/messenger/messenger/services/unread.py:115-358 | every operation keeps numbering, bounds and all counters right |
| `UnreadRuns.EveryReachableRowIsRight` | apps/messenger/messenger/repositories/unread.py:44-451 | in every state reachable by any mixture of sends, deliveries, receipts, losses, restores (of rows lost or come back) and erasures, each existing row of a reader not erased is the number of foreign messages above the mark and not above the checkpoint |
| `UnreadRuns.ScheduleSettles` | apps/messenger/messenger/domain/unread.py:1-32 | any schedule of deliveries equals one from-scratch count through the highest number delivered |
| `UnreadRuns.EffectivelyExactlyOnce` | apps/messenger/messenger/domain/unread.py:1-32 | any schedule with repeats, gaps and disorder ends in the very state of delivering each fact once in order up to the highest delivered number |
| `UnreadRuns.MarksOfRun` | apps/messenger/messenger/repositories/read_states.py:32-97 | the stored mark of a reader is the join of the accepted receipts of the run |
| `UnreadRuns.DeliveredIsPassed` | apps/messenger/messenger/repositories/unread.py:144-175 | in any run the checkpoint has passed every number delivered |
| `UnreadRuns.CheckpointOfRun` | apps/messenger/messenger/repositories/unread.py:144-175 | without restores the checkpoint is the greatest number ever delivered |
| `UnreadRuns.RowsAreDetermined` | apps/messenger/messenger/domain/unread.py:1-32 | a row depends only on the log, the reader's mark and the checkpoint |
| `UnreadRuns.RunsConverge` | apps/messenger/messenger/domain/unread.py:1-32 | runs with the same sends and erasures, the same delivered numbers and the same receipts, in any order and multiplicity, end with the same log, marks and checkpoint |
| `UnreadRuns.RowsConverge` | apps/messenger/messenger/domain/unread.py:1-32 | such runs agree on every row both of them kept, of a reader not erased |
| `UnreadRuns.AnnouncedAreTheAdvances` | apps/messenger/messenger/services/receipts.py:324-340 | over a run the replies that tell of an advance are as many as the receipts that moved the mark |
| `UnreadRuns.AnnouncementsBounded` | apps/messenger/messenger/domain/receipts.py:220-242 | over a whole run at most two replies per message of the conversation tell a reader of an advance |
| `UnreadStore.Tables.LockOffsets` | apps/messenger/messenger/repositories/unread.py:76-141 | the checkpoint, or nothing for a conversation that is gone |
| `UnreadStore.Tables.SetOffsets` | apps/messenger/messenger/repositories/unread.py:144-175 | only the checkpoint changes |
| `UnreadStore.Tables.MissingProjection` | apps/messenger/messenger/repositories/unread.py:178-213 | exactly the named users without a row |
| `UnreadStore.Tables.BumpUnread` | apps/messenger/messenger/repositories/unread.py:216-279 | absent rows start at their delta, present ones grow by it, zero deltas write and report nothing for present rows |
| `UnreadStore.Tables.RecountUnread` | apps/messenger/messenger/repositories/unread.py:282-336 | writes the absolute count over whatever the row held |
| `UnreadStore.Tables.Rebuild` | apps/messenger/messenger/repositories/unread.py:374-451 | writes from-scratch counts of the named active members, or of all, and of nobody when the list is empty |
| `UnreadStore.Tables.UpsertReadState` | apps/messenger/messenger/repositories/read_states.py:32-97 | stores the greater of each number |
| `UnreadStore.Tables.Bump` | apps/messenger/messenger/services/unread.py:361-438 | survivors grow by their delta; those whose number grew are announced |
| `UnreadStore.Tables.ApplyEvent` | apps/messenger/messenger/services/unread.py:115-216 | the sequence of statements has the effect and the outcome that the lemmas of `Unread` are about |
| `UnreadStore.Tables.RebuildAll` | apps/messenger/messenger/services/unread.py:482-517 | everyone is recounted through the event, everyone is told |
| `UnreadStore.Tables.RebuildLost` | apps/messenger/messenger/services/unread.py:520-570 | lost rows recounted through the event, surviving ones bumped: together the row-by-row step |
| `UnreadStore.Tables.SetReceipts` | apps/messenger/messenger/services/receipts.py:182-375 | the order validate, authorise, bound, lock, store, recount has the effect stated for a receipt; a conversation that is gone is not found, unless the receipt is refused first |
| `UnreadStore.Tables.FetchProjection` | apps/messenger/messenger/repositories/unread.py:454-489 | one query reads exactly the rows of the viewer that exist |
| `UnreadStore.Tables.RestoreConversation` | apps/messenger/messenger/services/unread.py:289-358 | behind the head everybody is rebuilt and the checkpoint moves, otherwise only the viewer, whether or not the row is still lost |
| `UnreadStore.Tables.RestoreLostCounts` | apps/messenger/messenger/services/unread.py:219-286 | with any other transactions in between, each entry is shown with its row as first read or with what its own transaction restored from what it met; the entries are gone through in order |
| `UnreadStore.Tables.SendMessage` | apps/messenger/messenger/services/messages.py:226-254 | the next number, the message under it and its fact are written together, or nothing |
| `Receipts.StoredWithinHead` | apps/messenger/messenger/domain/receipts.py:124-217 | `read <= delivered <= head` for any accepted receipts |
| `Receipts.StoredIsJoin` | apps/messenger/messenger/repositories/read_states.py:32-97 | the stored state is the least upper bound of the receipts written |
| `Receipts.OrderAndRepeatsDoNotMatter` | apps/messenger/messenger/repositories/read_states.py:32-97 | only the set of accepted receipts matters |
| `Receipts.AdvanceMeansMore` | apps/messenger/messenger/domain/receipts.py:220-242 | a write is announced exactly when the receipt claims more than was stored, and never lowers a number |
| `Receipts.AcceptedExactlyWhen` | apps/messenger/messenger/domain/receipts.py:124-192 | a receipt is accepted if and only if it names a number and every one it names lies between zero and the head |
| `Receipts.FaultExactlyWhen` | apps/messenger/messenger/domain/receipts.py:124-192 | which fault is found in a receipt, the delivered number looked at first |
| `Receipts.ClaimOf` | apps/messenger/messenger/domain/receipts.py:195-217 | what is read was delivered, and what is not named is not claimed |
| `Receipts.AdvancesBounded` | apps/messenger/messenger/domain/receipts.py:220-242 | announced states form a strictly rising chain of at most `2 * head` |
| `Kafka.ParseRecords` | apps/messenger/messenger/adapters/kafka.py:216-265 | exactly the readable records of a partition's share, in offset order |
| `Kafka.Subscriber.Poll` | apps/messenger/messenger/adapters/kafka.py:216-265 | hands out exactly the readable records of the batch, once each, ordered within a partition, and remembers where it began; it raises exactly when headers of the batch cannot be decoded, having already moved on and remembered |
| `Kafka.Subscriber.Rewind` | apps/messenger/messenger/adapters/kafka.py:267-293 | every partition of the last batch that is still assigned goes back to the start of the batch |
| `Kafka.Subscriber.Commit` | apps/messenger/messenger/adapters/kafka.py:295-306 | the start of the batch is forgotten only after a confirmed commit |
| `Kafka.StepKeepsSafe` | apps/messenger/messenger/adapters/kafka.py:152-306 | every step of any consumer, failure and rebalance included, keeps each record below a position done or in hand |
| `Kafka.NothingIsSkipped` | apps/messenger/messenger/adapters/kafka.py:152-306 | in every run of the group each record below the committed offset was handled or has an unreadable body |
| `Kafka.BadHeadersBlock` | apps/messenger/messenger/adapters/kafka.py:234-238 | no committed offset of any run ever passes a record whose headers cannot be decoded |
| `Kafka.CommitMovesOffsets` | apps/messenger/messenger/adapters/kafka.py:295-306 | a commit moves the offsets of the group to where the worker stands |
| `Kafka.TakeoverResumes` | apps/messenger/messenger/adapters/kafka.py:152-179 | whoever takes a partition over goes on exactly at its committed offset |
| `Kafka.RewindUndoesPoll` | apps/messenger/messenger/adapters/kafka.py:216-293 | after a rewind the next poll starts where the failed one did |
| `Kafka.PollHandsOutTheNext` | apps/messenger/messenger/adapters/kafka.py:216-265 | a poll hands out the readable part of the next records and the position moves behind them |
| `EndToEnd.CommittedIsScheduled` | apps/messenger/messenger/workers/consumer_unread.py:186-260 | a fact below the committed offset is among the events the workers applied |
| `EndToEnd.LastDeliveredMeansCounted` | apps/messenger/messenger/services/unread.py:147-216 | a schedule with the last message in it leaves every row complete |
| `EndToEnd.CaughtUpExactlyWhenLastDelivered` | apps/messenger/messenger/workers/consumer_unread.py:60-76 | the projection reaches the head if and only if the last message was among those delivered |
| `EndToEnd.CommittedMeansCounted` | apps/messenger/messenger/workers/consumer_unread.py:186-260 | for a conversation at rest: once a committed offset has passed the fact of its last message, whatever the group went through, every member's row is the number of foreign messages above the mark |
| `EndToEnd.CommittedMeansCountedInRun` | apps/messenger/messenger/workers/consumer_unread.py:186-260 | the same while the conversation goes on: with sends, receipts, losses, restores and erasures between the events applied, the checkpoint is at the head and every row there is, of a reader not erased, is the full count |
| `Outbox.BackoffMonotone` | apps/messenger/messenger/domain/outbox.py:70-80 | back-off never shrinks with more attempts and stays between a second and five minutes |
| `Outbox.BackoffDoubles` | apps/messenger/messenger/domain/outbox.py:70-80 | one second after the first failure, twice as long after each further one, five minutes at most |
| `Outbox.Table.ClaimBatch` | apps/messenger/messenger/repositories/outbox.py:59-105 | leases, ascending, the oldest unpublished records without a lease or with one that ran out, not locked by others; one left behind is younger than all taken and only for lack of room; nothing else changes |
| `Outbox.Table.MarkPublished` | apps/messenger/messenger/repositories/outbox.py:108-135 | the named records still unpublished and still leased to the owner get the mark and lose the lease, every other record stays as it is, and the count is that of the records changed |
| `Outbox.Table.RecordFailure` | apps/messenger/messenger/repositories/outbox.py:138-170 | one more attempt and the back-off for an unpublished record of the owner, nothing for any other |
| `Outbox.RowsTellHistory` | apps/messenger/messenger/repositories/outbox.py:59-170 | an unpublished row stores exactly its latest claimant and what that claimant was promised |
| `Outbox.ClaimsDoNotOverlap` | apps/messenger/messenger/repositories/outbox.py:88-96 | a record is claimed again only after the lease or back-off promised to its latest claimant ran out |
| `Outbox.ClaimableExactlyWhen` | apps/messenger/messenger/repositories/outbox.py:75-105 | a record may be claimed if and only if the relay is between batches, the record unmarked, and nothing was promised of it or what was promised last is over, so a crashed relay holds it no longer than its lease |
| `Outbox.RelaysTellHistory` | apps/messenger/messenger/services/outbox_relay.py:82-142 | what a relay still has to publish, what it has yet to mark, and what reached the broker in order, publications with a lost answer included, are what the steps tell |
| `Outbox.MarkTellsHistory` | apps/messenger/messenger/services/outbox_relay.py:101-142 | a record is marked exactly from the first time that its latest claimant marks what it has published |
| `Outbox.InOrderWithinBatch` | apps/messenger/messenger/services/outbox_relay.py:101-122 | a relay publishes an older record with a topic before a younger one if and only if it claimed both together |
| `Outbox.OlderIsOvertaken` | apps/messenger/messenger/repositories/outbox.py:80-96 | a run in which a failed record is put off and one written later is published before it |
| `Outbox.AttemptsAreFailures` | apps/messenger/messenger/repositories/outbox.py:138-170 | an unpublished record has as many attempts as failures reported by its claimants of the time |
| `Outbox.FailurePutsOff` | apps/messenger/messenger/services/outbox_relay.py:166-252 | the n-th failure of a record puts it off by the n-th back-off, an hour if no topic is known for it |
| `Outbox.OnlyLatestClaimantFinishes` | apps/messenger/messenger/repositories/outbox.py:120-170 | a mark or failure by anyone else than the latest claimant changes nothing |
| `Outbox.MarkedWasPublished` | apps/messenger/messenger/services/outbox_relay.py:101-142 | with relays that publish and then mark, a marked record is in the stream, and nothing without a topic ever is |
| `Outbox.MarkIsPermanent` | apps/messenger/messenger/repositories/outbox.py:120-135 | a mark, once set, is never cleared or moved |
| `Sessions.SortBySession` | apps/messenger/messenger/repositories/sessions.py:455-462 | the connections found are sorted out by session, none lost and none under a wrong one |
| `Sessions.Store.EnsureSession` | apps/messenger/messenger/repositories/sessions.py:86-140 | creates the session, or moves device and expiry of an unrevoked one of the same user, and touches nothing else |
| `Sessions.Store.RevokeSession` | apps/messenger/messenger/repositories/sessions.py:196-243 | revokes an open session of the user, removes and returns exactly its connections |
| `Sessions.Store.RevokeUserSessions` | apps/messenger/messenger/repositories/sessions.py:419-462 | revokes all open sessions of the user and returns the connections of each |
| `Sessions.Store.RegisterRealtimeConnection` | apps/messenger/messenger/repositories/sessions.py:278-330 | admits exactly for a session of the user, not revoked and before its expiry, and registers the connection or its refreshment unless the client id is taken |
| `Sessions.Store.RefreshRealtimeConnection` | apps/messenger/messenger/repositories/sessions.py:333-359 | refreshes exactly a connection registered under a session of the user that is not revoked and before its expiry |
| `Sessions.Store.DeleteStaleRealtimeConnections` | apps/messenger/messenger/repositories/sessions.py:388-416 | exactly the connections refreshed within the window remain, unchanged, and the count is of those gone |
| `Sessions.NoRowOfRevokedSession` | apps/messenger/messenger/repositories/sessions.py:196-330 | in every reachable state no registry row belongs to a revoked session or to a user other than its owner |
| `Sessions.AccountedExactlyWhenNeverTaken` | apps/messenger/messenger/repositories/sessions.py:196-462 | at every point of a run every connection ever admitted is registered under its session, was handed back by the revocation of that session, or was swept after the window, if and only if none was admitted while its client id was registered under another session or user |
| `Sessions.UniqueIsNeverTaken` | apps/messenger/messenger/repositories/sessions.py:278-330 | unique client ids are enough for that |
| `Sessions.TakenClientIsNotHandedBack` | apps/messenger/messenger/repositories/sessions.py:278-330 | a run from empty tables in which a connection is admitted although its client id is taken, and the revocation of its session does not name it |
| `Sessions.RevocationIsFinal` | apps/messenger/messenger/repositories/sessions.py:86-243 | a revocation keeps its moment and reason whatever follows, `ensure_session` included |
| `Sessions.SessionTellsHistory` | apps/messenger/messenger/repositories/sessions.py:86-243 | the stored session is exactly what logins and revocations make of it: owner by the first login, revocation by the owner's first, device and expiry by the latest login before it |
| `Sessions.AdmittedExactlyWhen` | apps/messenger/messenger/domain/session.py:93-104 | at any point of any run a connection is admitted or kept alive if and only if its session is the user's, was not revoked and has not reached the expiry of its latest login |
| `History.ForwardPage` | apps/messenger/messenger/repositories/messages.py:295-334 | a forward page is the run of numbers after the cursor up to the bound or the limit |
| `History.BackwardPage` | apps/messenger/messenger/repositories/messages.py:255-292 | a backward page is the run of numbers before the cursor down to one or the limit |
| `History.SyncForwardIsComplete` | apps/messenger/messenger/services/history.py:114-217 | the forward loop with a frozen bound is never refused, ends, and returns exactly the numbers in `(after, through]`, ascending, once each, however many messages arrive meanwhile |
| `History.UnboundedForwardReply` | apps/messenger/messenger/services/history.py:185-217 | a forward request without a bound is bounded by the head it meets, and says so |
| `History.SynchronizeIsComplete` | apps/messenger/messenger/services/history.py:185-217 | a whole synchronisation, its bound frozen by the first reply, returns exactly the numbers above its start and up to the head met then, ascending, once each, however many messages arrive meanwhile |
| `History.SyncForwardStep` | apps/messenger/messenger/services/history.py:114-217 | a request of the forward loop is served, and what follows it continues after its last number |
| `History.ScrollBackIsComplete` | apps/messenger/messenger/services/history.py:153-167 | from any accepted cursor, above the head or not, the backward loop returns every number below its start, descending, once each |
| `History.HasMoreMeansMore` | apps/messenger/messenger/repositories/messages.py:90-103 | `has_more` is true exactly when the next forward page would not be empty |
| `History.HasMoreMeansOlder` | apps/messenger/messenger/repositories/messages.py:90-103 | the same for the backward page |
| `History.ServedExactlyWhen` | apps/messenger/messenger/domain/history.py:88-192 | which requests are served: one direction, a bound only forward and not behind its start, numbers of 64 bits, nothing above the head, one to a hundred messages |
| `History.DirectionOfReply` | apps/messenger/messenger/services/history.py:153-217 | a reply pages backward exactly when there was no forward cursor, and only a forward one is told its bound |
| `RateLimit.Limiter.Take` | apps/messenger/messenger/adapters/ratelimit.py:85-145 | one atomic increment, the expiry set by the first increment only; the decision follows the counter and the rounded rest of the window, or the failure policy when the store did not answer |
| `RateLimit.WindowEnds` | apps/messenger/messenger/adapters/ratelimit.py:85-117 | a counter never outlives one window from its last increment, so a window always ends |
| `RateLimit.UsedIsCounted` | apps/messenger/messenger/adapters/ratelimit.py:97-107 | a counter holds how many calls were counted in its window |
| `RateLimit.PassedExactlyWhen` | apps/messenger/messenger/adapters/ratelimit.py:115-120 | an answered call is let through if and only if fewer than `limit` calls were counted in its window before it |
| `RateLimit.DecisionFromCounter` | apps/messenger/messenger/adapters/ratelimit.py:115-120 | beyond the limit the caller is told the rest of the window to the nearest second, or the whole window when that is nothing |
| `RateLimit.WaitIsEnoughExactlyWhen` | apps/messenger/messenger/adapters/ratelimit.py:108-120 | a refused caller who comes back exactly when told is let through if and only if the rest of the window was not rounded down to whole seconds; otherwise the same window refuses him again |
| `RateLimit.OneMoreSecondIsEnough` | apps/messenger/messenger/adapters/ratelimit.py:108-120 | a second more than told is always enough |
| `RateLimit.RefusedTwice` | apps/messenger/messenger/adapters/ratelimit.py:108-120 | a run in which a caller comes back when told and is refused again |
| `RateLimit.PerWindow` | apps/messenger/messenger/adapters/ratelimit.py:85-120 | one counting window lets at most `limit` calls through |
| `RateLimit.AtMostTwiceTheLimit` | apps/messenger/messenger/adapters/ratelimit.py:85-120 | any interval of one window length contains at most `2 * limit` calls let through by the store |
| `RetryBudget.SharedBudget.Roll` | apps/common/resilience.py:91-96 | a window that has run out is replaced by an empty one |
| `RetryBudget.SharedBudget.RecordAttempt` | apps/common/resilience.py:98-101 | one more attempt in the current window |
| `RetryBudget.SharedBudget.AllowRetry` | apps/common/resilience.py:103-109 | grants exactly the first retry of a window and those below the ratio of its attempts, and counts the grant |
| `RetryBudget.GrantedExactlyWhen` | apps/common/resilience.py:103-109 | a retry is granted if and only if the window has run out, or none was granted in it, or fewer than the ratio of attempts |
| `RetryBudget.CallWithRetry` | apps/common/resilience.py:186-221 | every call is recorded, every further call spends exactly one grant, and it stops at the first value, fatal error or refusal |
| `RetryBudget.RetriesWithinBudget` | apps/common/resilience.py:74-109 | over any interleaving, grants are at most windows plus ratio times attempts, windows fit the elapsed time plus one, and with a grant spent by each further attempt the first attempts alone bound the retries |
| `Compatibility.ParameterSchemaFindings` | packages/contracts/validate.py:337-392 | reports each finding exactly when it is due, hence nothing exactly for a pair none of whose compared keys narrows |
| `Compatibility.FindingsSpelledOut` | packages/contracts/validate.py:365-392 | what each finding says of the two schemas; what is only widened or dropped is none |
| `Compatibility.TypesSpelledOut` | packages/contracts/validate.py:317-330 | a type declares one name, a list of names, or nothing |
| `Compatibility.SchemaSpelledOut` | packages/contracts/validate.py:306-314 | the schema of a parameter: its own, the one referred to, or nothing |
| `Compatibility.WideningIsReported` | packages/contracts/validate.py:362-369 | `integer` widened to `number` is reported as a narrowing |
| `Compatibility.NoFindingsExactlySound` | packages/contracts/validate.py:337-392 | without findings every value legal before is legal now if and only if no accepted enumeration entry was replaced by its Python equal of another type |
| `Compatibility.SoundOverFlatEnums` | packages/contracts/validate.py:365-380 | over enumerations of numbers, strings and nulls "no findings" is sound as it stands |
| `Compatibility.RetypedEnumIsMissed` | packages/contracts/validate.py:365-380 | `enum: [1]` narrowed to `enum: [true]` is passed, although the only legal value is now refused |
| `Compatibility.FindingsReflexive` | packages/contracts/validate.py:337-392 | a schema has no findings against itself |
| `Compatibility.FindingsTransitive` | packages/contracts/validate.py:337-392 | "no findings" composes over revisions |
| `Compatibility.OperationParameters` | packages/contracts/validate.py:270-294 | computes the parameter in force under each place and name |
| `Compatibility.LastStandsLast` | packages/contracts/validate.py:270-294 | in one list the parameter in force is the last one that stands under the place and name, itself or by reference |
| `Compatibility.OwnBeforePath` | packages/contracts/validate.py:270-294 | an operation's own declaration is preferred to its path's |
| `Compatibility.OperationFindings` | packages/contracts/validate.py:395-445 | reports a removed, newly required or narrowed parameter exactly when it is one |
| `Compatibility.OldRequestsStayLegal` | packages/contracts/validate.py:270-445 | without findings, new required parameters and retyped enumerations, every request legal before stays legal |
| `Calls.EveryChangeIsLawful` | apps/messenger/messenger/domain/call.py:194-278 | every change raises the rank by the road drawn for it, gives a reason exactly when it ends the call, and the reason is true of the state left |
| `Calls.ExpiryIsMonotone` | apps/messenger/messenger/domain/call.py:266-278 | once overdue, an untouched call stays overdue for the same reason |
| `Calls.LawfulMoveKeepsCoherent` | apps/messenger/messenger/repositories/calls.py:152-181 | a written transition keeps the record coherent with its history, adds one to the version and never passes four |
| `Calls.DurationOnlyOfCompleted` | apps/messenger/messenger/domain/call.py:293-300 | only a completed call has a duration, it is positive, and it exists exactly from one millisecond of talk on |
| `CallWorld.LineOf` | apps/messenger/messenger/repositories/calls.py:139-149 | the call that holds a user's line, if any |
| `CallWorld.FoundSignal` | apps/messenger/messenger/repositories/calls.py:213-224 | the number stored for a named signal of the sender; an unnamed one is never found |
| `CallWorld.ReasonsTellWho` | apps/messenger/messenger/domain/call.py:194-252 | only the callee accepts or declines, only the caller cancels the ringing, hanging up completes exactly an active call, only a report of failure fails one, either party can hang up any live call; the callee declining, answering, a party reporting failure or connection of a call in the right state moves it to the state and reason named; outsiders are denied |
| `CallWorld.WishKeepsSound` | apps/messenger/messenger/services/calls.py:401-644 | every action keeps calls, lines, summaries and signals in agreement, lazy expiry included |
| `CallWorld.StartKeepsSound` | apps/messenger/messenger/services/calls.py:189-375 | so does every start: counter-call, busy, unavailable, lost insert race |
| `CallWorld.AbortKeepsSound` | apps/messenger/messenger/services/calls.py:259-271 | so does withdrawing an undelivered call |
| `CallWorld.SweepKeepsSound` | apps/messenger/messenger/services/calls.py:859-884 | so does the sweeper, over any claimed calls |
| `CallWorld.SignalKeepsSound` | apps/messenger/messenger/services/calls.py:655-749 | so does a signal; a named signal is stored at most once |
| `CallRuns.RunKeepsSound` | apps/messenger/messenger/services/calls.py:170-884 | the agreement holds in every reachable state |
| `CallRuns.OneLinePerPerson` | apps/messenger/messenger/repositories/calls.py:73-181 | in every reachable state nobody is in two live calls; a live call takes exactly the lines of its two parties and has no summary, an ended one takes none and has exactly one |
| `CallRuns.StepMovesOnce` | apps/messenger/messenger/services/calls.py:149-164 | every transaction makes at most one lawful move in a call, leaves ended calls as they are, and only a signal advances the counter |
| `CallRuns.RecordTellsHistory` | apps/messenger/messenger/repositories/calls.py:152-181 | `accepted_at` and `active_at` are set exactly for calls that ever were accepted or active; exactly the busy and unavailable ones never rang and never held a line |
| `CallRuns.EndReasonTellsTheTruth` | apps/messenger/messenger/domain/call.py:194-278 | completed means it was active, missed that it rang out its 30 s and, like declined, that it was never accepted, cancelled that it was never active, busy or unavailable exactly that it never held a line |
| `CallRuns.RecordsOnlyGrow` | apps/messenger/messenger/repositories/calls.py:152-181 | from any moment on versions and ranks only rise, ended calls are frozen, the tab that accepted and the parties stay |
| `CallRuns.VersionCountsChanges` | apps/messenger/messenger/repositories/calls.py:163-171 | the version counts the changes of state of the whole run, never more than three |
| `CallRuns.TheFirstTabKeepsTheCall` | apps/messenger/messenger/services/calls.py:433-463 | the tab whose answer a ringing call takes is told so and recorded, and from then on no other tab of the run is answered with success |
| `CallRuns.OnlyTheRecordedTabIsAnswered` | apps/messenger/messenger/domain/call.py:194-210 | after a label is recorded no other label is ever answered with success |
| `CallRuns.AnsweredWithSuccessExactlyWhen` | apps/messenger/messenger/domain/call.py:194-210 | an answer succeeds if and only if it comes from the callee of a live, not overdue call without a recorded label or with this one |
| `CallReplies.StartOutcome` | apps/messenger/messenger/services/calls.py:189-375 | the outcome of a start, told by who really is in a call that is not overdue: refused, met, busy, unavailable or ringing |
| `CallOutcomes.TurnDownOutcome` | apps/messenger/messenger/services/calls.py:466-532 | declining what rings ends it as declined, frees both lines and posts the summary; which refusal everything else gets |
| `CallOutcomes.HangUpOutcome` | apps/messenger/messenger/services/calls.py:472-532 | hanging up ends any live call, as cancelled, declined or completed by its state and by who it was; an ended one is left alone |
| `CallOutcomes.GiveUpOutcome` | apps/messenger/messenger/services/calls.py:478-532 | a report of failure ends an answered call as failed; which refusal everything else gets |
| `CallOutcomes.AnswerOutcome` | apps/messenger/messenger/services/calls.py:433-463 | answering what rings accepts it by that tab; which reply everybody else gets |
| `CallOutcomes.ReportConnectedOutcome` | apps/messenger/messenger/services/calls.py:535-625 | the first report makes an accepted call active, later ones are signs of life, both note the worst path reported |
| `CallOutcomes.KeepAliveOutcome` | apps/messenger/messenger/services/calls.py:628-644 | a keepalive notes the time of a live call and is content with an ended one |
| `CallOutcomes.OverdueOutcome` | apps/messenger/messenger/services/calls.py:381-409 | whatever a party wishes of an overdue call, it ends, missed if it rang and failed otherwise, with lines freed and summary posted; who is told so and who is refused |
| `CallOutcomes.OutsiderOutcome` | apps/messenger/messenger/services/calls.py:401-409 | to those it does not concern a call does not exist |
| `CallOutcomes.UndeliveredOutcome` | apps/messenger/messenger/services/calls.py:259-271 | a live call that could not be announced ends as failed |
| `CallOutcomes.SignalOutcome` | apps/messenger/messenger/services/calls.py:697-736 | signals before the answer and after the end are refused; a known one is published as stored, a new one gets the next number and a minute of life |
| `CallOutcomes.OverdueSignalOutcome` | apps/messenger/messenger/services/calls.py:697-708 | a signal for an overdue call ends it instead |
| `CallOutcomes.FreeCallerTables` | apps/messenger/messenger/services/calls.py:226-375 | a free user's request leaves a record with all that was asked for, ringing on both lines or over with its summary; overdue calls of the two are ended, nothing else is touched |
| `CallOutcomes.BusyCallerTables` | apps/messenger/messenger/services/calls.py:235-293 | a request of a user in a call makes no record: it answers the callee's ringing in the same conversation, or is refused |
| `CallOutcomes.SweepTables` | apps/messenger/messenger/services/calls.py:859-884 | a sweep ends exactly the claimed overdue calls, for the reason of their state, and forgets exactly the expired signals |
| `CallOutcomes.RecoveredFromTable` | apps/messenger/messenger/repositories/calls.py:246-259 | a number is recovered if and only if it is the peer's row of the call, unexpired, above the start |
| `CallOutcomes.ListingFromTable` | apps/messenger/messenger/services/calls.py:758-779 | a page holds at most two hundred numbers, ascending, and outsiders are told that there is no such call |
| `CallReplies.SweepEndsExactlyTheOverdue` | apps/messenger/messenger/services/calls.py:874-881 | after a sweep every claimed call is within the deadline of its state; one that was within it is untouched, one past it is ended |
| `CallReplies.DueMeansOverDeadline` | apps/messenger/messenger/domain/call.py:266-278 | a call is overdue exactly past 30 s of ringing, 30 s of connecting, or 90 s without a sign of life |
| `CallReplies.SignOfLife` | apps/messenger/messenger/services/calls.py:571-584 | a sign of life keeps an active call for exactly another 90 s and buys an accepted one no time to connect |
| `CallReplies.GrantedWishMayBeRepeated` | apps/messenger/messenger/domain/call.py:24-28 | a granted action asked for again at any later moment is granted if and only if the call is not overdue by then or the action is content with an ended call, and while not overdue it changes nothing but the last sign of life |
| `CallSweeper.AlikeTold` | apps/messenger/messenger/services/calls.py:381-749 | worlds that differ only by overdue calls already ended and expired signals forgotten on one side tell the users the same in a blind step and stay so |
| `CallSweeper.RelatedStep` | apps/messenger/messenger/services/calls.py:189-644 | the simulation step, soundness included |
| `CallSweeper.RelatedSweep` | apps/messenger/messenger/services/calls.py:859-884 | a sweep on one side keeps the worlds related |
| `CallSweeper.RelatedShowTheSame` | apps/messenger/messenger/repositories/calls.py:152-181 | in related worlds a call that is not overdue has the same record, lines and summary |
| `CallSweeper.RelatedHearTheSame` | apps/messenger/messenger/repositories/calls.py:246-265 | in related worlds a peer recovers the same signals |
| `CallSweeper.SweeperIsIrrelevant` | apps/messenger/messenger/services/calls.py:859-884 | leaving out every sweep of a run changes no reply and no signal handed to a peer, up to the moment the clock ended a call, and the runs end in related worlds |
| `CallSweeper.SweepShowsExactlyWhen` | apps/messenger/messenger/services/calls.py:859-884 | a sweep shows in the reply, the published signal or the tables of a step if and only if the caller answers or declines his own overdue call, an undelivered call is withdrawn after its ringing ran out, or a named signal is repeated whose stored row has expired |
| `CallSignals.NumbersAreDense` | apps/messenger/messenger/services/calls.py:716-729 | the numbers given out for a call are 1, 2, 3, ... in this order, whatever was purged or repeated |
| `CallSignals.RowsOfSignals` | apps/messenger/messenger/repositories/calls.py:227-265 | only a new signal adds a row, under its own number, and only a sweep removes rows, exactly the expired |
| `CallSignals.OneNumberOneBody` | apps/messenger/messenger/services/calls.py:711-736 | over a whole run every publication of one number carries the same body |
| `CallSignals.RepeatGetsTheSameNumber` | apps/messenger/messenger/services/calls.py:712-718 | while stored, a named signal sent again is published under its number with its first body and stores nothing |
| `CallSignals.StoredUntilExpired` | apps/messenger/messenger/repositories/calls.py:227-265 | no step removes or rewrites a stored signal before its expiry |
| `CallSignals.OnlyAnsweredCallsSignal` | apps/messenger/messenger/services/calls.py:704-710 | signals are stored or published only for calls that were accepted |
| `CallSignals.RecoveryIsComplete` | apps/messenger/messenger/services/calls.py:758-779 | asking page by page returns exactly the peer's unexpired signals above the start, ascending, once each, and ends |
| `CallSignals.OnlyThePeerIsHeard` | apps/messenger/messenger/services/calls.py:758-779 | an outsider learns nothing, a party only what the other party of the call sent |
| `CallStore.Tables.InsertLive` | apps/messenger/messenger/repositories/calls.py:73-103 | inserts call and both lines, or fails without a trace when a line is taken or was taken meanwhile |
| `CallStore.Tables.InsertEnded` | apps/messenger/messenger/repositories/calls.py:106-128 | a call that is over from the start, with no line |
| `CallStore.Tables.FetchLiveForUser` | apps/messenger/messenger/repositories/calls.py:139-149 | the one call whose line the user holds |
| `CallStore.Tables.Apply` | apps/messenger/messenger/repositories/calls.py:152-181 | the row after a transition; an ended call loses its lines |
| `CallStore.Tables.RecordConnection` | apps/messenger/messenger/services/calls.py:596-625 | the first path reported, and later only the fall back to the relay |
| `CallStore.Tables.NextSignalSeq` | apps/messenger/messenger/repositories/calls.py:184-192 | the counter grows by one and is returned |
| `CallStore.Tables.FindSignal` | apps/messenger/messenger/repositories/calls.py:213-224 | the stored number of a named signal |
| `CallStore.Tables.PurgeSignals` | apps/messenger/messenger/repositories/calls.py:262-265 | exactly the unexpired signals remain |
| `CallStore.Tables.Summarize` | apps/messenger/messenger/services/calls.py:125-146 | one summary is posted for a call with a reason, none otherwise |
| `CallStore.Tables.MoveCall` | apps/messenger/messenger/services/calls.py:149-164 | a transition and, if it ends the call, its summary, as one step of the model |
| `CallStore.Tables.Fresh` | apps/messenger/messenger/services/calls.py:381-398 | an overdue call is ended here and now |
| `CallStore.Tables.Open` | apps/messenger/messenger/services/calls.py:401-409 | an outsider finds nothing and changes nothing |
| `CallStore.Tables.Accept` | apps/messenger/messenger/services/calls.py:433-463 | is the answering step of the model, reply included |
| `CallStore.Tables.EndAction` | apps/messenger/messenger/services/calls.py:503-532 | is the declining, hanging-up or failing step, reply included |
| `CallStore.Tables.ReportConnection` | apps/messenger/messenger/services/calls.py:535-585 | is the connected step, reply included |
| `CallStore.Tables.StayOnTheLine` | apps/messenger/messenger/services/calls.py:628-644 | is the keepalive step, reply included |
| `CallStore.Tables.ExpireLive` | apps/messenger/messenger/services/calls.py:274-280 | ends the user's overdue call and keeps the lines in order |
| `CallStore.Tables.Create` | apps/messenger/messenger/services/calls.py:296-350 | busy, unavailable, beaten by a concurrent insert, or ringing |
| `CallStore.Tables.MeetCounterCall` | apps/messenger/messenger/services/calls.py:283-293 | answers a counter-call that still rings, otherwise refuses |
| `CallStore.Tables.StartCall` | apps/messenger/messenger/services/calls.py:189-256 | is the starting step of the model, reply included |
| `CallStore.Tables.AbortUndelivered` | apps/messenger/messenger/services/calls.py:259-271 | ends the call as failed unless it has ended meanwhile |
| `CallStore.Tables.SendSignal` | apps/messenger/messenger/services/calls.py:655-749 | is the signalling step: state, reply and what goes to the peer |
| `CallStore.Tables.Sweep` | apps/messenger/messenger/services/calls.py:859-884 | the loop over the claimed calls and the purge are the sweeping step of the model |
| `Departures.BothTabsAnswered` | apps/messenger/messenger/services/calls.py:283-293 | a run in which both rang each other and two tabs of the callee are told that they answered |
| `Departures.CallerNoticesTheSweep` | apps/messenger/messenger/services/calls.py:433-463 | a run after which the caller answering his overdue call is told "ended", or "not found" after a sweep |
| `Departures.WithdrawalNoticesTheSweep` | apps/messenger/messenger/services/calls.py:259-271 | a run after which a withdrawn call has failed, or was missed after a sweep |
| `Departures.RepeatNoticesTheSweep` | apps/messenger/messenger/services/calls.py:711-736 | a run after which a repeated signal goes out under its old number, or a new one after a sweep |
| `Departures.ErasedAuthorsRow` | apps/messenger/messenger/domain/unread.py:257-269 | a run after which an erased author's row says zero and a count finds one |
| `Departures.LateMemberIsCountedTwoWays` | apps/messenger/messenger/repositories/unread.py:282-451 | a message older than a member is counted by a receipt and not by a rebuild |

## Left out

- Membership changes: members are fixed and joined before the first message, as in direct conversations; the exact condition for the general case is the lemma on the membership window.
- Calls.Expire: one clock serves the service and the database; the source reads the service's clock for expiry and the database's for the rows.
- Outbox.BackoffMonotone: durations are whole seconds.
- CallSweeper.SweeperIsIrrelevant: the announcement of an ended call to its parties, which a sweep makes earlier, is not compared; nor are the read-only routes for the current call and the ICE servers, which do not expire lazily.
- CallStore.Tables.Sweep: the claim of live calls (oldest first, at most a batch, locked rows passed over) is a parameter; the proofs hold for any list of calls.
- CallStore.Tables.SendSignal: the rate limit in front of signals and the validation of their content come before the modelled transaction.
- CallSignals.RecoveryIsComplete: rows are identified by their numbers, bodies are looked up under them.
- CallStore.Tables.RecordConnection: only the stored path, not the metrics derived from it.
- UnreadStore.Tables.RestoreConversation: the head is read and the rows are written at one moment; a message sent between the two is above that head.
- CallReplies.StartOutcome: the refusal by the conversation, its membership or a block is a parameter of the request.
- UnreadStore.Tables.ApplyEvent: the number of affected rows and the order of notices are not part of the outcome.
- UnreadStore.Tables.LockOffsets: the row of `unread_offsets` is created on demand, so its absence and a zero are one state, and losing the row itself is not a step.
- UnreadStore.Tables.SendMessage: idempotency by `client_message_id`, replies, attachments and blocks of the sending scenario.
- RateLimit.Limiter.Take: a counter is taken to be gone at the very millisecond of its expiry; whether the store still answers it then is not part of this model.
- RetryBudget.CallWithRetry: the sleep between attempts and the state of the circuit breaker; an open circuit is one of the outcomes.
- Compatibility.OperationFindings: the loop over routes and methods, the wording and order of findings, the allow-list; resolution of a reference path is a table of the document.
- Publication of call states to clients, and what a client does with a lost event.
- Floating point in the retry budget is real arithmetic.
- HTTP handlers, authorization of page requests, tokens, push and TURN credentials: plumbing and foreign cryptography.
- SQL text, lock modes and isolation: each locked section is one atomic step.
- Parsing of event and signal bodies: a record has a readable body, an unreadable one, or undecodable headers.
- The attachments pipeline: its lease and state guards repeat those of the outbox and of calls with easier claims.
- The shared cache and the list of conversations: no promise here that is not made by a part already modelled.
