# Charlotte Kafka broker: a verified model

This project models the four layers that decide what a client of the broker may rely on, and proves properties of
them over every input, every history of requests and every interleaving.

- **The partition log** (`Log`, `LogInvariant`, `PartitionLogs`, `LogReaders`, `LogRuns`, `LogOutcomes`, `StableReads`).
  A batch-structured append-only log with transactional batch states, byte-budget retention, binary-search positioning
  and a budgeted fetch. The mutable log object is proved equal, method by method, to functions of its state. Those
  functions are then compared with a plain filter-and-prefix over a flat record sequence, and bounded logs with unbounded
  ones.
- **The coordinators** (`Transactions`, `TransactionHistory`, `Groups`, `GroupBalance`, `GroupHistory`, `Order`).
  Producer identities and enlistment, group generations, round-robin assignment and stored offsets, as state machines
  whose properties are stated over whole request histories.
- **The sharded protocol** (`Shards`, `PartitionTasks`, `Calls`, `Broker`, `BrokerOrder`, `BrokerReplies`,
  `BrokerRuns`, `BatchFates`, `ValidatedAppends`, `BrokerScripts`, `BrokerSent`, `BrokerOffsets`, `PendingBatches`,
  `BrokerTransactions`, `BrokerCallers`, `BrokerHandling`, `BrokerGuarantee`, `GivingUp`, `OwedResolutions`,
  `Leftovers`, `Reinitialising`, `Walks`, `BrokerWitnesses`).
  Callers, bounded FIFO mailboxes and shards step in any order; callers may give up at any point. Every interleaving
  amounts to one sequence of commands on unsharded objects, and the state of every batch is read off that sequence. For
  disciplined callers a pending batch is always accounted for, and a successful end of a transaction leaves nothing of
  it pending and everything of it decided. For undisciplined ones the project says what is left pending, until when,
  and which later transaction decides it, and gives runs that leave it so.
- **The wire** (`Bits`, `Varint`, `ZigZagBits`, `Registers`, `Crc`, `Repeat`, `RecordBatch`, `RecordBatchRoundTrip`,
  `RecordBatchCodec`, `WireGuarantees`, `WireWitnesses`, `Frames`).
  Varints, record batch v2 (Apache Kafka documentation, section 5.3 "Message Format"), CRC32C (polynomial of section
  12.1 of RFC 3720) and the reassembly of frames from chunks: round trips, sizes, error detection, independence of
  chunking.

Offsets, byte counts and call numbers are mathematical integers. The i16, i32 and i64 limits of epochs, generations,
producer ids, timestamps, casts and length fields are modelled where the code has them, and appear in the statements.
Bytes are integers below 256. The reader of a varint joins disjoint bit groups, so its bitwise or is written as a sum;
zigzag is given both as arithmetic and bit by bit. The CRC register is a sequence of 32 bits.

`dafny verify dfyconfig.toml` checks the whole project.

## Statements with a condition

Some promises hold only under a condition. The code is modelled as it is, and the condition is stated exactly.

- Resolving a transaction rewrites every batch of its producer, also those resolved before
  (crates/broker-core/src/log.rs:252-262). `LogOutcomes.CommittedCanBeHiddenAgain` shows a committed batch hidden again;
  `LogOutcomes.VisibilityStableIff` says when visibility is stable.
- A read-committed fetch is a filter, not a prefix below the last stable offset (crates/broker-core/src/log.rs:315-320).
  `StableReads.ReadsPastStableOffset` shows a record above it; `StableReads.ReadsStayStableIff` says when there is none.
- Validating and appending are two messages (crates/broker-runtime/src/broker.rs:326-335), so an append may be handled
  behind the end of its transaction. `BrokerWitnesses.AppendBehindTheEnd` is a run in which the end returns Ok and the
  batch stays pending. `ValidatedAppends.StaysOpenIff` says when the validated transaction is still open at the append,
  `ValidatedAppends.ValidatedIsDecided` that the end then decides it, and `BatchFates.PendingExactly` when any batch is
  pending.
- A caller may give up on any reply while ending. `BrokerWitnesses.GivingUpOnTheReply` and
  `BrokerWitnesses.GivingUpUnsent` leave a batch pending, `BrokerWitnesses.GivingUpQueued` does not;
  `GivingUp.GivingUpOnEnd` says which batches stay pending and `GivingUp.GivingUpLeaves` where they are.
- Re-initialising is said to be safe after a restart (crates/broker-core/src/coordination.rs:102-103), but drops an open
  transaction without resolving it (crates/broker-core/src/coordination.rs:122-131).
  `BrokerWitnesses.Reinitialises` leaves its batch pending and `BrokerWitnesses.DiscardedIsPublished` commits it with a
  transaction that never appended it. `Reinitialising.ReinitialisingLeaves` says what is left behind when callers have
  kept to the discipline until then. Without that, `Leftovers.LeftoverPendingIff` counts the resolutions its shard still
  has coming, `Leftovers.LeftoverStaysPending` says how long it stays pending and `Leftovers.NextEndDecides` what
  decides it; that somebody is in the middle of ending is no help, as
  `BrokerWitnesses.ReinitialisedBehindTheResolution` shows.
- An enlisted offset is promised to be committed atomically with the transaction
  (crates/broker-runtime/src/broker.rs:345-346), but is committed after the partitions and may then be refused
  (crates/broker-runtime/src/broker.rs:377-398). `BrokerWitnesses.StaleOffsetFailsTheEnd` is a run in which every
  partition is committed, the offset is not and the end returns the refusal; `BrokerOffsets.EndReturns` says exactly
  when that happens.
- The default byte cap of a fetch is a whole frame (crates/broker-engine/src/engine.rs:75), which leaves no room for the
  fixed fields of a batch. `WireWitnesses.DefaultCapsRefused` is a window under that cap which cannot be encoded;
  `WireGuarantees.FetchedWindowTravels` says which windows can.
- Timestamps are stored as saturated differences. `WireWitnesses.FarTimestampIsLost` is a timestamp that comes back
  wrong; `RecordBatchRoundTrip.RoundTripIff` says when the round trip is exact.
- Offset deltas are cast to i32 and the last offset delta is the count less one. `WireWitnesses.FarOffsetWraps` and
  `WireWitnesses.GapMisplacesLastOffset` show both going wrong, the latter for what a read-committed fetch shows;
  `WireGuarantees.OffsetRebuiltIff` and `WireGuarantees.LastDeltaIff` say when a consumer reads them right.

Where comments and code disagree the model follows the code: transactional batches are decoded, although the comment of
the decoder says they are rejected (crates/broker-wire/src/record_batch.rs:120-126); ending a transaction keeps the
producer identity, although the comment says it is fenced (crates/broker-runtime/src/broker.rs:361); placement is the
mixed hash of crates/broker-runtime/src/broker.rs:505-509, not the sum in docs/architecture.md:85.

## Model

| member | source | states |
|---|---|---|
| PartitionLogs.PartitionLog.constructor | crates/broker-core/src/log.rs:134-151 | a new log is empty, starts at offset zero and is well formed |
| PartitionLogs.PartitionLog.Append | crates/broker-core/src/log.rs:178-207 | refuses an empty or oversized append and leaves the log alone; otherwise returns the old high watermark, and the new state is that of one pushed batch cut to the retained suffix; keeps the log well formed |
| PartitionLogs.PartitionLog.AppendTransactional | crates/broker-core/src/log.rs:217-249 | the same for a batch of a producer, which starts out pending |
| PartitionLogs.PartitionLog.CommitTransaction | crates/broker-core/src/log.rs:252-262 | exactly the batches of the producer get the outcome, all others and all offsets stay |
| PartitionLogs.PartitionLog.EnforceRetention | crates/broker-core/src/log.rs:359-367 | leaves the suffix retention keeps, and the retained bytes are its size, so the saturating subtraction never saturates |
| PartitionLogs.PartitionLog.BatchIndexFor | crates/broker-core/src/log.rs:370-382 | the binary search finds the last batch whose base is at or below the offset |
| PartitionLogs.PartitionLog.ListOffset | crates/broker-core/src/log.rs:347-353 | earliest is at or below every retained batch, latest is at or above the end of each |
| PartitionLogs.PartitionLog.FindLastStableOffset | crates/broker-core/src/log.rs:334-338 | the search returns the base of the first pending batch, or the high watermark |
| PartitionLogs.Scan | crates/broker-core/src/log.rs:306-332 | from a batch on, the nested loops with their early exits return the longest prefix of what is left to read that meets both caps |
| PartitionLogs.PartitionLog.Fetch | crates/broker-core/src/log.rs:295-344 | the window is exactly the reference: the longest admissible prefix of the flat, isolation-filtered sequence from the offset; out-of-range offsets are refused |
| Log.LongestUnique | crates/broker-core/src/log.rs:302-332 | the reference is the only longest prefix that meets the record cap and the byte cap, the first record being exempt from the latter |
| LogInvariant.RetainKeepsLongestSuffix | crates/broker-core/src/log.rs:355-367 | what is retained is the longest non-empty suffix within budget, or the newest batch alone |
| LogInvariant.AppendKeepsWellFormed | crates/broker-core/src/log.rs:178-249 | appends keep batches contiguous, retained bytes equal to the sum of batch sizes, and the budget met |
| LogInvariant.ResolveKeepsWellFormed | crates/broker-core/src/log.rs:252-262 | resolutions keep the same |
| LogInvariant.LastStableOffsetMeaning | crates/broker-core/src/log.rs:334-338 | no batch below the last stable offset is pending, and it is attained by the first pending batch or is the high watermark |
| LogReaders.UncommittedWindowHasNoGaps | crates/broker-core/src/log.rs:295-344 | a read-uncommitted window has every offset from the requested one on, and what is visible reaches to the high watermark |
| LogReaders.FetchMakesProgress | crates/broker-core/src/log.rs:295-344 | with a positive record cap a fetch is empty exactly when nothing at or above the offset is visible |
| LogReaders.NextWindow | crates/broker-core/src/log.rs:264-344 | what is visible from an offset is the window followed by what is visible from its last offset plus one, which is further on and in range |
| LogReaders.DrainCollectsEverything | crates/broker-core/src/log.rs:264-344 | a consumer that keeps fetching from the last offset plus one terminates and collects every visible record once, in order, at either isolation level and with any byte cap |
| LogRuns.RunKeepsWellFormed | crates/broker-core/src/log.rs:178-262 | every run of appends and resolutions keeps a log well formed |
| LogRuns.RunAdvances | crates/broker-core/src/log.rs:154-164 | over every run start offset, last stable offset and high watermark are in order and never move backwards |
| LogRuns.SmallerBudgetSimulates | crates/broker-core/src/log.rs:359-367 | over every run a log with a smaller budget gives the same replies and keeps a suffix of the batches of one with a larger budget |
| LogRuns.ForgetfulLogServesSameWindows | crates/broker-core/src/log.rs:295-344 | at or above the start of the smaller log both serve the same windows, and its last stable offset is never lower |
| LogRuns.BoundedLogMatchesUnbounded | crates/broker-core/src/log.rs:178-367 | the two together for every run of a bounded and an unbounded log that start empty |
| LogRuns.BoundedRunIsRetained | crates/broker-core/src/log.rs:178-367 | over every run a log with a byte budget holds exactly what one retention pass leaves of the log without one |
| LogOutcomes.UnboundedRunContents | crates/broker-core/src/log.rs:178-262 | an unbounded run holds the old batches with their states moved on and the accepted batches at the offsets they were given |
| LogOutcomes.RunContents | crates/broker-core/src/log.rs:178-367 | with a budget it holds exactly what one retention pass leaves of that |
| LogOutcomes.RetainedBatchHasLastOutcome | crates/broker-core/src/log.rs:217-262 | a retained transactional batch has the outcome of the last later resolution of its producer, pending if none, and no other batch changes |
| LogOutcomes.VisibilityStableIff | crates/broker-core/src/log.rs:252-262 | a resolved batch keeps its visibility exactly when the last later resolution of its producer, if any, agrees |
| LogOutcomes.CommittedCanBeHiddenAgain | crates/broker-core/src/log.rs:252-262 | for all inputs, a commit followed by an abort of the same producer hides what was visible |
| StableReads.ReadsStayStableIff | crates/broker-core/src/log.rs:315-338 | after any run with any budget, read-committed readers see nothing at or above the last stable offset exactly when every accepted operation behind a still held, unresolved append is transactional and its producer's last later outcome is none or abort |
| StableReads.ReadsPastStableOffset | crates/broker-core/src/log.rs:315-338 | a plain append behind a pending one is visible although the last stable offset is zero |
| Transactions.TransactionCoordinator.InitProducer | crates/broker-core/src/coordination.rs:104-132 | new state and answer are those of the coordinator function |
| Transactions.TransactionCoordinator.Lookup | crates/broker-core/src/coordination.rs:134-147 | a transaction is found only under its current identity; the two refusals are told apart |
| Transactions.TransactionCoordinator.AddPartition | crates/broker-core/src/coordination.rs:150-170 | new state and answer are those of the coordinator function, refusals included |
| Transactions.TransactionCoordinator.ValidateProduce | crates/broker-core/src/coordination.rs:173-187 | the same for the check before an append |
| Transactions.TransactionCoordinator.AddOffset | crates/broker-core/src/coordination.rs:190-210 | the same for enlisting an offset |
| Transactions.TransactionCoordinator.End | crates/broker-core/src/coordination.rs:215-238 | the same for ending, with partitions listed in order and offsets in enlistment order |
| TransactionHistory.RefusedLeavesStateUnchanged | crates/broker-core/src/coordination.rs:104-238 | a refused request leaves no trace |
| TransactionHistory.ServeTouchesOnlyItsOwnId | crates/broker-core/src/coordination.rs:104-238 | a request touches no transactional id but its own and takes none away |
| TransactionHistory.StatusOverEveryHistory | crates/broker-core/src/coordination.rs:150-238 | between calls a transaction is empty or ongoing, and ongoing exactly when it has enlisted a partition |
| TransactionHistory.EpochCountsInits | crates/broker-core/src/coordination.rs:104-132 | an id is known exactly when it was initialised, and its epoch is the number of initialisations less one, saturating at i16 |
| TransactionHistory.ProducerIdIsStable | crates/broker-core/src/coordination.rs:108-112 | the producer id of a transactional id never changes |
| TransactionHistory.InitAnswer | crates/broker-core/src/coordination.rs:104-132 | the k-th initialisation answers with the one producer id and epoch min(k-1, 32767) |
| TransactionHistory.FencedExactly | crates/broker-core/src/coordination.rs:134-147 | an issued identity is fenced exactly when its id was initialised again since and its epoch was not saturated |
| TransactionHistory.OnlyTheCurrentIdentityIsAccepted | crates/broker-core/src/coordination.rs:134-147 | every identity but the current one is fenced by every operation |
| TransactionHistory.IdsOverEveryHistory | crates/broker-core/src/coordination.rs:104-132 | producer ids are handed out in sequence and distinct exactly as long as at most 2^63-1 ids were initialised |
| TransactionHistory.TransactionHoldsWhatWasEnlisted | crates/broker-core/src/coordination.rs:150-238 | a transaction holds exactly the partitions and offsets accepted since its last initialisation or end |
| TransactionHistory.EndReturnsWhatWasEnlisted | crates/broker-core/src/coordination.rs:215-238 | an end succeeds exactly for the current identity of a transaction with an enlisted partition, and hands back exactly that set, sorted, and that sequence of offsets |
| Groups.CollectEligible | crates/broker-core/src/coordination.rs:311-319 | the loop collects the positions of the subscribed members, ascending |
| Groups.AssignRoundRobin | crates/broker-core/src/coordination.rs:303-323 | the loop that deals entries out gives every member exactly the entries the assignment function gives it |
| Groups.GroupCoordinator.Join | crates/broker-core/src/coordination.rs:278-326 | new state and answer are those of the group function |
| Groups.GroupCoordinator.Heartbeat | crates/broker-core/src/coordination.rs:329-345 | the same, refusals included |
| Groups.GroupCoordinator.Leave | crates/broker-core/src/coordination.rs:348-361 | the same |
| Groups.GroupCoordinator.LeaveAny | crates/broker-core/src/coordination.rs:365-374 | the same |
| Groups.GroupCoordinator.CommitOffset | crates/broker-core/src/coordination.rs:376-393 | the same |
| Groups.GroupCoordinator.Offset | crates/broker-core/src/coordination.rs:395-403 | the same |
| GroupBalance.AssignmentConservesEntries | crates/broker-core/src/coordination.rs:294-325 | every list entry with a subscriber goes to exactly one member and no other entry to anyone |
| GroupBalance.SharesKeepListOrder | crates/broker-core/src/coordination.rs:294-325 | each member's share is the subsequence of the list at the positions it owns, in list order |
| GroupBalance.OwnerSubscribes | crates/broker-core/src/coordination.rs:310-323 | the owner of an entry subscribes to its topic |
| GroupBalance.GivenIsSubscribed | crates/broker-core/src/coordination.rs:310-323 | everything a member is given is of a topic it subscribes to |
| GroupBalance.TopicIsBalanced | crates/broker-runtime/src/broker.rs:409-416 | on the list the broker builds from the catalog, any two subscribers of a topic differ by at most one partition of it |
| GroupBalance.FullSubscriptionIsBalanced | crates/broker-core/src/coordination.rs:294-325 | if all members subscribe to everything listed, any two differ by at most one entry overall |
| GroupHistory.RequestsStayInTheirGroup | crates/broker-core/src/coordination.rs:278-403 | a request touches no other group, and nothing when refused |
| GroupHistory.GenerationCountsRebalances | crates/broker-core/src/coordination.rs:278-374 | a group's generation counts its joins and leaves, saturating at i32 |
| GroupHistory.GenerationCurrentExactly | crates/broker-core/src/coordination.rs:278-374 | a generation is still current exactly when membership has not changed since or is saturated |
| GroupHistory.SupersededNeverAccepted | crates/broker-core/src/coordination.rs:329-393 | below saturation a superseded generation is refused by heartbeat, leave and offset commit ever after |
| GroupHistory.AtMostOneCurrentMember | crates/broker-core/src/coordination.rs:278-374 | below saturation at most one member holds the current generation |
| GroupHistory.StoredOffsetIsLastCommit | crates/broker-core/src/coordination.rs:376-403 | the stored offset is the last accepted commit of the history |
| PartitionTasks.PartitionTask.LogFor | crates/broker-runtime/src/partition.rs:108-110 | the log of a partition is created empty the first time it is needed, no other log is touched and no two partitions share one |
| PartitionTasks.PartitionTask.ResolveAll | crates/broker-runtime/src/partition.rs:171-180 | the loop over the log objects resolves the producer in every log of the shard and adds or drops none |
| PartitionTasks.PartitionTask.Execute | crates/broker-runtime/src/partition.rs:75-182 | one turn of the message loop drives the log and coordinator objects: their new states and the reply are those of the shard function; logs stay well formed and unshared; only a shutdown stops it |
| PartitionTasks.PartitionTask.Run | crates/broker-runtime/src/partition.rs:65-183 | the loop answers the mailbox in order, up to and including the first shutdown |
| Calls.FirstReady | crates/broker-runtime/src/broker.rs:628-660 | the retry loops return the first ready attempt within the budget, which is at least one, or report that none was |
| Calls.Ask | crates/broker-runtime/src/broker.rs:549-569 | an exchange brings a reply exactly when the mailbox takes the command at one of the attempts and a reply is there at one of them, and then the first one; otherwise the error of the step that failed |
| Calls.ProduceTransactionally | crates/broker-runtime/src/broker.rs:318-343 | whatever each exchange brings, retries included, the call asks for what the staged protocol prescribes and ends with its outcome: validate, check, append |
| Calls.ResolvePartitions | crates/broker-runtime/src/broker.rs:377-387 | the resolution loop follows the staged protocol and stops at the first failure |
| Calls.CommitOffsets | crates/broker-runtime/src/broker.rs:388-398 | the offset loop follows it too |
| Calls.EndTransactionally | crates/broker-runtime/src/broker.rs:362-400 | so does the whole call |
| BrokerOrder.SentIsRouted | crates/broker-runtime/src/broker.rs:549-593 | partition commands go to the shard the hash names and coordination to shard zero |
| BrokerOrder.HandleIsOp | crates/broker-runtime/src/partition.rs:75-180 | a shard changes the log of a partition exactly by the log operation the command stands for |
| BrokerOrder.StepKeepsSequential | crates/broker-runtime/src/partition.rs:65-183 | every step keeps logs placed, shard state equal to the fold of the handled commands, and replies equal to those of unsharded objects |
| BrokerOrder.EveryRunIsSequential | crates/broker-runtime/src/broker.rs:505-593 | in every reachable state, with callers giving up anywhere, all replies ever given are those of one log per partition and one coordinator that see the handled commands one after the other |
| BrokerOrder.AppendsTile | crates/broker-core/src/log.rs:178-249 | under any interleaving a log exists only on the shard the hash names, and the ranges of the applied appends are disjoint, in order, and tile everything below its high watermark |
| BrokerReplies.StepKeepsSound | crates/broker-runtime/src/broker.rs:549-593 | every step keeps each caller tied to the very message it sent and each reply to one caller |
| BrokerReplies.EveryRunIsSound | crates/broker-runtime/src/broker.rs:549-593 | that holds in every reachable state |
| BrokerReplies.ReturnedBaseWasApplied | crates/broker-runtime/src/broker.rs:179-199 | every base offset a produce returns is that of an applied append of exactly its records to its partition, handled during the call |
| BrokerReplies.AnswersAreNotShared | crates/broker-runtime/src/broker.rs:549-569 | no two calls return with the same reply, so no append is acknowledged twice |
| BrokerReplies.OrderRespectsRealTime | crates/broker-runtime/src/broker.rs:549-593 | a call that returned before another began was answered before it in the order of handled commands |
| BatchFates.BatchFate | crates/broker-core/src/log.rs:252-262 | in every reachable state, whatever the callers do, every retained batch is the one some handled append made, at its offset and with its records, and its state is the last decision about its producer handled on its shard since |
| BatchFates.PendingExactly | crates/broker-core/src/log.rs:252-262 | a retained batch of a producer is pending exactly when no resolution of that producer was handled on its shard after the append |
| BatchFates.PendingUntilResolved | crates/broker-runtime/src/partition.rs:171-180 | however a run goes on, a pending batch stays pending exactly as long as no resolution of its producer is handled on its shard, and then has the outcome of the last one |
| BatchFates.DecidedStaysDecided | crates/broker-core/src/log.rs:252-262 | in every run a decided batch that is still retained is never pending again |
| ValidatedAppends.StaysOpenIff | crates/broker-runtime/src/broker.rs:326-335 | a validated transaction stays open with its partition enlisted up to a later position, such as that of its append, exactly when no initialisation and no end of its id was accepted in between |
| ValidatedAppends.EndHandsOverValidated | crates/broker-core/src/coordination.rs:215-238 | the first end accepted after a validation hands over the validated partition |
| ValidatedAppends.ValidatedIsDecided | crates/broker-runtime/src/broker.rs:318-400 | whatever callers do otherwise, an append handled while the transaction it was validated for is open is decided by the end that next closes it, once the resolutions of that end are acknowledged |
| PendingBatches.HandleKeeps | crates/broker-runtime/src/partition.rs:98-180 | only a transactional append of a producer makes one of its batches pending, and only its own commands touch what is resolved |
| PendingBatches.ResolveSettles | crates/broker-runtime/src/partition.rs:171-180 | a resolution leaves nothing of its producer pending on its shard and one outcome on everything |
| BrokerCallers.ReceiveKeepsGood | crates/broker-runtime/src/broker.rs:362-400 | a caller that goes on, or returns, leaves everything undecided accounted for |
| BrokerCallers.FinishesAtTheEnd | crates/broker-runtime/src/broker.rs:377-400 | a caller returns from ending only when every partition it was handed has been resolved |
| BrokerHandling.EndedLeaves | crates/broker-core/src/coordination.rs:215-238 | when the coordinator ends a transaction, everything undecided of its producer is among the partitions it hands over |
| BrokerHandling.ResolveReplyGood | crates/broker-runtime/src/partition.rs:171-180 | each resolution leaves one partition fewer that may hold something undecided, and undoes no earlier one |
| BrokerCallers.AppendPost | crates/broker-runtime/src/broker.rs:326-335 | an append that was validated is sent into an open transaction that enlisted its partition |
| BrokerHandling.RequestStep | crates/broker-runtime/src/partition.rs:185-230 | initialising or ending keeps everything undecided accounted for |
| BrokerGuarantee.StepKeepsGood | crates/broker-runtime/src/broker.rs:318-400 | every disciplined step keeps the transactional invariant |
| BrokerGuarantee.EveryDisciplinedRunIsGood | crates/broker-runtime/src/broker.rs:318-400 | in every state of a run with one caller at a time per transactional id, no re-initialisation of an open transaction and no giving up on initialising or ending, a pending batch, and an append on its way, belongs to an open transaction that enlisted its partition or to one being resolved; giving up on enlisting, validating and appending is allowed |
| BrokerGuarantee.EndDecidesEverything | crates/broker-runtime/src/broker.rs:362-400 | when ending a transaction returns Ok, no shard holds a pending batch of the producer and no append of it is on its way, and in the logs of the partitions it had enlisted all its retained batches are visible after a commit and hidden after an abort |
| BrokerGuarantee.EndDecidesWhatWasEnlisted | crates/broker-runtime/src/broker.rs:362-400 | the same for the partitions enlisted since the last initialisation or end when the coordinator ended this very transaction, during the call |
| BrokerScripts.EveryEndIsCarriedOut | crates/broker-runtime/src/broker.rs:362-400 | in every run, whoever returns Ok from ending has had the end, the resolution of every partition on its shard and, when it commits, the commit of every offset handled in this order during the call, each accepted; and whoever returns at all without giving up has had everything before the deciding message carried out |
| BrokerScripts.CompletionIsWhatWasEnlisted | crates/broker-core/src/coordination.rs:215-238 | what the end hands over is what was enlisted since the last initialisation or end among the requests handled by then |
| BrokerScripts.EndedAsEnlisted | crates/broker-runtime/src/broker.rs:373-400 | the two together for every returned call |
| BrokerSent.SentFollowsScript | crates/broker-runtime/src/broker.rs:362-400 | at every moment of every run, what a caller has sent to end a transaction is a beginning of the end to the coordinator, the resolutions in order, each to the shard of its partition, and, only for a commit, the offsets in order, of what the coordinator handed over during the call; a caller that aborts commits no offset |
| BrokerOffsets.CommittedIsReported | crates/broker-core/src/coordination.rs:376-405 | in every run, once a commit is accepted, whoever asks the group for the partition is told that offset until the next commit for it is accepted |
| BrokerOffsets.CommitAcceptedIff | crates/broker-core/src/coordination.rs:376-393 | an enlisted offset is accepted exactly when its group exists at its generation when the commit is handled, and otherwise refused as unknown or stale |
| BrokerOffsets.EndReturns | crates/broker-runtime/src/broker.rs:373-400 | a call that ends a transaction, is not given up and is accepted by the coordinator has every resolution acknowledged in order; an abort returns Ok; a commit returns Ok exactly when the group of every enlisted offset is current when its commit is handled, and otherwise the refusal of the first one that is not |
| BrokerOffsets.OkIsPlayed | crates/broker-runtime/src/broker.rs:362-400 | a call that returned Ok from ending has had the end, every resolution and every commit handled at ascending positions during the call, each on its shard and accepted |
| GivingUp.PendingUnlessQueued | crates/broker-runtime/src/partition.rs:171-180 | as long as nobody ends for a producer, a pending batch of it is decided exactly by the resolutions already queued on its shard |
| GivingUp.EveryoneIsOnTheirWay | crates/broker-runtime/src/broker.rs:549-593 | in every run the message of every waiting caller is in the mailbox it was sent to |
| GivingUp.GivingUpOnEnd | crates/broker-runtime/src/broker.rs:368-387 | after giving up on an end, at the end itself or at any resolution, and until somebody ends for the producer again, a batch it left pending is decided exactly if the caller was waiting for the resolution on its shard and that has been handled |
| GivingUp.GivingUpLeaves | crates/broker-runtime/src/broker.rs:368-387 | what it left pending is in the partitions it had still to resolve, or in those of the open transaction if the coordinator had not answered yet |
| Leftovers.ReinitialisedCannotEnd | crates/broker-core/src/coordination.rs:104-131 | in every history, after an id is initialised again every identity is refused the end until a partition is enlisted anew: the current one for its state, any other as fenced |
| OwedResolutions.PendingWhileOwed | crates/broker-runtime/src/broker.rs:373-387 | while no end for a producer is accepted and nobody gives up on one, a pending batch of it is pending exactly when its shard still has as many resolutions of the producer coming, queued or still to be sent |
| OwedResolutions.PendingIfNothingOwed | crates/broker-runtime/src/broker.rs:373-387 | whoever gives up, a pending batch whose shard has none coming stays pending while no end for its producer is accepted |
| Leftovers.LeftoverPendingIff | crates/broker-core/src/coordination.rs:104-131 | behind an accepted initialisation, or whenever the transaction is not open, with nothing enlisted for it again and nobody giving up on an end, a pending batch is pending later exactly when its shard still has as many resolutions of the producer coming |
| Leftovers.LeftoverStaysPending | crates/broker-core/src/coordination.rs:104-131 | if its shard has none coming then, the batch stays pending until something is enlisted again, whoever gives up and whatever is still to be resolved on other shards |
| Reinitialising.ReinitialisingLeaves | crates/broker-core/src/coordination.rs:104-131 | when callers have kept to the discipline and nobody is busy with an id, initialising it again leaves pending exactly the batches of its producer that were pending, until something is enlisted again, and all of them are in partitions of the open transaction |
| Leftovers.NextEndDecides | crates/broker-core/src/log.rs:252-262 | a batch left pending takes the outcome of the later transaction of its id that last resolves on its shard, although that transaction did not append it |
| BrokerWitnesses.AppendBehindTheEnd | crates/broker-runtime/src/broker.rs:326-335 | a run in which an end returns Ok while a batch validated before it is pending, nobody ends and no message is on its way |
| BrokerWitnesses.GivingUpOnTheReply | crates/broker-runtime/src/broker.rs:368-372 | a run in which a caller gives up on the reply to the end, the end is handled and the batch stays pending with nobody to resolve it |
| BrokerWitnesses.GivingUpUnsent | crates/broker-runtime/src/broker.rs:377-387 | a run in which a caller gives up before sending the resolution and the batch stays pending |
| BrokerWitnesses.GivingUpQueued | crates/broker-runtime/src/broker.rs:377-387 | a run in which a caller gives up on the reply to a queued resolution and the batch is decided all the same |
| BrokerWitnesses.Reinitialises | crates/broker-core/src/coordination.rs:104-131 | a run in which initialising again leaves a batch of the dropped transaction pending |
| BrokerWitnesses.DiscardedIsPublished | crates/broker-runtime/src/partition.rs:171-180 | a run in which the next transaction of the producer commits that batch without having appended anything |
| BrokerWitnesses.ReinitialisedBehindTheResolution | crates/broker-core/src/coordination.rs:104-131 | a run in which an id is initialised while somebody is still ending its transaction but its shard has no resolution coming any more: the end returns Ok and the batch stays pending with nobody to resolve it |
| BrokerWitnesses.StaleOffsetFailsTheEnd | crates/broker-runtime/src/broker.rs:388-398 | a run in which a member joins after an offset was enlisted, every partition is committed, the end returns the stale generation and the group has no offset |
| Bits.FieldI16RoundTrip | crates/broker-wire/src/codec.rs:128-130 | every i16 survives its big-endian field |
| Bits.FieldI32RoundTrip | crates/broker-wire/src/codec.rs:132-134 | every i32 survives its big-endian field |
| Bits.FieldI64RoundTrip | crates/broker-wire/src/codec.rs:136-138 | every i64 survives its big-endian field |
| Varint.WriteUvarint | crates/broker-wire/src/codec.rs:218-224 | the loop appends exactly the seven-bit groups, low first |
| Varint.VarintLengths | crates/broker-wire/src/codec.rs:218-232 | a varint takes one to five bytes and a varlong one to ten |
| Varint.VarintRoundTrip | crates/broker-wire/src/codec.rs:226-249 | every i32 survives its varint, whatever follows |
| Varint.VarlongRoundTrip | crates/broker-wire/src/codec.rs:230-254 | every i64 survives its varlong, whatever follows |
| ZigZagBits.UnfoldFold | crates/broker-wire/src/codec.rs:226-254 | bit by bit and at every width, the shift-and-xor of the reader undoes that of the writer |
| ZigZagBits.FoldIsZigZag | crates/broker-wire/src/codec.rs:226-232 | the arithmetic zigzag is the shift-and-xor on the two's complement word |
| ZigZagBits.UnfoldIsUnZigZag | crates/broker-wire/src/codec.rs:246-254 | and so is its inverse |
| Crc.ComputeChecksum | crates/broker-wire/src/record_batch.rs:43-56 | the nested loops compute the reflected CRC with the given polynomial |
| Crc.PolynomialsAreProper | crates/broker-wire/src/record_batch.rs:315-328 | both polynomials have the top bit that makes a register step reversible |
| Crc.BurstDetected | crates/broker-wire/src/record_batch.rs:43-56 | at any length, inputs that differ only within four consecutive bytes have different checksums |
| RecordBatchCodec.Decoder.Take | crates/broker-wire/src/codec.rs:117-122 | takes exactly the next bytes and moves on, or reports an incomplete input |
| RecordBatchCodec.DecodeUvarint | crates/broker-wire/src/codec.rs:234-244 | the loop reads what the parser function reads and stops where it stops |
| RecordBatchCodec.DecodeRecord | crates/broker-wire/src/record_batch.rs:196-234 | one record is read as the parser function reads it, with all its refusals |
| RecordBatchCodec.DecodeRecordSet | crates/broker-wire/src/record_batch.rs:146-244 | the decoder's loops compute the parser function on every byte string, errors included |
| RecordBatchCodec.EncodeRecordBatch | crates/broker-wire/src/record_batch.rs:64-111 | the encoder's loops and the checksum patched in afterwards compute the printer function |
| RecordBatchRoundTrip.RecordRoundTrip | crates/broker-wire/src/record_batch.rs:71-82 | one record survives in front of any bytes, its timestamp as a saturated difference |
| RecordBatchRoundTrip.BatchRoundTrip | crates/broker-wire/src/record_batch.rs:64-244 | what the encoder writes, the decoder reads back in front of any following batches |
| RecordBatchRoundTrip.SetsConcatenate | crates/broker-wire/src/record_batch.rs:153-238 | decoding a concatenation is decoding its parts one after the other, producer identity carried along |
| RecordBatchRoundTrip.RoundTripIff | crates/broker-wire/src/record_batch.rs:64-244 | every batch that encodes comes back with its records and no producer, exactly if every timestamp difference from the first fits in an i64 |
| WireGuarantees.ChargeCoversRecord | crates/broker-core/src/log.rs:386-390 | the log's charge for a record, 32 plus key plus value, covers what it takes on the wire |
| WireGuarantees.ChargedRecordsEncode | crates/broker-wire/src/record_batch.rs:64-111 | 1 to 1024 records whose charges leave 61 bytes of a frame always encode, to at most 61 bytes plus the charges |
| WireGuarantees.MaxTimestampIsMax | crates/broker-wire/src/record_batch.rs:84-85 | the maximum timestamp is attained and exceeded by none |
| WireGuarantees.HeaderOnWire | crates/broker-wire/src/record_batch.rs:86-106 | base offset, length, leader epoch, magic, attributes, last offset delta, first and maximum timestamp, the absent producer, and the count stand in their fields |
| WireGuarantees.OffsetRebuiltIff | crates/broker-wire/src/record_batch.rs:75 | base offset plus delta is the stored offset exactly when the distance fits in an i32 |
| WireGuarantees.LastDeltaIff | crates/broker-wire/src/record_batch.rs:91 | the last offset delta points at the last record exactly when the window has no gaps |
| WireGuarantees.DamagedBatchRefused | crates/broker-wire/src/record_batch.rs:163-173 | in any accepted batch, a change inside the checksum or inside four consecutive bytes behind it makes decoding return a checksum error |
| WireGuarantees.DamagedSetRefused | crates/broker-wire/src/record_batch.rs:146-173 | the same for a batch anywhere in a record set |
| WireGuarantees.DamagedEncodingRefused | crates/broker-wire/src/record_batch.rs:146-173 | of what the encoder writes, a change inside the checksum or inside any four consecutive bytes behind it makes the decoder answer with a checksum error |
| WireGuarantees.ChangedByteRefused | crates/broker-wire/src/record_batch.rs:146-173 | so does changing any single byte from the checksum on |
| WireGuarantees.FetchedWindowTravels | crates/broker-wire/src/response.rs:425-427 | a window the log shows encodes exactly when it has at most 1024 records and its encoding fits in a frame with the 61 fixed bytes; the log's charges bound that encoding from both sides; caps that leave room for those bytes always suffice; what comes back is what the log showed exactly when no timestamp difference saturates |
| WireGuarantees.EncodesIff | crates/broker-wire/src/record_batch.rs:65-111 | records are refused exactly when there are too many or they do not fit in a frame |
| WireWitnesses.DefaultCapsRefused | crates/broker-engine/src/engine.rs:72-75 | under the default caps a fetch shows two records, appended one by one and charged just under the byte cap, that the encoder refuses |
| WireWitnesses.GapMisplacesLastOffset | crates/broker-wire/src/record_batch.rs:91 | a read-committed fetch around an undecided transactional batch shows the plain batches on both sides, and the last offset delta written for them points below the last record |
| WireWitnesses.FarTimestampIsLost | crates/broker-wire/src/record_batch.rs:74 | two records at the ends of the i64 range encode, and the second comes back with another timestamp |
| WireWitnesses.FarOffsetWraps | crates/broker-wire/src/record_batch.rs:75 | a record more than an i32 above the base is read back 2^32 below its offset |
| Frames.SplitConserves | crates/broker-el0/src/main.rs:462-471 | frames and leftover are the bytes received, every frame is whole, and no whole frame stays behind |
| Frames.SplitUnique | crates/broker-el0/src/main.rs:462-471 | frames sent back to back come out as they went in |
| Frames.SplitExtends | crates/broker-el0/src/main.rs:438-471 | more bytes only add frames behind those found |
| Frames.DrainBuffer | crates/broker-el0/src/main.rs:462-493 | the inner loop hands over every complete frame up to the first that is not answered or announces a bad length |
| Frames.ServeConnection | crates/broker-el0/src/main.rs:438-494 | the frames handed over and the state of the connection depend on the received bytes and not on their chunks; an open connection has lost no byte and buffers less than one largest frame |

## Left out

- The channel, executor and parker: a mailbox is a bounded FIFO whose senders may find it full, and a caller may be
  woken, or give up, at any time. Parking between two attempts takes no time, and retry counts are part of `Calls` but
  not of the state machine.
- Placement hashing: the shard of a partition is an arbitrary function into the shards; its quality is not studied.
- Shutdown acknowledgements: a shutdown request may reach any shard at any time, but the counting of acknowledgements
  and the stopped flag are not modelled.
- The legacy message set v0/v1: its reader is a parameter of the decoder; only its CRC polynomial is covered.
- Requests, responses, API dispatch, error codes and the session layout: flat layouts and case analyses.
- Topic creation rules, diagnostics, sockets, grants, start-up, durability, replication and TLS.
- Offsets near 2^63, where the original's i64 addition would overflow, and record counts beyond memory.
- Liveness: that a waiting caller is eventually answered is not stated.
