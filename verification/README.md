# Real-time bidder: models and proofs

The bidder answers bid requests from shared campaign budgets, streams its log
through a batching Kinesis producer, and signs its own database requests; data
generators and report tools surround it. This project models the parts of that
system with the most state, and proves what they promise. Code that changes
things in place is modelled by classes, arrays and loops, each proved against a
function; concurrency is modelled as step systems, and what holds of them holds
in every run.

## Parts

- **Producer** (`ProtoWire`, `AggregatedRecord`, `Sizes`, `Packing`, `Batches`,
  `Compiler`, `Flush`, `Sums`, `Workers`, `Pipeline*`). Messages are packed into
  batches by one greedy loop and cut into entries by another; each entry is a KPL
  aggregated record over the Protocol Buffers wire format ("Base 128 Varints",
  "Length-Delimited Records"). `Workers` runs the aggregate loop and the flush
  routine over real batch and entry objects. `Pipeline` is the whole producer,
  pools and Close included, as steps: callers of Put, the aggregate goroutine,
  any number of flush workers and the garbage collector interleave freely, and
  the service may answer anything.
- **Auction** (`Lookup`, `Auction`, `SharedBudgets`). The lookup table that is
  never cleared; one auction alone; and any number of auctions interleaved at
  single atomic operations on shared snapshots that are refreshed under them.
- **Signer** (`Hashing`, `SigningSpec`, `Signer`, `SigV4`). HMAC (section 2 of RFC
  2104) and the AWS Signature Version 4 chain over scratch arrays that overwrite
  their own inputs, with a key cached for the day. `SigV4` defines the standard
  for any list of headers and proves that the three text templates compute it.
- **Data path** (`KeyRange`, `BudgetCodec`, `Audience`, `WriteBuffer`, `Histogram`,
  `Aggregator`, `FloatRank`, `Cache`). Budgets from generator to bidder, the reversed audience
  index, the retrying write buffer, merged percentiles, and the caches an auction
  reads.

## Hypotheses carried openly

- `Fits`: the *buffered* message makes an acceptable entry. Put checks the data
  before compression (`apps/bidder/code/stream/producer/producer.go:88` and 93),
  so this does not follow from the code. `CompileEndsIffAllFit` shows that the
  compile loop ends under exactly this condition, and `PutCheckIsNotEnough`
  gives an input that passes the check and breaks it.
- `Complies` and `Honest`: Kinesis answers each record and counts its failures.
  Only the theorems that name it use it; conservation needs no such trust.
- The clock is a source of events: a tick may or may not find a flush due.
- Digests are any functions of the right length, the cipher is any injective
  function, and random numbers are any numbers.

## Where code and expectations part

- Acceptance is up to 51141 bytes, while the error text speaks of 51200
  (`FitsIffShort`).
- The entry-count guard would allow 501 entries, since the counter starts at
  zero, but it never decides anything (`GuardNeverDecides`, `EntryCountBound`).
- With no flush workers configured, Close returns although accepted messages
  are still queued (`CloseSettlesIff`, `NoWorkersLeavesMessages`), so long as the
  output channel has room; once 100 batches are queued it hangs (`ProgressIff`,
  `JammedForever`, `CloseCanHang`).
- A nil return of the send loop rests on the failure counts alone
  (`NilReturnTruthful`, `NilReturnAfterRetryLies`).
- Entries acknowledged before a retry, and empty batches, are left to the garbage
  collector instead of going back to their pools: `FlushBatch` and `HeldWholeIff`
  say exactly when, `AcknowledgedRecordIsDropped` gives an input. `PoolsSound`
  shows that nothing is ever returned twice, `LosesOnly` that nothing else is left.
- Auctions reserve before they choose, so one auction's momentary hold can leave
  another without a winner (`ReservationMeaning`, `InterferenceRefuses`).
- The audience generator's numbers may repeat when the 64-bit sum wraps
  (`NumbersDistinctIff`, `NumbersRepeatExample`, `GeneratorListsOnceIff`), the
  loops over keys do not end if the highest key is the largest 64-bit number
  (`LoopEndsIff`), and negative counts survive
  the configuration step (`Resolve`).
- Unprocessed items under another table's name are printed and forgotten
  (`ConservedIff`, `ForeignItemIsLost`). The write buffer sends as soon as one
  batch is full, where its comment speaks of several.
- A latency below the first edge is counted in the last bucket (`BucketIff`).
  Merging histograms overwrites the total, and leaves a partial sum behind after
  an edge mismatch (`Merge`).

## Model

| member | source | states |
|---|---|---|
| ProtoWire.VarintWidth | apps/bidder/code/stream/producer/size.go:34-54 | A length prefix takes at most k bytes exactly when the length is below 128^k: the thresholds the size table must sit on |
| ProtoWire.VarintRoundTrip | apps/bidder/code/stream/producer/batch_compiler.go:122 | Every 64-bit value written as a base-128 varint is read back, and the reader stops where the value ends |
| ProtoWire.VarintBytes | apps/bidder/code/stream/producer/batch_compiler.go:122 | Seven bits to a byte from the lowest up, the top bit set on all bytes but the last, and no longer than needed |
| ProtoWire.FieldsRoundTrip | apps/bidder/code/stream/producer/messages.pb.go:28-36 | An independent protobuf parser reads any encoded list of varint and length-delimited fields back, in order |
| AggregatedRecord.RecordRoundTrip | apps/bidder/code/stream/producer/messages.pb.go:146-155 | A Record with its key index and data survives encoding; a Record without either required field is rejected by the decoder |
| AggregatedRecord.CollectInverts | apps/bidder/code/stream/producer/messages.pb.go:28-36 | Keys and records of an AggregatedRecord are collected from its fields in their order, nothing mixed or lost |
| AggregatedRecord.EntryRoundTrip | apps/bidder/code/stream/producer/batch_compiler.go:118-136 | A consumer that checks the magic number and the digest accepts every entry and gets the aggregate back |
| Sizes.SizeTableExact | apps/bidder/code/stream/producer/size.go:34-54 | The table never overestimates the embedded Record, and is exact precisely up to 2097145 message bytes |
| Sizes.EntryLengthExact | apps/bidder/code/stream/producer/size.go:7-54 | Metadata size plus the table is at most the entry's real length, with equality exactly when every message is within the table's range |
| Sizes.FitsIffShort | apps/bidder/code/stream/producer/producer.go:88-90 | The largest acceptable message has 51141 bytes, not the 51200 the error text names |
| Sizes.PackedEntryRoundTrip | apps/bidder/code/stream/producer/batch_compiler.go:84-136 | For any messages in range, a consumer that checks magic and digest accepts the entry, and reads the same aggregate that was packed |
| Sizes.DecodedEntry | apps/bidder/code/stream/producer/batch_compiler.go:84-136 | That aggregate has the one partition key and, for each message in order, a Record with key index 0 and the message's bytes |
| Sizes.EntryBytes | apps/bidder/code/stream/producer/batch_compiler.go:118-136 | The bytes themselves: magic F3 89 9A C2, key table, one embedded Record a message with its tags and lengths, and the digest of all but the magic |
| Packing.NextFitPacks | apps/bidder/code/stream/producer/batch.go:18-49 | Filling a batch message by message partitions the messages in order into non-empty entries within the entry limit, and no two neighbouring entries could have been one |
| Packing.PackersAgree | apps/bidder/code/stream/producer/batch_compiler.go:56-75 | The groups the compiler cuts off the front are exactly the groups the batch counted while it was filled |
| Packing.EntryCountBound | apps/bidder/code/stream/producer/batch.go:22-40 | A bin-packing bound: fitting messages whose request is within 5 MiB never need more than 205 entries |
| Packing.EntryCountBoundTight | apps/bidder/code/stream/producer/const.go:10-19 | 205 is attained, so the bound cannot be improved |
| Batches.Batch.TryAddMessage | apps/bidder/code/stream/producer/batch.go:18-49 | The in-place packer changes its counters exactly as the limit rules say; a refused message leaves the batch untouched |
| Batches.Batch.Reset | apps/bidder/code/stream/producer/batch.go:60-66 | Afterwards every field is that of a new batch, the flush reason included |
| Batches.PackedIsWithinLimits | apps/bidder/code/stream/producer/batch.go:51-57 | The counters of a reachable batch name fewer than 205 entries and the true size of its request, within the request limit |
| Batches.GuardNeverDecides | apps/bidder/code/stream/producer/batch.go:28-31 | On every reachable batch the guard at 500 entries changes no outcome: removing it gives the same packer |
| Batches.TryAddMeaning | apps/bidder/code/stream/producer/batch.go:18-49 | A fitting message is taken if and only if the packing of the longer list stays within the request limit, and the counters keep their meaning |
| Batches.FreshBatchTakes | apps/bidder/code/stream/producer/producer.go:183-187 | The re-add to a new batch, whose result is ignored, drops the message exactly beyond 5242728 bytes, a size no fitting message has |
| Batches.ReachableIffPacked | apps/bidder/code/stream/producer/batch.go:18-49 | The invariant is exact: it holds of a batch if and only if adding fitting messages to a new batch can produce it |
| Compiler.EntryPool.Get | apps/bidder/code/stream/producer/pool.go:37-46 | Hands out a cleared entry that is no longer in the pool, pooled or new |
| Compiler.EntryPool.Put | apps/bidder/code/stream/producer/pool.go:48-54 | Clears the entry and takes it back, once |
| Compiler.BatchCompiler.AggregateRecords | apps/bidder/code/stream/producer/batch_compiler.go:84-116 | The loop collects the longest prefix that fits one entry, in order, each body with key index 0 under the one key |
| Compiler.BatchCompiler.CompileMessages | apps/bidder/code/stream/producer/batch_compiler.go:84-136 | One entry carries magic number, aggregate and digest of that prefix; on a marshalling error the entry taken for it, pooled or new, is in the pool |
| Compiler.BatchCompiler.CompileNext | apps/bidder/code/stream/producer/batch_compiler.go:56-75 | Each iteration of the compile loop sends exactly the next group, and takes at least one message |
| Compiler.BatchCompiler.CompileBatch | apps/bidder/code/stream/producer/batch_compiler.go:46-80 | Terminates on fitting messages; entry i carries the i-th group under the i-th next key of the sequence, and each entry taken uses up one key; after a marshalling error, which happens exactly when some group is rejected, every entry taken, pooled or new, is in the pool: one for each group up to the first rejected |
| Compiler.RequestBytesAreSent | apps/bidder/code/stream/producer/batch_compiler.go:46-136 | Data plus partition-key bytes of the compiled request are, to the byte, what the batch counted while it was filled |
| Compiler.EveryEntryDecodes | apps/bidder/code/stream/producer/batch_compiler.go:118-136 | Entry i of a compiled request has the i-th next partition key, is within the entry limit, and decodes to that key and, record by record with key index 0, the bodies of the i-th group |
| Compiler.CompileEndsIffAllFit | apps/bidder/code/stream/producer/batch_compiler.go:56-75 | The compile loop ends if and only if every message of the batch fits an entry |
| Compiler.NeverPassesUnfitting | apps/bidder/code/stream/producer/batch_compiler.go:97-101 | However often it runs, the loop never gets past the first message that does not fit |
| Flush.Failures | apps/bidder/code/stream/producer/flush.go:122-130 | Keeps exactly the records whose result has an error code, in order |
| Flush.SendRequest | apps/bidder/code/stream/producer/flush.go:49-119 | The retry loop ends with the outcome, the acknowledged records and the remaining request that `Send` describes |
| Flush.SendConserves | apps/bidder/code/stream/producer/flush.go:49-130 | Whatever the service answers, each record is acknowledged, pending or left out of an answer, and nothing is in two of these |
| Flush.PendingInOrder | apps/bidder/code/stream/producer/flush.go:115-130 | What is pending, and what the request holds on return, is always a subsequence of the original records |
| Flush.CompliantSend | apps/bidder/code/stream/producer/flush.go:49-130 | If every answer covers its request and counts its errors, nothing goes unreported, nothing panics, and a nil return acknowledges every record exactly once |
| Flush.NilReturnTruthful | apps/bidder/code/stream/producer/flush.go:63-119 | Over any number of retries, the loop returns nil with every record acknowledged exactly once if and only if every attempt has a result for each record it sent, no retried result refers beyond the request, and the attempt that counts no failure carries no error code |
| Flush.NilReturnAfterRetryLies | apps/bidder/code/stream/producer/flush.go:95-116 | The other case is real: after a retry, an answer that counts no failure but refuses the record again gives nil without it |
| Flush.HeldWholeIff | apps/bidder/code/stream/producer/flush.go:115-130 | On return the request still holds all its records if and only if no attempt settled one and was retried |
| Flush.AcknowledgedRecordIsDropped | apps/bidder/code/stream/producer/flush.go:115-130 | The other case is real: one record acknowledged and one retried are both delivered, but the request returns without the first |
| Workers.BatchPool.Get | apps/bidder/code/stream/producer/pool.go:14-23 | A batch from the pool is in its initial state and has one owner |
| Workers.BatchPool.Put | apps/bidder/code/stream/producer/pool.go:25-30 | A returned batch is reset first |
| Workers.Handle | apps/bidder/code/stream/producer/producer.go:167-195 | One turn of the select loop over real batch objects: which batch leaves, with which reason, and which is filled next; a tick that is not due leaves the batch where it is |
| Workers.Aggregate | apps/bidder/code/stream/producer/producer.go:150-196 | The loop hands over exactly the batches `Sends` describes, all of them distinct objects, none of them in the pool; the laws below say when a batch may leave |
| Workers.SendsEverything | apps/bidder/code/stream/producer/producer.go:167-195 | Up to the close, every message that arrived is sent, once and in order, in batches within the limits |
| Workers.ReactKeeps | apps/bidder/code/stream/producer/producer.go:167-195 | No single event loses, repeats or reorders a message |
| Workers.ReasonsCounted | apps/bidder/code/stream/producer/producer.go:167-195 | Up to the close, the batches sent for the interval are as many as the due ticks; one leaves for the close if it comes, and every other one for its size |
| Workers.SizeMeansFull | apps/bidder/code/stream/producer/producer.go:179-187 | A batch that left for its size, together with the message that arrived next, would exceed the request limit |
| Workers.NothingLeavesUnasked | apps/bidder/code/stream/producer/producer.go:167-195 | While no tick is due, the channel is open and everything fits one request, nothing leaves |
| Workers.TickSends | apps/bidder/code/stream/producer/producer.go:189-195 | After any events, a due tick sends just the batch then held and an undue one nothing, and the held batch stays |
| Workers.FlushWorker.FlushBatch | apps/bidder/code/stream/producer/flush.go:16-45 | An empty batch goes nowhere; any other batch and its message buffers go back once whatever compiling says; of the entries taken, exactly those the request still holds on return go back, which is all of them if and only if no attempt settled a record and was retried; the result is that of sending the packed entries |
| Workers.SendIsUniform | apps/bidder/code/stream/producer/flush.go:49-130 | What happens to a request depends on its length and the answers only, not on what the entries hold |
| PipelineInvariant.PutKeeps | apps/bidder/code/stream/producer/producer.go:87-101 | Put keeps order, conservation, packing, ownership and shutdown facts together |
| PipelineInvariant.ReceiveKeeps | apps/bidder/code/stream/producer/producer.go:170-187 | So does receiving a message, with or without a full batch |
| PipelineInvariant.EmitKeeps | apps/bidder/code/stream/producer/producer.go:154-165 | So does handing a full batch over, the re-add to the new batch included |
| PipelineInvariant.TakeKeeps | apps/bidder/code/stream/producer/producer.go:126-129 | So does taking a batch, and dropping it when it is empty |
| PipelineWorkers.AddEntryKeeps | apps/bidder/code/stream/producer/batch_compiler.go:56-80 | So does compiling one entry, and releasing buffers and batch after the last |
| PipelineWorkers.GiveUpKeeps | apps/bidder/code/stream/producer/batch_compiler.go:61-68 | So does giving a batch up after a marshalling error |
| PipelineWorkers.RespondKeeps | apps/bidder/code/stream/producer/flush.go:63-130 | So does any answer of the service: success, error, or a retry that shrinks the request |
| PipelineWorkers.StepKeeps | apps/bidder/code/stream/producer/producer.go:87-196 | Every step of the whole producer keeps the invariant |
| PipelineWorkers.RunKeeps | apps/bidder/code/stream/producer/producer.go:87-196 | Hence so does every run |
| PipelineTheorems.AcceptanceOrder | apps/bidder/code/stream/producer/producer.go:150-196 | In every run, what was accepted is what left the aggregator, what it holds, and what waits in the channel, in that order: nothing is dropped or reordered |
| PipelineTheorems.ExactlyOnePlace | apps/bidder/code/stream/producer/producer.go:87-196 | Conservation: in every run each accepted message is in exactly one place, with multiplicity one, and nothing else is anywhere |
| PipelineTheorems.CloseSettlesAll | apps/bidder/code/stream/producer/producer.go:140-148 | Once Close has returned, channels, aggregator and workers are empty and every accepted message is settled, given a flush worker |
| PipelineTheorems.CloseSettlesIff | apps/bidder/code/stream/producer/producer.go:121-148 | Close settles everything if and only if there is a flush worker or nothing was accepted |
| PipelineTheorems.NoWorkersLeavesMessages | apps/bidder/code/stream/producer/producer.go:121-148 | The other case is real: with no flush workers a run ends with Close returned and a message still queued |
| PipelineTheorems.HonestRunLosesNothing | apps/bidder/code/stream/producer/flush.go:63-119 | If the service honours its contract, no record is ever counted as delivered without being acknowledged |
| PipelineTheorems.HonestCloseDelivers | apps/bidder/code/stream/producer/producer.go:137-148 | After an honest closed run every accepted message was acknowledged or is in a batch reported as failed, exactly once |
| PipelineTheorems.RequestsWithinLimits | apps/bidder/code/stream/producer/const.go:10-19 | In every run, every request a worker holds, first attempt or retry, is within 500 entries, the request size and the entry size |
| PipelineTheorems.PoolsSound | apps/bidder/code/stream/producer/pool.go:14-54 | In every run each batch, entry and message buffer ever made is in exactly one place: in its pool, with exactly one owner, or lost to the garbage collector; every pooled batch is in its initial state |
| PipelineTheorems.StepsFollowLoop | apps/bidder/code/stream/producer/producer.go:167-195 | The aggregator's steps and the select loop over real batches agree: same batch leaves, same reason, same next batch |
| PipelineTheorems.ResponsesFollowSend | apps/bidder/code/stream/producer/flush.go:63-119 | The worker's steps and the retry loop agree in any run, whatever others do in between: the answers a worker hears acknowledge, fail and lose the same records, and while the loop waits the worker holds the same pending ones |
| PipelineHistory.PutMeaning | apps/bidder/code/stream/producer/producer.go:87-101 | Put accepts data of up to 51141 bytes and no more, and queues just this message behind all others |
| PipelineHistory.StartMeaning | apps/bidder/code/stream/producer/producer.go:103-135 | Starting gives the configured number of idle workers and an empty batch, and leaves what is already queued |
| PipelineHistory.FirstInFirstOut | apps/bidder/code/stream/producer/producer.go:121-165 | In any run, from any state, the workers take the messages that entered the output channel first |
| PipelineHistory.TakenInOrder | apps/bidder/code/stream/producer/producer.go:87-196 | Acceptance order reaches the workers: the accepted messages are those taken, those queued in batches, those held and those waiting, one after the other |
| PipelineHistory.ChannelBounds | apps/bidder/code/stream/producer/const.go:7-8 | No run fills a channel beyond its capacity of 100000 messages or 100 batches |
| PipelineHistory.SettledBy | apps/bidder/code/stream/producer/flush.go:16-45 | Only an answer of the service, or an entry that cannot be marshalled, settles messages; the latter fails all messages of its batch |
| PipelineHistory.LosesOnly | apps/bidder/code/stream/producer/pool.go:14-54 | No step but a collection loses a message buffer; entries are lost only where a request is sent again; of the batches, just the empty one a worker drops and the spare one of the last flush |
| PipelineHistory.CloseReturnsBuffers | apps/bidder/code/stream/producer/producer.go:137-148 | Once Close has returned, with a flush worker and nothing collected, every message buffer ever made is in its pool; so is every entry, if no request was sent again |
| PipelineProgress.ProgressIff | apps/bidder/code/stream/producer/producer.go:140-196 | After Close has begun and until it returns, some step other than a tick, a retry or a collection is possible if and only if the output channel is not full with nobody to empty it |
| PipelineProgress.ProductiveRunsEnd | apps/bidder/code/stream/producer/producer.go:140-196 | No run of such steps is longer than a bound that the state gives |
| PipelineProgress.CloseCanReturn | apps/bidder/code/stream/producer/producer.go:137-148 | With a flush worker, Close can be completed from wherever a run has brought it |
| PipelineProgress.JammedForever | apps/bidder/code/stream/producer/producer.go:121-165 | Without flush workers, once the channel is full and the aggregator waits, Close never returns, whatever happens |
| PipelineProgress.CloseCanHang | apps/bidder/code/stream/producer/producer.go:189-195 | It is reached by an idle producer: interval flushes of empty batches fill the channel, and Close hangs |
| PipelineTheorems.PutCheckIsNotEnough | apps/bidder/code/stream/producer/producer.go:88-93 | Put checks the data before compression; where compression adds a byte to the longest accepted data, the batch it enters never finishes compiling |
| Lookup.DedupMeaning | apps/bidder/code/auction/auction.go:133-142 | The result names the same campaigns, each once, ordered by first occurrence |
| Lookup.TargetedMeaning | apps/bidder/code/auction/auction.go:134-137 | A campaign is a candidate if and only if some listed audience that is known names it |
| Lookup.TargetedInOrder | apps/bidder/code/auction/auction.go:134-141 | The audiences' lists come one after the other, each whole and in its own order; an unknown audience adds nothing |
| Lookup.LookupPool.Get | apps/bidder/code/auction/pool.go:66-74 | A table comes with the stamps its last run left, none ahead of its run number |
| Lookup.AddCampaigns | apps/bidder/code/auction/auction.go:135-142 | One audience's campaigns are added; stamps equal to the run number mark exactly the campaigns emitted |
| Lookup.Run | apps/bidder/code/auction/auction.go:124-146 | On a table in any state, grown or not, one run gives the deduplicated list of what the audiences target and leaves the table fit for the next |
| Lookup.GetAudienceCampaigns | apps/bidder/code/auction/auction.go:124-146 | For any pool history the result has no repeats, contains a campaign if and only if a listed audience names it, and is ordered by first occurrence |
| Auction.BudgetState.Reserve | apps/bidder/code/cache/budget.go:53-57 | Takes the value off one budget, whatever is left, and answers whether it could be afforded |
| Auction.BudgetState.Free | apps/bidder/code/cache/budget.go:59-62 | Adds the value back to one budget and touches no other |
| Auction.WinnersAreBest | apps/bidder/code/auction/auction.go:152-173 | The candidates are exactly the affordable campaigns of greatest price; there are none exactly when no listed campaign can pay |
| Auction.AtPriceCounts | apps/bidder/code/auction/auction.go:170-172 | Each candidate is collected as often as it is listed |
| Auction.AtPriceInOrder | apps/bidder/code/auction/auction.go:170-172 | Candidates keep the order of the list |
| Auction.ReserveAll | apps/bidder/code/auction/auction.go:152-173 | The reservation loop ends with those candidates, and with every listed campaign charged once |
| Auction.FreeLosers | apps/bidder/code/auction/auction.go:181-189 | Afterwards only the winner is still charged |
| Auction.ChooseCampaign | apps/bidder/code/auction/auction.go:149-196 | Run alone: nil exactly when no listed campaign can afford its price; otherwise a best one, any of which a draw can pick; only its budget changed, by its price |
| SharedBudgets.ReserveKeeps | apps/bidder/code/auction/auction.go:155-161 | One atomic reservation keeps, for every snapshot: available is initial minus price times standing reservations, and the affordable ones cost no more than the initial budget, whatever the other auctions are doing |
| SharedBudgets.ChooseKeeps | apps/bidder/code/auction/auction.go:175-179 | Choosing keeps both, because every candidate has a successful reservation of its own |
| SharedBudgets.FreeKeeps | apps/bidder/code/auction/auction.go:181-189 | Giving a loser back keeps both; the winner is passed over, even if listed twice |
| SharedBudgets.InstallKeeps | apps/bidder/code/cache/budget.go:152-154 | Swapping in a new snapshot keeps both on every snapshot, with old auctions still running on the old one |
| SharedBudgets.StepKeeps | apps/bidder/code/cache/budget.go:42-62 | So does every atomic step of any auction or refresh; which snapshot a new auction gets is stated by `RefreshTakesEffect` |
| SharedBudgets.NoOverspend | apps/bidder/code/auction/auction.go:149-196 | For any number of interleaved auctions and snapshot swaps, price times wins never exceeds the positive part of the budget a snapshot started with |
| SharedBudgets.ExactAccounts | apps/bidder/code/cache/budget.go:53-62 | At every step, available is initial minus price times the reservations and wins that stand |
| SharedBudgets.RestAccounts | apps/bidder/code/auction/auction.go:181-196 | Once a snapshot's auctions are over, each budget has lost its price once for each win and nothing else |
| SharedBudgets.OneScanAtATime | apps/bidder/code/cache/budget.go:126-146 | In every run at most one scan is under way, exactly while the flag is set |
| SharedBudgets.OnlyCompleteScans | apps/bidder/code/cache/budget.go:146-154 | Every snapshot after the first starts as the result of a scan that completed |
| SharedBudgets.OneSnapshotPerAuction | apps/bidder/code/cache/budget.go:36-48 | In any run an auction stays with the snapshot and the list it began with, and no snapshot's starting budgets change |
| SharedBudgets.RefreshTakesEffect | apps/bidder/code/cache/budget.go:42-48 | Once a scan is installed, and until the next one is, every auction that begins gets a snapshot that started with exactly the scanned budgets |
| SharedBudgets.FirstReservation | apps/bidder/code/auction/auction.go:150-157 | The first reservation on a snapshot nobody else uses succeeds if and only if the starting budget covers the price |
| SharedBudgets.RefreshRuns | apps/bidder/code/cache/budget.go:126-154 | A request with no refresh under way can be followed through to a new snapshot of the scanned budgets; a scan that fails changes nothing, and the next request starts again |
| SharedBudgets.WinnerIsDearest | apps/bidder/code/auction/auction.go:155-179 | However auctions interleave, the winner is the dearest of the campaigns its auction was granted; there is none only if all of those had a negative price |
| SharedBudgets.AloneChoosesBest | apps/bidder/code/auction/auction.go:149-196 | The step system and the auction run alone agree: without interference the winner is the best campaign the draw picks |
| SharedBudgets.ReservationMeaning | apps/bidder/code/cache/budget.go:53-57 | In every run a reservation succeeds exactly when the budget covers it on top of all standing holds, and exactly when it covers it on top of the wins whenever no run holds the campaign without having won it |
| SharedBudgets.WhoHoldsOnlyWins | apps/bidder/code/auction/auction.go:149-196 | Such are the auctions that are over, and those that have not yet reserved the campaign |
| SharedBudgets.InterferenceRefuses | apps/bidder/code/auction/auction.go:149-196 | The other case is real: an auction ends with no winner although its campaign keeps the whole budget, because another held it for a moment |
| Hashing.Buffer.Append | apps/bidder/code/database/dynamodb/low_level/hash.go:75-81 | Appends in place while there is room, otherwise in a new array; the text is the old one followed by the new |
| Hashing.SumToBuffer | apps/bidder/code/database/dynamodb/low_level/hash.go:75-81 | The buffer holds exactly the sum, whatever it held before |
| Hashing.Hasher.Sha256 | apps/bidder/code/database/dynamodb/low_level/hash.go:31-36 | The digest of the data, even when the data lies in the buffer that receives the result |
| Hashing.Hasher.LoadKey | apps/bidder/code/database/dynamodb/low_level/hash.go:45-57 | Both pads hold the block-sized key, long keys hashed first, nothing left of an earlier key |
| Hashing.XorInPlace | apps/bidder/code/database/dynamodb/low_level/hash.go:58-63 | Every byte of the pad is masked once |
| Hashing.Hasher.HmacSha256 | apps/bidder/code/database/dynamodb/low_level/hash.go:41-71 | Equals HMAC of section 2 of RFC 2104, whatever the pads, hashes and buffers held, even when key or data lies in the result's array |
| Hashing.HmacKeys | apps/bidder/code/database/dynamodb/low_level/hash.go:45-57 | A key longer than a block signs like its hash, and a key with zeros appended up to a block signs like the key |
| Hashing.HmacMeaning | apps/bidder/code/database/dynamodb/low_level/hash.go:41-71 | The standard's own form: one digest inside another, each over a 64-byte block in which the key, hashed if longer and filled up with zeros, is combined bit by bit with 0x36 or 0x5c |
| SigningSpec.HexRoundTrip | apps/bidder/code/database/dynamodb/low_level/signer.go:196-200 | Hexadecimal text has two digits a byte and reads back |
| SigningSpec.HexDigits | apps/bidder/code/database/dynamodb/low_level/signer.go:196-200 | The digits are those of 0123456789abcdef, in lower case |
| SigningSpec.DecimalRoundTrip | apps/bidder/code/database/dynamodb/low_level/signer.go:116-118 | The content length is written in decimal digits without a leading zero, and reads back |
| SigV4.CanonicalRequestIsCanonical | apps/bidder/code/database/dynamodb/low_level/templates.go:58-87 | The rendered template is the standard's canonical request for the very list of headers the request carries, with a session token and without |
| SigV4.StringToSignIsToSign | apps/bidder/code/database/dynamodb/low_level/templates.go:44-56 | Algorithm, time, credential scope and the hash of the canonical request, in this order |
| SigV4.SigningKeyIsChained | apps/bidder/code/database/dynamodb/low_level/signer.go:160-163 | The signing key is the secret hashed with the parts of the credential scope one after the other, the same list the string to sign names |
| SigV4.HeaderIsAuthorization | apps/bidder/code/database/dynamodb/low_level/templates.go:89-105 | The authorization header names exactly the headers that are sent, the session token among them if there is one |
| SigV4.SignedAsExpected | apps/bidder/code/database/dynamodb/low_level/signer.go:70-108 | For every account, body and time the authorization equals what a service computes by the standard from the headers the request carries, and the date and token sent are among those headers |
| SigV4.HeadersSorted | apps/bidder/code/database/dynamodb/low_level/get.go:46-51 | The signed headers are in strictly ascending order of their names, as the standard asks |
| Signer.Execute | apps/bidder/code/database/dynamodb/low_level/signer.go:110-132 | The template buffer holds the rendered template and nothing of its earlier contents |
| Signer.HexToBuffer | apps/bidder/code/database/dynamodb/low_level/signer.go:196-207 | The hexadecimal buffer holds the data's digits at exactly twice its length, reallocated or not |
| Signer.DayKey | apps/bidder/code/database/dynamodb/low_level/signer.go:160-163 | The four links of the key derivation, each overwriting the buffer its key lies in, give the SigV4 signing key |
| Signer.Signer.DeriveKey | apps/bidder/code/database/dynamodb/low_level/signer.go:160-170 | Key and day are copied to arrays of their own, so later calls cannot change them |
| Signer.Signer.BuildSignature | apps/bidder/code/database/dynamodb/low_level/signer.go:157-174 | Signs under the key of this request's day, whichever day was cached |
| Signer.Signer.BuildCanonicalString | apps/bidder/code/database/dynamodb/low_level/signer.go:110-132 | The template buffer holds the canonical template filled with this body hash, time and length; `CanonicalRequestIsCanonical` says what that is |
| Signer.Signer.BuildStringToSign | apps/bidder/code/database/dynamodb/low_level/signer.go:134-155 | The same for the string to sign; `StringToSignIsToSign` says what it is |
| Signer.Signer.BuildAuthHeader | apps/bidder/code/database/dynamodb/low_level/signer.go:176-194 | The same for the authorization header of this signature and day; `HeaderIsAuthorization` says which headers it names |
| Signer.Signer.SignRequest | apps/bidder/code/database/dynamodb/low_level/signer.go:70-108 | Whatever earlier calls left in six shared buffers and the key cache, the headers are a function of account, body and time alone, namely the one `SignedAsExpected` proves right |
| Signer.SignAll | apps/bidder/code/database/dynamodb/low_level/signer.go:70-108 | Any sequence of requests over any days, on a signer in any state, gets for each request the headers a new signer gives |
| BudgetCodec.LittleEndianRoundTrip | tools/datagen/pkg/generator/budget.go:130-135 | Eight little-endian bytes keep every unsigned 64-bit value |
| BudgetCodec.BudgetRoundTrip | apps/bidder/code/database/dynamodb/repositories/budget/unmarshall_budget.go:26-35 | Writer and reader are inverses both ways, for every signed amount and every 24 bytes |
| BudgetCodec.BudgetLayout | tools/datagen/pkg/generator/budget.go:130-135 | Byte by byte: the 16 bytes of the identifier, then the amount in two's complement, its lowest byte first |
| BudgetCodec.BudgetsRoundTrip | apps/bidder/code/database/dynamodb/repositories/budget/unmarshall_budget.go:20-37 | A whole batch reads back in order |
| BudgetCodec.BudgetBatchCompress | tools/datagen/pkg/generator/budget.go:124-138 | The bytes and the count of a batch, as the reader expects them |
| BudgetCodec.UnmarshallBudgetAttributes | apps/bidder/code/database/dynamodb/repositories/budget/unmarshall_budget.go:14-37 | A missing attribute or a length off by a fraction of a budget is refused before anything is consumed; otherwise every budget is consumed in order, up to the first the consumer refuses |
| BudgetCodec.ChunksMeaning | tools/datagen/pkg/generator/budget.go:38-60 | Only the last batch may be short, none is empty, and together they are all budgets in order; without a positive batch size there is one batch |
| BudgetCodec.BudgetGenerator | tools/datagen/pkg/generator/budget.go:33-60 | The loop writes exactly the numbered batches of one budget for each key |
| BudgetCodec.Resolve | tools/datagen/pkg/generator/shared.go:92-149 | Which value every missing or disordered setting is replaced by; the result is fit for the generator exactly if the highest key is not the largest number |
| BudgetCodec.AmountRange | tools/datagen/pkg/generator/budget.go:41 | The range of amounts is right for every setting, the largest maximum included, where both 64-bit wraps cancel |
| BudgetCodec.BudgetOfMeaning | tools/datagen/pkg/generator/budget.go:39-44 | The amount is the draw wrapped into the range: congruent to it from the minimum up, so that every amount of the range is some draw's |
| KeyRange.LoopEndsIff | tools/datagen/pkg/generator/budget.go:38 | The loop over keys ends if and only if the highest key is below the largest 64-bit number |
| KeyRange.VisitsEachKey | tools/datagen/pkg/generator/audience.go:48 | Until then it visits each key of the range once, in order |
| BudgetCodec.BudgetPipelineRoundTrip | tools/datagen/pkg/generator/budget.go:33-60 | Reading the records in order gives every key from lowest to highest once with the amount it was given; batches are full up to the last; ids run 1, 2, 3 |
| Audience.Config.Resolve | tools/datagen/pkg/generator/shared.go:99-120 | Which value each bound gets, whatever the settings; 0 <= min <= max <= largest id exactly when neither count was negative |
| Audience.CountMeaning | tools/datagen/pkg/generator/audience.go:35-37 | The number of audiences is the seed wrapped into the range of counts, and every count of the range is some seed's |
| Audience.NumbersDistinctIff | tools/datagen/pkg/generator/audience.go:35-42 | The numbers of one seed are distinct if and only if the 64-bit sum does not wrap, or 2^64 is a multiple of the limit, or no more are drawn than 2^64 leaves over |
| Audience.NumbersRepeatExample | tools/datagen/pkg/generator/audience.go:35-42 | The exception is real: the largest seed with a limit of three repeats a number at once |
| Audience.AudiencesSlice | tools/datagen/pkg/generator/audience.go:35-42 | The loop fills the list with the keys of exactly those numbers |
| Audience.AudiencesConcat | tools/datagen/pkg/generator/audience.go:25-32 | A device gets the same keys one after the other |
| Audience.AudiencesDistinctIff | tools/datagen/pkg/generator/audience.go:35-42 | With an injective cipher a campaign lists no audience twice under exactly that condition |
| Audience.TransposeMeaning | tools/datagen/pkg/generator/audience.go:64-93 | A campaign is listed under an audience if and only if the audience is in the campaign's list |
| Audience.ListingInOrder | tools/datagen/pkg/generator/audience.go:64-75 | Later records are listed behind earlier ones, a campaign as often as it names the audience |
| Audience.ListingDistinct | tools/datagen/pkg/generator/audience.go:64-93 | No campaign appears twice under one audience when campaigns and their lists have no repeats |
| Audience.ReverseIndex.Add | tools/datagen/pkg/generator/audience.go:64-75 | The audience's record gains the campaign at its end, new or not; every other record stays as it was |
| Audience.ReverseIndex.Process | tools/datagen/pkg/generator/audience.go:79-93 | One record for each audience mentioned, no two for the same, each with its full listing, in whatever order the map is walked |
| Audience.ReversedAudienceGenerator | tools/datagen/pkg/generator/audience.go:45-54 | One item for each key of the range, in order |
| Audience.GeneratorTransposes | tools/datagen/pkg/generator/audience.go:45-93 | Generator and index together list each campaign under exactly its own audiences |
| Audience.GeneratorListsOnceIff | tools/datagen/pkg/generator/audience.go:45-93 | No campaign appears twice under any audience if and only if no key of the range repeats a number |
| WriteBuffer.DynamoTableConn.AddToBuffer | tools/datagen/pkg/generator/dynamodb.go:186-191 | The item waits behind all others |
| WriteBuffer.DynamoTableConn.FlushBatchFromBuffer | tools/datagen/pkg/generator/dynamodb.go:202-233 | The oldest 25 items are sent, or all if there are fewer; an error leaves the buffer as it was; unprocessed items of the own table wait again at the end |
| WriteBuffer.DynamoTableConn.PutBuffered | tools/datagen/pkg/generator/dynamodb.go:170-177 | Sends a batch as soon as 25 items wait |
| WriteBuffer.DynamoTableConn.FlushBuffer | tools/datagen/pkg/generator/dynamodb.go:193-200 | Returns nil only with an empty buffer, and an error only after a failed request |
| WriteBuffer.RunConserves | tools/datagen/pkg/generator/dynamodb.go:170-233 | For any interleaving of puts, ticks and answers, the items put are those stored, those waiting, and those returned under a foreign table, each once |
| WriteBuffer.ConservedIff | tools/datagen/pkg/generator/dynamodb.go:221-230 | Every item put is stored or waiting if and only if no answer ever names another table |
| WriteBuffer.ForeignItemIsLost | tools/datagen/pkg/generator/dynamodb.go:221-225 | The other case is real: an item returned under another name is neither stored nor waiting |
| WriteBuffer.ReturnedMeaning | tools/datagen/pkg/generator/dynamodb.go:221-230 | Which of the unprocessed items wait again, and that they keep their order |
| WriteBuffer.FirstPutFirstSent | tools/datagen/pkg/generator/dynamodb.go:170-233 | While nothing comes back, the items put first are sent first and the rest wait in order, over any run |
| Histogram.BucketIff | tools/load-generator/code/load_generator/histogram.go:29-34 | A latency is counted in the bucket that holds it if and only if it is not below the first edge; otherwise in the last bucket |
| Histogram.Histogram.Add | tools/load-generator/code/load_generator/histogram.go:24-40 | Counts and total go on representing the latencies added so far |
| Histogram.Histogram.Merge | tools/load-generator/code/load_generator/histogram.go:44-69 | Succeeds exactly for equal edges, and then the counts are those of all latencies; the total is replaced, so it is right exactly when the receiver was empty; after an edge mismatch the counts before it have been added |
| Histogram.TallyAppend | tools/load-generator/code/load_generator/histogram.go:58-64 | Adding counts bucket by bucket counts the latencies of both sides together |
| Aggregator.EnsureHistogramCompatibility | tools/report-aggregator/aggregator.go:108-124 | Accepts exactly the inputs whose edges are all the same |
| Aggregator.AggregateHistograms | tools/report-aggregator/aggregator.go:126-139 | Counts are summed edge by edge, and the total is the sum of all counts |
| Aggregator.HistogramPercentile | tools/report-aggregator/aggregator.go:142-155 | The edge of the first bucket by which the rank is reached, zero if it never is |
| FloatRank.FloatRankExact | tools/report-aggregator/aggregator.go:144 | For the percentiles the report uses and totals up to 2^45, the rank computed in double precision, with rounding to nearest, is the exact one |
| FloatRank.RoundsToInteger | tools/report-aggregator/aggregator.go:144 | A number within a 2^54th part of an integer is rounded to that integer, whichever way ties go |
| Aggregator.PrefixBelow | tools/report-aggregator/aggregator.go:146-152 | The counts before an edge are exactly the latencies below it |
| Aggregator.MergedTally | tools/report-aggregator/aggregator.go:126-139 | Merging reports counts the latencies of all runs together |
| Aggregator.PercentileMeaning | tools/report-aggregator/aggregator.go:142-155 | The percentile of merged reports is the lower edge of the bucket that holds the latency of that rank in ascending order over all runs |
| Cache.MergesAll | apps/bidder/code/database/dynamodb/scan.go:38-55 | Whatever the interleaving of the segments, the consumer gets every item once |
| Cache.Campaign.Consume | apps/bidder/code/cache/campaign.go:43-52 | Keeps: an id leads to a campaign that has it, the last one scanned, and every campaign's id leads somewhere |
| Cache.Campaign.GetIndex | apps/bidder/code/cache/campaign.go:29-32 | A found index is in range and its campaign has the id; nothing is found exactly when no campaign has it |
| Cache.NewCampaign | apps/bidder/code/cache/campaign.go:40-65 | The cache holds the valid campaigns in scan order, coherently indexed; a failed scan gives none |
| Cache.ValidOnesMeaning | apps/bidder/code/cache/campaign.go:43-52 | A scanned campaign is kept as often as it was scanned if it is valid, and not at all if it is not |
| Cache.ValidOnesInOrder | apps/bidder/code/cache/campaign.go:43-52 | The ones kept stay in the order of the scan |
| Cache.NewAudience | apps/bidder/code/cache/audience.go:31-53 | The loops build the map described below; a failed scan gives none |
| Cache.IndicesMeaning | apps/bidder/code/cache/audience.go:35-39 | An index is listed if and only if some listed id leads to it |
| Cache.IndicesInOrder | apps/bidder/code/cache/audience.go:34-39 | Known ids keep their order and unknown ones leave no gap |
| Cache.LastItemCounts | apps/bidder/code/cache/audience.go:40 | An audience has the list of its last item |
| Cache.OnlyScannedAudiences | apps/bidder/code/cache/audience.go:33-43 | Nothing is in the map but audiences that were scanned |
| Cache.AudienceInRange | apps/bidder/code/cache/audience.go:31-53 | No cached list leads outside the campaign cache |
| Cache.AuctionIndicesInRange | apps/bidder/code/auction/auction.go:124-146 | So whatever audiences a device has, the auction's indices are in range and distinct, which is what reservation and lookup need |
| Cache.ScanState | apps/bidder/code/cache/budget.go:156-179 | Each position holds the sum of its campaign's budget records, unknown campaigns are skipped, and a failed scan installs nothing |
| Cache.ScanOrderDoesNotMatter | apps/bidder/code/cache/budget.go:156-179 | Two scans of the same segments agree, however the parallel workers interleave |
| Cache.GeneratedBudgetArrives | tools/datagen/pkg/generator/budget.go:33-60 | From generator to auction: bytes written, read and scanned in any order give each cached campaign exactly the amount drawn for its key |

## Left out

- Compression (zstd), MD5, SHA-256, AES and KSUID generation: abstract functions with the stated result sizes.
- HTTP servers, request parsing and response building, metrics, logging, configuration and deployment files: no state worth proving.
- The AWS, DAX and Aerospike clients, their time-outs and credentials: their answers are arbitrary values.
- Wall-clock time, back-off and ticker periods: events that may come at any moment.
- Overflow of run numbers, budgets and counters beyond 64 bits: numbers are unbounded except where a wrap is modelled (`Audience`, `BudgetCodec`).
- The largest 64-bit number as highest key: the generators' methods exclude it, because the loop does not end (KeyRange.LoopEndsIff).
- A panic in the retry loop's lookup ends that step system's run: `Pipeline` has no step for it, `Flush.Send` reports it as an outcome.
- The pointers from the aggregate into the compiler's reused record slice, and the copy of message bytes into entry data: record lists and entry data are values in `Compiler`.
- Message buffers are identities with contents in `Pipeline`; their reuse is tracked by ownership, not by overwriting bytes.
- Channels that callers and goroutines read one item at a time are sequences in the data generators, and queues in `Pipeline`.
- Parsing of bracketed template tags: templates are lists of literal parts and holes, so a host, region or token containing brackets is not covered.
- Percentiles other than 50, 90, 95 and 99, and totals above 2^45: there the rank in double precision is not compared with `Rank`, the exact ceiling.
- Report aggregation other than histograms, result files and t-digest latencies: sums and library calls.
- The hexadecimal map keys of the reverse index: audiences are the keys themselves, which is the same by `HexRoundTrip`.
- A scan worker's race on the shared error variable: any failed worker fails the scan.
- Stopping the budget refresh and the ticker goroutine of the write buffer: nothing waits on their state.
- The copy of the auction that asks a model server over the network: it repeats the auction with a foreign call.
- PipelineTheorems.PoolsSound: does not promise that every object is returned, because the code leaves some to the garbage collector; PipelineHistory.LosesOnly says which.
- PipelineTheorems.CloseSettlesAll: needs a flush worker, because without one the claim is false; CloseSettlesIff gives the exact condition.
- Aggregator.PercentileMeaning: needs latencies at or above the first edge, because lower ones are counted in the last bucket; BucketIff gives the exact condition for each latency.
