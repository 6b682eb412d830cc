# Relayscan, verified

Relayscan watches the relays of Ethereum's block-builder market. It backfills the payloads that relays
say they delivered into a Postgres table, checks on chain whether they were paid for, aggregates them into
daily statistics and a website, and archives the bids that are made while a slot is auctioned off. This
project models the stateful algorithms behind that and proves what they keep over whole runs: against
relays that grow while they are paged through, for every interleaving of channels, threads and workers, and
for every order in which Go ranges over a map.

`dafny verify dfyconfig.toml` checks everything.

## How it is built

Code that updates state is a class or a method with loops, proved against a specification function or a
predicate over its history; the theorems are lemmas about those. The modules follow the program:

- **Backfill** — `Database` (tables, first-wins insert in chunks), `Backfill` (the paging loop), `BackfillCycles`
  (many runs over many relays), `BackfillCuts` (runs cut off by a failing request).
- **Bids** — `Decimal`, `Bids` (keys and values), `BidHistory` (what the caches and files must hold after any
  history of arrivals and evictions), `OutputFiles`, `BidProcessor`, `ProcessorLocks`, `Collector`.
- **Payment check** — `PaymentCheck` (one entry), `WorkerPool` (the producer and its workers, as steps),
  `PoolSchedules` (which schedules there are), `Recheck` (repeated passes).
- **Statistics** — `SlotTime`, `BuilderGroups`, `LineSets` (sets kept as text), `BuilderStats`, `StatsRuns`,
  `StatsWindows` (adjoining and repeated runs), `BucketTexts` (when such a text is the set), `StoredTexts` (why its
  values are lines).
- **Website** — `Grouping`, `NamedTotals`, `Consolidate`, `ConsolidateProfits`, `Aggregations` (when it agrees with the
  statistics).
- **Around them** — `Bytes`, `UltrasoundStream` (wire format), `ExtraData`, `SseFanout`, `GetHeaderPoller`; `GoArith`,
  `Sequences`, `Substrings` and `Wrappers` are helpers.

`BidProcessor.Valid` is the invariant that every batch and every housekeeping pass keeps. It says that
`topBidCache` holds for each slot the earliest bid of maximal value among all bids ever processed
(`TopMatches`), that `bidCache` holds exactly the keys that arrived since the slot was last evicted
(`CacheMatches`), that every open handle belongs to the file of its hour bucket (`HandlesOpen`), and that every
file holds, after what was in it before, exactly the lines its history calls for (`FilesMatch`).

## What is assumed

- A relay answers `cursor=c` with payloads of slots up to `c`, slot-descending, cut off at 100; slots start at 1
  and fewer than 100 payloads share one; new payloads only appear above the current maximum
  (`Backfill.RelayContract`). Without it the paging loop need not end, so the method requires it.
- Chain answers are a function of the request and do not change between two passes; the second execution
  node is part of that answer. Errors on which the worker exits the program itself are outside the model; its
  panic on a contract creation is inside.
- For repeated passes (`Recheck`): rows of one slot agree on block hash, claim, fee recipient and block number, and a
  default pass selects all pending rows. Nil headers and crashes are allowed; then the pass saves nothing.
- The beacon node answers a request for the duties of an epoch with duties of that epoch.
- For the only-if half of `BackfillCuts.CutOffExactly`, slot, parent hash and block hash name one payload.
- Subscriber ids (random UUIDs) do not collide with those of registered subscribers.
- A table row that the profit query reports has at least one block, since it is a group of rows.

## What turned out differently than one might expect

- **A failed request can leave a permanent gap.** A run that fails after it stored a page moves "latest slot in
  DB" up, and the next run stops there. `BackfillCuts.CutOffExactly`: wherever it is cut off after its first answer,
  the table stays gap-free, if and only if at most one page of payloads is missing when the run begins.
  `BackfillCycles.FetchErrorLeavesAGap` gives a relay with 150 payloads of which one stays missing.
- **Gap-freedom does not need cursor 0.** `BackfillCycles.RunKeepsGapFree` has no condition on the initial cursor.
- **A contract creation as last transaction** of a confirmed block whose balance check fails makes the worker
  dereference a nil address (`cmd/core/check-payload-value.go:338`), and nothing recovers the panic.
  `PaymentCheck.CrashExactly` is the condition, `WorkerPool.ProgressExactly` its consequence: every interleaving can be
  carried on to completion if and only if no wanted entry crashes. `PoolSchedules.ContractCreationStopsThePool` is an
  input.
- **Slot-mates of other relays are overwritten**, as the update of the payment check hits all rows of the slot. With
  two or more workers, and no entry that crashes, all complete schedules leave the same table if and only if entries
  of one slot write the same columns (`PoolSchedules.ScheduleIndependentExactly`); with one worker they always do
  (`PoolSchedules.OneWorkerIsSequential`). `PoolSchedules.DisagreeingRelays` shows both on two rows.
- **Which bid is the cached top bid** is independent of how the three sources interleave, if and only if the first
  maximal bids of the sources that hold one coincide (`Collector.TopBidIdentity`); its value always is. Two bids of
  one value from one source do not compete (`Collector.EqualBidsOfOneSource`), from two sources they do
  (`Collector.EqualBidsOfTwoSources`).
- **Deduplication is a set of tuples** if and only if no two arrivals of a tuple have an eviction of their slot between
  them (`BidHistory.DedupExactly`); `BidHistory.LateBidIsWrittenTwice` is an input.
- **"bob the builder" collides with its own group.** An ungrouped entry of that name overwrites the group's
  total. Blocks are conserved for every order of the groups, if and only if no member of the group with blocks
  precedes such an entry (`Consolidate.ConservedForEveryOrder`); if no text of the day is
  in two groups, the website agrees with the daily statistics under the same condition
  (`Aggregations.AggregationsAgreeExactly`), and for every order of the maps only then (`Aggregations.AgreeForEveryOrder`).
  What is shown partitions what came in if and only if such a member and such an entry are not both there, in either
  order (`Consolidate.PartitionForEveryOrder`). `Consolidate.BobLosesBlocks` gives an input;
  `BuilderGroups.OnlyBobCollides` shows that no other name can do this.
- **The substring test on extra data is not a set.** The text lists exactly the values if and only if no value is a
  suffix of an earlier one without having come up before (`LineSets.ExactlyWhenSuffixesComeFirst`), and it does so
  for every order of the range over the slots if and only if no text of the bucket is a proper suffix of another
  (`BucketTexts.ExtraDataExactly`). Pubkeys have one length, so for them the text is an exact set.
- **Runs of the stats command need not compose, nor be idempotent.** Of several rows of a slot the last one of an
  answer counts, and the query leaves their order open. Adjoining windows compose, and reruns change no keys and
  counts, for all runs, if and only if every slot of the window has one filing: its rows agree on the pubkey, no text is
  in two groups, and their texts have the same name (`StatsWindows.WindowsComposeExactly`, `RerunExactly`,
  `OneFilingMeans`). `StatsWindows.UncheckedMateClashes` is an input: one payload of two relays, checked for the first and
  backfilled later for the second, so that its extra data is still empty.
- **The sign of `value_delivered_diff_wei`.** The migration's comment says delivered minus claimed
  (`database/migrations/001_init_database.go:71`); the code stores claimed minus delivered
  (`cmd/core/check-payload-value.go:331`). The model follows the code.

## Model

| member | source | states |
|---|---|---|
| Database.InsertAllFirstWins | database/database.go:70-100 | Inserting one by one with ON CONFLICT DO NOTHING appends exactly the first entry of every key (relay, slot, parent hash, block hash) that the table did not have, in order. |
| Database.InsertAllSplit | database/database.go:81-98 | Cutting the list anywhere and inserting the parts one after the other gives the same rows. |
| Database.InsertAllUnique | database/migrations/001_init_database.go:81-81 | The unique index is never violated by an insert. |
| Database.InsertAllCount | database/database.go:92-99 | The table grows by exactly the number of distinct new keys. |
| Database.PayloadStore.SaveDataAPIPayloadDeliveredBatch | database/database.go:70-100 | Saving in chunks leaves the rows of one-by-one insertion; rowsAffected is the exact growth and the number of new keys; the statements tile the list. |
| Database.PayloadStore.InsertStatement | database/database.go:75-90 | One statement needs at most 65535 parameters, which every chunk of 3000 entries with 15 columns meets. |
| Database.StatementsNeeded | database/database.go:75-90 | There are as few statements as chunks of 3000 allow. |
| Database.PayloadStore.SaveBuilder | database/database.go:55-59 | The builder is in the table afterwards, once, and no other builder is added or lost. |
| Database.LatestSlot | database/database.go:102-107 | The largest slot of the relay's rows, which is one of its rows, or 0 if it has none. |
| Backfill.StepKeepsInv | cmd/core/data-api-backfill.go:145-211 | Every iteration keeps: the cursor is the lowest slot received, every received slot is completely stored up to what the first view had, everything of the first view above the cursor is stored, and every new row comes from the relay. |
| Backfill.StepProgress | cmd/core/data-api-backfill.go:145-230 | An iteration that goes on leaves strictly fewer slots of the first view, at or below its top, that were not received, even if the relay has grown meanwhile. |
| Backfill.NothingNewMeansAll | cmd/core/data-api-backfill.go:213-217 | A page without a new slot proves that the page holds everything the relay has at or below the cursor. |
| Backfill.StopIsComplete | cmd/core/data-api-backfill.go:213-229 | Whichever of the three stop conditions ends the loop, every payload of the first view, within the initial cursor and from max(latest in DB, min slot) on, is stored. |
| Backfill.BackfillIsComplete | cmd/core/data-api-backfill.go:124-231 | Against a relay that may grow at every request the loop ends; a return through a stop condition is complete in that sense; earlier rows stay untouched; every new row has all columns of a payload received, unchecked; and the builders saved are exactly those of the payloads received, all of the first view and all stored. |
| Backfill.RunStoresReceived | database/typesconv.go:12-42 | What a run leaves in both tables, column by column: pubkey, fee recipient, value and, if above 0, block number of a payload received, and nothing that only the payment check knows. |
| Backfill.RequestsAreBounded | cmd/core/data-api-backfill.go:213-229 | A run stops in time: it makes at most one request more than the first view has slots within the cursor and both bounds. |
| Backfill.Backfiller.ReadPage | cmd/core/data-api-backfill.go:160-190 | The loop over a page yields one table entry per payload in order, the lowered cursor, the slots and builders seen, and reports no new payload exactly if all slots were known. |
| Backfill.Backfiller.SaveBuilders | cmd/core/data-api-backfill.go:205-211 | For every order of the range over the builders, exactly they are added. |
| Backfill.Backfiller.Iterate | cmd/core/data-api-backfill.go:145-230 | One iteration, with its early returns, is one step of the specified run: same cursor, slots, builders, table and way of ending. |
| Backfill.Backfiller.BackfillPayloadsDelivered | cmd/core/data-api-backfill.go:124-231 | The imperative loop leaves exactly the table, builders and outcome of the run that BackfillIsComplete is about. |
| BackfillCycles.RunKeepsGapFree | cmd/core/data-api-backfill.go:129-230 | "The table holds every payload of the relay from lo to the latest stored slot" is kept by every run that returns through a stop condition with a min slot not above lo or the latest stored slot, for any initial cursor, and by runs that fail before storing anything above that slot. |
| BackfillCuts.CutOffExactly | cmd/core/data-api-backfill.go:145-156 | For a run that gets its first answer, said before it begins: at whatever later request it is cut off it keeps the table gap-free, if and only if at most a page of payloads is missing within the initial cursor, above the latest stored slot and from lo on. |
| BackfillCuts.OnePageLeavesNoGap | cmd/core/data-api-backfill.go:145-230 | If at most a page is missing, no failure after the first answer leaves a gap. |
| BackfillCuts.SecondFailureLeavesAGap | cmd/core/data-api-backfill.go:145-156 | If more than a page is missing, a failure of the second request leaves a gap, as does stopping after the first page; with a min slot not above lo the run does ask again and fails. |
| BackfillCycles.FetchErrorGap | cmd/core/data-api-backfill.go:153-156 | For any run that failed with its cursor above the latest slot it started from: the table it left is gap-free if and only if the relay has nothing strictly between the two and nothing missing at the cursor. |
| BackfillCycles.FetchErrorLeavesAGap | cmd/core/data-api-backfill.go:129-156 | A concrete relay: the first run fails after one page, the second returns through a stop condition, and a payload below the latest stored slot is still missing. |
| BackfillCycles.OtherRelaysKept | cmd/core/data-api-backfill.go:94-101 | A run for one relay leaves what is known about every other relay as it is. |
| BackfillCycles.RunBackfill | cmd/core/data-api-backfill.go:74-106 | After one call every relay has been asked, whether or not earlier ones failed, and for every relay of which no request failed all payloads it held at its first request, within cursor and bounds, are in the table; the world left is that of the sequence of those runs. |
| BackfillCycles.CycleReachesAll | cmd/core/data-api-backfill.go:94-101 | In a cycle the runs before a relay's own leave its requests and its latest stored slot as they were, and the runs after it take nothing away. |
| BackfillCycles.CyclesKeepGapFree | cmd/core/data-api-backfill.go:74-230 | Any sequence of runs of any relays keeps a relay gap-free if its own runs are harmless, whatever happens to the others. |
| BackfillCycles.RunnerIsGapFree | cmd/service/backfill_runner.go:121-121 | From an empty table, cycles with one min slot and no failed request of a relay leave every payload from the min slot to its latest stored slot in the table. |
| Bids.UniqueKeyInjective | services/bidcollect/types/types.go:59-61 | With hyphen-free hashes and pubkeys two bids have the same key exactly if slot, block hash, parent hash, pubkey and value agree. |
| Bids.KeyText | services/bidcollect/types/types.go:59-61 | What the key of a bid looks like. |
| Decimal.ParsePrint | services/bidcollect/types/types.go:63-67 | Parsing the decimal print of a number gives the number. |
| Decimal.BigIntOfPrint | services/bidcollect/types/types.go:63-67 | So does the conversion that bid values go through. |
| BidHistory.RecordBeatsTop | services/bidcollect/bid-processor.go:105-115 | Comparing a bid with the cached top bid alone decides whether it exceeds every earlier bid of its slot. |
| BidHistory.TopLinesEndInTopBid | services/bidcollect/bid-processor.go:105-115 | For every history and slot the top-file lines are exactly the strict left-to-right maxima, with increasing values, and the last one is the earliest bid of maximal value. |
| BidHistory.NewIffNotLive | services/bidcollect/bid-processor.go:117-122 | A bid gets a line in the all-file exactly if its key has not arrived since its slot was last evicted. |
| BidHistory.RepeatedLineNeedsEviction | services/bidcollect/bid-processor.go:117-122 | In arbitrary runs two lines with the same tuple always have an eviction of that slot between them. |
| BidHistory.EveryArrivalHasALine | services/bidcollect/bid-processor.go:143-148 | No bid is lost: every arrival has a line with its tuple, its own or an earlier one with no eviction of the slot in between. |
| BidHistory.NewIsFirstArrival | services/bidcollect/bid-processor.go:117-122 | If no two arrivals of a tuple have an eviction of their slot between them, a bid is written exactly if it is the first of its tuple. |
| BidHistory.DedupExactly | services/bidcollect/bid-processor.go:117-148 | The all-file has exactly one line per distinct tuple, its first arrival, if and only if no two arrivals of a tuple have an eviction of their slot between them. |
| BidHistory.LateBidIsWrittenTwice | services/bidcollect/bid-processor.go:245-252 | A bid that arrives again after its slot was evicted is written twice. |
| BidHistory.DedupIsASetOfTuples | services/bidcollect/bid-processor.go:117-148 | So it has if no bid arrives for a slot that housekeeping has dropped. |
| OutputFiles.BucketContainsReceiveTime | services/bidcollect/bid-processor.go:160-163 | The bucket of a bid is a full hour that contains its receive time. |
| BidProcessor.BidProcessor.GetFiles | services/bidcollect/bid-processor.go:159-226 | Both handles returned are open on the files of the bid's bucket, files already open are reused, and opening or reopening adds no bid line and only a missing header. |
| BidProcessor.BidProcessor.OpenWithHeader | services/bidcollect/bid-processor.go:181-196 | An empty or new file gets its header and any other file stays as it is; the new handle does not disturb handles that are open. |
| BidProcessor.BidProcessor.WriteBidToFile | services/bidcollect/bid-processor.go:137-157 | Exactly the lines asked for are appended, to the two files of the bid's own bucket, through open handles; every other file keeps its bids. |
| BidProcessor.BidProcessor.UpdateCaches | services/bidcollect/bid-processor.go:99-122 | Both caches after one bid, and the two flags: top exactly if the slot had no bid or the value is larger, new exactly if the key was not cached, and else the cache is as before. |
| BidProcessor.BidProcessor.ProcessBids | services/bidcollect/bid-processor.go:94-135 | A batch appends its bids to the history in order and keeps caches, open handles and file contents equal to what the history calls for. |
| BidProcessor.BidProcessor.EvictBids | services/bidcollect/bid-processor.go:245-252 | For every order of the range over the cache, exactly the slots below the bound are gone. |
| BidProcessor.BidProcessor.CloseFiles | services/bidcollect/bid-processor.go:254-266 | For every order of the range over the files, exactly the handles of buckets that began more than two hours ago are closed and forgotten, and all others stay open. |
| BidProcessor.BidProcessor.Housekeeping | services/bidcollect/bid-processor.go:236-272 | Keeps the slots from currentSlot - 3 on and drops all others; the files of bids of the last hour stay open, and those of bids received more than two hours ago are closed, both handles; keeps the same invariant; the top-bid cache and all file contents stay. |
| BidProcessor.InUse | services/bidcollect/bid-processor.go:254-262 | The bucket of a bid received within the last hour is not stale. |
| BidProcessor.OutOfUse | services/bidcollect/bid-processor.go:254-262 | The bucket of a bid received more than two hours ago is. |
| BidProcessor.TopStep | services/bidcollect/bid-processor.go:105-115 | Updating the top-bid cache keeps it the earliest maximum of the whole history, and a top line is due exactly for a record. |
| BidProcessor.CacheStep | services/bidcollect/bid-processor.go:101-122 | Updating the bid cache keeps it the set of live keys, and a line in the all-file is due exactly for a key not in it. |
| BidProcessor.EvictionStep | services/bidcollect/bid-processor.go:245-252 | Dropping slots from the bid cache is the eviction of the history; it changes neither top bids nor lines. |
| BidProcessor.FilesStep | services/bidcollect/bid-processor.go:143-156 | Writing what the caches decided keeps every file equal to its earlier contents followed by the lines of its kind and bucket. |
| BidProcessor.FilesHold | services/bidcollect/bid-processor.go:143-156 | Under the invariant the all-file of a bucket holds, behind what was in it, the lines due for new bids of the bucket, and the top-file those due for top bids. |
| ProcessorLocks.RunsKeepInv | services/bidcollect/bid-processor.go:94-269 | In every interleaving of the two calls the locks hold exactly the threads whose position says so, and outFilesLock is only held inside bidCacheLock. |
| ProcessorLocks.NeverBlocked | services/bidcollect/bid-processor.go:95-269 | No deadlock: in every reachable state the thread inside bidCacheLock can take its next step, and if there is none every thread can enter. |
| ProcessorLocks.CallsAreAtomic | services/bidcollect/bid-processor.go:94-269 | At most one thread is inside either call, so batches and housekeeping passes form one sequential history. |
| Collector.MergeKeepsBids | services/bidcollect/bidcollector.go:96-108 | Every merge of the three channels hands on exactly the bids of the channels, each as often. |
| Collector.BidCollector.Run | services/bidcollect/bidcollector.go:96-108 | The select loop, with arbitrary choices, extends the processor's history by a merge of what it took, and the channels keep the rest in order. |
| Collector.LinesCountKeys | services/bidcollect/bid-processor.go:117-148 | Without eviction the number of lines in the all-file is the number of distinct keys. |
| Collector.OrderIsIrrelevant | services/bidcollect/bid-processor.go:94-135 | Any reordering of the bids leaves the same keys per slot, the same maximal value per slot and as many lines. |
| Collector.InterleavingsConfluent | services/bidcollect/bidcollector.go:96-108 | Any two merges of the same three channel sequences, with any batch boundaries, have the same outcome in that sense. |
| Collector.TopBidIdentity | services/bidcollect/bidcollector.go:96-108 | Over all merges of the three channels, each in its own order: the cached top bid of a slot is always the same if and only if the first maximal bids of the channels that hold one coincide. |
| Collector.CanBeTop | services/bidcollect/bidcollector.go:96-108 | The first maximal bid of any channel is the top bid of some merge. |
| Collector.TopIsFirstOfAChannel | services/bidcollect/bidcollector.go:96-108 | The top bid of any merge is the first maximal bid of some channel. |
| Collector.EqualBidsOfOneSource | services/bidcollect/bidcollector.go:96-108 | Two bids of one message leave no choice of the top bid, even if their values are equal. |
| Collector.EqualBidsOfTwoSources | services/bidcollect/bidcollector.go:96-108 | Two different bids of equal value from two sources do. |
| PaymentCheck.CheckMeaning | cmd/core/check-payload-value.go:277-388 | The value check is made exactly for blocks that are on chain and are the block at their number, and it passes exactly if the fee recipient's balance grew by the claim or the last transaction pays it the claim. |
| PaymentCheck.ClaimLessDelivered | cmd/core/check-payload-value.go:322-387 | Of a confirmed row: delivered is the growth of its fee recipient's balance over the block; the difference is claim minus delivered, or claim minus the last transaction if the balance is off and that pays the fee recipient; the check passes exactly if the difference is 0; and the method and block time. |
| PaymentCheck.TotalsOfBlock | cmd/core/check-payload-value.go:370-435 | Of a confirmed row: the number of blob transactions and the sum of their blobs, the sanitised extra data, and for another coinbase its balance growth plus the sum of what it sent to its builder's addresses. |
| PaymentCheck.FoundOrMissed | cmd/core/check-payload-value.go:277-319 | Found on chain exactly if the block is; missed exactly if another block is at its number; a block number in the row stays; coinbase columns are those of the block; no value columns without confirmation. |
| PaymentCheck.UnsavedExactly | cmd/core/check-payload-value.go:310-314 | A row is left unsaved exactly if its block is found and there is no header at its number. |
| PaymentCheck.CheckIsIdempotent | cmd/core/check-payload-value.go:294-296 | Checking again with the block number that the first check stored gives the same columns. |
| PaymentCheck.CrashExactly | cmd/core/check-payload-value.go:332-338 | The check panics exactly if the block is confirmed, its balance difference is not the claim, and its last transaction creates a contract. |
| PaymentCheck.ContractCreationCrashes | cmd/core/check-payload-value.go:336-338 | A chain and an entry for which it does. |
| PaymentCheck.CompareWithClaim | cmd/core/check-payload-value.go:322-350 | The method, and the difference from the claim: by balance, or by the last transaction if the balance is off and that pays the fee recipient. |
| PaymentCheck.CountBlobs | cmd/core/check-payload-value.go:370-380 | The loop counts the blob transactions and the blobs in them. |
| PaymentCheck.AdjustedBuilderDiff | cmd/core/check-payload-value.go:408-435 | The coinbase's balance difference plus everything its own transactions sent to addresses its builder owns. |
| PaymentCheck.CheckEntry | cmd/core/check-payload-value.go:249-442 | The worker body, filling in columns step by step, saves exactly the columns (or nothing, or crashes) that the specification says. |
| WorkerPool.ExactlyOnce | cmd/core/check-payload-value.go:148-169 | At the end of every complete interleaving each selected entry with slot >= SlotMin, or each at all if SlotMin is 0, was handled as often as selected, and no other, by one worker; the table is that of a sequential pass in the order of completion; and no such entry is one that crashes. |
| WorkerPool.SchedulesAreBounded | cmd/core/check-payload-value.go:148-169 | No interleaving is longer than the work there is. |
| WorkerPool.StuckExactly | cmd/core/check-payload-value.go:148-169 | A reachable state has no next step if and only if it is complete, or the process has crashed, or there is no worker and the producer waits for one. |
| WorkerPool.EndsExactly | cmd/core/check-payload-value.go:148-169 | With at least one worker, every schedule that cannot go on has crashed if some wanted entry crashes, and is complete otherwise. |
| WorkerPool.EveryScheduleCanComplete | cmd/core/check-payload-value.go:148-169 | With at least one worker and no wanted entry that crashes, every interleaving so far can be carried on to completion. |
| WorkerPool.ProgressExactly | cmd/core/check-payload-value.go:148-169 | With at least one worker, every interleaving can be carried on to completion if and only if no wanted entry crashes. |
| WorkerPool.AgreementGivesOneResult | cmd/core/check-payload-value.go:221-245 | If entries of one slot write the same columns, passes in any two orders leave the same table, although each update hits all rows of the slot. |
| WorkerPool.AgreeingRowsAgree | cmd/core/check-payload-value.go:249-388 | Rows of a slot that agree on block hash, claim, fee recipient and block number write the same columns. |
| WorkerPool.ScheduleIndependent | cmd/core/check-payload-value.go:148-245 | Then every complete interleaving of any number of workers leaves the table of a sequential pass in any order. |
| PoolSchedules.OneWorkerIsSequential | cmd/core/check-payload-value.go:150-158 | With one worker, as for a single slot, every complete schedule leaves the table of the sequential pass in the order of selection, whatever the slot-mates say. |
| PoolSchedules.AnyCanBeLast | cmd/core/check-payload-value.go:148-169 | With two or more workers and no crash, any wanted entry can be the last one finished in a complete schedule. |
| PoolSchedules.ScheduleIndependentExactly | cmd/core/check-payload-value.go:221-245 | With two or more workers all complete schedules leave the same table if and only if entries of one slot write the same columns, or there is no complete schedule since an entry crashes. |
| PoolSchedules.DisagreeingRelays | cmd/core/check-payload-value.go:221-245 | Two rows for which the schedule of two workers matters and that of one does not. |
| PoolSchedules.ContractCreationStopsThePool | cmd/core/check-payload-value.go:336-338 | A row and a schedule of two steps that the pool can take and that crash it, with nothing written and nothing left to happen. |
| Recheck.PassRow | cmd/core/check-payload-value.go:134-137 | If rows of one slot agree, a default pass rewrites every row of a slot with a pending row with what the check of that row saves, and leaves all other rows alone. |
| Recheck.PendingAfterPass | cmd/core/check-payload-value.go:277-319 | If rows of one slot agree, the pending rows after a pass are exactly those of slots that had one and whose block is missing or is not the one at its number; rows whose check saves nothing, for a nil header or a crash, are as before. |
| Recheck.SecondPassChangesNothing | cmd/core/check-payload-value.go:103-174 | If rows of one slot agree, a second pass, in any order, leaves the table as it is, even where checks save nothing. |
| Recheck.SecondPoolPassChangesNothing | cmd/core/check-payload-value.go:103-174 | So do two complete runs of the pool, with any numbers of workers and any interleavings, if rows of one slot agree. |
| SlotTime.SlotContainsTime | common/utils.go:94-101 | The slot of a time from genesis on is the last one that has started, in wrapping 64-bit arithmetic. |
| SlotTime.SlotTimeRoundTrip | common/utils.go:94-101 | The slot of the start of a slot is that slot. |
| SlotTime.Genesis | common/utils.go:94-101 | Slot 0 started on 2020-12-01 at 12:00:23 UTC, and slot 1 twelve seconds later. |
| SlotTime.WindowIsExact | cmd/core/update-builder-stats.go:81-97 | The inclusive query range selects exactly the slots that start within the two times. |
| SlotTime.NoSlotAtMidnight | common/utils.go:98-101 | No slot starts at midnight, as genesis is 11 mod 12. |
| SlotTime.DayOwns7200Slots | common/utils.go:98-101 | A full day after genesis owns exactly 7200 consecutive slots. |
| SlotTime.MidnightWindow | cmd/core/update-builder-stats.go:81-97 | Between two midnights the query range is exactly the slots of the days between them. |
| BuilderGroups.BuilderNameFromExtraData | vars/builder_aliases.go:29-36 | In any map order: the name of a group that matches, and the text itself only if none does. |
| BuilderGroups.NameIsUnique | vars/builder_aliases.go:29-36 | On texts in at most one group the map order does not matter. |
| BuilderGroups.OnlyBobCollides | vars/builder_aliases.go:9-26 | "bob the builder" is the one text outside all groups that is named like a group. |
| BuilderGroups.KnownAliases | vars/builder_aliases_test.go:10-13 | The aliases that the repository's test names match their groups, the last one by the regular expression. |
| BuilderGroups.AliasesAreWords | vars/builder_aliases.go:9-26 | Four groups are those whose word is somewhere in the text, and there is no group but the five. |
| BuilderGroups.LooksLikeBobMeans | vars/builder_aliases.go:19-22 | A text is in the fifth exactly if it is a word of the regular expression, as a concatenation of its parts. |
| BuilderGroups.FoobarIsNoAlias | vars/builder_aliases_test.go:11-11 | "foobar" is in no group. |
| LineSets.ContainsLine | cmd/core/update-builder-stats.go:209-210 | The substring test finds a text exactly if it is a suffix of some recorded line. |
| LineSets.AddLineKeepsSound | cmd/core/update-builder-stats.go:209-214 | Recording keeps: no line twice, only texts that were seen, every seen text a suffix of a line. |
| LineSets.SoundIsExactOnFixedLength | cmd/core/update-builder-stats.go:212-214 | With texts of one length the lines are exactly the texts seen, each once. |
| LineSets.ExactlyWhenSuffixesComeFirst | cmd/core/update-builder-stats.go:209-214 | After any values, the text lists exactly them, each once, if and only if every value that is a suffix of an earlier one has itself come up before. |
| LineSets.JoinInjective | cmd/core/update-builder-stats.go:209-214 | The text determines its lines. |
| LineSets.SuffixIsLost | cmd/core/update-builder-stats.go:209-210 | After "ab" the text "b" is not recorded. |
| ExtraData.ExtraDataToUtf8StrInPlace | database/typesconv.go:70-84 | Overwrites exactly the bytes outside 32..126 with spaces, in place, and returns the text of the result. |
| ExtraData.SanitisedText | database/typesconv.go:70-84 | The text has only printable ASCII and so no line break, as many characters as there were bytes; every other byte became a space, and printable input is unchanged. |
| BuilderStats.UpdateByExtraData | cmd/core/update-builder-stats.go:187-214 | Creates the bucket if needed, counts the block and records both texts. |
| BuilderStats.UpdateByPubkey | cmd/core/update-builder-stats.go:196-221 | The same for the pubkey index, whose pubkey text always is its own pubkey. |
| BuilderStats.FileEntry | cmd/core/update-builder-stats.go:174-221 | One round of the loop files the slot in both indexes, under a name that fits its text and under its pubkey, and a day stays in one index exactly if it is in the other. |
| BuilderStats.FiledOk | cmd/core/update-builder-stats.go:174-221 | Filing a slot keeps an index exact: precisely the nonempty buckets of the slots so far, each counting its slots, with sound texts. |
| BuilderStats.FiledAllOk | cmd/core/update-builder-stats.go:174-221 | Filed in any order, an index is exact for its slots. |
| BuilderStats.FillBuckets | cmd/core/update-builder-stats.go:171-222 | For admissible names and some order of all slots, the two indexes are those of filing the slots one by one in that order. |
| BuilderStats.UpsertAllResult | database/database.go:234-247 | After the upserts every entry is in the table under its unique columns and all other keys are as before. |
| BuilderStats.StatsStore.SaveBuilderStats | database/database.go:234-247 | Upserts all entries; the statement never touches a row twice, which Postgres would refuse. |
| BuilderStats.StatsStore.SaveDay | cmd/core/update-builder-stats.go:231-247 | The buckets of both indexes of a day are saved, each once, in one statement without a repeated key. |
| BuilderStats.SavedIsRunResult | cmd/core/update-builder-stats.go:231-248 | Saving the entries of both indexes in any order leaves each nonempty bucket of the run in the table and nothing else changed. |
| BuilderStats.StatsStore.SaveDayBucket | cmd/core/update-builder-stats.go:170-249 | The whole function is a run in some order of the slots: for some admissible naming the table holds exactly the buckets of that naming, with counts and texts, and every other key is as before. |
| StatsRuns.DualConservation | cmd/core/update-builder-stats.go:174-221 | For every day the blocks over the extra-data buckets and those over the pubkey buckets both add up to the distinct slots of the day, for every map order. |
| StatsRuns.BucketTimes | cmd/core/update-builder-stats.go:176-205 | The row of a bucket bears its kind and name and covers 24 hours from midnight, in which all its slots start. |
| StatsRuns.TextsOfBucket | cmd/core/update-builder-stats.go:207-220 | With newline-free texts and pubkeys of one length, each bucket's pubkey text lists exactly its distinct pubkeys, each once, and its extra-data text is sound. |
| BucketTexts.TextAfterRun | cmd/core/update-builder-stats.go:207-220 | After a run a bucket's extra-data text is that of recording its slots' texts in the order of filing. |
| BucketTexts.RunExists | cmd/core/update-builder-stats.go:174-174 | Every order of the slots is the order of a run. |
| BucketTexts.ExtraDataExactly | cmd/core/update-builder-stats.go:207-211 | A bucket's extra-data text is the set of its texts after every run, whatever the order, if and only if no text of the bucket is a proper suffix of another. |
| StoredTexts.CheckWritesLines | cmd/core/check-payload-value.go:382-382 | Whatever the payment check stores as extra data has no line break. |
| StoredTexts.BackfillKeepsLines | cmd/core/data-api-backfill.go:124-231 | A backfill run keeps all stored extra data free of line breaks. |
| StoredTexts.PoolKeepsLines | cmd/core/check-payload-value.go:221-245 | So does the worker pool at any point of any schedule. |
| StoredTexts.SelectedTextsAreLines | cmd/core/update-builder-stats.go:97-104 | So the texts that a run of the statistics picks from such a table are newline-free, if the pubkeys are. |
| StatsRuns.PickEntries | cmd/core/update-builder-stats.go:101-104 | One row for every slot of the query's answer, the last one. |
| StatsRuns.UpdateBuilderStats | cmd/core/update-builder-stats.go:80-109 | The command for a window of days is such a run on the slots of the window. |
| StatsWindows.RunLeavesCounts | cmd/core/update-builder-stats.go:80-109 | If each slot of the window has one filing, keys and block counts after a run are determined by the payload table alone. |
| StatsWindows.WindowsCompose | cmd/core/update-builder-stats.go:80-109 | If each slot of [d0,d2) has one filing, running [d0,d1) and then [d1,d2) leaves the same keys and block counts as one run over the whole. |
| StatsWindows.WindowsComposeExactly | cmd/core/update-builder-stats.go:80-109 | All runs over adjoining windows, from any table and with any picks and names, compose if and only if each slot of the days has one filing. |
| StatsWindows.RerunIsIdempotent | cmd/core/update-builder-stats.go:80-109 | If each slot of the window has one filing, running it again changes neither keys nor block counts. |
| StatsWindows.RerunExactly | cmd/core/update-builder-stats.go:80-109 | All reruns of a window are idempotent if and only if each slot of its days has one filing. |
| StatsWindows.OneFilingMeans | cmd/core/update-builder-stats.go:174-221 | One filing, read off the rows: those of a slot have one pubkey, their texts are in at most one group, and have the same name. |
| StatsWindows.RunOfChoice | cmd/core/update-builder-stats.go:101-104 | Every choice of a row per slot, with any names that fit, is made by some run of the command. |
| StatsWindows.UncheckedMateClashes | cmd/core/update-builder-stats.go:101-104 | A checked row and a mate backfilled later, on which two runs of one window leave different counts. |
| Grouping.BalancesAddUp | services/website/utils.go:142-180 | What the keys of the map hold plus what was overwritten is what came in. |
| NamedTotals.OnlyBobOverwrites | services/website/utils.go:146-180 | With distinct texts an entry outside all groups finds its key in use only if it is named "bob the builder". |
| NamedTotals.LostInAll | services/website/utils.go:175-180 | What is lost in all is what the group of that name held when such an entry came up. |
| NamedTotals.BalanceAndLoss | services/website/utils.go:146-180 | Each key holds all that was filed under it, less what such an entry overwrote. |
| Consolidate.MergeBuilders | services/website/utils.go:142-180 | The loop over the builders, for every map order, builds the merged map of the names it chose. |
| Consolidate.FindGroup | services/website/utils.go:149-173 | In any map order: a group that matches if there is one, and the text itself otherwise. |
| Consolidate.ConsolidateBuilderEntries | services/website/utils.go:140-199 | Shows every entry of the merged map once, in descending order of blocks, with its children a descending permutation. |
| Consolidate.Partition | services/website/utils.go:140-199 | With distinct texts every input is shown under its name, and every shown entry holds exactly the inputs of its name, once, if and only if no input "bob the builder" meets another of that name, before or after it. |
| Consolidate.PartitionForEveryOrder | services/website/utils.go:140-199 | Said of the input alone: for every order of the map of groups it is such a partition, if and only if "bob the builder" and a text that looks like it are not both in it. |
| Consolidate.GroupsAreSums | services/website/utils.go:153-173 | With distinct texts, and for the group "bob the builder" if no input has that very text: a group's blocks are the sum over its children, all of which match it; an entry without children is one that came in. |
| Consolidate.TotalsConservedExactly | services/website/utils.go:140-199 | With distinct texts the shown blocks never exceed the input's, and are equal if and only if no member of the group "bob the builder" with blocks precedes an entry of that very name. |
| Consolidate.ConservedForEveryOrder | services/website/utils.go:140-199 | Said of the input alone: the shown blocks equal the input's for every order of the map of groups, if and only if no text that looks like "bob the builder" and has blocks precedes an entry of that very name. |
| Consolidate.BobLosesBlocks | services/website/utils.go:175-180 | An input of two entries whose shown blocks are fewer than its blocks. |
| ConsolidateProfits.DivideAmounts | services/website/utils.go:134-138 | The quotient is right to within half a unit of the fourth decimal. |
| ConsolidateProfits.Absorb | services/website/utils.go:204-239 | One round of the loop keeps the map that of the entries so far: five balances, alias list and average per key. |
| ConsolidateProfits.ConsolidateBuilderProfitEntries | services/website/utils.go:201-249 | Shows every key once, in descending order of profit, with the balances of all five columns, the alias list and the average the loop leaves. |
| ConsolidateProfits.ColumnsConserved | services/website/utils.go:201-249 | Block counts, profit and subsidy counts and both exact four-decimal totals are each conserved, up to what an entry named "bob the builder" overwrote. |
| ConsolidateProfits.GroupsAreSums | services/website/utils.go:210-234 | For the group "bob the builder" if no input has that very text, and for any other group: a merged group lists its members as aliases, has the sum of every column over them, and an average that is total by blocks to within half a unit, or the copied one for a single member. |
| ConsolidateProfits.SinglesAreUnchanged | services/website/utils.go:236-238 | An entry outside all groups is shown as it came in. |
| Aggregations.SameBuilders | services/website/utils.go:140-199 | For the payloads of a day, one text per slot and no text in two groups, and for every map order of both: the website shows exactly the builders with blocks in the daily statistics. |
| Aggregations.AggregationsAgreeExactly | services/website/utils.go:140-199 | All of them with the same number of blocks, if and only if no text that looks like "bob the builder" precedes an entry of that very name. |
| Aggregations.AgreeForEveryOrder | services/website/utils.go:140-199 | They agree for every order of the maps in either, if and only if no text of the day is in two groups and no text that looks like "bob the builder" precedes an entry of that very name. |
| Bytes.FromToLE | common/ultrasoundbid_encoding.go:16-23 | Reading a little-endian number back gives it, if it fits the width. |
| Bytes.ToFromLE | common/ultrasoundbid_encoding.go:51-58 | Writing what was read gives the bytes back. |
| Bytes.FirstByteIsLowest | common/ultrasoundbid_encoding.go:51-58 | The first byte of a number is its lowest. |
| Bytes.ReverseBytes | common/utils.go:129-137 | The swap loop reverses a copy and leaves its argument alone. |
| Bytes.ReversedIsBigEndian | common/ultrasoundbid.go:15-17 | The big-endian number of the reversed bytes is the little-endian number of the bytes. |
| Bytes.HexDigitAt | services/bidcollect/ultrasound-stream.go:104-107 | Hex text is "0x" and two lower-case digits for every byte, the high one first. |
| UltrasoundStream.FieldOffsets | common/ultrasoundbid_encoding.go:13-41 | Every field of the serialized bid sits at the sum of the sizes before it, numbers with the low byte first. |
| UltrasoundStream.DecodeEncode | common/ultrasoundbid_encoding.go:13-76 | Unmarshalling a marshalled bid gives the bid; it has 188 bytes. |
| UltrasoundStream.EncodeDecode | common/ultrasoundbid_encoding.go:44-76 | Exactly the buffers of 188 bytes are accepted, and marshalling the result gives the buffer back. |
| UltrasoundStream.UltrasoundStreamBid.MarshalSSZTo | common/ultrasoundbid_encoding.go:13-41 | Appends the serialized fields to the buffer. |
| UltrasoundStream.UltrasoundStreamBid.UnmarshalSSZ | common/ultrasoundbid_encoding.go:44-76 | Fills the struct from 188 bytes; any other length is an error that leaves it as it is. |
| UltrasoundStream.WireValueIsCompared | services/bidcollect/ultrasound-stream.go:103-122 | The value in the top-bid comparison is the little-endian integer of bytes 156 to 188 of the message. |
| UltrasoundStream.WireFields | services/bidcollect/ultrasound-stream.go:103-122 | Which bytes of a message become which field of the bid: numbers little-endian, hashes, pubkey and fee recipient in hex, the value in decimal. |
| UltrasoundStream.StreamKeyIsTheWireFields | services/bidcollect/types/types.go:59-61 | Stream bids are hyphen-free, and two of them have the same key exactly if the five fields on the wire agree. |
| SseFanout.InOrder | services/bidcollect/webserver/webserver.go:109-115 | For every subscriber history the queue has at most 100 messages, and what was written followed by what is queued is, in order, what found room. |
| SseFanout.MissingExactlyWhenFull | services/bidcollect/webserver/webserver.go:111-114 | An offered message is missing exactly if the queue held 100 messages at that moment. |
| SseFanout.FirstHundredFit | services/bidcollect/webserver/webserver.go:109-115 | A subscriber that reads nothing gets the first hundred messages and misses all later ones. |
| SseFanout.Server.AddSubscriber | services/bidcollect/webserver/webserver.go:88-93 | Exactly the subscriber is added, under its id. |
| SseFanout.Server.RemoveSubscriber | services/bidcollect/webserver/webserver.go:95-100 | Exactly the id is removed, whether or not it was there. |
| SseFanout.SSESubscription.Offer | services/bidcollect/webserver/webserver.go:111-114 | Never blocks: the message is queued if there is room and dropped otherwise. |
| SseFanout.Server.SendToSubscribers | services/bidcollect/webserver/webserver.go:102-116 | The message is offered to every registered subscriber exactly once, in any order. |
| SseFanout.SSESubscription.Receive | services/bidcollect/webserver/handler.go:47-49 | The handler writes the oldest queued message. |
| SseFanout.RunsKeepInv | services/bidcollect/webserver/webserver.go:88-116 | In every interleaving of sender, handlers, joining and leaving, each subscriber was offered exactly what was sent since it joined, in order, up to the message on its way. |
| SseFanout.DeliveredInOrder | services/bidcollect/webserver/webserver.go:88-116 | In every reachable state consumed plus queued messages are an in-order subsequence of those sent since the subscriber joined, and the queue is within its bound. |
| SseFanout.MissingWasOfferedToFullQueue | services/bidcollect/webserver/handler.go:29-51 | In every reachable state a message sent since it joined is missing exactly if it was offered to a full queue. |
| GetHeaderPoller.Start | services/bidcollect/getheader-poller.go:62-126 | The loop, with its early exits, issues exactly the polls of the specified run over the head events. |
| GetHeaderPoller.AddDuties | services/bidcollect/getheader-poller.go:90-102 | The loop adds the duties of an answer. |
| GetHeaderPoller.LastDutyWins | services/bidcollect/getheader-poller.go:90-102 | Of several duties for a slot the last one counts, and slots without a duty keep what they had. |
| GetHeaderPoller.PolledSlotsIncrease | services/bidcollect/getheader-poller.go:69-77 | Polled slots strictly increase. |
| GetHeaderPoller.DutiesWereFetched | services/bidcollect/getheader-poller.go:84-107 | The duties in use are always those of one fetch, made at a head event of the epoch they are recorded for. |
| GetHeaderPoller.PollsUseOwnDuties | services/bidcollect/getheader-poller.go:84-125 | Every poll is for the slot after a head whose block is its parent, with a proposer from the node's answer for that slot's own epoch, fetched during the head's epoch. |
| GetHeaderPoller.PollIsMade | services/bidcollect/getheader-poller.go:109-125 | A poll is made whenever it can be: for a new head that is the latest block, if the duties in use name a proposer for the slot after it. |
| GetHeaderPoller.DutiesAreFresh | services/bidcollect/getheader-poller.go:84-107 | After a new head for which the node answers, the duties in use are of its epoch, and were fetched for it if there were none. |

## Left out

- HTTP, websocket, Redis, RPC and Postgres drivers: their answers are parameters, and failed writes and fatal exits are outside the model.
- Backup execution node: it is part of the chain's one answer.
- Columns in ETH, gas, epoch, proposer pubkey and transaction count: copied or converted without further use.
- Values that only reach the log, such as the first and last slot of a page or the counts of housekeeping.
- The lines and names of CSV files: a line is the bid itself, and a file is known by its kind and bucket.
- Publishing every bid to Redis, and the conversions of data-API and getHeader messages into bids.
- SetString on malformed bid values: modelled as the number of the leading digits, as values come from relays as decimal text.
- Slots below 3 in housekeeping: the wrap-around of the subtraction is modelled, its sense is not discussed.
- The `checkTx` branch of the payment check, and negative min slots resolved through beaconcha.in.
- Recovery of transaction senders and address checksums: addresses are values in one form.
- `saveHourBucket`: the same loop for hours and one index.
- The order of days in `saveDayBucket`: the source saves them in date order, the model in any order.
- `--backfill` of the stats command, which only chooses the window.
- SQL other than the inserts, upserts, selections and updates named above, in particular the profit query.
- Percentages, the median column, `prepareRelaysEntries`, tables and templates of the website.
- Precision of `big.Float`: amounts are exact ten-thousandths, and a quotient is rounded to a nearest one.
- Consolidate.ConsolidateBuilderEntries: works on values, so it does not show that the source stores an ungrouped input itself and that a group of its name would add to that very input.
- Sequences.SortedDescending: stands for `sort.Slice`, of which only "a descending permutation" is used.
- Collector.BidCollector.Run: takes a finite number of rounds of the endless loop.
- GetHeaderPoller.Start: takes a finite number of head events, and ends with the decision to poll; waiting for the slot and the requests to the relays are not modelled.
- SseFanout.Server.SendToSubscribers: is the sender alone; the interleaving with handlers, joining and leaving is the state machine of the same module.
- Block counts beyond 64 bits: sums are unbounded integers.
- HashTreeRoot and GetTree of the wire format: library code that is not part of this model.
- Reconnecting, timers, URL building, command-line flags.
