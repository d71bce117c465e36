# Solana bridge library: a verified model

The library tracks the events of a Solana program, keeps a sparse index of block hashes, and builds the
transactions that carry signed batches. This project models its five demanding parts in Dafny and proves what
they keep.

**Transaction polling.** `PollMachine` is a state machine over the chain, the tracker's durable state and what
happened so far. Its steps: the chain grows, the poller reads a block height, a poll queries (with any part of
the history hidden, and the cursor accepted or refused), a poll processes the queue head, the process crashes.
`Polling` cuts every poll into single effects (one bolt transaction, or one delivery), and a poll may stop after
any of them. The machine records what a guarantee depends on: whether a query was cut between its two writes
("torn"), whether that happened to a skip, whether an answer was not the full history after the cursor, which
positions the cursor was moved past without their having been listed ("unlisted"; "overlooked" adds those that an
answer with nothing new left out below the number recorded for it), and whether an attempt was cut. `PollBasic`, `PollOrder`, `PollLoss`,
`PollDelivery`, `PollExactlyOnce` and `PollWatermark` prove the invariants of every run, `PollTheorems` states what
they mean, `PollProgress` how the queue gets worked off, and `PollExamples` gives runs where a guarantee stops.
`Tracker` is the same code as it runs: `EventTracker` over the storage handler and a node (`Node`), with the
paging loops (`Paging`). Its `Valid()` says that the durable state is one the machine reaches, so
`PollTheorems.ReachedGuarantees` applies after every poll, failed ones included. Failures of the node, of writes
and of deliveries are counted, and a method reports failure only when the count went up.

**Chain head.** `ChainHead` defines slot selection, windows, forced advances and restarts; `ChainHeadIndex`
proves the invariants, `ChainHeadTheorems` what they say, `ChainHeadForced` what forced advances do, and
`ChainHeadSteps` what every single step does and when a block becomes the recorded chain head. The machine records
which slots forced advances moved the head past without their being stored ("jumped"). `HeadRefresher` is the
refresher as it runs. It and `EventTracker` are one object in the source; the two goroutines share only the store
and write different buckets, so they are two classes here.

**Store.** `StoreEncoding` and `Store`: byte-keyed buckets changed in place, proved to hold a plain queue, event
log and block map.

**Batch codec.** `Payload` and its bytes in `PayloadFormat`, `Ed25519`, `Events` (what a transaction's events are),
and `BridgeMints` (mint deduplication and account layout).

**Smaller cores.** `LookupTable`, `RateLimit`, and the limiter's two locks: `LimiterProtocol` as a state machine,
`LimiterClient` as one caller's loop, whose every step is a move of that machine.

## What turned out differently than promised

- The start-slot filter applies only while no cursor is recorded (tracker/tracker.go:607-614). Once a poll has
  skipped something, a later transaction before the start slot is queued and processed.
  `StartFilterExactUnlessSkipped` says exactly when, `SkipLetsEarlyTransactionsIn` gives the run.
- The branch for a queue head equal to the last processed transaction (tracker/tracker.go:364-371) is never
  taken, in any run: `RepeatedHeadNeverOccurs`.
- A crash between the two writes of the skip path (tracker/tracker.go:631-639) stops the poller for good:
  `StuckExactlyWhenSkipTorn`, `WedgedForGood`, `TornSkipWedges`.
- tracker/store/bolt_storage_handler.go:46-49 says the stored finalized block number only ever advances. A step
  lowers it exactly when it works on a queue head with events in a lower block (`NumberDropsExactlyWhen`). A crash
  between queueing and moving the cursor (tracker/tracker.go:644-652) leads there, because the next poll may
  record a number above a transaction still queued (`TornPushRaisesNumber`, `TornPushLowersNumber`): with complete
  answers nothing below the number is missing exactly while the queue's head does not lie below it
  (`CompleteRunsSafeExactlyWhen`). A refused cursor alone leads there too, because it lists the cursor's slot again,
  skipped transactions included (`RefusedCursorLowersNumber`). Without a torn query the number still drops only
  for a transaction before the base or an overlooked one (`NumberDropsOnlyForOverlooked`).
- After such a crash the queued transactions are not worked on, however often the tracker polls, until a query
  with something new gets through to its cursor write (`StandstillEndsExactlyWhen`, `QueueStandsStill`).
- A torn push followed by a refused cursor lets an already processed transaction with events be queued again
  (`TornPushThenRefusalRequeues`). `RequeuedExactlyWhenBeyondCursor` says in which states, and
  `ProcessedEventsStayProcessed` that either of the two alone is harmless.
- A forced advance (tracker/tracker.go:1029-1062) can leave the block index short of a selected slot. In every run
  the index holds the chain's selected slots without the jumped ones (`IndexIsChainWithoutJumped`), so it is exact
  if and only if the chain selects no jumped slot (`ExactUnlessSelectedJumped`). That can come later than the
  jump: in an outage the head is forced to the newest slot, which nothing was due for, and when the next slot
  turns up beyond a multiple that slot becomes selected, but is skipped as the current head (tracker/tracker.go:965)
  and stays missing without any failure (`OutageRun`, `OutageLosesHead`).
- The refresher records its fingerprint before it fetches a block (tracker/tracker.go:952), so after one failed
  fetch the next refresh jumps to the window's end. An index that was exact is exact right afterwards if and only if
  there was nothing to store (`FailedFetchExactWhen`); otherwise a block is missing until a restart (`LosingRun`,
  `SlotLostForGood`).
- `buildBatchedEd25519Instruction` writes the message length in 16 bits without checking it; a message of more
  than 65535 bytes is read back cut (`BuildThenExtract`), and a payload of more than 1559 receivers not at all
  (`SignedBytesSurvive`).
- tracker/payload_parser.go:59 calls the payload borsh-encoded; its receiver count is an unsigned LEB128 number
  (sendtx/data_test.go:48-63). The model follows the code.
- Mint indices are one byte: beyond 256 distinct mints a transfer names the wrong mint, and exactly then
  (`IndicesNameMints`).
- A request quota holds exactly when the window modulo the sustained count is smaller than their quotient
  (`QuotaHoldsExactlyWhen`); a configured count of one divides by zero (`NewRPCMethodLimiter`).

## Model

| member | source | states |
|---|---|---|
| PollTheorems.HandledRunIsContiguous | tracker/tracker.go:551-655 | Over every run whose answers are complete, crashes after any single write included: finalized then queued transactions are consecutive positions of the chain, none twice, starting at the base; the cursor is among them or right before them |
| PollTheorems.StartFilterExactUnlessSkipped | tracker/tracker.go:603-642 | A transaction before the start slot is handled if and only if a poll skipped something and the transaction after the skipped ones is still too early |
| PollTheorems.NothingTooEarlyUnlessSkipped | tracker/tracker.go:603-620 | In every run, hidden history, refused cursors and torn queries included: as long as no skip is recorded, no transaction before the start slot is handled |
| PollTheorems.CursorTestTellsQueue | tracker/tracker.go:313-324 | Without a torn query, "last queried differs from last processed" holds exactly when the queue is non-empty, and then last queried is the queue's last element |
| PollTheorems.RepeatedHeadNeverOccurs | tracker/tracker.go:364-371 | In no run is the last processed transaction in the queue |
| PollTheorems.FinalizedOnlyByWholeAttempt | tracker/tracker.go:347-549 | A transaction is finalized only as queue head, by an attempt that delivered and stored, in order, exactly its accepted events |
| PollTheorems.RequeuedExactlyWhenBeyondCursor | tracker/tracker.go:569-583 | Between two polls, a finalized transaction with stored events can be queued again if and only if it lies beyond the cursor's slot and is not the last processed one |
| PollTheorems.OnlyCursorSlotComesBack | tracker/tracker.go:1068-1101 | Without a torn query, a finalized transaction that a query queues again lies in the cursor's slot and stored no event |
| PollTheorems.StuckExactlyWhenSkipTorn | tracker/tracker.go:631-639 | Over every run: the cursors differ with nothing queued, so the dispatcher has nothing to do, if and only if some skip was cut between its two writes and nothing is queued |
| PollTheorems.WedgedForGood | tracker/tracker.go:293-327 | From then on no step, restart included, changes the durable state |
| PollProgress.WholeAttemptsDrain | tracker/tracker.go:313-324 | From differing cursors, no skip torn: n whole attempts finalize the first n queued transactions with exactly their events, and the cursors agree again exactly when the queue is empty |
| PollProgress.NextAttemptCanBeMade | tracker/tracker.go:347-371 | While the cursors differ and something is queued, a whole attempt at the head is possible |
| PollProgress.StandstillEndsExactlyWhen | tracker/tracker.go:313-324 | While the cursors agree, a step makes the dispatcher process if and only if it is a query with something new that completes a push, or is cut inside a skip; no step finalizes, stores, delivers or takes anything off the queue |
| PollProgress.QueueStandsStill | tracker/tracker.go:644-652 | Over every run: without such a query, what a torn push queued stays at the front of the queue and is not worked on, restarts included |
| PollTheorems.ReachedGuarantees | tracker/tracker.go:293-327 | All invariants of a reachable state, each under the history it needs |
| PollLoss.RunsLoseNothingListed | tracker/tracker.go:657-708 | Over every run, with crashes, hidden history and refused cursors anywhere: every position from the base to the cursor is finalized, queued, or was left behind unlisted when a query moved the cursor past it |
| PollLoss.MovedPastWasHidden | tracker/tracker.go:644-652 | The cursor moves past a position without its transaction having been listed if and only if the node hid it |
| PollLoss.PassedOverWasHidden | tracker/tracker.go:662-693 | An answer leaves out a position after the cursor if and only if the node hid it, whether the cursor was accepted or refused |
| PollDelivery.RunsDeliverAtLeastOnce | tracker/tracker.go:500-546 | Over every run: finalized transactions have all their events stored, only accepted events are delivered, and nothing was stored more often than delivered |
| PollExactlyOnce.RunsDeliverAlongFinalized | tracker/tracker.go:428-546 | In every run in which no attempt was cut, torn queries and refused cursors included, stored and delivered events are both exactly the accepted events of the finalized transactions, in the order they were finalized |
| PollExactlyOnce.FinalizedTwiceIsSilent | tracker/tracker.go:1068-1101 | In every run without a torn query, refused cursors included, a transaction finalized more than once has no accepted event |
| PollExactlyOnce.RunsDeliverExactlyOnce | tracker/tracker.go:428-546 | So without a cut attempt or a torn query every accepted event of every finalized transaction was delivered and stored exactly once |
| PollExactlyOnce.CompleteRunsDeliverInChainOrder | tracker/tracker.go:428-546 | With complete answers they are the events of the finalized positions, in chain order |
| PollDelivery.UntornRunsDoNotRequeue | tracker/tracker.go:569-583 | With refusals anywhere and no torn query: no finalized or queued slot exceeds the cursor's, and a finalized transaction that is queued again stored no event |
| PollDelivery.ProcessedEventsStayProcessed | tracker/tracker.go:1068-1101 | A finalized transaction that stored an event is not in the queue, in every run that does not combine a torn query with an incomplete answer |
| PollWatermark.RunsStaySafe | tracker/tracker.go:585-594 | Over every run without a torn query, refused cursors and hidden history included: below the stored number everything from the base on that is not overlooked is finalized, and the queue is in chain order; while nothing was queried that holds from the first position on |
| PollWatermark.NumberDropsExactlyWhen | tracker/tracker.go:500-505 | A step lowers the stored number if and only if it works on a queue head that has accepted events and lies in a block below the number |
| PollWatermark.NumberDropsOnlyForOverlooked | tracker/store/bolt_storage_handler.go:46-49 | Without a torn query it drops only for a queue head before the base or an overlooked one |
| PollWatermark.NumberNeverDecreases | tracker/store/bolt_storage_handler.go:46-49 | So without a torn query and with complete answers it never decreases |
| PollWatermark.CompleteRunsSafeExactlyWhen | tracker/tracker.go:558-594 | Over every run with complete answers, torn queries or not: everything from the base on below the stored number is finalized if and only if the queue is empty or its head's block is at least the number |
| PollWatermark.EmptyNewsSafeExactlyWhen | tracker/tracker.go:585-594 | In particular, after a poll that finds nothing new, if and only if the queue is empty or its head's block is at least the height just read |
| PollWatermark.NothingMissingBelowNumber | tracker/tracker.go:558-594 | Without a torn query, refused cursors and hidden history included: every transaction at or after the base strictly below the stored number, unless overlooked, is finalized with all its accepted events stored |
| PollExamples.SkipLetsEarlyTransactionsIn | tracker/tracker.go:607-642 | A run without crash or refusal that queues a transaction before the start slot |
| PollExamples.TornSkipWedges | tracker/tracker.go:631-639 | A run that ends stuck |
| PollExamples.TornPushRaisesNumber | tracker/tracker.go:644-652 | A run whose stored number lies above an unprocessed transaction |
| PollExamples.TornPushLowersNumber | tracker/tracker.go:644-652 | A run with complete answers in which the stored number goes down |
| PollExamples.RefusedCursorLowersNumber | tracker/tracker.go:675-693 | A run without a torn query in which it goes down |
| PollExamples.TornPushThenRefusalRequeues | tracker/tracker.go:644-652 | A run after which a finalized transaction with stored events can be queued again |
| Paging.ListedIsSegment | tracker/tracker.go:684-693 | The unlimited query, by cursor or by slot, is what is visible from one position of the history on |
| Paging.PageIsSegment | tracker/internal/trackertest/chain_simulator.go:817-874 | A page is what is visible between two positions, down to the lower bound unless it is full |
| Paging.LaterPage | tracker/tracker.go:754-784 | A page fetched later, when the history is longer and more of it forgotten, is a page of the first page's history |
| Paging.KeptOfSegment | tracker/tracker.go:761-768 | Keeping slots at or above the cursor's cuts a page off exactly where the one-shot query would begin |
| Paging.SegmentsJoin | tracker/tracker.go:703-705 | Pages fetched while more and more was forgotten join to what is visible of one history |
| Node.SolanaNode.GetSignaturesForAddress | tracker/internal/trackertest/chain_simulator.go:817-874 | The environment: newest first, exclusive cursors, unknown cursors refused, the history growing and being forgotten before every call |
| Tracker.SignatureFetcher.CatchUpLoop | tracker/tracker.go:734-790 | Terminates, on the position of `before`, with everything between the floor and the first page, no gap or repeat at page borders, except what was forgotten while fetching |
| Tracker.SignatureFetcher.SignaturesForAddress | tracker/tracker.go:657-708 | The first page and the catch-up together equal the unlimited query over the history of the first page, with something hidden between what was hidden at the start and at the end, although transactions are appended and forgotten meanwhile |
| Tracker.EventTracker.GetQueuedTxSignatures | tracker/tracker.go:1068-1101 | The set holds exactly the queued signatures, the last processed one, and those with stored events in the slot |
| Tracker.EventTracker.OldestFirst | tracker/tracker.go:600-620 | The news oldest first, without those before the start slot when no cursor is recorded |
| Tracker.EventTracker.StoreNews | tracker/tracker.go:569-655 | Leaves the durable state after some number of the query's effects, all of them on success |
| Tracker.EventTracker.FetchNextGetSignaturesForAddress | tracker/tracker.go:551-655 | A querying poll is a height reading and one query of the machine, complete unless something failed, for a listing no older than the height; the fallback is taken only after a refusal |
| Tracker.EventTracker.DeliverEvents | tracker/tracker.go:428-541 | An attempt works through exactly the accepted events, in order, three effects each, and stops at the first failure |
| Tracker.EventTracker.FetchNextGetFullTxBySignature | tracker/tracker.go:347-549 | A processing poll is one processing step of the machine, complete unless something failed |
| Tracker.EventTracker.PollOnce | tracker/tracker.go:293-327 | One round of the loop is a processing or a querying poll, as the cursors say, complete unless something failed, and keeps the tracker in a reachable state |
| Events.CollectEvents | tracker/cpi_events.go:65-103 | Collects one event for each inner instruction that meets the five conditions, in group, then instruction order, and nothing else |
| Events.CollectedAreInOrder | tracker/cpi_events.go:65-103 | The k-th collected event is the program, the data behind the tag and the group index of the k-th inner instruction that names a tracked program, carries the tag e445a52e51cb9a1d and more, and has its event authority first |
| Events.OneEventPerEmission | tracker/cpi_events.go:65-103 | There are as many events as such instructions |
| Events.AccountKeysAreNumbered | tracker/cpi_events.go:37-47 | An account index counts the static keys, then the loaded writable ones, then the read-only ones |
| Events.CollectedExactly | tracker/cpi_events.go:50-103 | An emission is collected if and only if some inner instruction of that group invokes a tracked program with the event tag, a payload and its authority first |
| Events.FindBatchPayload | tracker/cpi_events.go:105-144 | The instruction before counts if it is an Ed25519 one, only otherwise the one after, and the batch must match |
| Events.AcceptEvent | tracker/tracker.go:428-477 | An emission is recorded if and only if it decodes and, for an executed-batch event, the adjacent Ed25519 instruction carries the payload of the same batch id, whose marshalled bytes are hashed |
| Events.OutcomeExactly | tracker/tracker.go:347-427 | A failed transaction has nothing to do, one without recorded inner instructions is unreadable, and any other has exactly the records of its emissions, in order |
| PollTheorems.EventsOfTransaction | tracker/tracker.go:428-541 | A transaction's events are those records, one each and in order, with its slot, block number and signature |
| Events.ExecutedEventHashesSignedBytes | tracker/tracker.go:458-477 | An executed-batch event next to the built instruction is recorded with the hash of exactly the signed bytes up to 1559 receivers, and skipped beyond |
| ChainHead.GetSlotsToQueryBlocks | tracker/tracker.go:891-905 | Computes the selected slots |
| ChainHead.WindowPicksFromChain | tracker/tracker.go:888-905 | A window selects only slots the whole chain selects, and misses none between its first slot and any it selects |
| ChainHead.FingerprintIdentifiesWindow | tracker/tracker.go:943-950 | Equal start and count mean identical windows on an append-only chain, however far the answering nodes lag |
| ChainHeadTheorems.SelectedWhenItClosesAMultiple | tracker/tracker.go:888-905 | A slot is selected if and only if it is a multiple, or the last one before a multiple that the next slot lies strictly beyond without being one |
| ChainHeadTheorems.IndexIsChainWithoutJumped | tracker/tracker.go:927-1062 | Over every run, forced advances, lags, failures and restarts included: the blocks stored in (start, head] are exactly the whole chain's selected slots there that were not jumped |
| ChainHeadTheorems.ExactUnlessSelectedJumped | tracker/tracker.go:1029-1062 | Over every run, the index is exactly the chain's selected slots in (start, head] if and only if the chain, as it is by now, selects no jumped slot |
| ChainHeadTheorems.IndexIsFunctionOfChain | tracker/tracker.go:927-1022 | So when the chain selects no jumped slot, and in particular without forced advances: the blocks stored in (start, head] are exactly its selected slots there |
| ChainHeadTheorems.StoredBlocksAreSelected | tracker/tracker.go:964-1013 | Forced advances included, only selected slots above the start are stored, each with its own block |
| ChainHeadTheorems.LookupAnswersGridFloor | tracker/store/bolt_storage_handler.go:375-421 | A lookup within the recorded head answers the hash of the last selected slot at or below it, unless that slot was jumped |
| ChainHeadTheorems.TrackersAgree | tracker/store/bolt_storage_handler.go:375-421 | Two trackers of one chain, forced advances included, answer alike wherever both cover the slot and neither jumped a slot selected up to it |
| ChainHeadTheorems.SparseMatchesFull | tracker/tracker.go:888-905 | At a multiple of the threshold the lookup returns the last block's hash if and only if that block is on a multiple or the next one is not, and it was not jumped |
| ChainHeadTheorems.HeadMovesForwardAndNotTooFar | tracker/tracker.go:1029-1062 | A refresh never moves the head back, nor beyond both the last returned slot and the current slot |
| ChainHeadTheorems.RecordedHeadNeverGoesBack | tracker/tracker.go:1016-1019 | The stored chain head never goes back in any run |
| ChainHeadTheorems.TwoRefreshesAdvance | tracker/tracker.go:927-1062 | Two consecutive successful refreshes of an unchanged chain advance the head, unless the tip is below head + target - 3 |
| ChainHeadForced.UnforcedRunsJumpNothing | tracker/tracker.go:943-950 | A run in which no forced advance moved the head jumped nothing |
| ChainHeadForced.ExactAfterForce | tracker/tracker.go:1029-1062 | Right after any forced advance an exact index is still exact if and only if every selected slot it crosses is stored |
| ChainHeadForced.ForcedOverWindowExactWhen | tracker/tracker.go:1035-1040 | Right after a forced advance over more than one slot an exact index is still exact if and only if every slot the window would have fetched is stored, and its last slot too if the chain selects it |
| ChainHeadForced.ForcedPastTipExactWhen | tracker/tracker.go:1041-1052 | With at most one slot in an up-to-date window, right afterwards if and only if that slot is not jumped over, not selected, or stored |
| ChainHeadForced.FailedFetchExactWhen | tracker/tracker.go:948-952 | After a refresh whose first fetch failed, the next one with an equal count is forced to the window's end, stores nothing, jumps every unstored slot on the way, and right afterwards an exact index is still exact if and only if nothing was left to store |
| ChainHeadForced.LosingRun | tracker/tracker.go:948-997 | There is a run of two refreshes, each failing its first fetch, over two blocks of which the first is selected |
| ChainHeadForced.SlotLostForGood | tracker/tracker.go:948-997 | However such a run goes on without a restart, that selected slot stays missing below the head |
| ChainHeadForced.OutageRun | tracker/tracker.go:1035-1040 | There is a run without any failure whose forced advance leaves the index exact, and inexact once the next slot turns up |
| ChainHeadForced.OutageLosesHead | tracker/tracker.go:964-967 | However that run goes on without a restart, the slot the head was forced to stays missing although selected |
| ChainHeadTheorems.PassedSlotsStayMissing | tracker/tracker.go:964-1013 | Until a restart, what the head has passed is never stored any more |
| ChainHeadSteps.WindowIsRange | tracker/tracker.go:930-933 | A window is what the answering node knows of the slots from the head to head + offset |
| ChainHeadSteps.FetchStep | tracker/tracker.go:952-1021 | A refresh that is not forced stores the lowest k due slots with their blocks and nothing else, moves the head to the last of them and remembers the window |
| ChainHeadSteps.ForcedStep | tracker/tracker.go:1029-1062 | A forced refresh stores nothing; the head goes to the window's last slot, or over at most one slot jumps target - 3 slots unless that is beyond the current slot |
| ChainHeadSteps.HeadRecordedExactly | tracker/tracker.go:1016-1019 | Over every run: a step makes its head's block the recorded chain head if and only if it is a refresh that was not forced, moved the head, left no due slot and whose write went through; no other step changes it |
| ChainHeadSteps.LatestIsLastRecorded | tracker/tracker.go:1016-1019 | So a chain head is recorded if and only if some refresh did, and it is the block the last of them ended at |
| ChainHeadSteps.RecordedHeadAnswers | tracker/store/bolt_storage_handler.go:375-421 | From then on a lookup of that slot answers its hash |
| ChainHeadSteps.RestartResumes | tracker/tracker.go:331-345 | A restart keeps what is stored and goes on from the later of start slot and recorded head |
| HeadRefresher.ChainHeadRefresher.StoreSelected | tracker/tracker.go:964-1013 | Stores the selected blocks but the current head one after another, moving the head along, up to the first failure |
| HeadRefresher.ChainHeadRefresher.FetchSelected | tracker/tracker.go:952-1021 | Records the fingerprint first, and when it succeeds after moving the head, that head's block is the recorded chain head |
| HeadRefresher.ChainHeadRefresher.UnstickChainHead | tracker/tracker.go:1029-1062 | The forced advance |
| HeadRefresher.ChainHeadRefresher.RefreshChainHead | tracker/tracker.go:927-1022 | One refresh is one step of the machine, complete unless something failed; when a fetching refresh succeeds after moving the head, that head's block is the recorded chain head |
| HeadRefresher.ChainHeadRefresher.Restart | tracker/tracker.go:331-345 | A new process starts from the start slot or the recorded head, whichever is higher |
| StoreEncoding.TxPointRoundTrip | tracker/store/bolt_storage_handler.go:740-765 | A stored transaction point decodes to itself |
| StoreEncoding.TxPointReads | tracker/store/bolt_storage_handler.go:739-766 | Stored bytes stand for a point if and only if they are its signature and its big-endian slot, or for slot 0 the signature alone; other lengths are corrupt |
| StoreEncoding.KeyNames | tracker/store/bolt_storage_handler.go:151-159 | The named keys are these strings |
| StoreEncoding.IndexKeysAreSeparate | tracker/store/bolt_storage_handler.go:151-159 | No 8-byte index key collides with a named key |
| StoreEncoding.IndexMatchesScan | tracker/store/bolt_storage_handler.go:614-699 | The ids indexed under a block name exactly the records a full scan keeps for it, in storage order |
| StoreEncoding.IdsRoundTrip | tracker/store/bolt_storage_handler.go:597-612 | A concatenated id list decodes to the ids |
| StoreEncoding.CursorVisitsInIdOrder | tracker/store/bolt_storage_handler.go:531-566 | A cursor in byte order visits the records in numeric id order |
| Bytes.BigEndianOrder | tracker/store/bolt_storage_handler.go:228-233 | Big-endian keys sort as the numbers they encode |
| Store.BoltStorageHandler.PushUnprocessedTransactions | tracker/store/bolt_storage_handler.go:767-803 | Appends exactly the points with a non-zero signature |
| Store.BoltStorageHandler.GetAllUnprocessedTransactions | tracker/store/bolt_storage_handler.go:840-878 | Returns the queue |
| Store.BoltStorageHandler.RemoveTransaction | tracker/store/bolt_storage_handler.go:805-834 | Pops the front if and only if the signature matches, and otherwise changes nothing |
| Store.BoltStorageHandler.FinalizeProcessedTransaction | tracker/store/bolt_storage_handler.go:891-905 | Pops the front if and only if the signature matches, and records it with its slot as last processed |
| Store.BoltStorageHandler.SetLastProcessedTransaction | tracker/store/bolt_storage_handler.go:880-889 | Replaces that cursor and nothing else |
| Store.BoltStorageHandler.StoreLatestQueriedTransaction | tracker/store/bolt_storage_handler.go:911-920 | Replaces that cursor and nothing else |
| Store.BoltStorageHandler.StoreLatestFinalizedBlockNumber | tracker/store/bolt_storage_handler.go:479-494 | Replaces the stored number |
| Store.BoltStorageHandler.StoreEvent | tracker/store/bolt_storage_handler.go:302-373 | Appends the event to the log, under the next id, indexed by block number |
| Store.BoltStorageHandler.DecodeEventIds | tracker/store/bolt_storage_handler.go:597-612 | Rejects exactly the lengths that are not a multiple of 8 |
| Store.BoltStorageHandler.GetEventsByBlockNumber | tracker/store/bolt_storage_handler.go:642-699 | Answers what filtering every stored record by block number would, in storage order |
| Store.BoltStorageHandler.GetEventsBySlot | tracker/store/bolt_storage_handler.go:531-566 | Answers what filtering the log by slot would, in storage order |
| Store.BoltStorageHandler.GetProcessedTxSignaturesBySlot | tracker/store/bolt_storage_handler.go:568-593 | The slot's signatures, each at its first occurrence in storage order |
| Store.SlotSignaturesMember | tracker/store/bolt_storage_handler.go:568-593 | A signature is in that list if and only if some stored event has it and the slot |
| Store.BoltStorageHandler.StoreBlock | tracker/store/bolt_storage_handler.go:263-300 | Maps the slot to the block and the hash to its number |
| Store.BoltStorageHandler.StoreLatestBlockPoint | tracker/store/bolt_storage_handler.go:449-477 | From then on a lookup beyond that slot fails as beyond the head, and one within it answers the closest stored block at or below |
| Store.BoltStorageHandler.GetBlockhashBySlot | tracker/store/bolt_storage_handler.go:375-421 | The hash of the closest stored block at or below the slot; otherwise no chain head, beyond it, or nothing stored at or below, each exactly then |
| StoreEncoding.LookupFinds | tracker/store/bolt_storage_handler.go:375-421 | The backward walk stops at the greatest stored slot not above |
| Payload.PayloadRoundTrip | sendtx/data.go:52-73 | Unmarshal undoes Marshal for every receiver list, whatever follows |
| Payload.CutPayloadFails | sendtx/data.go:64-73 | No proper prefix of a marshalled payload unmarshals |
| PayloadFormat.UnmarshalExactly | sendtx/data.go:64-73 | Bytes are read as a payload if and only if they begin with its hash, a LEB128 count of at most 64 bits, 42 bytes for each receiver, fee and batch id, byte for byte |
| PayloadFormat.MarshalExactly | sendtx/data.go:52-62 | What is written is exactly those bytes, the count in its shortest form |
| PayloadFormat.KnownPayload | sendtx/data_test.go:48-71 | The production example's payload, with any hash and address, is written and read as its known bytes |
| Payload.PayloadFitsMessage | sendtx/data.go:52-62 | A payload fits 65535 bytes if and only if it has at most 1559 receivers |
| Payload.MarshalPayload | sendtx/data.go:52-62 | Writes the format |
| Payload.UnmarshalPayload | sendtx/data.go:64-73 | Reads it back, or fails |
| Payload.MarshalTokenAmount | wallet/token.go:14-21 | Appends the id, then the amount, little-endian |
| Payload.UnmarshalTokenAmount | wallet/token.go:23-33 | Reads them back, or fails |
| Ed25519.BuildBatched | sendtx/tx_sender.go:718-783 | Fails without pairs, with more than 255, or with an empty message; otherwise lays out some ordering of the map's pairs byte for byte: count, a zero, one entry of seven 16-bit fields for each pair with 65535 in its instruction fields, keys and signatures, message |
| Ed25519.BuiltByteByByte | sendtx/tx_sender.go:740-783 | That layout, for every list of 1 to 255 pairs |
| Ed25519.ExtractMessage | tracker/payload_parser.go:64-125 | Answers a message if and only if there is an entry and every entry, read byte by byte, has 65535 or its own index in its three instruction fields, lies inside the data and leads to that message |
| Ed25519.SharedExactly | tracker/payload_parser.go:64-115 | The same of the parser's specification |
| Ed25519.MarkedEntryAccepted | tracker/payload_parser.go:89-103 | An entry with 65535 in those fields is accepted under any index |
| Ed25519.ExtractSolanaPayload | tracker/payload_parser.go:64-125 | The payload of the shared message, if it is accepted and unmarshals |
| Ed25519.BuildThenExtract | sendtx/tx_sender.go:718-783 | Every built instruction is accepted under any index, and its message is seen whole if and only if it has at most 65535 bytes |
| Ed25519.OffsetsRecoverPairs | tracker/payload_parser.go:80-115 | Following the offsets recovers exactly the pair set, whatever order the map was walked in |
| Ed25519.OffsetsFit | sendtx/tx_sender.go:736-775 | No offset wraps; the largest message offset is 28052 |
| Ed25519.SignedBytesSurvive | tracker/tracker.go:458-477 | Through build and extract the payload comes back up to 1559 receivers, and not at all beyond |
| BridgeMints.DeriveBridgeMintsAndTransfers | sendtx/tx_sender.go:568-607 | Derives mints, token ids and transfers, or rejects the batch exactly when some address is invalid |
| BridgeMints.MintsAreDistinct | sendtx/tx_sender.go:565-607 | The mints are the receivers' registered mints, each once, in first-seen order |
| BridgeMints.TokenIdIsFirstUse | sendtx/tx_sender.go:589-597 | tokenIDs[k] is the token id of the first receiver using mint k |
| BridgeMints.IndicesNameMints | sendtx/tx_sender.go:589-604 | Every transfer names the mint registered for its receiver's token id, the zero key for an unregistered one, if and only if there are at most 256 distinct mints |
| BridgeMints.TransfersFollowReceivers | sendtx/tx_sender.go:585-605 | One transfer for each receiver, in order, to its address and of its amount, naming its registered mint when there are at most 256 |
| BridgeMints.AmountsAreConserved | sendtx/tx_sender.go:599-603 | Each mint's transfers add up to what its receivers are due |
| BridgeMints.BridgeTransactionRemainingAccounts | sendtx/tx_sender.go:626-681 | 3m + 2n accounts, every segment at its offset; fails exactly on differing counts or a missing derived address |
| BridgeMints.AccountsFollowReceivers | sendtx/tx_sender.go:626-681 | In a derived batch the account at 2m + n + i is receiver i's token account for its registered mint |
| LookupTable.NewExtendInstructions | wallet/alt_admin.go:152-206 | Errors without fetcher or table state; otherwise one instruction per chunk of the missing addresses |
| LookupTable.BuildExtendLookupTableInstruction | wallet/alt_admin.go:208-230 | Builds exactly the instruction below |
| LookupTable.ExtendLayout | wallet/alt_admin.go:208-230 | Table writable, authority signer, payer both, system program; then 2 in four bytes, the count in eight, little-endian, and the keys |
| LookupTable.ExtendRoundTrip | wallet/alt_admin.go:208-222 | Its bytes decode back to its chunk |
| LookupTable.ChunksPartition | wallet/alt_admin.go:191-203 | The chunks concatenate to the keys, hold 1 to 20 each, and only the last may be short |
| LookupTable.PlanExtendsTable | wallet/alt_admin.go:152-206 | Executing a plan keeps the table as a prefix, adds exactly the missing requested addresses once each, and makes a second plan empty |
| RateLimit.NewRPCMethodLimiter | common/mutex_rpc_client.go:128-138 | A division by zero exactly for a count of one, no limit below; otherwise a bucket that splits the quota as stated next |
| RateLimit.QuotaSplit | common/mutex_rpc_client.go:128-138 | A tenth of the count, rounded down but at least one, may come at once, and the interval is the window divided by the others |
| RateLimit.QuotaHoldsExactlyWhen | common/mutex_rpc_client.go:128-138 | No window in any run holds more requests than the quota if and only if the window modulo the sustained count is below their quotient |
| RateLimit.QuotaHoldsForWideWindows | common/mutex_rpc_client.go:128-138 | In particular when the sustained count squared fits in the window |
| LimiterClient.MutexRPCClient.WithRPCLimits | common/mutex_rpc_client.go:210-255 | With other callers moving at any time, every step is a move of the two-lock machine; it returns the first answer that is not one of the three rate-limit failures, every further request waits out the pause before it, and it gives up only when cancelled |
| LimiterProtocol.RetriedExactly | common/mutex_rpc_client.go:187-208 | A reply is retried if and only if it is a rate-limit error, after its own pause, or an RPC or HTTP error 429, after ten seconds |
| LimiterProtocol.NoRequestBeforePauseEnds | common/mutex_rpc_client.go:224-254 | Once a request is answered with a pause, no caller sends a request of that method before it is over |
| LimiterProtocol.OneRequestInFlight | common/mutex_rpc_client.go:243-246 | At most one request is in flight per client, and the client lock is held only then, always together with its method's lock |
| LimiterProtocol.NoRequestDuringCooldown | common/mutex_rpc_client.go:224-254 | After a recorded cooldown no request of that method is sent before it ends |
| LimiterProtocol.NoDeadlock | common/mutex_rpc_client.go:219-246 | In every reachable state with an unfinished call, some caller can proceed, now or after waiting |

## Left out

- 64-bit overflow of queue counters, event ids and slots: a write that would overflow counts as failed, and window ends are unbounded numbers.
- Several tracked programs sharing one cursor, and the "confirmed" commitment: one program, finalized.
- Values written before slots were persisted: they decode with slot 0, but no run starts from such a store.
- Node.SolanaNode.GetSignaturesForAddress: what was forgotten is served again at the earliest by the next poll.
- Tracker.EventTracker.FetchNextGetFullTxBySignature: the inner work of decoding an event is an arbitrary partial function, and SHA-256 an arbitrary function.
- PollWatermark.NumberNeverDecreases: false with refused cursors or torn queries, by RefusedCursorLowersNumber and TornPushLowersNumber; NumberDropsExactlyWhen and NumberDropsOnlyForOverlooked say when.
- PollWatermark.NothingMissingBelowNumber: false after a torn query, by TornPushRaisesNumber; for complete answers CompleteRunsSafeExactlyWhen says exactly when, whatever was torn.
- PollDelivery.ProcessedEventsStayProcessed: one direction over runs; which states allow a second queueing is exact in RequeuedExactlyWhenBeyondCursor.
- ChainHeadTheorems.IndexIsFunctionOfChain: false once the chain selects a jumped slot, by LosingRun and OutageRun; ExactUnlessSelectedJumped says exactly when.
- ChainHeadForced.ForcedPastTipExactWhen: about the moment of the advance, as are ForcedOverWindowExactWhen and FailedFetchExactWhen; ExactUnlessSelectedJumped covers every later moment. For a lagging window of at most one slot the condition is that of ExactAfterForce.
- LimiterClient.MutexRPCClient.WithRPCLimits: the node's answers are a finite list and waiting for a lock may outlast the observation, since neither loop nor locks have a bound; the lookup of an unknown method name is left out.
- RateLimit.QuotaHoldsExactlyWhen: grants happen at whole nanoseconds; the limiter library's floating-point bookkeeping is not modelled.
- BridgeMints.BridgeTransactionRemainingAccounts: a transfer with an index beyond the mints makes the source panic and is excluded.
- Waiting times between refreshes and retries (floating point); they change no stored state.
- JSON values inside buckets and bbolt itself: a bucket is a map from byte strings, a transaction is atomic.
- GetBlockNumberByBlockhash, GetLatestBlockPoint and GetLatestFinalizedBlockNumber: plain reads.
- Parsing the Retry-After header, RPC transport and its logging, base58, curve checks and address derivation.
- Instruction builders other than the Ed25519 one and the account list, and message assembly.
- How much memory a decoder allocates for a claimed receiver count.
