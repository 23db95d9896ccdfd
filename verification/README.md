# pmkt: verified models of its collection and reconstruction cores

Dafny models of the parts of pmkt where state is carried over many steps, and proofs of what those parts
are for. `dafny verify dfyconfig.toml` checks everything.

- **Wallet registry** (`HexText`, `EthLogs`, `WalletTable`, `Registry`, `RegistryRuns`, `CanonicalChain`, `Collecting`,
  `LegacyWitness`, `WitnessRepair`, `MainLoop`, `Pacing`). A resumable scan of three block streams into one database.
  Each commit joins a range into the tables; the main result is that the registry depends only on how far the streams
  have come, never on windows, interleaving, failures or restarts, and that a repair interleaved with live commits
  brings a database written under an older rule to that same registry. The main loop over the streams and the repair
  ends, and its normal end means that nothing selected is left to scan; on a chain of canonical logs, with providers
  that only refuse ranges, it does end normally. The client that makes the requests never starts one before the last
  persisted cooldown, and gives up only for one of a few reasons.
- **Book tape** (`BookTape`, `TapeRefinement`, `TapeLifecycle`, `TapeOrder`, `TapeShards`, `JournalReaders`,
  `TapeAcceptance`, `TapeEngine`, `TopbookParity`, `DepthParity`). An epoch state machine over causally sorted
  checkpoints, deltas and controls. On one tape the streaming engine, which holds one message back, refines the older
  loop, which looks ahead, and both accept and publish exactly what a description of the items alone says. On a
  journal, where the engine sees one commit group at a time and the older reader sorts the whole tape, shards are
  independent, and the two agree but for the cases listed below. Published books are exactly the last writes since
  their checkpoint. The comparators that hold a recording against a reconstruction are exact.
- **Segmented sink** (`SegmentedSink`), **publication protocol** (`Publication`) and **cursor collectors**
  (`HistoricalScan`, `CursorPages`): conservation under any clock, safety under interruption at any step, and
  claims of completeness that are true.

Where the program updates objects in place, the model is a class whose methods are proved against specification
functions, and the results are lemmas about those functions. Clocks, provider replies, interruptions and failed
transactions are arbitrary.

Results where the code falls short of the plain promise, with the exact condition:

- The streaming engine and the whole-tape reader agree on a journal whose shards are each in order, except where an
  item of another shard comes between two events of one message: there the engine publishes the message early, once
  more per interruption, and fails if that early state cannot be normalised (`JournalReaders.ReadersCompared`,
  `JournalReaders.InterruptedMessageDiffers`). Otherwise verdict, publications of each book and final state, up to the
  order in which ignored events are listed, are the same.
- A journal whose commit groups go back in one book is refused by the engine, while the whole-tape reader sorts first
  and may accept it (`JournalReaders.BackwardsIsRefused`, `JournalReaders.BackwardsDiffers`).
- Provided every row has an event id and no two rows of one instrument share one, a recording of exactly the
  state-change rows is compared with its reconstruction without a discrepancy unless two of its rows share
  instrument and receipt time, where the comparison raises, or two consecutive changes share a comparison position,
  where it reports the earlier one as missing (`TopbookParity.ChangesMatchThemselves`,
  `TopbookParity.SameReceiptRaises`, `TopbookParity.TiedChangesDiffer`).
- A recording of every reconstructed depth row matches unless two of the rows share a key, where the comparison
  raises (`DepthParity.CompleteRecording`).
- A chain of resumed segments can succeed where one scan is refused, exactly when a market key repeats across
  segments (`HistoricalScan.ExhaustedChainIsOneScan`, `HistoricalScan.RepeatedKeyNeedsOneFile`).
- The rollback of a historical segment leaves a file behind exactly when the exception falls between a file's
  appearance and its flag (`HistoricalScan.SegmentFiles.Publish`).
- A reader loses its bundle at the next publication exactly when the publisher could not read the pointer
  (`Publication.OutputDirectory.PublishGeneration`).

## Model

| member | source | states |
|---|---|---|
| HexText.HexRoundTrip | scripts/collect_polymarket_wallets_rpc.py:85-91 | every byte string is read back from its text, and a text is accepted exactly when, up to the case of its digits, it is the text of the bytes read from it |
| HexText.QuantityRoundTrip | scripts/collect_polymarket_wallets_rpc.py:94-97 | the same for quantities: a number has one spelling, without leading zeros, up to case (Ethereum JSON-RPC specification, section "Hex value encoding") |
| HexText.DataTextRoundTrip | scripts/collect_polymarket_wallets_rpc.py:107-111 | every accepted data text is the encoding of the ABI words read from it, up to the case of its digits |
| EthLogs.WordsRoundTrip | scripts/collect_polymarket_wallets_rpc.py:107-111 | decoding the ABI words of an encoding gives the words back, for all words of 32 bytes |
| EthLogs.DataRoundTrip | scripts/collect_polymarket_wallets_rpc.py:107-111 | every accepted data field, as bytes, is the encoding of the words read from it (each below 2^256) |
| EthLogs.PoolDecodingInverts | scripts/collect_polymarket_wallets_rpc.py:150-167 | a factory log decodes to a pool if and only if it is the canonical encoding of that pool, for some fee (Solidity Contract ABI Specification, section "Use of Dynamic Types") |
| EthLogs.TokensMovedV1 | scripts/collect_polymarket_wallets_rpc.py:180-184 | read from its ABI encoding, a version 1 fill counts the amount of its one outcome-token leg, and any other pair of assets is refused |
| EthLogs.TokensMovedV2 | scripts/collect_polymarket_wallets_rpc.py:185-188 | a version 2 fill counts the tokens received when the maker buys and the tokens given when it sells; other sides are refused |
| EthLogs.EligibleExactly | scripts/collect_polymarket_wallets_rpc.py:204 | exactly the traders that are neither the zero address nor a contract of the venue are kept |
| EthLogs.FillNamesItsTraders | scripts/collect_polymarket_wallets_rpc.py:174-191 | a version 1 fill names its maker and its counterparty exactly when outcome tokens moved, and never the zero address or a contract of the venue |
| EthLogs.SidedFillNamesItsTraders | scripts/collect_polymarket_wallets_rpc.py:174-191 | a version 2 fill names the same two, by the amount its side says is in outcome tokens |
| EthLogs.PoolTradeNamesItsTrader | scripts/collect_polymarket_wallets_rpc.py:192-201 | a trade of a known pool names its one trader, with the role of its direction, exactly when tokens moved; before the pool's creation it is refused; a log of a contract that no factory event announced names nobody, whatever its shape |
| EthLogs.ValidateLogs | scripts/collect_polymarket_wallets_rpc.py:114-147 | a reply is accepted if and only if no two logs conflict and every log is there, lies in the block range, ends included, and has a topic and an emitter that were asked for; the result is strictly increasing in (block, log index) and has the same set of logs |
| EthLogs.OrderedUnique | scripts/collect_polymarket_wallets_rpc.py:114-147 | so the validated reply depends only on which logs were returned, not on their order or repetitions |
| Sorting.StableSortCorrect | src/pmkt/data/book_reconstruction.py:1330-1372 | the sort shared by the causal order, the log order and the comparison order is ordered, a permutation, and stable |
| WalletTable.FaithfulUnique | scripts/collect_polymarket_wallets_rpc.py:386-407 | the set of sightings determines the table: least witness by (block, log index), span and roles leave no freedom |
| WalletTable.JoinFaithful | scripts/collect_polymarket_wallets_rpc.py:386-407 | upserting a range joins two faithful tables: the result is faithful to the union of their sightings, in either order |
| WalletTable.ObserveFaithful | scripts/collect_polymarket_wallets_rpc.py:343-368 | the observations collected from a range in chain order are faithful to the range |
| Registry.CountKnown | scripts/collect_polymarket_wallets_rpc.py:386-407 | the lookup before an upsert counts exactly the wallets of the batch that the table already has |
| Registry.UpsertAll | scripts/collect_polymarket_wallets_rpc.py:386-407 | upserts in batches of 500 are the join of the whole range, and the counted additions are exactly the growth of the table |
| Registry.InsertPools | scripts/collect_polymarket_wallets_rpc.py:381-385 | pools are inserted once each and counted; the commit is refused exactly when an address was created twice by different logs |
| Registry.Gather | scripts/collect_polymarket_wallets_rpc.py:343-368 | decoding a reply stops at the first undecodable log, and otherwise yields its pools, observations and qualifying count |
| Registry.Store.SeedStatusTotals | scripts/collect_polymarket_wallets_rpc.py:288-300 | seeding makes every cached total equal a recount of the tables |
| Registry.Store.RecordRequest | scripts/collect_polymarket_wallets_rpc.py:302-311 | a stored request advances table and cache together; a rolled-back one changes neither, and the cache never claims a wrong total |
| Registry.Store.CommitRange | scripts/collect_polymarket_wallets_rpc.py:335-417 | a commit is all or nothing: it succeeds exactly when every check passes and the transaction is durable, the new tables are the join of the old ones with the range, and cached totals that claim to be current equal a full recount |
| RegistryRuns.TradeCommit | scripts/collect_polymarket_wallets_rpc.py:335-411 | a trade commit keeps the wallet table faithful to exactly the blocks scanned so far |
| RegistryRuns.FactoryCommit | scripts/collect_polymarket_wallets_rpc.py:335-411 | a factory commit records exactly the announced pools and changes no sighting that was already scanned |
| RegistryRuns.RunKeeps | scripts/collect_polymarket_wallets_rpc.py:335-411 | over every run of commits, refusals, roll-backs, window changes and restarts the registry stays faithful to what was scanned |
| RegistryRuns.PositionsDetermine | scripts/collect_polymarket_wallets_rpc.py:335-411 | the stream positions alone determine wallets and pools |
| RegistryRuns.RegistryConverges | scripts/collect_polymarket_wallets_rpc.py:335-411 | two runs with any windows, splits, interleavings and failures that reach the same positions hold the same wallets and pools |
| RegistryRuns.RegistryHoldsTradersOnly | scripts/collect_polymarket_wallets_rpc.py:204 | in every run no wallet row is the zero address or one of the venue's own contracts |
| RegistryRuns.TilesExactly | scripts/collect_polymarket_wallets_rpc.py:374-380 | consecutive ranges hold every scanned block in exactly one range and every other block in none |
| RegistryRuns.CoverageHasNoGaps | scripts/collect_polymarket_wallets_rpc.py:374-411 | in every run each stream's ranges tile [start, next), windows stay in [1, max_blocks], and the AMM position never passes the factory position |
| CanonicalChain.CreationDecodes | scripts/collect_polymarket_wallets_rpc.py:150-167 | a canonical factory event decodes to its pool, or to none and no error if it is of another conditional tokens contract |
| CanonicalChain.PoolTradeDecodes | scripts/collect_polymarket_wallets_rpc.py:192-201 | on a canonical chain whatever a stored pool emitted decodes, and so does any log of an unknown contract |
| CanonicalChain.RangeReads | scripts/collect_polymarket_wallets_rpc.py:343-368 | every complete reply of a canonical chain decodes |
| CanonicalChain.PoolsInsert | scripts/collect_polymarket_wallets_rpc.py:381-385 | inserting pools is refused if and only if two logs created one address; what was stored first stays |
| CanonicalChain.RangeCommits | scripts/collect_polymarket_wallets_rpc.py:335-411 | on a canonical chain every honest range commits wherever the checkpoint admits it, and its row records the request, the number of logs returned, of distinct logs and of qualifying logs |
| Collecting.HalvingsIsLog | scripts/collect_polymarket_wallets_rpc.py:767-805 | the bound on attempts is floor(log2 n) + 1 |
| Collecting.Collector.Step | scripts/collect_polymarket_wallets_rpc.py:767-807 | a step makes at most floor(log2 n) + 1 calls for an n-block attempt, halving it after every refusal and saving the smaller window first; what the last reply was decides the outcome, the committed range, the next window and the stored row, and which error is raised; over a canonical chain a complete reply is always committed when the transaction is durable; it reports no progress exactly when the stream is at its limit |
| Collecting.CompleteReplyValid | scripts/collect_polymarket_wallets_rpc.py:114-147 | every complete reply of a canonical chain passes validation |
| Collecting.CooperativeStepSucceeds | scripts/collect_polymarket_wallets_rpc.py:767-807 | with a provider that answers single blocks and only ever refuses larger ranges, and durable transactions, every step over a canonical chain succeeds |
| Collecting.Collector.Accept | scripts/collect_polymarket_wallets_rpc.py:800-805 | an accepted reply is validated and committed as one range, and the next window doubles, up to the maximum, exactly when the reply was under a quarter of the cap |
| Collecting.Collector.Pass | scripts/collect_polymarket_wallets_rpc.py:1312-1316 | a pass over the streams, any transaction of which may fail, is a run; a pass without progress means every selected stream is past the end block |
| Collecting.CommitAbsorbsShrink | scripts/collect_polymarket_wallets_rpc.py:767-805 | saving smaller windows before the commit makes no difference to the committed tables |
| LegacyWitness.LegacyRunKeeps | scripts/collect_polymarket_wallets_rpc.py:814-823 | every run of the older rule leaves right first and last blocks and roles, and a witness that is least within its own stream of its block |
| WitnessRepair.RepairKeeps | scripts/collect_polymarket_wallets_rpc.py:845-951 | whatever live commits come between, each repaired block span stays repaired and no first block, last block or role changes |
| WitnessRepair.RepairConverges | scripts/collect_polymarket_wallets_rpc.py:827-951 | when the repair is done the registry equals that of a fresh run of the current rule at the same positions, though only blocks with an AMM witness were reread from the exchange stream |
| WitnessRepair.RepairProgress | scripts/collect_polymarket_wallets_rpc.py:845-915 | every answered repair step decreases the work left, and live commits and refusals leave it alone |
| WitnessRepair.RepairEnds | scripts/collect_polymarket_wallets_rpc.py:845-915 | in no run, however live commits come between, does the repair take more steps than the bound of the state it started in, and after that many it is settled; until then there is always a next request or listing |
| WitnessRepair.CorrectKeepsRows | scripts/collect_polymarket_wallets_rpc.py:917-951 | a reread changes witnesses only |
| WitnessRepair.SelectUpdates | scripts/collect_polymarket_wallets_rpc.py:936-946 | looking wallets up 500 at a time lists exactly the rewrites of the whole reread |
| WitnessRepair.RewriteAll | scripts/collect_polymarket_wallets_rpc.py:946-951 | executing the listed updates one by one is the rewrite of the table |
| WitnessRepair.WitnessOrderRepair.Apply | scripts/collect_polymarket_wallets_rpc.py:917-951 | witnesses and progress change together or not at all, and only witnesses differ |
| WitnessRepair.WitnessOrderRepair.Step | scripts/collect_polymarket_wallets_rpc.py:845-915 | each step is one event of the repair protocol, in every phase the one its reply calls for: a refused query of several blocks is narrowed to half, a complete reply from a canonical chain is taken, and nothing is left exactly when the repair is complete or not needed |
| WitnessRepair.CooperativeRepair | scripts/collect_polymarket_wallets_rpc.py:845-915 | with such a provider and durable transactions every repair step over a canonical chain succeeds |
| MainLoop.Collection.CollectAll | scripts/collect_polymarket_wallets_rpc.py:1310-1316 | the main loop over the streams and the repair ends, whatever the replies and whichever transactions fail at whatever turn; when it ends without an error the repair is settled, every selected stream is past the end block, and the registry is one the current rule could have built; on a canonical chain, with providers that answer single blocks and only refuse larger ranges, and with durable transactions, it does end without an error |
| Pacing.ProbesSettle | scripts/collect_polymarket_wallets_rpc.py:581-601 | throttled replies in a row make the next probe wait 1, 2, 4 and 8 minutes, and from the fifth on a quarter of an hour |
| Pacing.ProbesAreSpaced | scripts/collect_polymarket_wallets_rpc.py:581-601 | in an outage at that streak n+1 probes span at least 900 n seconds: at most four an hour |
| Pacing.DeadlineMoves | scripts/collect_polymarket_wallets_rpc.py:603-634 | persisting a deadline when the last one has passed keeps the history disciplined: no start before an earlier deadline, no deadline moving back |
| Pacing.Rpc.constructor | scripts/collect_polymarket_wallets_rpc.py:505-534 | a restarted client resumes with the saved streak, the saved delay clamped to [delay, max(60, delay)], and a wait that reaches the stored deadline |
| Pacing.Rpc.SuccessfulCall | scripts/collect_polymarket_wallets_rpc.py:550-563 | every hundredth success in a row lowers the delay by a tenth, never below the configured one; recovery is saved |
| Pacing.Rpc.WaitAdaptiveCooldown | scripts/collect_polymarket_wallets_rpc.py:565-579 | the sliced wait terminates and ends no earlier than the stored deadline |
| Pacing.Rpc.CallOnce | scripts/collect_polymarket_wallets_rpc.py:659-683 | a request starts only within budget, after the last persisted deadline, and at least the current delay after the previous request |
| Pacing.Rpc.Throttle | scripts/collect_polymarket_wallets_rpc.py:581-601 | a throttled reply persists a deadline no earlier than the provider's Retry-After and the probe wait, before any budget exit |
| Pacing.Rpc.AfterFailure | scripts/collect_polymarket_wallets_rpc.py:614-656 | a failed reply persists the wait the provider asked for, or 1, 2, 4, ... up to 60 seconds, before the client gives up or waits it out; it gives up only if the failure is not retryable, attempts or budget are used up, the wait is excessive, or a second capacity failure came in a row |
| Pacing.Rpc.Call | scripts/collect_polymarket_wallets_rpc.py:603-657 | every response used is one started request counted against the budget; all before the last were retryable failures, and the call ends only with a success, a failure that cannot be retried, used-up attempts or budget, two capacity failures in a row, an excessive cooldown or an interruption |
| Pacing.Invoke | scripts/collect_polymarket_wallets_rpc.py:505-657 | the requests of one invocation never exceed its budget |
| Pacing.Restarts | scripts/collect_polymarket_wallets_rpc.py:505-657 | over any number of invocations on one store no request starts before the last persisted deadline and deadlines never move back |
| TapeRefinement.SameMessageContinues | src/pmkt/data/book_reconstruction_streaming.py:620-631 | a successor of the same message that is not an applied delta of the same book is always rejected |
| TapeRefinement.StreamingRefinesLookahead | src/pmkt/data/book_reconstruction_streaming.py:600-801 | on every tape the delayed-emit engine accepts exactly when the lookahead loop accepts, and then publishes the same (event, book) pairs from the same final state |
| TapeRefinement.PublishesLastOfEachMessage | src/pmkt/data/book_reconstruction.py:459-477 | what is published is the last applied event of each run of events of one message, with the book right after it |
| TapeRefinement.PublishedBooksMatchHashes | src/pmkt/data/book_reconstruction.py:1039-1056 | every published book, the final flush included, has the hash its event declares and was accepted by normalisation |
| TapeAcceptance.SizesDecide | src/pmkt/data/book_reconstruction.py:1017-1036 | level writes are applied to any book if and only if every size is finite and not negative; removing a level that is not there is no error |
| TapeAcceptance.WritingStands | src/pmkt/data/book_reconstruction.py:1017-1036 | writing levels from nothing leaves the last positive write of each side and price, and nothing else |
| TapeAcceptance.CheckpointReads | src/pmkt/data/book_reconstruction.py:1001-1014 | a checkpoint is read if and only if its side counts and sizes are right |
| TapeAcceptance.FitsExactly | src/pmkt/data/book_reconstruction_streaming.py:637-859 | after accepted items the next one is accepted if and only if it fits what the earlier items say: its place in the book, the epoch and pending recovery looked up among them, the last sequence numbers of session and book, and the hash of the standing levels |
| TapeAcceptance.FinishedExactly | src/pmkt/data/book_reconstruction_streaming.py:788-801 | an accepted tape may end if and only if every book with events has ended |
| TapeAcceptance.PublishedBook | src/pmkt/data/book_reconstruction_streaming.py:759-782 | an applied event puts out the levels that stand since its book's checkpoint |
| TapeAcceptance.TapeAccepted | src/pmkt/data/book_reconstruction_streaming.py:600-801 | both readers accept a tape if and only if every item fits the ones before it, every book with events ends, and what is published can be normalised; they publish the last applied event of each message with the levels that stand after it; nothing in this mentions the state of the engine |
| TapeAcceptance.ReportsSaid | src/pmkt/data/book_reconstruction_streaming.py:690-859 | the report of every epoch is what the items say: its checkpoint, what confirmed, superseded or closed it, its first and last local sequence and how many events it applied |
| TapeRefinement.FeedSplits | src/pmkt/data/book_reconstruction_streaming.py:600-631 | feeding two pieces one after the other is feeding their concatenation, whatever message straddles the cut |
| TapeRefinement.GroupsAreTransparent | src/pmkt/data/book_reconstruction_streaming.py:582-598 | feeding commit group by commit group is feeding the whole tape |
| TapeLifecycle.EveryStateFits | src/pmkt/data/book_reconstruction_streaming.py:651-859 | in every reachable state books exist exactly for open epochs, pending recoveries are open epochs, and terminal books have no open epoch |
| TapeLifecycle.OpeningsAreConfirmed | src/pmkt/data/book_reconstruction_streaming.py:720-842 | so far every opening checkpoint but the pending one was confirmed by one recovery control |
| TapeLifecycle.EventsAppliedOrIgnored | src/pmkt/data/book_reconstruction_streaming.py:620-786 | every event is either applied or ignored, and counted once |
| TapeLifecycle.OpeningsAreClosed | src/pmkt/data/book_reconstruction_streaming.py:690-842 | so far every epoch was closed on the tape as often as it was opened, but for one that is open now |
| TapeLifecycle.ClosingItem | src/pmkt/data/book_reconstruction_streaming.py:690-842 | what closes an epoch is a closing control of its book or a reconstructible checkpoint of its book with another epoch |
| TapeLifecycle.OpenedIsReported | src/pmkt/data/book_reconstruction_streaming.py:690-842 | every epoch opened on the tape has a report, and the report names its last opening and, once closed, the item that closed it |
| TapeLifecycle.FinishedTapeIsComplete | src/pmkt/data/book_reconstruction_streaming.py:788-801 | a tape that finishes has a terminal boundary for every book with events; each epoch is confirmed and closed exactly as often as it is opened, so once when its id is fresh, and its report says by what |
| TapeLifecycle.BookIsLastWrites | src/pmkt/data/book_reconstruction.py:1001-1036 | replaying level writes keeps exactly the last write of each side and price, and only positive sizes |
| TapeLifecycle.BookMeaning | src/pmkt/data/book_reconstruction_streaming.py:683-768 | every book in every reachable state holds exactly the last positive writes since its epoch's checkpoint |
| TapeLifecycle.RestatingCheckpoint | src/pmkt/data/book_reconstruction_streaming.py:690-733 | an accepted checkpoint leaves every book as it was if and only if its levels restate the open book |
| TapeLifecycle.RestatingChangesNoLaterBook | src/pmkt/data/book_reconstruction_streaming.py:690-768 | after a restating checkpoint every open book, however much later, is the replay of the tape without that checkpoint |
| TapeLifecycle.RestatingChangesNoPublication | src/pmkt/data/book_reconstruction_streaming.py:690-768 | every book published later is the replay of the tape without that checkpoint |
| TapeOrder.GroupsSortTogether | src/pmkt/data/book_reconstruction.py:1330-1372 | if two group orders follow one another causally, together they are the causal order of the joined tape, ties included |
| TapeOrder.JournalSortsTogether | src/pmkt/data/book_reconstruction.py:1330-1372 | the same for any number of commit groups |
| TapeOrder.TextOrderMeans | src/pmkt/data/book_reconstruction.py:1330-1372 | texts compare by prefix or by the first character that differs |
| TapeOrder.CausalOrderMeans | src/pmkt/data/book_reconstruction.py:1330-1372 | the causal order is by run and shard, then strictly by local sequence, subsequence and priority |
| TapeOrder.StreamingEqualsWholeTape | src/pmkt/data/book_reconstruction_streaming.py:582-631 | when the group orders follow one another causally (a single shard in order, for one), reading a journal group by group gives the verdict, the publications and the state of one sort of the whole journal followed by the lookahead loop |
| TapeShards.ReachOfShard | src/pmkt/data/book_reconstruction_streaming.py:637-859 | an accepted tape leaves each (run, shard) exactly where that shard's own items leave it |
| TapeShards.AcceptedByShards | src/pmkt/data/book_reconstruction_streaming.py:637-859 | a tape is accepted so far if and only if each shard's items alone are |
| TapeShards.InterleavingKeepsState | src/pmkt/data/book_reconstruction_streaming.py:637-859 | however the shards are interleaved, the same items in the same order per shard have the same verdict and reach the same state, up to the order of the list of ignored events |
| JournalReaders.JournalHasSameShards | src/pmkt/data/book_reconstruction.py:1330-1372 | the sort of a journal keeps, shard by shard, the order of its commit groups if each shard is in order |
| JournalReaders.EmittedOfShard | src/pmkt/data/book_reconstruction_streaming.py:620-768 | an event of an accepted tape puts out the same book as when its shard is read alone |
| JournalReaders.ReadingsCompared | src/pmkt/data/book_reconstruction_streaming.py:600-801 | two readings of the same shards, the second of which interrupts no message: the first accepts if and only if the second does and every event it publishes early can be normalised; then the states agree, each book is published once more per interrupted message, and publications agree book by book if and only if none is interrupted |
| JournalReaders.ReadersCompared | src/pmkt/data/book_reconstruction_streaming.py:582-631 | that comparison for the engine fed group by group against the reader of the whole tape, on every journal whose shards are each in order, however they are interleaved |
| JournalReaders.InterruptedMessageDiffers | src/pmkt/data/book_reconstruction_streaming.py:620-631 | a journal that both readers accept and publish differently: an item of another shard comes between two events of one message |
| JournalReaders.BackwardsIsRefused | src/pmkt/data/book_reconstruction_streaming.py:651-656 | the engine refuses every journal whose commit groups go back in one book |
| JournalReaders.BackwardsDiffers | src/pmkt/data/book_reconstruction.py:1330-1372 | such a journal can be accepted by the reader of the whole tape, which sorts first |
| TapeOrder.ProgressFailsExactly | src/pmkt/data/book_reconstruction.py:1375-1378 | after the causal sort the progress check rejects an item if and only if an earlier item of its book has the same (local sequence, subsequence, priority) |
| TapeOrder.SequencesIncrease | src/pmkt/data/book_reconstruction.py:1279-1327 | on an accepted tape non-periodic Kalshi events of one (run, shard, sid) strictly increase in venue sequence between reconnects of the shard |
| TapeOrder.PeriodicRestates | src/pmkt/data/book_reconstruction.py:1279-1327 | each accepted periodic checkpoint restates its own book's last sequence and sid |
| TapeEngine.ReadTape | src/pmkt/data/book_reconstruction.py:263-487 | the lookahead loop computes its specification: same verdict, same publications |
| TapeEngine.ReconstructionEngine.ResetVenueOrder | src/pmkt/data/book_reconstruction.py:1262-1276 | a reconnect forgets the sequences of one (run, shard) and the book's position, and nothing else |
| TapeEngine.ReconstructionEngine.ValidateVenueOrder | src/pmkt/data/book_reconstruction.py:1279-1327 | the in-place check of venue sequences agrees with its specification on verdict and new state |
| TapeEngine.ReconstructionEngine.ApplyControl | src/pmkt/data/book_reconstruction_streaming.py:803-859 | the in-place control handling agrees with its specification on verdict and new state |
| TapeEngine.ReconstructionEngine.WriteAll | src/pmkt/data/book_reconstruction.py:1017-1036 | absolute writes in order give the replayed book, or are refused exactly when a level is not representable |
| TapeEngine.ReconstructionEngine.Process | src/pmkt/data/book_reconstruction_streaming.py:637-782 | one causal item: the mutated fields are exactly the specified next state, and it is refused exactly when the specification refuses |
| TapeEngine.ReconstructionEngine.EmitPending | src/pmkt/data/book_reconstruction_streaming.py:861-895 | the held-back message is normalised once and forgotten |
| TapeEngine.ReconstructionEngine.NextChunk | src/pmkt/data/book_reconstruction_streaming.py:600-786 | a group resumed in chunks of any size returns the rows of the uninterrupted group, and every chunk but the last reaches the limit |
| TapeEngine.ReconstructionEngine.Finish | src/pmkt/data/book_reconstruction_streaming.py:788-801 | the final flush and the closing checks |
| TapeEngine.ReconstructionStream.Next | src/pmkt/data/book_reconstruction_streaming.py:218-283 | for any batch size the next pair of batches, at most that long per table and never both empty, continues the rows of the unbatched run; the stream ends exactly when all were delivered and the tape was accepted |
| TapeEngine.ReconstructionStream.Drain | src/pmkt/data/book_reconstruction_streaming.py:215-283 | drawing batches until the stream is exhausted ends; it succeeds if and only if the tape is accepted, and then the batches together are the rows of the unbatched run |
| TopbookParity.BisectRight | src/pmkt/data/book_reconstruction.py:1614-1621 | the bisection splits a history exactly at the last row not after the position |
| TopbookParity.EventRows | src/pmkt/data/book_reconstruction.py:1564-1568 | the lookup by event holds the last row of each event id |
| TopbookParity.CompareSource | src/pmkt/data/book_reconstruction.py:1605-1665 | no row is missing or mismatched if and only if every recorded row agrees with its counterpart: its own event's row if that is not later, else the as-of row; rows without a counterpart and rows with a wrong value are counted |
| TopbookParity.MissingChanges | src/pmkt/data/book_reconstruction.py:1667-1700 | no change is missing if and only if each has a recorded row with its fingerprint at or after it and before the next change; the others are counted |
| TopbookParity.CompareTopbooks | src/pmkt/data/book_reconstruction.py:1505-1720 | zero discrepancies if and only if parity holds for every instrument; recorded rows that share instrument and receipt time, and nothing else, raise; each kind of discrepancy is counted exactly |
| TopbookParity.ValuesCompared | src/pmkt/data/book_reconstruction.py:2205-2224 | numbers differ exactly when more than 1e-12 apart; texts, flags and missing values exactly when not the same; a flag equals a number that is 0 or 1 |
| TopbookParity.WrongValueNeverMatches | src/pmkt/data/book_reconstruction.py:1605-1665 | a recorded row with one wrong value, held against its counterpart, is never reported as a match |
| TopbookParity.UnexplainedNeverMatches | src/pmkt/data/book_reconstruction.py:1605-1665 | nor is a recorded row before everything reconstructed |
| TopbookParity.RightValuesMatch | src/pmkt/data/book_reconstruction.py:1505-1720 | conversely, unique keys, counterparts of the same values and every change shown in time are reported as a match |
| TopbookParity.CounterpartIsNotLater | src/pmkt/data/book_reconstruction.py:1605-1635 | a counterpart is not later than the row it explains: by local sequence, then receipt clock, then receipt time |
| TopbookParity.CounterpartIsLatest | src/pmkt/data/book_reconstruction.py:1605-1635 | and every later row of the history comes after the explained row, unless it names its event |
| TopbookParity.ChangesMatchThemselves | src/pmkt/data/book_reconstruction.py:1509-1576 | when every row has an event id of its own in its instrument, the comparison of exactly the state-change rows with their reconstruction raises if and only if two of them share instrument and receipt time, and otherwise matches if and only if no two consecutive changes share a comparison position |
| TopbookParity.SameReceiptRaises | src/pmkt/data/book_reconstruction.py:1509-1518 | two changes of one instrument received at one time, recorded faithfully, raise whatever their positions |
| TopbookParity.TiedChangesDiffer | src/pmkt/data/book_reconstruction.py:1667-1700 | two different states at one position under different receipt texts, recorded faithfully, are reported as a missing change |
| DepthParity.UniqueParityRows | src/pmkt/data/book_reconstruction.py:2124-2136 | the key index is built exactly when no two rows share a key, and then holds every row under its key |
| DepthParity.Baseline | src/pmkt/data/book_reconstruction.py:1846-1893 | bisecting the recorded positions finds the last snapshot of the instrument at or before the checkpoint, if there is one |
| DepthParity.CompareLevels | src/pmkt/data/book_reconstruction.py:1893-1955 | level by level, no discrepancy if and only if checkpoint and snapshot have the same levels with the same values; a repeated level, and nothing else, raises; the levels apart are counted |
| DepthParity.CompareCheckpoint | src/pmkt/data/book_reconstruction.py:1867-1955 | a periodic checkpoint passes if and only if a snapshot was recorded before it and it restates the last one; mixed coordinates or repeated levels, and nothing else, raise |
| DepthParity.SortUnrecorded | src/pmkt/data/book_reconstruction.py:1812-1843 | unrecorded rows are split into periodic checkpoints and missing rows; none is missing exactly when all unrecorded rows are periodic |
| DepthParity.CompareDepths | src/pmkt/data/book_reconstruction.py:1723-1989 | zero discrepancies if and only if every recorded row has its reconstructed row with the same values and what was not recorded only restates snapshots; it raises exactly on ambiguous rows; the count is that of the unmatched recorded rows, the unrecorded rows of no checkpoint, and the levels no checkpoint restates |
| DepthParity.WrongValueNeverMatches | src/pmkt/data/book_reconstruction.py:1776-1810 | a recorded row with one wrong value is never reported as a match |
| DepthParity.WrongCheckpointNeverMatches | src/pmkt/data/book_reconstruction.py:1893-1955 | nor is a periodic checkpoint with a wrong venue sequence, session or value, or a level the snapshot does not have |
| DepthParity.MissingLevelNeverMatches | src/pmkt/data/book_reconstruction.py:1893-1955 | nor a checkpoint that leaves out a level of the snapshot |
| DepthParity.RightValuesMatch | src/pmkt/data/book_reconstruction.py:1723-1989 | conversely, rows and checkpoints with the same levels and values are reported as a match |
| DepthParity.BaselineIsLatest | src/pmkt/data/book_reconstruction.py:1846-1893 | the snapshot held against a checkpoint is the latest not after it, by local sequence and then receipt time |
| DepthParity.KeysTellApart | src/pmkt/data/book_reconstruction.py:1723-1762 | rows share a key exactly when instrument, local sequence, venue sequence, session, side and level agree |
| DepthParity.CompleteRecording | src/pmkt/data/book_reconstruction.py:1723-1989 | the comparison of all reconstructed rows with themselves matches if and only if no two share a key, and raises otherwise |
| SegmentedSink.ClosedLayout | src/pmkt/data/io.py:489-516 | full segments followed by the last one are as few as the limit allows: max(1, ceil(N / segment_rows)) |
| SegmentedSink.StreamingParquetSink.FlushSegmented | src/pmkt/data/io.py:489-516 | the flush loop terminates under any clock and moves the whole buffer into segments, in order |
| SegmentedSink.StreamingParquetSink.Write | src/pmkt/data/io.py:439-445 | at every point completed segments, then the active one, then the buffer are the rows written, in order; a row waits in the buffer until the flush interval is reached; a segment completed before closing was full or over its age limit, and one still open was not |
| SegmentedSink.StreamingParquetSink.Close | src/pmkt/data/io.py:603-621 | closing loses nothing, segment i has index i and 1 to segment_rows rows, all but the last were full or over their age limit when completed, and an empty sink leaves one empty segment or file |
| SegmentedSink.Session | src/pmkt/data/io.py:390-621 | a whole session: any rows, any flush interval, any clock; with row rotation alone the segment count is max(1, ceil(N / segment_rows)) and all but the last are full |
| SegmentedSink.AppendParquetSegment | src/pmkt/data/io.py:271-320 | an appended segment comes after all others under a name no file has; existing segments and files are untouched |
| SegmentedSink.ParquetSink.Flush | src/pmkt/data/io.py:172-223 | a failed flush latches: every later flush fails, and an existing file is out of the writer's reach |
| SegmentedSink.AppendSession | src/pmkt/data/io.py:151-242 | whatever flushes fail, closing returns only if every row landed after the old ones, and otherwise an existing file is unchanged |
| Publication.OutputDirectory.PublishAliases | scripts/wallet_registry_export.py:153-163 | replacing aliases one at a time never leaves one dangling |
| Publication.OutputDirectory.PruneGenerations | scripts/wallet_registry_export.py:165-169 | pruning after all aliases moved removes every generation but the two retained, and is safe wherever it stops |
| Publication.OutputDirectory.PublishGeneration | scripts/wallet_registry_export.py:172-215 | interrupted anywhere, a publication either changed nothing or committed: the pointer selects the complete new generation and the remembered one survives; an incomplete or invalid generation is refused; undisturbed, a complete and valid one is published, and the generation selected before survives if and only if the pointer could be read |
| Publication.OutputDirectory.Export | scripts/wallet_registry_export.py:218-283 | one worker, interrupted anywhere, is one session of the protocol; undisturbed it publishes; a normal return means the pointer selects its generation, and after a failure its generation is removed if the cleanup gets through and the pointer can be read |
| Publication.OutputDirectory.CleanKilledWorker | scripts/wallet_registry_export.py:382-395 | cleaning up after a killed worker spares a generation that the pointer may select, and otherwise removes it, undisturbed, and touches no other; it leaves the directory safe unless aliases led into a generation the pointer does not select |
| Publication.ReaderKeepsBundle | scripts/wallet_registry_export.py:165-215 | a reader that read the pointer finds its whole bundle until the second later publication, through any crashed or failed sessions, provided the publishers could read the pointer |
| Publication.AtMostTwoRemain | scripts/wallet_registry_export.py:165-169 | an undisturbed publication leaves at most two generations |
| Publication.LateCleanupDangles | scripts/wallet_registry_export.py:382-395 | an input where the same cleanup, run only after a later session has committed and stopped, leaves aliases dangling |
| Publication.Exports | scripts/wallet_registry_export.py:218-395 | any sequence of exports under fresh names, each with any interruption and with or without the cleanup after a kill, is a run: the pointer always selects a complete generation and no alias dangles after any session |
| HistoricalScan.FilterPage | src/pmkt/cli/ingest.py:1008-1018 | a page keeps exactly the markets settled before the frozen cutoff, in order, and counts the rest |
| HistoricalScan.KeepsTheEarlier | src/pmkt/cli/ingest.py:1009-1016 | the cutoff filter keeps each market settled before the cutoff as often as it occurs, and no other |
| HistoricalScan.ScanReadsPages | src/pmkt/cli/ingest.py:990-1031 | the rows of a scan are the filtered concatenation of the pages on its cursor chain, and the dropped count is exactly the rest |
| HistoricalScan.ScanPages | src/pmkt/cli/ingest.py:990-1031 | the page loop computes the scan: same rows, dropped count, page count, final cursor or failure |
| HistoricalScan.CollectSegment | src/pmkt/cli/ingest.py:960-1037 | one run of the command: scan, cutoff checks around it, key check after it |
| HistoricalScan.ScanWalks | src/pmkt/cli/ingest.py:990-1031 | a scan follows the cursors over usable pages to cursors not met before, and ends by its budget, at an unusable answer, at the end of the listing or at a repeated cursor, each with its result |
| HistoricalScan.RunEndsForAReason | src/pmkt/cli/ingest.py:960-1037 | a run is refused exactly when the cutoff reported before or after the scan lies before the frozen one, the walk ends badly, or a retained row has no key or a repeated one; otherwise it succeeds |
| HistoricalScan.BoundedIsPrefix | src/pmkt/cli/ingest.py:990-1031 | a bounded scan reads the first pages of the whole one, and its final cursor leads to the rest |
| HistoricalScan.ResumeEqualsOneScan | src/pmkt/cli/ingest.py:888-1037 | whenever one scan succeeds, so does every chain of resumed segments under the frozen cutoff, with the same rows in order and the same dropped total once the budgets reach the end |
| HistoricalScan.ExhaustedChainIsOneScan | src/pmkt/cli/ingest.py:888-1037 | conversely a chain that reached the end is what one scan reads; the scan is refused exactly when a key repeats across segments |
| HistoricalScan.RepeatedKeyNeedsOneFile | src/pmkt/cli/ingest.py:832-851 | an input where a chain succeeds and one scan is refused |
| HistoricalScan.SegmentFiles.Publish | src/pmkt/cli/ingest.py:1036-1113 | the rollback of a failed segment leaves none of its outputs if and only if the exception missed the gaps between a file's appearance and its flag |
| CursorPages.TrailsAgree | src/pmkt/data/historical_books.py:498-539 | any way to the end of a cursor chain passes through every position on the way |
| CursorPages.EveryPage | src/pmkt/data/historical_books.py:498-539 | the pages to the end of a chain are determined by the listing |
| CursorPages.RepeatedNeverEnds | src/pmkt/data/historical_books.py:533-536 | a cursor that comes back means the listing never ends |
| CursorPages.RefusedExactly | src/pmkt/data/historical_books.py:498-525 | a page is refused if and only if the request fails, it cannot be used, or it repeats one of its own ids or an earlier one |
| CursorPages.BackfillPartition | src/pmkt/data/historical_books.py:493-539 | pages are taken whole or not at all, and the stop reason is true of the listing |
| CursorPages.BackfillTrades | src/pmkt/data/historical_books.py:483-565 | the rows are the concatenation of every partition's pages, ids are unique across all of them, and page limits hold |
| CursorPages.GapsAreTheIncomplete | src/pmkt/data/historical_books.py:551-564 | there is exactly one gap row per incomplete partition, in order |
| CursorPages.CompleteMeansEveryPage | src/pmkt/data/historical_books.py:540-550 | a partition is marked complete if and only if its pages are all pages of its chain to the end, which are then unique |
| CursorPages.IncompleteForAReason | src/pmkt/data/historical_books.py:498-550 | when the chain does end, an incomplete partition was refused a page (unusable or repeating an id) or met its page limit before the end |
| CursorPages.KeysetPartition | src/pmkt/cli/ingest.py:507-553 | the keyset loop terminates on any finite cursor space, within the shared page budget, and stops for a true reason; the page count includes a page it refused |
| CursorPages.RunPartitions | src/pmkt/cli/ingest.py:493-571 | partitions run in order up to the first incomplete one, and each records its stop reason, cursor and counts truthfully; all pages together, refused ones included, stay within the one budget, and a partition that the limit stopped reached it |
| CursorPages.IngestKeyset | src/pmkt/cli/ingest.py:493-571 | the collection is complete if and only if every partition reached the end of its chain; ids are unique across partitions, and so is the page budget |

## Left out

- HTTP transport and JSON; logs reach the registry with their hexadecimal fields already read (`HexText` models the reading). SQLite pragmas and WAL maintenance, file locks, subprocesses and signals as operating-system objects: only atomic commits and renames, and the places where a run can stop, are kept.
- Arrow and Parquet encoding, DuckDB parity queries, pandas coercion, schema and record-class checks: rows are plain values.
- Hashes and row normalisation are functions given to the model; prices, sizes and delays are reals.
- Request ids inside wallet evidence, and the repair's request and update counters: they differ between runs by design.
- The wallet roles mask is modelled as the set of its bits.
- Block hashes across replies and the end-block anchor: the chain is fixed. A provider is assumed to answer completely below its log cap, a place on the chain to hold one log, pools to emit no trade before their creation and, for the older rule and its repair, never to have an exchange's address.
- A provider whose request never returns. A failed request is an outcome: it ends the invocation, as in the code.
- JournalReaders.ReadersCompared: journals whose commit groups hold different books of one shard out of order, each book in order, are not compared; the reconstruction is documented to read each shard in its local sequence.
- A failed insert of the record of a request, before the request is made; every transaction after a reply may fail.
- Level rows are attached to their event before the tape is modelled; the venue-book filter, the causal-key metadata of the older reader and the event count taken per group in advance are not modelled.
- The per-item body shared by the streaming engine and the older reader is specified once; only verdicts, publications and final states are compared between them, not error texts.
- The DuckDB forms of both comparators, comparison rows without a valid coordinate (the code raises before comparing), and a depth source that is not available.
- Segment manifests and temporary files of the segmented sink, the CSV and JSONL sinks.
- Cleanup of a killed worker runs before the next publication, if at all, as the single collector process does; LateCleanupDangles shows what would go wrong otherwise. Generation names are fresh.
- MainLoop: exports between two rounds, the final check of the end-block anchor and user interruption. Each round's replies are arbitrary but honest, and a request that reaches its budget ends the loop like any failed one.
- Snapshot copying, export progress files and the content checks of a manifest other than the presence of its artifacts.
- An exception inside the rollback of a historical segment, and staged files of the evidence bundle.
- Restarts: the request delay is kept between the requests of one invocation; the code does not keep it across invocations, only the persisted deadline.
- Pacing.Rpc.Call: an interruption between persisting a deadline and remembering its wait, in a process that then goes on, is not modelled. A Retry-After header too large to represent persists no deadline, as in the code.
- How an HTTP status or a JSON-RPC error text is classified as retryable, throttled, a capacity failure or a range limit: a reply arrives classified.
- Invalid saved pacing state (the code raises): only values the code itself saves are modelled.
- Market catalogue, contract evidence, quote projection, journal and manifest loading, command-line parsing.
