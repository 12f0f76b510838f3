# Arckive, verified

A Dafny model of the parts of Arckive where the order of events, failures and restarts decides whether data is
right, with proofs of what those parts promise.

Arckive is a pipeline of cursors. A worker ingests logs of tracked contracts into event tables; an insight loop
labels the rows behind it; a rollup keeps per-address daily totals; a live tape releases blocks to viewers. Beside
the pipeline stand an operator that decides which watch events cost a reconcile, a pool of RPC endpoints, keyset
pagination, exact decimal formatting, a rank-sum AUC and the turns that viewers' questions take.

Each protocol is a state machine over the steps at which others can run: a callback, a statement, a transaction's
end, a crash. The main results are about every run. Where the code is a class whose methods change its fields,
a class here has those fields and each method is proved to do to them what the state machine's step says.

| module | models |
|---|---|
| `Ranges`, `Ingest`, `Workers` | the ingest round, its span and its transaction |
| `Partitions`, `PartitionBooks` | partitions planned, made and finished |
| `Interning`, `Labels`, `Dictionaries` | address, sentence and label dictionaries |
| `Insights`, `InsightsLoops` | labelled rounds behind ingest |
| `Rollup`, `RollupReplicas` | daily totals by competing replicas |
| `Stages` | ingest, insights, rollup and partitions on one run |
| `Gate`, `ReconcileGates` | the operator's ReconcileGate |
| `RpcPool`, `Pools` | failover and halving across endpoints |
| `Tape`, `Hub`, `LiveHubs` | the live tape's buffer and streams |
| `Release`, `Tailer`, `LiveTailers` | which blocks go out, and when |
| `LiveTape` | tailer and hub on one run |
| `Window`, `RollingWindows` | the last minute's figures |
| `Digits`, `Format`, `History` | decimals, amounts, pages of transfers |
| `Auc` | the rank-sum loop |
| `Rotation`, `QuestionRotas` | whose question a batch carries |

`dafny verify dfyconfig.toml` checks everything.

## Model

| member | source | states |
|---|---|---|
| Ingest.IngestIsComplete | packages/worker/src/pipeline.ts:58-164 | over any run of rounds, range caps, failed reads, rollbacks, lost commit replies, crashes and restarts, the database holds exactly the chain's tracked logs up to the cursor, each once as its row or as one dead letter, if and only if nothing escaped a committed round; and then from the contracts' first blocks on |
| Ingest.RoundIsCompleteExactly | packages/worker/src/pipeline.ts:92-110 | one committed round keeps the database exact if and only if its guard ran, or its node had seen the range to the end, or what it had not seen holds no tracked log it did not return anyway |
| Ingest.RoundSound | packages/worker/src/pipeline.ts:75-163 | a round that changes the database moves the cursor strictly forward, by at most the span and never past its target; any other leaves the database alone |
| Ingest.LostForGood | packages/worker/src/pipeline.ts:108-110 | a tracked log left out behind the cursor is never written by any later run |
| Ingest.LaggingPollLoses | packages/worker/src/pipeline.ts:69-110 | an input that loses a log: the head is polled and the node that answers `getLogs` is one block behind it |
| Ingest.FirstRoundLoses | packages/worker/src/pipeline.ts:58-164 | a concrete legal run that does so in its first round: one contract from block 5 on, one log there, the head polled at 5, a node that has seen block 4 |
| Ingest.TrackedIsPastInitial | packages/worker/src/pipeline.ts:37-43 | the initial cursor skips no log that would be stored or dead-lettered |
| Ingest.BeginsAtEarliest | packages/worker/src/pipeline.ts:37-43 | ingest begins right before the earliest start block of any contract |
| Ingest.FirstWriteStays | packages/worker/src/db.ts:290-294 | what is stored under a key stays, and of several new rows with one key the first is stored |
| Ingest.FateIsByDefinition | packages/worker/src/pipeline.ts:88-143 | a log is left out if and only if no definition has its lower-cased address and first topic, or it is before the start of the last contract listed there; any other is decoded by the last definition that has both, into a row of that definition's table or a dead letter |
| Ingest.RoundWrittenOut | packages/worker/src/pipeline.ts:58-164 | every way a round can end, by the announced and polled head, the fetch, the query head and the commit: the cursor and span it leaves and what it reports |
| Ingest.AnnouncedIsComplete | packages/worker/src/pipeline.ts:92-107 | an announced round lets nothing escape, however far the query node lags |
| Ingest.SpanStaysUp | packages/worker/src/pipeline.ts:111-120 | against a provider that refuses only ranges over a cap, the working span never falls below half the cap rounded up, or the configured maximum if lower |
| Workers.Worker.RunOnce | packages/worker/src/pipeline.ts:58-164 | the round as it runs, its loops over the logs included, leaves exactly the state and outcome the state machine says |
| Workers.Database.CommitBatch | packages/worker/src/db.ts:341-418 | the transaction, row by row with conflicts ignored, is the one commit of the state machine, or nothing |
| Ranges.PlanRange | packages/core/src/ranges.ts:6-15 | a planned range starts right after what was processed, is not empty, ends at the head at most and spans at most the batch; none is planned only if there is nothing to do |
| Ranges.ShrinksBounded | packages/worker/src/rangesizer.ts:20-34 | over any run, halvings are at most log2 of the maximum plus one for every twenty ranges that went through |
| Ranges.CapFloor | packages/worker/src/rangesizer.ts:20-34 | against a fixed cap the span never falls below half of it, rounded up, or the maximum if lower |
| Ranges.CleanRangesDouble | packages/worker/src/rangesizer.ts:28-34 | short of the maximum, twenty clean ranges since the last change double the span, up to the maximum, and fewer change nothing |
| Ranges.CapHalves | packages/worker/src/rangesizer.ts:20-26 | a cap halves the span and starts the count over; a span of one, and a clean range at the maximum, change nothing |
| Ranges.SizerBounds | packages/worker/src/rangesizer.ts:8-35 | the span stays between one and the maximum over any run |
| Partitions.PartitionIsUnique | packages/core/src/partitions.ts:9-22 | a block lies within the bounds of one partition, the one its number divides to |
| Partitions.PlanIsWhatIsMissing | packages/worker/src/db.ts:124-137 | a plan lists exactly the partitions a batch's blocks fall in, for its tables, that are not made |
| Partitions.PlansNeverCross | packages/worker/src/db.ts:124-137 | whatever two plans share, both create in the same order, so writers never wait on each other in a circle |
| Partitions.FinishedStaysFinished | packages/worker/src/db.ts:113-165 | over any batches, rollbacks, lost replies and restarts every row lies in one existing partition, no process reports a partition finished twice, and no later batch writes into one that any process reported |
| Partitions.LeftBehindIsReported | packages/worker/src/db.ts:144-165 | over the same runs a process has reported exactly the partitions it knows made that its batches to the table have left behind, from the newest of its first batch on |
| Partitions.EverIsReported | packages/worker/src/db.ts:144-165 | the partitions no later batch may write into are exactly those some process of the run had reported |
| Partitions.BatchWrittenOut | packages/worker/src/db.ts:341-418 | a committed batch adds exactly its rows, a blocks row for each of their blocks and the missing partitions of its tables they fall in, which the process knows made only if the reply arrives; rolled back it adds nothing, and a restart only forgets |
| PartitionBooks.PartitionBook.Committed | packages/worker/src/db.ts:144-165 | what a commit makes known and reports, by the loops that search the finished partitions, is the specification's |
| Stages.StepAdds | packages/worker/src/pipeline.ts:97-146 | whatever a round lets escape, an ingest event adds rows and `_blocks` rows only past the old cursor and up to the new one, each row a log's of the chain, and changes none |
| Stages.KeysAreUnique | packages/worker/src/db.ts:341-418 | block and log index name one row across all event tables |
| Stages.RowBatchFollows | packages/worker/src/insightsdb.ts:89-120 | the rows an ingest event adds are what the insight loop relies on |
| Stages.TransferBatchFollows | packages/explorer/lib/rollup.ts:32-49 | the transfers and blocks an ingest event adds are what the rollup relies on |
| Stages.InsightsCoverTheTables | packages/worker/src/insights.ts:134-271 | with ingest, the loop and the rollup in any interleaving, `_insights` holds one insight for each event row ingest wrote between where lanes began and the insights cursor, and nothing else |
| Stages.LogsAreLabelled | packages/worker/src/insights.ts:134-271 | where nothing escapes ingest, each decodable tracked log of the chain in that stretch has its one insight and every insight is such a log's |
| Stages.TotalsCoverTheTables | packages/explorer/lib/rollup.ts:82-140 | in the same runs the daily totals are the fold from scratch of the transfers in ingest's tables, each once, and received equals sent equals transferred |
| Stages.TransfersAreTheChains | packages/explorer/lib/rollup.ts:32-49 | where nothing escapes ingest, what is folded is exactly the chain's transfers up to the worker's cursor, none twice |
| Stages.RowsHaveTheirPartitions | packages/worker/src/db.ts:341-418 | on ingest's own rounds, the three promises about partitions hold without assuming where batches lie |
| Insights.InsightsAreComplete | packages/worker/src/insights.ts:134-271 | with ingest committing at any point, model failures, other failures, rollbacks, lost replies and crashes, each event row of (start, insights cursor] has one insight, nothing else has, and the loop never passes ingest |
| Insights.KeptRoundStaysRight | packages/worker/src/insights.ts:221-271 | whatever happened since, a kept round starts right after the cursor and holds all rows of its blocks |
| Insights.CapRangeIsRoundEnd | packages/worker/src/insightsdb.ts:74-87 | a round ends at the largest block boundary within the row limit, or at one oversized block |
| Insights.RoundsAdvance | packages/worker/src/insights.ts:189-212 | a written round moves the cursor from right before its first block to its last |
| Insights.RoundsUseTheirAnswers | packages/worker/src/insights.ts:189-204 | in any reachable state, a round written under some answers gives each row of its blocks its own sentence and the lane settled on the answer to it, or on none if the row is ruled or unanswered, and changes no other insight; rolled back it writes nothing |
| Insights.PlanWrittenOut | packages/worker/src/insights.ts:134-161 | a round is planned right after the insights cursor up to the ingest cursor and a batch at most; a start behind the head is first set that far behind it, or at the floor |
| Insights.ReadsWrittenOut | packages/worker/src/insights.ts:160-161 | a planned range is cut at a round's end, and its round holds exactly the rows up to there |
| Insights.FailuresWrittenOut | packages/worker/src/insights.ts:244-266 | a failed model call changes nothing and no other round is planned meanwhile; any other failure drops the round |
| InsightsLoops.Database.CommitInsights | packages/worker/src/insightsdb.ts:243-285 | rows inserted one by one and the cursor, in one transaction, are the state machine's write or nothing |
| InsightsLoops.Loop.ReadRound | packages/worker/src/insightsdb.ts:89-120 | the loop over the tables reads exactly the rows of the round's blocks |
| Rollup.TotalsAreExact | packages/explorer/lib/rollup.ts:82-140 | for every interleaving of ingest and replicas' statements, with failures, timeouts and commits whose reply is lost, the totals are the fold from scratch up to the rollup cursor, which never passes the worker's, and at most one replica is in its transaction |
| Rollup.FoldsCompose | packages/explorer/lib/rollup.ts:32-49 | folding one range and then the next onto it is folding both, so spans do not matter |
| Rollup.SpansDoNotMatter | packages/explorer/lib/rollup.ts:105-140 | two systems with the same rows folded equally far have the same totals, whatever their spans, replicas and failures |
| Rollup.ValueIsConserved | packages/explorer/lib/rollup.ts:32-49 | the column received and the column sent both sum to what was transferred up to the rollup cursor |
| Rollup.CommitMovesForward | packages/explorer/lib/rollup.ts:128-140 | a commit always moves the rollup's cursor forward |
| Rollup.CommitTakesSpan | packages/explorer/lib/rollup.ts:113-131 | whatever ran meanwhile, a committed fold takes the replica's span of blocks from the first block with rows on, or goes to the cursor it read; it reports more if and only if it ended before that cursor, and the span then doubles up to the maximum |
| Rollup.CancelHalves | packages/explorer/lib/rollup.ts:132-138 | a cancelled statement halves what the next step takes, down to 500 blocks, or to one where fewer are the maximum |
| Rollup.EarlyEnds | packages/explorer/lib/rollup.ts:86-112 | a step ends early, writing nothing, exactly where the lock is held, there is no cursor, or the rollup is at it or past it, and says which |
| Rollup.OneTransferCounts | packages/explorer/lib/rollup.ts:32-49 | a transfer counts once on each side, its receiver's row and its sender's of that UTC day, or both sides of one row for a transfer to oneself |
| Rollup.FoldWrittenOut | packages/explorer/lib/rollup.ts:113-129 | between lock and commit nothing is written; a step folds only where a block has rows, and a commit whose reply is lost writes what a commit does but doubles nothing |
| RollupReplicas.Rollup.First | packages/explorer/lib/rollup.ts:105-115 | the search for the first block with rows finds it, or there is none |
| Interning.NeverRepointed | packages/worker/src/db.ts:306-339 | over any batches that commit or roll back, an id once given keeps its entry |
| Interning.KnownTakeNoId | packages/worker/src/insightsdb.ts:154-162 | inserting entries that are known takes no identity value |
| Interning.NoIdIsBurned | packages/worker/src/db.ts:306-339 | with nothing rolled back, as many ids are taken as there are entries |
| Interning.AddressesRoundTrip | packages/core/src/ddl.ts:108-136 | a stored row read back through the view, now or after any later batches, is the decoded row |
| Labels.RowsRoundTrip | packages/core/src/ddl.ts:273-278 | a committed row read back through the view after any later rounds shows its own lane, float32 confidence, protocol, facts and sentence, and nothing else |
| Labels.RoundsAct | packages/worker/src/insightsdb.ts:243-285 | a round that is rolled back leaves nothing but the identity values it took; a committed one leaves all it wrote |
| Labels.FactsRoundTrip | packages/worker/src/insightsdb.ts:199-208 | facts come back from the comma join and split as they went in if and only if none holds a comma and they are not one empty fact |
| Labels.AnswersStay | packages/worker/src/insightsdb.ts:141-169 | a stored answer stays; a pair without one has one after a round if and only if the round's last row for it brings one |
| Labels.AnswersOverRounds | packages/worker/src/insightsdb.ts:141-169 | over any rounds, committed or rolled back, a stored answer is there after all later ones; any other pair has the answer of the first committed round whose last row for it brings one, and none exactly where no committed round does |
| Labels.AnswersAreOfSentences | packages/worker/src/insightsdb.ts:154-175 | over any rounds, what has an answer or none is exactly the stored sentences |
| Labels.AnswerLostInRound | packages/worker/src/insightsdb.ts:143-149 | an input that loses an answer: a later row of the same sentence and model in the round that was ruled without one |
| Dictionaries.AddressStore.Resolve | packages/worker/src/db.ts:306-339 | the rows, rewritten in place, hold ids for addresses as the specification says, and the dictionary has grown by what was missing |
| Dictionaries.InsightStore.LabelIds | packages/worker/src/insightsdb.ts:185-239 | through its Maps and keys, each row gets the id of its own label |
| Gate.EveryAcceptedEventIsServed | packages/operator/src/gate.ts:103-181 | where objects carry generations, an accepted event not deleted and not yet followed by a reconcile of at least its generation is about to be, by the run that has not begun or by the queued rerun |
| Gate.ProgressServes | packages/operator/src/gate.ts:144-180 | the end of any reconcile serves it; a start does, or leaves it to the queued rerun |
| Gate.CoverageStep | packages/operator/src/gate.ts:38-181 | exactly what one callback does: a covered generation is dropped unserved if and only if an object without a generation arrives and no run that has yet to begin reaches it; one not covered is again if and only if such an object is scheduled |
| Gate.LostExactlyWhenDisplaced | packages/operator/src/gate.ts:103-142 | over any run, with or without generations, an accepted event of a known generation is lost if and only if an object without one displaced it and nothing since brought its generation back |
| Gate.UndefinedGenerationLosesAnEvent | packages/operator/src/gate.ts:128-136 | a run in which that happens, and an older object is reconciled in its place |
| Gate.OneReconcileOneTimer | packages/operator/src/gate.ts:38-181 | after any callbacks at most one reconcile of an Indexer is under way, it is the registered run, at most one retry is set, with a delay between 5 s and a minute, and none during a run or after close |
| Gate.ReconciledGenerationsNeverGoDown | packages/operator/src/gate.ts:107-119 | between failures and deletes, what follows a guarded start is never older |
| Gate.GuardIsExact | packages/operator/src/gate.ts:103-181 | a start can be followed by an older one, with no failure or delete between, if and only if the recorded generation is gone or lower when it starts |
| Gate.FailedRerunGoesDown | packages/operator/src/gate.ts:161-179 | a run in which that happens: a failed reconcile with a rerun of the same generation queued |
| Gate.RetryAlwaysRuns | packages/operator/src/gate.ts:90-101 | a retry that fires is never dropped as stale: it starts a run of the newest object seen |
| Gate.NewGenerationIsReconciled | packages/operator/src/gate.ts:38-65 | in any reachable state, after an object of generation n arrives something waiting reaches n, where the recorded generation was older or none (or equal, unless the object was merely modified); a status change alone, which keeps the generation, starts, queues and clears nothing |
| Gate.ObjectArrives | packages/operator/src/gate.ts:38-142 | everything an added, modified or listed object does to its Indexer, by the recorded generation: the run started or the queue taken, the record, the retry and the newest object seen |
| Gate.OtherPhases | packages/operator/src/gate.ts:41-48 | a deletion forgets all but the run under way; bookmarks and errors change nothing |
| Gate.RetryStarts | packages/operator/src/gate.ts:94-98 | a retry that fires starts a run of the newest object seen unless a newer generation is recorded |
| Gate.EndReruns | packages/operator/src/gate.ts:151-179 | behind a reconcile comes the queued object, in the same run; a failed one leaves its own generation unrecorded |
| Gate.EndRests | packages/operator/src/gate.ts:161-175 | with nothing queued the run is over, and a wait sets the one retry |
| Gate.WaitsBackOff | packages/operator/src/gate.ts:85-101 | consecutive waits are 5 s, 10 s and so on, twice as long each time, up to a minute |
| Gate.KeyIs | packages/operator/src/gate.ts:183-186 | an Indexer is keyed by its uid, else by namespace and name, else not at all |
| ReconcileGates.ReconcileGate.Watch | packages/operator/src/gate.ts:38-54 | on the gate's maps: one Indexer's share changes as the state machine says, and no other's |
| ReconcileGates.ReconcileGate.Resync | packages/operator/src/gate.ts:60-65 | the same |
| ReconcileGates.ReconcileGate.DrainEnds | packages/operator/src/gate.ts:151-179 | the same, for what follows a reconcile |
| ReconcileGates.ReconcileGate.Close | packages/operator/src/gate.ts:68-71 | every Indexer's retry is cleared and none can be set after |
| RpcPool.EveryCallSettles | packages/worker/src/rpcpool.ts:230-318 | every call gets one outcome, its own answer or a rejection with an error it was answered after every endpoint was asked it in vain or as the only call too large in a request; no endpoint is asked it more than 1 + ceil(log2(chunk)) times |
| RpcPool.RejectedOnlyAlone | packages/worker/src/rpcpool.ts:290-318 | where the size limit applies to a whole reply, a rejected call was asked of every endpoint in vain or was too large in a request of its own |
| RpcPool.SharedRejection | packages/worker/src/rpcpool.ts:290-318 | with any replies, a call is rejected by a request without being asked again if and only if it is the only call of it that is too large |
| RpcPool.MixedReplyRejects | packages/worker/src/rpcpool.ts:290-318 | an input where that is a call that shared its only request, and the second endpoint was never asked |
| RpcPool.PickOrder | packages/worker/src/rpcpool.ts:246-250 | the next endpoint is the first untried one not resting, else the untried one whose rest ends first, and none only when all were tried |
| RpcPool.FallAsksBest | packages/worker/src/rpcpool.ts:242-264 | as long as an endpoint is untried, what is pending goes next to the first untried one that is not resting, or to the one whose rest ends first, its chunk of it at a time |
| RpcPool.RequestRests | packages/worker/src/rpcpool.ts:301-326 | a rate-limited or failed request puts its endpoint alone to rest, 5 s and twice as long for each failure in a row up to a minute; any other request ends its rest |
| RpcPool.RequestsFit | packages/worker/src/rpcpool.ts:230-266 | no request asks an endpoint more than it takes at once, or calls of two chunks of the first endpoint |
| Pools.Pool.All | packages/worker/src/rpcpool.ts:230-244 | the pool as it runs, on one output array written in place, is the specification |
| Pools.Pool.Send | packages/worker/src/rpcpool.ts:270-318 | one request and its halvings, recursively, are the specification's |
| Hub.TapesAreWhole | packages/explorer/lib/hub.ts:66-145 | over any run of seeds, publishes, refusals, drops and reconnects every tape is a stretch of its seed's history, whole and in order, and every open stream's reaches the newest block |
| Hub.ResumeOrHello | packages/explorer/lib/hub.ts:92-111 | whoever comes with whatever event id is sent exactly the blocks past it if the buffer still holds them all, else a hello of the whole history; which of the two, exactly |
| Hub.ReconnectContinues | packages/explorer/lib/hub.ts:92-111 | a viewer of this seed with any whole tape, up to date or not, who is resumed goes on where its tape ended, none missing and none repeated |
| Hub.TrimmingDoesNotShow | packages/explorer/lib/hub.ts:47-57 | `hello` is always the last movements of the untrimmed history, and the buffer is the shortest whole-block end with that many, or everything |
| Hub.ShortestIsLatest | packages/explorer/lib/hub.ts:82-89 | no other whole-block end with as many movements starts later |
| Hub.PublishReaches | packages/explorer/lib/hub.ts:119-145 | new blocks reach every open stream that takes them, close those that do not, and change no other viewer |
| Hub.ReseedReaches | packages/explorer/lib/hub.ts:66-80 | a reload greets every open stream that takes it, whose tape begins anew at the end of the new history |
| Hub.SubscribeOpens | packages/explorer/lib/hub.ts:92-117 | a new stream is open if and only if there was room for it and it took its whole greeting; refused it leaves no trace, and nobody else notices |
| LiveHubs.LiveHub.Subscribe | packages/explorer/lib/hub.ts:92-117 | the chunks a new stream takes, one by one until it takes no more, are a prefix of the greeting, and the streams change as the state machine says |
| LiveHubs.LiveHub.Trim | packages/explorer/lib/hub.ts:82-89 | the loop that drops blocks and keeps the count trims as specified |
| LiveHubs.LiveHub.Broadcast | packages/explorer/lib/hub.ts:141-145 | whatever the order of the streams, each gets the chunk or is dropped |
| Release.ReleasedExactly | packages/explorer/lib/release.ts:12-18 | with lanes on, a block goes out if and only if the worker has committed it and its lane was read or it is older than the hold; with lanes off, if committed |
| Tailer.TapeIsTheChain | packages/explorer/lib/tailer.ts:87-171 | after any cycles (quiet, failing, skipping ahead, rewinding) what was published since the last reload is, below the row limit, exactly the chain's blocks up to the last released, each movement once and in order; no block is counted twice in the window |
| Tailer.ReleasesByPolicy | packages/explorer/lib/tailer.ts:105-171 | a cycle whose queries answer puts a committed block on the tape if and only if the release policy says so |
| Tailer.ReleasesToCursor | packages/explorer/lib/tailer.ts:125-171 | a cycle that releases goes forward, never past the worker's cursor |
| Tailer.ReloadsExactly | packages/explorer/lib/tailer.ts:140-171 | the tape is reloaded if and only if the worker's cursor has gone back by more than the gap or the target is ahead by more than it; while the cursor has not gone back, the last release never decreases and the window only grows |
| Tailer.CycleWrittenOut | packages/explorer/lib/tailer.ts:133-171 | every cycle by the cursor and target it reads: start over, quiet, load the last 150 blocks, or publish what follows |
| Tailer.HubIsFed | packages/explorer/lib/tailer.ts:133-171 | what the tailer hands the hub keeps everything the hub relies on, and the hub's history is the tape |
| LiveTape.ViewersHaveTheChain | packages/explorer/lib/tailer.ts:87-171 | over any run of tailer cycles with viewers coming, refusing, dropping and coming back between them, every open viewer's tape is, lanes aside and below the row limit, the chain's blocks from where it began to the last released, and every dropped one's of the present load a stretch of them |
| LiveTailers.LiveTailer.Cycle | packages/explorer/lib/tailer.ts:140-171 | the cycle as it runs, on the hub and window it holds, is the specification's |
| Window.StatsAreRecount | packages/explorer/lib/window.ts:26-59 | for blocks in time, count, exact sum, lane tally and largest list are a recount over the movements newer than newest minus span; the list holds distinct transactions, descending, and nothing unlisted is bigger; the rate is over the span, or what has been seen of it, to the nearest tenth |
| Window.PerTxIsBiggest | packages/explorer/lib/window.ts:41-51 | the list kept per transaction holds one movement of each, its biggest |
| RollingWindows.RollingWindow.Add | packages/explorer/lib/window.ts:26-35 | the window after a block, by the loop that drops from the front, is the specification's |
| RollingWindows.RollingWindow.Stats | packages/explorer/lib/window.ts:37-59 | the one pass over the movements finds the figures |
| Format.PrintingIsExact | packages/explorer/lib/format.ts:7-14 | every amount is printed in canonical form and reads back as exactly raw over ten to the decimals |
| Format.PrintingTells | packages/explorer/lib/format.ts:7-14 | different amounts of a token print differently |
| Format.CanonicalIsPrinted | packages/explorer/lib/format.ts:7-14 | every canonical decimal is what its own amount is printed as |
| Format.AmountsAreRounded | packages/explorer/lib/format.ts:19-36 | a formatted amount is the half-up rounding of the exact amount to cents, with its sign, and its cents, separators removed, read back as exactly that |
| Format.WholesAreRounded | packages/explorer/lib/format.ts:38-41 | the same to whole units |
| Format.GroupsAreOfThree | packages/explorer/lib/format.ts:16-16 | a separator stands before every third digit from the right and nowhere else |
| History.AllIsExact | packages/explorer/lib/address.ts:83-90 | the full history before a position is exactly the address's transfers at an earlier block, or an earlier log of that block, newest first |
| History.LatestIsTop | packages/explorer/lib/address.ts:83-90 | two limited scans merged and cut again are the top of the address's full history, a self-transfer once |
| History.FollowingIsWhole | packages/explorer/lib/address.ts:92-114 | following the links reads the history as of the first page, no row missed and none repeated, whatever is appended meanwhile |
| History.LinkRoundTrips | packages/explorer/lib/address.ts:50-53 | a link is read back as its position if and only if the block number has at most 15 digits and the log index at most 9 |
| History.FirstPageIsWhole | packages/explorer/lib/address.ts:92-114 | the first page is read from past every position a link can hold |
| History.CounterpartyIsOther | packages/explorer/lib/address.ts:92-114 | the counterparty shown is the transfer's other end, and the address itself only of a self-transfer |
| Auc.AucOf | radar/scripts/eval.py:145-154 | for all score lists the nested loops with averaged tie ranks give the pairs with the yes above the no plus half the tied pairs, over all pairs; nothing where a list is empty |
| Auc.RankSumIsPairs | radar/scripts/eval.py:146-154 | twice the rank sum is the yeses' own ranks plus twice the pairs won plus the ties |
| Rotation.CarriedExactly | radar/radar/server.py:261-265 | a live question is carried if and only if fewer than eight live ones were served earlier, or equally early and asked before it |
| Rotation.WaitingIsPaidFor | radar/radar/server.py:267-284 | with questions coming and going, a question that stays asked waits through k batches only if 8k others were served no later at the start or came in since |
| Rotation.EveryoneIsAnswered | radar/radar/server.py:267-284 | with the questions fixed and the clock going on, each is carried in any run of batches with as many places as questions |
| Rotation.NewcomersStarve | radar/radar/server.py:261-284 | a question carried once waits for as long as each batch finds eight never carried |
| Rotation.WaitsExactly | radar/radar/server.py:261-284 | over any run a question asked throughout is carried by no batch if and only if each finds eight or more others ahead of it |
| Rotation.CarriedOnceNeverAgain | radar/radar/server.py:261-284 | a run of any length in which that happens, from no history at all: a question carried first is in no later batch, with two sets of eight others asked in turn beside it |
| Rotation.BatchIsFull | radar/radar/server.py:261-265 | a batch carries live questions, each once: all of them, or eight |
| Rotation.PeekIsTurn | radar/radar/server.py:261-284 | what a viewer is told before the batch is what the batch carries, and looking takes no turn |
| QuestionRotas.QuestionRota.RulesBySlot | radar/radar/server.py:267-284 | the method, which forgets and stamps slots in place, takes the specification's turn with sentences that are asked |

## Findings

Properties the code's comments or structure suggest that do not hold as stated. Each has an input for which it
fails and the exact condition under which it holds.

| property | fails | holds if and only if |
|---|---|---|
| a committed ingest round leaves no tracked log behind the cursor | `Ingest.LaggingPollLoses`, `Ingest.FirstRoundLoses`: when the head is polled there is no completeness guard (packages/worker/src/pipeline.ts:108-110), so a `getLogs` node behind the polled head loses logs, for good (`Ingest.LostForGood`) | the guard ran, or the node had seen the range, or nothing tracked lay past what it had seen (`Ingest.RoundIsCompleteExactly`, `Ingest.IngestIsComplete`) |
| every accepted watch event is followed by a reconcile of at least its generation | `Gate.UndefinedGenerationLosesAnEvent`: an object without a generation takes the queue's place and clears the recorded generation (packages/operator/src/gate.ts:128-136) | no object without a generation displaced it (`Gate.LostExactlyWhenDisplaced`); always, when all objects carry one |
| reconciled generations never go down between failures and deletes | `Gate.FailedRerunGoesDown`: a failure erases the recorded generation that a queued rerun of the same generation relies on (packages/operator/src/gate.ts:163) | the recorded generation is at least the started object's when it starts (`Gate.GuardIsExact`) |
| a call is rejected only after every endpoint was tried, or because it is too large alone | `RpcPool.MixedReplyRejects`: the only too-large call of several in one request is rejected without a request of its own (packages/worker/src/rpcpool.ts:290-318) | replies are refused whole (`RpcPool.RejectedOnlyAlone`); per request, `RpcPool.SharedRejection` |
| an answered sentence is not lost to a ruled row (packages/worker/src/insightsdb.ts:163) | `Labels.AnswerLostInRound`: within one round a later row of the same sentence replaces it before the insert | some committed round's last row for the sentence and model brings an answer (`Labels.AnswersOverRounds`; for one round, `Labels.AnswersStay`) |
| facts survive the comma join | a fact with a comma, or one empty fact | `Labels.FactsRoundTrip` |
| a page's link leads to the next page | a block number of 16 digits or a log index of 10 | `History.LinkRoundTrips` |
| nobody's question is answered never (radar/radar/server.py:270-273) | `Rotation.CarriedOnceNeverAgain`: never-served questions go first, and a set that left is forgotten, so two sets of eight asked in turn keep a third question out for good (`Rotation.NewcomersStarve`) | some batch finds fewer than eight others ahead of the question (`Rotation.WaitsExactly`); with fixed questions always, `Rotation.EveryoneIsAnswered` |

## Assumptions

- Chain data is final: the chain is one function from block number to logs, with each log's index naming it in its block.
- `getLogs` returns only logs it was asked for, each once, and all of those up to the head its own node has seen. That head may be anywhere.
- Start blocks are fixed across restarts, and decoding is a function of the event definition and the log.
- One worker writes a schema.
- Ingest times do not decrease with block numbers (`Release.ReleasedExactly`); block times do not for `Window.StatsAreRecount`.
- The clock of radar goes on from one batch to the next (`Rotation.Legal`).
- A viewer of the tape holds what it received, or any shorter beginning of it; it gives the id of its last block.
- The table queries of the tailer answer with the rows of their range, in order, or up to the row limit.

## Left out

- PostgreSQL, viem, fetch, WebSocket and Kubernetes clients: the database is maps updated at commit; an endpoint, a reconcile or the model answers anything.
- ABI decoding, selectors and configuration schemas: decoding is a partial function from log to columns.
- Phases, metrics, logging, pacing and backing off between rounds: they decide when a step runs, and every order is covered.
- The compactor's rebuilding of finished partitions: only which partitions are reported to it.
- The insight loop's own partitions of `_insights`: the same class over its own cursor.
- Sorting of a round's event rows before they are described: no property depends on it.
- RPC pool: classification of errors and reading of replies, and the shared back-off; each answer is already one of five kinds.
- Display names on the tape, headlines and pages of the explorer: presentation.
- Radar's question screening and its probe budget, and its sockets: single-branch policies.
- Times in radar are floats; they are only compared here, as integers. SHA-1 slot names are any function of the sentence. `Rotation` is proved for any limit; `QuestionRota` sets eight.
- Window.RateRounds: the rate is the exact quotient to the nearest tenth, halves up; the page divides in floats.
- Promise results of the gate's methods: only which reconciles run, and when.
