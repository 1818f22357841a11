# StockBrief core: verified model

A Dafny 4.11 model of the parts of the StockBrief back end that carry state, concurrency or arithmetic, with proofs of
what they promise. `dafny verify dfyconfig.toml` checks the whole project.

## What is modelled

- **The ingestion-run protocol.** `Runs` holds the ledger's rows and its two unique constraints; `Ledger` the idempotency
  service and the stale-run reconciler as they update the ledger in place; `Orchestrator` one ticker's run through claim,
  fetch, archive, staged writes and mark; `Protocol` every interleaving of any number of workers and reconcilers, with
  reads that lock nothing, aborted commits, crashes and clock ticks as steps of their own.
- **Documents.** `Documents` is the source-document and evidence upserts and the OpenDART disclosure loop.
- **Factor ranking.** `Factors` states what a percentile is by counting, and proves the sort and the nested tie loops,
  the partition choice and the rank cache against it. `Rounding` and `Sorting` are the arithmetic and list facts used.
- **The score.** `Engine` is the eight weighted components over exact reals, `Directions` which way each figure moves
  them, `Materializer` the pass that reads risks, scores, upserts and rewrites rows, `Refresh` the paged refresh of a
  stock universe and its provider stamps.
- **Chat output.** `Composer` is the policy, the citations and the six literal replacements; `Providers` the AgentCore and
  Bedrock guards around a generated answer.
- **Cache and watchlist.** `Cache` is the expiring cache, the retrying transport and the NAVER client; `Watchlist` the
  import loop while other sessions insert.

## What the proofs found

Six promises hold only under a condition. For each the model keeps the code as it is, gives a run or input that breaks
the promise, and proves the exact condition.

- The reconciler's select takes no lock (app/services/ingestion/status.py:114-131). Two reconcilers that overlap can
  therefore fail a row that was restarted after the first one's commit, and a second worker then claims a live run, although
  every worker is younger than the age bound (`Protocol.OverlappingSweepsBreakExclusion`). A sweep is safe if and only if no
  live owner holds one of its rows when it commits (`Protocol.SweepIsExact`).
- A mark commits and then refreshes its row inside the same `try` (app/services/ingestion/orchestrator.py:172-244). If that
  refresh raises, the exception path selects the run without a lock and marks it failed whoever holds it by then, unless the select saw it
  failed already (`Protocol.LateFailureBreaksExclusion`, `Protocol.LateFailureIsExact`). With exclusive owners this and the sweep are the
  only ways a succeeded run loses its status; the worker that fails it late may be the one that marked it succeeded or one
  that had marked the same run id partial_failed before (`Protocol.SucceededLostExactly`). Over any run at all, ownership
  stays exclusive if and only if every sweep and every such late failure commits while nobody alive holds its rows
  (`Protocol.ExclusiveIffGuarded`). Who is alive is not in the ledger, but a check on the row alone is enough: fail a row
  only if it is no longer started or, for a reconciler, was started the age bound ago or earlier, both read at the commit.
  Then reconcilers may overlap and refreshes may fail (`Protocol.RowChecksSuffice`), and careful runs pass the check as they
  are (`Protocol.CarefulIsChecked`).
- The status a run reports is its row as re-read after the mark's commit. It is the mark if and only if the row still
  carries it (`Protocol.ReportIsExact`, `Orchestrator.ProviderIngestionService.RunTicker`), which in a careful run a
  succeeded mark always does (`Protocol.SucceededIsReported`); a partial_failed mark can be reported as started when another
  worker restarts the row in between (`Protocol.ReportCanDiffer`).
- A caller that pages a universe by its requested size visits every stock exactly once if and only if it asks for at most
  300 at a time or the list has at most 300 stocks: a larger page is cut to 300 silently (`Refresh.RequestedSizeIsExact`).
- A candidate that improves does not always score higher. At the same revenue and market capitalisation, with the same
  figures known, and with neither profit, equity, assets nor a figure of the previous period changing sign, it never scores
  lower (`Directions.StrongerNeverScoresLower`). Seven changes of one figure can move components both ways: more revenue, a
  larger market capitalisation, a first profit, a first positive equity, fewer assets, and a lower revenue or operating
  income the year before. For each there is a candidate whose score falls, and for all candidates the exact change of the
  total, the exact condition under which it falls before rounding, and when the score shown falls
  (`Directions.MoreRevenueIsExact`, `Directions.LargerCapIsExact`, `Directions.FirstProfitIsExact`,
  `Directions.FirstEquityIsExact`, `Directions.FewerAssetsIsExact`, `Directions.LowerPastRevenueIsExact`,
  `Directions.LowerPastIncomeIsExact`).
- The replacement step frees its output of the six terms for every text, but the normaliser removes brackets afterwards,
  which can bring a term back (`Composer.BracketsCanRejoin`). It does if and only if somewhere in the text brackets split a
  term no character of which belongs to a plain occurrence (`Composer.BracketRemovalIsExact`).

Four smaller facts: a disclosure batch raises if and only if it repeats a receipt number that was new with no document or
chunk added since (`Documents.BatchRaisesExactly`); the score engine's fallback-price branch is never reached from the
materialiser, because mock and fallback price rows are not read (`Materializer.FallbackNeverUsed`); and a refresh event that
names nothing renews every active score and stamps none, so earlier provider stamps are lost (`Refresh.BareEvent`);
and a call log that raises after a good news response was stored leaves a fallback in its place, which answers every search
until it expires (`Cache.FailedLogHidesNews`).

## Assumptions

Numbers are exact reals or integers; `Rounding` models `round` as rounding to nearest, ties to even. SHA-256 is injective.
The provider, the archive, the model runtimes, the clock and other sessions are parameters. Time in `Protocol` is in
minutes; its results about careful runs assume that a live owner is younger than the reconciler's age bound, that
reconcilers do not overlap, and that the refresh after a mark does not raise; the if-and-only-if results assume none of
these, and `RowChecksSuffice` only the first. Within one run of the materialiser the facts of the other tables stay as they
are. Case folding leaves Hangul and the space alone and produces neither from other characters.

## Model

| member | source | states |
|---|---|---|
| `Runs.AdmissibleIsExact` | app/orm.py:442-453 | the partial unique index over started and succeeded rows, checked against one written row, is exactly what keeps the whole table unique |
| `Runs.RequestIsExact` | app/services/ingestion/event_helpers.py:18-65 | what a claim's scope, job type and run id are made of; claims that differ in the ticker alone never share a run id, and an empty own run id counts as none |
| `Runs.AnswerIsExact` | app/services/ingestion/status.py:111-131 | the stale-run query takes started rows from the cutoff or before, of the named tickers and providers if any, the oldest up to the limit |
| `Runs.FailRowsExact` | app/services/ingestion/status.py:132-140 | reconciling writes status, time and reason of the rows taken and nothing else |
| `Runs.InterruptedFrame` | app/services/ingestion_idempotency.py:69-156 | whatever others commit between its reads, a claim writes at most its own row, which was missing or had failed, and alters no started or succeeded row |
| `Ledger.IngestionIdempotencyService.StartRun` | app/services/ingestion_idempotency.py:45-67 | inserts a started row exactly when both unique constraints allow it, and otherwise leaves the ledger as it was |
| `Ledger.IngestionIdempotencyService.StartOrRestartRun` | app/services/ingestion_idempotency.py:69-156 | whatever others commit between its reads: the answer is the requested run freshly started or a succeeded run with the hash, at most the requested row is written, no started or succeeded row is altered, the fall-through holds the requested id; with nobody else it is the sequential claim |
| `Ledger.IngestionIdempotencyService.MarkTerminal` | app/services/ingestion_idempotency.py:171-198 | a succeeded or partial_failed mark commits exactly when the hash index allows the marked row, and changes that row only |
| `Ledger.IngestionIdempotencyService.MarkFailedByRunId` | app/services/ingestion_idempotency.py:158-169 | fails exactly on an unknown run id; otherwise it marks that row failed as others left it by the commit, whatever its status, except that a row it had read as failed keeps the status it has by then |
| `Ledger.IngestionIdempotencyService.ReconcileStaleStartedRuns` | app/services/ingestion/status.py:101-156 | fails exactly the rows its select answered, as others left them by its commit, and none on a dry run; if nobody came between and the limit did not cut the answer no matching stale run is left |
| `Protocol.LedgerConsistent` | app/orm.py:442-453 | both unique constraints hold in every state of every run |
| `Protocol.MutualExclusion` | app/services/ingestion_idempotency.py:69-156 | over every careful interleaving two live owners share neither run id nor hash, and each owner's row is started under its own hash |
| `Protocol.SweepIsExact` | app/services/ingestion/status.py:114-140 | a sweep keeps ownership exclusive if and only if no live owner holds one of its rows |
| `Protocol.LateFailureIsExact` | app/services/ingestion/orchestrator.py:230-244 | marking failed after a failed refresh keeps ownership exclusive if and only if nobody alive holds the row or its select saw the row failed already |
| `Protocol.ExclusiveIffGuarded` | app/services/ingestion/status.py:114-140 | over any run, exclusive ownership is equivalent to every sweep and late failure meeting an unowned row |
| `Protocol.RowChecksSuffice` | app/services/ingestion/status.py:114-140 | with punctual owners, checking the failed row alone at each commit keeps ownership exclusive, whatever reconcilers overlap and refreshes fail |
| `Protocol.CarefulIsChecked` | app/services/ingestion/status.py:111-140 | careful runs pass that check |
| `Protocol.OverlappingSweepsBreakExclusion` | app/services/ingestion/status.py:114-140 | a run in which two overlapping reconcilers, within the age bound, leave two live owners of one run id |
| `Protocol.LateFailureBreaksExclusion` | app/services/ingestion/orchestrator.py:230-244 | a run without reconcilers in which one failed refresh leaves two live owners of one run id |
| `Protocol.SucceededLostExactly` | app/services/ingestion_idempotency.py:200-211 | with exclusive owners a succeeded run loses its status exactly by a sweep of it, or by the late failure of a worker of its run id that marked it or had marked it before and did not see it failed |
| `Protocol.SucceededAbsorbing` | app/services/ingestion_idempotency.py:171-183 | in a careful run a succeeded row never changes again |
| `Protocol.ReportIsExact` | app/services/ingestion_idempotency.py:171-198 | the reported status is the mark if and only if the row still carries it when re-read |
| `Protocol.SucceededIsReported` | app/services/ingestion/orchestrator.py:215-229 | in a careful run a succeeded mark is still there and is what is reported |
| `Protocol.ReportCanDiffer` | app/services/ingestion/orchestrator.py:178-229 | a careful run in which a partial_failed mark is reported as started |
| `Protocol.ReplayedForever` | app/services/ingestion_idempotency.py:116-119 | once a request succeeded, every identical request is replayed, never fetches, and changes neither ledger nor provider tables |
| `Protocol.StagedAtomically` | app/services/ingestion/orchestrator.py:172-244 | before its mark a worker has committed no provider row; from its one mark on exactly what was staged then, in the step that set succeeded or partial_failed |
| `Protocol.CommittedIsPersisted` | app/services/ingestion/orchestrator.py:172-244 | what a marked worker has committed is everything it had persisted by its mark, and nothing else |
| `Protocol.NobodyIsStuck` | app/services/ingestion/orchestrator.py:115-244 | in every run a worker that is neither finished nor dead has a step to take other than to crash |
| `Protocol.OwnersCan` | app/services/ingestion/orchestrator.py:172-244 | what an owner can do at any time, and when its mark commits |
| `Protocol.ClaimsNeverAbort` | app/services/ingestion/event_helpers.py:18-36 | over a ledger filled by the service's own requests, whose hash covers what the run id is built of, no claim ends in an integrity error in any run |
| `Protocol.UndisturbedIsSequential` | app/services/ingestion_idempotency.py:78-132 | the protocol's steps without interference are the sequential claim |
| `Protocol.InterruptedIsService` | app/services/ingestion_idempotency.py:69-156 | however others interrupt a claim between its reads, the protocol's steps give the answer and the table of the service's claim |
| `Orchestrator.ProviderIngestionService.RunTicker` | app/services/ingestion/orchestrator.py:115-244 | exactly when the terminal mark commits; the provider rows become permanent with it, as staged, and otherwise not at all; the report is the row re-read, hence the mark if and only if the row still carries it; replays and failed claims fetch nothing |
| `Orchestrator.RanExactly` | app/services/ingestion/orchestrator.py:172-244 | what a claimed run leaves and reports, by what the fetch, the archive, the persist loop and the re-reads did |
| `Orchestrator.MarkIsExact` | app/services/ingestion/orchestrator.py:186-219 | a marked row keeps its claim, holds the staged counts, and has succeeded exactly when the result was no fallback, not OpenDART with data missing, and not KRX with nothing written; otherwise partial_failed |
| `Orchestrator.RepeatReplaysExactly` | app/services/ingestion_idempotency.py:78-132 | after a mark that nobody disturbs, the same request is replayed exactly when its result was whole, and otherwise starts afresh |
| `Orchestrator.RunTwice` | app/services/ingestion/orchestrator.py:115-244 | two undisturbed runs of one request: once the first has marked, the second replays without fetching exactly when the first result was whole, and otherwise fetches again |
| `Orchestrator.FallbackStoresNothing` | app/services/ingestion/orchestrator.py:180-194 | a fallback result stores no provider row, counts one skip and fails in part |
| `Documents.UpsertKeepsKeysUnique` | app/services/ingestion/persistence.py:34-74 | an upsert keeps source keys and content unique, touches one document, never changes a key, and fails exactly on a repeated empty external id with new content |
| `Documents.ItemsAreStored` | app/services/ingestion/orchestrator.py:322-399 | after a batch with distinct receipts every item's disclosure and evidence chunk say what the item says and point to its document; an existing chunk keeps its confidence, a new one has 0.9 |
| `Documents.UpsertGoesExactly` | app/services/ingestion/persistence.py:34-74 | an upsert goes to the document of the same source and non-empty external id, else to one with the same content, else to a new one, which an empty external id already used does not allow |
| `Documents.TargetStable` | app/services/ingestion/persistence.py:34-52 | after a batch with distinct receipts every item still resolves to the document it wrote |
| `Documents.ReplayUnchanged` | app/services/ingestion/orchestrator.py:322-400 | replaying such a batch leaves documents, chunks and disclosures equal and turns counts (i,u,s) into (0,i+u,s) |
| `Documents.ReplayIsIdempotent` | app/services/ingestion/orchestrator.py:322-400 | the same for a replay at any later time, up to fetch times |
| `Documents.DocumentsAreStored` | app/services/ingestion/orchestrator.py:335-350 | the document an item was the last to write says what the item says; every document the batch adds is keyed by one of its receipts and that item's content |
| `Documents.CountsAddUp` | app/services/ingestion/orchestrator.py:329-400 | inserted, updated and skipped add up to the items |
| `Documents.BatchRaisesExactly` | app/services/ingestion/orchestrator.py:362-399 | a batch raises if and only if it repeats a receipt number whose disclosure an earlier item added, every named item since having overwritten its document and its chunk |
| `Documents.DistinctNeverRaise` | app/services/ingestion/orchestrator.py:322-400 | distinct receipt numbers never raise |
| `Documents.DocumentSession.UpsertSourceDocument` | app/services/ingestion/persistence.py:21-74 | the in-place upsert is the specified one, errors included |
| `Documents.DocumentSession.UpsertEvidenceChunk` | app/services/ingestion/persistence.py:76-139 | the chunk upsert for any values, also when another session takes the id first, and the error when that row is gone again |
| `Documents.DocumentSession.PersistDisclosures` | app/services/ingestion/orchestrator.py:322-400 | for every batch the loop leaves the specified store and counts, or raises exactly when a lookup misses an unflushed disclosure |
| `Factors.PercentileOrdersValues` | app/services/recommendation/factors.py:168-208 | percentiles lie in 0..100 and order values as the values are ordered, ties alike |
| `Factors.PercentilesConserved` | app/services/recommendation/factors.py:183-208 | the unrounded percentiles of a partition of n >= 2 sum to 50n |
| `Factors.TieGroupCounts` | app/services/recommendation/factors.py:190-206 | in descending order a maximal tie group's positions are its counts of worse and equal values |
| `Factors.RankTies` | app/services/recommendation/factors.py:186-208 | the nested loops give every listed row, once, the rounded counting percentile |
| `Factors.PercentileRanks` | app/services/recommendation/factors.py:168-208 | sorting and walking tie groups refines counting, for every peer list |
| `Factors.SelectPartition` | app/services/recommendation/factors.py:106-165 | the partition is the one the counting definition chooses; a sector partition has at least the minimum size; the fallback flag is exact |
| `Factors.CalculateFactorRanks` | app/services/recommendation/factors.py:45-95 | every result equals the counting definition for its row, so the rank cache is transparent; the two errors are exact |
| `Factors.PartitionIsExact` | app/services/recommendation/factors.py:106-165 | a row is ranked with exactly the rows of its market, date, factor and direction that have a usable value, within its sector when these are enough and else across the market |
| `Factors.RankIsExact` | app/services/recommendation/factors.py:168-215 | its percentile is the share of worse members, the other equal ones counting half, and 100 alone; it has one exactly when its value is usable |
| `Factors.RankIsLocal` | app/services/recommendation/factors.py:45-95 | rows of another date, factor, direction or market, and rows without a usable value, can be inserted, deleted and altered without changing its result |
| `Factors.RankIgnoresOrder` | app/services/recommendation/factors.py:45-95 | permuting the input rows changes no row's result |
| `Factors.FlippingReflectsRanks` | app/services/recommendation/factors.py:168-215 | flipping every direction maps p to 100-p after rounding, in partitions of two or more |
| `Factors.RankIgnoresScale` | app/services/recommendation/factors.py:168-215 | a strictly increasing rescaling of all raw values changes no rank |
| `Engine.ComponentsInRange` | app/services/recommendation/engine.py:152-314 | each present ratio component is in 30..90, news in 65..100, disclosures in 68..100 |
| `Engine.TotalRange` | app/services/recommendation/engine.py:44-123 | the total is in 0..92, and at least 37.3 with no missing component and no penalty |
| `Engine.UpperBoundAttained` | app/services/recommendation/engine.py:16-25 | a candidate that scores 92 |
| `Engine.LowerBoundAttained` | app/services/recommendation/engine.py:16-25 | a complete candidate without penalty that scores 37.3 |
| `Engine.EvidenceNeverHurts` | app/services/recommendation/engine.py:98-122 | one more evidence reference, anywhere in the list, lowers neither total, count nor level |
| `Engine.AttentionGrows` | app/services/recommendation/engine.py:237-256 | the step per item outweighs any fall of the mean confidence |
| `Engine.RiskNeverHelps` | app/services/recommendation/engine.py:104-106 | one more risk never raises the total |
| `Engine.ReasonsAreTheBest` | app/services/recommendation/engine.py:325-350 | the three reasons are the best three components by score then weight, best first |
| `Engine.ReasonsKeepTies` | app/services/recommendation/engine.py:329-333 | of two reasons with the same score and weight the component listed first comes first |
| `Engine.ReasonsAreExact` | app/services/recommendation/engine.py:325-350 | a reason's component and contribution, and that it cites what its component cites, or failing that the first two pieces of evidence |
| `Engine.CitedExactly` | app/services/recommendation/engine.py:362-374 | what a component cites: the evidence filed under its name, failing that the news or the disclosures for the two attention components, and nothing for the others |
| `Engine.ScoreSaysExactly` | app/services/recommendation/engine.py:126-149 | each component's place, score and share of the total by weight, and that it is missing exactly without a score |
| `Engine.LevelIsExact` | app/services/recommendation/engine.py:107-122 | when the evidence level is strong, medium and weak; the evidence count, the risk tags and the penalty |
| `Engine.FallbackIsExact` | app/services/recommendation/engine.py:289-294 | fallback prices score like present ones, are used only without these, and mark the three price components |
| `Engine.ReasonsCiteEvidence` | app/services/recommendation/engine.py:333-374 | a reason cites only ids of the given evidence |
| `Directions.StrongerNeverScoresLower` | app/services/recommendation/engine.py:152-286 | at the same revenue and market capitalisation and with the same figures known, a candidate with no more debt, assets and past, no less income, profit, equity, volume, trading value and momentum, and no more volatility never scores lower, if neither profit, equity, assets nor a past figure changes sign |
| `Directions.MovesShow` | app/services/recommendation/engine.py:104-106 | the score shown after a change of the total is the changed total rounded and bounded |
| `Directions.FallIsExact` | app/services/recommendation/engine.py:104-106 | the score shown falls exactly if rounding and bounding leave a fall of the total, for which the change must be negative |
| `Directions.FirstProfitValuation` | app/services/recommendation/engine.py:216-234 | for all candidates: a first profit lowers the valuation if and only if its price-earnings score joins a larger price-book score |
| `Directions.FirstProfitIsExact` | app/services/recommendation/engine.py:171-234 | how much a first profit changes the total, margin gain included, exactly when the total falls before rounding, and when the score shown falls |
| `Directions.FirstEquityIsExact` | app/services/recommendation/engine.py:152-234 | how much a first positive equity changes the total, the stability component that appears included, when the score shown falls, and exactly when the total falls: never with known liabilities |
| `Directions.MoreRevenueIsExact` | app/services/recommendation/engine.py:171-213 | for all candidates with a known revenue: how much more of it at the same income changes the total and when the score shown falls; the total falls exactly when the margins lose more than growth gains, never at a first positive revenue |
| `Directions.LargerCapIsExact` | app/services/recommendation/engine.py:216-272 | for all candidates with a known market capitalisation: how much a larger one changes the total and when the score shown falls; the total falls exactly when the valuation loses more than liquidity gains, never at a first positive one |
| `Directions.FewerAssetsIsExact` | app/services/recommendation/engine.py:152-168 | how much fewer assets change the total and when the score shown falls; the total falls exactly when they are no longer positive and the equity's share in them scored above the debt |
| `Directions.LowerPastIncomeIsExact` | app/services/recommendation/engine.py:190-213 | how much a lower past operating income changes the total and when the score shown falls; the total falls exactly when it is no longer positive and the income scored above the flat 50 or 35 |
| `Directions.LowerPastRevenueIsExact` | app/services/recommendation/engine.py:190-213 | how much a lower past revenue changes the total and when the score shown falls; the total falls exactly when it is no longer positive and growth was scored |
| `Directions.TradingIsExact` | app/services/recommendation/engine.py:259-286 | how the total changes with volume, trading value, momentum and volatility, each by its points per scale, and when the score shown falls |
| `Directions.FirstProfitCanHurt` | app/services/recommendation/engine.py:216-234 | a candidate whose score falls from 9.0 to 6.0 with its first profit |
| `Directions.FirstEquityCanHurt` | app/services/recommendation/engine.py:216-234 | a candidate whose score falls from 9.0 to 6.0 with its first positive equity |
| `Directions.MoreRevenueCanHurt` | app/services/recommendation/engine.py:171-213 | a candidate whose score falls from 27.0 to 23.4 when its revenue doubles |
| `Directions.LargerCapCanHurt` | app/services/recommendation/engine.py:216-234 | a candidate whose score falls from 9.0 to 3.0 when its market capitalisation grows |
| `Directions.FewerAssetsCanHurt` | app/services/recommendation/engine.py:152-168 | a candidate whose score falls from 10.2 to 6.0 with its assets |
| `Directions.LowerPastIncomeCanHurt` | app/services/recommendation/engine.py:206-213 | a candidate whose score falls from 27.0 to 24.6 when its past operating income was nothing |
| `Directions.LowerPastRevenueCanHurt` | app/services/recommendation/engine.py:197-204 | a candidate whose score falls from 27.0 to 13.5 when its past revenue was nothing |
| `Materializer.StoredTotalIsExact` | app/services/recommendation/materializer.py:203-204 | storing the total in hundredths loses nothing |
| `Materializer.RewrittenRows` | app/services/recommendation/materializer.py:276-287 | a rewritten risk row says what some row said before; its severity follows its points |
| `Materializer.StepView` | app/services/recommendation/materializer.py:192-288 | one ticker's pass renews its own score, reasons and risks and leaves every other ticker and date alone |
| `Materializer.AdmissibleExactly` | app/services/recommendation/models.py:11-34 | a ticker can be scored exactly if every confidence lies in 0..1 and no penalty is negative |
| `Materializer.OnlyNewestLiveCounts` | app/services/recommendation/materializer.py:122-137 | of a ticker's price rows only the first live one counts: every table is the same without the others |
| `Materializer.StoredScore` | app/services/recommendation/materializer.py:68-109 | a pass stores the score and the reasons of exactly the ticker's statements, evidence and risks of the day, and of the figures of that price row as present prices |
| `Materializer.NoPricesNoPriceScores` | app/services/recommendation/materializer.py:122-137 | without a live price row the three price components are missing |
| `Materializer.StepConservesRisks` | app/services/recommendation/materializer.py:175-288 | reading, deleting and rewriting risks keeps the bag of (tag, points, text, evidence) |
| `Materializer.RunsConserveRisks` | app/services/recommendation/materializer.py:263-288 | so does any number of runs on any dates over any tickers and facts |
| `Materializer.BatchView` | app/services/recommendation/materializer.py:40-47 | a batch renews each of its tickers once and nothing else, whatever its order and repetitions |
| `Materializer.MaterializeTwice` | app/services/recommendation/materializer.py:29-58 | a second materialisation of the same or fewer tickers leaves every score, reason and risk row as it is |
| `Materializer.SecondRunCreatesNone` | app/services/recommendation/materializer.py:40-47 | and creates no score |
| `Materializer.BatchesCompose` | app/services/recommendation/materializer.py:40-47 | two batches in a row leave the rows one batch over the union leaves |
| `Materializer.FallbackNeverUsed` | app/services/recommendation/materializer.py:79-137 | no materialised score uses fallback prices |
| `Materializer.RecommendationSession.ReplaceRisks` | app/services/recommendation/materializer.py:263-288 | deletes the key's rows and appends the rewritten ones |
| `Materializer.RecommendationSession.MaterializeRecommendationScores` | app/services/recommendation/materializer.py:29-65 | the loop leaves the specified tables and counts, and rolls everything back exactly when some input breaks its field constraints |
| `Refresh.ListingIgnoresRowOrder` | app/services/ingestion/score_refresh.py:220-246 | every query sees one listing whatever order rows are stored in, for all three orderings |
| `Refresh.ListingExact` | app/services/ingestion/score_refresh.py:214-246 | the listing holds exactly the active stocks of the markets |
| `Refresh.ListingOrderIsExact` | app/services/ingestion/score_refresh.py:215-246 | all stocks are listed by ticker; a tier by market capitalisation then trading value, largest first, unknown ones last, then by ticker |
| `Refresh.PageIsExact` | app/services/ingestion/score_refresh.py:206-284 | which page an event gets: the size asked for up to 300, without a positive one 100 for tier A and 300 otherwise, from the offset asked for or the start |
| `Refresh.PagingIsExact` | app/services/ingestion/score_refresh.py:247-251 | advancing by a step visits each listed stock exactly once if and only if the step is the page size or the list fits in both |
| `Refresh.RequestedSizeIsExact` | app/services/ingestion/score_refresh.py:279-284 | for a requested page size that is: at most 300, or a list of at most 300 |
| `Refresh.PagedRefreshIsWhole` | app/services/ingestion/score_refresh.py:44-251 | refresh events over consecutive pages of any size up to 300 leave the rows of one refresh over the whole listing, for every ordering and market filter |
| `Refresh.WholeRefreshIsFullMaterialisation` | app/services/ingestion/score_refresh.py:78-96 | over all markets a whole refresh leaves the rows of one full materialisation, stamped |
| `Refresh.PagedRefreshIsFullMaterialisation` | app/services/ingestion/score_refresh.py:44-251 | so paged refresh events leave the rows of one full materialisation, stamped |
| `Refresh.UniqueTickers` | app/services/ingestion/event_helpers.py:81-89 | first occurrences in order, without repetition |
| `Sorting.UniqueKeepsOrder` | app/services/ingestion/event_helpers.py:81-89 | of two tickers kept, the one kept first also occurs first |
| `Refresh.ScoreRefreshService.AnnotateScoreProviderFreshness` | app/services/ingestion/score_refresh.py:167-191 | stamps exactly the day's scores of the tickers, of one score version or of all, and counts them |
| `Refresh.ScoreRefreshService.RefreshScoreSnapshots` | app/services/ingestion/score_refresh.py:44-113 | an event's whole effect and report, the skip of a failed provider batch included |
| `Refresh.StatusIsExact` | app/services/ingestion/score_refresh.py:137-165 | a provider event's status is acceptable exactly when the batch and every named ticker did not fail |
| `Refresh.ReportedStatusIsExact` | app/services/ingestion/score_refresh.py:137-165 | when a provider event reports success, partial_failed and failed |
| `Refresh.ProviderEventIsExact` | app/services/ingestion/score_refresh.py:44-135 | what a provider event makes of every row: ingested tickers, replayed ones too, are scored anew if active and stamped; with none ingested the requested ones are stamped only; the others are left alone |
| `Refresh.NamedEventIsExact` | app/services/ingestion/score_refresh.py:60-96 | and what an event that names tickers makes of every row |
| `Refresh.BareStatus` | app/services/ingestion/score_refresh.py:68-75 | without a provider an event reports stale |
| `Refresh.PastIsExact` | app/services/ingestion/score_refresh.py:167-191 | rows of other score versions are stamped exactly when nothing was ingested, on the event's day and for the tickers asked for |
| `Refresh.StampSays` | app/services/ingestion/score_refresh.py:183-190 | a stamp puts the statuses over the row's own and changes nothing else |
| `Refresh.StampCountIsExact` | app/services/ingestion/score_refresh.py:167-191 | how many rows an event reports as stamped |
| `Refresh.BareEvent` | app/services/ingestion/score_refresh.py:60-96 | an event naming nothing renews active scores and leaves them without stamps |
| `Composer.ApplyFrees` | app/services/chat/composer.py:175-178 | compatible replacement rules applied in order leave none of their terms in any text |
| `Composer.RulesCompatible` | app/services/chat/composer.py:56-63 | the six rules are compatible: no term can overlap its own or a later replacement |
| `Composer.NeutralizeFrees` | app/services/chat/composer.py:175-178 | the output is free of the six terms, a second pass changes nothing, and a text is left alone exactly when it was free |
| `Composer.NeutralizeProhibitedOutputTerms` | app/services/chat/composer.py:175-178 | the loop computes that output |
| `Composer.BracketsCanRejoin` | app/services/chat/composer.py:137-138 | a text whose neutralised form gets a term back when a bracket is removed |
| `Composer.BracketRemovalIsExact` | app/services/chat/composer.py:137-138 | for every text, bracket removal brings a term back if and only if brackets split a term in the text itself and no plain occurrence of a term takes a character of it |
| `Composer.CitationsExact` | app/services/chat/composer.py:231-262 | citations are of distinct evidence ids, the named ones first; their exact number |
| `Composer.FlattenExact` | app/services/chat/composer.py:235-262 | the named ids are those of the reasons, reason by reason |
| `Composer.CitationsWithin` | app/services/chat/composer.py:231-262 | at most four, all from the evidence, two when the evidence has two ids, none only without evidence |
| `Composer.ComputeCitations` | app/services/chat/composer.py:235-262 | the loops with the dictionary and the growing list compute them |
| `Providers.GuardIsExact` | app/services/chat/providers.py:450-459 | the guard on the case-folded answer blocks exactly the answers that hold one of the six terms |
| `Providers.NeutralizedPassesGuard` | app/services/chat/providers.py:450-459 | the output guard passes every neutralised text |
| `Providers.AcceptableIsExact` | app/services/chat/providers.py:450-459 | an answer can be returned only if it is not empty, free of the six terms, and cites something and only what is allowed |
| `Providers.BaselineAnswersExactly` | app/services/chat/composer.py:66-127 | which of the three texts answers, by the terms in the folded message: only one that holds none gets the summary |
| `Providers.AllowedMessageIsFree` | app/services/chat/composer.py:66-127 | a message that the composed baseline allows, and so every one that reaches a model, holds none of the six terms and is left alone by the replacement |
| `Providers.BaselineWithin` | app/services/chat/composer.py:66-114 | baseline ids are evidence ids |
| `Providers.AgentCitationsExact` | app/services/chat/runtime_provider.py:286-308 | the guard passes exactly when the answer cites something and only evidence; then the list's ids are the cited ids; the fallback list never passes |
| `Providers.AgentCoreCompose` | app/services/chat/runtime_provider.py:76-192 | exactly which runtime answers are returned, with used ids equal to the cited ids; every other outcome |
| `Providers.BedrockCompose` | app/services/chat/providers.py:120-314 | one retry, only for citations; an answer is returned exactly when the last one passes every guard |
| `Providers.BedrockIsStricter` | app/services/chat/providers.py:141-152 | what Bedrock's guards accept AgentCore's accept, and neither accepts anything without evidence |
| `Cache.ExternalApiCacheService.Get` | app/services/external/cache.py:18-29 | answers the last write of the key until it expires |
| `Cache.ExternalApiCacheService.Set` | app/services/external/cache.py:31-63 | records a write that expires 1800 seconds later |
| `Cache.ServedUntilExpiry` | app/services/external/cache.py:18-29 | a search answers what the last write of its key stored while it starts before the expiry, and never from it on |
| `Cache.UnwrittenIsFetched` | app/services/external/cache.py:18-26 | without a write of its key a search is not answered from the cache |
| `Cache.ExpiredIsFetchedAgain` | app/services/external/base.py:106-152 | a search is fetched again once 1800 seconds have passed since it was stored, whatever other requests came between |
| `Cache.BackoffIsExact` | app/services/external/base.py:196-210 | the calls end with the first outcome that is not one to retry, and otherwise after the first try and max_retries more |
| `Cache.RequestWithBackoff` | app/services/external/base.py:196-210 | stops at the first response not retried, makes at most retries + 1 calls |
| `Cache.NaverNewsClient.SearchNews` | app/services/external/naver.py:20-103 | answers, writes and raises what the specification says, whichever of its cache and log calls raise |
| `Cache.RaisesExactly` | app/services/external/base.py:40-194 | exactly when an exception escapes a search, and which: of the cache read, of a hit's log, or of storing or logging a fallback |
| `Cache.FailedLogHidesNews` | app/services/external/base.py:127-186 | a good response that is stored but not logged is replaced by a cached fallback |
| `Cache.MissIsExact` | app/services/external/base.py:106-194 | when a miss calls the transport, and that its result is available exactly for a readable 200 that could be stored and logged |
| `Cache.MissSaysWhy` | app/services/external/naver.py:40-103 | what a miss answers: the news for the ticker, or a fallback that names ticker, company and reason |
| `Cache.RepeatIsServed` | app/services/external/base.py:40-64 | a repeat before expiry makes no call and returns the same payload, status and missing data, whatever came first or between, exactly when the cache read and the hit's log do not raise |
| `Cache.KeysAreDistinct` | app/services/external/naver.py:28 | requests with colon-free tickers share a cache key only when they are the same |
| `Watchlist.ImportSession.ImportWatchlist` | app/protected_routes.py:178-212 | the loop with its savepoints is the specified run |
| `Watchlist.ImportExact` | app/protected_routes.py:178-212 | fails exactly when a ticker not listed at the start is malformed or unknown; prior rows stay; imported plus skipped is the number of different tickers, each of which has a row |
| `Watchlist.RefusesExactly` | app/protected_routes.py:441-452 | an import fails exactly on its first item that is neither listed at the start nor a six-digit code of a known stock, with the error that says which; so every row it adds is of a known stock |
| `Watchlist.ImportAddsFirstRows` | app/protected_routes.py:371-405 | the added rows are the user's, from first occurrences, as many as counted, and none on an error |

## Left out

- HTTP routing, authentication, request parsing, settings, logging, migrations and deployment.
- Float rounding error and non-finite arithmetic beyond the usability test of a raw factor value; time zones and date
  parsing; the wording of summaries.
- Database deadlocks and isolation anomalies other than the interleavings of `Protocol`.
- Deletion of watchlist rows by another session during an import.
- `_persist_financial_statements`, `_persist_krx_prices` and `_persist_news`: loops of the same upsert shape as the
  disclosures; they are the `persist` parameter of `Orchestrator.ProviderIngestionService.RunTicker`. The KRX technical
  metrics are not modelled.
- `run_provider_batch`: it maps the per-ticker run over the tickers after a limit check.
- Ledger.IngestionIdempotencyService.StartOrRestartRun: a refresh that raises after the claim's commit is not a case of it; the run is then left started, as after a crash. `Protocol` has no step for that refresh: an exclusive owner re-reads its own started row.
- Orchestrator.ProviderIngestionService.RunTicker: counts an unregistered ticker's failure as a fetch step, although it fails before the provider is called.
- Ledger.IngestionIdempotencyService.ReconcileStaleStartedRuns: the query's tie-break by run id is left open, so its contract holds for every order of equally old runs.
- Materializer: the queries that choose statements and evidence up to the date and drop mock sources are the given facts of a ticker.
- Cache: the rows of the call log, entries written without an expiry time, and the OpenDART and KRX clients are not modelled.
- Providers: the patterns that extract cited ids, detect hidden reasoning and fold case are parameters; prompts and traces are not modelled.
- Composer: the regular-expression steps around the replacement other than the bracket removal, and the text of the summaries.
