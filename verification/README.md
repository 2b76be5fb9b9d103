# Verified model of the market-watch backend

A Dafny 4.11 model of the parts of the backend that keep state across failures, threads, processes or pages, with
proofs of what they promise. `dafny verify dfyconfig.toml` checks all of it. Methods and classes follow the code step by
step; each is tied to a function of its input or of the state before the call, and the lemmas are about those functions
and about whole runs.

| modules | what they model |
|---|---|
| `UrlHashTable`, `BackfillPlan`, `BackfillRun`, `Backfill` | the URL-hash backfill: a table with a unique column, sessions with commit and rollback, planning, two-phase batches, row-by-row retry |
| `DigestBuffer`, `DigestProtocol` | digest windows of the alert service: buffer, pop, persist, restore, under any interleaving of threads |
| `AlertKeys`, `AlertRules`, `AlertGuarantees`, `AlertFates`, `AlertLedger`, `AlertDelivery` | dedupe keys, news alerts, daily limits, deferral to the AI and its timeout, what becomes of a match or an impact when transactions fail, and its way to an alert row or a digest |
| `QuietHours`, `PriceLiveness`, `PriceAlerts` | quiet-hours arithmetic; which quotes count as moving; price alerts for holdings, over batches whose transactions may fail |
| `StreamConsumer`, `StreamDelivery`, `StreamBacklog`, `StreamArrival` | the Redis stream consumer, any number of processes that share untrimmed streams, what a process that joins does with old entries, and what arrives of what is published |
| `EventBus`, `BreakerBound` | local bus, Redis hop, circuit breaker, batch time budget |
| `FusionCards`, `FusionKeys`, `GreedyScan`, `EventFusion`, `FusionHeaders`, `FusionTheorems`, `NewsLists`, `FusionTruncation`, `EventDetail` | fusion of event cards: the scan over all pairs, the bucketed and cached scan, the headers of fused cards, news lists cut short, from a card to its detail |
| `CursorCodec`, `NewsPages` | the page cursor and the walk over the news table |
| `TtlCache`, `CacheHistory` | the route cache against a plain map |
| `LlmRetry` | retries, backoff and failover of the language-model providers |
| `SourceScheduler` | due sources, failure and empty streaks, delays |
| `MarketSentiment` | the quantitative sentiment score, over the reals |
| `Prelude`, `Arithmetic`, `Decimals`, `Ordering`, `Calendar` | shared datatypes, powers of two, decimal text, sorting, ISO dates |

Instants are integers in microseconds (scheduler: reals in seconds). What the code gets from outside is a parameter: the
clock, the digest of a URL, the word splitter of titles, the watchlist matches of a news item, the outcome of a database
transaction, of a Redis call or of a provider request, the jitter.

## What the code does where its documentation says more

- **Cycles in the backfill.** The script's header says that the two-phase write copes with any circular dependency. It
  does when one batch holds the whole cycle and no row outside that batch holds a target of it. A swap that two batches share fails
  (`Backfill.SwapAcrossBatchesFails`), and so does a swap in one batch beside a row whose target an untouched row holds, for
  the refused batch is retried row by row (`Backfill.SwapBesideBlockedRowFails`). The failed rows are determined: those of a
  refused batch whose target is still held, when their turn comes, by another row that lies outside the batch, comes later
  in it or has itself failed (`BackfillRun.FailedExactly`, computed by `BackfillRun.FailedRows`). Nothing fails exactly when
  every row that holds a target is itself moved, in the same batch or an earlier one (`BackfillRun.MovesUpTo`).
- **Idempotence of the backfill.** The header says that a second run changes nothing. The second plan consists of exactly
  the updates that failed, so this holds if and only if nothing failed (`Backfill.SecondPlan`).
- **Digest length below one minute.** Window starts are computed with `max(1, minutes)`, the end of a window with the raw
  value. Hits are never lost exactly when the configured length is at least one minute (`DigestProtocol.NothingLostIff`).
- **Lost alerts.** A deferred keyword match is meant to be made up for when the AI stays silent. The sweep commits the
  deletion of the deferral (`alert_service.py:319-321`) before it opens the transaction that writes the alert (`:325`), and
  the worker swallows what is raised there (`queue_worker.py:344-346`). A match is answered exactly when that transaction
  commits, or it was answered before, or its digest hit was buffered before the failure (`AlertFates.TaskAnsweredIff`);
  otherwise it is lost (`AlertFates.MatchIsLost`). The same holds for the impacts of an analysed item
  (`ai_funnel_worker.py:154-163`, `AlertFates.ImpactAnsweredIff`, `AlertFates.ImpactIsLost`) and for a batch of keyword
  matches, whose loss a comment concedes (`queue_worker.py:436-438`).
- **Price alerts.** The handler promises one alert per symbol and market day. It records prices in memory before its
  transaction commits (`alert_service.py:259-267`), and what it raises is swallowed (`main.py:76-79`). The alert is there
  exactly if a triggering quote lies in a batch that commits (`PriceAlerts.PriceAlertIff`); prices seen by a batch that
  failed count, its rows are gone (`PriceAlerts.PriceAlertIsLost`).
- **Skipping the backlog.** A new consumer is meant to start behind the backlog. When `XINFO` fails its cursor is put at
  the beginning, and the entries of a stream that was not empty are injected as new
  (`StreamBacklog.BacklogSkippedIff`, `StreamBacklog.OldEntryReplayed`).
- **`publish_batch`** returns the number of Redis attempts, not of entries that Redis took: a publish that fails counts
  (`EventBus.HybridEventBus.PublishBatch`, `BreakerBound.FailedAttemptIsCounted`).
- **Cut news lists.** The comment on the event detail says that cutting the news lists does not change the other fields. It
  changes neither the groups nor any header field, but the cards' news and source counts are taken after the cut inputs are
  merged, so the news count may fall short. The short list is the first three items of the long one exactly if each of those is
  among the first three of some topic of the card, for any chain of merges (`FusionTruncation.TruncationCommutesIff`). That
  holds when the first three items of every absorbed topic have no repeats or are all its items
  (`FusionTruncation.TruncationCommutes`). The link table does not rule repeats out, and a topic that lists its first item
  twice can hide its third one (`FusionTruncation.RepeatHidesItem`).
- **Event detail under a market filter.** The detail uses the same candidate topics as the feed so that the keys agree, but
  the feed may filter the topics by market and the detail never does. A card of the feed is found exactly if the detail
  fuses a card from the same topics in the same order (`EventDetail.DetailFoundIff`); where the filter hides one of two
  topics that belong together it is not (`EventDetail.FilteredCardIsNotFound`).
- **Paging while rows change.** A row that gets a publication time after it was fetched moves in the listing
  (`persister.py:367-369`). If its instant falls it can be shown twice (`NewsPages.FallingRowShownTwice`), if it rises past
  the cursor it is missed (`NewsPages.RisingRowMissed`); the first never happens to a row whose instant does not fall, the
  second never to one whose instant does not rise (`NewsPages.MovingRows`).
- **A page limit of zero** returns an empty page without a successor although there are rows; a walk is complete if and only
  if the limit is at least one or nothing is there (`NewsPages.BrowsingIsCompleteIff`).

## Model

| member | source | states |
|---|---|---|
| UrlHashTable.TempHashInjective | backend/scripts/backfill_url_hash.py:235-237 | two rows of one run never get the same temporary value |
| UrlHashTable.TempHashIsNoDigest | backend/scripts/backfill_url_hash.py:235-237 | a temporary value is never the text of a SHA-256 digest |
| UrlHashTable.Session.UpdateHash | backend/scripts/backfill_url_hash.py:243-250 | an UPDATE is refused, without effect, exactly when another row holds the value; otherwise only that row changes |
| UrlHashTable.TempStep | backend/scripts/backfill_url_hash.py:242-247 | no statement of the first phase is ever refused |
| UrlHashTable.TargetStageAt | backend/scripts/backfill_url_hash.py:248-250 | in the second phase another row holds the next target exactly if it lies outside the batch and held it from the start |
| UrlHashTable.TargetStep | backend/scripts/backfill_url_hash.py:248-250 | a statement of the second phase is refused exactly when a row outside the batch holds the target |
| UrlHashTable.WriteBatch | backend/scripts/backfill_url_hash.py:240-252 | the batch commits if and only if no row outside it holds one of its targets, so every cycle inside it succeeds; a refusal leaves the committed table alone |
| UrlHashTable.FreeKeepsUnique | backend/scripts/backfill_url_hash.py:240-252 | a batch that commits keeps the hashes unique |
| BackfillPlan.BuildPlan | backend/scripts/backfill_url_hash.py:192-232 | updates are exactly the primaries that do not hold their hash, by id; a conflict group lists every other member once, in order; scanned = skipped + unchanged + changed |
| BackfillPlan.ScanRows | backend/scripts/backfill_url_hash.py:197-205 | the scan puts every row with a URL into the group of its target hash, in order, and counts the others |
| BackfillPlan.PlanGroup | backend/scripts/backfill_url_hash.py:207-226 | a group plans at most its primary and counts all its other rows as unchanged |
| BackfillPlan.PrimaryOfGroup | backend/scripts/backfill_url_hash.py:156-165 | the chosen row is the one and only primary of the table's group: a holder of the hash first, then the earliest, then the lowest id |
| BackfillPlan.PrimaryMeans | backend/scripts/backfill_url_hash.py:156-165 | by the table's columns: the primary holds the hash, and when nobody does it is the first by instant and then by id, a missing instant being the last one of the year 9999 |
| BackfillPlan.BlankIff | backend/scripts/backfill_url_hash.py:197-203 | a URL is blank if nothing but white space is in it |
| BackfillPlan.KeyOrder | backend/scripts/backfill_url_hash.py:148-154 | rows sort by instant, then by id; those without an instant come last |
| BackfillPlan.SortedUpdates | backend/scripts/backfill_url_hash.py:228-231 | the sorted updates are exactly the due ones, ids strictly increasing |
| BackfillPlan.SortedConflicts | backend/scripts/backfill_url_hash.py:214-231 | every group with more than one row is reported once, with all its other rows |
| BackfillRun.TryBatch | backend/scripts/backfill_url_hash.py:264-268 | after a write and its rollback the table has changed by the whole batch or not at all |
| BackfillRun.RetryRows | backend/scripts/backfill_url_hash.py:267-276 | a row of a refused batch fails exactly when its target is held by a row that lies outside the batch, comes later in it or has failed in it; every other row gets its target, and every committed state is safe |
| BackfillRun.ApplyBatch | backend/scripts/backfill_url_hash.py:262-276 | a batch that no outside row blocks loses nothing; of a refused one exactly the blocked rows are lost |
| BackfillRun.ApplyUpdates | backend/scripts/backfill_url_hash.py:255-277 | every committed state is unique and free of temporary values; with batches of the given size, or of one row when it is below one, `failed` holds exactly the rows of refused batches that are blocked when their turn comes, which a recursion over the plan computes from the first table, each with its row as before; every other planned row has its target, the rest is untouched; updated + failed = planned; nothing fails iff every holder of a target moves in time, so never when one batch takes the whole plan and every holder is planned |
| BackfillRun.BatchFailsExactly | backend/scripts/backfill_url_hash.py:262-276 | one more batch keeps the failed set exact: what a batch loses, seen from its own start, is what the run, seen from its start, must lose |
| BackfillRun.FailuresDetermined | backend/scripts/backfill_url_hash.py:255-277 | the exactness condition has one solution: table, plan and batch size decide which rows fail |
| BackfillRun.FailedRowsExactly | backend/scripts/backfill_url_hash.py:255-277 | the rows that the recursion over the plan computes are that solution |
| BackfillRun.BatchVerdict | backend/scripts/backfill_url_hash.py:261-276 | whether a batch adds a failure is decided by who held its targets when the run began |
| BackfillRun.LateHolderFails | backend/scripts/backfill_url_hash.py:261-276 | a holder that is not moved in the same or an earlier batch blocks the row that wants its hash |
| BackfillRun.TimelyBatchIsFree | backend/scripts/backfill_url_hash.py:261-276 | when all holders move in time, no outside row holds a target of the batch |
| Backfill.RunBackfill | backend/scripts/backfill_url_hash.py:303-325 | without `apply` nothing is written; with it the plan is applied in batches of the given size with all guarantees of the run, and without failures when one batch takes it all and every holder is planned |
| Backfill.PlanIsPlannable | backend/scripts/backfill_url_hash.py:207-231 | a plan never writes one row twice and never gives two rows the same hash |
| Backfill.SecondPlan | backend/scripts/backfill_url_hash.py:19-19 | a second plan has the same primaries and exactly the failed updates, so it is empty iff nothing failed |
| Backfill.PrimarySettled | backend/scripts/backfill_url_hash.py:156-165 | a run, failures included, changes no group's primary |
| Backfill.DueAgain | backend/scripts/backfill_url_hash.py:207-226 | after a run exactly the failed updates are due |
| Backfill.OwnHoldersNeverFail | backend/scripts/backfill_url_hash.py:20-24 | when every holder of a target belongs to its group, nothing fails |
| Backfill.SwapInOneBatchSucceeds | backend/scripts/backfill_url_hash.py:32-34 | a swap of two hashes alone in one batch succeeds |
| Backfill.SwapAcrossBatchesFails | backend/scripts/backfill_url_hash.py:32-34 | of a swap that two batches share both rows fail |
| Backfill.SwapBesideBlockedRowFails | backend/scripts/backfill_url_hash.py:262-276 | a swap in one batch beside a row whose target an untouched row holds: all three rows fail |
| Backfill.SwapBesideBlockedRow | backend/scripts/backfill_url_hash.py:262-276 | such a table and plan exist: rows 1 and 2 swap their hashes, row 3 wants the hash of row 9 |
| DigestBuffer.WindowHoldsNow | backend/app/services/alert_service.py:802-805 | an instant lies in its own window, if windows last at least a minute |
| DigestBuffer.SameWindowIff | backend/app/services/alert_service.py:802-805 | two instants share a window iff they lie between the same multiples of its length, one minute at least |
| DigestBuffer.EndedIffPassed | backend/app/services/alert_service.py:474-482 | a window is over iff the clock has left its stretch |
| DigestBuffer.MergeFacts | backend/app/services/alert_service.py:645-655 | a window that takes restored hits keeps its own in front and gets each missing key once |
| DigestBuffer.OfGroupOne | backend/app/services/alert_service.py:484-493 | a hit belongs to its own group's digest only |
| DigestBuffer.OfGroupConcat | backend/app/services/alert_service.py:484-493 | a group's hits of a window are in the order in which they came |
| DigestBuffer.DigestService.BufferHit | backend/app/services/alert_service.py:635-643 | a hit joins the window of the instant unless its group, item and symbol are there; no other window changes |
| DigestBuffer.DigestService.PopEnded | backend/app/services/alert_service.py:474-482 | exactly the ended windows are taken out, each once |
| DigestBuffer.DigestService.RestoreWindows | backend/app/services/alert_service.py:645-655 | popped windows are re-entered, or their new hits join the window that took their place |
| DigestBuffer.WriteDigests | backend/app/services/alert_service.py:484-493 | one row for each window and group with hits unless it exists; rows that exist stay; the result counts the new ones |
| DigestBuffer.DigestService.Flush | backend/app/services/alert_service.py:472-503 | the three outcomes of a flush: done, failed before the commit, failed after it |
| DigestProtocol.StepKeepsInv | backend/app/services/alert_service.py:472-503 | buffer, pop, commit, finish, failure and clock steps of any threads keep each window's hits in exactly one place |
| DigestProtocol.RunKeepsInv | backend/app/services/alert_service.py:472-503 | the invariant holds in every state of every run |
| DigestProtocol.DigestConservation | backend/app/services/alert_service.py:472-503 | over every interleaving no accepted hit is lost, and a digest holds exactly its group's hits of its window, each once, and only once the window is over |
| DigestProtocol.HitsEnterTheirStretch | backend/app/services/alert_service.py:635-643 | in every run each accepted hit was buffered at an instant of its window's stretch |
| DigestProtocol.WindowsAreDisjoint | backend/app/services/alert_service.py:802-805 | in every run the windows that have accepted hits are whole, disjoint stretches, so each stretch has at most one digest per group |
| DigestProtocol.DrainedIsDelivered | backend/app/services/alert_service.py:472-503 | when nothing is in flight and no ended window is buffered, every hit of an ended window is in its digest |
| DigestProtocol.ShortDigestsLose | backend/app/services/alert_service.py:474-482 | with a digest length below one minute there is a run that loses a hit |
| DigestProtocol.NothingLostIff | backend/app/services/alert_service.py:802-805 | no run loses a hit if and only if the digest length is at least one minute |
| AlertKeys.KeyTextInjective | backend/app/services/alert_service.py:595-684 | the key text tells the kind and the fact, whatever the symbols contain: no two facts share a row, of one kind or of two |
| AlertKeys.KeyTexts | backend/app/services/alert_service.py:595-684 | the texts themselves, which stored rows stand under |
| AlertRules.NewsAlerts.Create | backend/app/repositories/alert_repository.py:18-57 | a row is added exactly if its key is in the table neither before nor by the time of the insert, and no other row changes |
| AlertRules.NewsAlerts.OnNewsImpacts | backend/app/services/alert_service.py:401-470 | the table and the buffer after the impacts of one item and its overseas alert, or after something raised on the way: then no row is added while the hits buffered so far stay; publishing new rows may raise after the commit; the result counts the rows added |
| AlertRules.RaisesIff | backend/app/services/alert_service.py:828-842 | a handler that has committed raises only when publishing fails and a row is new |
| AlertRules.SignificantIff | backend/app/services/alert_service.py:417-424 | impacts count when they point up or down and are strong or medium |
| AlertRules.NewsAlerts.OnKeywordFallback | backend/app/services/alert_service.py:374-399 | holdings get their row, other stocks their hit; when the transaction fails after some steps no row is added and the hits of those steps stay; publishing new rows may raise after the commit; the result counts the rows added |
| AlertRules.NewsAlerts.DeferKeywordHits | backend/app/services/alert_service.py:343-372 | matched items not deferred yet are recorded at once; when the insert fails, for a repeated item or otherwise, none is and the keyword rules answer in a transaction of their own |
| AlertRules.NewsAlerts.SweepDeferred | backend/app/services/alert_service.py:280-325 | one transaction takes the handled and the timed-out deferrals out of the table; only after its commit another one, which may fail, hands the timed-out ones to the keyword rules |
| AlertGuarantees.OneMoreStockAlert | backend/app/services/alert_service.py:743-749 | the AI alerts of a stock and local day are among those the limit counts, and an insert adds at most one |
| AlertGuarantees.AiCreateKeepsGood | backend/app/services/alert_service.py:440-446 | an insert below the limit keeps every stock and day within its limit |
| AlertGuarantees.OverseasCreateKeepsGood | backend/app/services/alert_service.py:449-465 | an insert below the overseas limit keeps every day within it |
| AlertGuarantees.LimitsHold | backend/app/services/alert_service.py:280-470 | in any order of events, whichever transactions fail: one row for each fact, both daily limits hold, rows and hits only grow |
| AlertGuarantees.NothingUnprompted | backend/app/services/alert_service.py:417-448 | every new hit and row has a significant impact of this item behind it, a row one on a holding |
| AlertLedger.OverseasIff | backend/app/services/alert_service.py:449-465 | after its event a major overseas item has its alert iff it had it before, or the transaction commits and the local day had fewer overseas alerts than the limit; the new row is of that instant |
| AlertLedger.OverseasIsAnswered | backend/app/services/alert_service.py:449-465 | in a run: below the limit, and for good |
| AlertLedger.StockTodayIs | backend/app/services/alert_service.py:743-749 | what the stock limit counts are the alerts of the stock on the local day |
| AlertLedger.OverseasTodayIs | backend/app/services/alert_service.py:743-760 | and for the overseas limit the overseas alerts of the local day |
| AlertLedger.KeywordRowsPrompted | backend/app/services/alert_service.py:374-399 | a new row of the keyword rules is of a matched holding, of that instant and not by AI |
| AlertLedger.WaitingExactly | backend/app/services/alert_service.py:306-321 | a sweep leaves exactly the deferrals without a verdict that have waited less than 15 minutes |
| AlertLedger.TimedOutExactly | backend/app/services/alert_service.py:306-325 | and hands over exactly those that have waited 15 minutes, with their matches of that moment |
| AlertLedger.NewDeferralsExactly | backend/app/services/alert_service.py:343-366 | a batch defers exactly the matched items that are not deferred yet |
| AlertLedger.DeferralsStayOneEach | backend/app/services/alert_service.py:343-372 | over all histories an item is deferred at most once |
| AlertLedger.DeferOutcome | backend/app/services/alert_service.py:343-372 | a batch of different items is deferred if the insert goes through, else handed over |
| AlertFates.ImpactHitsExactly | backend/app/services/alert_service.py:417-448 | the buffer takes in exactly the hits of the impacts that are not answered by a row |
| AlertFates.ImpactAnsweredIff | backend/app/workers/ai_funnel_worker.py:154-163 | an impact is answered by its event iff the transaction commits, or it was answered before, or its hit was buffered before the failure |
| AlertFates.ImpactsAreAnswered | backend/app/services/alert_service.py:417-448 | a significant impact whose transaction commits leaves its alert row or its digest hit, for good |
| AlertFates.ImpactIsLost | backend/app/workers/ai_funnel_worker.py:154-163 | a holding's impact is lost without a trace when the transaction fails, at whatever step |
| AlertFates.KeywordHitsExactly | backend/app/services/alert_service.py:374-399 | the buffer takes in exactly the hits of the matched stocks that are no holdings |
| AlertFates.TaskAnsweredIff | backend/app/services/alert_service.py:374-399 | a match handed to the keyword rules is answered iff their transaction commits, or it was answered before, or its hit was buffered before the failure |
| AlertFates.TaskFate | backend/app/services/alert_service.py:280-399 | the same at every step of every run, and an answer is for good |
| AlertFates.DeferralsSettle | backend/app/services/alert_service.py:280-325 | a deferred item waits, or a sweep found the AI's verdict, or a sweep handed all its matches to the keyword rules |
| AlertFates.MatchFate | backend/app/services/alert_service.py:343-372 | a keyword match that arrives in AI mode is handed to the keyword rules at once or has the fate of a deferred item |
| AlertFates.CommittedIsAnswered | backend/app/services/alert_service.py:319-325 | what an event hands over is answered for good if its transaction commits |
| AlertFates.MatchIsLost | backend/app/services/alert_service.py:319-325 | a sweep whose deletion commits and whose second transaction fails loses a holding's match: no deferral, no row, no hit |
| AlertDelivery.HitIsShown | backend/app/services/alert_service.py:472-503 | a hit that a handler has buffered is in the digest of its group once the windows are drained, under any interleaving |
| AlertDelivery.ImpactIsShown | backend/app/services/alert_service.py:401-503 | from end to end: a significant impact whose transaction commits is an alert row, or in a digest of its group once the windows are drained, whatever other threads do and whichever flushes and transactions fail |
| AlertDelivery.MatchIsShown | backend/app/services/alert_service.py:374-503 | the same for a keyword match that an event hands over in a transaction that commits |
| AlertDelivery.SectorImpactIsShown | backend/app/services/alert_service.py:401-503 | such a run exists: an impact on a followed sector, buffered and flushed, is in the sector digest |
| QuietHours.QuietIsBranch | backend/app/services/alert_service.py:810-826 | the branch taken is membership in the quiet hours as stretches of local time |
| QuietHours.VisibleAtFirstQuietEnd | backend/app/services/alert_service.py:810-826 | the visible instant is the first one from now on outside the quiet hours, and the flag says whether now is inside |
| PriceLiveness.PriceTracker.Observe | backend/app/services/alert_service.py:532-552 | the tracker and the verdict after one observation, stale days dropped one by one |
| PriceLiveness.MovingIffTwoPrices | backend/app/services/alert_service.py:532-552 | a priced quote counts as moving iff two different prices of its symbol and day have been seen; only the latest day is tracked |
| PriceAlerts.QuoteAlerts.OnQuotes | backend/app/services/alert_service.py:242-269 | the tracker and the table after one batch of quotes: a batch that fails leaves the table alone while the tracker keeps what it has seen; publishing new rows may raise after the commit; the result counts the rows added |
| PriceAlerts.MovesEitherWay | backend/app/services/alert_service.py:258-260 | rises and falls count alike |
| PriceAlerts.PriceAlertIff | backend/app/services/alert_service.py:242-269 | over all batches, whichever fail: a holding has its alert of a market day iff it had it before, or an open-market quote in a batch that commits moved by the threshold after the day had shown two prices, to failed batches too; at most one alert per symbol and day |
| PriceAlerts.BatchesAreTicks | backend/app/services/alert_service.py:242-269 | batch by batch is quote by quote, where the quotes of a failed batch reach only the tracker |
| PriceAlerts.PriceAlertIsLost | backend/app/services/alert_service.py:259-267 | two batches, the second of which fails: its quote triggers and no alert is there |
| StreamConsumer.RedisStreamConsumer.ResolveInitialIds | backend/app/services/redis_stream_bus.py:113-142 | every unresolved cursor goes to the last id, or to the beginning when it is not known; resolved ones stay |
| StreamConsumer.RedisStreamConsumer.TakeBatch | backend/app/services/redis_stream_bus.py:155-166 | the cursor ends at the batch's last entry; foreign well-formed entries are injected in order and counted |
| StreamConsumer.RedisStreamConsumer.ReadReply | backend/app/services/redis_stream_bus.py:150-168 | the same for all batches of a reply; a failed read changes nothing |
| StreamConsumer.RedisStreamConsumer.PollOnce | backend/app/services/redis_stream_bus.py:144-168 | resolve, then take in one reply; the result counts the injected events |
| StreamDelivery.EachWantedOnce | backend/app/services/redis_stream_bus.py:170-187 | of a stretch of a stream every foreign well-formed entry is injected once, in order; own and malformed entries never |
| StreamDelivery.ReadingKeeps | backend/app/services/redis_stream_bus.py:144-168 | a reply extends what was injected by exactly the stretch it covers |
| StreamDelivery.StepKeepsInv | backend/app/services/redis_stream_bus.py:113-212 | publishing, foreign appends, resolving, reading and restarting keep the invariant of every process |
| StreamDelivery.CrossProcessDelivery | backend/app/services/redis_stream_bus.py:113-187 | in every run, for every process and stream: injected is the stream from the resolved start to the cursor less own and malformed entries, without gaps or repeats |
| StreamArrival.InjectedContent | backend/app/services/redis_stream_bus.py:170-187 | an entry is injected iff it is foreign and well-formed, under its event name and with its payload, an empty object if that is missing |
| StreamArrival.PublishedArrives | backend/app/services/redis_stream_bus.py:142-187 | from end to end in every run: what a process publishes, every other process whose start lies at or before it and whose cursor has passed it has injected, event and body unchanged |
| StreamArrival.NothingMadeUp | backend/app/services/redis_stream_bus.py:142-187 | in every run each injected event is a foreign, well-formed entry between start and cursor |
| StreamBacklog.BacklogSkippedIff | backend/app/services/redis_stream_bus.py:119-141 | in every run, while a process does not restart: what it injects starts behind all entries there were when it joined iff XINFO succeeded or there were none; otherwise every old entry of another process up to the cursor has been injected |
| StreamBacklog.OldEntryReplayed | backend/app/services/redis_stream_bus.py:119-141 | a run in which XINFO fails and a process injects an entry older than itself |
| EventBus.InMemoryEventBus.Subscribe | backend/app/services/event_bus.py:64-66 | the handler is called last for this event; other events are not touched |
| EventBus.InMemoryEventBus.Unsubscribe | backend/app/services/event_bus.py:68-75 | all registrations of the handler go, the order of the others stays |
| EventBus.InMemoryEventBus.Publish | backend/app/services/event_bus.py:77-95 | every subscriber is called once, in order, even when others raise; the raising ones are counted |
| EventBus.RaisingCounts | backend/app/services/event_bus.py:77-95 | each raising subscriber counts once |
| EventBus.HybridEventBus.PublishToRedis | backend/app/services/event_bus.py:152-195 | an attempt is made iff the event has a stream and the circuit is closed; what the log, the failures and the circuit become |
| EventBus.HybridEventBus.Publish | backend/app/services/event_bus.py:206-209 | local delivery does not depend on Redis |
| EventBus.HybridEventBus.RedisHop | backend/app/services/event_bus.py:226-243 | one payload of a batch under the time budget |
| EventBus.HybridEventBus.PublishBatch | backend/app/services/event_bus.py:211-250 | every payload reaches every local subscriber; the result is the attempts, which are the entries taken plus the errors |
| EventBus.HybridEventBus.InjectFromRemote | backend/app/services/event_bus.py:252-255 | an injected event is delivered locally and never returns to Redis |
| BreakerBound.TallyFacts | backend/app/services/event_bus.py:152-195 | attempts are bounded by the openings, and each opening moves the circuit one cooldown on |
| BreakerBound.AttemptsBounded | backend/app/services/event_bus.py:152-195 | while Redis keeps failing, a span has at most threshold * (span / cooldown + 1) attempts |
| BreakerBound.ThresholdOpens | backend/app/services/event_bus.py:174-189 | fewer than threshold failures in a row leave the circuit closed, the last of threshold opens it for one cooldown |
| BreakerBound.SuccessStartsOver | backend/app/services/event_bus.py:174-193 | after any run a success starts the count anew and leaves the circuit as it is; only the threshold-th failure after it opens |
| BreakerBound.NoAttemptWhileOpen | backend/app/services/event_bus.py:156-163 | no attempt inside an open window |
| BreakerBound.BudgetBounds | backend/app/services/event_bus.py:211-250 | a batch over-runs its budget by at most the attempt under way |
| BreakerBound.BudgetIsTime | backend/app/services/event_bus.py:211-250 | while the circuit is closed a batch attempts payloads exactly as long as its attempts have taken less than the budget |
| BreakerBound.NoBudgetNoEnd | backend/app/services/event_bus.py:211-250 | without a budget it attempts all of them |
| BreakerBound.AttemptsAreTakenAndFailed | backend/app/services/event_bus.py:211-250 | the result of a batch is at least the number of entries Redis took, and equal to it when no publish fails |
| BreakerBound.FailedAttemptIsCounted | backend/app/services/event_bus.py:211-250 | a batch whose only publish fails reports one although Redis took nothing |
| FusionCards.MergeCards | backend/app/services/news_feed_layout.py:353-391 | the running set of seen ids gives the list of first occurrences; all fields of the merged card |
| FusionHeaders.FuseIff | backend/app/services/news_feed_layout.py:333-350 | two cards fuse iff they are of one kind, not the general one, and have the same main symbol, two common symbols, or half of all title words in common |
| FusionHeaders.FusedHeaders | backend/app/services/news_feed_layout.py:353-426 | every fused card has its opener's title, market, sentiment and kind, the largest importance and the latest instant of its group, the first filled summary and main symbol, and the first five of all symbols although every merge cuts |
| FusionHeaders.CountsAreTrue | backend/app/services/news_feed_layout.py:353-391 | the counts of a merged card are those of its list before it is cut |
| FusionCards.NewestFirst | backend/app/services/news_feed_layout.py:226-237 | the order of news: effective, else published, else fetched instant, then fetched instant, then id |
| FusionKeys.KeyTextInjective | backend/app/services/news_feed_layout.py:353-391 | a fused key tells the topics that were fused and their order |
| GreedyScan.GroupsPartition | backend/app/services/news_feed_layout.py:394-426 | every input is in exactly one group, and groups go up |
| GreedyScan.GroupsAreGreedy | backend/app/services/news_feed_layout.py:394-426 | each group opens with the first input left, took each member as the group stood then, and refused every other input that was left |
| EventFusion.SameKeySameGroup | backend/app/services/news_feed_layout.py:306-330 | two fused cards with one key are the same card, so a cached feature is never another card's |
| EventFusion.FuseFeatureCache.Tokens | backend/app/services/news_feed_layout.py:318-323 | the cached words are the title's words |
| EventFusion.FuseFeatureCache.Symbols | backend/app/services/news_feed_layout.py:325-330 | the cached symbols are the card's symbols |
| EventFusion.FuseFeatureCache.ShouldFuseCached | backend/app/services/news_feed_layout.py:333-350 | deciding with the cache is deciding without it |
| EventFusion.SkipOtherKinds | backend/app/services/news_feed_layout.py:402-410 | cards of other kinds never change a group, so the buckets leave nothing out |
| EventFusion.Absorb | backend/app/services/news_feed_layout.py:414-425 | the bucketed inner loop grows the group the scan over all pairs grows |
| EventFusion.FuseEventCards | backend/app/services/news_feed_layout.py:394-426 | the bucketed and cached scan returns exactly the list of the scan over all pairs |
| FusionTheorems.FusionPartition | backend/app/services/news_feed_layout.py:394-426 | each input card is absorbed by exactly one output |
| FusionTheorems.FusionKeepsNews | backend/app/services/news_feed_layout.py:353-426 | without a limit an output lists exactly its inputs' items, newest first, each as often as its opener does and every other item once; so no item is doubled iff the opener doubles none |
| NewsLists.TopItems | backend/app/services/news_feed_layout.py:232-237 | an ordered list that lacks only items behind the first k of another, repeats included, has the same first k |
| FusionTruncation.TruncationKeepsCards | backend/app/services/news_feed_layout.py:619-626 | on any cards, cutting the news lists changes no group and no field but the news and their counts |
| FusionTruncation.TruncationCommutesIff | backend/app/services/news_feed_layout.py:353-426 | for every card of the fused run, any opener, any chain of merges and any length: the short list is the first k of the long one iff each of those items is among the first k of some topic of the card; the news count never exceeds the true one |
| FusionTruncation.TruncationCommutes | backend/app/services/news_feed_layout.py:353-426 | a condition on the topics alone: if each topic that the opener absorbs has no repeats among its first k or no items beyond them, the short list is the first k of the long one, whatever the opener repeats |
| FusionTruncation.OlderOpenerIff | backend/app/services/news_feed_layout.py:353-426 | under an opener with a single item, older than all of the absorbed topic's, that condition on the topic is exact: the short list is the first k of the long one iff the topic may be cut |
| FusionTruncation.RepeatHidesItem | backend/app/services/news_feed_layout.py:429-495 | at the length of three, a topic that lists its first item twice hides its third one behind an older item of the opener |
| EventDetail.FusedKeysDiffer | backend/app/services/news_feed_layout.py:394-426 | no two output cards have the same key |
| EventDetail.DetailIsFound | backend/app/services/news_feed_layout.py:611-645 | when feed and detail collect the same topics, every card of the feed finds its own counterpart, in whatever order the cards are listed |
| EventDetail.DetailFoundIff | backend/app/services/news_feed_layout.py:611-655 | when they collect different ones, a card of the feed is found iff the detail fuses a card from the same topics in the same order |
| EventDetail.UnchangedFeedIsFound | backend/app/services/news_feed_layout.py:645-680 | without a filter, or with one that changes no topic's card, every card is found |
| EventDetail.FilteredCardIsNotFound | backend/app/services/news_feed_layout.py:645-680 | with a filter that hides one of two topics that belong together, the card of the other one is not found |
| CursorCodec.PaddingRestored | backend/app/repositories/news_cursor.py:15-24 | stripping and refilling the padding gives the encoded text back |
| CursorCodec.ValueIff | backend/app/repositories/news_cursor.py:19-24 | the alphabet has 64 characters, which decode to their values, and no other |
| CursorCodec.FromBytesIff | backend/app/repositories/news_cursor.py:19-24 | bytes are read as text iff they are the codes of ASCII text |
| CursorCodec.Base64RoundTrip | backend/app/repositories/news_cursor.py:19-24 | decoding undoes encoding for every byte string, with the URL-safe alphabet |
| CursorCodec.CursorRoundTrip | backend/app/repositories/news_cursor.py:15-30 | a cursor decodes to exactly its instant and id, and is never empty |
| Calendar.DateTimeRoundTrip | backend/app/repositories/news_cursor.py:17-29 | the ISO text of a date-time reads back, microseconds or not |
| Calendar.MonthLengths | backend/app/repositories/news_cursor.py:26-30 | the dates that a cursor may name are those of the Gregorian calendar |
| Calendar.StampOrder | backend/app/repositories/news_repository.py:91-122 | the instants of the listing compare in the order of time |
| Calendar.DayNumberOrder | backend/app/services/alert_service.py:532-552 | market days compare in calendar order |
| NewsPages.ListingFacts | backend/app/repositories/news_repository.py:91-122 | a listing holds exactly the rows that pass the filters and lie behind the cursor, each once, newest first |
| NewsPages.MatchesIff | backend/app/repositories/news_repository.py:77-90 | a missing or empty filter lets everything through, any other one its own value |
| NewsPages.ListingById | backend/app/repositories/news_repository.py:101-122 | a cursor without an instant stands for all rows with smaller ids |
| NewsPages.OddCursors | backend/app/repositories/news_repository.py:91-122 | an empty cursor asks for the first page, one that does not decode is refused |
| NewsPages.CutIsOk | backend/app/repositories/news_repository.py:172-178 | a page shows everything up to its last item, and has no successor only if nothing is left |
| NewsPages.FollowIsBrowse | backend/app/repositories/news_repository.py:101-122 | following cursor texts is starting behind the last item seen |
| NewsPages.WalkIsSound | backend/app/repositories/news_repository.py:77-178 | over tables that change between pages: no row is shown twice at one instant, and a row that stays, with the same instant, is shown by a walk that ends |
| NewsPages.MovingRows | backend/app/repositories/news_repository.py:77-178 | a row whose instant never falls between pages is shown at most once; one that stays in and whose instant never rises is shown by a walk that ends |
| NewsPages.FallingRowShownTwice | backend/app/services/ingestion/persister.py:367-369 | a walk of two pages shows a row twice iff its instant falls behind the cursor |
| NewsPages.RisingRowMissed | backend/app/services/ingestion/persister.py:367-369 | a walk of two pages misses a row that is there all the time iff its instant rises past the cursor |
| NewsPages.BrowseIsComplete | backend/app/repositories/news_repository.py:77-178 | on an unchanging table a walk from any start ends and concatenates to the rest of the listing |
| NewsPages.BrowsingIsCompleteIff | backend/app/repositories/news_repository.py:172-178 | a walk from the top is complete iff the limit is at least one or there is nothing to show |
| TtlCache.SimpleTTLCache.Get | backend/app/core/simple_cache.py:67-82 | a fresh entry is returned and goes to the end, a stale one is dropped |
| TtlCache.SimpleTTLCache.Set | backend/app/core/simple_cache.py:84-93 | the entry goes to the end, and the least recently used go first down to the bound |
| TtlCache.SimpleTTLCache.Clear | backend/app/core/simple_cache.py:95-97 | nothing is left |
| CacheHistory.HistoryKeepsInv | backend/app/core/simple_cache.py:56-97 | after any history entries are the latest values, stand in the order of use, and every absence is excused |
| CacheHistory.EvictionIsExcused | backend/app/core/simple_cache.py:84-93 | the key that goes first has seen at least `max_entries` others used since |
| CacheHistory.CacheRefinesMap | backend/app/core/simple_cache.py:56-97 | never over-full; a hit is the latest unexpired value; an unexpired value is missed only after `max_entries` other keys were used since |
| LlmRetry.ChatStream | backend/app/services/llm_providers.py:804-936 | the loop's events, requests, waits and ending are those of the streamed call |
| LlmRetry.Complete | backend/app/services/llm_providers.py:484-533 | a call without streaming makes the requests and waits of a stream of whole replies |
| LlmRetry.StreamShape | backend/app/services/llm_providers.py:916-936 | the consumer sees one attempt of the provider and, after a failover event, the one attempt of the backup |
| LlmRetry.RetriesAreSilent | backend/app/services/llm_providers.py:916-920 | every earlier attempt showed nothing and failed transiently, and the last did not unless all retries were used; at most max + 1 requests and one to the backup |
| LlmRetry.OneFailover | backend/app/services/llm_providers.py:305-331 | one failover event if the call fails over, none otherwise |
| LlmRetry.BackoffBound | backend/app/services/llm_providers.py:353-362 | all waits together are at most 1.25 * base * (2^max - 1) |
| LlmRetry.BackoffAtLeast | backend/app/services/llm_providers.py:353-362 | a call waits at least base * (2^n - 1) for the n retries it makes |
| LlmRetry.SleptExactly | backend/app/services/llm_providers.py:353-362 | and exactly that without jitter |
| LlmRetry.LastAttemptDecides | backend/app/services/llm_providers.py:916-936 | a call ends as its last attempt does, the backup's if it fails over |
| SourceScheduler.TrailingRunIs | backend/app/services/news_ingest_scheduler.py:182-206 | a streak's length is the number of outcomes of its kind since the last other one |
| SourceScheduler.MultiplierFacts | backend/app/services/news_ingest_scheduler.py:143-154 | the wait is between one and the maximal number of cadences and does not shrink while a streak grows |
| SourceScheduler.DelayDoubles | backend/app/services/news_ingest_scheduler.py:143-154 | each failure doubles the wait up to the maximum, and so does each empty batch from the threshold on, none before |
| SourceScheduler.EachDueGetsOne | backend/app/services/news_ingest_scheduler.py:180-207 | each due source gets exactly its own outcome, a missing one as a failure |
| SourceScheduler.StatusIs | backend/app/services/news_ingest_scheduler.py:180-183 | the last result under a source's name counts, and a missing one as an HTTP error |
| SourceScheduler.KindsOfWords | backend/app/services/news_ingest_scheduler.py:184-200 | which words are successes and which an empty batch; all others are failures |
| SourceScheduler.OthersKeep | backend/app/services/news_ingest_scheduler.py:180-207 | a source that was not due keeps its history |
| SourceScheduler.Scheduler.Record | backend/app/services/news_ingest_scheduler.py:184-207 | one outcome keeps the streaks equal to the trailing runs and the source on its schedule |
| SourceScheduler.Scheduler.DoCycle | backend/app/services/news_ingest_scheduler.py:156-209 | a cycle records exactly the due sources; a refresh that raises records nothing |
| SourceScheduler.Scheduler.DueAreDue | backend/app/services/news_ingest_scheduler.py:135-141 | fetched are exactly the listed sources that are enabled and due |
| SourceScheduler.Scheduler.DueWindow | backend/app/services/news_ingest_scheduler.py:135-154 | a source is never due within one cadence of its last outcome and always due after the maximal delay |
| SourceScheduler.Scheduler.NewIsDue | backend/app/services/news_ingest_scheduler.py:135-141 | a source never noted is due at once unless disabled |
| SourceScheduler.Scheduler.OneStreakAtMost | backend/app/services/news_ingest_scheduler.py:184-200 | no source has both streaks |
| MarketSentiment.MomentumRises | backend/app/services/market_sentiment_service.py:357-367 | the momentum score rises over all pieces and jumps, within [-1, 1] |
| MarketSentiment.VixFalls | backend/app/services/market_sentiment_service.py:370-377 | the volatility score falls over all pieces and the jump at 30 |
| MarketSentiment.AdvanceRises | backend/app/services/market_sentiment_service.py:380-385 | the advance-ratio score rises within [-0.5, 0.5] |
| MarketSentiment.MomentumPieces | backend/app/services/market_sentiment_service.py:357-367 | the momentum score piece by piece |
| MarketSentiment.VixPieces | backend/app/services/market_sentiment_service.py:370-377 | the volatility score piece by piece |
| MarketSentiment.AdvancePieces | backend/app/services/market_sentiment_service.py:380-385 | the advance-ratio score piece by piece |
| MarketSentiment.LabelRanges | backend/app/services/market_sentiment_service.py:388-397 | each label is a range of scores |
| MarketSentiment.KnownCounts | backend/app/services/market_sentiment_service.py:413-414 | an index with a change adds to the sum and the number of the mean |
| MarketSentiment.UnknownIsSkipped | backend/app/services/market_sentiment_service.py:413-414 | one without a change does not count |
| MarketSentiment.RatioOfAll | backend/app/services/market_sentiment_service.py:416-420 | the ratio is the rising stocks' share of all |
| MarketSentiment.ScoreWithin | backend/app/services/market_sentiment_service.py:437-440 | the renormalised score lies between its smallest and largest component |
| MarketSentiment.WeightsShared | backend/app/services/market_sentiment_service.py:316-318 | a component alone is the score; two and three share the weights 0.6, 0.25 and 0.15 |
| MarketSentiment.ScoreBounds | backend/app/services/market_sentiment_service.py:400-440 | the score is in [-1, 1], and unknown, with the unknown label, exactly when there is no input |
| MarketSentiment.ScoreOrder | backend/app/services/market_sentiment_service.py:388-440 | raising an index change or the advance ratio, or lowering the volatility, never lowers the score or darkens the label |

## Left out

- Duplicate marking (`_mark_duplicates`), the report and the command line of the backfill; the URL normaliser and SHA-256
  are one function, of which only the shape of a digest is used; a blank URL is recognised by ASCII white space only.
- Two alert services at once, a clock that goes backwards, the loss of buffered windows at a process restart, and
  daylight-saving changes of the local zone.
- AlertGuarantees.LimitsHold: threads run the handlers one after the other; two handlers that both count before either
  inserts could exceed a daily limit.
- AlertRules.NewsAlerts.OnNewsImpacts: names and codes come trimmed and upper-cased, and the matching of impacts and titles
  with the watchlist is an input.
- PriceAlerts.PriceAlertIff: whether a market is open and which day it has are inputs, and the market days of a symbol never
  go back; alerts that another process adds meanwhile are not modelled.
- DigestProtocol.DigestConservation: digest rows of earlier processes belong to windows that are over under the current
  length; a restart with a longer `watch_digest_minutes` can break that.
- AlertDelivery.ImpactIsShown: within one process, from an empty buffer on; handlers start one after the other, and that the
  windows come to be drained is a hypothesis.
- Sentiment-divergence alerts, the texts and payloads of alerts, and what publishing them delivers.
- AlertFates.DeferralsSettle: a deferral that is still waiting is an allowed fate; that sweeps keep coming is not modelled.
- StreamDelivery.CrossProcessDelivery: streams are never trimmed; a failed publish adds nothing to the stream.
- BreakerBound.AttemptsBounded: publishes come one after the other; threads that race between the breaker's check and the
  publish are not modelled.
- Status texts, last-error fields and log throttling of the bus and the consumer.
- EventDetail.UnchangedFeedIsFound: the order of the topics is the same with and without a filter; in the code the last-seen
  instant of a topic that has none comes from its filtered news.
- How event cards are made from topics (kind patterns, decayed importance, title rules) and the watchlist annotations.
- Paging with a text query: which query serves a page depends on a probe that ignores the filters.
- CursorCodec.CursorRoundTrip: the decoder accepts what the encoder writes and counts everything else as one error; Python's
  lenient Base64, integer and ISO parsers accept more. Aware date-times are taken as already converted to UTC.
- Changing `max_entries` of a live cache, and the JSON variant of the cache.
- LlmRetry.ChatStream: a consumer that closes the stream early, token logging and the embedding call are not modelled.
- The start-up jitter of the scheduler and the hand-over of its signal backlog.
- MarketSentiment.ScoreBounds: over the reals, without rounding, infinities or NaN.
- Routes, schemas, migrations, settings and the frontend: declarations without an invariant.
