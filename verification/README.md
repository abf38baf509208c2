# Proofs about the odds aggregator

This project models the parts of the aggregator where a mistake is hard to see in one function, and proves what
holds of them over every input, every run or every interleaving. It is written in Dafny 4.11;
`dafny verify dfyconfig.toml` checks all of it.

## What is modelled

**The event pipeline** (`Domain`, `Lifecycle`, `Grading`, `Pipeline`, `Database`, `PipelineSafety`,
`PipelineSteps`, `PipelineWebhooks`, `PipelineClock`, `PipelineResults`, `Idempotency`). The tables are maps. `Pipeline` says what one
call of `ingest_event`, of the watchdog, of the reconcile pass, of `settle_pending_events` and of a forced enqueue
leaves in them; `Database.Store` has the same steps as methods that update the tables in place, each proved equal to
its function; `PipelineResults` says how every selection, bet and event ends, without naming the steps. A *run* is any sequence of such steps, at any times, with any picks a `LIMIT` may make. Initial rows may be
anything consistent, MANUAL settlements included. The state hash is an arbitrary function, collisions included.

**The odds compiler** (`Text`, `Decimals`, `Taxonomy`, `Prices`, `OddsTranslate`, `OddsQuotes`, `Normalize`,
`OddsCompiler`, `OddsPlacement`, `EventTranslate`, `TranslatedRuns`). A bookmaker payload becomes an oddID-keyed dict, then markets
and selections. `OddsTranslate.OddsTable` is the dict the translator fills; `OddsQuotes` says what it holds without
mentioning it; `OddsPlacement` says where each odd ends up, over oddIDs; `TranslatedRuns` joins the compiler to the pipeline.

**The league catalog** (`CatalogBuild`, `CatalogFacts`, `LeagueSlugs`), **two protocols** (`CronLock` for the
advisory-lock mutex, `Delivery` for webhook retries), **the provider client** (`EventWalk`, `HttpSend`), and **two folds
over match history** (`Elo`, `EloFacts`, `Standings`, `StandingsFacts`). `Sorting` and `Wrappers` are shared.

Times are integers in seconds and arrive as parameters. Decimals are exact. Prices and American odds are integers
after the rounding the code performs: half away from zero one way, half to even the other.

## What the proofs say that the documentation does not

- The reconcile pass does not accumulate misses. It sets the clock of a missing event to one hour ago, so passes at
  gaps of at most the void hours minus one keep the disappearance branch from firing, and that branch looks at one
  clock only, never at the start time (`PipelineSteps.MissesDoNotAccumulate`, `PipelineClock.ReconcilingShields`,
  `PipelineClock.DisappearsExactly`).
- Nothing the feed sends can be graded by PROVIDER: translated odds carry no scores and settled payloads carry no
  odds. An auto-voided row is not recovered (`TranslatedRuns.TranslatedRunNeverGrades`).
- The backstop asks whether an event has *any* delivery. An older delivery hides a finished state that was never
  sent (`PipelineWebhooks.BackstopExactly`, with a run in `TranslatedRuns.OlderDeliveryHides`).
- A line with more than two decimals may be stored as a whole number; then COMPUTED pushes what PROVIDER would not
  (`Grading.LostLineSplitsGraders`).
- A two-way moneyline on level scores has no winner: both sides lose (`Grading.MoneylineHasOneWinner`).
- A moneyline bet on a side gets its stake back on a draw, while the selection it is on is LOST
  (`Pipeline.BetsFollowSelections`).
- The normalizer never makes the market types that most COMPUTED prop branches ask for, and both-teams-to-score only
  for a league whose id is SOCCER or NHL; what PROVIDER skips there is voided (`OddsCompiler.NormalizedPropsStayOpen`).
- A price whose American magnitude is 1,999,999.5 or more is stored as 1.0000 and refused the next time
  (`Prices.NormalizingIsIdempotent`).
- The away side of a spread settles by the home side's handicap even when another book quoted it at another one
  (`OddsCompiler.SpreadLineIsHomeHandicap`), and the side that is quoted first names a moneyline or spread market, so
  the same odds in another order are another market (`OddsCompiler.FirstSideNamesTheMarket`).
- A payload that quotes both "game" and "reg" yields two markets with one id (`OddsCompiler.PeriodsCollide`). The
  current client quotes "game" only, so this concerns payloads of another source.
- `$` in a league pattern matches before a final newline: a base and a newline resolve, and the order of the catalog
  can matter (`LeagueSlugs.MatchIsLookup`, `LeagueSlugs.MatchForgetsOrder`).
- Sports have no collision guard: "a-b" and "a_b" derive one id and the later one wins
  (`CatalogFacts.SportKeptExactly`, `CatalogFacts.SportsCollide`).
- The advisory lock protects a run exactly as long as its connection lives (`CronLock.HoldsExactly`,
  `CronLock.LostConnectionBreaksExclusion`).
- All retries of a delivery take at most 13,980 seconds, not about eight hours, and the selection of due rows picks
  permanently failed ones again (`Delivery.TotalBackoff`, `Delivery.DueExactly`).
- An Elo snapshot counts events that kick off at the same time as earlier when their id is smaller
  (`EloFacts.SnapshotIsEarlierFold`).
- An event that misses a side is left out of the standings but counted in the statistics of the team it names
  (`StandingsFacts.TableAgreesExactly`).

## Model

| member | source | states |
|---|---|---|
| Lifecycle.FiredExactlyOnChange | aggrigator/ingest/lifecycle.py:47-71 | Along any sequence of observations of an event, a step fires nothing exactly when status and, once finished, both scores are as before |
| Grading.LineComparisonsSurvive | aggrigator/models/market.py:75 | Comparing any whole number with the stored line answers as with the payload's line exactly when rounding to two decimals lands on no whole number |
| Grading.GradesAreOfMembers | aggrigator/ingest/settlement_provider.py:45-156 | Every PROVIDER grade is WON, LOST or PUSH and names a selection of its market |
| Grading.GradersAgree | aggrigator/ingest/settlement_computed.py:30-65 | What PROVIDER grades in a full-game moneyline, spread or total whose scores are the event's, COMPUTED grades identically |
| Grading.LostLineSplitsGraders | aggrigator/ingest/settlement_computed.py:44-53 | A total whose line does not survive storage is a PUSH for COMPUTED and not for PROVIDER, for some score |
| Grading.TwoSidedBalance | aggrigator/ingest/settlement_provider.py:76-110 | A graded spread, total or team total is one WON and one LOST, or two PUSHes |
| Grading.MoneylineHasOneWinner | aggrigator/ingest/settlement_provider.py:57-73 | A graded moneyline has exactly one WON, except a two-way one on level scores, which has none |
| Grading.ResultsFollowScores | aggrigator/ingest/settlement_computed.py:30-130 | Moneyline, spread, total, double chance, draw-no-bet, both-teams-to-score and team totals settle by the two scores, in all cases, a spread and a total against the stored line |
| Grading.DecidesExactly | aggrigator/ingest/settlement_computed.py:30-130 | What COMPUTED can decide, by market type, side, line, scores and winner code: an iff, so everything else stays open or ends VOID |
| Grading.ProviderFollowsScores | aggrigator/ingest/settlement_provider.py:57-110 | PROVIDER grades a moneyline, spread, total or team total exactly when both sides are there with their scores and the line it needs, each side by the score ahead, the margin or the score against the line |
| Grading.MissingSideIsUngraded | aggrigator/ingest/settlement_provider.py:57-110 | And grades nothing in one that misses a side |
| Grading.PropsGradesAre | aggrigator/ingest/settlement_provider.py:113-143 | Of the props each selection is graded on its own, by its own score |
| Grading.BothTeamsAgree | aggrigator/ingest/settlement_provider.py:113-143 | On both-teams-to-score PROVIDER and COMPUTED agree |
| Grading.EvenOddFollowsScore | aggrigator/ingest/settlement_provider.py:113-143 | Even and odd settle by the parity of the whole score and never both win |
| Database.Store.SettleEvent | aggrigator/ingest/settlement_computed.py:145-186 | COMPUTED settles exactly the PENDING rows it may touch and can decide, and counts them |
| Database.Store.StampComputed | aggrigator/ingest/settlement_computed.py:174-182 | Every row that received a result is stamped COMPUTED with the time, no other row changes, and the count is the number of results |
| Database.Store.GradeEvent | aggrigator/ingest/settlement_provider.py:26-54 | PROVIDER grades every market of a finalized payload in order, MANUAL rows excepted, does nothing otherwise, and counts the grades it wrote |
| Database.Store.ApplyAll | aggrigator/ingest/settlement_provider.py:146-168 | A later grade of a row replaces an earlier one; MANUAL rows and unknown ids are left alone and not counted |
| Database.GradedCountsRows | aggrigator/ingest/settlement_provider.py:146-168 | For grades of different selections the count is the number of rows that are there and not MANUAL |
| Database.GradesStampRows | aggrigator/ingest/settlement_provider.py:158-168 | Those rows carry their grade, by PROVIDER, as of now, and every other row is as it was |
| PipelineSteps.VoidLeavesNonePending | aggrigator/ingest/settlement_computed.py:240-275 | On a finished event nothing stays PENDING, exactly its PENDING rows change, and a second call changes nothing |
| PipelineSteps.VoidEndsComputed | aggrigator/ingest/settlement_computed.py:240-275 | Afterwards COMPUTED finds nothing to settle, whatever the scores, so the order of the passes matters |
| Database.Store.AutosettleBets | aggrigator/ingest/bet_autosettle.py:93-131 | Open moneyline bets of a finalized event settle by its winner; every other bet stays |
| Pipeline.BetsFollowSelections | aggrigator/ingest/bet_autosettle.py:36-76 | A moneyline bet settles as the selection it is on, except that on a draw a bet on a side gets its stake back and the selection is LOST |
| Database.Store.WriteMarkets | aggrigator/ingest/ingester.py:65-132 | Upserts markets and selections, keeping settlements, and logs a quote for each price that moved |
| PipelineSteps.EnqueueExactly | aggrigator/webhooks/enqueue.py:30-108 | A delivery of the current state is there afterwards exactly when it was before, or a receiver is set and the transition is FINALIZED or VOIDED; older deliveries stay, and the same state is never queued twice |
| PipelineSteps.ForceEnqueueExactly | aggrigator/webhooks/enqueue.py:111-190 | One delivery is added, under a manual key, exactly for a terminal event with a receiver and a new nonce; automatic keys are untouched, but the backstop then leaves the event alone |
| PipelineSteps.UpsertIsSeen | aggrigator/ingest/upserts.py:188-287 | After an upsert the same payload fires nothing, takes the cheap exit iff finished, and the event is up for a disappearance VOID exactly when open and the void hours have passed; no other event changes |
| Database.Store.RunFinalizePasses | aggrigator/ingest/orchestrator.py:185-209 | The four passes on the tables, on finalized events only, are the function FinalizePasses; how each row then ends is FinishedResults and FinishedBets |
| PipelineResults.FinishedResults | aggrigator/ingest/orchestrator.py:184-204 | Every selection of an event that an ingest finds finished: with its grade, by PROVIDER, unless it was MANUAL; as it was, if it was settled; else as the stored scores compute it, by COMPUTED; and VOID exactly when they compute nothing |
| PipelineResults.ResultsByScore | aggrigator/ingest/settlement_computed.py:30-65 | In scores: an open ungraded moneyline row is WON on the side that is ahead and LOST on the other, a spread row goes by the margin and a total row by the sum, with the stored line |
| PipelineResults.FinishedBets | aggrigator/ingest/bet_autosettle.py:93-131 | Exactly the open moneyline bets of that event settle: won on the result, lost on another, the stake back on a draw, void without a result |
| PipelineResults.OpenPayloadsSettleNothing | aggrigator/ingest/orchestrator.py:182-209 | A payload without the finalized flag settles no selection and no bet |
| PipelineResults.PayloadIsStored | aggrigator/ingest/ingester.py:65-132 | After any ingest but the cheap exit the markets and selections of the payload are stored under its event, with its lines, types and prices |
| PipelineResults.OthersAreKept | aggrigator/ingest/ingester.py:65-132 | No selection is lost, none is there that was not and that the payload does not list, and none of another event changes |
| PipelineResults.MarketsAreKept | aggrigator/ingest/ingester.py:77-103 | No market but those of the payload is added, changed or lost, and a payload without selections writes none |
| PipelineResults.EventIsStored | aggrigator/ingest/upserts.py:252-285 | The event row is the payload, seen now; no other event changes |
| PipelineResults.IngestedExactly | aggrigator/ingest/orchestrator.py:90-146 | When a payload is dropped, when it fails, and that neither writes anything: an iff in terms of teams, league, flags and repeated ids |
| PipelineResults.NewsIsReported | aggrigator/ingest/orchestrator.py:211-223 | An ingest reports a transition exactly when the event is new, changes its status or its final scores; a terminal state is then queued once, with the scores and with the results its selections end with, and nothing else is |
| PipelineResults.SnapshotsAgreeExactly | aggrigator/webhooks/idempotency.py:50-62 | What a delivery is keyed on tells two states apart exactly by status, scores and the result of each selection of the event |
| Database.Store.RunStable | aggrigator/ingest/orchestrator.py:128-178 | The cheap exit changes the event row and, for an event without any delivery, adds one |
| Database.Store.RunFull | aggrigator/ingest/orchestrator.py:180-233 | The full branch: upsert, markets, passes, transition from the state before, delivery |
| Database.Store.IngestEvent | aggrigator/ingest/orchestrator.py:64-233 | One call of ingest_event, savepoint included, is the function Ingest on the whole database |
| Database.Store.WalkEvents | aggrigator/ingest/orchestrator.py:321-376 | The loop of the walk ingests in order, counts outcomes and remembers the id of every payload, also of one that does not normalize or raises |
| Database.Store.IngestLeague | aggrigator/ingest/orchestrator.py:236-416 | Reconcile runs once, after the walk, over exactly the ids the walk did not see |
| Database.TallyAddsUp | aggrigator/ingest/orchestrator.py:364-374 | The counts of a walk add up: processed, failed and dropped payloads, and the transitions of the processed ones in order |
| PipelineSteps.ReconcileExactly | aggrigator/ingest/odds_api_reconcile.py:58-84 | A pass sets the clock of exactly the open events of the league in the window that the feed did not list, one hour back, and touches nothing else |
| PipelineSteps.ArrivedIsNotMissed | aggrigator/ingest/orchestrator.py:350-396 | An event whose payload arrived in the walk is left alone by the pass, even if the payload did not normalize; the others are missed |
| PipelineSteps.MissesDoNotAccumulate | aggrigator/ingest/odds_api_reconcile.py:74-84 | What a pass leaves of an event it misses does not depend on the passes before it; the event is then up for a VOID after the void hours minus one |
| Database.Store.TakeEarliest | aggrigator/ingest/watchdog.py:77-86 | A scan returns the first candidates by its clock, in order, and leaves one out only when the limit is reached |
| Database.Store.ScanStale | aggrigator/ingest/watchdog.py:60-86 | Exactly the open events more than the grace past their start, earliest start first, and one is left out only for the limit, by one that starts no later |
| Database.Store.ScanDisappeared | aggrigator/ingest/watchdog.py:89-115 | The open events not seen for the grace, longest missing first, whatever their start, and one is left out only for the limit |
| Database.Store.AutoVoidStaleEvents | aggrigator/ingest/watchdog.py:118-189 | Voids the scanned events one by one; disabled for non-positive hours |
| Database.Store.AutoVoidDisappearedEvents | aggrigator/ingest/watchdog.py:192-254 | The same for events that disappeared |
| Database.Store.RunWatchdog | aggrigator/ingest/watchdog.py:257-309 | The second branch works on what the first left, no event is voided twice and the merged list repeats none |
| PipelineResults.EventsVoidExactly | aggrigator/ingest/watchdog.py:151-155 | An auto-void cancels, locks and reopens exactly the picked events, and touches no market, bet or quote |
| PipelineResults.SelectionsVoidExactly | aggrigator/ingest/watchdog.py:159-172 | And voids exactly their PENDING selections |
| PipelineResults.VoidsAreSent | aggrigator/ingest/watchdog.py:178 | And with a receiver leaves a delivery of the new state of each |
| PipelineClock.StaleExactly | aggrigator/ingest/watchdog.py:75-81 | Along a run an event is up for a stale VOID exactly when it is not started or in progress and more than the void hours have passed since the start of the last payload stored |
| PipelineClock.StaleVoidIsLate | aggrigator/ingest/watchdog.py:138-155 | So no tick of this branch voids an event before its start plus the void hours |
| PipelineSteps.UpsertIsDated | aggrigator/ingest/upserts.py:252-285 | The same right after an upsert, in terms of the payload alone |
| Database.Store.SettlePendingEvents | aggrigator/ingest/settlement_computed.py:189-237 | Selects all finished events of the lookback window and no other, settles them, then voids what is long dead |
| PipelineResults.BackfillExactly | aggrigator/ingest/settlement_computed.py:189-237 | Row by row: a PENDING row of a selected event that COMPUTED may touch and decides ends so, a PENDING one of a postponed or canceled event more than seven days past its start ends VOID, and nothing else changes |
| PipelineSafety.RunIsSafe | aggrigator/ingest/orchestrator.py:180-223 | In every state of every run a finished event has no PENDING selection and every FINALIZED delivery carries none |
| PipelineSafety.SettlementOnlyRises | aggrigator/ingest/settlement_computed.py:24 | From any consistent rows, along any run, sources only rise, settled rows stay settled, MANUAL results never change and a COMPUTED one only by PROVIDER |
| PipelineSafety.SettleEventsIsIdle | aggrigator/ingest/settlement_computed.py:202-206 | In a safe state the backfill finds nothing to settle |
| PipelineSafety.WalkIsRun | aggrigator/ingest/orchestrator.py:321-376 | A league walk is a run with one step per payload that normalizes, so the run theorems cover it |
| PipelineWebhooks.RunNotifies | aggrigator/webhooks/enqueue.py:60-103 | With a receiver throughout and ids that payloads of different events do not share, every finished event has a delivery keyed on its current state, in every state of a run |
| PipelineWebhooks.BackstopExactly | aggrigator/ingest/orchestrator.py:136-178 | After a cheap exit the current state has a delivery exactly when it had one, or the event had none at all and the receiver is set |
| PipelineWebhooks.IngestTwice | aggrigator/ingest/orchestrator.py:64-233 | Ingesting any payload again changes nothing but two refresh timestamps and, for one flagged finalized but not finished, the stamps of PROVIDER; it reports NONE unless the event is finished and was never queued |
| PipelineClock.ClockReadsLastTouch | aggrigator/ingest/odds_api_reconcile.py:58-84 | The disappearance clock is a function of the last upsert or miss alone |
| PipelineClock.RecentlyTouchedIsNotVoided | aggrigator/ingest/watchdog.py:103-115 | A disappearance VOID means no upsert and no miss within the void hours minus one |
| PipelineClock.ReconcilingShields | aggrigator/ingest/odds_api_reconcile.py:74-84 | Between the first and the last of a series of passes that refresh or miss the event, at gaps of at most the void hours minus one, no tick of the disappearance branch voids it |
| PipelineClock.DisappearsExactly | aggrigator/ingest/watchdog.py:103-115 | A stuck event is up for the branch exactly when the reading its last touch left is too old |
| PipelineClock.AppendQuotesAt | aggrigator/ingest/ingester.py:108-127 | A call appends a quote for exactly the selections whose known price differs from the stored one |
| PipelineClock.RunQuotes | aggrigator/ingest/ingester.py:193-218 | Along a run at increasing times the newest quote of every priced selection is its stored price |
| Idempotency.BlobIsCanonical | aggrigator/webhooks/idempotency.py:76-91 | Two states serialize alike exactly when status, scores and selection states agree, in whatever order they are read |
| Idempotency.BlobIsTheSnapshot | aggrigator/webhooks/idempotency.py:50-62 | The blob determines, and is determined by, status, scores and the result of every selection |
| Idempotency.KeyTextIsInjective | aggrigator/webhooks/enqueue.py:167-168 | The text of a key determines event, hash and nonce for any event id; manual and automatic keys never meet |
| Prices.UnitsAreFixed | aggrigator/ingest/converters.py:13-41 | Decimal to American to decimal, once reached, is a fixed point for prices under 2 |
| Prices.PriceErrorBound | aggrigator/ingest/converters.py:13-41 | Translating and normalizing moves a price by at most 0.005, for every price above 1 |
| Prices.NormalizingIsIdempotent | aggrigator/ingest/converters.py:32-41 | Normalizing twice is normalizing once exactly when 100 / (d - 1) < 1999999.5; otherwise the price is refused |
| Prices.QuotablePricesAreStable | aggrigator/ingest/odds_api_translate.py:564-592 | From 1.0001 on no price drifts |
| Prices.NoPriceAtOrBelowOne | aggrigator/ingest/odds_api_translate.py:619-621 | Prices of 1 and below are dropped |
| Decimals.ParseOfRender | aggrigator/ingest/odds_api_translate.py:606-607 | A line written into the dict reads back as the same decimal, sign and trailing zeros included |
| Decimals.SlugIsInjective | aggrigator/ingest/normalize.py:511-515 | The slug of a line identifies the line |
| Taxonomy.OddIdReadsBack | aggrigator/ingest/taxonomy.py:71-75 | An oddID of dash-free parts parses into those parts |
| OddsQuotes.FirstPriceSticks | aggrigator/ingest/odds_api_translate.py:552-592 | Of two quotes of an odd the first fixes price and place, each book keeps its last one, and no other odd changes |
| OddsQuotes.FirstLineSticks | aggrigator/ingest/odds_api_translate.py:595-607 | The first line of an odd sticks, an odd that is not there gets none, and nothing else changes |
| OddsTranslate.OddsTable.AccumulateMl | aggrigator/ingest/odds_api_translate.py:455-484 | A draw field that is present makes the market three-way, even when it is no number |
| OddsTranslate.OddsTable.AccumulateHandicap | aggrigator/ingest/odds_api_translate.py:487-520 | Home gets the handicap, away its negation; a row without one changes nothing |
| OddsTranslate.OddsTable.AccumulateTotals | aggrigator/ingest/odds_api_translate.py:523-546 | Over and under share the line |
| OddsTranslate.OddsTable.TranslateOdds | aggrigator/ingest/odds_api_translate.py:323-394 | The loops over books and markets compute the function Translate |
| OddsQuotes.TranslateCollects | aggrigator/ingest/odds_api_translate.py:323-394 | The dict holds exactly the quotes of the feed: ids by first appearance, price and line of the first quote, last quote per book |
| OddsQuotes.QuotedExactly | aggrigator/ingest/odds_api_translate.py:337-381 | A quote is there exactly when a readable, standard book has a market of a known name whose main row prices that side above 1, under the name of the book in lower case |
| OddsQuotes.QuotesInOrder | aggrigator/ingest/odds_api_translate.py:337-349 | And the quotes stand in the order of the books |
| OddsQuotes.HandicapIsNearest | aggrigator/ingest/odds_api_translate.py:410-421 | The main handicap is the first row nearest to pick'em; a row without a line only when there is no other |
| OddsQuotes.TotalIsNearest | aggrigator/ingest/odds_api_translate.py:452 | The main total is the first row nearest to the sport's canonical total |
| OddsQuotes.TotalIsMedian | aggrigator/ingest/odds_api_translate.py:446-450 | Without a canonical total it is the median of the ladder |
| Normalize.ComputeMarketSpecs | aggrigator/ingest/normalize.py:235-274 | The grouping and building loops compute the function MarketSpecs, for any dict of odds |
| Normalize.GroupOdds | aggrigator/ingest/normalize.py:245-267 | The filters and setdefault-append loop computes the groups |
| OddsPlacement.PassesExactly | aggrigator/ingest/normalize.py:245-262 | The filters let through exactly the ids of five parts with a known bet type, entity and period |
| OddsPlacement.EveryOddIsPlaced | aggrigator/ingest/normalize.py:264-274 | For any dict of odds: each that passes has exactly one selection, and there is no other; two stand in one market iff they agree on stat, period and bet type and, for over-unders, on entity and line text, for yes-no and even-odd on entity; each selection carries entity, side, price and score of its odd, under a market of its category; the line of a total is that of its odds, the line of a spread the first one on home, else the negated first one on away |
| OddsPlacement.LineTextIsFirst | aggrigator/ingest/normalize.py:382-401 | The text of a line is the first of its four keys that is there |
| OddsCompiler.GroupingPartitions | aggrigator/ingest/normalize.py:264-267 | Grouping loses and duplicates no odd |
| OddsCompiler.OddIsAdmitted | aggrigator/ingest/normalize.py:246-262 | Every translated oddID parses and passes every filter |
| OddsCompiler.EveryOddBecomesOneSelection | aggrigator/ingest/normalize.py:355-357 | Every translated odd becomes exactly one selection, priced by its first quote |
| OddsCompiler.MarketIdsAreDistinct | aggrigator/ingest/normalize.py:487-508 | Two markets of a translated payload never share an id, whatever the event id |
| OddsCompiler.TranslatedIdsAreDistinct | aggrigator/ingest/normalize.py:423 | Nor do two selections, so the bulk upserts of a translated payload never fail |
| OddsCompiler.IdsNeverMeet | aggrigator/ingest/normalize.py:423 | Two payloads of different events share no market id and no selection id, whatever the event ids and the odds |
| OddsCompiler.SelectionsCollideExactly | aggrigator/ingest/normalize.py:423 | Two selection ids are one exactly when market id, entity and side are |
| OddsCompiler.SpreadLineIsHomeHandicap | aggrigator/ingest/normalize.py:360-372 | The line of a spread is the handicap first quoted on home, or else the negated one of away |
| OddsCompiler.SpreadSettlesByHandicap | aggrigator/ingest/settlement_computed.py:56-65 | HOME is WON iff home + hdp > away, and so on, for all scores, exactly when the line survives storage |
| OddsCompiler.TranslatedMarketsAreUngraded | aggrigator/ingest/odds_api_translate.py:571-577 | PROVIDER finds nothing to grade in a translated market |
| OddsCompiler.MarketsCollideExactly | aggrigator/ingest/normalize.py:487-508 | In any payloads of any events two groups get one market id exactly when event, bet type, scope, stat, first entity, line and side agree |
| OddsCompiler.ScopesTellPeriods | aggrigator/ingest/normalize.py:470-497 | Two periods stand for one scope in a market id exactly when they are the same, or "game" and "reg" |
| OddsCompiler.PeriodsCollide | aggrigator/ingest/taxonomy.py:22-37 | One moneyline quoted for two periods of one scope makes two markets with one id, which the bulk upsert refuses |
| OddsCompiler.GameAndRegulationCollide | aggrigator/ingest/taxonomy.py:22-37 | "game" and "reg" are two such periods |
| OddsCompiler.FirstSideNamesTheMarket | aggrigator/ingest/normalize.py:330-334 | The same odds in another order are another market |
| OddsCompiler.NormalizedPropsStayOpen | aggrigator/ingest/taxonomy.py:78-86 | Of the markets the normalizer makes COMPUTED decides no team total, and both-teams-to-score only in a league named SOCCER or NHL; no moneyline is exempt |
| EventTranslate.IngestedExactly | aggrigator/ingest/odds_api_translate.py:143-168 | An event is ingested exactly when no required field is missing, it is not live, and sport and league are known |
| EventTranslate.StatusOfSpec | aggrigator/ingest/normalize.py:186-195 | Finished iff finalized iff settled with both scores; canceled and locked iff settled with a null score; a winner iff finished with two numbers |
| EventTranslate.SpecCarriesEvent | aggrigator/ingest/odds_api_translate.py:195-229 | Ids, teams on their own sides, league, start and numeric scores survive both translations |
| EventTranslate.StatusExactly | aggrigator/ingest/normalize.py:186-195 | The status of any payload: canceled first, then finished, in progress, postponed, and otherwise not started |
| OddsPlacement.MarketsOfSpec | aggrigator/ingest/odds_api_translate.py:172-189 | A settled event is ingested without markets, every other one with the markets of the odds its books quote |
| OddsPlacement.PendingCarriesQuotes | aggrigator/ingest/odds_api_translate.py:179-189 | Said over quotes: each oddID that is quoted has exactly one selection, at the normalized price of its first quote and on its side, and there is no other; two stand in one market iff they are of one bet type and, for totals, of one line |
| OddsPlacement.SidesStandTogether | aggrigator/ingest/normalize.py:277-284 | So the quoted sides of one moneyline, home, draw and away, stand in one market, and so do those of a spread |
| TranslatedRuns.FeedGuarantees | aggrigator/ingest/odds_api_translate.py:232-300 | What the pipeline theorems ask of a payload holds of every translated one |
| TranslatedRuns.TranslatedRunIsSafe | aggrigator/ingest/orchestrator.py:180-223 | From an empty database, along translated runs, finished events have no PENDING selection and no ingest fails |
| TranslatedRuns.TranslatedResults | aggrigator/ingest/settlement_computed.py:30-65 | And a row that was open when its event is translated as settled with two scores ends by those scores, by COMPUTED |
| TranslatedRuns.TranslatedRunNotifies | aggrigator/webhooks/enqueue.py:60-103 | And with a receiver every finished event has a delivery of its current state, whatever the event ids |
| TranslatedRuns.TranslatedIdsNeverMeet | aggrigator/ingest/normalize.py:487-508 | Translated payloads of different events share no id |
| TranslatedRuns.TranslatedIngestTwice | aggrigator/ingest/orchestrator.py:64-233 | And ingesting a translated payload again changes two timestamps at most |
| TranslatedRuns.OlderDeliveryHides | aggrigator/ingest/orchestrator.py:136-178 | A run, for any two results of an event with different digests, after which the current one is neither queued nor repaired |
| TranslatedRuns.TranslatedRunNeverGrades | aggrigator/ingest/odds_api_translate.py:276 | And no selection is ever settled by PROVIDER |
| LeagueSlugs.OnePhaseOnly | aggrigator/ingest/catalog_build.py:20-37 | No phase tail is a suffix of another |
| LeagueSlugs.StripOfPhase | aggrigator/ingest/catalog_build.py:31-37 | Stripping undoes appending any phase |
| LeagueSlugs.RebuildMaps | aggrigator/ingest/odds_api_translate.py:71-74 | The inverse map answers the last entry of a base |
| LeagueSlugs.MatchLeagueSlug | aggrigator/ingest/odds_api_translate.py:84-100 | Exact map first, then the ordered scan of anchored patterns |
| LeagueSlugs.MatchIsLookup | aggrigator/ingest/odds_api_translate.py:84-100 | For distinct bases and any non-empty slug the scan is the lookup "exact slug, else without its phase" exactly when the slug does not end in a newline, is a base, or does not resolve without it; no slug resolves to nothing |
| LeagueSlugs.NewlineSlipsPast | aggrigator/ingest/catalog_build.py:52-54 | Every base with a newline behind it is such a slug: the scan resolves it, the lookup does not |
| LeagueSlugs.MatchForgetsOrder | aggrigator/ingest/odds_api_translate.py:97-99 | Every order of the catalog answers the same exactly when the slug is not one that ends in a newline and is, without it, a base and the phase of another |
| LeagueSlugs.ListedPhaseIsAmbiguous | aggrigator/ingest/odds_api_translate.py:97-99 | A catalog that lists a league and its phase has such a slug |
| LeagueSlugs.NewlineResolvesExactly | aggrigator/ingest/catalog_build.py:52-54 | A slug with a final newline resolves as without it exactly when the catalog does not list the stripped league first |
| CatalogBuild.BuildCatalog | aggrigator/ingest/catalog_build.py:64-132 | The nested loops compute the function BuildSpec, or raise where it does |
| CatalogBuild.NameLeagues | aggrigator/ingest/catalog_build.py:105-130 | The inner loop, stopped by the first collision |
| CatalogBuild.NameLeague | aggrigator/ingest/catalog_build.py:107-130 | One slug with the two collision guards |
| CatalogFacts.CatalogIsSound | aggrigator/ingest/catalog_build.py:93-132 | A built catalog keeps every prior pair and sport, is one-to-one iff the prior one is, gives ids of at most 48 characters, names only prior or listed bases, and gives every listed league of a known sport an id and a sport |
| CatalogFacts.NewIdExactly | aggrigator/ingest/catalog_build.py:117-127 | A new base gets its derived id if no league has it, else the mangled one if no league has that, and is refused exactly when both are taken |
| CatalogFacts.DerivedClash | aggrigator/ingest/catalog_build.py:40-49 | Two bases that fit the column derive one id exactly when they differ in nothing but case and dash or underscore; two longer ones when what is kept of them does and their digests are one |
| CatalogFacts.MangledClash | aggrigator/ingest/catalog_build.py:119-127 | A mangled id starts as the id it replaces, and of one id two bases get the same only when their digests are one |
| CatalogFacts.BuildsWithoutClash | aggrigator/ingest/catalog_build.py:101-132 | When no two new bases derive one id and none a prior one, building succeeds and every new league has the id derived from its base |
| CatalogFacts.NewLeaguesAreSported | aggrigator/ingest/catalog_build.py:101-130 | A new league has the sport of a listing that names it |
| CatalogFacts.ListedSlugsResolve | aggrigator/ingest/odds_api_translate.py:84-100 | Every listed slug of a known sport resolves at run time, in any reading order |
| CatalogFacts.RebuildIsStable | aggrigator/ingest/catalog_build.py:93-116 | Building again from the catalog just built changes no league, in whatever order it is read back |
| CatalogFacts.SportKeptExactly | aggrigator/ingest/catalog_build.py:85-91 | A sport keeps its id exactly when no different sport listed later derives the same one |
| CatalogFacts.SportsKeepIds | aggrigator/ingest/catalog_build.py:80-91 | A listed sport of the prior catalog keeps its id, any other gets the one derived from its slug |
| CatalogFacts.SportsCollide | aggrigator/ingest/catalog_build.py:85-91 | "a-b" and "a_b" do, and one sport is left |
| CronLock.HoldsExactly | aggrigator/ops/service.py:224-282 | In every interleaving with crashes and lost connections, an invocation holds its lock exactly when its connection has not dropped |
| CronLock.MutualExclusion | aggrigator/ops/service.py:224-282 | Two runs of one key execute at once only if the connection of one of them dropped |
| CronLock.FreeLockNoRunningRow | aggrigator/ops/recorder.py:114-153 | Without faults a free lock means no RUNNING row |
| CronLock.RunningRowIsOwnedOrStray | aggrigator/ops/recorder.py:67-111 | With faults a RUNNING row under a free lock is one a fault left behind or one that a run without its lock is still at |
| CronLock.RefusedExactly | aggrigator/ops/recorder.py:221-233 | A start is refused exactly when a cron of the same key is in flight on a living connection, so key collisions only refuse more |
| CronLock.StartsExactly | aggrigator/ops/recorder.py:196-206 | A scheduled tick goes for the lock exactly when its cron is not switched off, and otherwise leaves no trace; a manual start goes for it always |
| CronLock.RowTellsRun | aggrigator/ops/recorder.py:136-143 | The row of a run ends SUCCESS exactly when its runner did not raise |
| CronLock.CrashFreesTheLock | aggrigator/ops/service.py:250-255 | A crash frees the locks of the invocation |
| CronLock.LostConnectionBreaksExclusion | aggrigator/ops/service.py:250-255 | A run from an idle start, for any cron, in which a connection drops and a second run starts beside the first |
| Delivery.WebhookDelivery.SendOne | aggrigator/webhooks/deliver.py:43-106 | One attempt: the whole new row, and the outcome by status code: success for a 2xx or 409, permanent unless the error may pass and fewer than eight attempts are made, else a retry |
| Delivery.PhaseExactly | aggrigator/webhooks/deliver.py:43-130 | After any attempts on live rows the delivery is in exactly one phase: delivered iff the last response is a 2xx or 409, waiting iff it is a transport error, 408, 425, 429 or 5xx before the eighth attempt, else failed |
| Delivery.AtMostEightAttempts | aggrigator/webhooks/deliver.py:118-123 | Eight attempts end every delivery |
| Delivery.RetryIsLater | aggrigator/webhooks/deliver.py:124-126 | A scheduled retry is after the last attempt by 60, 120, 300, 900, 1800, 3600 or 7200 seconds; the last backoff is never used |
| Delivery.TotalBackoff | aggrigator/webhooks/deliver.py:26 | All backoff together is at most 13,980 seconds |
| Delivery.TotalBackoffIsReached | aggrigator/webhooks/deliver.py:26 | And that bound is reached |
| Delivery.DueExactly | aggrigator/workers/tasks/webhook_deliver.py:62-75 | Due are the live rows whose time has come and all failed ones |
| Delivery.FailedMayRevive | aggrigator/workers/tasks/webhook_deliver.py:62-75 | A failed row sent again waits for a retry exactly when it had failed early and the response is transient |
| EventWalk.GetEvents | aggrigator/ingest/odds_api_http.py:424-441 | The batched walk yields, up to order, one payload per non-live event that translates, with the odds of its batch, in as few calls of ten as needed |
| EventWalk.FlushPending | aggrigator/ingest/odds_api_http.py:477-515 | A failed odds call leaves its events without odds; a batch without ids makes no call |
| EventWalk.PendingExactly | aggrigator/ingest/odds_api_http.py:477-515 | Whatever calls fail: the pending events come out in order, the k-th with the odds that the call of its ten answers under its id, and without odds if there are none |
| EventWalk.IdsAsked | aggrigator/ingest/odds_api_http.py:480 | A batch asks for the ids its events have, and no other |
| EventWalk.BatchingRefinesSingle | aggrigator/ingest/odds_api_http.py:454-475 | For a provider that answers event by event the batched walk is the per-event one |
| EventWalk.WalkIsPerEvent | aggrigator/ingest/odds_api_http.py:424-475 | With the program's translator a payload is out exactly when an event translates to it with its own odds |
| HttpSend.OddsApiClient.Send | aggrigator/ingest/odds_api_http.py:540-668 | The call ends at the first attempt that is not repeated; counters, number of requests and the exact total sleep |
| HttpSend.SucceedsExactly | aggrigator/ingest/odds_api_http.py:563-614 | A call succeeds exactly when an attempt within the budget is answered and all before it were throttled bearably |
| HttpSend.FailsExactly | aggrigator/ingest/odds_api_http.py:551-649 | Which error a failed call raises: an iff on the reply that ends it |
| HttpSend.BackoffDoubles | aggrigator/ingest/odds_api_http.py:577-613 | Without a header the waits are 1, 2, 4, 8, 16, 32 and then 60 seconds |
| Elo.EloLeagueState.RatingFor | aggrigator/analytics/soccer_model.py:60-73 | The team's one rating object, made on first use |
| Elo.EloLeagueState.ApplyEvent | aggrigator/analytics/soccer_model.py:94-113 | One match on the shared rating objects, also when a team meets itself |
| Elo.ComputeElo | aggrigator/analytics/soccer_model.py:116-130 | The objects hold the fold over the sorted, dated events |
| EloFacts.RatingsAreZeroSum | aggrigator/analytics/soccer_model.py:94-113 | Ratings sum to 1500 times the teams after any events, for any expectation function |
| EloFacts.RatingStaysNear | aggrigator/analytics/soccer_model.py:52-57 | A rating is within 20 a game of 1500 and inside its season range |
| EloFacts.WinnerGains | aggrigator/analytics/soccer_model.py:80-113 | The winner gains what the loser loses, less than 20; a draw moves both towards the expectation |
| EloFacts.GainIsExact | aggrigator/analytics/soccer_model.py:94-113 | Home gains twenty times what the result is worth over what was expected of the ratings before, away loses it, no other team moves; a match that misses a side counts for nothing |
| EloFacts.SeasonRangeIsReached | aggrigator/analytics/soccer_model.py:52-57 | Season high and low are ratings the team had |
| EloFacts.SeasonIsChronological | aggrigator/analytics/soccer_model.py:123-130 | The season is the fold over all its dated events, each as often as it is there, by start and id |
| EloFacts.ComputeForgetsOrder | aggrigator/analytics/soccer_model.py:116-130 | Any permutation of events, no two different ones of which share start and id, gives the same state |
| EloFacts.SnapshotIsEarlierFold | aggrigator/analytics/soccer_model.py:133-152 | A match's snapshot is the fold over exactly the events before it by start and id |
| EloFacts.RememberedExactly | aggrigator/analytics/soccer_model.py:148-152 | A match has a snapshot exactly when it was applied; any other gets the ratings now |
| Standings.ComputeStandings | aggrigator/api/analytics.py:1117-1173 | The one-pass table, ranked |
| Standings.TeamSeasonStats | aggrigator/api/analytics.py:1262-1285 | One team recomputed from its own events |
| Standings.TeamHomeAwaySplit | aggrigator/api/analytics.py:1436-1456 | The same in two halves |
| Standings.SplitSeason | aggrigator/api/analytics.py:684-704 | Going in is strictly before the target by start and id, through adds the target |
| StandingsFacts.TableAgreesWithTeams | aggrigator/api/analytics.py:1117-1173 | Where every game names two teams, the table lists exactly the teams that played, with their recomputed lines |
| StandingsFacts.SplitAddsUp | aggrigator/api/analytics.py:1436-1456 | Home and away halves add up to the team's line |
| StandingsFacts.HalvesAreHosted | aggrigator/api/analytics.py:1441-1455 | The home half is the line of the games the team hosts, the away half that of the others |
| StandingsFacts.OneGame | aggrigator/api/analytics.py:1266-1278 | What one game is to each of its teams: score for and against, and win, draw or defeat by the winner code |
| StandingsFacts.TableAgreesExactly | aggrigator/api/analytics.py:1139-1141 | Table and team agree exactly when every game of the team names both sides |
| StandingsFacts.LeagueIsConserved | aggrigator/api/analytics.py:1117-1173 | Goals for equal goals against, wins equal losses, two plays a game |
| StandingsFacts.PointsDelta | aggrigator/api/analytics.py:706-731 | Adding the match changes a participant's points by 0, 1 or 3, by its result, and no other team's line |
| StandingsFacts.GoingInExactly | aggrigator/api/analytics.py:688-702 | Going in are exactly the dated games before the target by start and id, through these and the target |
| StandingsFacts.RowsAreRanked | aggrigator/api/analytics.py:1165-1173 | The rows are the table's lines, one per team, in ranking order |
| StandingsFacts.TopComesFirst | aggrigator/api/analytics.py:1170-1172 | Down the table points do not rise, then goal difference, then goals for, and teams level on all of them stand by name |

## Left out

- Team, sport and league upserts, logos and labels: only "both team ids are present and the league is seeded" remains, as the condition under which an event is accepted.
- Bookmaker quotes of selections, movement, suspension, opening prices, column widths of markets and selections, and payout amounts: they would add easy members.
- Counters of an ingest result other than the transition and whether a delivery was added, and the watchdog's totals.
- Prices.Normalized: divides exactly, where the program divides with 28 digits; prices and lines in scientific notation, NaN and infinities are not modelled.
- Database.Store.WriteMarkets: does not write the quotes of single books, and does not model a price or line too large for its column, which the database refuses.
- Database.Store.IngestLeague: does not model a reconcile pass that raises, which the program logs and rolls back.
- Decimals.Parse: refuses every text that is not plain decimal notation, where Python accepts more.
- EventTranslate.ToPayload: takes a parsed date, and an absent, null or empty field as one case.
- EventWalk.GetEvents: takes the events of a league as given; the resolution of the live league slug and the single-event lookup are not part of it.
- HttpSend.OddsApiClient.Send: takes the wait a response asks for as a number; header parsing is not part of this model.
- Idempotency.BlobOf: the JSON text and the hash are functions of the blob; that different blobs have different hashes is not claimed.
- Elo.Delta: the logistic term is an arbitrary function, assumed to lie strictly between 0 and 1 where a bound needs it; floating-point error is not modelled.
- CronLock.Next: one step per database statement; the rows' summaries, error texts and timestamps are left out.
- Admin edits, HTML routes, metrics, logging, authentication, rate-limit storage, the goal model and other analytics, the vacuum and the dispatch loop of deliveries.
