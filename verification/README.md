# A verified model of the stock-prediction pipeline

This project models the parts of the pipeline whose correctness rests on more than one function,
and proves what its code and documentation promise about them.  It is written in Dafny 4.11;
`dafny verify dfyconfig.toml` checks every file.  Instants and dates are integers, prices, levels
and returns are exact reals, tables are sequences or maps of records.

| file | what it models |
|---|---|
| `FeatureStore.dfy` | the prediction tables and the calls on them: feature sets, cells, lineage, models, prediction sets, predictions, and what is staged but not flushed |
| `PointInTime.dfy` | the point-in-time promise over every sequence of those calls |
| `FrozenSets.dfy` | what finalising a feature set fixes for good, and the one way around it |
| `Identities.dfy`, `Publication.dfy` | which rows belong together in every state, and what publishing a prediction set fixes |
| `Acceptance.dfy`, `PublishedRuns.dfy` | when each of those calls succeeds and what it stores, in columns; a whole run to a published decision |
| `FeatureRepository.dfy` | the repository object with its in-memory indexes, each method shown to be the specified step |
| `BarStore.dfy`, `BarRepository.dfy`, `BarColumns.dfy` | append-only bar revisions: one row at a time, the batched upsert that refines it, and the stored rows in columns |
| `Ingestion.dfy`, `IngestionRuns.dfy` | completed sessions, fetch windows, provider routing, and runs that skip what is stored |
| `ProviderRouting.dfy`, `SeriesOutcomes.dfy` | which answer is taken and how a series ends, in the columns of the rows returned |
| `IngestionReruns.dfy`, `SharedSources.dfy` | when a series is covered and what a rerun does; the catalog's aliasing check and the hole it prevents |
| `EmailDelivery.dfy` | deliveries claimed, sent and marked by concurrent workers |
| `ActualResults.dfy` | versioned results, trades valued against them, and the report's join |
| `FisherExact.dfy`, `FalseDiscovery.dfy` | the exact test and the false-discovery adjustment |
| `Distribution.dfy`, `DashboardCurve.dfy` | one quantile curve read as a CDF, as bins and as columns, and the dashboard's copies |
| `Performance.dfy` | average ranks and maximum drawdown |
| `DependencyCycles.dfy` | the indicator dependency map and its cycle check |
| `Ordering.dfy`, `Arithmetic.dfy`, `Sequences.dfy`, `Wrappers.dfy` | stable sorting and counting by place; quotients and products; taking a run apart; absent values and raised errors |

The state-changing components (`FeatureRepository`, `BarRepository`, `EmailDelivery`,
`ActualResults`, `DependencyCycles`) are classes whose methods are tied to specification functions;
the promises are lemmas about those functions over all runs.

## Where the code does not do what it says

- Finalising a feature set counts its cells and reads its lineage from the database before its own
  flush, and production sessions do not flush on their own (`database/connection.py:66`).  Rows
  still staged are therefore neither counted nor bounded, though they are stored by the same call.
  `FrozenSets.FinaliseCounts` and `FrozenSets.FinaliseSeenInTime` say exactly when this matters;
  `FrozenSets.StagedLineageSlips` is an instance.
- The replay flag of `finalize_feature_set` is meant to drop the liveness check, but the table's own
  checks (`database/models.py:350-357`) still refuse late lineage, so for stored rows the flag changes
  only which error is raised.
- `density_bins` says tied mass is folded into the next bin with width.  Mass tied at the top value
  has no next bin and is dropped (`Distribution.BinsHoldAllMass`, `Distribution.TopTieLosesMass`).
- The after-close summary treats a refused claim like an unreachable database and sends
  (`EmailDelivery.UnclaimedSendsExactlyWhenShared`); the morning mail does not.  Sending without a
  record is by design (`scripts/send_daily_summary.py:930-947`), sending after a refused claim is not
  said to be (`EmailDelivery.UnclaimedSendsExactly` has both).
- A bar revision is keyed by table, provider, provider symbol, interval, instant and content, not by
  the series it was fetched for.  Two series with one source would therefore lose rows to each other
  (`SharedSources.SharedSourceLeavesGap`); it is the catalog that keeps this from happening.
- The dashboard calls a ticker significant when its q-value is strictly below the rate, where the
  step-up rule rejects at the rate as well (`FalseDiscovery.SignificanceIsStrictStepUp`).

## Model

| member | source | states |
|---|---|---|
| `PointInTime.NothingAvailableLate` | database/repository.py:799-856 | In every state any sequence of calls reaches, with any flags and flushes, every raw row behind a prediction was available by its own sample's cutoff, which is no later than the feature set's cutoff, which is no later than the prediction set's; the reference price was available by then and equals its raw close |
| `PointInTime.NothingSeenLate` | database/repository.py:841-856 | With the default `observed_by_cutoff` on every lineage and prediction call, every such row was also first observed and retrieved by the set's cutoff, by the sample's own for score rows and walk-forward sets, and so was the reference price by the prediction set's |
| `PointInTime.RunsAreSound` | database/repository.py:694-1407 | Every reachable state keeps: cells inside their set's cutoff and training interval with one cell per key, lineage rows equal to their raw rows' instants and never on a missing cell, one per key, and predictions gated on a terminal (for SUCCESS: READY) set with fitting models |
| `PointInTime.RunGrows` | database/repository.py:463-1468 | Over any continuation nothing stored is lost or rewritten: raw rows only get seen later, lineage is append-only, a cell only has its availability raised, terminal sets, finished models, published prediction sets and predictions never change |
| `PointInTime.StepEffect` | database/repository.py:605-1468 | Each call either leaves the whole state alone or makes exactly the one change it is for; cells, lineage, finalising and predictions change it only when all the instant checks passed, a model only on a READY set |
| `Identities.StepIsChecked` | database/repository.py:605-1468 | And no call, creating, finishing and publishing included, changes anything unless every check of its method passed: run, date, cutoff, training days, identity not yet taken, status, expected tickers |
| `PointInTime.StepKeepsCells` | database/repository.py:717-751 | Adding values, lineage or finalising never puts a cell past its set's cutoff, outside the training interval, on a leaking score target, or at odds with its missing flag |
| `PointInTime.StepKeepsInputs` | database/repository.py:826-905 | Every lineage row keeps its raw row's three instants, sits on a stored, present cell, and is no later than that cell's own availability and sample cutoff, in every later state |
| `PointInTime.PredictionSurvives` | database/repository.py:1288-1368 | Once accepted a prediction stays gated: same ticker, date and version, set cutoff within its prediction set's, models successful on the same set, whatever is called later |
| `FrozenSets.FrozenForever` | database/repository.py:911-988 | After a feature set turns terminal no later calls change its row, its cells or its lineage, nor add to them |
| `FrozenSets.FinalisedSetsAreExact` | database/repository.py:926-986 | In every run that flushes a set before finalising it, each terminal set holds exactly `required_feature_count` cells, its missing count and ratio are those of its cells, and its three maxima are those of its lineage, none after the cutoff |
| `FrozenSets.FinaliseCounts` | database/repository.py:926-935 | A successful finalise freezes counts that cover every cell of the set if and only if none of its cells was still staged |
| `FrozenSets.FinaliseSeenInTime` | database/repository.py:943-969 | Whatever the flag, after a successful finalise all lineage of the set was seen by its cutoff if and only if the lineage still staged was: the table's own checks refuse the stored part (`database/models.py:350-357`) |
| `FrozenSets.ReplaysAreLiveToo` | database/repository.py:958-966 | So in runs that flush first the set half of liveness, lineage seen by the set's cutoff, holds behind every prediction even when the replay flag is used throughout |
| `FrozenSets.StagedLineageSlips` | database/repository.py:943-987 | The hole is real: a run of six calls, the last finalising with the default flag, in which a READY set rests on a row first seen long after its cutoff, because it was staged but not flushed |
| `FrozenSets.LatestWithin` | database/repository.py:943-957 | The running `max(...)` is within a bound exactly when every instant of the set's lineage is |
| `Identities.RunsAreIdentified` | database/repository.py:605-1242 | In every reachable state sets and publications carry their daily run's date and, where it has one, its cutoff; training ends before the predicted day; models sit on READY sets of their own run and ticker; and no logical identity is stored twice |
| `Identities.SuccessIsWellFounded` | database/repository.py:1328-1429 | Both models behind a SUCCESS prediction succeeded and were fitted on the very READY set it cites, of its ticker, trained strictly before the day predicted |
| `Publication.PublishedForever` | database/repository.py:1284-1286 | Once a prediction set is published its row and its predictions never change, and none is added |
| `Publication.PublishedTickers` | database/repository.py:1441-1468 | A publish that takes effect leaves exactly the expected tickers, and at least one when READY, whatever is called afterwards |
| `Acceptance.PredictionAccepted` | database/repository.py:1288-1407 | A prediction under a new key is stored, exactly as given, if and only if, in the columns of the tables: its set is BUILDING, date, version and cutoff agree with its feature set's, a SUCCESS row is on a READY set with BUY or NO_BUY and all four outputs and any other on a terminal set with NONE, the models named succeeded at their task for that ticker, set and version, the reference row is a stock price known by the cutoff at that price, the probability is one, and the set has none for the ticker |
| `Acceptance.PredictionAnsweredAgain` | database/repository.py:1322-1332 | A known key answers with its row exactly for the same set and ticker; nothing changes |
| `Acceptance.FinalAccepted` | database/repository.py:911-988 | A BUILDING set is frozen if and only if its stored cells are as many as required, READY has a manifest, the clock has not gone back and no stored lineage is after the cutoff in any of its three instants; the frozen counts and maxima are those of the stored cells and lineage |
| `Acceptance.FinalAnsweredAgain` | database/repository.py:922-925 | A frozen set answers with itself exactly for the same status, and never changes |
| `Acceptance.CountIsSize` | database/repository.py:926-934 | The number of values read for a set is the number of stored cells of that set |
| `Acceptance.MissingIsSize` | database/repository.py:933 | and the missing count is the number of those that are missing |
| `Acceptance.LatestIsMaximum` | database/repository.py:943-957 | Each maximum read is attained by a line of the set's lineage and bounds every line; it is absent exactly without lineage |
| `Acceptance.CellAccepted` | database/repository.py:694-779 | A cell not there yet is appended, exactly as given, if and only if its set is BUILDING, the name is not blank, null means missing, its cutoff is within the set's, a score row is a feature on the prediction date, a training row lies in the training interval, and it was available by its own cutoff |
| `Acceptance.CellAnsweredAgain` | database/repository.py:752-763 | A known cell answers with itself exactly when value, missing flag and quality are the same; another value is refused and nothing changes |
| `Acceptance.InputAccepted` | database/repository.py:799-909 | New lineage is added if and only if its cell is stored, present and in a BUILDING set and the raw row passes the look-ahead check and, when claimed, the two observation checks; the cell's availability becomes the later of its own and the raw row's |
| `Acceptance.InputAnsweredAgain` | database/repository.py:884-887 | Known lineage answers with itself exactly when it would be accepted; nothing changes |
| `Acceptance.SetAccepted` | database/repository.py:605-692 | A feature set under a new key is created if and only if run, date and cutoff agree, training precedes the prediction date, the count is not negative and no set has the same run, ticker, version and kind; it starts BUILDING with every feature missing |
| `Acceptance.SetAnsweredAgain` | database/repository.py:624-645 | A known key answers with its set exactly for the same identity; nothing changes |
| `Acceptance.ModelAccepted` | database/repository.py:1015-1084 | A fit is started if and only if its set is READY and agrees in run, ticker, version, training interval and cutoff, it has rows, and run, ticker, task and algorithm are new; it starts RUNNING |
| `Acceptance.ModelAnsweredAgain` | database/repository.py:1015-1029 | A known key answers with its fit exactly for the same identity; nothing changes |
| `Acceptance.FinishAccepted` | database/repository.py:1141-1179 | A fit ends if and only if it is RUNNING, not before its start, with an intercept for SUCCESS and a message for FAILED; the same end again changes nothing and another is refused |
| `Acceptance.PredictionSetAccepted` | database/repository.py:1198-1242 | A prediction set is opened if and only if run, date and cutoff agree, training precedes the date and the run has none yet; it starts BUILDING |
| `Acceptance.PredictionSetAnsweredAgain` | database/repository.py:1198-1208 | A known key answers with its set exactly for the same prediction date; nothing changes |
| `Acceptance.PublishAccepted` | database/repository.py:1429-1468 | A BUILDING prediction set is published if and only if its predictions are for exactly the expected tickers, at least one when READY, not before it was generated |
| `Acceptance.PublishAnsweredAgain` | database/repository.py:1439-1446 | A published set answers with itself exactly for the same status, and never changes |
| `PublishedRuns.DecisionIsPublished` | database/repository.py:605-1468 | For every ticker, day, cutoff, training interval, decision, return, probability and price there is a run of calls, all claiming observation by the cutoff, that ends with that BUY or NO_BUY published READY, with raw lineage behind it: the promises above are not about nothing |
| `FeatureRepository.Repository.AddFeatureValue` | database/repository.py:694-779 | The method over its in-memory index has the same result and new state as deciding against all stored and staged rows, and keeps the index right |
| `FeatureRepository.Repository.AddFeatureInput` | database/repository.py:799-909 | Likewise for lineage: the lazily loaded key dictionary answers as a search of all lineage would; the cell's availability is raised, never lowered |
| `FeatureRepository.Repository.FinalizeFeatureSet` | database/repository.py:911-988 | Its counting and maximum loops over stored rows freeze exactly the specified row, with the checks in the same order |
| `FeatureRepository.Repository.ValueCache` | database/repository.py:781-797 | Loading stored rows once yields an index that equals the set's rows, stored or staged, and answers every key as a search of them |
| `FeatureRepository.Repository.LoadInputs` | database/repository.py:867-883 | Loading one more set's lineage keeps the dictionary equal to the lineage of all loaded sets |
| `FeatureRepository.Repository.LatestInstants` | database/repository.py:943-957 | The three maxima read for a set are those of its stored lineage |
| `FeatureRepository.Repository.FlushPending` | database/repository.py:493-496 | Flushing makes every staged row stored and leaves the indexes right |
| `FeatureRepository.LateLineage` | database/repository.py:958-966 | Exactly the late maxima are refused, availability always and the other two only when observation is claimed, with the first one's message |
| `FeatureRepository.CellIndexFinds` | database/repository.py:752-763 | A lookup in the index equals a search through the rows |
| `FeatureRepository.InputIndexFinds` | database/repository.py:884-887 | A lookup among the loaded lineage keys equals a search through all lineage |
| `FeatureRepository.InputIndexMerges` | database/repository.py:867-883 | The dictionary after loading another set is the dictionary of both: sets never answer for each other |
| `FeatureRepository.OtherCallsKeepIndexes` | database/repository.py:605-1468 | No other call of the session makes either index stale |
| `BarRepository.Repository.UpsertBars` | database/repository.py:92-197 | The grouped, preloaded, index-driven batch leaves the same table as inserting the rows one at a time; it fails exactly on a missing hash and then changes nothing; inserted plus reused is the batch length; stored columns never change except `last_seen_at`, upwards |
| `BarRepository.Repository.UpsertGroup` | database/repository.py:117-195 | One series' loop over the `exact` and `prior_timestamps` indexes equals one-at-a-time insertion of its rows |
| `BarRepository.Repository.LoadRevisions` | database/repository.py:121-141 | Reading stored revisions in chunks of 500 instants builds exactly the two indexes of the series, for those instants |
| `BarRepository.GroupRows` | database/repository.py:107-116 | Grouping keeps every row once, in batch order within its series, each series listed once; it fails exactly on a missing hash |
| `BarRepository.OnlyOwnRowsMatter` | database/repository.py:121-195 | What a batch does to one series depends only on that series' rows, so handling series by series loses nothing |
| `BarRepository.AllGroupsDone` | database/repository.py:121-195 | Handling every series in turn equals the whole batch in its own order |
| `BarStore.RepeatedBatchChangesNothing` | database/repository.py:145-151 | Repeating a batch leaves the table identical, `last_seen_at` included |
| `BarStore.UpsertInBatches` | database/repository.py:92-197 | How rows are cut into batches does not matter |
| `BarStore.TableIsHistory` | database/repository.py:143-195 | Closed form of the table after any run from empty: each key's row is the first arrival with that key, corrected when an earlier arrival had its slot, last seen at the latest retrieval |
| `BarColumns.TableInColumns` | database/repository.py:143-195 | The same told in columns alone: every stored row agrees with the first arrival of its revision in every provider column, prices and quality included; the first revision at an instant keeps availability, evidence and flags, any later one is available from its first observation, says so, and carries exactly one more flag; every arrival has a row and no revision has two |
| `BarColumns.RowsInColumns` | database/repository.py:92-197 | and so of the rows the repository holds |
| `BarColumns.ResolvedColumns` | database/repository.py:86-90 | A bar goes, unaltered, to the stock table exactly when its canonical symbol is a stock's |
| `BarStore.OnlyFirstRevisionKeepsClaim` | database/repository.py:152-161 | Of two stored revisions of one provider, symbol, interval and timestamp at most one keeps an availability earlier than its first observation |
| `BarStore.ClaimMeansFirst` | database/repository.py:152-161 | A row with such a claim is the very first arrival in its slot |
| `BarStore.StoredInstantsOrdered` | database/models.py:89-104 | After any run every stored row has event <= available <= first observed <= retrieved <= last seen |
| `BarStore.RowsOnlySeenLater` | database/repository.py:145-151 | No stored row is ever lost or changed but for `last_seen_at`, which only moves forward |
| `IngestionRuns.RunsLeaveNoGap` | data/fetch.py:424-643 | From an empty store, after any number of runs with one start date, skipping or not, failed series included, in any order of cutoffs, each series holds every exchange session from the start date to its newest stored date, provided no two series of one table list the same provider symbol; of the providers only answers to the plan's own requests are spoken of: end-of-day bars under the asked symbol whose instant and hash fix the session |
| `SharedSources.GapFreeExactlyWhenDistinct` | data/fetch.py:424-643 | That condition is exact: over a plan whose series trade on two common days, no sequence of runs leaves a hole if and only if no two series of one table share a source |
| `SharedSources.SharedSourceLeavesGap` | database/repository.py:143-151 | For every plan in which two series share a source and both trade on some day after which the second trades again, two runs leave a hole: the second series' first day is taken for a reused row of the other's, because the revision key does not name the series |
| `SharedSources.RejectSharedSymbols` | data/config.py:527-548 | The catalog's aliasing check accepts exactly listings in which no provider symbol, case folded, serves two indicators or one indicator twice in a role |
| `SharedSources.CheckedCatalogIsDistinct` | data/config.py:527-548 | A plan drawn from catalogs that pass lists no registry key and symbol for two series of a table |
| `SharedSources.CatalogCheckIsEnough` | data/config.py:532-541 | So with providers that go by different names such a plan meets the condition |
| `IngestionRuns.FillingWindowLeavesNoGap` | data/fetch.py:308-350 | Storing exactly a window's required sessions closes the series up to the target session: every completed session is stored afterwards |
| `IngestionReruns.CoveredExactlyWhenReached` | data/fetch.py:484-491 | In a run over the plan a series is reported as covered if and only if covered series are skipped and the newest row visible of it as the run began reaches the last session completed by the cutoff; then nothing is stored for it |
| `IngestionReruns.RerunIsCovered` | data/fetch.py:448-643 | After any past of operational runs with cutoffs that do not go back, asking again for what the last one asked for reports every series that succeeded or was covered in it as covered, whatever the providers now answer, and if none failed the table does not change |
| `IngestionRuns.RunCoverageIsCoverage` | database/repository.py:199-247 | The coverage map is the newest date visible by the cutoff in each symbol's table, or empty when nothing is skipped |
| `IngestionRuns.NewestStoredIsNewest` | database/repository.py:228-241 | The grouped maximum is attained by a visible row and bounds every visible row; it is absent exactly when no row is visible |
| `IngestionRuns.ExecuteFetchPlan` | data/fetch.py:448-643 | The run over the store is one history step: every series handled in order against the coverage read at the start, failing series changing nothing; it is refused exactly when the dates are reversed |
| `IngestionRuns.FetchTarget` | data/fetch.py:468-545 | One series over the repository does exactly what the window, the routing and the upsert say, with its report outcome |
| `IngestionRuns.RouterFills` | data/fetch.py:605-636 | If answers to a series' own requests are end-of-day bars of the meaning their revision key has, an accepted answer brings exactly the required sessions of that series, and no others |
| `Ingestion.WindowAsks` | data/fetch.py:331-350 | When a fetch is made it starts the day after what is stored, or at the start date, and ends at the last completed session; the required sessions are exactly the completed ones from there on, and every other completed one is no later than what is stored |
| `Ingestion.CompletedSessions` | data/fetch.py:298-305 | The loop keeps, in order, exactly the sessions available by the cutoff |
| `Ingestion.CompletedSpec` | data/fetch.py:298-305 | Those are ascending and are precisely the exchange sessions in range whose availability is not after the cutoff |
| `Ingestion.FetchEodSeries` | data/provider_router.py:83-203 | The loop takes the first acceptable candidate, records every decision up to it with that candidate's own reason, quality, freshness and coverage, and raises exactly on a bad threshold, empty required dates, an unknown registry key or mixed rows |
| `Ingestion.ServedWasAccepted` | data/provider_router.py:105-202 | The candidate served was accepted on its own answer and every earlier one was rejected, not raised |
| `Ingestion.AcceptedSeriesIsComplete` | data/provider_router.py:156-184 | At full coverage an accepted series holds every required session, only required sessions, and only rows visible by the cutoff, of the provider and series asked for |
| `ProviderRouting.AcceptedExactly` | data/provider_router.py:105-184 | An answer is taken if and only if it is non-empty, all under the provider's name and the series asked for, every row OFFICIAL, EOD_CONFIRMED or FREE_UNVERIFIED, and enough required dates have a row available, and in operational runs observed and retrieved, by the cutoff; it raises exactly on mixed rows |
| `ProviderRouting.FullyCovered` | data/provider_router.py:156-172 | At full coverage enough means every required date |
| `ProviderRouting.NotedExactly` | data/provider_router.py:105-200 | The recorded freshness is MISSING, QUALITY_REJECTED, STALE or FRESH for exactly those reasons, and the coverage is the share of required dates met |
| `ProviderRouting.QualityNotedExactly` | data/provider_router.py:128-171 | The recorded quality is the first refused one, or else that of the last row in time, or of the last row |
| `ProviderRouting.SelectedInOrder` | data/provider_router.py:184 | What is taken is every row in time for a required date, unaltered and in the provider's order |
| `ProviderRouting.FirstDecides` | data/provider_router.py:105-203 | The first candidate whose answer is neither unusable nor turned down decides the series: it is taken, or the run raises on it; without one nothing is served |
| `SeriesOutcomes.EndsExactly` | data/fetch.py:460-645 | A planned series fails without a source, is skipped without a completed session, covered when what is stored reaches the last one, and otherwise succeeds if and only if the first source to decide answers the window, asked in its own symbol and dates, with hashed rows; unless it succeeds nothing is stored |
| `EmailDelivery.EveryInterleavingIsSafe` | database/repository.py:1896-1967 | Under every interleaving of workers registering, claiming, sending, marking and crashing: at most one worker holds a delivery, a holder means SENDING, `attempt_count` is the failures marked plus one while SENDING or SENT, and claimed sends never exceed successful claims |
| `EmailDelivery.SentIsFinal` | database/repository.py:1940-1945 | A SENT row never changes again |
| `EmailDelivery.UnclaimedSendsExactlyWhenShared` | scripts/send_daily_summary.py:970-1104 | Among schedules in which every summary reaches its record, some one sends a summary without holding its claim if and only if a summary worker shares its key with another worker: a refused claim comes back as no record and the mail is sent all the same |
| `EmailDelivery.UnclaimedSendsExactly` | scripts/send_daily_summary.py:930-996 | Over all schedules, if and only if the key is shared in that way or some summary worker of the key may be without its record, having no database or one that raises |
| `EmailDelivery.StrayRun` | scripts/send_daily_summary.py:991-1104 | For any such pair of workers a schedule with one claim and two sends the provider accepted, one of them without a claim |
| `EmailDelivery.RetryDelivers` | database/repository.py:1896-1967 | For any two workers of one delivery: when the first one's attempt fails the second's claim is granted, and the mail the provider then accepts is on record once, as the second attempt, with its message and time |
| `EmailDelivery.EmailTable.ClaimEmail` | database/repository.py:1896-1928 | Claims exactly PENDING and FAILED rows, counting the attempt, clearing the error and leaving the row unclaimable; raises exactly for an unregistered key; otherwise, and for every other row, nothing changes |
| `EmailDelivery.EmailTable.MarkEmailSent` | database/repository.py:1930-1954 | Succeeds if and only if the row is SENDING, not created later, and the message id is on no other row, or is SENT with that very id; becomes SENT with its message id, a repeat changes nothing; no two rows ever carry one message; who is mailed what and the attempts never change |
| `EmailDelivery.EmailTable.MarkEmailFailed` | database/repository.py:1956-1967 | Succeeds exactly for a SENDING row and a non-empty error, and makes the row claimable again; otherwise, and for every other row, nothing changes |
| `EmailDelivery.EmailTable.CreateEmailLog` | database/repository.py:1800-1851 | A new key adds one untouched row if and only if the set is publishable and no other key has the delivery; a known key returns its row exactly when the delivery is the same; a delivery never gets a second key |
| `EmailDelivery.EmailTable.CreateOperationalEmailLog` | database/repository.py:1853-1894 | A new key always adds one untouched row without a prediction set; a known one is refused exactly on another recipient or template and never changed |
| `ActualResults.EveryRunIsOneChain` | database/repository.py:1498-1513 | After any sequence of calls the results of a prediction are one chain with versions exactly 1 to n, each superseding the one before |
| `ActualResults.RunsKeepLinks` | database/models.py:771-777 | Every reachable store keeps results linked to an earlier version of the same prediction, one per version and one superseder each, and trades valued against a result of their own prediction |
| `ActualResults.CurrentIsLatest` | notifications/result_report.py:62-67 | The row no other supersedes is exactly the row of maximum version |
| `ActualResults.OneLinePerPrediction` | notifications/result_report.py:73-98 | After any sequence of calls the report's join gives exactly one line per prediction with a result, for any strategy label; it is of the latest version, with the one trade valued against it under the label, or none |
| `ActualResults.ProfitCountedOnce` | notifications/result_report.py:49-98 | So net profit summed over the report's lines equals its sum over the predictions, each at the trade valued against its latest result, after any corrections and re-valuations |
| `ActualResults.ResultsNeverChange` | database/repository.py:1552-1571 | A stored result is never rewritten by later calls |
| `ActualResults.SettledRowsConsistent` | database/repository.py:1537-1551 | After any run a settled row has positive open and its return and difference are those of its open and close; a pending one has no close, return or finalisation time |
| `ActualResults.OutcomeRepository.RecordResult` | database/repository.py:1470-1571 | A result under a new key is stored if and only if the columns written out in `ResultWelcome` hold, and then as given; success returns a row of the asked prediction and version; nothing else changes; asking again returns the same row and changes nothing; a refusal changes nothing; links between versions survive |
| `ActualResults.ResultAccepted` | database/repository.py:1470-1571 | Those columns: the prediction is known, the version is 1 or the next after the row superseded, not there and not superseded yet, the stock row named is of the prediction's ticker at the open and close given, prices are positive, a pending row has no close and a final one open, close and time; return, difference and hash follow |
| `ActualResults.ResultAnsweredAgain` | database/repository.py:1486-1499 | A known key answers with its row exactly for the same prediction and version; nothing changes |
| `ActualResults.ResultsCiteTheirStock` | database/repository.py:1514-1524 | After any sequence of calls every stored result with a stock row is of that row's ticker, carries its hash, and has its open and close where it has them |
| `ActualResults.OutcomeRepository.RecordTrade` | database/repository.py:1573-1688 | A new trade is appended and nothing else changes, a final one is complete and valued against a result; asking again returns it unchanged; a refusal changes nothing; no result is ever valued twice under one strategy |
| `ActualResults.TradeAccepted` | database/repository.py:1573-1688 | A trade under a new key is stored, as given, if and only if its prediction is known, capital positive, shares not negative, its result one of that prediction not valued under the label yet, a final one complete, an unconfirmed one without costs, times in order and costs not negative |
| `ActualResults.TradeAnsweredAgain` | database/repository.py:1595-1603 | A known key answers with its trade exactly for the same prediction; nothing changes |
| `FisherExact.ProbabilitiesSumToOne` | dashboard/significance.py:54-62 | Over the whole support the hypergeometric terms sum to exactly 1 |
| `FisherExact.Vandermonde` | dashboard/significance.py:54-62 | Vandermonde's identity, by Pascal's rule on one column |
| `FisherExact.FisherIsPermutationShare` | dashboard/significance.py:38-62 | For every table, empty margins included, the returned tail is the share of all ways to pick the signal sessions that catch at least as many up sessions: the one-sided test's meaning |
| `FisherExact.TailCountsAssignments` | dashboard/significance.py:54-62 | Products of binomials count those ways, for any set of sessions |
| `FisherExact.FisherRange` | dashboard/significance.py:49-62 | The p-value is in (0, 1], and is 1 exactly when no signal session rose or no other session fell |
| `FisherExact.FisherStrictlyFalls` | dashboard/significance.py:61-62 | With margins fixed the p-value strictly falls as `signal_up` grows by one |
| `FalseDiscovery.BenjaminiHochberg` | dashboard/significance.py:65-85 | The reverse sweep gives each index the least of 1 and p(k) * m / k over all places k not before its own value, a definition that never mentions the sort |
| `FalseDiscovery.AdjustedIsUnique` | dashboard/significance.py:79-85 | That value is unique, so equal p-values get equal q-values however the sort breaks ties |
| `FalseDiscovery.AdjustedFollowsP` | dashboard/significance.py:82-84 | q-values follow the order of the p-values |
| `FalseDiscovery.AdjustedNotBelowP` | dashboard/significance.py:82-84 | No q-value is below its p-value |
| `FalseDiscovery.RejectionsAreStepUp` | dashboard/significance.py:65-85 | For every rate, q <= rate exactly for the places the textbook step-up rule rejects: rank at most the largest k with p(k) * m / k <= rate |
| `FalseDiscovery.RejectedExactly` | dashboard/significance.py:65-85 | The same multiplied out, with no ratio, rank or order: below one, q(i) <= rate if and only if some p(j) >= p(i) has p(j) * m <= rate * (how many p-values do not exceed p(j)) |
| `FalseDiscovery.SignificanceIsStrictStepUp` | dashboard/significance.py:118-134 | The dashboard's own verdict compares strictly, so it is the step-up rule with a strict comparison |
| `FalseDiscovery.SignificantExactly` | dashboard/significance.py:118-134 | and the dashboard's strict verdict likewise with strict comparison |
| `Ordering.StableOrderSorts` | dashboard/significance.py:79 | The stable sort is a permutation in ascending order that keeps ties in input order |
| `Distribution.AcceptedCurves` | models/distribution.py:182-198 | The constructor accepts exactly two or more distinct ascending levels inside (0, 1) with as many non-decreasing values, and at least one training session |
| `Distribution.DeadBranches` | models/distribution.py:236-246 | On every accepted curve the zero-width branch and the final 0.5 are unreachable, and the segment found brackets the threshold |
| `Distribution.CumulativeMonotone` | models/distribution.py:223-246 | cumulative is non-decreasing over all reals |
| `Distribution.CumulativeRange` | models/distribution.py:232-235 | and stays between the first and last level |
| `Distribution.CumulativeAtFitted` | models/distribution.py:236-245 | At a fitted value below the top it returns the lowest level of that tied block |
| `Distribution.LinearInside` | models/distribution.py:241-245 | Between two fitted values cumulative divides the levels as the threshold divides the values |
| `Distribution.PinnedAtTop` | models/distribution.py:232-235 | At the top value and beyond it is the last level, but for a flat curve at its one value, where the bottom branch answers first |
| `Distribution.DensityBins` | models/distribution.py:278-305 | The loop's bins, with mass carried over ties, are one bin per segment that has width |
| `Distribution.BinShape` | models/distribution.py:297-304 | Each bin has width and positive mass, and density times width is mass |
| `Distribution.BinsTile` | models/distribution.py:293-305 | The bins tile the interval from the first to the last value with no gap or overlap, and are empty exactly when all values are equal |
| `Distribution.BinsAddUpToCumulative` | models/distribution.py:278-305 | Masses up to a bin's upper edge sum to cumulative there minus the first level, and each bin's mass is the rise across it; at the top edge they stop at the lowest tied level |
| `Distribution.BinsHoldAllMass` | models/distribution.py:287-304 | All mass is placed if and only if the top value is not tied |
| `Distribution.TopTieLosesMass` | models/distribution.py:287-291 | Concrete curve whose top tie loses half its mass: there is no next bin for it to be folded into |
| `Distribution.DensityIsSlope` | models/distribution.py:281-285 | Inside a segment cumulative rises by the bin's density times the step exactly when the segment's lower end is not tied |
| `Distribution.ProfileSum` | models/distribution.py:323-332 | The columns sum to cumulative(high) minus cumulative(low) for any axis and column count |
| `Distribution.ProfileColumn` | models/distribution.py:329-332 | Each column is the rise between its edges: the clamp to zero never alters a value |
| `Distribution.ProfileRefines` | models/distribution.py:327-332 | Splitting every column into any number of parts gives parts that sum to it |
| `DashboardCurve.StoredCumulativeAgrees` | dashboard/presenters.py:148-159 | The dashboard's CDF over stored pairs equals the model's on every accepted curve, everywhere, ties included |
| `DashboardCurve.FrameIsProfile` | dashboard/arm_density.py:187-203 | density_frame computes the same masses as density_profile and refuses the same arguments |
| `DashboardCurve.QuantileRoundTrip` | dashboard/arm_density.py:162-184 | On a strictly increasing curve the CDF at quantile_at(level) is within 1e-9 of the level, and equals it exactly when no fitted level lies less than 1e-9 below it and, unless it is fitted itself, none less than 1e-9 above |
| `DashboardCurve.QuantilePinned` | dashboard/arm_density.py:162-173 | Below the fitted range the quantile is the first value; above it the last one exactly when no earlier level is within the tolerance; there the CDF gives the end levels |
| `DashboardCurve.QuantileExactly` | dashboard/arm_density.py:162-184 | On any curve, tied values or not: the value at the first level less than 1e-9 away, without one an end value beyond that end, and between two levels the value divided as the level is |
| `DashboardCurve.CumulativeRoundTrip` | dashboard/arm_density.py:162-184 | And back: quantile_at of the CDF at a value inside the range is that value, if and only if the level read is not mistaken for another fitted one in that sense |
| `DashboardCurve.StrictlyRises` | dashboard/presenters.py:148-159 | The CDF strictly rises between the ends of such a curve |
| `Performance.AverageRanks` | metrics/performance.py:166-177 | The nested tie loop gives each element the count of strictly smaller ones plus half of one more than the count of equal ones |
| `Performance.BlockRank` | metrics/performance.py:171-175 | The average place of a tied block is that rank |
| `Performance.RanksAddUp` | metrics/performance.py:166-177 | Ranks sum to n(n+1)/2 |
| `Performance.RanksFollowValues` | metrics/performance.py:166-177 | Ranks are ordered as the values are, and tie exactly when they tie |
| `Performance.RanksSurviveIncreasingMaps` | metrics/performance.py:155-163 | Ranks do not change under any strictly increasing transformation, so neither does what Spearman is computed from |
| `Performance.DrawdownIsLargestPairwiseFall` | metrics/performance.py:122-130 | The running-peak computation equals the largest relative fall from any earlier point with positive equity to any later one |
| `Performance.DrawdownIsWorstRun` | metrics/performance.py:114-130 | It is the most that any run of consecutive returns loses, one minus the product of one plus each, with no equity path or peak in the statement |
| `Performance.EquityGrows` | metrics/performance.py:122-124 | Between two indices the compounded path grows by the product of one plus the returns between them |
| `Performance.DrawdownRefusedExactly` | metrics/performance.py:114-121 | It is refused exactly for a return below -100% |
| `Performance.DrawdownOfOne` | metrics/performance.py:114-130 | A single return draws down what it loses, nothing when it gains |
| `Performance.DrawdownRange` | metrics/performance.py:114-130 | It lies in [0, 1], is 0 exactly when no return is negative and 1 exactly when some return is -100% |
| `Performance.DrawdownNeverRecovers` | metrics/performance.py:122-130 | It never decreases when returns are appended |
| `DependencyCycles.RejectDependencyCycles` | data/config.py:553-574 | The depth-first search terminates, raises exactly when the map has a cycle, and otherwise the order nodes entered `visited` lists every dependency first |
| `DependencyCycles.CycleSearch.Visit` | data/config.py:560-571 | One visit either finds a real cycle or restores `visiting`, marks the node visited and only extends a dependencies-first order |
| `DependencyCycles.OrderedHasNoCycle` | data/config.py:553-574 | A dependencies-first order of all keys rules out any cycle |
| `DependencyCycles.BackEdge` | data/config.py:561-564 | Meeting a node still being visited closes a cycle |
| `DependencyCycles.BuildDependencies` | data/config.py:510-525 | The map built just before is refused exactly on an unknown or own input, and otherwise maps each indicator to all inputs of all its sources |
| `DependencyCycles.ValidateDependencies` | data/config.py:510-525 | Together with the check that ends the validator (line 550): accepted exactly when identifiers are distinct, inputs are known and the resulting map has no cycle; the aliasing check in between is `SharedSources.RejectSharedSymbols` |

## Left out

- Floating point: every level, return, price and p-value is an exact real, so rounding, overflow and
  the finiteness checks are not modelled.
- Transactions: a call that raises leaves everything unchanged.  Commit, rollback of what was staged
  before it, and failures of the database itself are not modelled, and one session at a time writes a
  feature set.
- Surrogate keys: a row is its position, and market data and stock prices share one numbering; generated
  identifiers are parameters.
- The negative entries of `_row_cache`: a row first looked up before it exists is found once it exists.
- Bars: high, low and adjusted prices, volume, currency, market, real-time flags, and the source timestamp
  with its check.
- `FeatureStore`: column widths, hash and time-zone validation, free-form details, model coefficients, prediction
  intervals, coverage, ranks and price differences, and their single-column checks; blank names made of
  non-ASCII spaces.  Creating sets and models, adding predictions and publishing are functions on
  values, not methods, because they use no index.
- FrozenSets.ReplaysAreLiveToo: under the replay flags nothing is promised about the reference price, nor
  about lineage against a sample's own cutoff, because those checks are switched off and no table check
  stands in for them.
- IngestionRuns.RunsLeaveNoGap: that providers answer a series' own requests with end-of-day bars under
  the asked symbol, one session per instant and content, is assumed; sessions become available in order.
  Cutoffs may go backwards.
- SharedSources.CatalogCheckIsEnough: that no two registered providers stamp the same name on their rows
  is assumed.
- The treasury and snapshot parts of the fetch plan, attempt and selection records, report flags, and
  calendars and time zones, which enter as a session predicate and an availability function.
- Ingestion.FetchEodSeries: the message for a refused quality names no values, and the details listed with
  an attempt are not modelled.
- FalseDiscovery.BenjaminiHochberg: p-values are taken in [0, 1], as Fisher's test returns them.
- FisherExact.FisherRange: counts are natural numbers.
- EmailDelivery.UnclaimedSendsExactly: the summary's earlier look for a SENT row is not modelled; it stops
  a repeat after the fact and not a concurrent one.  A database that fails after the claim took effect
  counts as one that failed before it.  Subjects and message bodies.
- Performance.RanksSurviveIncreasingMaps: the Pearson step after ranking, Sharpe, Sortino and the other
  ratios, which need square roots.
- Quantile fitting, training, backtests, the block bootstrap, pages, charts and mail layout.
- The validators of `data/config.py` other than the dependency map and its cycle check.
- Metric snapshots, daily runs and run steps.
