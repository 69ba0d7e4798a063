# Request lifecycle of the ebook request plugin

The plugin turns `request_submitted` events into jobs at an upstream downloader and reports how they
end. Four parties write one table, `forwarded_request`, without transactions across statements: an
at-least-once event consumer, a reconciler that polls the upstream behind a mutex, an administrator,
and crashes and restarts. This project models that protocol and proves what it keeps.

There are two views of it.

* **Whole calls.** Each statement is a function of the table (`Rows`), each delivery a function of the
  world (`Consumer.Handle`), each tick a recursion over the listed rows (`Reconciler.TickOf`). The
  store, the event handler and the reconciler are classes whose methods, loops included, are proved
  equal to those functions. The lemmas named `What…` say of those functions, column by column and word by
  word, what a caller reads: of a statement in `Rows`, of a query in `Queries`, of a reply in `Client`, of a
  payload in `Consumer`, of a tick in `Polls`. `Runs` and `Waiting` state results about sequences of whole
  calls.
* **Small steps.** `Protocol` interleaves any number of handlers and tick attempts, one statement,
  one upstream call or one publication at a time, with admin actions, crashes, store faults, restarts
  and the clock. A step that is not possible changes nothing, so a statement about all sequences of
  actions is a statement about all interleavings. `ProtocolRows`, `ProtocolLock`, `ProtocolEvents`
  and `ProtocolIds` hold the safety results, `ProtocolWaiting` bounded waiting, `ProtocolEnds` what is
  announced of a request's end, `IdRaces` and `StatusRaces` which upstream id and which status a row
  keeps; `Losses` holds the runs that lose a request.

`Refinement` joins the two: a whole delivery, a whole tick and every sequence of whole calls are
reached by sequences of small steps, with the same table, events, upstream calls, memory, status
snapshot and returned error. Where a lemma has `acts` as an output, the sequence is constructed.

Conventions: a clock reading is a positive number of nanoseconds since 0001-01-01, zero is both Go's
zero time and the epoch the polling order coalesces NULL to. `Status` is the text column: the seven
lifecycle names, or any other text. Store faults, clock readings, upstream answers and the budget of a
tick are inputs, so each result holds for all of them. `Register` and `Rows` treat a row as a guarded
register; `Ordering` and `Queries` give ORDER BY, LIMIT and the counters their meaning, `Ties` what is
left open when ORDER BY has no tiebreak; `Pages` is the admin queue; `Starvation` says which rows are
polled at all; `Client` classifies upstream replies and computes the parking window.

Where code and documentation differ, the code is modelled, and the exact condition is proved:

* `docs/database-ops.md` contradicts itself: it confines the retry endpoint to non-terminal rows, and calls
  it the one operator-driven path that resurrects a terminal row. The code does the latter: a terminal row
  is taken back if and only if it has an upstream id (`RetryResurrectsIff`, `ImportedIsResurrected`).
* The comment on `RetryRequest` says the reconciler picks the row up on the next tick; that depends on how
  many never-polled rows precede it (`RetriedIsListedIff`, `RetriedIsOvertaken`).
* The comment on `setBackoff` promises a park of at least the given time; the 10-minute cap keeps that
  promise only up to 600 s (`WindowIsEnough`), and for a Retry-After header the product of
  `parseRetryAfter` changes nothing about it (`ParkIsEnough`).
* The lifecycle document says an acknowledged row has an upstream id; a status-only reply breaks that
  (`AcknowledgedIsSettled`, `BlankAcceptanceIsLost`).
* The lifecycle document says the new id of a redelivery replaces the old one; an overlapping delivery, or a
  tick that listed the row before, puts the old one back, and the id stands if and only if neither is on its
  way (`IdStandsIff`, `OverlapRestoresId`, `StaleIdIsRestored`).
* The lifecycle document says an imported request emits `request_fulfilled`; a restart between the write and
  the publication loses the event. Exactly the ends that a restart strikes while their announcement is due
  go untold (`EveryEndIsTold`, `NothingUntoldIff`, `ImportedIsToldIff`, `RestartLosesEvent`).
* The lifecycle document lists the statuses in order and says a redelivery cannot resurrect a completed
  request; it can take a downloading one back to submitted and then fail it while its job runs on. The status
  of a live row stands by itself if and only if no handler and no stale tick of it is on its way
  (`StatusStandsIff`, `RunningJobIsGivenUp`).
* A comment of the reconciler says that one dead row does not starve the others; 200 rows that ticks leave
  in place starve every row behind them (`PolledIff`, `PolledWhateverIff`, `StarvationReached`).
* `docs/admin-api.md` says the page limit is clamped to 1..200; the store replaces a limit outside that
  range by 50, after the handler has used it for the offset, and gives ties no order (`PagingReachesAllRows`).

## Model

| member | source | states |
|---|---|---|
| Store.Store.UpsertForwardedRequest | internal/store/request.go:36-81 | the whole new table after an upsert, or no change on an empty id or a fault |
| Store.Store.MarkPolled | internal/store/request.go:90-118 | a poll stamps the row, clears its error and advances its status under the guard; a missing row stays missing |
| Store.Store.GetForwardedRequest | internal/store/request.go:120-136 | not found if and only if the id is missing; otherwise each column reads as empty exactly where it is NULL or empty, and as it is elsewhere |
| Store.Store.ListNonTerminal | internal/store/request.go:138-167 | the scanned rows are the first rows of the unique polling order, or, when the row stream breaks, a prefix of them without an error |
| Store.Store.ListRequests | internal/store/request.go:173-226 | two statements with other writers between them: the number of rows that have the status asked for and the pattern in either id, then such rows only, a window of some newest-first order, or a prefix of it when the row stream breaks |
| Store.Store.ListStuck | internal/store/request.go:231-262 | live rows as they stand, last polled, or if never polled created, before the cutoff, none twice, oldest first; unless the row stream breaks one that qualifies is missing only when the limit is reached by rows no younger |
| Store.Store.RetryRequest | internal/store/request.go:268-288 | resets any row with an upstream id to acknowledged, terminal or not; otherwise reports not found and changes nothing |
| Store.Store.MarkFailedManually | internal/store/request.go:293-313 | drives an existing row to failed with the reason or the default one |
| Store.Store.RequestStats | internal/store/request.go:315-331 | six counters, each the number of rows it is named for, which partition the table |
| Rows.InsertReadsBack | internal/store/request.go:36-64 | an inserted record is read back as it was written, empty values through NULL and back |
| Rows.WhatUpsertStores | internal/store/request.go:60-76 | each column of a row after an upsert: what the write holds, the old value where it holds nothing, the old status where that is imported or failed; no other row changes |
| Rows.WhatPollStores | internal/store/request.go:95-113 | each column after a poll's write: stamp and error of the poll, the given status unless the row ended; no row is added and no other changes |
| Rows.WhatRetryStores | internal/store/request.go:268-280 | each column after a Retry: acknowledged, stamp and error gone, id and creation time kept; a row without an id is left as it was |
| Rows.WhatMarkFailedStores | internal/store/request.go:293-307 | each column after Mark failed: failed with the reason, or the words for none; a missing row stays missing |
| Rows.RetryResurrectsIff | internal/store/request.go:268-280 | Retry takes a terminal row back to acknowledged if and only if it has an upstream id |
| Rows.UpsertIdempotent | internal/store/request.go:60-76 | a redelivered upsert is a no-op on the whole table |
| Register.RegisterFirstTerminal | internal/store/request.go:65-72 | after any writes the first terminal status written stands |
| Register.RegisterExternalId | internal/store/request.go:64-104 | external_id is the last non-empty id written |
| Register.RegisterErrorText | internal/store/request.go:83-113 | error_text is the last error upserted after the last successful poll |
| Register.RegisterClosedForm | internal/store/request.go:60-113 | every column of a row as a closed form of all the upserts and polls that reached it |
| Ordering.LessMeaning | internal/store/request.go:148-150 | ids are in order if and only if at the first place where they differ the lesser has the lesser character or ends |
| Ordering.EnumerationRank | internal/store/request.go:148-150 | an id's place in the ordered result is the number of ids ahead of it |
| Ordering.EnumerationUnique | internal/store/request.go:148-150 | the tiebreak leaves one possible order |
| Ordering.OrderBy | internal/store/request.go:148-150 | drawing the least remaining key until none is left yields that order |
| Queries.ListingMeaning | internal/store/request.go:142-151 | a listing holds live rows as they stand, none twice, and omits none that precedes a listed one |
| Queries.WhatListingHolds | internal/store/request.go:142-151 | of the polling order in literal terms: rows neither imported nor failed, never polled first, then by stamp, then by id, up to the limit or 100; a live row is left out only when the limit is reached by rows that precede it |
| Queries.ListedByRank | internal/store/request.go:148-151 | a row is listed if and only if fewer rows than the limit are ahead of it |
| Queries.WhatQueueHolds | internal/store/request.go:182-196 | a row is in the admin queue if and only if it has the status asked for and the pattern holds of its request id or of its upstream id, NULL never matching |
| Queries.WhatPagesHold | internal/store/request.go:203-226 | of any page: each record has that property and is the row as it stands, none appears twice, creation times do not ascend, and there are at most the limit, 50 for one outside 1..200 |
| Queries.WhatStuckListHolds | internal/store/request.go:231-262 | of any stuck list: each record is live and was last polled, or if never polled created, before the cutoff, none twice, oldest first; one that qualifies is missing only when the limit is reached by rows no younger |
| Queries.WhatStatsCount | internal/store/request.go:316-324 | the six counters are the numbers of all rows, of the imported, of the failed, of neither, with an error text, and live without an upstream id |
| Queries.StatsPartition | internal/store/request.go:316-324 | total is active plus failed plus imported, and unsubmitted is within active |
| Queries.StatsOfWrite | internal/store/request.go:316-324 | writing a live row moves it, and nothing else, between all six counters |
| Queries.PollClearsErrorCount | internal/store/request.go:83-89 | a successful poll ends a row's part in the error count; an upsert cannot |
| Ties.StraddledIff | internal/store/request.go:203-210 | rows of one creation time lie on both sides of a place if and only if its two neighbours tie, in whichever order the query answers |
| Ties.Splice | internal/store/request.go:203-210 | where no tie lies across a place, one answer of the query may continue another |
| Pages.Server.HandleListRequests | internal/server/server.go:95-122 | every record has the status asked for and the pattern in either id, the total counts all such rows, and the page is the one of the parsed limit and page, with the offset from the unclamped limit |
| Pages.OffsetIsExactIff | internal/server/server.go:101-106 | the offset is the one meant if and only if the product fits 64 bits |
| Pages.OffsetWraps | internal/server/server.go:101-106 | a page number an int64 holds whose offset wraps to row 50 |
| Pages.PagesAreWholeIff | internal/store/request.go:173-226 | for a limit in 1..200, all the pages the handler may answer hold every matching row once, newest first, if and only if no rows of one creation time go over the end of a page |
| Pages.PagesPartition | internal/store/request.go:173-226 | with distinct creation times the pages end to end list every matching row once, strictly newest first |
| Pages.QueueInOrder | internal/store/request.go:203-210 | any newest-first order holds every matching row once |
| Pages.PagingReachesAllRows | internal/server/server.go:101-107 | whatever the handler may answer shows every row if and only if no tie goes over the end of a page (limit in 1..200) or 50 rows hold the queue (any other limit) |
| Pages.TieLosesRow | internal/store/request.go:203-210 | two requests created in the same instant, one row a page: an answer that has the second on no page |
| Pages.LargeLimitLosesRows | internal/server/server.go:101-107 | with a limit above 200 and more than 50 rows every walk misses a row, however ties fall |
| Numerals.AtoiOrOfDecimal | internal/server/server.go:231-240 | a signed or unsigned number in a query parameter is taken if it fits 64 bits and is not negative, else the default |
| Numerals.WhatAtoiAccepts | internal/server/server.go:231-240 | what parses is an optional sign and at least one decimal digit and nothing else, within 64 bits |
| Text.TrimMeaning | internal/consumer/handler.go:170-178 | the trimmed text goes from the first to the last character that is no space |
| Client.WhatRepliesMean | internal/ebookdb/monitoring.go:74-98 | a reply succeeds if and only if it is below 400 with a decodable body holding an id or a status, and carries the body's status, book and request id, else its other id; 429 and nothing else is a rate limit with the delay of its header; the rest is refused with its text |
| Client.WhatRetryAfterMeans | internal/ebookdb/client.go:44-60 | a number in Retry-After is seconds, exact while they fit 64 bits of nanoseconds; any other text is a future date or nothing |
| Client.WhatParksLast | internal/reconciler/reconciler.go:136-149 | a park is a minute for no delay, ten minutes for more than that, and else the delay |
| Client.AnswersWithoutId | internal/ebookdb/monitoring.go:74-98 | an accepted reply names no job if and only if it carries a status and no id; only 429 is a rate limit |
| Client.ParkIsRequested | internal/ebookdb/client.go:44-60 | the park lies in (0, 600 s] and is the requested one if and only if the product fits 64 bits or wraps to at least the cap |
| Client.WindowIsEnough | internal/reconciler/reconciler.go:136-149 | a park lasts at least the time asked for if and only if that is at most the cap |
| Client.ParkIsEnough | internal/ebookdb/client.go:44-60 | a Retry-After of n seconds is waited out if and only if n is at most 600 |
| Client.ParkWraps | internal/ebookdb/client.go:49-51 | the smallest delta-seconds value whose park is wrong, and that all smaller ones are right |
| Consumer.FirstTargetDecides | internal/consumer/handler.go:159-178 | the first target key present, of whatever type, decides whether the event is ours |
| Consumer.WhatDigestReads | internal/consumer/handler.go:159-189 | which payload is ours, by the three literal keys in their order; whose text is the id, request_id before requestId; and when there is metadata, a title or an ISBN |
| Consumer.WhatPayloadsDo | internal/consumer/handler.go:46-150 | a payload of another plugin or without an id changes nothing; one of ours touches the row of its id and no other, and calls upstream if and only if the submission is stored and it has a title or an ISBN |
| Consumer.WhatDeliveriesWrite | internal/consumer/handler.go:85-149 | every column and the event left by a delivery of ours once its submission is stored, by what the upstream answered and whether the outcome was stored |
| Consumer.Handler.HandleEvent | internal/consumer/handler.go:46-150 | every branch of the handler: an event of another name or plugin, or without an id, is acknowledged and changes nothing; for the rest ack or nack, table, events and upstream calls |
| Consumer.AcknowledgedIsSettled | internal/consumer/handler.go:134-149 | an acknowledged complete request is settled if and only if the answer named a job, failed, or the row was settled before |
| Consumer.NackedLosesNothing | internal/consumer/handler.go:80-90 | a nack publishes nothing, keeps what was settled, and has called upstream only for a persisted row |
| Consumer.AcknowledgedPublishes | internal/consumer/handler.go:103-149 | an acknowledged delivery publishes exactly one event, replays on terminal rows included |
| Reconciler.TranslateStatus | internal/reconciler/reconciler.go:302-320 | the translation never yields submitted, acknowledged or an unknown status |
| Reconciler.WhatWordsMean | internal/reconciler/reconciler.go:302-320 | the status each upstream word leads to, the held one for every other word |
| Reconciler.WhichWord | internal/reconciler/reconciler.go:302-320 | and backwards: a status the row does not hold is written if and only if the word is one of its own |
| Reconciler.WhenParked | internal/reconciler/reconciler.go:122-134 | a tick is parked if and only if the window ends after its start, and then for the time left of it |
| Polls.WhatTicksAnnounce | internal/reconciler/reconciler.go:244-285 | whatever faults, every event a tick adds belongs to a listed row whose poll was answered with a word, and says what that word means |
| Polls.WhatTicksWrite | internal/reconciler/reconciler.go:244-285 | after a complete tick each listed row with a job has the status of its word, the stamp, no error, and its event in the log if the status changed; a new refusal leaves its text and the status as it was |
| Polls.WhatWordsWrite | internal/reconciler/reconciler.go:249-260 | an answered poll writes the status of its word, or the one listed, to the row of the listing and to no other, or nothing if the write is lost |
| Polls.WhatAnswersDo | internal/reconciler/reconciler.go:207-244 | what each answer leaves in the error cache, in the parking window and, for errors, in the table, and that a rate limit ends the loop |
| Polls.WhatTicksReturn | internal/reconciler/reconciler.go:187-297 | the error a tick returns and shows is that of the first row that fails, and there is none exactly when none fails before the loop ends |
| Polls.WhatOtherTicksReturn | internal/reconciler/reconciler.go:163-188 | what a parked tick shows and leaves, and one whose listing fails |
| Reconciler.PollOfLiveRow | internal/reconciler/reconciler.go:245-260 | a poll ends a live row if and only if the upstream says one of five words, and writes submitted, acknowledged or a foreign status only by holding it |
| Reconciler.Reconciler.RecordErrorChanged | internal/reconciler/reconciler.go:103-112 | whether the text differs from the one remembered for the row, which it becomes, no other row's changing |
| Reconciler.Reconciler.BackoffRemaining | internal/reconciler/reconciler.go:122-134 | the time left of the window, clearing it once passed |
| Reconciler.Reconciler.SetBackoff | internal/reconciler/reconciler.go:139-149 | parks until the clamped window ends, within 600 s |
| Reconciler.Reconciler.PersistError | internal/reconciler/reconciler.go:215-242 | the error path of a row equals its specification, deduplication included |
| Reconciler.Reconciler.PersistPoll | internal/reconciler/reconciler.go:244-285 | the success path of a row equals its specification, lost writes included |
| Reconciler.Reconciler.PollOne | internal/reconciler/reconciler.go:194-286 | one iteration with its continue and break paths |
| Reconciler.Reconciler.PollRows | internal/reconciler/reconciler.go:193-286 | the loop equals the recursion over the listed rows |
| Reconciler.Reconciler.Tick | internal/reconciler/reconciler.go:151-297 | a tick equals its specification; one that finds the lock taken changes only the status snapshot |
| Runs.StoreIsEventLog | internal/reconciler/reconciler.go:245-285 | between whole calls each row's status is the fold of its published events, imported and failed absorbing |
| Runs.LogAgreesAfterDelivery | internal/consumer/handler.go:85-149 | a delivery whose outcome is recorded keeps table and log together |
| Runs.LostPollPartsLog | internal/reconciler/reconciler.go:255-285 | a poll whose write is lost parts table and log if and only if it saw a transition |
| Runs.LostOutcomePartsLog | internal/consumer/handler.go:97-144 | a delivery whose outcome is lost keeps them together if and only if the row had ended or stays submitted for redelivery |
| Runs.CacheIsTable | internal/reconciler/reconciler.go:99-118 | between whole calls without Retry a remembered error of a live row is the row's error_text |
| Runs.SkippedWriteIsStampOnly | internal/reconciler/reconciler.go:227-234 | the upsert deduplication skips would have moved only last_polled and updated_at |
| Runs.LostErrorKeepsCacheIff | internal/reconciler/reconciler.go:215-242 | after a lost error write cache and row agree if and only if the row showed that error already |
| Runs.RetryKeepsCacheIff | internal/store/request.go:268-280 | after a Retry cache and row agree if and only if the cache held nothing for the row |
| Runs.ImportedIsResurrected | internal/store/request.go:268-280 | a request imported and announced as fulfilled is acknowledged again after a Retry |
| Runs.BrokenStreamLooksIdle | internal/store/request.go:157-166 | a tick whose row stream breaks before the first row polls nothing and reports success |
| Runs.TickConserves | internal/reconciler/reconciler.go:194-286 | a tick moves rows out of active exactly as it announces them fulfilled or failed, and adds or removes none |
| Runs.TickLeavesAlone | internal/reconciler/reconciler.go:202-204 | a tick leaves alone every row it did not list or that has no upstream id |
| Waiting.ListedAfterTick | internal/reconciler/reconciler.go:194-257 | a listed row is left unstamped if and only if it has no job or repeats a remembered error |
| Waiting.ListedIsPolled | internal/reconciler/reconciler.go:194-206 | a complete tick polls every listed row that has a job |
| Waiting.RankDrops | internal/store/request.go:148-151 | an unlisted row gains at least 200 minus the unstamped rows in places |
| Waiting.BoundedWaiting | internal/reconciler/reconciler.go:180-257 | a row with d rows ahead is polled or ends within n ticks once d < 200 + (n-1)(200-k) |
| Starvation.PolledWhateverIff | internal/reconciler/reconciler.go:180-257 | over undisturbed ticks a row with a job is polled whatever the upstream answers if and only if fewer than 200 rows without a job or with an error in the cache precede it |
| Starvation.PolledWhatever | internal/reconciler/reconciler.go:180-257 | with k such rows among the d before it, it is polled within n ticks once d < 200 + (n-1)(200-k), outages that end included |
| Starvation.PolledIff | internal/reconciler/reconciler.go:180-257 | when only certain rows are refused for good, it is polled if and only if fewer than 200 rows without a job or of those, already refused, precede it |
| Starvation.PolledIffJobless | internal/reconciler/reconciler.go:202-206 | while no error repeats, if and only if fewer than 200 rows without a job precede it |
| Starvation.PolledWithin | internal/reconciler/reconciler.go:180-257 | the same bound with k the rows without a job or with a cached error that the upstream may repeat, whichever those are |
| Starvation.Starved | internal/reconciler/reconciler.go:202-234 | behind 200 such rows it is never polled nor changed, whatever else the ticks meet |
| Starvation.StarvationReached | internal/reconciler/reconciler.go:202-204 | a sequence of deliveries after which a request with a job is never polled |
| ProtocolWaiting.PolledAmidOthers | internal/reconciler/reconciler.go:180-257 | the bound in small steps: with handlers of known requests, Mark failed, handler crashes and the clock running inside the ticks, a row with d rows before it, k of them without a job or with a cached error, is polled or ends within n ticks once d < 200 + (n-1)(200-k) |
| ProtocolWaiting.TickGains | internal/store/request.go:148-151 | an unlisted row gains a place for every listed row that had a job and no cached error, whatever others did meanwhile |
| Waiting.RetriedIsListedIff | internal/store/request.go:264-280 | a retried row is in the next listing if and only if fewer than 200 never-stamped live rows precede its id |
| Starvation.RetriedIsOvertaken | internal/store/request.go:264-280 | a reachable live row with a job that the next listing after its Retry does not hold |
| Waiting.AdminIsQuiet | internal/store/request.go:264-313 | Mark failed never disturbs the polling order; Retry leaves it alone if and only if the row is live and unstamped |
| Waiting.RedeliveryIsQuiet | internal/consumer/handler.go:85-149 | redeliveries of known requests never disturb the polling order |
| ProtocolRows.TerminalStability | internal/store/request.go:65-72 | in every interleaving an imported or failed row keeps its status unless an admin acts on it |
| ProtocolRows.ReachableRows | internal/reconciler/reconciler.go:202-256 | every step keeps: lifecycle status, id NULL or non-empty, id set wherever status or stamp says polled |
| ProtocolRows.RowsOfEveryRun | internal/store/request.go:64-113 | that holds of every row of every reachable state |
| ProtocolRows.ExternalIdNeverLost | internal/store/request.go:64-75 | an upstream id once set is never NULL again |
| ProtocolRows.NoLostRequest | internal/consumer/handler.go:80-149 | an addressed, complete event is unacknowledged or its row is settled, but for a job accepted without a name and announced as acknowledged |
| ProtocolRows.NoLostNamedRequest | internal/consumer/handler.go:80-149 | while the upstream names every job it accepts there is no exception |
| ProtocolRows.OutcomeSettlesIff | internal/consumer/handler.go:134-144 | recording the answer settles the row if and only if it named a job, failed, or the row was settled before |
| Losses.NeverPolled | internal/reconciler/reconciler.go:202-204 | a row without a job, and no message for it delivered again, is polled by no tick of any run |
| Losses.BlankAcceptanceIsLost | internal/ebookdb/monitoring.go:85-97 | the run in which that exception loses the request, with no tick of any continuation polling it |
| ProtocolIds.StoredIdsAreNamed | internal/store/request.go:64-104 | in every interleaving a stored upstream id is one the upstream named for that request |
| ProtocolIds.TickStoresListedId | internal/reconciler/reconciler.go:215-255 | a tick's write that goes through stores the id its listing had, whatever the row holds by then |
| IdRaces.IdStandsIff | internal/store/request.go:64-104 | without another delivery a stored id stands in every run if and only if no tick has a row listed with another id still to write and no handler of the request has yet to ask, hear or store another id |
| IdRaces.StaleIdIsRestored | internal/reconciler/reconciler.go:249-255 | a run whose last event names the redelivery's id while the row goes on with the one before |
| IdRaces.OverlapRestoresId | internal/consumer/handler.go:119-144 | two overlapping deliveries, no tick: the id the upstream named first is the one that stands |
| StatusRaces.StatusStandsIff | internal/store/request.go:65-72 | the status of a live row stands in every run that does not ask for a change if and only if no tick has a row listed with another status still to write and no handler of the request has yet to start over, ask, hear or write another outcome |
| StatusRaces.RunningJobIsGivenUp | internal/consumer/handler.go:85-133 | a run in which a redelivery takes a downloading row to submitted and to failed, its job never polled again unless retried |
| ProtocolRows.SettledForever | internal/store/request.go:264-288 | a settled row stays settled under every step, Retry included |
| ProtocolRows.UpstreamWorkIsTracked | internal/consumer/handler.go:80-90 | the upstream is never asked for a request the table does not hold |
| ProtocolRows.NotStuckAfterPoll | internal/store/request.go:235-245 | a polled row is not listed as stuck before the threshold has passed, unless retried |
| ProtocolLock.MutualExclusion | internal/reconciler/reconciler.go:151-162 | between a tick's lock and unlock no other tick lists, polls, parks, writes or publishes |
| ProtocolLock.WritesAreExclusive | internal/reconciler/reconciler.go:151-162 | a tick's step changes anything only while that tick holds the lock, and each of its writes leaves a mark |
| ProtocolLock.DroppedTick | internal/reconciler/reconciler.go:152-161 | an attempt that finds the lock taken sets the snapshot of a skipped run and touches nothing else |
| ProtocolLock.ParkHolds | internal/reconciler/reconciler.go:120-174 | after a rate limit no poll starts before its window ends, and the next window ends strictly later |
| ProtocolLock.SkippedOnlyWhileParked | internal/reconciler/reconciler.go:136-149 | a backoff skip happens within 600 s of the latest rate limit |
| ProtocolEvents.AmortisedTerminalEvents | internal/reconciler/reconciler.go:194-285 | the reconciler's terminal events for a request number at most 1 plus its retries plus its lost terminal writes |
| ProtocolEnds.EveryEndIsTold | internal/reconciler/reconciler.go:255-285 | in every interleaving, restarts included, the terminal statuses written, or tried, are those announced, those struck by a restart while due, and the one that may be due |
| ProtocolEnds.NothingUntoldIff | internal/reconciler/reconciler.go:255-285 | nothing goes unannounced if and only if every restart comes with nothing due |
| ProtocolEnds.ImportedIsToldIff | internal/reconciler/reconciler.go:255-267 | an imported request was announced as fulfilled, or is about to be, if and only if restarts struck fewer of its announcements than ticks marked it imported |
| ProtocolEnds.RestartLosesEvent | internal/reconciler/reconciler.go:255-267 | a restart in between loses that event: no tick of any continuation without a Retry publishes anything for the row |
| ProtocolEnds.NothingFollowsTheEnd | internal/reconciler/reconciler.go:255-285 | after a terminal status that was written at most one event of a tick follows before the next Retry |
| Refinement.DeliveryIsRun | internal/consumer/handler.go:85-149 | a whole delivery is a run of the handler's small steps: same table, events, upstream calls, marks and acknowledgement |
| Refinement.TickIsRun | internal/reconciler/reconciler.go:151-297 | a whole tick is a run of one attempt's small steps: same table, events, polls, memory, snapshot and returned error |
| Refinement.CallsAreRun | internal/reconciler/reconciler.go:151-297 | every sequence of whole calls is a run of small steps from the start |
| Refinement.RowsBetweenCalls | internal/store/request.go:64-113 | so the row invariant of reachable states holds between whole calls |

## Left out

- HTTP transport, redirects, body-size caps, stream proxying, catalog, covers, search, diagnostics and the admin page: no protocol state.
- The body of the add request (title, authors, format) and the rendering of rows as JSON: they do not feed back into the protocol.
- A fault of a statement that had in fact been applied: each statement applies whole or not at all, and no row is ever deleted.
- Overlapping Reconciler instances: a restart replaces the one instance and forgets its memory; reconfiguring while a tick of the old instance still runs is not modelled.
- Event transport: the event log is the sequence of Publish calls, the publisher is always present, and the upstream accepting a job twice on redelivery is not counted.
- Context deadlines: a spent tick budget is an early break chosen by the environment, a cancelled statement is a store fault.
- ILIKE and database collation: the search is any predicate over the two ids, and ids are ordered character by character.
- HTTP-dates in Retry-After are given as the time left until them, TrimSpace knows the six ASCII spaces, and error texts are any non-empty strings.
- Waiting.BoundedWaiting: a tick that is parked, rate-limited, cut off or hit by a store fault or a broken row stream does not count as one of the n.
- Runs.CacheIsTable: between whole calls only; inside a tick the cache is ahead of the row for the length of one statement.
