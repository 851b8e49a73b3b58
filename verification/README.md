# Models and proofs for the ComeBackHere backends

This project models the crash-safe, bounded and text-producing parts of the two
backends (the TypeScript service under `comebackhere-backend/` and the Rust service under
`backend/`) and proves properties of them for all inputs, all runs and all reachable
states. `dafny verify dfyconfig.toml` checks everything.

| module | what it models |
|---|---|
| `InvoiceIndexer` | the invoice event indexer as a protocol of single writes that can be cut by a crash anywhere, and the same poll as a class |
| `InvoiceStatuses`, `InvoiceCoverage`, `InvoiceOrder` | what holds in every run of it: statuses and hooks, nothing lost, ledger order |
| `TreasuryIndexer` | the treasury indexer: upserts, skipping of processed events, the batch and its cursor |
| `TreasuryTable` | what its table shows of the events applied to it |
| `TreasuryRuns`, `TreasuryWithoutTokens` | its runs of many batches and crashes, with paging tokens and without |
| `WebhookQueue`, `WebhookDelivery` | the delivery queue over process lifetimes, and the retry loop of one delivery |
| `WebhookConservation`, `WebhookBudget`, `WebhookRetries` | what holds in every run of the queue: which jobs are kept, how often they are sent, and what ends them |
| `Calendar`, `Analytics`, `InvoiceSeries` | UTC calendar arithmetic, day, week and month buckets, and the invoice series |
| `CivilDates` | what the calendar and the buckets are by a closed form of the civil calendar |
| `TokenAmount`, `InvoiceCsv`, `InvoicePaging` | decimal amounts, the CSV export with a reader of its format, and keyset pagination |
| `InvoiceListOrder` | what the invoice list shows, in numbers and characters |
| `Ipv4Networks`, `Ipv6Text`, `WebhookAddress` | which addresses webhooks may go to |
| `SlidingWindow`, `FixedWindow` | the two rate limiters |
| `AuditChain` | the hash-linked audit log |
| `Disputes`, `Idempotency` | dispute votes, and the store of idempotent answers |
| `RpcErrors`, `RpcRetry` | what a request to the node comes to, retries and failover |
| `Common`, `Numerals`, `Texts`, `Times` | shared datatypes, digit strings, splitting and joining, lists of times |

How the state is modelled. An indexer poll is a list of effects computed from the database
and the node's answer; a crash keeps a beginning of that list, so statements about every
beginning cover a crash at every point. A queue step is the code between two awaits, or the
completion of one database write; a process exits once drain has returned, whatever else is
still under way. The classes do the same writes one after another and are proved to do exactly
what the effects and steps say, and the lemmas are about runs of those. Clocks, random numbers,
responses and the database's answers are inputs.

Where code and comments disagree, the model follows the code:

- `comebackhere-backend/src/indexer.ts:329-333` says that a replay fires the hook if the
  process died after the mark. It does not; `InvoiceStatuses.PollLosesHook` says exactly when
  a hook is lost and `InvoiceStatuses.MarkedWithoutHook` gives a run.
- `comebackhere-backend/src/indexer.ts:492-493` takes every retention error for a resume point that
  has become too old. A node that lags behind gives the same one, and the cursor goes back:
  harmless for the order of application down to the last jump (`InvoiceOrder.RunFrontier`), and
  not behind it (`InvoiceOrder.LedBackBehindStart`).
- `comebackhere-backend/src/services/treasury-indexer.ts:168-175` calls the event id unique.
  Without paging tokens it is not: `TreasuryIndexer.FallbackIdIdentifies`.
- `comebackhere-backend/src/routes/analytics.ts:52` promises the start of the bucket. For the
  years 0 to 99 `Date.UTC` counts from 1900: `Analytics.TruncateExact`, `Analytics.PeriodsExact`.
- `comebackhere-backend/src/services/webhook-delivery.ts:520-523` says that drain persists
  every unfinished job. A job that a resume has taken, or that is enqueued after the abort, can
  be lost: `WebhookConservation.RunConserves` says exactly when, and two runs show it.
- `comebackhere-backend/src/services/treasury-indexer.ts:311-312` moves the cursor to the node's
  latest ledger although a page holds at most 100 events. Without paging tokens that passes
  events over: `TreasuryRuns.NothingPassedOver` says exactly when, and
  `TreasuryRuns.TokenlessEventPassedOver` gives a run.
- `backend/src/auth.rs:130-133` says that any modification and deletion is detected. Dropping
  the last records is not (`AuditChain.OnlyBeginningsAccepted`), and a record is protected
  exactly if its texts hold no separator (`AuditChain.ReplacementShows`).
- `backend/src/soroban.rs:90-95` describes transport failures as endpoints that could not be
  reached. An answer whose body cannot be decoded counts as one too (`RpcRetry.FailoverExact`).
- `backend/src/soroban.rs:254` treats server errors as transient. Four of them are, by the digits
  in their text (`RpcErrors.ServerErrorRetried`).

What the environment is assumed to do:

- The node serves the contract's events in ledger order, its tokens are honest about what they
  cover, and its latest ledger does not fall behind the one last saved (`InvoiceCoverage.HonestPage`).
  At most one held event and the order of application also need that no poll is led behind the
  last jump (`InvoiceOrder.Onward`); that nothing is lost does not.
- For runs of the treasury indexer, the node has everything up to its latest ledger
  (`TreasuryRuns.Honest`), and a transaction is part of one ledger
  (`TreasuryWithoutTokens.IdInOneLedger`).
- Invoices exist before their events, and no one else writes their status.
- The database groups and sorts as documented (`InvoiceSeries.Grouped`, `InvoicePaging.Sort`),
  invoice ids are unique and creation times do not change.
- Requests to a limiter come at nondecreasing times.

## Model

| member | source | states |
|---|---|---|
| `InvoiceStatuses.RunKeeps` | comebackhere-backend/src/indexer.ts:290-341 | In every run, with the process dying between any two writes, each hook has run at most once and only for an applied event, and the table of statuses is the fold over the initial one of the applied events in the order of their marks, with stored but unmarked events between them |
| `InvoiceStatuses.RunStatuses` | comebackhere-backend/src/indexer.ts:278-327 | In every run from an empty event store an invoice is Paid, Expired, Cancelled or Released exactly as the last written event about it that is not a creation says, and keeps its initial status without one; with no half-done event those are the applied ones |
| `InvoiceStatuses.PollLosesHook` | comebackhere-backend/src/indexer.ts:329-341 | A poll leaves one more applied event without its hook exactly when the process dies right after the mark; nothing applied before is ever hooked again |
| `InvoiceStatuses.SkippedHookNeverRuns` | comebackhere-backend/src/indexer.ts:318-339 | A hook skipped by such a crash is skipped in every later run |
| `InvoiceStatuses.MarkedWithoutHook` | comebackhere-backend/src/indexer.ts:329-339 | The re-fire that the comment promises does not happen: a poll that dies after its third write leaves an applied event that no run hooks |
| `InvoiceCoverage.RunLosesNothing` | comebackhere-backend/src/indexer.ts:463-551 | For every honest node and every crash pattern, every tracked event from the first saved cursor's start up to the resume point is applied or lies in a recorded gap |
| `InvoiceCoverage.ConfiguredStartLosesNothing` | comebackhere-backend/src/indexer.ts:442-447 | With a configured start ledger the same holds from that ledger on, cursor or no cursor |
| `InvoiceOrder.RunFrontier` | comebackhere-backend/src/indexer.ts:456-559 | As long as the node leads no poll behind the last ledger that processing has jumped to, events are applied in ledger order and at most one event from that ledger on is stored without being applied |
| `InvoiceOrder.FreshRun` | comebackhere-backend/src/indexer.ts:456-559 | All of the above together for every run from an empty event store; if no event is held before the origin or in a recorded gap, the statuses are those of the applied events and at most one other |
| `InvoiceOrder.ConfiguredRun` | comebackhere-backend/src/indexer.ts:442-447 | With a configured start ledger and no recorded gap, the statuses are those of the applied events and at most one other |
| `InvoiceOrder.SkippedHeldEvent` | comebackhere-backend/src/indexer.ts:480-507 | A skip that passes a half-done event: a run in which two events have written a status without being applied, the first of them in the recorded gap |
| `InvoiceOrder.LedBackBehindStart` | comebackhere-backend/src/lib/soroban.ts:324-347 | A node that lags behind the cursor leads it back behind the start: a run in which an earlier event is applied after a later one |
| `InvoiceCoverage.SkipLosesNothing` | comebackhere-backend/src/indexer.ts:488-507 | Recording the gap before moving the cursor accounts for every skipped event, wherever the process dies in between |
| `InvoiceCoverage.NextStartsInPage` | comebackhere-backend/src/indexer.ts:538-551 | The saved cursor resumes at the end of the page or falls back to the start of a ledger in or before it, also without a token and after an empty page |
| `InvoiceCoverage.HonestPageExact` | comebackhere-backend/src/indexer.ts:538-549 | What is assumed of a page, in the node's own terms: the next events, at most a hundred, and a token just after them; the indexer saves that token, and takes its ledger from the bits above the low 32 |
| `InvoiceCoverage.EventIdsFit` | comebackhere-backend/src/lib/soroban.ts:370-374 | Growing event ids that begin with their ledgers make such tokens |
| `InvoiceIndexer.Indexer.constructor` | comebackhere-backend/src/indexer.ts:456-466 | A new indexer stands for an empty event store |
| `InvoiceIndexer.Indexer.Upsert` | comebackhere-backend/src/indexer.ts:298-317 | The event is stored unless one with its id is, and the answer says whether that one was applied |
| `InvoiceIndexer.Indexer.UpdateStatus` | comebackhere-backend/src/indexer.ts:321-327 | The invoice gets the event's status, if there is such an invoice |
| `InvoiceIndexer.Indexer.Mark` | comebackhere-backend/src/indexer.ts:334-337 | The stored event becomes applied |
| `InvoiceIndexer.Indexer.RecordTransition` | comebackhere-backend/src/indexer.ts:290-341 | The writes for one event in their order, cut where the process dies; new exactly when the event was not applied before |
| `InvoiceIndexer.Indexer.HandleEvents` | comebackhere-backend/src/indexer.ts:510-536 | The loop over a page performs the page's plan and counts the newly applied events |
| `InvoiceIndexer.Indexer.SkipAhead` | comebackhere-backend/src/indexer.ts:498-506 | Gap first, cursor second |
| `InvoiceIndexer.Indexer.FinishPage` | comebackhere-backend/src/indexer.ts:510-551 | Every event of the page first, the cursor last |
| `InvoiceIndexer.Indexer.PollOnce` | comebackhere-backend/src/indexer.ts:456-559 | One poll, write by write, is the plan the lemmas about runs speak of |
| `TreasuryIndexer.BatchClosedForm` | comebackhere-backend/src/services/treasury-indexer.ts:86-166 | Every field of every settlement after a batch is decided by the last event of the batch that sets it |
| `TreasuryTable.TableShows` | comebackhere-backend/src/services/treasury-indexer.ts:86-166 | Every table built from an empty one: Executed, with the hash of the last execution, exactly after one and Pending otherwise; merchant, token, amount of the last proposal and none, none and 0 without one; signers exactly the approvers, each once; no hold reason |
| `TreasuryIndexer.BatchIdempotent` | comebackhere-backend/src/services/treasury-indexer.ts:86-166 | Replaying a complete batch changes nothing |
| `TreasuryIndexer.ReplayConverges` | comebackhere-backend/src/services/treasury-indexer.ts:186-312 | Any number of crashed attempts at prefixes of a batch, then the batch, give the table of the batch alone |
| `TreasuryIndexer.ExecutedAndApprovalsStay` | comebackhere-backend/src/services/treasury-indexer.ts:116-166 | No batch un-executes a settlement, drops it, or drops, repeats or reorders an approval |
| `TreasuryIndexer.FallbackIdIdentifies` | comebackhere-backend/src/services/treasury-indexer.ts:168-184 | Without paging tokens two events share an id exactly if transaction, type and settlement agree |
| `TreasuryIndexer.EventIdSpelled` | comebackhere-backend/src/services/treasury-indexer.ts:168-184 | The id of an event is its paging token, or else its transaction, type and settlement between colons |
| `TreasuryIndexer.SecondApprovalInTransactionIsSkipped` | comebackhere-backend/src/services/treasury-indexer.ts:168-237 | So the id is not unique: of two approvals of a settlement in one transaction the second is skipped |
| `TreasuryIndexer.SavedBatchIsSkipped` | comebackhere-backend/src/services/treasury-indexer.ts:49-84 | A saved batch is skipped on replay exactly if none of its events that had been applied earlier lost its id when the list was cut to 1000 |
| `TreasuryIndexer.Indexer.ProcessEvent` | comebackhere-backend/src/services/treasury-indexer.ts:86-166 | The three upserts on the table |
| `TreasuryIndexer.Indexer.ApplyEvents` | comebackhere-backend/src/services/treasury-indexer.ts:216-309 | The loop applies a prefix of the unprocessed events, all of them if the process lives |
| `TreasuryIndexer.Indexer.ProcessIndexerBatch` | comebackhere-backend/src/services/treasury-indexer.ts:186-322 | The cursor moves only after the whole batch, to the last token and the latest ledger, keeping 1000 ids |
| `TreasuryRuns.TokensExact` | comebackhere-backend/src/services/treasury-indexer.ts:186-322 | If every event has a paging token, a complete batch after any number of batches, crashed ones among them, leaves the table that the events before the cursor make, each applied once |
| `TreasuryRuns.NothingPassedOver` | comebackhere-backend/src/services/treasury-indexer.ts:194-312 | Over every run, all events up to the cursor were in the page of a complete batch exactly if no batch without tokens left more than a page before the node's latest ledger, to which the cursor moves |
| `TreasuryRuns.TokenlessEventPassedOver` | comebackhere-backend/src/services/treasury-indexer.ts:311-312 | Of 102 events without tokens one batch fetches a hundred and moves to ledger 102: the event of ledger 101 is fetched by no continuation of the run |
| `TreasuryRuns.WholeIsHonestRun` | comebackhere-backend/src/services/treasury-indexer.ts:194-209 | That batch is one an honest node serves |
| `TreasuryWithoutTokens.WithoutTokensExact` | comebackhere-backend/src/services/treasury-indexer.ts:186-322 | Without tokens and without such a batch, a complete batch after any number of batches, crashed ones among them, leaves the table that the fetched events make, the first one of each id |
| `TreasuryRuns.NextStart` | comebackhere-backend/src/services/treasury-indexer.ts:194-312 | Where the next batch begins: never further back, and behind the page only without tokens |
| `WebhookConservation.StepConserves` | comebackhere-backend/src/services/webhook-delivery.ts:455-578 | Within a process every step keeps every submitted key active, deferred, being written, taken by a resume, stored, dead-lettered or delivered |
| `WebhookConservation.ExitConserves` | comebackhere-backend/src/shutdown.ts:71-94 | An exit that has waited for drain keeps every key exactly if each one that a resume has taken, or that a late enqueue is writing, is stored or delivered as well |
| `WebhookConservation.RunConserves` | comebackhere-backend/src/services/webhook-delivery.ts:455-578 | Over every interleaving of deliveries, writes, drains, resumes, replays and exits, no submitted key is ever lost exactly if every exit is safe in that sense |
| `WebhookConservation.QuietExitsAreSafe` | comebackhere-backend/src/shutdown.ts:71-94 | It is if every exit finds no resume under way and no late write open |
| `WebhookConservation.ShutdownDuringResumeLosesJob` | comebackhere-backend/src/index.ts:47-50 | A drain between taking the stored jobs and enqueuing them again loses the job of every process that starts with one |
| `WebhookConservation.LateResumeLosesJob` | comebackhere-backend/src/services/webhook-delivery.ts:455-470 | So does a resume that enqueues after the abort, since nobody waits for the write it starts |
| `WebhookConservation.DrainReports` | comebackhere-backend/src/services/webhook-delivery.ts:524-552 | What drain reports as completed and the jobs still active add up to the jobs active at its start, and the active and deferred ones are being written then |
| `WebhookConservation.WrittenWhenDrained` | comebackhere-backend/src/services/webhook-delivery.ts:543-545 | With the resume over, whatever drain writes is stored when drain has returned |
| `WebhookConservation.DrainOnlyFinishes` | comebackhere-backend/src/services/webhook-delivery.ts:524-542 | While drain waits, deliveries only leave the active set, and only once delivered or dead-lettered |
| `WebhookBudget.RunBudget` | comebackhere-backend/src/services/webhook-delivery.ts:166-226 | Over all drains, resumes and restarts a job has at most one live copy, and its attempt counter, its own history records and the posts made agree |
| `WebhookBudget.PostsBounded` | comebackhere-backend/src/services/webhook-delivery.ts:475-496 | At most maxAttempts posts per submission and per replay |
| `WebhookRetries.DeadLettersUsedUp` | comebackhere-backend/src/services/webhook-delivery.ts:180-228 | In every run a delivery is given up, and a job dead-lettered, only after all its attempts: its counter is maxAttempts and so many posts were made for it |
| `WebhookRetries.SuccessDelivers` | comebackhere-backend/src/services/webhook-delivery.ts:180-226 | From every reachable state an active delivery that fails n times and then succeeds, with attempts for that and no abort, is delivered after exactly n + 1 more posts, numbered on in its history, whatever else happens between |
| `WebhookRetries.FailuresRetry` | comebackhere-backend/src/services/webhook-delivery.ts:219-228 | After n failures it is given up exactly if they use up its attempts, and otherwise tries again |
| `WebhookRetries.NoneLeft` | comebackhere-backend/src/services/webhook-delivery.ts:180-228 | A job that comes with no attempts left is given up without a post |
| `WebhookRetries.SubmitStarts` | comebackhere-backend/src/services/webhook-delivery.ts:455-496 | A new payload is started at once with no attempts, or deferred while drain waits |
| `WebhookRetries.ReplayStarts` | comebackhere-backend/src/services/webhook-delivery.ts:566-578 | A replay starts the dead letter it has read, with no attempts and its history, and leaves it stored |
| `WebhookRetries.ResumeStarts` | comebackhere-backend/src/services/webhook-delivery.ts:555-563 | A resume starts all the jobs it took, in their order, with the attempts and histories they have |
| `WebhookRetries.StoredSentAgain` | comebackhere-backend/src/services/webhook-delivery.ts:372-382 | All that the store holds when a process ends is sent again by the next one, every job from where it stood, and nothing of it is left stored |
| `WebhookRetries.LetterRead` | comebackhere-backend/src/services/webhook-delivery.ts:566-573 | What a replay reads is the dead letter of its key |
| `WebhookRetries.DeadLetterStored` | comebackhere-backend/src/services/webhook-delivery.ts:497-505 | A delivery given up is stored as a dead letter with all it has and then let go of |
| `WebhookRetries.DeliveredLetGo` | comebackhere-backend/src/services/webhook-delivery.ts:497-505 | A delivery that succeeded is let go of, and exactly a replay's dead letter is deleted after it |
| `WebhookQueue.WebhookDeliveryQueue.constructor` | comebackhere-backend/src/services/webhook-delivery.ts:433-440 | A new queue accepts and holds nothing |
| `WebhookQueue.WebhookDeliveryQueue.SavePending` | comebackhere-backend/src/services/webhook-delivery.ts:357-371 | The stored job with the same key is replaced in place, any other is added |
| `WebhookQueue.WebhookDeliveryQueue.EnqueueJob` | comebackhere-backend/src/services/webhook-delivery.ts:455-510 | Started, deferred or handed to a write nobody waits for, by the phase of the queue |
| `WebhookQueue.WebhookDeliveryQueue.SubmitPayload` | comebackhere-backend/src/services/webhook-delivery.ts:455-510 | A new job with no attempts and no history is enqueued under its key |
| `WebhookQueue.WebhookDeliveryQueue.SaveDeadLetterOf` | comebackhere-backend/src/services/webhook-delivery.ts:497-503 | A delivery out of attempts is dead-lettered under its key before it is let go of |
| `WebhookQueue.WebhookDeliveryQueue.BeginDrain` | comebackhere-backend/src/services/webhook-delivery.ts:513-527 | The queue closes and drain remembers how many deliveries are active |
| `WebhookQueue.WebhookDeliveryQueue.FinishDrainWrite` | comebackhere-backend/src/services/webhook-delivery.ts:357-371 | One of the writes drain waits for reaches the store, in any order |
| `WebhookQueue.WebhookDeliveryQueue.FinishLateWrite` | comebackhere-backend/src/services/webhook-delivery.ts:465-467 | A write of a late enqueue reaches the store |
| `WebhookQueue.WebhookDeliveryQueue.ActiveJobs` | comebackhere-backend/src/services/webhook-delivery.ts:540-541 | The jobs of the active deliveries in their order |
| `WebhookQueue.WebhookDeliveryQueue.ReadPending` | comebackhere-backend/src/services/webhook-delivery.ts:372-377 | takeAll reads what is stored |
| `WebhookQueue.WebhookDeliveryQueue.DeletePending` | comebackhere-backend/src/services/webhook-delivery.ts:378-382 | And then deletes what has the keys it read |
| `WebhookQueue.WebhookDeliveryQueue.ResumeTaken` | comebackhere-backend/src/services/webhook-delivery.ts:555-563 | The jobs taken are enqueued with their attempts and histories, without an await between them |
| `WebhookQueue.WebhookDeliveryQueue.BeginAttempt` | comebackhere-backend/src/services/webhook-delivery.ts:180-199 | Counter and history move before the request is sent; no attempt once aborted or used up |
| `WebhookQueue.WebhookDeliveryQueue.EndAttempt` | comebackhere-backend/src/services/webhook-delivery.ts:200-228 | A 2xx response delivers; any other outcome retries or, after the last attempt, fails |
| `WebhookQueue.WebhookDeliveryQueue.ReleaseEntry` | comebackhere-backend/src/services/webhook-delivery.ts:497-505 | A finished delivery leaves the active set |
| `WebhookQueue.WebhookDeliveryQueue.DeleteReplayed` | comebackhere-backend/src/services/webhook-delivery.ts:574-577 | A delivered replay deletes its dead letter, after a further await |
| `WebhookQueue.WebhookDeliveryQueue.InFlightCount` | comebackhere-backend/src/services/webhook-delivery.ts:446-448 | The number of active deliveries |
| `WebhookQueue.WebhookDeliveryQueue.AbortDrain` | comebackhere-backend/src/services/webhook-delivery.ts:538-551 | Aborts, starts writing the active and deferred jobs and reports both numbers |
| `WebhookQueue.WebhookDeliveryQueue.ReadDeadLetter` | comebackhere-backend/src/services/webhook-delivery.ts:571-572 | The dead letter is read and stays |
| `WebhookQueue.WebhookDeliveryQueue.ReplayLetter` | comebackhere-backend/src/services/webhook-delivery.ts:573-574 | It is enqueued again with no attempts and its whole history |
| `WebhookDelivery.DeliverWebhook` | comebackhere-backend/src/services/webhook-delivery.ts:144-234 | When the loop stops, with which record, one history record per post, and a backoff after every failure but the last possible |
| `WebhookDelivery.BackoffBounds` | comebackhere-backend/src/services/webhook-delivery.ts:219-223 | Every delay lies in [0, maxDelayMs] and in the jitter band around the capped exponential |
| `WebhookDelivery.BackoffExact` | comebackhere-backend/src/services/webhook-delivery.ts:219-223 | The delay is the nearest integer to the exponential times a factor that runs evenly over the jitter band, or the cap |
| `WebhookDelivery.RecordExact` | comebackhere-backend/src/services/webhook-delivery.ts:200-217 | A history record has its attempt's number and code, and failed unless that is from 200 to 299 |
| `WebhookDelivery.ExponentialGrows` | comebackhere-backend/src/services/webhook-delivery.ts:220-220 | The exponential part doubles until the cap and stays there |
| `Analytics.TruncateExact` | comebackhere-backend/src/routes/analytics.ts:53-63 | Truncation gives the start of the bucket exactly for years other than 0 to 99; for those it lands after the instant |
| `CivilDates.BucketStartExact` | comebackhere-backend/src/routes/analytics.ts:53-63 | By the civil calendar in closed form, from the year 100 on a bucket starts at midnight of the day, of the Monday, or of the first day of the month of the instant |
| `CivilDates.PeriodExact` | comebackhere-backend/src/routes/analytics.ts:73-85 | A listed period of four-digit years reads as year, month and date, in that order and with its dashes, of the civil date of its bucket's first day |
| `Analytics.NextBucketExact` | comebackhere-backend/src/routes/analytics.ts:65-71 | From a bucket start the next bucket start follows, over month and year ends and leap days |
| `Analytics.PeriodKeyInjective` | comebackhere-backend/src/routes/analytics.ts:73-75 | Within four-digit years a period key names one day |
| `Analytics.ListPeriods` | comebackhere-backend/src/routes/analytics.ts:78-85 | The loop lists the periods, giving up after one more than the limit |
| `Analytics.PeriodsAreStarts` | comebackhere-backend/src/routes/analytics.ts:78-85 | From the year 100 on the list has the keys of the bucket starts of the range |
| `Analytics.PeriodsExact` | comebackhere-backend/src/routes/analytics.ts:53-85 | Within the years 0 to 9999 it does exactly if the range and its first bucket do not start in the years 0 to 99, up to a single week that starts in the year 99 |
| `Analytics.EachInstantListedOnce` | comebackhere-backend/src/routes/analytics.ts:53-85 | Within the years 0 to 9999 and the limit, every instant of a range truncates to exactly one listed period exactly if the list is right, which the range alone decides |
| `Analytics.BucketsTile` | comebackhere-backend/src/routes/analytics.ts:77-85 | The listed buckets are in order, every instant of the range lies in one of them, and each has such an instant |
| `Analytics.StartsComplete` | comebackhere-backend/src/routes/analytics.ts:77-85 | Below the limit the list has every bucket start of the range, and each once |
| `Calendar.DayFromYearClosedForm` | comebackhere-backend/src/routes/analytics.ts:53-71 | Adding up year lengths agrees with the day formula of section 21.4.1.3 of ECMA-262 |
| `Calendar.MakeDayRoundTrip` | comebackhere-backend/src/routes/analytics.ts:53-71 | Taking a day apart into year, month and date and making a day of them again gives the day |
| `CivilDates.DateExact` | comebackhere-backend/src/routes/analytics.ts:53-71 | Year, month and date of a day satisfy the closed form that counts months from March, with a date from 1 on and below the start of the next month |
| `CivilDates.DateUnique` | comebackhere-backend/src/routes/analytics.ts:53-71 | And they are the only ones that do |
| `InvoiceSeries.BuildSeries` | comebackhere-backend/src/routes/analytics.ts:91-134 | One point per listed period, from the last row with its key, zeros without one |
| `InvoiceSeries.SeriesAddsUp` | comebackhere-backend/src/routes/analytics.ts:91-134 | Within the years 0 to 9999 and the limit, for all invoices the counts of the series add up to the number of matched invoices and the volumes to their settled total, exactly if the list is right |
| `InvoiceSeries.OneMoreInvoice` | comebackhere-backend/src/routes/analytics.ts:91-126 | One invoice more counts one exactly if it is in the range and of the merchant and token asked for, and adds its amount exactly if it is Paid or Released as well |
| `InvoiceSeries.PointRight` | comebackhere-backend/src/routes/analytics.ts:128-133 | A point has the count and settled volume of exactly its bucket's invoices |
| `TokenAmount.FormatDenotes` | comebackhere-backend/src/routes/invoices.ts:219-226 | Read as a decimal number the text is the amount without rounding, for every amount if decimals is not negative; for negative decimals only zero comes out right |
| `TokenAmount.FormatCanonical` | comebackhere-backend/src/routes/invoices.ts:219-226 | No needless leading zero, no trailing zero of the fraction, no minus before zero |
| `TokenAmount.FormatInjective` | comebackhere-backend/src/routes/invoices.ts:219-226 | Different amounts are printed differently |
| `InvoiceCsv.ExportReadsBack` | comebackhere-backend/src/routes/invoices.ts:233-268 | Reading the export by section 2 of RFC 4180 gives the header and the ten sanitised texts of every invoice, whatever characters they hold |
| `InvoiceCsv.ExportShows` | comebackhere-backend/src/routes/invoices.ts:240-268 | Row i + 1 of the file as it is read shows invoice i, every value under the heading of its column, the amount in the token's own unit or with seven decimals and its name |
| `InvoiceCsv.FieldReadBack` | comebackhere-backend/src/routes/invoices.ts:233-238 | One escaped field is read back to its text, up to the comma or line break after it |
| `InvoiceCsv.NoFormula` | comebackhere-backend/src/routes/invoices.ts:236-236 | No string is written so that it starts like a formula |
| `InvoiceCsv.SanitiseForgets` | comebackhere-backend/src/routes/invoices.ts:236-236 | Two texts are sanitised alike exactly if they are equal or one is the other, a formula, with the apostrophe in front |
| `InvoiceCsv.AmountField` | comebackhere-backend/src/routes/invoices.ts:253-268 | The amount column is the printed amount and its symbol, with an apostrophe exactly for negative amounts |
| `InvoiceCsv.ExportCsv` | comebackhere-backend/src/routes/invoices.ts:314-365 | What the client gets when the rows end, it goes away, or the database fails before or after the first row |
| `InvoiceCsv.DownloadReads` | comebackhere-backend/src/routes/invoices.ts:314-365 | What arrived reads as the header and the rows of the first invoices, up to where the client went away; when it is complete, cut off or an error instead |
| `InvoicePaging.CursorRoundTrip` | comebackhere-backend/src/routes/invoices.ts:161-184 | A cursor is taken back exactly for invoices created from 1970 on, within the range of dates, with an id, and then gives back their key |
| `InvoiceListOrder.CursorsTaken` | comebackhere-backend/src/routes/invoices.ts:168-184 | Which decoded cursors are taken, by the numbers, and which key each stands for |
| `InvoiceListOrder.RouteExact` | comebackhere-backend/src/routes/invoices.ts:436-483 | The answer is exactly the part of the list that the query's numbers name, twenty rows unless it says otherwise and a hundred at most, of the table's rows with the status and merchant asked for, newest first and by ids, in characters, at equal times |
| `InvoicePaging.ListInvoices` | comebackhere-backend/src/routes/invoices.ts:440-483 | The page after the cursor, or after the offset of the deprecated parameters, and the next cursor; an error exactly for an invalid cursor |
| `InvoicePaging.CursorPage` | comebackhere-backend/src/routes/invoices.ts:463-483 | Without page and offset the answer is the page after the cursor that the walks are made of |
| `InvoicePaging.PageKeeps` | comebackhere-backend/src/routes/invoices.ts:463-482 | A page holds matching rows after its cursor in order, and leaves out only rows after its next cursor |
| `InvoicePaging.WalkDescends` | comebackhere-backend/src/routes/invoices.ts:463-482 | However the collection changes between the pages, a walk returns rows in strictly descending order |
| `InvoiceListOrder.FirstPageNewest` | comebackhere-backend/src/routes/invoices.ts:477-483 | On the first page times fall, and at equal times ids, at the first character that differs; every wanted row left out is older than all rows on it, and none is left out before it is full |
| `InvoiceListOrder.WalkNewestFirst` | comebackhere-backend/src/routes/invoices.ts:463-483 | So it is over all the pages of a walk, however the collection changes; every row is older than the cursor and has the status and merchant asked for |
| `InvoicePaging.NoneTwice` | comebackhere-backend/src/routes/invoices.ts:463-482 | So it returns no invoice id twice, if every id keeps its creation time over the changes |
| `InvoicePaging.WalkComplete` | comebackhere-backend/src/routes/invoices.ts:463-482 | A walk that came to its end returned every invoice that was there throughout |
| `InvoicePaging.QuietWalk` | comebackhere-backend/src/routes/invoices.ts:463-482 | Without changes the walk ends after as many pages as the rows fill, which put together are the whole sorted list |
| `SlidingWindow.Bucket.CheckAndRecord` | backend/src/rate_limiter.rs:88-107 | The new list and the answer, in terms of the old list |
| `SlidingWindow.BucketIsWindow` | backend/src/rate_limiter.rs:88-107 | The bucket is the list of the admitted times less than a window old |
| `SlidingWindow.WindowBound` | backend/src/rate_limiter.rs:88-107 | Every interval as long as the window holds at most max admitted requests |
| `SlidingWindow.RetryExact` | backend/src/rate_limiter.rs:96-101 | A refused caller alone is admitted after a delay exactly if it is no shorter than the wait returned, which is positive and at most a window |
| `SlidingWindow.RemainingExact` | backend/src/rate_limiter.rs:102-106 | As many more requests at the same instant are admitted as `remaining` says, and no more |
| `SlidingWindow.PanicExact` | backend/src/rate_limiter.rs:96-98 | The index into the list panics exactly with a maximum of zero |
| `FixedWindow.RateLimitStore.CheckRateLimit` | backend/src/auth.rs:422-447 | The new entry of the key and the answer; other keys keep theirs |
| `FixedWindow.WindowLimit` | backend/src/auth.rs:422-447 | At most `limit` requests are counted in one window |
| `FixedWindow.IntervalBound` | backend/src/auth.rs:422-447 | Any interval as long as the window admits fewer than twice the limit |
| `FixedWindow.BurstAtTheEdge` | backend/src/auth.rs:433-436 | That bound is met for every limit, by one request, the rest of the limit at the end of its window, and the whole limit at once |
| `FixedWindow.WaitExact` | backend/src/auth.rs:438-442 | The seconds returned are the least whole number after which the next request is admitted, although elapsed time is truncated |
| `AuditChain.AuditLog.Append` | backend/src/auth.rs:105-132 | The record added continues sequence and hash link |
| `AuditChain.VerifyAuditChain` | backend/src/auth.rs:134-165 | Accepts exactly the chains with all numbers, links and hashes right, and otherwise reports the first wrong record and what is wrong |
| `AuditChain.LogAccepted` | backend/src/auth.rs:105-165 | Every chain built by appends is accepted, whatever the hash |
| `AuditChain.LogRecords` | backend/src/auth.rs:105-132 | Record i of a log has the actor, action and time of action i |
| `AuditChain.PreimageSpelled` | backend/src/auth.rs:82-99 | The hashed bytes: eight worth the number, lowest first, the three texts with a separator after each, and the last hash |
| `AuditChain.FirstLink` | backend/src/auth.rs:111-114 | The first record is linked to sixty-four zeros |
| `AuditChain.OnlyBeginningsAccepted` | backend/src/auth.rs:134-165 | Of all selections and reorderings of an accepted chain exactly its beginnings are accepted, whatever the hash |
| `AuditChain.LastHashCommits` | backend/src/auth.rs:82-99 | With an injective hash that writes no separators, an accepted chain is the only accepted one with its last hash exactly if none of its texts holds a separator; nothing is asked of the other chains |
| `AuditChain.ReplacementShows` | backend/src/auth.rs:134-165 | With an injective hash, a record before the last can be replaced by no other one, whatever its texts and its hash, exactly if its own texts hold no separator |
| `AuditChain.SeparatorHidesChange` | backend/src/auth.rs:90-97 | Whatever the hash, every record with a separator in a text can be changed in an accepted chain that stays accepted and keeps its last hash |
| `AuditChain.MovedKeepsPreimage` | backend/src/auth.rs:82-99 | The changed record is another one with the same hashed bytes |
| `Ipv4Networks.BlockedIntervals` | comebackhere-backend/src/services/webhook-http.ts:15-38 | The mask tests say exactly whether the address lies between the first and the last one of a listed network |
| `Ipv4Networks.BlockedExactly` | comebackhere-backend/src/services/webhook-http.ts:15-38 | The blocked addresses by their octets |
| `Ipv6Text.EveryFormRead` | comebackhere-backend/src/services/webhook-http.ts:40-56 | Every form of section 2.2 of RFC 4291, in either case, compressed or not, with or without dotted quad and zone, is read as the number its eight groups make |
| `WebhookAddress.BlockedIpv4Exactly` | comebackhere-backend/src/services/webhook-http.ts:11-38 | An IPv4 address as written is blocked exactly by its octets |
| `WebhookAddress.BlockedFormExactly` | comebackhere-backend/src/services/webhook-http.ts:58-80 | However an IPv6 address is written, it is blocked exactly by its groups; mapped addresses by their last four octets |
| `Disputes.DisputeStore.CastVote` | comebackhere-backend/src/routes/disputes.ts:385-430 | The new tally and the answer, with the conflicts and the missing dispute |
| `Disputes.DisputeStore.Create` | comebackhere-backend/src/routes/disputes.ts:500-535 | A new dispute under an unused id, with the first free time from now on; nothing else changes |
| `Disputes.RunAddsUp` | comebackhere-backend/src/routes/disputes.ts:395-408 | After every run of votes each weight is the sum of the stored votes for its side, one per signer |
| `Disputes.VoteAnswered` | comebackhere-backend/src/routes/disputes.ts:389-419 | The answer to a vote after any others: the outcome if there is one, a refusal exactly if the signer has asked before, and otherwise it is stored after the others and counted |
| `Disputes.RunOutcome` | comebackhere-backend/src/routes/disputes.ts:410-418 | With a positive threshold, whole or not, a dispute is open exactly while both sides are below it, and otherwise resolved for the only side that is not |
| `Disputes.ThresholdExact` | comebackhere-backend/src/routes/disputes.ts:45-45 | That holds for every run exactly if the threshold is positive, of all that Number can make of the variable |
| `Disputes.FirstVoteWins` | comebackhere-backend/src/routes/disputes.ts:413-417 | With a threshold of zero or less the first vote resolves for the claimant, whichever side it is for |
| `Disputes.NaNNeverResolves` | comebackhere-backend/src/routes/disputes.ts:410-418 | With a threshold that is no number no votes resolve a dispute |
| `Disputes.ResolvedStays` | comebackhere-backend/src/routes/disputes.ts:391-401 | A resolved dispute never changes again |
| `Disputes.IdsDiffer` | comebackhere-backend/src/routes/disputes.ts:511-513 | An id names one settlement and one time |
| `Idempotency.IdempotencyStore.Get` | backend/src/idempotency.rs:61-75 | A live entry with the same payload hash, a mismatch, or a miss that removes an expired entry |
| `Idempotency.IdempotencyStore.Insert` | backend/src/idempotency.rs:78-88 | The entry replaces any other of its key |
| `Idempotency.IdempotencyStore.PurgeExpired` | backend/src/idempotency.rs:131-133 | Exactly the live entries stay |
| `Idempotency.AnswersAreIdeal` | backend/src/idempotency.rs:54-133 | At nondecreasing times every lookup answers as an ideal store of the last insert per key within its time to live |
| `Idempotency.LookupRight` | backend/src/idempotency.rs:54-88 | Every lookup gives the answer last stored under its key while that is younger than the time to live, a mismatch if it was stored for another payload, and nothing otherwise |
| `Idempotency.PurgesDoNotShow` | backend/src/idempotency.rs:131-133 | Purges, wherever they run, change no answer |
| `Idempotency.KeysDiffer` | backend/src/idempotency.rs:54-56 | Keys of endpoints without colons never collide |
| `Idempotency.ColonsCollide` | backend/src/idempotency.rs:54-56 | Two different endpoints can have a key in common exactly if one is the other, a colon and an id, and then nothing or a colon and more |
| `RpcRetry.WithRetry` | backend/src/soroban.rs:109-138 | Where the retries stop and why, that the waits double from the initial one, and that they stay within the budget, for all limits |
| `RpcRetry.SorobanWaits` | backend/src/soroban.rs:15-20 | With the constants of the code only the fourth attempt or an error that is not transient stops them |
| `RpcRetry.WaitedClosedForm` | backend/src/soroban.rs:109-138 | The first k waits together, in closed form |
| `RpcRetry.StopsExactly` | backend/src/soroban.rs:109-138 | An attempt is the last exactly if none is left, its error does not pass, or the waits up to the next would exceed the budget, in closed form |
| `RpcErrors.ServerErrorRetried` | backend/src/soroban.rs:40-83 | Of all server errors exactly 500, 502, 503 and 504 count as transient |
| `RpcErrors.RetriedExactly` | backend/src/soroban.rs:40-83 | Errors of the client are retried exactly for a timeout, a failed connection or request or a status from 500 to 599, texts exactly for ten words, and neither with one of ten others |
| `RpcRetry.RpcPostTo` | backend/src/soroban.rs:245-270 | How many requests an endpoint gets, and that its last one decides |
| `RpcRetry.RpcPost` | backend/src/soroban.rs:221-242 | Which endpoints are asked, with how many requests each, and that the last request decides |
| `RpcRetry.FailoverExact` | backend/src/soroban.rs:86-98 | Another endpoint follows exactly if there is one and the last request got no answer or one that cannot be decoded; so an endpoint that answered is replaced exactly in the second case |
| `RpcRetry.AnsweredRequestReplayed` | backend/src/soroban.rs:213-220 | A request that was answered, but not with what can be decoded, is sent to the next endpoint |
| `RpcRetry.RequestsBounded` | backend/src/soroban.rs:109-138 | At most endpoints times attempts requests, and none repeated at an endpoint but after a transient error |

## Left out

- Concurrent indexers: a second process that loses the race on the unique index (`comebackhere-backend/src/indexer.ts:313-317`) is not modelled; there is one indexer at a time.
- Running the invoice indexer without a database, the copy of its cursor in Redis, and events without an id and a paging token.
- Metrics, logging, HTTP status codes and headers, the 30-second list cache, and JSON and base64url, which are taken as inverse to each other.
- TreasuryRuns.TokensExact: starts from a saved cursor; before the first one is saved, each batch starts a hundred ledgers before the latest one, so what a crashed batch had begun may be passed over.
- The webhooks the treasury indexer sends and the balance cache it clears; timestamps of records.
- Crashes of the webhook process without a drain, the hard timeout of a shutdown, and stores that fail.
- The contents of history records in the queue; the retry loop of one delivery has them.
- Analytics.PeriodsAreStarts: years below 100 are left to `Analytics.PeriodsExact`; years outside 0 to 9999 have no ten-character date.
- InvoiceSeries.SeriesAddsUp: sums are exact integers, not floating point; years outside 0 to 9999 have no ten-character date.
- InvoiceCsv.ExportReadsBack: the texts of dates come as inputs; a date out of range, which makes the export fail, is not modelled.
- TokenAmount.FormatDenotes: amounts are integers; a fractional number is truncated before it is printed.
- InvoicePaging.WalkComplete: needs created_at from 1970 on and non-empty ids, without which the next cursor is refused (`InvoicePaging.CursorRoundTrip`).
- The totals of the deprecated page and offset parameters.
- SlidingWindow.Bucket.CheckAndRecord: an expiry time beyond the clock's range is not modelled, nor is the Retry-After header, which truncates.
- FixedWindow.RateLimitStore.CheckRateLimit: the count stays below a 32-bit limit, so its addition does not overflow.
- AuditChain.AuditLog.Append: sequence numbers are unbounded; a list of 2^64 records does not fit any memory. The hash is any function, and texts are their bytes; a separator is one byte of its own in UTF-8.
- Ipv6Text.EveryFormRead: covers what net.isIP takes for IPv6 addresses; other texts are never read.
- Webhook URLs, DNS lookups and the pinned connection.
- Disputes.RunOutcome: weights are positive integers, as the request schema demands, and their sums are exact; listing disputes and hiding voters are not modelled.
- `try_claim` of the idempotency store and the TypeScript idempotency middleware, which do not compute what they promise.
- RpcErrors.Transient: an error of the HTTP client comes with what the client says of it; the client itself is not part of this model, and the texts of statuses are the registered ones.
- XDR decoding with its integer helpers (`i128ToBigInt`), contract calls, signatures, the HTTP shell, dashboards and command-line tools.
