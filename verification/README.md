# Verification of the vendor marketplace backend

A Dafny model of the stateful parts of the backend, with proofs about whole runs of them. Databases, caches
and providers are maps, logs and answers that the environment chooses; `transaction.atomic` is a snapshot that
an exception restores; clocks and fresh identifiers are parameters. Code that changes state step by step is a
class whose methods are proved against specification functions, and the theorems are about those functions
over every run. `dafny verify dfyconfig.toml` checks everything.

| file | what it models |
|---|---|
| `Common.dfy` | options, powers, sequences without repetition |
| `PaymentDomain.dfy`, `PaymentProtocol.dfy` | the payment entity and policy; every handler call and the retry task as a step on payments, webhook records, audit log and dispatched events |
| `PaymentRuns.dfy`, `PaymentWebhooks.dfy` | what every run of calls keeps: statuses, audit trail, keys, webhook records |
| `PaymentTerms.dfy` | what an initiation stores, how its terms bind reports, sweeps and refunds in every run, and that no status changes without its cause |
| `PaymentHandlers.dfy` | the handlers as imperative code with transactions and locks, proved equal to the protocol |
| `WebhookWorkers.dfy` | webhook workers interleaved at check, lock, verify, fetch, commit and release, beside sweeps and refunds that take no lock |
| `WebhookStability.dfy`, `WebhookLeases.dfy`, `WebhookRaces.dfy` | what stays as it is in every continuation, and exactly when; how often a payment is confirmed when leases run out; the failing interleavings from every start that allows them |
| `WebhookTerms.dfy` | under every interleaving only statuses change, and only true and timely reports confirm |
| `WebhookRefinement.dfy` | an undisturbed worker, sweep or refund request does what the handler call does: the two models agree |
| `PaymentMoney.dfy` | currencies, money and decimals rounded to the precision of a decimal context |
| `SearchCache.dfy`, `SearchText.dfy`, `SearchPages.dfy`, `RateLimit.dfy` | the versioned search cache, its keys, the pages and the rate limit |
| `Projection.dfy`, `ProjectionOutbox.dfy` | the listing table, the events that fill it, the reconciliation, the outbox and its retries |
| `IdentityOutbox.dfy` | the two-phase publisher under overlapping calls and crashes |
| `Idempotency.dfy`, `InquiryAdmission.dfy`, `SessionRevocation.dfy`, `PdfScan.dfy` | exactly-once execution, inquiry admission, session revocation, the streaming PDF scan |

## Where the code and its intent differ

Each of these is proved, with a condition under which the intended property does hold; "exactly" marks those
where the condition is also necessary.

- The handlers store webhook statuses under upper-case names (`payments/application/handlers.py:194-296`), while
  the retry task selects by the enumeration's lower-case values (`payments/tasks.py:17-29, 52-54`). The retry
  task finds an event exactly when the table held it under an enumeration value before and no handler has
  written it since (`PaymentWebhooks.RetryFindsOnlyForeignRecords`); a delivery that failed to take the lock is
  neither retried nor accepted when it is delivered again (`FailedLockIsForever`).
- Saving a payment does not write the entity's id, so the INITIATE audit entry names an id that no row has and
  is linked to no payment. Read from INITIATED, the linked entries give the stored status exactly when it is no
  longer PENDING (`PaymentRuns.InitiationIsNotInTheTrail`).
- A flagged velocity check is meant to emit an event without blocking, but it dispatches `...`, which the
  shipped dispatcher refuses (`payments/application/handlers.py:110-112`,
  `payments/infrastructure/django_event_outbox.py:40-46`). The call goes on as if unflagged exactly when its key
  already owns a payment (`PaymentRuns.FlagBlocksExactlyNewKeys`).
- The policy objects to an environment exactly when the one it is given differs from the payment's
  (`PaymentDomain.ObjectionIff`), but the handler gives it the payment's own, so it never does
  (`PaymentRuns.EnvironmentNeverObjects`).
- Sweeps and refunds take no lock. A confirmed payment can still be shown as EXPIRED exactly when a sweep has read
  it and not yet saved (`WebhookStability.ExpiresExactlyWhenASweepHasRead`), and a payment that is no longer
  pending can still be confirmed exactly when a worker has already fetched it as PENDING with the confirming
  answer and its command's time is within the payment's (`ConfirmedAgainExactlyWhenFetchedBefore`): over an
  expiry, or again when a lease runs out. A payment is confirmed at most once more than leases of its lock have
  run out (`WebhookLeases.ConfirmationsAreBoundedByExpiries`); while none runs out, nobody frees another's lock
  (`WebhookWorkers.LockedExactlyWhileInside`).
- Two deliveries of one event can both pass the existence check, and the second then overwrites the first's
  record. The PROCESSED_SUCCESS record of a payment that is no longer pending stays exactly when every worker of
  the event still has its check before it, has saved, or has fetched the payment as PENDING with the confirming
  answer and time left (`WebhookStability.SuccessRecordStaysExactlyWhenSafe`).
- Multiplying a decimal of more than 28 digits rounds to nearest before `from_decimal` rounds down, so an amount
  just under the minimum can be accepted as the minimum (`PaymentMoney.LongAmountsRoundUp`). Nothing is gained
  exactly when the next whole minor unit is more than half a last digit away, or half and odd
  (`HalfEvenGainsNothingExactlyWhen`).
- The search's count and rows are two statements and may see two tables. The answer is then that of neither
  exactly when they differ in the number of matches and in the page's rows (`SearchCache.CountAndRowsMayDiffer`,
  `AnswerOfNeitherTable`); without a commit in between it is that of one (`UndisturbedAnswerIsOfOneTable`).
- Cached answers stay in use until a writer's increment, not its commit (`SearchCache.StaleUntilIncrement`);
  after the increment they do not (`SearchSeesFinishedWrites`).
- A request that reaches Redis after its bucket's counter expired starts a second count: over all runs the limit
  holds exactly when it is zero (`RateLimit.LimitNeedsPromptRequests`), and over prompt runs always
  (`PromptBucketLimit`).
- The inquiry constraint is redundant exactly when nothing is ever let through, or
  1 <= duplicate window <= rate window, or one request is allowed per rate window and that is at least a second
  and no shorter than the duplicate window (`InquiryAdmission.ConstraintIsRedundantExactlyWhen`).
- Two overlapping revocations whose cache writes swap move the marker back: it covers every older token exactly
  when the writes come in order (`SessionRevocation.CoversExactlyWhenInOrder`). The version does not depend on
  the order (`BumpedVersionNeverMatches`).
- Overlapping publisher calls can take a published row back: exactly when a call is at work on it
  (`IdentityOutbox.PublishedStaysExactlyWhenIdle`).
- Projection retries do not keep the order of a vendor's events, so a retried upsert can revive a deleted
  listing (`ProjectionOutbox.RetryRevivesTheListing`). What is shown stays exactly when every open row about the
  vendor means the same (`StaysShownExactlyWhenOpenRowsAgree`).

## Model

| member | source | states |
|---|---|---|
| PaymentDomain.ConfirmSuccessMeans | payments/domain/policy.py:42-80 | a confirmation is allowed exactly when the payment is pending, the time is no later than its expiry and the provider verified this reference, amount, currency and environment; fraud is signalled exactly when reference, amount or currency differ |
| PaymentDomain.ObjectionIff | payments/domain/policy.py:49-71 | each reason is given exactly when its own check fails |
| PaymentDomain.EvaluateConfirmSuccess | payments/domain/policy.py:46-80 | the accumulated reasons, in order, and the fraud flag are those of the specification that the two lemmas above characterise |
| PaymentDomain.Payment.TransitionTo | payments/domain/entities.py:44-51 | the status changes exactly along an allowed transition and otherwise stays, with an error |
| PaymentDomain.TransitionExactlyWhen | payments/domain/entities.py:53-64 | a payment moves exactly one stage on, or back from a requested refund, or ends as cancelled or expired before it is paid or as failed while pending |
| PaymentDomain.PathsAreSound | payments/domain/entities.py:44-64 | along every path of allowed transitions, failed, cancelled, expired and refunded payments stay so, and none is to be refunded that was not SUCCESS before |
| PaymentRuns.AuditTellsTheStatus | payments/application/handlers.py:165-174 | in every run the audit entries of a payment lead, along allowed transitions only, to its stored status; SUCCESS entries equal PaymentCompleted dispatches and are at most one; no next call raises InvalidTransitionError |
| PaymentRuns.InitiationIsNotInTheTrail | payments/infrastructure/repositories.py:58-86 | in every run the linked entries, read from INITIATED, give the stored status if and only if it is no longer PENDING, because the INITIATE entry is linked to no payment |
| PaymentRuns.KeysOwnOnePayment | payments/application/handlers.py:92-100 | in every run an idempotency key owns at most one payment, and initiating with it again answers with that payment and changes nothing |
| PaymentRuns.StepKeepsInv | payments/application/handlers.py:91-349 | every call keeps the rows unique, the entries linked to existing rows, and the audit log and dispatches telling each payment's status |
| PaymentRuns.SweepClosesTheStale | payments/application/handlers.py:301-323 | a scan holds exactly the payments not yet paid whose expiry is before the time of the sweep; the sweep expires them in order up to the first commit that fails, with one entry and one event each, touches no other and leaves exactly the rest for the next sweep; when no commit fails it counts each once and leaves none |
| PaymentRuns.FlagBlocksExactlyNewKeys | payments/application/handlers.py:91-112 | a flagged velocity check changes nothing, and the call goes on as if unflagged if and only if its key already owns a payment |
| PaymentRuns.EnvironmentNeverObjects | payments/application/handlers.py:237-243 | for every payment, answer and time the environment check of a webhook's policy call never objects |
| PaymentTerms.InitiationStoresItsTerms | payments/application/handlers.py:91-174 | an initiation goes through exactly when its key is unknown, nothing is flagged, at most 1800 seconds have passed, the provider gave a reference that is not taken and the commit succeeds; it then stores one pending payment with the command's own user, amount, currency, environment, key and reference and 1800 seconds to be paid, and otherwise no payment changes |
| PaymentTerms.RefusalsComeInOrder | payments/application/handlers.py:91-155 | each refusal is answered exactly when its own check fails and none before it |
| PaymentTerms.TermsAreKept | payments/infrastructure/repositories.py:58-86 | in every run a payment bears the terms of its initiation for ever |
| PaymentTerms.ReportConfirmsExactlyWhen | payments/application/handlers.py:222-296 | in every run, by the terms of the initiation: a report of another reference, amount or currency is recorded as fraud; a true one confirms exactly a payment that is still pending at most 1800 seconds after its creation; any other is refused; only a confirmation changes the payment, and the events are this payment's |
| PaymentTerms.NothingWithoutCause | payments/application/handlers.py:185-349 | in every run a payment is SUCCESS only after a delivery or retry reported it as paid, with its own reference, amount and currency and within 1800 seconds; EXPIRED only after a later sweep; and to be refunded only after a request within its 30 days |
| PaymentTerms.SweepClosesExactlyWhen | payments/application/handlers.py:301-323 | in every run a sweep finds a payment, and closes it when no commit fails, exactly when it is still pending more than 1800 seconds after its creation |
| PaymentTerms.RefundIsAcceptedExactlyWhen | payments/application/handlers.py:325-349 | in every run a refund is accepted exactly for a SUCCESS payment less than 31 days old, and then only its status changes |
| PaymentWebhooks.RetrySetsPartition | payments/tasks.py:17-29 | the retryable and the terminal statuses partition the enumeration and contain none of the stored names |
| PaymentWebhooks.SaveEventMeans | payments/infrastructure/repositories.py:229-250 | saving replaces the one record of the event or adds it at the end, keeps ids unique and every other record as it is |
| PaymentWebhooks.LoadsTheNewest | payments/tasks.py:50-69 | the retry loads the newest readable record of the reference with a selected status, and nothing exactly when there is none |
| PaymentWebhooks.SettledRecordsNeverChange | payments/application/handlers.py:185-296 | in every run no record is removed, ids stay unique, a record that is not retryable never changes again, and no handler leaves one as PROCESSING |
| PaymentWebhooks.RedeliveryChangesNothing | payments/application/handlers.py:187-188 | once a delivery has left a record, every later delivery of the event changes nothing at all |
| PaymentWebhooks.RetryFindsOnlyForeignRecords | payments/tasks.py:52-66 | in every run the retry task finds an event exactly when the table held one under an enumeration value before the run and no handler has written it since |
| PaymentWebhooks.RetriesFindNothing | payments/tasks.py:84-91 | from an empty table, every retry ends as a missing event and changes nothing |
| PaymentWebhooks.FailedLockIsForever | payments/application/handlers.py:198-203 | after a recorded lock failure neither a redelivery nor a retry of the event ever does anything |
| PaymentHandlers.PaymentCommandHandlers.ProcessWebhook | payments/application/handlers.py:185-299 | the call does what the protocol's step does and leaves the locks as they were, on every path, including a look-up or a commit that raises |
| PaymentHandlers.PaymentCommandHandlers.ApplyPolicy | payments/application/handlers.py:244-296 | the three transactions save PROCESSING and then the final status, and commit or roll back as one |
| PaymentHandlers.PaymentCommandHandlers.RecordOutcome | payments/application/handlers.py:193-219 | a transaction that only records commits as a whole or changes nothing |
| PaymentHandlers.PaymentCommandHandlers.EndTransaction | payments/application/handlers.py:63-77 | events are dispatched, each attempted once, only after a commit; a failed commit restores the tables |
| PaymentHandlers.PaymentCommandHandlers.FindRetryEvent | payments/tasks.py:50-69 | the newest-first loop finds what the specification of the retry says, and it has the reference asked for |
| PaymentHandlers.PaymentCommandHandlers.ProcessWebhookRetry | payments/tasks.py:84-140 | the retry task does what the protocol's retry step does and leaves the locks as they were |
| PaymentHandlers.PaymentCommandHandlers.ExpireStalePayments | payments/application/handlers.py:301-323 | the loop commits payment by payment, stops at the first commit that fails, and counts exactly those expired |
| PaymentHandlers.PaymentCommandHandlers.RequestRefund | payments/application/handlers.py:325-349 | the refund request does what the protocol's step does, including each refusal |
| PaymentHandlers.PaymentCommandHandlers.InitiatePayment | payments/application/handlers.py:91-180 | the initiation does what the protocol's step does, including each refusal and the roll-back; a payment is stored exactly when the call goes through, pending and with the terms of the call, and every other stays as it is |
| PaymentHandlers.LastSaveCounts | payments/application/handlers.py:249-277 | saving PROCESSING before the final status leaves no trace |
| WebhookWorkers.MutualExclusion | payments/infrastructure/repositories.py:50-56 | while no lease runs out, no two workers are inside for the same reference |
| WebhookWorkers.AtMostOneSuccess | payments/application/handlers.py:197-299 | in every interleaving of deliveries, retry workers, sweeps and refunds in which no lease runs out, a payment is confirmed at most once, and only if it was pending at the start |
| WebhookWorkers.LockedExactlyWhileInside | payments/application/handlers.py:198-205 | a lock is set exactly while a worker is inside, so a failed acquirer frees none and none outlives its worker |
| WebhookWorkers.EveryExitReleases | payments/application/handlers.py:205-299 | from every point inside, the worker's remaining steps free its lock whatever the provider answers, whether or not the look-up or the commit raises, and whatever the policy says |
| WebhookWorkers.SuccessStays | payments/application/handlers.py:264-277 | while only workers write, a confirmed payment stays SUCCESS |
| WebhookWorkers.ExpiredLeaseConfirmsTwice | payments/infrastructure/repositories.py:50-52 | with a lease that runs out between fetch and commit, one payment is confirmed twice |
| WebhookWorkers.LateReleaseFreesAnother | payments/infrastructure/repositories.py:54-56 | after its lease ran out a worker's release frees the lock of another that is still inside |
| WebhookWorkers.SweepOverwritesSuccess | payments/application/handlers.py:303-310 | a sweep that read a payment before its confirmation saves EXPIRED over the SUCCESS |
| WebhookWorkers.ConcurrentRedeliveryRewritesTheRecord | payments/application/handlers.py:187-203 | two deliveries of one event past the existence check: the second turns the PROCESSED_SUCCESS record into REJECTED_POLICY |
| WebhookStability.ExpiresExactlyWhenASweepHasRead | payments/application/handlers.py:303-323 | from any state, over all continuations with lease expiries, sweeps and refunds: a confirmed payment is never shown as EXPIRED if and only if no sweep has read it and not yet saved |
| WebhookStability.ReachedConfirmationExpiresExactlyWhen | payments/application/handlers.py:303-323 | the same for every payment that a run from a start has confirmed |
| WebhookStability.ConfirmedAgainExactlyWhenFetchedBefore | payments/application/handlers.py:222-284 | from any state, over all continuations: a payment that is no longer pending may be confirmed once more if and only if a worker has already fetched it as PENDING with the confirming answer and the time of its command is not past the payment's |
| WebhookStability.SettledRecordNeverChanges | payments/application/handlers.py:187-203 | when every worker of a recorded event has its check before it or has saved, no continuation changes the record |
| WebhookStability.SuccessRecordStaysExactlyWhenSafe | payments/application/handlers.py:187-284 | the PROCESSED_SUCCESS record of a payment that is no longer pending stays in every continuation if and only if each worker of its event has its check before it, is past its save, or has fetched the payment as PENDING with the confirming answer and time left |
| WebhookStability.ReachedSuccessRecordStaysExactlyWhenSafe | payments/application/handlers.py:187-284 | the same after every run from a start whose tables do not record PROCESSED_SUCCESS for a payment that is still pending |
| WebhookLeases.ConfirmationsAreBoundedByExpiries | payments/infrastructure/repositories.py:50-56 | in every run, lease expiries, sweeps and refunds included, a payment is confirmed at most once more than leases of its lock have run out, and never if it was not pending at the start |
| WebhookTerms.OnlyStatusesChange | payments/infrastructure/repositories.py:58-86 | in every interleaving, lease expiries included, no payment appears or goes and its terms stay those of the start |
| WebhookTerms.OnlyTrueReportsConfirm | payments/application/handlers.py:222-284 | in every interleaving a step confirms a payment only as the commit of a worker whose provider reported it as paid, with the reference, amount and currency it had at the start, by a command no later than its expiry |
| WebhookStability.TrailTellsTheStatus | payments/application/handlers.py:265-314 | in every interleaving, lease expiries included, a payment's status entries lead to its stored status |
| WebhookStability.LegalExactlyWhenCurrent | payments/application/handlers.py:265-314 | while no lease runs out, a new status entry makes an allowed transition of the stored status if and only if its writer saved over the status it had read; a confirmation can miss this only by an expiry |
| WebhookRaces.LeaseExpiryCanConfirmTwice | payments/application/handlers.py:198-284 | from every start with two deliveries about one pending payment, a run with a lease expiry confirms it twice |
| WebhookRaces.LateReleaseCanUnlockAnother | payments/application/handlers.py:198-299 | from every such start, a run leaves a worker inside without its lock |
| WebhookRaces.SweepCanExpireAConfirmedPayment | payments/application/handlers.py:303-310 | from every start with a delivery and a sweep, a run confirms the payment and shows it as EXPIRED |
| WebhookRaces.ConfirmationCanOverwriteAnExpiry | payments/application/handlers.py:222-269 | from every such start, a run confirms the payment after it has expired |
| WebhookRaces.RedeliveryCanRewriteTheRecord | payments/application/handlers.py:187-296 | from every start with two deliveries of one event, a run confirms the payment once and records REJECTED_POLICY |
| WebhookRaces.LockFailureCanRewriteTheRecord | payments/application/handlers.py:187-203 | from every such start, a run replaces the PROCESSED_SUCCESS record with LOCK_FAILED_RETRY |
| WebhookRefinement.UndisturbedWorkerIsTheHandler | payments/application/handlers.py:185-299 | from agreeing stores, a worker that runs from check to release without interruption leaves the payments and records that the handler call of the protocol leaves, the locks as they were, and one more confirmation exactly when the call confirms |
| WebhookRefinement.UndisturbedRetryIsTheHandler | payments/tasks.py:130-140 | the same for a worker of the retry task, which does not check for the record it retries |
| WebhookRefinement.UndisturbedSweepIsTheHandler | payments/application/handlers.py:303-323 | a sweep's turn for one payment, undisturbed, expires it as the protocol's sweep does, or leaves everything as it was |
| WebhookRefinement.UndisturbedRefundIsTheHandler | payments/application/handlers.py:325-349 | an undisturbed refund request within its window leaves the payments that the protocol's call leaves |
| WebhookRefinement.SaveKeepsSameRecords | payments/infrastructure/repositories.py:229-250 | saving a record keeps the table by event id and the table in order of creation in agreement |
| PaymentMoney.AddAndSubUndoEachOther | payments/domain/value_objects.py:74-82 | sums and differences succeed exactly within one currency and its bounds, and each operation undoes the other |
| PaymentMoney.AmountsInBounds | payments/domain/value_objects.py:15-22 | exactly the amounts from 100 minor units to 10,000 whole units, 50,000 of KES, 500,000 of NGN and 10,000,000 of RWF can be constructed |
| PaymentMoney.WholeAmounts | payments/domain/value_objects.py:67-72 | a whole amount is a hundred minor units each, in RWF one, and accepted exactly from 1, in RWF from 100, to the currency's greatest |
| PaymentMoney.RoundTrip | payments/domain/value_objects.py:63-72 | reading back the reduced decimal that an amount is written as, or any other decimal of that value, gives the amount, in every currency |
| PaymentMoney.ReducedHasSameValue | payments/domain/value_objects.py:63-65 | dropping the trailing zeros of a quotient keeps its value and leaves none |
| PaymentMoney.FromDecimalIsMonotone | payments/domain/value_objects.py:67-72 | for decimals of any two scales the greater never gives fewer minor units; negative ones are refused |
| PaymentMoney.RoundingDown | payments/domain/value_objects.py:70-72 | under any rounding to nearest, an accepted amount loses less than one minor unit, gains at most half of one, and gains nothing when it has no more digits than the context |
| PaymentMoney.HalfEvenGainsNothingExactlyWhen | payments/domain/value_objects.py:70-72 | with the standard rounding an accepted amount gains nothing if and only if its next whole minor unit is more than half a unit of the last digit away, or just half a unit and odd in such units |
| PaymentMoney.HalfEvenRoundsToNearest | payments/domain/value_objects.py:70-71 | the standard rounding of products is monotone, independent of trailing zeros, exact where it fits and at most half a last digit off |
| PaymentMoney.LongAmountsRoundUp | payments/domain/value_objects.py:51-72 | for every whole amount of RWF and every scale beyond the precision, an amount just below it is accepted as that whole amount |
| SearchCache.SearchSeesFinishedWrites | application/marketplace/search_service.py:160-200 | in every interleaving, a search that starts after a writer's increment answers, on a hit or a miss and however late others store, with a direct search on tables no older than that writer's commit |
| SearchCache.RunKeepsInv | application/marketplace/search_service.py:60-95 | every cached entry and every answer is a direct search on tables no older than the newest invalidation its version was born with |
| SearchCache.StaleUntilIncrement | fastapi_app/routers/internal.py:129-132 | between a commit and its increment a new search still answers from the old version's cache |
| SearchCache.StoredResultAnswers | application/marketplace/search_service.py:86-95 | a stored result answers the next search for the same criteria under the same version without asking the database |
| SearchCache.OnlyResultsAreStored | application/marketplace/search_service.py:93-95 | the cache changes only by losing an entry or by gaining a reader's page under the version and criteria that it read, while Redis answers |
| SearchCache.IncrementEndsTheWrite | application/marketplace/search_service.py:67-69 | an increment makes the version one more, or 1 when there was none, ends its write and changes nothing else |
| SearchCache.UndisturbedSearchEnds | application/marketplace/search_service.py:139-217 | from any state an undisturbed search ends, with the entry under the version in force if there is one and otherwise with a direct search on the newest table |
| SearchCache.CountAndRowsMayDiffer | fastapi_app/repositories.py:80-92 | a commit between count and rows makes one answer mix two tables, and it is the answer of neither if and only if the two differ in the number of matches and in the rows of the page |
| SearchCache.AnswerOfNeitherTable | fastapi_app/repositories.py:80-92 | a run on concrete tables ends with a page that neither the old nor the new table answers: one row beside a total of zero |
| SearchCache.UndisturbedAnswerIsOfOneTable | fastapi_app/repositories.py:80-92 | in every run, when nothing is committed between a reader's count and its fetch, its page is a direct search on the one newest table |
| SearchCache.SearchService.GetVersion | application/marketplace/search_service.py:60-65 | the version is stored afterwards and is the old one, or 1 when there was none |
| SearchCache.SearchService.Search | application/marketplace/search_service.py:139-217 | undisturbed, a search with the cache answers exactly as the direct search does, and leaves that answer under the current version and its criteria |
| SearchCache.SearchService.Write | fastapi_app/routers/internal.py:205-215 | a write makes the version one more, or 1 when there was none, and every cached entry then belongs to an older one |
| SearchText.Alphabet.RegexEqualsSplitJoin | application/marketplace/search_service.py:117-122 | collapsing runs of white space equals splitting and joining, on every stripped text |
| SearchText.Alphabet.SplitOfJoin | fastapi_app/repositories.py:196-208 | splitting undoes joining |
| SearchText.Alphabet.NormalizeIdempotent | application/marketplace/search_service.py:255-264 | normalising twice is normalising once |
| SearchText.Alphabet.SanitizeAgrees | fastapi_app/repositories.py:196-208 | the sanitiser is the normaliser up to truncation, on raw and on normalised text |
| SearchText.Alphabet.NormalizeCriteriaMeans | application/marketplace/search_service.py:242-264 | criteria are refused exactly for an unprintable character in query, category or location; otherwise each of the three is the lower-case words of its own text one space apart, page and size are moved into 1 to 1000 and 1 to 50, and rating and prices are the input's |
| SearchText.Alphabet.SearchAsksForItsCriteria | application/marketplace/search_service.py:219-232 | the repository is asked for each text under its own name, its first 128 characters for the query and 64 for category and location, for the rating and prices given, and for the rows of the page |
| SearchText.Alphabet.KeyHoldsTheWords | application/marketplace/search_service.py:71-84 | the key of any criteria holds the version, the words of each text under its own name and the other fields as they are |
| SearchText.Alphabet.KeyOfNormalised | application/marketplace/search_service.py:71-84 | the key of normalised criteria holds exactly those criteria |
| SearchText.Alphabet.EqualKeysEqualQueries | application/marketplace/search_service.py:71-84 | keys are equal exactly for equal versions and normalised criteria, and then the repository queries are equal |
| SearchPages.TotalPagesIsCeiling | application/marketplace/search_service.py:219-240 | the total is the number of matches, the page count its exact ceiling, exactly the later pages are empty, and a page and size within 1 to 1000 and 1 to 50 are the ones answered |
| SearchPages.PageHoldsTheRowsOfItsQuery | fastapi_app/repositories.py:84-92 | the rows of a page are those of the limit and offset that the repository is asked for |
| SearchPages.ReadPagesIsPrefix | fastapi_app/repositories.py:84-92 | the first n pages are the first n times the page size rows of the ranking |
| SearchPages.PagesTile | application/marketplace/search_service.py:219-253 | reading all pages yields the ranking once and in order if and only if it fits in the 1000 addressable pages |
| SearchPages.PagesWithinBound | application/marketplace/search_service.py:251-252 | the page count stays addressable exactly for lists that fit |
| SearchPages.PageAfterLastRepeats | application/marketplace/search_service.py:251 | for longer lists, page 1001 shows page 1000 again |
| SearchPages.DecimalText.SerializeResult | application/marketplace/search_service.py:124-131 | the payload holds every field of the result, prices as text |
| SearchPages.DecimalText.PayloadToResult | application/marketplace/search_service.py:284-299 | decoding gives back whatever result the payload was made from, prices included; the JSON text in between carries the payload |
| RateLimit.BucketLimit | application/marketplace/search_service.py:97-115 | in every run, however late requests are, at most the limit passes for each time a bucket's counter was created |
| RateLimit.PromptCounterStartsOnce | application/marketplace/search_service.py:98-102 | while requests reach Redis within their bucket, its counter is created at most once |
| RateLimit.PromptBucketLimit | application/marketplace/search_service.py:97-115 | then at most the limit passes per bucket |
| RateLimit.WindowLimit | application/marketplace/search_service.py:97-115 | and at most twice the limit in any half-open interval of one window |
| RateLimit.LateRequestStartsOver | application/marketplace/search_service.py:98-103 | for every positive limit there is a run in which a late request passes after the limit was used up |
| RateLimit.LimitNeedsPromptRequests | application/marketplace/search_service.py:97-115 | over all runs, late ones included, the limit holds if and only if it is zero |
| RateLimit.RateLimiter.EnforceRateLimit | application/marketplace/search_service.py:97-115 | an undisturbed call performs the steps of the interleaving model and passes exactly when its count is within the limit |
| Projection.LastEventWins | interface/governance/marketplace_outbox.py:128-147 | delivering any log leaves each vendor as its last event says and a vendor without events alone |
| Projection.RedeliveryChangesNothing | interface/governance/marketplace_outbox.py:128-147 | delivering the latest event of a vendor again changes nothing |
| Projection.ReconciliationConverges | interface/governance/marketplace_reconciliation.py:29-43 | from every projection state, however the deletions of the stale vendors and the deliveries of the enqueued events interleave and repeat, once all are done exactly the approved and complete vendors are shown, with the name, category, description, area, cover, prices and currency that each has |
| Projection.NothingStaleMeanwhile | interface/governance/marketplace_reconciliation.py:33-43 | at every point of every such interleaving, a vendor that should be hidden is shown if and only if it is a stale one that has not been deleted yet |
| Projection.ShowsUnique | fastapi_app/routers/internal.py:147-155 | a table determines what is shown about each vendor |
| Projection.ListingTable.UpsertListing | fastapi_app/routers/internal.py:67-115 | an approved listing is afterwards the vendor's one listing, in the vendor's own row, or else in the row that bore its external id, or in a new one, and bears that id; an unapproved one takes just that row away; every other row stays; and the call is refused exactly when another vendor's row holds the external id while the vendor has a row |
| Projection.ListingTable.DeleteListing | fastapi_app/routers/internal.py:201-208 | the vendor is gone, all other rows stay, and the answer says whether there was one |
| Projection.ListingTable.FindByVendor | fastapi_app/routers/internal.py:73-74 | a row is found exactly for a vendor that is shown |
| Projection.Governance.EnqueueVendorProjection | interface/governance/marketplace_outbox.py:25-37 | one event is appended that, delivered to any marketplace, shows the vendor if it is approved and complete, each field of the listing being the vendor's own, and hides it otherwise, and touches no other vendor |
| Projection.Governance.DeliverEvent | interface/governance/marketplace_outbox.py:128-147 | the listing table shows afterwards what the event's delivery means |
| Projection.Governance.Reconcile | interface/governance/marketplace_reconciliation.py:29-54 | one event is enqueued for each approved and complete vendor, then the stale vendors are deleted up to the first deletion that raises; without one all five counts are exact, and a dry run changes nothing |
| Projection.Governance.DeleteStale | interface/governance/marketplace_reconciliation.py:41-43 | exactly the stale vendors go, or as many of them as precede the deletion that raises |
| ProjectionOutbox.DeliveredMeansApplied | interface/governance/marketplace_outbox.py:59-86 | in every run of calls that do not overlap, on a configured marketplace: a delivered row has been applied, applications never exceed attempts, attempts never exceed five, a failed row has used all five, a pending one has not, and the marketplace shows what the applied events give in order |
| ProjectionOutbox.RetrySchedule | interface/governance/marketplace_outbox.py:150-158 | in every run a failed attempt puts the next off by 2, 4, 8 and 16 minutes in turn, so the cap of 30 is never reached, and the fifth ends the row |
| ProjectionOutbox.LatestWinsUnlessOvertaken | interface/governance/marketplace_outbox.py:128-147 | in every run a vendor is shown as its latest event says if that event was applied and no older one was applied after it |
| ProjectionOutbox.StaysShownExactlyWhenOpenRowsAgree | interface/governance/marketplace_outbox.py:59-125 | from any state, what is shown about a vendor stays in every continuation without a new event about it if and only if every row about it that is still open means the same |
| ProjectionOutbox.LatestStaysShownExactlyWhen | interface/governance/marketplace_outbox.py:59-125 | in every run, once a vendor's latest event has been applied last, the vendor stays shown as it says in every longer run if and only if every open row about it means the same |
| ProjectionOutbox.ReconciliationThroughTheOutbox | interface/governance/marketplace_reconciliation.py:37-43 | from any marketplace with no open row: after a reconciliation's upserts are enqueued, its deletions and any attempts to deliver go on in any order with failures and retries, and once every new row is delivered and every stale vendor removed, exactly the approved and complete vendors are shown with their current listings |
| ProjectionOutbox.RetryRevivesTheListing | interface/governance/marketplace_outbox.py:89-113 | an upsert that is retried after the vendor's delete was delivered shows the vendor again, with both rows delivered |
| ProjectionOutbox.Outbox.DeliverOutboxEvent | interface/governance/marketplace_outbox.py:59-86 | one delivery does what the specification's attempt does, whether the remote call fails before or after taking effect |
| ProjectionOutbox.Outbox.RetryDue | interface/governance/marketplace_outbox.py:89-125 | the sweep attempts each selected row once and no other, counts it as delivered or as an error, and never as failed |
| IdentityOutbox.AtLeastOnceDelivery | tasks/identity_domain_events.py:57-90 | under every interleaving with crashes anywhere: attempts equal the committed claims, consumer completions never exceed them, a published row has been consumed, and an event id has one row |
| IdentityOutbox.RepeatedDispatchIsIgnored | infrastructure/identity/django_identity_event_outbox.py:22-37 | dispatching an event again at any later time inserts nothing |
| IdentityOutbox.ClaimsMayOverlap | tasks/identity_domain_events.py:58-69 | two workers can claim the same row |
| IdentityOutbox.OverlapUnpublishes | tasks/identity_domain_events.py:130-141 | from every state with two claims on a row, it can be published and then taken back to pending |
| IdentityOutbox.PublishedStaysExactlyWhenIdle | tasks/identity_domain_events.py:57-90 | from any state, some continuation takes a published row back if and only if a call is at work on it |
| IdentityOutbox.NonOverlappingIsCalm | tasks/identity_domain_events.py:57-90 | without overlap and crashes a row is processing exactly while a call is at work on it, and its attempts and delays fit its status |
| IdentityOutbox.RetrySchedule | tasks/identity_domain_events.py:130-141 | without overlap a pending row has attempts to spare, a failed row has used five after delays of 2, 4, 8 and 16 seconds, so the cap of 300 is never reached, and a row that has ended has no next attempt |
| IdentityOutbox.FailureIsScheduled | tasks/identity_domain_events.py:130-141 | without overlap a call that fails puts the next attempt off from that moment by 2, 4, 8 and 16 seconds in turn, and the fifth failure ends the row |
| IdentityOutbox.TerminalRowsAreFinal | tasks/identity_domain_events.py:63-66 | without overlap published and failed rows never change again |
| IdentityOutbox.UninterruptedCall | tasks/identity_domain_events.py:57-90 | one call's steps in the interleaving model leave the row as the method does |
| IdentityOutbox.Publisher.Publish | tasks/identity_domain_events.py:57-90 | the answer and the row after a call for every way its consumer and commit can go |
| IdentityOutbox.Publisher.RetryDue | tasks/identity_domain_events.py:27-54 | every selected row is attempted once, published plus failed equals attempted and is at most the batch size, and published counts the rows now published |
| Idempotency.EffectsCommitOnce | infrastructure/adapters/django_vendor_idempotency.py:25-55 | in every run, whatever operations do, a key has a record exactly when one call with it committed, every record is completed, and the database is what the committed calls alone give |
| Idempotency.OnlyDoneChangesState | infrastructure/adapters/django_vendor_idempotency.py:34-55 | a call that does not succeed changes nothing, and one that succeeds does |
| Idempotency.RecordNeverChanges | infrastructure/adapters/django_vendor_idempotency.py:57-75 | a committed record never changes |
| Idempotency.LaterCallsReplay | infrastructure/adapters/django_vendor_idempotency.py:35-42 | after a success, the same fingerprint replays the stored result and another is a conflict, both without any change |
| Idempotency.Adapter.Reserve | infrastructure/adapters/django_vendor_idempotency.py:57-75 | a conflict exactly for a different fingerprint; a new or failed record is taken, any other left alone |
| Idempotency.Adapter.ExecuteOnce | infrastructure/adapters/django_vendor_idempotency.py:25-55 | the block with its roll-back does what the one-step specification says |
| InquiryAdmission.SlidingWindowLimit | interface/vendors/adapters.py:77-106 | in every run any closed interval of one rate window holds at most the maximum of accepted records, although the cutoff uses a clock read before the lock |
| InquiryAdmission.AdmitKeepsWithinLimit | interface/vendors/adapters.py:87-106 | one admission to any records keeps every closed rate window of every requester and vendor within the maximum |
| InquiryAdmission.DuplicatesAreApart | interface/vendors/adapters.py:94-98 | two accepted copies of an inquiry are more than the shorter of the two windows apart |
| InquiryAdmission.ConstraintNeverFires | interface/vendors/adapters.py:92-108 | for redundant settings the filter rejects whatever the unique constraint would, in every run |
| InquiryAdmission.ConstraintCanFire | interface/vendors/abuse_models.py:23-33 | for all other settings, from the beginning of every window of the key, a second copy passes the filter and violates the constraint |
| InquiryAdmission.ConstraintIsRedundantExactlyWhen | interface/vendors/abuse_models.py:23-33 | for all settings the constraint never fires in any run if and only if no request is ever allowed, or 1 <= duplicate window <= rate window, or one request is allowed and the rate window is at least a second and no shorter than the duplicate window |
| InquiryAdmission.DecisionMeans | interface/vendors/adapters.py:77-108 | an attempt on a known vendor is refused as too many exactly when at least the maximum of records, counted as positions, have its requester, its vendor and a time within the rate window; then as a duplicate exactly for a recent copy by both windows; then by the constraint exactly for a copy under the same key; and otherwise accepted |
| InquiryAdmission.OthersNeverMatter | interface/vendors/adapters.py:87-98 | in every run, what a requester has stored with a vendor is what its own attempts on that vendor alone would have stored |
| InquiryAdmission.WindowKeyIsItsBeginning | interface/vendors/adapters.py:110-113 | the key of a reading is the multiple of the window's length, at least a second, at which its window began |
| InquiryAdmission.AbuseProtection.AssertInquiryAllowed | interface/vendors/adapters.py:63-108 | each outcome is given exactly for the records that cause it; a record with the attempt's own fields is added exactly when it is accepted; for stamps no earlier than their clock reading every rate window stays within the maximum and equal inquiries apart |
| SessionRevocation.CoversExactlyWhenInOrder | infrastructure/identity/django_session_revocation.py:27-38 | for any number of overlapping revocations, the marker rejects every older unexpired token after every write if and only if the writes come in the order of their clock readings |
| SessionRevocation.LastWriteDecides | infrastructure/identity/django_session_revocation.py:99-112 | in every run, while the last marker lives a token without a time passes, one with an unreadable time is rejected and any other is rejected exactly when issued in a second before that reading; with an expired marker or none all pass |
| SessionRevocation.AcceptedExactlyWhen | infrastructure/identity/django_session_revocation.py:85-112 | in every run a token is accepted exactly while its lifetime lasts, its version counts every bump, and the last marker has run out or is not after its second |
| SessionRevocation.NonOverlappingIsInOrder | infrastructure/identity/django_session_revocation.py:31-38 | calls that do not overlap write in order |
| SessionRevocation.OutOfOrderMisses | infrastructure/identity/django_session_revocation.py:38 | two writes out of order leave an older token uncovered |
| SessionRevocation.VersionOnlyGrows | infrastructure/identity/django_session_revocation.py:51-59 | with revocations as the only writes the version never decreases |
| SessionRevocation.BumpedVersionNeverMatches | infrastructure/identity/django_session_revocation.py:51-59 | however the writes of any number of overlapping calls interleave, a version from before a bump never matches again |
| SessionRevocation.BumpingCallEndsOlderVersions | infrastructure/identity/django_session_revocation.py:33-38 | the same for whole calls, with no condition on order, clock or lifetime |
| SessionRevocation.CallIsItsHalves | infrastructure/identity/django_session_revocation.py:33-38 | a call that is not interleaved is its bump followed by its cache entry |
| SessionRevocation.RevokedTokenStaysRejected | infrastructure/identity/django_session_revocation.py:85-112 | a token from before a revocation is never accepted again: by its version when bumped, in whatever order the calls write, and otherwise by the marker or its expiry when they write in order |
| SessionRevocation.SameSecondTokenEscapesMarker | infrastructure/identity/django_session_revocation.py:112 | without a bump and while the marker lives, an unexpired token of the current version is still accepted if and only if it was issued in the revocation's own second or later |
| SessionRevocation.IdentityUser.BumpAuthTokenVersion | infrastructure/identity/django_session_revocation.py:51-59 | the version grows by one, or nothing happens when there is no row |
| SessionRevocation.IdentityUser.RevokeUserSessions | infrastructure/identity/django_session_revocation.py:27-38 | marker, its expiry and the version after one revocation |
| PdfScan.WindowStep | interface/vendors/document_upload_views.py:62-69 | a marker occurs in the longer file exactly if it did before or lies in the kept bytes followed by the chunk |
| PdfScan.StreamFindsWhole | interface/vendors/document_upload_views.py:53-69 | over every way of cutting a file, the windows find a marker exactly when the file contains it |
| PdfScan.OverlapIsExact | interface/vendors/document_upload_views.py:8 | keeping k bytes suffices for every file and cutting if and only if the marker has at most k + 1 bytes |
| PdfScan.TailAnswer | interface/vendors/document_upload_views.py:68-76 | the kept tail answers the question about the last 2048 bytes |
| PdfScan.MarkersSpellTheirTexts | interface/vendors/document_upload_views.py:10-13 | the markers are the bytes of %PDF, %%EOF, /Encrypt, /Type /Page and /Type/Page |
| PdfScan.ScanChunks | interface/vendors/document_upload_views.py:41-79 | for every cutting, empty chunks included, the loop gives the four answers of a search of the whole file |
| PdfScan.Upload.ScanPdf | interface/vendors/document_upload_views.py:41-79 | wherever the file stood and however reading cuts it, the answers are those of a search of the whole file, and the position is put back |
| PdfScan.Upload.ValidatePdf | interface/vendors/document_upload_views.py:19-39 | accepted exactly when all seven checks hold, otherwise refused for the first that fails |

## Left out

- PaymentRuns.AuditTellsTheStatus: each handler call is one step, because sweeps and refunds take no lock; the
  interleaving of single steps is in `WebhookWorkers`.
- WebhookWorkers.AtMostOneSuccess: assumes that the 30-second lease outlives the critical section;
  `WebhookLeases` bounds the confirmations without that.
- WebhookWorkers.SuccessStays: leaves the saves of sweeps and refunds out; `WebhookStability` says when they matter.
- PaymentHandlers.PaymentCommandHandlers.EndTransaction: a dispatch that raises after the commit is only logged
  and the event is lost; the dispatched events are those whose dispatch was attempted.
- PaymentHandlers.PaymentCommandHandlers.InitiatePayment: velocity and fraud checks are arbitrary answers, and
  method, metadata, context reference and links are not represented.
- PaymentHandlers.PaymentCommandHandlers.ProcessWebhookRetry: does not model the countdown of task retries or the
  retry scheduler's counter, which decide when and how often the task runs, not what it does.
- PaymentHandlers.PaymentCommandHandlers.ExpireStalePayments: the scan is given, as any order of the rows its
  query selects.
- PaymentTerms.ReportConfirmsExactlyWhen: events and entries carry the payment and their kind; the user, amount and
  reason that some of them repeat are not represented.
- PaymentMoney.RoundTrip: holds for contexts of at least eight digits, which hold every amount; the standard has 28.
- SearchCache.SearchSeesFinishedWrites: the version key is never evicted, and all listing writes increment the
  version; review writes do not invalidate and are not modelled.
- SearchText.Alphabet.EqualKeysEqualQueries: the digest is taken as injective and prices and ratings as opaque
  values; lower-casing is a map on characters, so a final sigma's context is not modelled.
- SearchPages.DecimalText.PayloadToResult: the text of a decimal is an injective function, floats are opaque, and
  the JSON text between encoding and decoding is taken to carry the payload unchanged.
- SearchPages.PagesTile: the ranking is an arbitrary sequence without repetition; SQL ranking and matching are
  not modelled.
- RateLimit.WindowLimit: assumes that requests reach Redis within their bucket; the last two lemmas about the
  limit show what happens otherwise.
- Projection.ListingTable.UpsertListing: validation and normalisation of the payload's fields, and which price is
  chosen from a vendor's packages, are not modelled.
- ProjectionOutbox.DeliveredMeansApplied: calls on a row do not overlap and do not crash; overlapping calls are
  treated for the identity outbox. In development and test settings an unconfigured marketplace answers
  "skipped" and the row is still marked DELIVERED; here the marketplace is configured.
- IdentityOutbox.RepeatedDispatchIsIgnored: validation of the event and its payload keys, its aggregate version, and
  the e-mail after publication are not modelled.
- IdentityOutbox.Publisher.RetryDue: which rows the queries select first is not modelled.
- Idempotency.EffectsCommitOnce: encoding a result is an abstract function that may fail; datetimes are truncated
  to milliseconds by the real one, so replayed results are equal only up to that.
- Idempotency.Adapter.ExecuteOnce: calls on one key run one after the other, as the row lock makes them.
- InquiryAdmission.AbuseProtection.AssertInquiryAllowed: admissions for one vendor run one after the other, as the
  row lock makes them.
- PdfScan.ScanChunks: chunks are bytes; the program encodes a chunk of text first.
- The vendor, payment and document event publishers have the shape of the identity one.
- Views, serializers, URLs, settings, request authentication, encryption and logging are plumbing or foreign.
- Refresh rotation, account lockout, password reset, vendor aggregates and review ratings are not modelled.
