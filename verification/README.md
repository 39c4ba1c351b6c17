# EventPulse: timed protocols, money and stored data

A Dafny model of the parts of the EventPulse ticketing backend that are hard to get right: state that
lives in Redis under a time to live while requests interleave, payments that must not be repeated,
exact money arithmetic, and the invariants of two tables. `dafny verify dfyconfig.toml` checks it all.

One clock counts microseconds. Redis is a mutable class (`Redis.dfy`): string keys with a deadline,
counters and sorted sets, every key dead from its deadline on. The components are:

- **Seat reservations.** `SeatProtocol.dfy` is a state machine with one step for every Redis or
  database call of the ticket allocator, so requests interleave between any two calls; a confirm and a
  cleanup are a SELECT, a flush that writes the selected rows by primary key, and a DELETE.
  `SeatSafety.dfy` proves timed exclusivity under six named environment assumptions. `SeatExact.dfy`
  proves for every step an assumption is about exactly when that step is safe (from `SeatLimits.dfy`:
  safe means that no run respecting the assumptions from then on oversells), and `SeatRuns.dfy` gives
  for each assumption a run that breaks it once and oversells. `SeatHistory.dfy` and `SeatOutcomes.dfy`
  have what holds with no assumption at all, `SeatLedger.dfy` the books, `SeatAges.dfy` why cleanups
  spare live locks. `SeatAtomic.dfy` is about runs whose operations are not interrupted, and
  `TicketAllocator.dfy` is the service as a class whose methods are proved to be such runs.
- **Payments.** `Payments.dfy` has the idempotency keys, a Stripe server that deduplicates by key while
  replies get lost, and the retry loop; `ChargeOnce.dfy` runs of payment calls; `ChargeWindow.dfy` the
  at-most-one-charge theorem; `KeyRace.dfy` the same key cache under concurrent calls, and
  `ChargeRace.dfy` those calls with the attempts they send; `PaymentService.dfy` the service as a class.
- **Webhooks.** `WebhookProtocol.dfy` is deduplication as a machine with concurrent and dying handlers,
  `StripeWebhook.dfy` the handler class.
- **Rate limits.** `SlidingWindow.dfy` refines the sorted set to the full history of attempts,
  `RateLimiters.dfy` puts it under the API and the SMS limiter, `LoginLimiter.dfy` is the login counter,
  `LoginRace.dfy` the same counter under concurrent logins.
- **Money.** `AmountPrinter.dfy` (over `Decimals.dfy`) prints amounts and reads them back,
  `RefundConversion.dfy` converts refunds between currencies over exact rationals.
- **Tables.** `EventCalendar.dfy` is the venue calendar, `UserStore.dfy` users, roles and permissions.
  `CheckThenInsert.dfy` takes a query for conflicting rows and the insert behind it apart, for any number
  of concurrent requests; `CalendarRace.dfy` and `UserRace.dfy` apply it to events and to accounts.

The environment assumptions of the seat protocol (`SeatProtocol.Guard`) are each something a caller
can test before the call:

- (a) a lock is only taken on a seat without an active ticket;
- (b) a commit lands before the deadlines its checks have seen;
- (c) a cleanup's DELETE lands while none of its keys is locked again;
- (d) a rollback lands before the locks it took expire;
- (e) a checkout does not present the id of a reservation that lock_seats has yet to return;
- (f) a flush lands while the rows it has selected are still pending.

Where a class and a function describe the same operation, the method's `ensures` ties the class to the
function, and the lemmas are about the function.

## Where the code falls short of what it says

Each of these is a lemma with a concrete run or input, next to the exact condition under which the
promise does hold:

- A seat can be sold twice: `lock_seats` never reads the ticket table, although
  services/events/ticket_allocator.py:147-150 calls the database row the source of truth
  (`SeatRuns.ConfirmedSeatIsSoldAgain`; exact condition `SeatExact.LockIsSafeIff`).
- Nothing in the allocator enforces the other assumptions, and each of them is needed. Late commits
  oversell (`SeatRuns.LateCommitOversells`; `SeatExact.CommitIsSafeIff`), late cleanups
  (`SeatRuns.LateCleanupOversells`; `SeatExact.DropIsSafeIff`), late rollbacks
  (`SeatRuns.LateRollbackOversells`; `SeatExact.RollbackIsSafeIff`) and early checkouts
  (`SeatRuns.EarlyCheckOversells`; `SeatExact.CheckIsSafeIff`). A confirm whose flush comes after a
  cleanup revives a released row, which then is counted by both (`SeatRuns.LateConfirmRevives`;
  `SeatExact.ConfirmFlushIsSafeIff` and `SeatExact.CleanupFlushIsSafeIff` for exclusivity,
  `SeatLedger.FlushBalancesIff` for the count).
- A payment call made within 24 hours of the first can charge again when its attempt reaches Stripe
  after Stripe has forgotten the key (`ChargeWindow.LateAttemptChargesTwice`; exact condition
  `ChargeWindow.AtMostOneCharge`, and in terms of when calls are made
  `ChargeWindow.EarlyCallsChargeOnce`).
- A replayed webhook within the tolerance is said to have no effect
  (services/payments/stripe_webhook.py:42-47). It has one when two handlers overlap or one dies before
  its mark (`WebhookProtocol.TogetherBothTakeEffect`, `WebhookProtocol.CrashBeforeMarkRepeats`; exact
  conditions `WebhookProtocol.SkippedIff` and `WebhookProtocol.ReplayHasNoEffectIff`).
- "5 attempts per 15-min window" is not what the login limiter enforces. Every admitted attempt renews
  the window (`LoginLimiting.SlowUserIsTurnedAway`; exact condition `LoginLimiting.FivePerWindowIff`),
  and r concurrent logins get 4 + r attempts through but never more
  (`LoginRace.RacersReachTheBound`, `LoginRace.RacersBound`).
- The sliding windows count instants, not attempts, so at one instant they admit any number
  (`SlidingWindow.OneInstantIsUnlimited`; exact condition `SlidingWindow.CountsAgreeIff`).
- Negative amounts print with the sign on the floored whole part: -150 cents come out as "-2.50"
  (`AmountPrinter.OrdinaryReadingIff`).
- A venue change or a revived status without a time skips the conflict check
  (`EventCalendar.UncheckedUpdateDoubleBooks`; exact conditions `EventCalendar.UpdateKeepsCalendarIff`
  and, over whole runs, `EventCalendar.CalendarKeptIff`).
- r events created at the same time double book a venue, since the conflict query and the insert are two
  calls (`CalendarRace.RacersDoubleBook`; never more than r, `CalendarRace.HourIsNeverCrowded`). The same
  goes for accounts with one address (`UserRace.RacersShareAnAddress`, `UserRace.AddressIsNeverCrowded`),
  unless the table refuses the second row.
- A comment says only admins can change roles; the role `admin` cannot, only `super_admin` can
  (`UserStore.OnlySuperAdminsAdminister`).

docs/architecture.md:10 and 20-21 describe an older state of the payment code (webhooks through the
Stripe SDK, no idempotency handling); the model follows the code.

## Model

| member | source | states |
|---|---|---|
| SeatSafety.SeatsStayExclusive | services/events/ticket_allocator.py:107-262 | Whatever the interleaving of Redis and database calls, the SELECT, flush and DELETE of confirms and cleanups included, a run whose environment respects (a) to (f) never has pending or confirmed tickets of two reservations on one seat |
| SeatSafety.GuardedStepKeeps | services/events/ticket_allocator.py:107-256 | The invariant joining live locks, checked but uncommitted reservations, selected rows and rows survives every single step that respects the assumptions |
| SeatSafety.PunctualIsUnclaimed | services/events/ticket_allocator.py:152-174 | A commit before the deadlines its checks saw meets no foreign live lock and no foreign active ticket on its seats |
| SeatSafety.CommitKeeps | services/events/ticket_allocator.py:161-174 | Inserting the rows keeps the invariant whenever the seats are unclaimed at that instant, late or not |
| SeatProtocol.SameSeatSameKey | services/events/ticket_allocator.py:81-82 | Two tickets share a lock key exactly when they are for the same seat of the same event |
| SeatExact.LockIsSafeIff | services/events/ticket_allocator.py:99-120 | A granted lock can lead to no overselling, under respected assumptions from then on, if and only if the seat has no active ticket: the test lock_seats leaves out |
| SeatExact.CommitIsSafeIff | services/events/ticket_allocator.py:152-174 | A commit can lead to no overselling if and only if at its own instant nobody else has a live lock or active ticket on its seats |
| SeatExact.DropIsSafeIff | services/events/ticket_allocator.py:204-256 | The DELETE of a confirm or cleanup, however late, can lead to no overselling if and only if no live lock it deletes, on a seat without an active ticket, is relied on by a lock_seats that can still roll back in time or a checkout that can still commit in time |
| SeatExact.RollbackIsSafeIff | services/events/ticket_allocator.py:121-125 | A rollback, however late, can lead to no overselling if and only if the same is true of the locks of others it deletes |
| SeatExact.CheckIsSafeIff | services/events/ticket_allocator.py:152-159 | A checkout with the id of a reservation still being locked can lead to no overselling if and only if that lock_seats can no longer roll back in time or the checkout can no longer commit in time |
| SeatExact.ConfirmFlushIsSafeIff | services/events/ticket_allocator.py:199-210 | The flush of a confirm, whatever has become of its rows since the SELECT, can lead to no overselling if and only if nobody else has a live lock or active ticket on their seats |
| SeatExact.CleanupFlushIsSafeIff | services/events/ticket_allocator.py:242-253 | The flush of a cleanup, whatever has become of its rows, can lead to no overselling if and only if no confirm has yet to delete the lock of a seat this flush makes unsold |
| SeatRuns.ConfirmedSeatIsSoldAgain | services/events/ticket_allocator.py:107-120 | A run at a single instant in which a confirmed, paid seat is locked and reserved a second time |
| SeatRuns.LateCommitOversells | services/events/ticket_allocator.py:152-174 | A run that respects every assumption but one commit after its locks expired, and oversells |
| SeatRuns.LateCleanupOversells | services/events/ticket_allocator.py:247-256 | Likewise for the DELETE of a cleanup that arrives after the seat has been locked anew |
| SeatRuns.LateRollbackOversells | services/events/ticket_allocator.py:111-125 | Likewise for one rollback, triggered by a refused SET NX, sent after its locks expired |
| SeatRuns.EarlyCheckOversells | services/events/ticket_allocator.py:152-159 | Likewise for one checkout of a reservation whose lock_seats is still running and then rolls back |
| SeatRuns.LateConfirmRevives | services/events/ticket_allocator.py:199-210 | Likewise for one confirm whose flush comes after a cleanup: it revives a released row, oversells the seat and counts the row a second time |
| SeatHistory.OversellingNeedsALapse | services/events/ticket_allocator.py:107-131 | With no assumption on callers: if two reservations ever get rows for one seat, both took its lock, and between the two the earlier lock reached its 300 s deadline or was deleted by a confirm, cleanup or rollback |
| SeatHistory.SecondLockMeansLapse | services/events/ticket_allocator.py:111-116 | A second successful SET NX on a key proves the first lock had expired or been deleted in between |
| SeatHistory.TameOversellingNeedsADrop | services/events/ticket_allocator.py:107-131 | Where checkouts present returned ids and rollbacks come before their locks expire, the deletion was one of a confirm or a cleanup, never of a rollback |
| SeatLedger.TicketsConserved | services/events/ticket_allocator.py:163-262 | Under (f) alone, after every run: rows inserted = pending rows + sum of confirm results + sum of cleanup results |
| SeatLedger.FlushBalancesIff | services/events/ticket_allocator.py:199-253 | A flush keeps those books balanced if and only if the rows it writes are all still pending |
| SeatLedger.OutcomesAreFinal | services/events/ticket_allocator.py:190-253 | Rows never vanish or change hands; under (f) alone confirmed or released rows are never touched again |
| SeatOutcomes.ConfirmedWasAskedFor | services/events/ticket_allocator.py:190-210 | Over every run, with no assumption: a row is confirmed only by the flush of a confirm_reservation that had been called with the row's own reservation id and had found it pending |
| SeatOutcomes.ReleasedHadTimedOut | services/events/ticket_allocator.py:231-253 | Over every run, with no assumption: a row is released only by the flush of a cleanup that had found it pending for more than 900 s |
| SeatLedger.BacklogBounded | services/events/ticket_allocator.py:223-262 | If a cleanup that has been flushed selected its rows within the last p, no pending ticket is older than 900 s plus p |
| SeatAges.CleanupMeetsNoLiveLock | services/events/ticket_allocator.py:231-256 | Under the safety invariant no seat a cleanup releases is locked, so its DELETE is harmless when sent at once |
| SeatAges.CleanupSparesTheReleased | services/events/ticket_allocator.py:42-46 | Under (e) alone, after every run: no released row, and no row of a cleanup whose DELETE is still to come, has its own reservation's live lock on its seat, because 300 s is less than 900 s; so no cleanup ever deletes a lock still held by the reservation it releases |
| SeatAtomic.PromptIsGuarded | services/events/ticket_allocator.py:58-75 | In runs whose operations are not interrupted, (a) is the only assumption left to make |
| TicketAllocation.TicketAllocator.HistoryIsARun | services/events/ticket_allocator.py:58-75 | The class state is the protocol state its recorded calls lead to, so tickets are conserved, and exclusive as long as locks are taken on seats without active tickets |
| TicketAllocation.TicketAllocator.OversellingNeedsADrop | services/events/ticket_allocator.py:107-256 | Otherwise, if two reservations have rows for one seat, the earlier lock had run its 300 s or a confirm or cleanup had deleted it before the later one was taken |
| TicketAllocation.Database.Select | services/events/ticket_allocator.py:190-199 | The rows that meet the condition, each once and in order |
| TicketAllocation.Database.Confirm | services/events/ticket_allocator.py:204-208 | The loop sets status and time of exactly the given rows and lists the lock key of each |
| TicketAllocation.Database.Release | services/events/ticket_allocator.py:247-251 | The same for released rows |
| TicketAllocation.TicketAllocator.LockSeats | services/events/ticket_allocator.py:84-131 | Succeeds exactly when the list is not empty, the event exists and the seats are distinct and free; then the key seat_lock:event:seat of each listed seat, and no other, names this user and reservation for 300 s; on any error the live locks are as before, for lists with repeats too; which error is raised, the conflict naming the first seat that is held or repeated |
| TicketAllocation.TicketAllocator.AcquireSeats | services/events/ticket_allocator.py:107-125 | The loop holds exactly the listed seats for 300 s, or stops at the first one held or repeated and leaves the live locks as before |
| TicketAllocation.TicketAllocator.Undo | services/events/ticket_allocator.py:121-125 | Deleting the acquired keys restores what any client could see before the call |
| TicketAllocation.TicketAllocator.TransitionToPendingPayment | services/events/ticket_allocator.py:137-174 | Succeeds exactly when every seat's key is live and names this user and reservation; appends one pending row per seat in order, each with every field given, or nothing; the conflict names the first seat without such a lock; leaves locks alone |
| TicketAllocation.TicketAllocator.ConfirmReservation | services/events/ticket_allocator.py:184-217 | Row by row: a row becomes confirmed now if it carries this reservation id and is pending, and is untouched otherwise; NotFound if and only if there is no such row, else their number; deletes exactly the keys of their seats, whoever holds them |
| TicketAllocation.TicketAllocator.CleanupAbandonedReservations | services/events/ticket_allocator.py:223-262 | Row by row: a row becomes released now if it is pending and was locked more than 900 s ago, and is untouched otherwise; returns their number and deletes exactly the keys of their seats |
| Payments.KeysAreApart | services/payments/payment_service.py:101-104 | Two idempotency keys are equal only for the same purchase and the same minute |
| Payments.PurchasesAreApart | services/payments/payment_service.py:117 | For ids without colons, different (user, event, amount) triples have different cache keys |
| Payments.ColonsMixTriples | services/payments/payment_service.py:117 | With a colon in an id two different triples share one cache key |
| Payments.RetryContract | services/payments/payment_service.py:248-294 | For any number n of attempts and any faults: a success, a CardError or an IdempotencyError ends the loop at once and is its result; a RateLimitError or another StripeError is the last reply only after exactly n attempts, and then the result is PaymentProcessingError; the sleep is that of each reply: 2^k base units after a rate limit, the same after another error unless it is the last, else none; at most 2^n - 1 in all |
| Payments.RetryOutcome | services/payments/payment_service.py:248-294 | The result by the faults of the tries alone: PaymentProcessingError if and only if all are transient, otherwise the first that is not decides: its card or idempotency error, or an intent for exactly the request sent |
| Payments.ThreeAttemptsSleep | services/payments/payment_service.py:256-287 | The three attempts sleep 1, 2 and 4 s, the last only on a rate limit |
| ChargeOnce.RunKeepsInv | services/payments/payment_service.py:106-129 | Over every run, every key Stripe has seen for a purchase dates from the minute of the last cache write or earlier, and the cached key is the one of that minute |
| ChargeWindow.AtMostOneCharge | services/payments/payment_service.py:131-167 | In every run, for all calls of a purchase made within 86400 s of the cache write, through lost replies, failures and other purchases: at most one PaymentIntent is created if and only if all executed attempts land within 86400 s of the first, and then all successful replies carry that one intent |
| ChargeWindow.EarlyCallsChargeOnce | services/payments/payment_service.py:131-167 | If every call of the purchase is made early enough for its network delays and 3 s of sleep to end within 86400 s of the cache write, at most one PaymentIntent is created and all successful replies carry it |
| ChargeWindow.MissIsUncharged | services/payments/payment_service.py:117-129 | A call that finds no cached key uses one Stripe has never seen |
| ChargeWindow.RetryFiles | services/payments/payment_service.py:256-294 | Whatever happens to its attempts, a retry loop leaves one charge under its key as long as they land in time, and reports that charge |
| ChargeWindow.RetryLandsSoon | services/payments/payment_service.py:256-294 | No attempt of a loop of n tries reaches Stripe later than its network delays plus 2^(n-1) - 1 base units of sleep after the start |
| ChargeWindow.LateAttemptChargesTwice | config/stripe_config.py:50-54 | Two calls made within 86400 s whose attempts are 86400 s apart create two intents for one purchase |
| KeyRace.DifferentKeysNeedARace | services/payments/payment_service.py:117-129 | With lookup, generation and write interleaved freely, two calls return different keys only if two misses generated them in different minutes and either each read before the other wrote, or one read 86400 s after the other wrote |
| KeyRace.BystanderGetsAnotherKey | services/payments/payment_service.py:117-129 | The calls that return different keys need not have raced themselves: one can start after the other has returned |
| KeyRace.UndisturbedCall | services/payments/payment_service.py:117-129 | Run without interruption the three steps are the lookup of the sequential model |
| ChargeRace.SameKeyChargesOnceIff | services/payments/payment_service.py:131-167 | In every interleaving of lookups and attempts of any number of calls, with attempts for other purchases in between: calls that all come back with one key create at most one PaymentIntent if and only if all executed attempts land within 86400 s of the first, and then all successful replies carry it |
| ChargeRace.TwoIntentsAreExplained | services/payments/payment_service.py:106-167 | In every such interleaving two intents for one purchase mean that attempts with one key landed 86400 s apart, or that two misses generated different keys in different minutes and raced each other or lie 86400 s apart |
| PaymentServices.PaymentService.GetOrSetIdempotencyKey | services/payments/payment_service.py:106-129 | A live non-empty value under idem:user:event:amount is returned and nothing written, otherwise the key generated for this minute is cached there for 86400 s and returned |
| PaymentServices.PaymentService.GenerateIdempotencyKey | services/payments/payment_service.py:75-104 | The digest of user, event, amount and minute joined by colons; it belongs to this purchase and this minute alone |
| PaymentServices.PaymentService.CallStripeWithRetry | services/payments/payment_service.py:248-294 | The loop, its sleeps and its effect on Stripe are those of the specified retry; it gives up exactly when every try meets a rate limit or another transient error, the first other fault decides, and an intent returned is for the request sent |
| PaymentServices.PaymentService.CreatePaymentIntent | services/payments/payment_service.py:131-167 | Rejects amounts that are not positive before touching anything; otherwise is one call of the run the charge theorem is about, and an intent returned has this amount, the lower-cased currency and the merged metadata |
| PaymentServices.PaymentService.BuildMetadata | services/payments/payment_service.py:152-159 | The metadata has the three service entries, overridden by the caller's, each of those cut to 500 characters |
| PaymentServices.WaitThenCall | services/payments/payment_service.py:131-167 | A call after a wait is the call with that gap, so method calls string together into the runs of the charge theorem |
| WebhookProtocol.SkippedIff | services/payments/stripe_webhook.py:95-98 | In every interleaving with crashes, a handling past its duplicate check was skipped if and only if some handling of the same event had been marked before it looked, less than 604800 s before |
| WebhookProtocol.TakesEffectIff | services/payments/stripe_webhook.py:88-111 | A finished handling has taken effect if and only if its dispatch did not fail and every mark of the event came after its check or had run out by then |
| WebhookProtocol.TwoEffectsNeedAnOverlap | services/payments/stripe_webhook.py:88-111 | So two handlings of one event both take effect only if each checked before the other's mark or one checked 604800 s after it |
| WebhookProtocol.SkipsAreEarned | services/payments/stripe_webhook.py:95-98 | A delivery is only ever skipped because a dispatch of the same event succeeded and was marked less than 604800 s before: failures never suppress retries |
| WebhookProtocol.ReplayHasNoEffectIff | services/payments/stripe_webhook.py:42-47 | Where an event comes in copies of one signed request and no handler stalls for days, a copy has no effect if and only if its dispatch fails or a copy had been marked before it looked |
| WebhookProtocol.ReplaysMustOverlap | services/payments/stripe_webhook.py:169-180 | Copies of one signed request are accepted less than 1201 s apart, so both take effect only if they overlap or a handler stalls for nearly seven days between its two checks |
| WebhookProtocol.TogetherBothTakeEffect | services/payments/stripe_webhook.py:42-47 | Two copies of one request handled together both take effect |
| WebhookProtocol.CrashBeforeMarkRepeats | services/payments/stripe_webhook.py:102-110 | A handler that dies after its dispatch and before its mark lets the next delivery take effect again |
| StripeWebhooks.StripeWebhookHandler.HandleWebhook | services/payments/stripe_webhook.py:73-111 | A signature error if and only if the signature is wrong or the timestamp more than 600 whole seconds away; then by whether the event succeeded and was marked in the last 604800 s, then by the dispatch; only a success is marked, under webhook:processed:id, and earlier handlings stay as they were |
| StripeWebhooks.StripeWebhookHandler.IsAlreadyProcessed | services/payments/stripe_webhook.py:182-184 | True exactly while the mark is live |
| StripeWebhooks.StripeWebhookHandler.MarkAsProcessed | services/payments/stripe_webhook.py:186-192 | The mark is set for 604800 s and nothing else changes |
| StripeWebhooks.MarkTells | services/payments/stripe_webhook.py:182-192 | The mark is live exactly when some dispatch of the event succeeded and was marked less than 604800 s ago |
| StripeWebhooks.EffectsAreAWeekApart | services/payments/stripe_webhook.py:58-60 | Handled one at a time, an event takes effect again only 604800 s after its last mark |
| StripeWebhooks.RequestsTakeEffectOnce | services/payments/stripe_webhook.py:169-192 | Handled one at a time, a signed request takes effect at most once however often it is delivered |
| SlidingWindow.Slide | utils/rate_limiter.py:86-93 | The trimmed, expiring sorted set counts exactly the instants of attempts in the window, and keeps standing for the full history |
| SlidingWindow.CountsAgreeIff | utils/rate_limiter.py:86-93 | The count is never more than the number of attempts in the window, and equal to it if and only if no two of them share an instant |
| SlidingWindow.RuleCountsAttempts | utils/rate_limiter.py:86-95 | Where the attempts in the window before it have distinct timestamps, a request is admitted exactly when fewer than max attempts, admitted or rejected, lie there |
| SlidingWindow.WindowNeverOverfull | utils/rate_limiter.py:86-95 | In every half-open window, wherever it lies, requests are admitted at no more than max instants, so at most max are admitted unless two of those share an instant |
| SlidingWindow.OneInstantIsUnlimited | utils/rate_limiter.py:89 | Without distinct timestamps, any number of requests at one instant is admitted as soon as max is 2 |
| SlidingWindow.IdleKeyAdmits | utils/rate_limiter.py:86-95 | After a whole window without attempts the next one is admitted |
| RateLimiting.RateLimiter.Check | utils/rate_limiter.py:67-111 | Allowed exactly when fewer than the limit's number of instants of the bucket's history lie in the window; remaining is what is left of the limit when allowed and 0 when not; limit, window and reset time reported; the attempt is recorded and no other bucket changes |
| RateLimiting.RateLimiter.Reset | utils/rate_limiter.py:121-124 | Forgets the history of that bucket and of no other |
| RateLimiting.LimitFollowsBucket | utils/rate_limiter.py:126-145 | A path gets an entry's limit and bucket exactly when it has the entry's prefix, whatever the order of the table |
| RateLimiting.LimitTable | utils/rate_limiter.py:33-40 | The limit of every path: 30 or 10 or 60 or 40 requests in 60 s, 5 in 300 s for registration, 100 in 60 s for all else |
| RateLimiting.PrefixesAreUnrelated | utils/rate_limiter.py:33-40 | A path has at most one of the table's prefixes |
| RateLimiting.BucketsAreApart | utils/rate_limiter.py:133-138 | Different (identifier, prefix) pairs have different keys, even for identifiers with colons |
| RateLimiting.SmsService.CheckRateLimit | services/notifications/sms_service.py:152-174 | The same rule for messages: 5 in 3600 s by the user's history; other users' histories unaffected |
| LoginLimiting.LoginLimiter.CheckRateLimit | services/users/auth_service.py:53-72 | Without interruption: refuses exactly when the last five or more attempts follow each other within 900 s each, the last less than 900 s ago; reports the remaining time; a refusal changes nothing; logins one by one keep the counter at 5 or less |
| LoginLimiting.TurnedAwayMeans | services/users/auth_service.py:62-68 | The refusal rule written out: there are five attempts, each of the last four follows the one before it within 900 s, and the last is less than 900 s ago |
| LoginLimiting.LoginLimiter.Read | services/users/auth_service.py:62-68 | The read alone, whatever raced before it: refused exactly when the counter under rate:login:identifier is alive and at least 5, which is the rule on the attempts |
| LoginLimiting.LoginLimiter.Increment | services/users/auth_service.py:69-72 | The pipeline alone: one more on the counter, alive for 900 s from now, and one more attempt at this instant, whatever happened since the read; other identifiers unaffected |
| LoginLimiting.FairIsBounded | services/users/auth_service.py:62-72 | Where logins come one by one the counter never exceeds 5 |
| LoginLimiting.ChainsAreShort | services/users/auth_service.py:62-72 | Any chain of attempts with gaps under 900 s is no longer than the largest counter value, which is 5 where logins come one by one |
| LoginLimiting.StepsTakeAWindow | services/users/auth_service.py:62-72 | With counter values up to c, c * m attempts later at least m windows have passed |
| LoginLimiting.IntervalBound | services/users/auth_service.py:62-72 | A closed interval of l then holds at most c * (l / 900 s + 1) attempts |
| LoginLimiting.FivePerWindowIff | services/users/auth_service.py:36-40 | There are never more than five admitted attempts in the last 15 minutes, and five are always refused a sixth; a refusal with fewer happens if and only if the chain of attempts is five long, the first of the five is out of the window and the last one is not |
| LoginLimiting.WaitingAlwaysHelps | services/users/auth_service.py:62-72 | An attempt 900 s or more after the last admitted one is admitted and starts a new chain |
| LoginLimiting.SlowUserIsTurnedAway | services/users/auth_service.py:36-40 | A user can be refused with a single admitted attempt in the last 15 minutes |
| LoginLimiting.AttemptTracked | services/users/auth_service.py:69-72 | INCR and EXPIRE keep the counter equal to the length of the current chain of attempts, racing or not |
| LoginRace.RacersBound | services/users/auth_service.py:62-72 | In every interleaving with at most r logins at a time between their read and their increment, no chain is longer than 4 + r, and a closed interval of l holds at most (4 + r) * (l / 900 s + 1) attempts |
| LoginRace.RacersReachTheBound | services/users/auth_service.py:62-72 | For every r there is such a run with 4 + r attempts at one instant |
| AmountPrinter.GroupDigits | services/payments/invoice_generator.py:269-276 | The loop and the passes over the list build the groups of three, most significant first |
| AmountPrinter.FormatAmount | services/payments/invoice_generator.py:246-286 | The text is the symbol, a minus exactly for negative amounts, the floored whole part with a separator before every third digit from the right and nowhere else, the decimal separator and exactly two digits |
| AmountPrinter.WholeInThrees | services/payments/invoice_generator.py:264-277 | The digits of the whole part come out in order with a separator before every third from the right and nowhere else |
| AmountPrinter.OneTextInThrees | services/payments/invoice_generator.py:264-277 | Only one text has separators there, so that settles the whole part |
| AmountPrinter.DocumentedExample | services/payments/invoice_generator.py:253-258 | 123456 comes out as "$1,234.56", or "1.234,56" with European separators and no symbol |
| AmountPrinter.PrinterInverts | services/payments/invoice_generator.py:260-286 | For every integer amount and legible separators, reading the printed text gives the amount back |
| AmountPrinter.OrdinaryReadingIff | services/payments/invoice_generator.py:260-282 | Read as an ordinary signed decimal the text is right if and only if the amount is not negative or is a multiple of 100 |
| AmountPrinter.GroupShape | services/payments/invoice_generator.py:269-277 | The first group has 1 to 3 digits without a leading zero, the others exactly 3 |
| RefundConversion.ConvertIsNearest | services/payments/refund_processor.py:277-301 | In all four decimal combinations the result is within half a target minor unit of the exact value, and conversion is monotone |
| RefundConversion.ConvertRoundsHalfUp | services/payments/refund_processor.py:277-301 | In each of the four decimal combinations, with the exact value written out, a result is the conversion if and only if it is the nearest integer, ties going away from zero on either side; without a rate the amount is handed on |
| RefundConversion.TiesGoAway | services/payments/refund_processor.py:295-301 | Concrete ties: 50.5 yen give 51, half a yen gives 1, and so with the opposite sign |
| RefundConversion.PartialRefundsAddUp | services/payments/refund_processor.py:277-301 | Splitting a refund into n parts changes the converted total by at most (n + 1) / 2 minor units, and by nothing without a rate |
| RefundConversion.RoundTripError | services/payments/refund_processor.py:277-301 | Converting there at a rate and back at its inverse errs by at most 1/2 + 1/(2k) |
| RefundConversion.RoundTripIff | services/payments/refund_processor.py:277-301 | The round trip is the identity on all amounts if and only if k >= 1 |
| EventCalendar.CalendarKeptIff | services/events/event_service.py:113-185 | Over all runs of creates, updates and deletes with new ids, distinct live events at a venue stay 60 minutes apart throughout if and only if every accepted update sends a time, or does not move or revive its event, or goes to a free place |
| EventCalendar.UpdateKeepsCalendarIff | services/events/event_service.py:155-170 | An accepted update keeps the calendar if and only if it sends a time, or does not move or revive the event, or the place it takes is free |
| EventCalendar.UncheckedUpdateDoubleBooks | services/events/event_service.py:155-170 | A bare change of venue, a bare change of status, or both, is accepted and double books wherever another live event stands in the way |
| CalendarRace.UndisturbedCreate | services/events/event_service.py:113-140 | The conflict query and the insert in a row are create_event |
| CalendarRace.HourIsNeverCrowded | services/events/event_service.py:117-135 | In every interleaving of queries, inserts and removals: if at most r creations for a venue and an hour are between query and insert at a time, at most r live events start there within that hour |
| CalendarRace.RacersDoubleBook | services/events/event_service.py:117-135 | For every r there is such a run with r events in that hour |
| CheckThenInsert.RacersBound | services/events/event_service.py:117-135 | The general law behind it: of rows any two of which exclude each other, no more get in than requests for them race |
| EventCalendar.VenueIsNeverCrowded | services/events/event_service.py:76-107 | In runs of accepted updates of that kind at most floor(L / 60) + 1 live events at a venue start in any interval of L minutes |
| EventCalendar.RunsStayForward | services/events/event_service.py:55-63 | Over all runs events end after they start |
| EventCalendar.UpdateKeepsProperIff | services/events/event_service.py:155-170 | An accepted update keeps category, dates and capacity valid if and only if it sends no empty category, no zero capacity, and no new venue that is unknown or too small without a capacity |
| EventCalendar.ProperKeptIff | services/events/event_service.py:113-170 | Over all runs every row stays valid throughout if and only if every accepted update is such a one |
| EventCalendar.RowsBelongToTheirOrganizer | services/events/event_service.py:151-185 | Rows are never removed, keep their organizer, and change only in that organizer's calls |
| EventCalendar.EventService.ValidateDates | services/events/event_service.py:55-63 | Accepts exactly an end after the start, a start at least an hour ahead and at most 14 days in between |
| EventCalendar.EventService.ValidateCapacity | services/events/event_service.py:65-74 | Accepts exactly 1 to the venue's capacity; an unknown venue is not found |
| EventCalendar.EventService.CheckVenueConflict | services/events/event_service.py:76-107 | The buffered query finds a conflict exactly when some other live event at the venue is less than 60 minutes away |
| EventCalendar.EventService.CreateEvent | services/events/event_service.py:113-140 | The first complaint in the code's order, or the new row field by field, a draft; a duplicate is rolled back |
| EventCalendar.CreateMeans | services/events/event_service.py:55-140 | What is refused in which order, written out: one of ten categories, a start 3600 s ahead, at most 14 days, a known venue, 1 to its capacity, 3600 s from any other live event; and the row inserted |
| EventCalendar.EventService.UpdateEvent | services/events/event_service.py:148-175 | The first complaint in the code's order and no change, or, field by field, each sent field has the new value and each other field, the organizer included, its old one, with the time of the update; no other row changes |
| EventCalendar.UpdateMeans | services/events/event_service.py:148-175 | What is refused in which order, written out: only the organizer; dates and the 3600 s distance only when a start or end is sent; the category unless empty, the capacity unless zero |
| EventCalendar.EventService.DeleteEvent | services/events/event_service.py:177-185 | Cancels the row for its organizer only |
| UserStore.CheckPermission | services/users/user_service.py:84-125 | Granted exactly to super admins, to owners for permissions ending in read or write, and by a role that lists the permission; strangers and permissions of other kinds get nothing from ownership |
| UserStore.WhoSeesUsers | services/users/user_service.py:51-82 | Which roles hold each of the users: permissions, the table read by columns |
| UserStore.WhoSeesEvents | services/users/user_service.py:51-82 | The same for events: |
| UserStore.WhoSeesTheRest | services/users/user_service.py:51-82 | The same for billing:, analytics: and community: |
| UserStore.LastPartIs | services/users/user_service.py:115-116 | The text after the last colon is a given word exactly when the permission ends in that word after a colon |
| UserStore.OwnersOnlyReadAndWrite | services/users/user_service.py:93-98 | Owning a resource never grants deleting or administering |
| UserStore.OnlySuperAdminsAdminister | services/users/user_service.py:164-169 | users:admin is granted exactly to super admins |
| UserStore.AdminsWriteAndDelete | services/users/user_service.py:151-170 | Writing to an account is for super admins, admins and its owner, deactivating one for super admins and admins |
| UserStore.RunsKeepAddresses | services/users/user_service.py:174-183 | Over all runs stored addresses stay lower-case and pairwise distinct |
| Text.LowerLetter | services/users/auth_service.py:142-145 | An address is looked up and stored with each capital letter replaced by its small one and nothing else changed |
| UserRace.UndisturbedRegister | services/users/auth_service.py:142-167 | The lookup and the insert in a row are register |
| UserRace.AddressIsNeverCrowded | services/users/auth_service.py:142-167 | In every interleaving of registrations: if at most r for an address are between lookup and insert at a time, at most r accounts have it, so one when they come one by one |
| UserRace.RacersShareAnAddress | services/users/auth_service.py:142-167 | For every r there is such a run with r accounts, unless the table itself refuses |
| UserStore.DeactivationsAreDated | services/users/user_service.py:236-267 | Over all runs an account is inactive exactly when it has a date of deactivation, no date lies ahead, and an account once deactivated stays so with a date that only grows |
| UserStore.RoleChangesNeedASuperAdmin | services/users/user_service.py:167-170 | An existing user's roles change only in an update carrying a super admin token, to exactly the roles sent |
| UserStore.NobodyRises | services/users/user_service.py:143-189 | If no user or token starts with super_admin, none ever gains it and no existing user's roles ever change |
| UserStore.NewcomersAreAttendees | services/users/auth_service.py:156-161 | Over all runs an account that was not there at the start has exactly the role attendee, unless an update with a super_admin token wrote the roles it has |
| UserStore.OldTokensOutliveDemotion | services/users/auth_service.py:79-87 | A token issued before a demotion can undo the demotion |
| UserStore.UserTable.Register | services/users/auth_service.py:142-167 | Refuses a known address whatever its case and changes nothing; else adds, with the next id, an active, unverified row with the lower-cased address, the name and the roles ["attendee"], and issues a token with these roles; no other row changes |
| UserStore.UserTable.SsoAuthenticate | services/users/auth_service.py:286-308 | For a user with the lower-cased address issues a token with the stored roles and changes no row; else adds such a row, verified exactly for addresses at @eventpulse.com, and issues a token with ["attendee"] |
| UserStore.UserTable.UpdateUser | services/users/user_service.py:143-189 | The first complaint in the code's order and no change, or exactly the sent fields changed, the address unverified if it was sent, and the time of the update noted |
| UserStore.UpdateMeans | services/users/user_service.py:143-189 | What is refused in which order, written out: only a super admin, an admin or the owner; an existing account; roles only by a super admin; an address nobody else has; and every field afterwards |
| UserStore.UserTable.DeactivateUser | services/users/user_service.py:236-267 | Refused to all but super admins and admins, then for one's own account, then for an unknown one; otherwise only clears the active flag and notes when |

## Left out

- Redis keys of different services live in separate maps or services: their prefixes never meet, and the model does not state this again for each pair.
- A flush counts as the commit, and an exception discards uncommitted changes: session and transaction handling of the database are not modelled.
- SHA-256 is any injective function with non-empty results; HMAC is one bit of a delivery; PBKDF2, JWT encoding and token expiry are absent.
- The minute inside an idempotency key is its number since the epoch in decimal, not the formatted UTC date; both determine the minute.
- uuid4 and database ids are parameters required to be new.
- Clocks: one clock for all hosts and for Redis, whole microseconds instead of floats; sliding-window timestamps are those microseconds.
- LoginLimiting.LoginLimiter.CheckRateLimit: the read and the increment in a row; Read and Increment are the two calls on their own, and LoginRace has the bound for concurrent logins. GET and the TTL that is read for the message are one step, and so are Redis pipelines everywhere.
- SlidingWindow.WindowNeverOverfull: bounds the number of admitted instants, and the number of admitted requests only where these do not share instants, because the sorted set keeps one member per timestamp; SlidingWindow.OneInstantIsUnlimited shows what happens otherwise.
- SeatProtocol: confirmed_at and released_at are the instant of the flush, where the code takes the time just before it; a checkout's rows carry the instant of their flush in the same way, and a cleanup takes its cutoff at its SELECT.
- AmountPrinter.PrinterInverts: only for separators a reader can tell from digits and from each other; a printer with ambiguous separators has no inverse.
- Stripe is only the deduplicating server; confirm, retrieve, process_payment and the reply's client secret are not modelled, nor are Twilio, SendGrid and Okta.
- StripeWebhooks.StripeWebhookHandler.HandleWebhook: header parsing and JSON decoding are not modelled; a delivery comes as an event id, a timestamp and whether the signature is right.
- _dispatch_event: the handlers behind it are an abstract success or failure that takes some time.
- _get_historical_exchange_rate: the rate is an argument; the query takes the latest row, not the historical one the comment promises.
- Decimal's 28-digit context: conversion is over exact rationals.
- format_for_client: only its calls of the printer matter; date formats and ASCII stripping are display.
- EventCalendar.EventService.UpdateEvent: a field sent as null is not modelled, an update holds only values; whether the columns would take a null is for the models, which are not in the repository.
- Concurrency of the tables: events and accounts are created concurrently in CalendarRace and UserRace; updates, deletes and all other operations of EventCalendar and UserStore check and write in one step.
- UserStore.RunsKeepAddresses: one operation at a time; UserRace has concurrent registrations.
- EventStatus beyond draft and cancelled, and the schemas and models that are not in the repository: other statuses are names; EventUpdate is taken to cover the columns an organizer may edit, including the status.
- Accounts, invoices' numbering and dates, PDF rendering, PostGIS search, listing and pagination: thin wrappers or library behaviour without rules of their own.
- Users' password hashes, MFA and sessions: they do not affect the invariants proved; login, MFA and refresh appear as issuing a token for a stored user at any time.
- str.lower on text beyond ASCII.
