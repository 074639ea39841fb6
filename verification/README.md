# TeleBos: a verified model of its protocols

TeleBos runs Telegram accounts for its users: it answers private messages
automatically, sells orders and subscriptions from a wallet, streams videos,
and keeps two user tables in step. This project models the parts of its
backend whose correctness is not visible in one function body, and proves what
holds for every input, every interleaving and every reachable state.

| Component | Files | Main results |
|---|---|---|
| Auto-reply pipeline | `AutoReply`, `AutoReplySafety`, `AutoReplyLimits`, `AutoReplyBooks`, `AutoReplyAlone`, `AutoReplyEngine`, `RedisKeys` | one reply per pair exactly when `D1 + D2 <= 60` s; the hourly bound `29 + K`, attained for every `K`; metrics, log and Redis agree in every reachable state; the objects follow the same runs |
| Order idempotency | `Orders`, `OrdersSafety`, `OrdersEndpoint` | at most `1 + expiries + fall-throughs + lost commits` placements per key, attained for all such numbers; a stored answer is the order of that user and key and is replayed until it expires |
| Schema bootstrap | `Bootstrap`, `BootstrapLoop` | no create step ever hits an existing object exactly when there is a lock, at most one process, nothing to create or no attempt; a return means a complete schema exactly when there is an attempt, no process or nothing missing; fault-free startups end within a bound, complete |
| Wallet and subscription | `Wallet`, `WalletConservation`, `CheckoutSessions`, `Subscription`, `SubscriptionSessions`, `CheckoutEndpoint` | for every run of concurrent requests: the wallet is never overdrawn, money is conserved exactly when no commit wrote a balance worked out from one that was no longer stored, and the account is that of the serial run exactly when every commit meets a guard on the row it loaded; for serial runs, and so for those: expiry and role in closed form |
| Byte-range streaming | `Streaming` | the endpoint emits exactly the selected bytes through either generator; its responses to tiles reassemble the file |
| Two-way user sync | `UserSync` | complete, idempotent, loses nothing; when it succeeds, exactly |
| Username candidates | `Usernames` | for any shuffles and numbers the loop ends exactly when the first name has at most 30 letters; quality of the names |
| Forwarded address | `RealIp`, `Text` | the rightmost untrusted entry; when prepending is harmless, exactly |
| Registry and sharding | `Registry`, `Sharding` | membership over all runs; shards partition accounts and queue names are injective |

**How concurrency is modelled.** Each protocol is a state and a set of events.
An event is what one participant does between two awaits (or one database
transaction step), or the clock, an expiry, a fault. A run is any sequence of
enabled events, so nothing is assumed of the scheduler. Code that updates
objects or loops is also given as classes and methods, proved against the step
functions of the model (`AutoReplyEngine`, `OrdersEndpoint`, `CheckoutEndpoint`,
`Registry.ConnectionManager`, `UserSync.Database`). `AutoReplyEngine.RunTrial` and
`OrdersEndpoint.OpenAndServe` drive those objects through any schedule and carry the
results about runs over to them; `BootstrapLoop.InitSchema` ends as a run of the
bootstrap protocol with one locking process does.

**Promises that do not hold as they stand.** Each is kept as the code has it,
with the exact condition under which it holds.

- The simulator's claim of no double reply needs `D1 + D2 <= 60` seconds
  (`OneReplyExactly`); the 30-per-hour limit needs at most one handler per
  account and hour between the counter read and the increment
  (`HourlyCapExactly`), because the lock is per sender.
- Pre-seeding the config cache writes the text "None" for a NULL text, so an
  enabled account without a text would answer "None" (`SeedAgrees`).
- A key can lead to several orders when its cell expires while its holder is at
  work, when a loser's `GET` finds the cell already gone, or when a commit takes
  effect and is reported as a failure; the bound counts all three
  (`PlacementsBounded`, `BoundAttained`). A stored answer can be overwritten before
  it expires, by a holder from before an earlier expiry that is still at work, and by
  nobody else (`ReplayHoldsExactly`, `TwoHolders`).
- `init_schema` with `attempts=0` returns without creating anything
  (`ReturnsCompleteExactly`).
- A suffix range `bytes=-n` is served as the first `n + 1` bytes, which is right
  only when `n` is at least the file's size (`SuffixRangeExactly`; section
  14.1.2 of RFC 9110).
- The row lock of the checkout does not protect the balance. The locking SELECT
  (`backend/app/api/redeem.py:120-123`) runs in the session that loaded the user at
  authentication (`backend/app/dependencies.py:135-138`), without
  `populate_existing`, which `backend/app/services/order_service.py:763` sets for
  its order row, and with `expire_on_commit=False`; so it hands out the row in hand.
  The code is therefore the case `refresh == false`. Any two overlapping checkouts
  can lose a deduction (`OverlapLoses`); a run conserves money exactly when no commit
  was stale (`ConservedExactly`); requests that do not overlap do
  (`OneByOneConserves`), and a refreshing read would make all runs conserve it
  (`RefreshConserves`). No run overdraws the wallet (`NeverOverdrawn`).
- For the same reason overlapping requests can lose what was paid for. Two checkouts
  can both be approved and leave one period (`OverlapLoses`, `PeriodLost`); a page view
  that loaded a plan that had run out puts the user back on trial after the checkout
  that bought it anew (`VisitUndoes`), because `auto_downgrade_if_expired`
  (`backend/app/services/redeem_service.py:342-363`) decides on the row it loaded and
  its UPDATE waits for the other commit. The closed forms of expiry and role hold of
  serial runs, and an interleaving is serial at every state on the way exactly when
  every commit meets a guard on the balance, role and expiry it loaded against the
  stored ones (`SerialExactly`, `CommitAgreesExactly`, `InterleavedPlan`).
- An email shared by different ids stops the sync. The comment says that a failing
  backward half never blocks startup; but the caught error leaves PostgreSQL's
  transaction aborted, so the next statement raises and both halves roll back
  (`SyncSucceedsExactly`).
- The username generator never ends for a first name of 31 or more letters
  (`TerminatesExactly`), and an attempt of fewer than five characters is counted
  but never yielded (`AttemptMatchesExactly`).
- When all entries of a forwarded header are trusted, a prepended address is
  believed (`PrependingExactly`).

## Model

| member | source | states |
|---|---|---|
| `AutoReplySafety.AtMostOneReply` | backend/scripts/simulate_autoreply_monte_carlo.py:239-265 | For any accounts, number of handlers and interleaving: if a handler never waits longer than D1 from log read to lock attempt nor D2 from lock to log insert, and D1 + D2 is at most 60 s, no (account, sender) pair is ever sent two replies. |
| `AutoReplySafety.LongDelaysDouble` | backend/scripts/simulate_autoreply_monte_carlo.py:95-107 | For every D1 and D2 that add up to more than 60 s there is a run within those delays in which one pair is sent two replies. |
| `AutoReplySafety.OneReplyExactly` | backend/scripts/simulate_autoreply_monte_carlo.py:250-265 | One reply per pair in every timely run if and only if D1 + D2 <= 60. |
| `AutoReplyLimits.HourlyCap` | backend/scripts/simulate_autoreply_monte_carlo.py:170-190 | In every reachable state the hourly counter plus the handlers between counter read and increment is at most 29 + K, where K bounds those handlers for that account and hour. |
| `AutoReply.HourExactly` | backend/scripts/simulate_autoreply_monte_carlo.py:177-177 | A time is in hour h if and only if it lies in the 3600 seconds from 3600 h on. |
| `AutoReplyLimits.RateKeyExactly` | backend/scripts/simulate_autoreply_monte_carlo.py:177-178 | Two messages share a counter if and only if they are of one account and one such window. |
| `AutoReplyLimits.RepliesPerWindow` | backend/scripts/simulate_autoreply_monte_carlo.py:170-190 | Read off handlers and message times alone: to the messages of one account in any such window at most 29 + K replies are completed, in every reachable state. |
| `AutoReplyLimits.HourlyCapAttained` | backend/scripts/simulate_autoreply_monte_carlo.py:245-267 | For every K >= 1 a run within that bound reaches a counter of 29 + K and reports K - 1 hourly violations. |
| `AutoReplyLimits.HourlyCapExactly` | backend/scripts/simulate_autoreply_monte_carlo.py:176-181 | The cap of 30 holds in every run with at most K in-flight handlers if and only if K <= 1. |
| `AutoReplyLimits.NoHourlyViolation` | backend/scripts/simulate_autoreply_monte_carlo.py:275-279 | With at most one handler in flight per account and hour, the violation metric stays zero and every counter at most 30. |
| `AutoReplyBooks.MetricsAddUp` | backend/scripts/simulate_autoreply_monte_carlo.py:201-284 | In every reachable state: events = all outcome counters + unknown-account drops + handlers in flight; each counter is the number of handlers that ended that way; dedup violations + log size = attempts to record; no pair is reported twice. |
| `AutoReplyBooks.RedisAgrees` | backend/scripts/simulate_autoreply_monte_carlo.py:213-243 | In every reachable state a marker implies a logged pair, a cached config decides as the database row does, and handlers stopped by either fast path would have been stopped by the database. |
| `AutoReplyBooks.OnlyEligibleReplies` | backend/scripts/simulate_autoreply_monte_carlo.py:204-232 | Every reply ever sent carries the text of an enabled account to a sender outside the service list; group and bot messages never pass validation. |
| `AutoReplyBooks.MarkerSuppresses` | backend/scripts/simulate_autoreply_monte_carlo.py:234-243 | For thirty days after a pair's marker was written, over any run, its messages end as duplicates at the marker check. |
| `AutoReplyBooks.CooldownSuppresses` | backend/scripts/simulate_autoreply_monte_carlo.py:171-174 | For five seconds after a pair's cooldown was set, over any run, its messages end as rate limited. |
| `AutoReplyBooks.SeedAgrees` | backend/scripts/simulate_autoreply_monte_carlo.py:371-377 | A pre-seeded config decides as its row if and only if the row has a text or is disabled; a config written on a miss always does. |
| `AutoReplyAlone.AloneExactly` | backend/scripts/simulate_autoreply_monte_carlo.py:192-284 | For every world and message: a handler that runs alone ends as one decision table says (validation, config, marker, log, cooldown, 30 in the hour, lock), sends the account's text and logs the pair if the table says so, and otherwise does neither. |
| `AutoReplyEngine.MockRedis.GetKey` | backend/scripts/simulate_autoreply_monte_carlo.py:86-93 | The class method equals the value-level read with lazy expiry. |
| `AutoReplyEngine.MockRedis.HasKey` | backend/scripts/simulate_autoreply_monte_carlo.py:114-121 | Same for the existence test. |
| `AutoReplyEngine.MockRedis.SetIfAbsent` | backend/scripts/simulate_autoreply_monte_carlo.py:95-107 | Same for SET NX EX: expired keys are purged first, a present key is kept. |
| `AutoReplyEngine.MockRedis.SetWithExpiry` | backend/scripts/simulate_autoreply_monte_carlo.py:109-112 | Same for SETEX. |
| `AutoReplyEngine.MockRedis.Increment` | backend/scripts/simulate_autoreply_monte_carlo.py:123-127 | Same for INCR, which neither reads nor sets an expiry. |
| `AutoReplyEngine.MockDatabase.RecordReply` | backend/scripts/simulate_autoreply_monte_carlo.py:151-158 | The pair is in the log afterwards; inserted if and only if it was not there. |
| `AutoReplyEngine.Engine.Accept` | backend/scripts/simulate_autoreply_monte_carlo.py:201-211 | Counting and validation change the shared state as the arrival step does. |
| `AutoReplyEngine.Engine.Configure` | backend/scripts/simulate_autoreply_monte_carlo.py:213-232 | The config stages change the shared state and the handler's phase as the model's stage does. |
| `AutoReplyEngine.Engine.Screen` | backend/scripts/simulate_autoreply_monte_carlo.py:234-243 | Same for the marker and log stages. |
| `AutoReplyEngine.Engine.CheckRateLimit` | backend/scripts/simulate_autoreply_monte_carlo.py:170-183 | Same for cooldown and hourly counter. |
| `AutoReplyEngine.Engine.Deliver` | backend/scripts/simulate_autoreply_monte_carlo.py:250-265 | Same for lock, send and log insert. |
| `AutoReplyEngine.Engine.RecordInRedis` | backend/scripts/simulate_autoreply_monte_carlo.py:185-190 | Same for the three Redis writes after the insert. |
| `AutoReplyEngine.Engine.Report` | backend/scripts/simulate_autoreply_monte_carlo.py:269-279 | The reply is counted for its pair and its hour, and exactly the numbers above 1 and 30 raise the two violation metrics. |
| `AutoReplyEngine.Engine.Proceed` | backend/scripts/simulate_autoreply_monte_carlo.py:192-284 | Whatever stage a handler is at, resuming the engine equals one step of the state machine. |
| `AutoReplyEngine.PreSeed` | backend/scripts/simulate_autoreply_monte_carlo.py:371-377 | The pre-seeding loop leaves the seeded config of each chosen account and nothing else. |
| `AutoReplyEngine.Trial.Follow` | backend/scripts/simulate_autoreply_monte_carlo.py:352-377 | For any schedule of arrivals, resumptions and clock ticks, the handlers, the engine, Redis and the database end as the run of the state machine does. |
| `AutoReplyEngine.RunTrial` | backend/scripts/simulate_autoreply_monte_carlo.py:352-377 | A trial on these objects, under any schedule: the metrics object adds up, and if handlers are timely with D1 + D2 <= 60 the engine has sent no pair two replies. |
| `RedisKeys.RenderInjective` | backend/scripts/simulate_autoreply_monte_carlo.py:172-251 | Distinct marker, cooldown, counter and lock keys never print the same Redis string. |
| `OrdersSafety.PlacementsBounded` | backend/app/api/orders.py:157-234 | In every reachable state, placements under one key are at most 1 + expiries of its cell + requests that went on without the lock + holders whose commit was reported as a failure; for single orders the same bound holds of the order rows. |
| `OrdersSafety.AtMostOneOrder` | backend/app/api/orders.py:163-178 | With none of the three, at most one order, even when failing holders delete a later holder's cell. |
| `OrdersSafety.BoundAttained` | backend/app/api/orders.py:166-234 | For every number of expiries, of fall-throughs and of lost commits, a reachable state attains the bound. |
| `OrdersSafety.StoredIdsCertified` | backend/app/api/orders.py:202-208 | A stored cell, and every replayed answer, names only orders committed for that same user under that same key and endpoint. |
| `OrdersSafety.AnswersExactly` | backend/app/api/orders.py:164-234 | In every reachable state: a finished request, keyed or not, is answered with placed orders if and only if it committed and heard of it, and these are its own; it is refused only if it had not; conflict, unavailability and replay go to keyed requests that committed nothing. |
| `OrdersSafety.ReadExactly` | backend/app/api/orders.py:166-178 | Reading the cell: conflict if and only if it is in progress, the lookup of its ids if and only if it holds some, placing without the lock if and only if it is gone. |
| `OrdersSafety.FailsClosed` | backend/app/api/orders.py:181-188 | Whatever Redis or the lookup raises, the keyed request is told the service is unavailable and places nothing. |
| `OrdersSafety.FallsExactly` | backend/app/api/orders.py:166-190 | From every reachable state a request goes on without the lock if and only if it reads its cell and finds it gone. |
| `OrdersSafety.ReplayReturnsStored` | backend/app/api/orders.py:174-178 | A request that read ids from its cell answers with exactly those ids; the lookup never misses. |
| `OrdersSafety.ReplayHolds` | backend/app/api/orders.py:165-177 | After the sole holder has stored its order, as long as the cell has not expired since, every later request that reads the cell gets that order, over any run. |
| `OrdersSafety.ReplayHoldsExactly` | backend/app/api/orders.py:165-215 | A stored order stays in its cell, over every run without a further expiry, if and only if no other holder of the lock is still at work; a cell that has never expired has none. |
| `OrdersSafety.TwoHolders` | backend/app/api/orders.py:163-208 | A reachable state in which one holder is about to store while one from before an expiry is still placing. |
| `Orders.RenderInjective` | backend/app/api/orders.py:160-162 | Distinct (endpoint, user, key) triples never share a Redis key. |
| `Orders.CellExactly` | backend/app/api/orders.py:160-162 | The key is the header's text between its white space; a blank or missing header gives none. |
| `OrdersEndpoint.Shop.TakeLock` | backend/app/api/orders.py:163-166 | The endpoint's SET NX equals the state machine's step. |
| `OrdersEndpoint.Shop.ReadBack` | backend/app/api/orders.py:166-178 | Same for the read after a lost SET NX: conflict, replay or fall-through. |
| `OrdersEndpoint.Shop.FindExisting` | backend/app/api/orders.py:285-291 | The lookup loop returns, in order, exactly the stored ids that name an order of this user. |
| `OrdersEndpoint.Shop.Replay` | backend/app/api/orders.py:282-291 | A non-empty lookup answers the request, an empty one falls through, as in the state machine. |
| `OrdersEndpoint.Shop.Place` | backend/app/api/orders.py:190-208 | Committing appends this user's rows under this key; with the lock the request moves on to the store, or to the delete when the commit was taken for a failure. |
| `OrdersEndpoint.Shop.Remember` | backend/app/api/orders.py:202-208 | The store, applied or lost, equals the state machine's step. |
| `OrdersEndpoint.Shop.Forget` | backend/app/api/orders.py:211-234 | The delete after a failure, applied or lost, equals the state machine's step. |
| `OrdersEndpoint.Shop.Serve` | backend/app/api/orders.py:157-234 | For any schedule of requests, failures and expiries, cells, order table and requests end as the run of the state machine does. |
| `OrdersEndpoint.OpenAndServe` | backend/app/api/orders.py:157-340 | A shop that opens empty and serves any schedule keeps the placement bound for every key, its cells name only orders committed under them, and a finished request is told of its own orders if and only if it committed and heard of it. |
| `Bootstrap.LockedBootstrap` | backend/app/db_bootstrap.py:58-101 | With the advisory lock, over any run of any number of processes with faults, lost commits and retries: no create step hits an existing object, every process that returns leaves all metadata objects committed, and one gives up only after as many faults as attempts. |
| `Bootstrap.SecondHits` | backend/scripts/negative_control_no_lock.py:20-40 | Without the lock, from every start with two processes and something to create, a run hits an existing object. |
| `Bootstrap.HitFreeExactly` | backend/app/db_bootstrap.py:6-23 | All runs are free of hits if and only if there is the lock, or at most one process, or nothing left to create, or no attempt. |
| `Bootstrap.ReturnsCompleteExactly` | backend/app/db_bootstrap.py:71-84 | With or without the lock: in every reachable state every returned process leaves all metadata objects in place if and only if there is at least one attempt, or no process, or nothing was missing. |
| `Bootstrap.Progress` | backend/app/db_bootstrap.py:73-84 | In every reachable state, while any process is unfinished some step other than a fault is enabled: the lock never deadlocks. |
| `Bootstrap.FaultFreeStartup` | backend/app/db_bootstrap.py:71-84 | A run without faults has at most (objects + 6) steps per process, and when it can go no further every process has returned with the schema complete. |
| `BootstrapLoop.Database.CreateAll` | backend/app/db_bootstrap.py:73-77 | The loop over missing objects adds all of them, or nothing when the transaction rolls back. |
| `BootstrapLoop.Database.RunMigrations` | backend/app/db_bootstrap.py:79-83 | The second transaction adds all of its changes or none. |
| `BootstrapLoop.InitSchema` | backend/app/db_bootstrap.py:71-101 | Succeeds if and only if some attempt has no fault (or there are none to make), at the first such attempt, having slept n(n-1) seconds; the schema is what was there and what any attempt committed; outcome, schema and faults are those of a run of the bootstrap protocol with one locking process. |
| `Wallet.PriceList` | backend/app/api/redeem.py:105-116 | The six prices, the two durations, and that nothing else is for sale. |
| `Wallet.CheckoutExactly` | backend/app/api/redeem.py:112-195 | For every wallet and order: the price leaves the balance, with one debit and an approved transaction, if and only if the method is balance or auto, the plan is for sale, the balance covers it and the id is free; otherwise balance and ledger stay, and at most a pending invoice is added, by USDT if asked for and else by QRIS. |
| `WalletConservation.RunsConserve` | backend/app/models/wallet_ledger.py:13-35 | From the baseline, after any sequence of checkouts, invoices, visits and other ledger entries: balance never negative, entries chain before/after, signed ledger sum = balance, and each balance-paid approved transaction has exactly one debit with its id and amount. |
| `WalletConservation.ApplyConserves` | backend/app/services/ledger_service.py:51-89 | One operation keeps the chain, the sum and a non-negative balance. |
| `WalletConservation.FreshCommitConserves` | backend/app/api/redeem.py:131-143 | A commit keeps them whatever row it was worked out on, unless it writes a balance worked out from one that is not stored. |
| `WalletConservation.StaleCommitBreaks` | backend/app/api/redeem.py:131-143 | A commit that does breaks the chain of the ledger. |
| `WalletConservation.CommitMatches` | backend/app/api/redeem.py:131-173 | Every commit, stale or not, keeps the one-to-one match of balance payments and subscription debits. |
| `CheckoutSessions.ConservedExactly` | backend/app/api/redeem.py:119-188 | For every run of concurrent requests, with the read as the code has it or a refreshing one, from every sound wallet: money is conserved at the end if and only if no commit wrote a balance worked out from one that was no longer stored. |
| `CheckoutSessions.Serialisable` | backend/app/api/redeem.py:119-188 | Every run whose commits saw the stored balance leaves the balance, ledger and transactions of the serial run of its commits. |
| `CheckoutSessions.SerialRows` | backend/app/api/redeem.py:119-188 | Every run whose commits saw the stored row leaves the whole account of the serial run of its commits, role and expiry included. |
| `CheckoutSessions.NeverOverdrawn` | backend/app/api/redeem.py:131-143 | Over every run, stale commits included: the stored balance, every balance in hand and every ledger entry stay non-negative, and every entry adds up by itself. |
| `CheckoutSessions.InterleavingsConserve` | backend/app/api/redeem.py:119-195 | From the baseline: no interleaving overdraws the wallet, every one matches payments with debits, and it conserves money if and only if no commit was stale. |
| `CheckoutSessions.OneByOneConserves` | backend/app/dependencies.py:135-138 | As the code is, requests that do not overlap conserve money and leave the whole account, role and expiry too, of the serial run of their commits. |
| `CheckoutSessions.RefreshConserves` | backend/app/services/order_service.py:759-764 | Were the locking read to refresh the row, as the refund's does, every interleaving would conserve money and amount to a serial run. |
| `CheckoutSessions.OverlapLoses` | backend/app/api/redeem.py:119-173 | As the code is, for every sound wallet and any two checkouts it can pay for: an overlapping run approves and books both, lowers the balance by one price only, ends unreconciled, and leaves the expiry of the second purchase alone. |
| `CheckoutSessions.PeriodLost` | backend/app/api/redeem.py:152-154 | The serial run would end no earlier, and later exactly when the second purchase falls into the first period. |
| `CheckoutSessions.VisitUndoes` | backend/app/services/redeem_service.py:342-353 | As the code is, for every wallet with a plan that has run out and a checkout it can pay for: an overlapping request leaves the price taken, the transaction approved and the period running, with both role columns on trial. |
| `SubscriptionSessions.AuthAgreesExactly` | backend/app/services/redeem_service.py:335-364 | Authentication that decides on the loaded row does to the stored row what deciding on the stored row would do if and only if their roles and expiries meet the stated condition. |
| `SubscriptionSessions.CommitAgreesExactly` | backend/app/api/redeem.py:119-188 | A commit worked out on the loaded row leaves what the operation on the stored row would leave if and only if a guard on balance, role and expiry of the two rows holds. |
| `SubscriptionSessions.SerialExactly` | backend/app/api/redeem.py:119-188 | For every run as the code is: the account, plan and expiry included, is at every state on the way that of the serial run of the commits so far if and only if every commit meets that guard. |
| `SubscriptionSessions.InterleavedPlan` | backend/app/api/redeem.py:116-154 | Over every concurrent run whose commits meet the guard, expiry and role are those of the closed forms over its commits. |
| `Subscription.ClosedForm` | backend/app/api/redeem.py:152-154 | After any non-empty run of paid checkouts, expiry is the maximum of old expiry + all durations and, for every j, t_j + the durations from j on. |
| `Subscription.PeriodSound` | backend/app/api/redeem.py:116-154 | Every granted period, a single one too, starts no earlier than its checkout and the old expiry, has exactly the length paid for and ends within the expiry; the last ends at it. |
| `Subscription.PeriodsDisjoint` | backend/app/api/redeem.py:116-154 | The granted periods follow one another and never overlap. |
| `Subscription.RunExpiry` | backend/app/api/redeem.py:125-154 | Over any serial run of requests and postings the user's expiry is that recurrence over exactly the checkouts that paid from the balance, started from the old expiry or, for a trial without one, from the five hours that the first served request writes. |
| `Subscription.ApplyExpiry` | backend/app/services/redeem_service.py:354-363 | One operation: authentication gives a trial without an expiry its five hours, then a paid checkout extends. |
| `Subscription.ApplyRole` | backend/app/services/redeem_service.py:342-353 | One operation: authentication ends a paid plan whose expiry has passed, in both role columns, unless the same request buys a plan. |
| `Subscription.RunRole` | backend/app/services/redeem_service.py:335-364 | Over any serial run both role columns stay equal and hold the plan of the last paid checkout, or a trial if that plan was a paid one and some later served request came after its expiry. |
| `CheckoutEndpoint.LockedUser.RecordLedgerEntry` | backend/app/services/ledger_service.py:17-120 | Refuses non-positive amounts, unknown kinds and uncovered debits without a change; otherwise updates the balance and appends the entry. |
| `CheckoutEndpoint.LockedUser.AutoDowngradeIfExpired` | backend/app/services/redeem_service.py:335-364 | Authentication's changes of role and expiry equal the model's. |
| `CheckoutEndpoint.LockedUser.Pay` | backend/app/api/redeem.py:131-173 | The balance path writes the columns, the entry and the transaction that the model's payment asks for. |
| `CheckoutEndpoint.LockedUser.CheckoutSubscription` | backend/app/api/redeem.py:93-195 | One request, authentication included, equals the model's operation; it answers paid by balance exactly as above, an invoice with the method used and nothing taken, and each error only for its cause and with nothing changed. |
| `CheckoutEndpoint.LockedUser.ReconcileUserBalance` | backend/app/services/ledger_service.py:151-196 | The two sums are those of the credits and of the debits, their difference is the signed ledger sum, the flag is exact, and it is always set on conserved books. |
| `Streaming.BoundsOfIntRange` | backend/app/api/media.py:570-583 | For `a-b` and `a-` with a < size and a <= b, the computed bounds select exactly the bytes that section 14.1.2 of RFC 9110 selects. |
| `Streaming.SuffixRangeExactly` | backend/app/api/media.py:574-583 | The bytes served for `-n` are the last n if and only if n is at least the size. |
| `Streaming.AlignedOffset` | backend/app/api/media.py:598-600 | The download offset is a multiple of the request size, at most start, and less than one request before it. |
| `Streaming.Feed` | backend/app/api/media.py:617-630 | One chunk yields exactly its bytes that fall inside the range and leaves the right amounts to skip and to read. |
| `Streaming.SkipAndTrim` | backend/app/api/media.py:602-630 | For every split into chunks the loop emits exactly the window of the delivered bytes, in non-empty pieces. |
| `Streaming.TelethonStream` | backend/app/api/media.py:598-630 | The Telegram generator emits the window of the download that starts at start and has end - start + 1 bytes. |
| `Streaming.TelethonExact` | backend/app/api/media.py:585-630 | If the chunks are the file from the aligned offset on, that window is file[start..end+1], as long as Content-Length says. |
| `Streaming.TelethonTruncated` | backend/app/api/media.py:606-633 | If the download stops early, what is sent is a prefix of the requested slice, and all of it exactly when the download reached end. |
| `Streaming.RangeFileStream` | backend/app/api/media.py:667-677 | The cached-file generator emits the same slice, for every way reads may come back short. |
| `Streaming.StreamVideo` | backend/app/api/media.py:570-690 | From the two numbers of the header through the bounds and either generator, with any split of the download: the body is the file between the announced positions and as long as Content-Length says; for `a-b`, `a-` and no header these positions are exactly the selected ones. |
| `Streaming.StreamTiles` | backend/app/api/media.py:570-690 | The responses of that endpoint to consecutive ranges, each from the cache or from any split of a download, concatenate to the file. |
| `UserSync.Database.Sync` | backend/app/database_migrator.py:517-607 | The statements, run in order on the three tables under their unique emails, do what one modelled run does; an insert of either half that would break a unique email leaves all tables as they were. |
| `UserSync.Database.InsertCredentials` | backend/app/database_migrator.py:577-596 | Every password-holding user without a credential account gains exactly one, and nobody else gains any. |
| `UserSync.SyncComplete` | backend/app/database_migrator.py:517-598 | After a full run both tables hold the same ids, roles agree wherever Better Auth states a plan, every trial has an expiry, and each password-holding user has a credential account, exactly one if it had none. |
| `UserSync.SyncSettlesUser` | backend/app/database_migrator.py:536-552 | A full run changes a legacy user's role to the plan that Better Auth states and in no other case, and its expiry from none to five hours after creation for a trial and in no other case. |
| `UserSync.CredentialArrives` | backend/app/database_migrator.py:577-596 | For every legacy user with a password and no credential account a full run adds exactly one row, with that user's id, email, password and dates and the provider credential. |
| `UserSync.AccountsOnlyWhereNeeded` | backend/app/database_migrator.py:577-596 | Every added row is such a user's. |
| `UserSync.SyncIdempotent` | backend/app/database_migrator.py:520-598 | A second run, at any later time, succeeds and changes nothing. |
| `UserSync.SyncPreserves` | backend/app/database_migrator.py:536-552 | No row is lost; of a legacy row only the role and a missing expiry may change; Better Auth rows and accounts stay. |
| `UserSync.SyncAddsUser` | backend/app/database_migrator.py:521-535 | The legacy row a run adds is an active one with the Better Auth email, name and creation date, no password, no money, and the stated plan or a trial of five hours. |
| `UserSync.SyncAddsAuth` | backend/app/database_migrator.py:565-573 | The Better Auth row a run adds is a verified one with the legacy email, name and dates, no second factor and the column's default role. |
| `UserSync.SyncKeepsEmailsUnique` | backend/app/database_migrator.py:521-573 | A full run keeps emails unique in both tables. |
| `UserSync.SyncSucceedsExactly` | backend/app/database_migrator.py:520-607 | Under unique emails in both tables, a run goes through if and only if no email is shared by a user that one table lacks and another user of that table; otherwise it changes nothing. |
| `UserSync.ForwardInsertExactly` | backend/app/database_migrator.py:521-535 | The forward insert keeps legacy emails unique if and only if no such clash exists. |
| `UserSync.BackwardInsertExactly` | backend/app/database_migrator.py:565-573 | Likewise for the backward insert. |
| `Usernames.GenerateUsernameCandidates` | backend/app/indonesian_names.py:90-136 | Fails exactly on an unusable name; otherwise limit usernames made from the two names are tried, and exactly those of them that match the pattern and are not reserved are yielded, each once. |
| `Usernames.YieldedExactly` | backend/app/indonesian_names.py:133-136 | Of any tries, exactly those that match and are not reserved are yielded, and no two are the same. |
| `Usernames.NormalizedJoin` | backend/app/indonesian_names.py:60-63 | Names are normalised letter by letter. |
| `Usernames.NormalizedOne` | backend/app/indonesian_names.py:60-63 | A letter becomes its small form, and what is no letter goes. |
| `Usernames.Round` | backend/app/indonesian_names.py:116-136 | One pass over any order of templates and any numbers counts the fitting ones up to the limit, tries their usernames in order, and yields what is new of them. |
| `Usernames.TryTemplate` | backend/app/indonesian_names.py:121-131 | An attempt is made exactly when the first name leaves room for at least one letter of the last. |
| `Usernames.AttemptCountsExactly` | backend/app/indonesian_names.py:123-126 | An attempt counts if and only if first name and fixed part are shorter than 32. |
| `Usernames.AttemptCutsTail` | backend/app/indonesian_names.py:123-131 | Truncation cuts only the tail of the last name and lands on exactly 32 characters; names that fit are untouched. |
| `Usernames.AttemptMatchesExactly` | backend/app/indonesian_names.py:132-134 | A counted attempt starts with the first name and matches the username pattern if and only if it has at least five characters before cutting. |
| `Usernames.PerRoundExactly` | backend/app/indonesian_names.py:106-112 | A round counts some attempt if and only if the first name has at most 30 letters. |
| `Usernames.RoundOfShuffle` | backend/app/indonesian_names.py:116-118 | How many attempts a round counts does not depend on the shuffle. |
| `Usernames.RunRounds` | backend/app/indonesian_names.py:114-136 | The outer loop over any draws of orders and numbers counts exactly the attempts of the recurrence over those draws, tries that many of the usernames they make, in order, and yields exactly those that match and are not reserved. |
| `Usernames.AttemptsClosedForm` | backend/app/indonesian_names.py:114-132 | For any sequence of shuffles and numbers, the attempts are the rounds times the per-round number, capped at the limit. |
| `Usernames.TerminatesExactly` | backend/app/indonesian_names.py:114-126 | For a positive limit: every sequence of at least limit draws brings the loop to its limit, and some sequence of draws does, if and only if the first name has at most 30 letters; beyond, no draws ever count an attempt. |
| `RealIp.BuildTrustedCidrs` | backend/app/main.py:155-166 | The list is the built-in ranges and then the configured ones up to the first that does not parse, blanks skipped. |
| `RealIp.ParsedJoin` | backend/app/main.py:160-163 | Configured entries add up to the first one that does not parse, and nothing behind it counts. |
| `RealIp.WalkBack` | backend/app/main.py:237-245 | The right-to-left loop returns the rightmost untrusted entry if it is well formed, and otherwise leaves the client unchanged. |
| `RealIp.Resolve` | backend/app/main.py:200-246 | The whole resolution, with untrusted peers, CF-Connecting-IP and X-Forwarded-For, equals its specification. |
| `RealIp.UntrustedPeerStays` | backend/app/main.py:205-216 | An untrusted peer is the result, whatever the two headers say. |
| `RealIp.ConnectingIpDecides` | backend/app/main.py:221-230 | Behind a trusted peer a non-empty CF-Connecting-IP gives the address in it if well formed and the peer otherwise, whatever X-Forwarded-For says. |
| `RealIp.ResolvedFromForwarded` | backend/app/main.py:231-245 | Through the split of the header, the resolved address is the rightmost untrusted entry if well formed, else the client. |
| `RealIp.PrependingIgnored` | backend/app/main.py:236-243 | Prepending any text and a comma to a header with an untrusted entry never changes the result. |
| `RealIp.PrependingBelieved` | backend/app/main.py:236-243 | When every entry is trusted, a prepended well-formed address becomes the client. |
| `RealIp.PrependingExactly` | backend/app/main.py:231-245 | Prepending is harmless for every text if and only if the header has an untrusted entry. |
| `Registry.ConnectionManager.Connect` | backend/app/api/ws.py:38-49 | Accepted if and only if the channel has fewer than max sockets; then exactly this socket is added to exactly this channel. |
| `Registry.ConnectionManager.Disconnect` | backend/app/api/ws.py:51-55 | Drops the socket, and the channel with its last socket. |
| `Registry.ConnectionManager.HasChannel` | backend/app/api/ws.py:64-67 | True if and only if some socket is registered in the channel. |
| `Registry.ConnectionManager.GetStats` | backend/app/api/ws.py:57-62 | The number of channels, and the number of (channel, socket) pairs. |
| `Registry.RegistryFaithful` | backend/app/api/ws.py:33-75 | Over any interleaving every stored channel has 1 to max sockets, and a socket is registered exactly when its last change in that channel was an accepted connect. |
| `Registry.JoinedExactly` | backend/app/api/ws.py:38-49 | The step of the run does the same as the method. |
| `Registry.BeginsExactly` | backend/app/api/ws.py:75-82 | A broadcast begins if and only if its channel has sockets, with all of them to try. |
| `Registry.BroadcastTriesOnce` | backend/app/api/ws.py:75-88 | A finished broadcast tried each socket of its snapshot once and nobody else, even if the channel was dropped and recreated meanwhile. |
| `Registry.BroadcastReachesMembers` | backend/app/api/ws.py:75-88 | Over any run, that snapshot is the membership of the channel at the event that began the broadcast, so exactly those sockets were tried, each once. |
| `Registry.RemovedExactly` | backend/app/api/ws.py:69-73 | A step removes a registered socket if and only if it is that socket's disconnect or a failed send to it on that channel. |
| `Registry.SparedStays` | backend/app/api/ws.py:69-88 | Over any run, other sockets' comings, goings and failing sends never cost a socket its place. |
| `Sharding.ShardsPartition` | backend/app/core/sharding.py:24-73 | For every total of at least 2, exactly one shard index, and it is in range, claims each account. |
| `Sharding.ShardExactly` | backend/app/core/sharding.py:34-73 | The shard is in range and congruent to the hash of the id without the white space around it; without an id, or with a single shard, it is 0, and a single shard owns every account. |
| `Sharding.QueuesInjective` | backend/app/core/sharding.py:76-101 | Command and job queue names are injective in the shard index, the default name included. |
| `Sharding.QueueNames` | backend/app/core/sharding.py:17-21 | The four queue names as runners expect them. |
| `Sharding.KindsDisjoint` | backend/app/core/sharding.py:17-21 | No command queue is ever a job queue, sharded or default. |
| `Sharding.RoutedToOwner` | backend/app/core/sharding.py:47-101 | A runner listens on the queue that an account's commands and jobs go to if and only if it owns the account. |
| `Text.DecIntInjective` | backend/app/core/sharding.py:89-101 | Distinct integers print distinct decimals. |
| `Text.DecIntReads` | backend/app/core/sharding.py:89-101 | A printed integer reads back as itself. |
| `Text.StripExactly` | backend/app/main.py:236-236 | Stripping text with white space around it gives the text. |
| `Text.SplitJoin` | backend/app/main.py:236-236 | Splitting two texts joined by the separator is splitting each. |

## Left out

- The relay that runs in production (`event_relay.py`) is not modelled; the pipeline is the simulator's own statement of it. Random traffic, latencies and percentiles are arbitrary events.
- Redis values are the numbers they print and keys are structured; that distinct keys print distinct strings is proved apart. Clocks are real numbers, and no rounding is modelled.
- `order_service` internals, the rate limiter and the service-id check: placing and committing is one step that succeeds, succeeds and is reported as a failure, fails, or is rejected. A failing mass lookup answers 500 in the source and a failing Redis call 503; both are one "unavailable" answer here.
- `Orders.RenderInjective`: requires user ids without a colon, which UUIDs are.
- `UserSync.SyncComplete`: requires the default role of the Better Auth column not to be a plan, since the backward insert leaves the role to that default, which is NULL (`backend/app/database_migrator.py:474-475`). Id casts between UUID and text and missing tables are not modelled.
- `Usernames.GenerateUsernameCandidates`: requires a first name of at most 30 letters or a limit of zero or less or an unusable name, because the loop does not end otherwise. Unicode normalisation is left out: names are taken as the ASCII text it leaves. The generator is taken to its end; a caller that stops early gets a prefix.
- `Streaming.RangeFileStream`: requires start <= end < size, as the endpoint's headers do; a cached file that shrinks while it is read, malformed Range headers and unsatisfiable ranges are not modelled. The header is two optional numbers.
- Bans at authentication. A request, and a posting for somebody else, is one operation with one commit.
- `Subscription.RunExpiry`: states the closed form for serial runs, because overlapping requests of the code break it; `InterleavedPlan` states it for interleavings under the exact guard of `SerialExactly`.
- `Subscription.RunRole`: the same.
- `AutoReplyEngine.RunTrial`: requires pre-seeded accounts to have a text, as the trial's own accounts do; `SeedAgrees` says what happens otherwise.
- Balances are unbounded integers; BIGINT overflow is not modelled. KlikQRIS and USDT calls that create invoices are reduced to the transaction row they leave.
- Migrations run by `init_schema` are an arbitrary set of additions, and faults strike anywhere.
- CRC32, address parsing, CIDR membership and UTF-8 decoding are arbitrary functions. Text stripping knows ASCII white space only.
- Closing a refused WebSocket, JSON payloads and the five-second send timeout: a send ends well or badly at any later time.
- Chat, account, marketplace and bot endpoints, backups, Alembic revisions other than the ledger baseline, and the frontend: plumbing or declarations, settled by reading one branch.
