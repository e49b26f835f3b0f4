# Verified model of the YK-Virtual backend's stateful cores

This Dafny project models the parts of the platform where several actors change shared state, or
where a small amount of state must keep a promise over a whole run, and proves those promises.

| file | what it models |
|---|---|
| `BookingModel.dfy`, `BookingRaces.dfy`, `BookingTheorems.dfy`, `BookingCounterexamples.dfy`, `BookingService.dfy`, `BookingStaleness.dfy`, `BookingDeadlock.dfy`, `BookingAnswers.dfy` | seat reservation, abandoned-checkout sweep and payment settlement, as concurrent transactions and as the service's methods |
| `ReferralReward.dfy` | the crash-safe referral reward over an idempotent wallet journal |
| `RewardAndOrder.dfy` | that reward beside the settlement that triggers it |
| `Migrations.dfy` | the migration runner behind one advisory lock |
| `LoginThrottle.dfy`, `SlidingSession.dfy` | per-account lockout and the sliding expiry of sessions |
| `RateLimit.dfy` | the sliding-window limiter that evicts idle clients |
| `GzipWriter.dfy` | the response writer that postpones its decision to compress |
| `Broker.dfy` | the live-event hub with bounded drop-oldest channels |
| `TutorCalendar.dfy` | lesson scheduling behind the double-booking guard |
| `MemoryCache.dfy`, `PrefixCache.dfy` | the in-memory TTL cache and the namespaces over it |
| `SsrBreaker.dfy` | the circuit breaker of the web client's server-side fetches |
| `Common.dfy` | Option, Result and what the others share |

Most components come in two layers. A state machine describes every interleaving of the actors at
the granularity of the source's statements, and the main theorems are about all its runs. A class
holds the same state in fields, its methods follow the source's code, and each method is proved
against the functions the theorems are about. Time is an integer handed to each step; ids, replies of
other services and clock readings are parameters. `dafny verify dfyconfig.toml` checks everything.

## What the proofs say about the code

- **Seat conservation has an exact condition.** A settlement reads the enrolment row and confirms it
  later. If the student books the cancelled seat again in between, both take a seat for the one row and the
  counter is one too high from then on. The counters are right in every state of a run if and only if every
  settlement commits on a read of the row that is still true (`BookingTheorems.SeatConservation`); bookings and
  sweeps alone are always exact.
- **A late capture may go over capacity.** The code takes a seat back without looking at the
  capacity. A cohort stays within its capacity in every state of a run if and only if no late capture takes a
  seat of it while it is full (`BookingTheorems.CapacityKeptIff`); bookings never oversell.
- **A revived checkout can be swept at once.** Reviving a row refreshes `enrolled_at`, but the sweep
  goes by `created_at`. A checkout made at or after a sweep's cutoff can be cancelled by it if and only if its
  row was revived and first created before the cutoff (`BookingStaleness.FreshCheckoutSweptIff`), and
  `BookingStaleness.RevivedCheckoutIsSwept` is the run in which it happens.
- **A row without an order is released once** because the sweep's listing locks its rows and skips
  those another sweep holds; the compare-and-set on the order has no part in it. Releasing the same claim twice
  would break the count, as it can in the in-memory repositories, which have no row locks.
- **A settlement and a sweep can deadlock**: the settlement holds the order and waits for the row, the
  sweep holds the row and waits for the order, and nothing anybody else does lets either go on
  (`BookingDeadlock.SettlementAndSweepDeadlock`). Once a settlement has taken an order and a sweep has listed its
  rows, both can end without an abort if and only if no listed row carries that order while it is PENDING
  (`BookingDeadlock.DeadlockIff`).
- **A reward may outlive its settlement.** The settlement issues the referral reward outside its own
  transaction and before it commits. In every state of a run each reward belongs to an order that is PAID or
  being settled, if and only if no settlement is aborted after it has issued one
  (`RewardAndOrder.RewardsBackedIff`); `RewardAndOrder.AbortedSettlementLeavesReward` is the failing run.
- **The login throttle depends on how many logins overlap, and in which order they are counted.** The
  lock check, the reading of the clock and the count are separate steps, with the password comparison and the wait for
  the mutex between them. With at most m logins of an account in flight, any fifteen minutes hold at most
  2m + 7 counted failures when failures are counted in the order of their clock readings, and that number is
  reached for every m; one at a time it is nine. The source does not ensure that order. When a failure may be
  counted before one with an earlier reading, 2m + 11 occur, so for m >= 2 the bound 2m + 7 holds if and only if
  none is (`LoginThrottle.InOrderIff`); in any order the number is at most (m * m + 11m + 6) / 2
  (`LoginThrottle.ThrottleBound`). A failure counted late can clear a lock, exactly when
  `LoginThrottle.LateFailureUnlocksIff` and `LoginThrottle.LateStampUnlocksIff` say.
- **Overlapping uses of a session lose the sliding interval's promise.** The extension is an
  unconditional UPDATE, so two uses can extend at one instant, and a write that lands late can put back an earlier
  expiry or revive a session that was rejected. A use within 24 hours of an extension extends again if and only if the
  write in force at its read is more than 24 hours old (`SlidingSession.SecondExtensionIff`). When each write
  lands within a given delay, the safe distance between uses shrinks by that delay
  (`SlidingSession.FrequentUseLives`).
- **A failed unlock keeps the migration lock.** The connection goes back to the pool with the session
  lock. When all runners are done, the lock is free if and only if none of them went back with it
  (`Migrations.LockIsFreedIff`).
- **The breaker can close early.** Fetches already under way when it opens are not stopped: once one comes
  back good, calls fetch again within the minute, and otherwise they do not (`SsrBreaker.OverlapDepartsIff`). With at
  most m under way an outage costs at most m + 2 fetches a minute instead of three
  (`SsrBreaker.OverlapOutageCost`).
- **The calendar guard is a check followed by a write.** Taken one at a time, calls keep the calendar
  disjoint; interleaved, they do so exactly when the guard would still pass at the moment of each write. A move can also
  bring back a lesson that was cancelled between its checks and its write.
- **The newest event can be refused when two publishers race**, exactly when the others put in more than
  was taken out since this one made room; with one publisher it cannot.
- **At the instant of expiry** a cached value is still returned while SetNX already hands the key to
  someone else.

- **Each answer is pinned to the rows.** Beside the theorems over runs, the project says from the tables and the
  request alone who is booked, settled, swept, admitted, allowed to change a lesson, served by the cache or refused by
  the migration check, and with which error: for example `BookingService.BookedIff`, `BookingAnswers.OrderMoves`,
  `RateLimit.AdmittedIff`, `TutorCalendar.OnlyOwnersChange`, `MemoryCache.ReadsLatest`, `Migrations.ValidChainIff`.

## Model

| member | source | states |
|---|---|---|
| BookingTheorems.SeatConservation | internal/service/booking_service.go:159-297 | over every run of concurrent bookings, sweeps and settlements, each cohort's counter equals its non-cancelled enrolments in every state if and only if every settlement commits on a read of its row that is still true |
| BookingTheorems.BookingsAndSweepsConserve | internal/service/booking_service.go:697-755 | bookings (fresh or reviving) and any number of concurrent sweeps, over rows with and without an order, keep the counters exact in every run without a settlement commit |
| BookingTheorems.OneSweepPerRow | internal/repository/postgres/booking_repo.go:276-287 | in every reachable state a row, with or without an order, is listed or claimed by at most one sweep, so its seat is given back once |
| BookingTheorems.ReleasedTwiceBreaks | internal/service/booking_service.go:736-741 | giving back the seat of a row without an order a second time makes its cohort's counter wrong |
| BookingTheorems.AtomicSettlementIsFresh | internal/service/payment_service.go:559-602 | a settlement with nothing between its read and its commit is never the stale kind |
| BookingTheorems.PayConservesIff | internal/service/payment_service.go:581-593 | one settlement keeps the counters exact if and only if what it read of the row still holds |
| BookingTheorems.ReserveConserves | internal/service/booking_service.go:251-268 | a booking that inserts a row, or revives a cancelled one, takes exactly one seat |
| BookingTheorems.ReleaseConserves | internal/service/booking_service.go:709-747 | a sweep gives back exactly one seat per row it cancels, none twice |
| BookingTheorems.CapacityKeptIff | internal/service/booking_service.go:178-186 | over every run, a cohort stays within its capacity in every state if and only if no late capture takes a seat of it while it is full |
| BookingTheorems.CapacityBound | internal/service/booking_service.go:178-186 | in every run the seats taken beyond a cohort's capacity are at most the late captures that took a seat back, so no booking oversells |
| BookingTheorems.OneRowOneOrder | internal/service/booking_service.go:192-205 | in every reachable state a student has one row per cohort and an idempotency key one order, although rows are revived and keys re-sent |
| BookingTheorems.PaidForever | internal/repository/postgres/order_repo.go:186-213 | an order that is PAID stays PAID in every later state of every run: the sweep never overwrites it |
| BookingTheorems.PaidRowsConfirmed | internal/service/booking_service.go:710-741 | in every reachable state a row whose order is PAID is CONFIRMED |
| BookingTheorems.CancelledTogether | internal/service/booking_service.go:723-741 | a row becomes CANCELLED only in a sweep's commit and, if it has an order, together with that order going from PENDING to CANCELLED |
| BookingStaleness.FreshCheckoutSweptIff | internal/repository/postgres/booking_repo.go:276-315 | in every quiet state of every run, an unpaid checkout made at or after a sweep's cutoff can be cancelled by it if and only if its row was revived and created before the cutoff |
| BookingStaleness.SweptCheckoutWasRevived | internal/repository/postgres/booking_repo.go:276-315 | under every interleaving, a row a sweep cancels although it was enrolled at or after the cutoff was created before the cutoff and revived |
| BookingStaleness.RevivedCheckoutIsSwept | internal/service/booking_service.go:192-265 | the run: a rebooking on a row created before the cutoff, then a sweep, leaves the new checkout and its order CANCELLED |
| BookingStaleness.ListedIsCancelled | internal/service/booking_service.go:709-747 | a sweep cancels every listed row with a PENDING order, and that order |
| BookingRaces.RunInv | internal/service/booking_service.go:159-297 | the invariant tying rows, orders, open transactions and their locks holds in every state of every run |
| BookingCounterexamples.LateCaptureRacesRebooking | internal/service/payment_service.go:574-593 | a concrete run in which a late capture and a rebooking count one row twice |
| BookingCounterexamples.LateCaptureOversells | internal/service/payment_service.go:584-590 | a concrete run in which a late capture takes a full cohort over its capacity |
| BookingDeadlock.DeadlockIff | internal/service/booking_service.go:705-741 | from every quiet state, for every order and every listing of stale rows: a settlement that has taken the order and a sweep that has listed the rows can both end without an abort of either, whatever else happens, if and only if no listed row carries the order while it is PENDING |
| BookingDeadlock.SettlementAndSweepDeadlock | internal/service/payment_service.go:498-593 | over one row with a PENDING order both stay open and unchanged through every run of any actors that aborts neither; once the sweep is aborted the settlement goes through |
| BookingService.Store.CreateCohortBooking | internal/service/booking_service.go:159-297 | the method's result and tables are those of the booking function, error cases and replay included, and the unique constraints are kept; a request that is no replay gets its seat if and only if it is authorized, the cohort exists, is Published, has a free seat and is within its window, and the student has no row in it that is not CANCELLED; a refused one writes nothing |
| BookingService.BookedIff | internal/service/booking_service.go:172-205 | the same condition for the booking function, on all tables with one row per cohort and student |
| BookingService.RefusedIff | internal/service/booking_service.go:172-205 | which error a refused request gets: each one if and only if its check is the first to fail |
| BookingService.ReplayedIff | internal/service/booking_service.go:669-689 | a key used before gives back the first order to the same parent, is refused to another, and writes nothing |
| BookingService.BookedRows | internal/service/booking_service.go:214-268 | what a booking leaves in every table: its PENDING order and row, one more seat taken, everything else as it was; a revived row keeps its creation date and parent |
| BookingAnswers.SeatTakenWhileOpen | internal/service/booking_service.go:178-205 | over every run, whatever makes a row PENDING is the commit of a booking begun at a moment when the cohort was Published, not full and within its window and the student had no row in it, or a CANCELLED one |
| BookingAnswers.OrderMoves | internal/repository/postgres/order_repo.go:186-213 | over every run an order appears PENDING in a booking's commit, goes from PENDING to CANCELLED only in a sweep's and from PENDING or CANCELLED to PAID only in a settlement's, and nothing else of it changes |
| BookingAnswers.ClosedForever | internal/repository/postgres/order_repo.go:186-198 | a REFUNDED or FAILED order stays exactly as it is through every run |
| BookingAnswers.SettledAloneIff | internal/service/payment_service.go:505-511 | a settlement nobody interrupts leaves its order PAID if and only if the order was not FAILED or REFUNDED |
| BookingAnswers.OnlyStaleRowsSwept | internal/repository/postgres/booking_repo.go:276-287 | under every interleaving a row that becomes CANCELLED was PENDING and created before the cutoff of the sweep that commits |
| BookingAnswers.SweptAloneIff | internal/service/booking_service.go:709-747 | a sweep of any listing leaves a row CANCELLED if and only if it was listed and has no order or a PENDING one; every other row stays as it was |
| BookingService.Store.ExpireStalePendingEnrollments | internal/service/booking_service.go:697-755 | the sweep's loop cancels exactly the claims of the specification and reports their number |
| BookingService.Store.ExpireRow | internal/service/booking_service.go:710-746 | one turn of the sweep's loop: a row whose order is no longer PENDING is skipped, otherwise row and order are cancelled and the seat is given back |
| BookingService.Store.SettleSuccess | internal/service/payment_service.go:498-602 | the method settles if and only if the order exists and is PENDING or CANCELLED; then exactly that order becomes PAID and the student's row, if there is one, CONFIRMED, and otherwise no table changes |
| BookingService.Store.GetByCohortAndStudent | internal/repository/postgres/booking_repo.go:213-225 | the lookup returns the one row of the cohort and student, or none when there is none |
| BookingService.Store.GetByIdempotencyKey | internal/service/booking_service.go:677-680 | the lookup returns the one order with the key, or none when there is none |
| BookingService.BookIsTransaction | internal/service/booking_service.go:172-282 | the booking function is the booking transaction of the concurrent model run with nothing in between |
| BookingService.SettleIsTransaction | internal/service/payment_service.go:498-602 | the same for the settlement |
| BookingService.SweepIsTransaction | internal/service/booking_service.go:697-755 | the same for the sweep, whatever the number of rows it lists |
| BookingService.ReplayReturnsFirstOrder | internal/service/booking_service.go:669-689 | after a booking with a key and any concurrent run, the same key gives back the first order and writes nothing; from another parent it is refused |
| ReferralReward.RewardExactlyOnce | internal/service/growth_service.go:249-312 | over every interleaving of runs, crashes, restarts and other wallet traffic a referral is credited at most once, and exactly once with one reward row and status REWARDED once any run has finished |
| ReferralReward.RecoveryFinishes | internal/service/growth_service.go:253-259 | from whatever earlier runs left behind, one uninterrupted run on a referral that is not expired leaves exactly one reward |
| ReferralReward.BooksReconcile | migrations/000081_wallet_ledger.up.sql:3-14 | in every reachable state each wallet's balance is the sum of its journal lines and not negative |
| ReferralReward.WalletApplyInv | migrations/000081_wallet_ledger.up.sql:49-113 | the wallet function keeps balances, journal and keys consistent, and a reward key used once |
| ReferralReward.Service.ApplyCode | internal/service/growth_service.go:220-247 | a code is accepted exactly when it exists, is not one's own and the user was not referred before; which error it gets otherwise |
| ReferralReward.Service.QualifyOnOrderPaid | internal/service/growth_service.go:260-312 | the method does to the stores what the five statements do, and reports a refused credit |
| ReferralReward.Service.IssueReward | internal/service/growth_service.go:274-307 | the statements from the compare-and-set to the mark, on the referral that was found |
| ReferralReward.IssueLeaves | internal/service/growth_service.go:260-307 | from whatever state, one call on an open referral leaves it REWARDED with the order of its first call, one reward row and the credit unless it was there already, and every other referral, wallet, reward and journal line as it was |
| ReferralReward.RecordedOrderWasPaid | internal/service/growth_service.go:274-277 | over every run, the order recorded on a referral is one for which the reward of its referred user was called while it was open |
| ReferralReward.ExpiredForGood | internal/service/growth_service.go:271-273 | an expired referral with no run in progress stays expired and is never credited again |
| ReferralReward.WalletAnswers | migrations/000081_wallet_ledger.up.sql:49-113 | each refusal of a wallet movement if and only if its condition holds; a used key changes nothing and a debit may empty the wallet |
| ReferralReward.IssueIsUninterruptedRun | internal/service/growth_service.go:274-307 | that method is a run of the concurrent protocol that nothing interrupts |
| RewardAndOrder.RewardsBackedIff | internal/service/payment_service.go:509-521 | over every run of bookings, sweeps, settlements and reward calls, in every state each reward belongs to an order that is PAID or being settled, if and only if no settlement is aborted after it has issued its reward |
| RewardAndOrder.RewardImpliesPaid | internal/service/payment_service.go:515-521 | when no settlement was aborted after its reward and none is open, a reward implies a PAID order |
| RewardAndOrder.AbortedSettlementLeavesReward | internal/service/payment_service.go:515-521 | a settlement that issues the reward of its payer's open referral and is then aborted leaves the reward, and an order that is not PAID |
| Migrations.EachMigrationCommitsOnce | migrations/migrations.go:188-270 | for any number of runners interleaved statement by statement, failing or losing their connection, no version's SQL commits twice, and schema_migrations is what it held before plus what was committed |
| Migrations.NobodyLosesTheRace | migrations/migrations.go:192-208 | with a valid chain a runner whose own statements succeed and whose connection holds never fails, whatever the runners beside it do |
| Migrations.RunnerProgress | migrations/migrations.go:246-270 | a finished runner that took the lock committed exactly the first n versions that were pending then, in a row and in order; on success all of them, and no up version is missing; it still holds the lock only if its unlock failed |
| Migrations.LockIsFreedIff | migrations/migrations.go:61-77 | over every run, once every runner is done the lock is free if and only if none has returned its connection to the pool after an unlock that failed, and lived on |
| Migrations.LockIsFreed | migrations/migrations.go:217-221 | so when no unlock fails and every runner has ended, whether by success, error or lost connection, the lock is free |
| Migrations.InvalidChainCommitsNothing | migrations/migrations.go:239-245 | with a chain that Validate rejects no runner commits anything |
| Migrations.Validate | migrations/migrations.go:140-157 | accepts exactly the chains without duplicate versions per direction and without a file that is some text, a conflict marker and some text; otherwise reports the first faulty file and which fault |
| Migrations.ValidChainIff | migrations/migrations.go:140-157 | the valid chains are those with distinct versions per direction and no text around a marker |
| Migrations.MarkerIsFound | migrations/migrations.go:152-154 | wherever one of the three markers stands in a file, every chain with that file is rejected |
| Migrations.RunnerFinishes | migrations/migrations.go:209-270 | from every reachable state, a runner that has not failed, with the lock its own or free, ends with every up version applied and the lock free if its remaining statements succeed |
| Migrations.ValidChainAscends | migrations/migrations.go:118-157 | a sorted chain that passes Validate has strictly ascending up versions |
| Migrations.PendingAscends | migrations/migrations.go:246-250 | the pending versions come in ascending order |
| Migrations.PendingIsMissing | migrations/migrations.go:247-250 | the pending versions are exactly the up versions not yet applied |
| Migrations.ApplyOne | migrations/migrations.go:254-268 | one transaction commits a version and records it, or leaves table and log alone when a statement fails or the version is already recorded |
| Migrations.ApplyPending | migrations/migrations.go:246-269 | the loop commits a prefix of the pending versions and records exactly it |
| Migrations.ApplyUp | migrations/migrations.go:209-270 | one run commits the first n pending versions in order and nothing else, all of them on success, and on every path leaves the lock taken only by an unlock that failed |
| Migrations.AdvisoryLock.Unlock | migrations/migrations.go:61-77 | releases only a lock this session holds, and not when the statement fails, which it reports; the connection is given up either way; a second call does nothing |
| LoginThrottle.LateThrottleBound | internal/service/auth_service.go:101-133 | however the logins of an account interleave between lock check, clock and count: with at most m in flight, none counted before more than d with earlier clock readings, any fifteen minutes hold at most 2m + 7 + d(m + 4) - d(d + 1)/2 counted failures |
| LoginThrottle.ThrottleBound | internal/service/auth_service.go:101-133 | so with no condition on the order of counting at most (m * m + 11m + 6) / 2 |
| LoginThrottle.InOrderThrottleBound | internal/service/auth_service.go:101-133 | and at most 2m + 7 when failures are counted in the order of their clock readings |
| LoginThrottle.InOrderIff | internal/service/auth_service.go:494-496 | for m >= 2, over all runs with at most m in flight and d overtaken, 2m + 7 is a bound if and only if none is overtaken |
| LoginThrottle.OvertakingExceeds | internal/service/auth_service.go:494-496 | for every m >= 2, a run with one login overtaken in which some fifteen minutes hold 2m + 11 |
| LoginThrottle.LateBoundIsReached | internal/service/auth_service.go:101-133 | the bound for one overtaken login is reached, for m = 6, 11, 16 and so on |
| LoginThrottle.SerialThrottleBound | internal/service/auth_service.go:101-133 | with logins one at a time: at most nine, although the counter uses fixed windows |
| LoginThrottle.BoundIsReached | internal/service/auth_service.go:466-497 | for every positive m there is a run with at most m logins in flight, counted in the order of their clock readings, in which some fifteen minutes hold 2m + 7 |
| LoginThrottle.LateFailureUnlocksIff | internal/service/auth_service.go:123-131 | a failure counted during a lock, with the current time, clears it if and only if the counting window is over |
| LoginThrottle.LateStampUnlocksIff | internal/service/auth_service.go:123-131 | one counted with an earlier clock reading clears it if and only if the window was over at that reading, or it is the fifth of its count and the reading is a whole lock old |
| LoginThrottle.NineIsReached | internal/service/auth_service.go:117-133 | a run of logins one at a time in which some fifteen minutes hold nine |
| LoginThrottle.Throttle.LoginThrottleState | internal/service/auth_service.go:100-115 | returns the remaining lock, zero when there is none |
| LoginThrottle.Throttle.RecordLoginFailure | internal/service/auth_service.go:117-133 | stores the next counting state for this account and leaves every other alone |
| LoginThrottle.Throttle.ClearLoginFailures | internal/service/auth_service.go:135-139 | forgets this account's failures only |
| LoginThrottle.Throttle.Login | internal/service/auth_service.go:466-506 | succeeds exactly for an active account with the right password that is not locked, and which error every other login gets; counts only wrong passwords of local accounts, clears only on success |
| SlidingSession.FrequentUseLives | internal/service/auth_service.go:623-656 | when extensions land within a delay of the use that decides them, in any order, and clocks are read within a lag of the row, together at most a day: overlapping uses at most 29 days less the delay apart are all accepted for as long as they go on |
| SlidingSession.DelayedThresholdIsExact | internal/service/auth_service.go:635-642 | for every positive delay of at most a day, one nanosecond more between uses and one can be rejected |
| SlidingSession.SerialFrequentUseLives | internal/service/auth_service.go:623-656 | for uses one at a time: at most 29 days apart, all are accepted |
| SlidingSession.ThresholdIsExact | internal/service/auth_service.go:635-642 | for every gap between 29 and 30 days both outcomes occur, so neither bound can be improved |
| SlidingSession.LongGapDies | internal/service/auth_service.go:631-634 | a use more than 30 days after all those that read the row before it is rejected, whatever write lands when |
| SlidingSession.SecondExtensionIff | internal/service/auth_service.go:635-642 | however uses overlap, an accepted use within 24 hours of an extension extends again if and only if the write in force at its read is more than 24 hours old, which is then that of an earlier use |
| SlidingSession.ExtensionsApart | internal/repository/postgres/identity_auth_repo.go:314-322 | once the write of an extension has landed, and none of an earlier use has landed after it, the next extension is more than 24 hours after it |
| SlidingSession.TwoExtensionsAtOnce | internal/service/auth_service.go:635-642 | two overlapping uses that both extend at one instant |
| SlidingSession.RevivedOnlyByLanding | internal/service/auth_service.go:631-642 | a use after a rejected one is accepted if and only if the write in force at its read is of its last 30 days; unless its clock reading is the earlier of the two, a write has then landed in between |
| SlidingSession.LateLandingRevives | internal/repository/postgres/identity_auth_repo.go:314-322 | a run in which a rejected session is accepted again because an extension landed late |
| SlidingSession.SerialDeadStaysDead | internal/service/auth_service.go:631-642 | for uses one at a time: after a rejected use every later one is rejected and the expiry no longer moves |
| SlidingSession.UseIsItsSteps | internal/service/auth_service.go:635-642 | a use with nothing in between its read and its write does what the specified use does |
| SlidingSession.Session.Me | internal/service/auth_service.go:623-656 | which of the errors a use gets, and the expiry it leaves |
| RateLimit.PruningIsInvisible | internal/middleware/ratelimit.go:105-119 | the limiter that evicts idle clients makes, on every request sequence, each decision of one that keeps the full history |
| RateLimit.SlidingWindowBound | internal/middleware/ratelimit.go:80-100 | of a client's requests admitted by the pruning limiter at most `limit` fall in any window, and its stored list is sorted and no longer than that |
| RateLimit.AdmittedIff | internal/middleware/ratelimit.go:80-100 | over every request sequence in the order of time, the pruning limiter admits a request if and only if fewer than `limit` of its client's earlier requests were admitted within the window |
| RateLimit.TableStaysSmall | internal/middleware/ratelimit.go:105-119 | after an admitted request there are at most 10000 clients in the table, or each was last admitted within the window |
| RateLimit.RequestRefines | internal/middleware/ratelimit.go:75-119 | one request is decided alike by both limiters, which go on agreeing |
| RateLimit.PruneSound | internal/middleware/ratelimit.go:108-119 | evicting clients idle for a window changes no later decision |
| RateLimit.RateLimiter.Middleware | internal/middleware/ratelimit.go:75-103 | the method's tables and decision are those of one request of the pruning limiter |
| RateLimit.RateLimiter.MaybePrune | internal/middleware/ratelimit.go:108-119 | the eviction loop removes exactly the clients idle for a window, once the bound is passed |
| RateLimit.RateLimiter.Recent | internal/middleware/ratelimit.go:84-89 | the filter loop keeps exactly the instants after the cutoff, in order |
| GzipWriter.BodyPreserved | internal/middleware/gzip.go:58-159 | for any sequence of calls before Close the client gets exactly the bytes written; the output is all raw or one complete gzip stream; Content-Encoding says gzip exactly in that case, then without Content-Length, which is otherwise untouched |
| GzipWriter.StatusPreserved | internal/middleware/gzip.go:50-106 | the client sees the last status the handler set before the decision, 200 if it set none |
| GzipWriter.CloseTwice | internal/middleware/gzip.go:139-159 | a second Close changes nothing and emits nothing, in whatever state the first one came |
| GzipWriter.CompressedIff | internal/middleware/gzip.go:58-137 | for every sequence of calls: the response is compressed if and only if at the first call that forces a decision (a Flush, or the Write that reaches 512 bytes) the content type then in force allows it and 512 bytes have been written |
| GzipWriter.CompressibleIff | internal/middleware/gzip.go:58-77 | which content types allow it: those that begin, after white space and in either case, with one of the four prefixes and not with that of an event stream, whatever parameters follow |
| GzipWriter.SilentHandler | internal/middleware/gzip.go:98-159 | a handler that writes nothing gets no body and no stream, and its head goes out early exactly when it flushed or set a status |
| GzipWriter.EarlyFlushIsRaw | internal/middleware/gzip.go:126-137 | a Flush before the decision commits the response to raw for good |
| GzipWriter.GzipResponseWriter.DecideNow | internal/middleware/gzip.go:58-96 | the method decides as the specification does, header and bytes included |
| GzipWriter.GzipResponseWriter.OpenStream | internal/middleware/gzip.go:83-95 | announces gzip without a Content-Length, sends the status if one was set and starts the stream with the buffered bytes |
| GzipWriter.GzipResponseWriter.HasCompressiblePrefix | internal/middleware/gzip.go:71-77 | the loop finds whether the media type begins with one of the four prefixes |
| GzipWriter.GzipResponseWriter.FlushSniff | internal/middleware/gzip.go:98-106 | emits the buffered bytes raw, with the status if one was set |
| GzipWriter.GzipResponseWriter.WriteStatus | internal/middleware/gzip.go:50-56 | records the status, and sends it only after the decision |
| GzipWriter.GzipResponseWriter.WriteBody | internal/middleware/gzip.go:108-124 | one Write does to the writer what the specification's step does |
| GzipWriter.GzipResponseWriter.FlushNow | internal/middleware/gzip.go:126-137 | one Flush does to the writer what the specification's step does |
| GzipWriter.GzipResponseWriter.CloseBody | internal/middleware/gzip.go:139-159 | one Close does to the writer what the specification's step does |
| Broker.QueueIsSuffix | internal/realtime/broker.go:116-140 | with any number of publishers interleaved with the reader at every channel operation, at most 32 events wait, they are the newest the channel took without a gap, reads keep their order and miss nothing exactly when nothing was dropped, and every delivery is accounted for |
| Broker.SinglePublisherLosesNoNewest | internal/realtime/broker.go:125-139 | with one publisher no event is refused, the channel takes all in publish order, and between deliveries the newest is waiting or was read last |
| Broker.RefusedIff | internal/realtime/broker.go:130-137 | a second send is refused if and only if, since its publisher made room, rivals' events put in exceed those taken out by at least the free places then |
| Broker.RefusalNeedsRival | internal/realtime/broker.go:130-137 | so it is refused only if another publisher's event went in after this one made room |
| Broker.TwoPublishersLoseNewest | internal/realtime/broker.go:126-138 | two publishers and a stream that does not read: the newer event is refused |
| Broker.UndisturbedDelivery | internal/realtime/broker.go:126-138 | the three channel operations with nothing in between append the event and lose only the oldest of a full channel |
| Broker.Hub.Subscribe | internal/realtime/broker.go:66-75 | registers a new empty channel for the user and changes nobody else's streams |
| Broker.Hub.Cancel | internal/realtime/broker.go:76-84 | removes this channel only; a user without streams is forgotten; calling it again changes nothing |
| Broker.Hub.LocalDeliver | internal/realtime/broker.go:117-140 | every stream of the recipient, and no other, gets the event by the drop-oldest rule |
| Broker.Hub.Subscribers | internal/realtime/broker.go:174-183 | counts every open stream once |
| Broker.Channel.TrySend | internal/realtime/broker.go:127-129 | a send goes in, at the end, exactly when fewer than 32 events wait |
| Broker.Channel.TryReceive | internal/realtime/broker.go:130-133 | a receive takes the oldest event, or nothing when none waits |
| TutorCalendar.CallsKeepCalendar | internal/service/lesson_service.go:212-313 | after any sequence of whole calls a tutor's non-cancelled lessons do not overlap, each ends after it starts, and no cancelled or completed lesson is live again |
| TutorCalendar.CalendarDisjointIff | internal/service/lesson_service.go:226-252 | over every statement-level interleaving of callers the calendar stays disjoint if and only if the guard would still pass at the moment of each write |
| TutorCalendar.DeadKeptIff | internal/service/lesson_service.go:265-283 | over every interleaving a step leaves cancelled and completed lessons alone if and only if it is not a move whose lesson was cancelled after it was loaded |
| TutorCalendar.AlwaysOrdered | internal/service/lesson_service.go:219-221 | over every interleaving each lesson ends after it starts |
| TutorCalendar.DisjointMeansOneAtATime | internal/repository/postgres/lesson_repo.go:237-251 | the overlap test means what it should: disjoint exactly when no tutor teaches two lessons at one instant |
| TutorCalendar.ApplyDisjointIff | internal/repository/postgres/lesson_repo.go:181-206 | one write keeps the calendar disjoint if and only if its guard holds when it is made |
| TutorCalendar.CancelledSlotIsFree | internal/service/lesson_service.go:290-313 | once a lesson is cancelled, any window within its own can be booked |
| TutorCalendar.TwoSchedulesRace | internal/service/lesson_service.go:226-252 | two callers who both check before either writes double-book the tutor |
| TutorCalendar.MoveRevivesCancelled | internal/service/lesson_service.go:265-283 | a cancellation between a move's checks and its write is undone |
| TutorCalendar.CallIsItsSteps | internal/service/lesson_service.go:212-313 | a call of an authorised caller is its statements with nothing in between |
| TutorCalendar.OnlyOwnersChange | internal/service/lesson_service.go:98-155 | over any sequence of calls, a lesson that has changed was changed by a call of an admin or of the user behind its tutor profile |
| TutorCalendar.CancelledIff | internal/service/lesson_service.go:290-313 | a cancellation, answer by answer: not found, forbidden, done; and what it leaves |
| TutorCalendar.MovedIff | internal/service/lesson_service.go:259-288 | the same for a move: done if and only if the window is in order, the caller may, the lesson is live and none of the tutor's other live lessons overlaps |
| TutorCalendar.ScheduledIff | internal/service/lesson_service.go:212-254 | the same for a new lesson |
| TutorCalendar.LessonService.HasOverlappingLessons | internal/repository/memory/lesson_memory.go:81-100 | the loop answers whether a live lesson of the tutor, other than the excluded one, overlaps the window |
| TutorCalendar.LessonService.ScheduleLesson | internal/service/lesson_service.go:212-254 | result and calendar are those of the specified call, in each error case too |
| TutorCalendar.LessonService.RescheduleLesson | internal/service/lesson_service.go:259-288 | result and calendar are those of the specified call; it succeeds only for an admin or the lesson's tutor, and is forbidden, when the window is in order and the lesson exists, exactly to every other user if its tutor can be looked up, and to all but admins if no reader of tutor profiles is wired |
| TutorCalendar.LessonService.CancelLesson | internal/service/lesson_service.go:295-313 | result and calendar are those of the specified call; it succeeds if and only if the lesson is neither cancelled nor completed and the caller is an admin or its tutor |
| MemoryCache.NeverConsumedTwice | internal/cache/redis.go:104-138 | over any calls, successful consumptions of a key never outnumber the calls that put something there |
| MemoryCache.FreshPutBetweenTakes | internal/cache/redis.go:124-138 | between two consumptions of a key something was put there |
| MemoryCache.TakesLatestUnexpired | internal/cache/redis.go:105-138 | a consumption returns the value of the latest put, and not after its expiry |
| MemoryCache.HoldsLastPut | internal/cache/redis.go:46-138 | whatever is under a key came unchanged from the latest put, and is still to be consumed |
| MemoryCache.StoredIff | internal/cache/redis.go:46-138 | over any calls, a key is in the store if and only if the latest value put there has been neither removed nor found expired by a Get |
| MemoryCache.ReadsLatest | internal/cache/redis.go:46-58 | Get and GetDel answer the latest value put under the key if nothing has removed it since and it has not run out, and otherwise nothing |
| MemoryCache.ClaimsIff | internal/cache/redis.go:104-122 | SetNX wins if and only if no value is there, by the same history, or its time to live has run out |
| MemoryCache.LockExcludes | internal/cache/redis.go:104-122 | two SetNX calls win a key with no release in between only if the first one's time to live has run out |
| MemoryCache.BothAtTheEdge | internal/cache/redis.go:46-58 | a reader is served and a claimer wins at the same instant exactly when it is the instant of expiry |
| MemoryCache.ExistsDisagreesWithGetIff | internal/cache/redis.go:97-102 | Exists says yes where Get finds nothing exactly for an expired entry not yet removed or an empty value |
| MemoryCache.InMemoryCache.GetValue | internal/cache/redis.go:46-58 | reply and store are those of the specified call, expired entries removed |
| MemoryCache.InMemoryCache.SetValue | internal/cache/redis.go:60-72 | reply and store are those of the specified call |
| MemoryCache.InMemoryCache.Delete | internal/cache/redis.go:74-81 | the loop removes exactly the given keys |
| MemoryCache.InMemoryCache.DeletePrefix | internal/cache/redis.go:83-93 | the loop removes exactly the keys with the prefix |
| MemoryCache.InMemoryCache.SetIfAbsent | internal/cache/redis.go:104-122 | reply and store are those of the specified call |
| MemoryCache.InMemoryCache.GetAndDelete | internal/cache/redis.go:124-138 | reply and store are those of the specified call |
| MemoryCache.InMemoryCache.Contains | internal/cache/redis.go:97-102 | answers whether the key is in the store, expired or not |
| MemoryCache.InMemoryCache.Increment | internal/cache/redis.go:95 | answers 1 and changes nothing |
| PrefixCache.SharedIsIndependent | internal/cache/prefix.go:27-63 | two caches over one store, neither prefix beginning with the other, give on every interleaving of calls the replies and contents of two independent caches |
| PrefixCache.SeparateIff | internal/cache/prefix.go:27-47 | no call on one cache can change the other if and only if neither prefix begins with the other |
| PrefixCache.BackendsAreSeparate | cmd/api/main.go:825-903 | the two prefixes in use satisfy that condition |
| PrefixCache.ForwardRefines | internal/cache/prefix.go:27-63 | a forwarded call answers, and changes its own namespace, as if it were the whole cache |
| PrefixCache.ForwardFrame | internal/cache/prefix.go:27-63 | a forwarded call leaves every key outside its namespace alone |
| PrefixCache.Namespaced.constructor | internal/cache/prefix.go:19-25 | an empty prefix becomes `default:` |
| PrefixCache.Namespaced.Delete | internal/cache/prefix.go:37-43 | the loop prefixes every key, and the namespace loses exactly those keys |
| PrefixCache.Namespaced.DeletePrefix | internal/cache/prefix.go:45-47 | the namespace loses exactly its keys with the prefix |
| PrefixCache.Namespaced.GetAndDelete | internal/cache/prefix.go:61-63 | reply and namespace are those of a cache of its own |
| PrefixCache.Namespaced.SetIfAbsent | internal/cache/prefix.go:57-59 | reply and namespace are those of a cache of its own |
| PrefixCache.Namespaced.GetValue | internal/cache/prefix.go:29-31 | reply and namespace are those of a cache of its own |
| PrefixCache.Namespaced.SetValue | internal/cache/prefix.go:33-35 | reply and namespace are those of a cache of its own |
| PrefixCache.Namespaced.Contains | internal/cache/prefix.go:53-55 | reply and namespace are those of a cache of its own |
| PrefixCache.Namespaced.Increment | internal/cache/prefix.go:49-51 | reply and namespace are those of a cache of its own |
| SsrBreaker.OutageCost | client/lib/server-api.ts:61-109 | while every fetch fails at the network and calls are sequential, at most 3 * (D / 60000 + 1) fetches start in any interval of D milliseconds |
| SsrBreaker.OutageCostIsTight | client/lib/server-api.ts:61-109 | for every D there is a run that reaches that number |
| SsrBreaker.CounterIsStreak | client/lib/server-api.ts:91-109 | in every run of calls that do not overlap the counter is the number of network failures since the last good answer, in threes, hence 0, 1 or 2; error statuses and skipped calls do not count |
| SsrBreaker.OverlapCounterIsStreak | client/lib/server-api.ts:83-109 | the same in every run in which calls overlap in any way, failures counted as fetches end |
| SsrBreaker.OverlapDepartsIff | client/lib/server-api.ts:69-109 | however calls overlap, after the breaker's latest opening a new call fetches if and only if a minute has passed or a fetch already under way has come back good in between |
| SsrBreaker.OverlapCooldown | client/lib/server-api.ts:69-109 | so after any opening a fetch starts within the minute only if one came back good in between |
| SsrBreaker.StartsWhileOpen | client/lib/server-api.ts:83-101 | a run in which that happens: a fetch starts a millisecond after the breaker opened |
| SsrBreaker.OverlapOutageCost | client/lib/server-api.ts:61-109 | while every fetch fails at the network and at most m are under way together, at most (m + 2) * (D / 60000 + 1) fetches start in any interval of D milliseconds |
| SsrBreaker.OverlapCostIsReached | client/lib/server-api.ts:61-109 | for every positive m there is a run in which m + 2 fetches start within one minute |
| SsrBreaker.TripsIff | client/lib/server-api.ts:103-109 | a call opens the breaker exactly when it brings that number to a multiple of three |
| SsrBreaker.CooldownHolds | client/lib/server-api.ts:69-71 | whatever the outcomes of calls that do not overlap, no fetch starts within a minute of the breaker opening |
| SsrBreaker.GoodAnswerResets | client/lib/server-api.ts:98-99 | after a good answer the next two calls are made and cannot open the breaker |
| SsrBreaker.ServerApi.ApiFetchSSR | client/lib/server-api.ts:61-101 | the method's answer and variables are those of the specified call |
| SsrBreaker.ServerApi.Trip | client/lib/server-api.ts:103-109 | the counter and the opening time after one network failure |

## Left out

- BookingTheorems.CapacityBound: bounds the excess by the late captures instead of by zero, because a late capture takes a seat without a capacity check; CapacityKeptIff is the exact condition.
- Enrolments whose order was made for another cohort or student: bookings make none, and the foreign key rules out an order that does not exist.
- Deadlock detection: which of two waiting transactions is aborted, and when; any may be, at any time.
- Refunds, private-tuition bookings, coupons, order amounts, escrow, Plus subscriptions, lesson links and wallets opened by a booking: none of them moves a seat.
- Enrolments created by admissions acceptance and lessons created by the starter pack: they bypass the capacity and overlap guards.
- Orders with several COHORT items: a booking makes one, and the model's order has one.
- The authorization of an enrolment: a boolean parameter; so are the actor's other rights, except lesson ownership.
- Limits and order of the stale-row listing: any list of stale rows is allowed.
- Transactions whose commit outcome is unknown, in bookings and in migrations: a commit either happened or failed.
- A process restart between migrations with a different set of files: all runners carry the same files.
- Files, the reading of migration files from the embedded directory: the sorted list is the input.
- Referral code generation with its retries, reward lookups, audit entries and notifications.
- Wallet currencies and two-decimal amounts: amounts are whole numbers.
- MFA, sessions and roles after a successful password check; hashing is a boolean.
- The difference between the wall clock and the injected clock in the throttle: one clock that does not go back.
- Login successes inside the interval of the throttle bound: a success clears the counter and the bound does not hold across it. The throttle is per process; several processes each count for themselves.
- Resolution of a client's address from proxy headers: a client is an id.
- White space and upper case outside ASCII in content types and lesson titles.
- A handler that sets Content-Encoding itself, one that writes after Close, informational statuses and those without a body, and connections that cannot flush.
- The gzip coding (section 8.4.1.3 of RFC 9110): any coding whose decoder returns what was written to a complete stream.
- The Redis fan-out of events and its reconnects: the hub of one instance.
- Closing of channels by HTTP handlers: a cancelled stream is simply no longer listed.
- Lesson descriptions, meeting providers and recordings; deletion of lessons with their cohort; statuses set outside the service.
- The Redis implementation of the cache: the shared store is the in-memory one, whose mutex orders the calls.
- Incr of the in-memory cache always answers 1; it is modelled so and nothing is proved of it.
- SsrBreaker.OutageCost: calls that do not overlap only; SsrBreaker.OverlapOutageCost is the bound for overlapping ones.
- SsrBreaker.OverlapCostIsReached: shows the bound exact within one minute, not for every number of minutes.
- LoginThrottle.LateThrottleBound: shown to be reached for d = 0, and for d = 1 when m is 6, 11, 16 and so on; for other d it is a bound only.
- SlidingSession.FrequentUseLives: nothing is promised when a write and a clock reading together take longer than a day, or when a write fails; a failed one changes nothing.
- Cohort locks taken row by row: a sweep's commit takes all of them at once, while booking_service.go:739 takes one per row, so two sweeps whose rows touch two cohorts in opposite orders can deadlock too.
- The pool's connections: a runner that draws the connection on which another one's unlock failed, and so already has the lock.
- Reward calls are whole steps beside a settlement; their statements, crashes and replays are those of ReferralReward.
- HTTP routing, response bodies, logging and metrics.
