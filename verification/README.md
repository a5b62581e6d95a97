# Ledger, sessions and money: a verified model

A Dafny model of the parts of VicPay where money or a session can be lost: the double-entry
posting engine with its Postgres schema, the transfer service on top of it, refresh-token
rotation with the browser client that holds the cookie, one-time codes, the request rate
limiter, the migration runner, and the pair that prints and parses amounts.
`dafny verify dfyconfig.toml` checks all of it.

## How it is organised

* **Ledger.** `Ledger` holds entries, postings, validation, cache deltas and the atomic ledger
  (a wallet appears with balance zero, or a whole posting happens). `Protocol` is the engine
  and the transfer service as a transition system: any number of calls interleave, one SQL
  statement per move; each statement may fail, and a commit or a wallet insert may take effect
  and still report an error. A transaction's writes stay in its process until it commits.
  `Invariants` and `Preservation` carry the inductive invariant, `Refinement` the whole-run
  results, `Liveness` deadlock freedom and termination, `Retrying` what is retried and when a call
  gives up. `Engine` is `ledger.go` as written
  (loops, retry counter, one statement after another) over mutable tables and a fault script;
  each call is proved to be a run of one process of `Protocol`, with the same events, tables and
  answer. `Simulation` builds such runs, `Serial` whole calls one after another, and `Scenarios`
  the concrete runs that show where a result ends.
* **Transfers.** `Spending`, `Transfers`, `Solvency` and `Ceilings` prove no overdraft,
  conservation against top-ups, the spending ceilings and the absence of overflow in the
  ceiling checks, by joint induction over interleaved runs. `Service` is `transfer.go` as
  written, over `Engine`; each of its calls is a run of one send or top-up process of
  `Protocol`. `Calendar`, `Kyc` and `Currency` hold the UTC calendar, the limits and the
  currency codes.
* **Sessions.** `Rotation` is the service and its store statements, `Families` what rotation
  keeps, `Browser` the HTTP handlers' cookie rules composed with the client of `http.ts`.
* **Money.** `Double` is round-half-even to 53 bits (IEEE 754-2019, section 4.3.1),
  `MinorUnits` the floating-point chain of the amount parser, `Money` printer and parser.
* **Others.** `Otp`, `RateLimit`, `Migrate`; `Store` is what a caller sees of a write.

## Where code and documentation differ, or a promise has a limit

* The drift view is documented as always empty under a correct engine. Deltas are accumulated
  in int64 and the journal is summed exactly, so one balanced posting whose net on a wallet is
  2^63 or more makes it non-empty: `Refinement.CommitDriftsIff` is the exact condition, and
  `Scenarios.DriftReachable` a run that gets there.
* In-memory validation accepts entries whose net is a non-zero multiple of 2^64
  (`Ledger.AcceptsWrappedCredits`); the deferred trigger refuses them.
* The transfer checks run outside the row locks. What is promised of a wallet (no overdraft,
  the ceilings) holds while its own user has at most one send in flight in its currency
  (`Transfers.SingleFlight`); everything else interleaves freely.
  `Scenarios.TwoSendsOverdraw` is a run without that guard, and
  `Transfers.SendCommitKeepsNonNegativeIff` says exactly when a commit overdraws.
* The ceiling checks add in int64, and a daily sum that overflows passes. With the guard, the
  ceilings hold of a wallet if and only if no single posting debits it by more than the daily
  limit (`Ceilings.CeilingsIff`), and only an overflow lets such a send through
  (`Ceilings.CeilingsUnlessOverflow`). Let D be the user's daily limit. No overflow happens if the
  user's sends in the currency are at most 2^63 - 1 - D (`Ceilings.SmallSendsKeepCeilings`), nor,
  with all senders of the currency guarded, if its top-ups are (`Ceilings.SpendingCeilings`). Both
  bounds are sharp: top up 2^63 - D, send D away and get it back, then send everything; the last
  check computes 2^63, which wraps, and 2^63 is spent in a day (`Scenarios.CeilingOverflows`, for
  every level). `Spending.WholeCheckExactIff` is the exact condition for one check, and
  `Service.LimitsExactIff` the same on the tables.
* Idempotency keys are shared by all users. A call with a used key reports success with the
  recorded posting and moves nothing, whoever posted it; `Refinement.RetriedRows` is what a success
  means when all calls with the key carry one input, `Refinement.OwnRows` when no other call uses
  it. The comment at `backend/internal/transfer/transfer.go:58`
  says keys make retries safe; a retry runs the balance and limit checks again first, so after a
  committed send it may be refused instead of answered (`Service.RetryAnsweredIff`).
* Parsing an amount through doubles is exact for every value up to 35184372088832.01 and fails
  first at 35184372088832.02 (`MinorUnits.FirstFailure`); `MinorUnits.Exact` decides it for
  every value.
* The self-transfer guard compares the recipient id as the client wrote it with the sender's id.
  Another spelling of one's own id passes it; the posting then moves nothing and counts as
  spending (`Service.SelfSendMovesNothing`).
* Rotation's shape and reuse results hold for requests handled one at a time.
  `Families.OverlapForks` and `Browser.LostAnswerEndsSession` show what happens otherwise.
  Revocation errors are ignored by the service, so a family whose revocation is lost survives
  reuse detection (`Families.RefusalKillsIff`).
* With lost store writes an OTP challenge allows one extra guess per lost write
  (`Otp.GuessBudget` counts them exactly).
* The limiter admits the first request of a window even when its limit is below one, so the
  bounds of `RateLimit` use max(limit, 1).

## Parameters and assumptions

Clock readings, fault outcomes, KYC levels, fresh identifiers and the users table are inputs.
Instants are integers from 1970 on. Identifiers drawn by `uuid.NewString` never repeat; which
user a spelling of an id denotes is an input. Hashes and checksums are injective, tokens are
not forged. The journal timestamp of a posting is not earlier than the clock reading of its
checks. An empty idempotency key is replaced by a fresh one before the call starts. `Engine` and
`Service` check wallet owners against the users table; in `Protocol` an insert the foreign key
refuses is a failing statement, and `Liveness.Progress` takes every named user to exist.

## Model

| member | source | states |
|---|---|---|
| `Int64.Wrap` | backend/internal/ledger/ledger.go:101-109 | an int64 sum: the representative of the exact value modulo 2^64, and the exact value itself if and only if that is in range |
| `Ledger.Accumulate` | backend/internal/ledger/ledger.go:100-113 | the accumulator loop reports the first bad entry in entry order (amount before direction), else one accumulator per currency congruent to its exact net |
| `Ledger.AllZero` | backend/internal/ledger/ledger.go:114-118 | the final scan: true exactly when every accumulator is zero |
| `Ledger.Validate` | backend/internal/ledger/ledger.go:96-120 | no error exactly for two or more well-formed entries whose exact net in every currency is a multiple of 2^64; otherwise too few entries, or the first bad entry's error, its amount before its direction, or unbalanced |
| `Ledger.AcceptsWrappedCredits` | backend/internal/ledger/ledger.go:96-120 | a concrete input of credits only that in-memory validation accepts because its net wraps to zero |
| `Ledger.TriggerIsBalance` | backend/migrations/0002_ledger.sql:52-74 | the deferred trigger passes exactly when every currency of the posting nets to exactly zero, so the inputs validation wrongly accepts never commit |
| `Ledger.BalancedIsAccepted` | backend/internal/ledger/ledger.go:96-120 | everything exactly balanced and well formed passes validation: the in-memory check refuses no posting the database would take |
| `Ledger.ComputeDeltas` | backend/internal/ledger/ledger.go:136-148 | the delta loop gives each wallet named by the entries, however often, the int64 wrap of its exact signed sum, and no other account a delta |
| `Ledger.CacheCongruentToJournal` | backend/internal/ledger/ledger.go:215-221 | a cache fed by deltas is congruent modulo 2^64 to the signed sum of the wallet's journal entries |
| `Ledger.CacheStaysExactIff` | backend/internal/ledger/ledger.go:136-148 | an agreeing cache still agrees after a posting if and only if the posting's exact net on the wallet fits int64 |
| `Ledger.SmallPostingsKeepCacheExact` | backend/migrations/0002_ledger.sql:98-107 | if no posting's gross on a wallet reaches 2^63, cache and journal sum are equal |
| `Ledger.AnyOrderSameAccounts` | backend/internal/ledger/ledger.go:215-221 | two orders of the same postings that both stay in bigint range give identical accounts |
| `Invariants.CommitIsApply` | backend/internal/ledger/ledger.go:205-227 | installing what a transaction buffered under its locks is exactly the atomic posting applied to the committed tables at that moment, whatever committed since it read |
| `Preservation.MoveIsAtomic` | backend/internal/ledger/ledger.go:173-295 | every statement of every call leaves the committed tables alone, provisions one wallet, or applies one whole posting |
| `Preservation.MoveKeepsInv` | backend/internal/ledger/ledger.go:124-309 | one step of any call keeps the invariant: caches follow the journal modulo 2^64, keys and posting ids are unique, lock sets are disjoint and taken in ascending order, write buffers are current value plus delta, wallets are unique per user and currency |
| `Preservation.RunKeepsInv` | backend/internal/ledger/ledger.go:124-309 | so does every run of any number of interleaved calls with any failures |
| `Preservation.InitInv` | backend/migrations/0002_ledger.sql:8-50 | the freshly migrated database satisfies it |
| `Refinement.RunRefinesAtomicLedger` | backend/internal/ledger/ledger.go:124-227 | every interleaving reaches the tables that applying its committed events one at a time in commit order reaches, and the journal lists exactly the committed postings |
| `Refinement.AnyCommitOrder` | backend/internal/ledger/ledger.go:205-227 | replaying a run's postings from zero balances in any other order that stays in range rebuilds the very same accounts |
| `Refinement.CacheAgreesModulo` | backend/migrations/0002_ledger.sql:90-107 | in every reachable state each wallet's cache is congruent modulo 2^64 to its journal balance |
| `Refinement.NoDrift` | backend/migrations/0002_ledger.sql:98-107 | the drift view is empty in every reachable state whose postings are each below 2^63 gross per wallet |
| `Refinement.CommitDriftsIff` | backend/migrations/0002_ledger.sql:98-107 | a commit keeps the drift view empty if and only if the posting's exact net on every wallet fits int64 |
| `Scenarios.BalancedPostingCanDrift` | backend/migrations/0002_ledger.sql:98-107 | from any drift-free ledger with a USD wallet, a concrete input is accepted, balances exactly, can be applied, and leaves that wallet in the drift view, its journal 2^64 ahead of its cache |
| `Scenarios.DriftReachable` | backend/migrations/0002_ledger.sql:98-107 | and a run of one such call from the freshly migrated database ends with a non-empty drift view |
| `Refinement.Conservation` | backend/migrations/0002_ledger.sql:52-74 | in every reachable state each posting balances exactly and every currency nets to zero over the whole journal |
| `Refinement.CommitsOncePerKey` | backend/migrations/0002_ledger.sql:28-34 | over any run a key is committed at most once, counting commits that took effect but reported an error, and never when it was already used |
| `Refinement.AtMostOnce` | backend/internal/ledger/ledger.go:155-171 | no two postings share a key, each posting carries the full resolved entry list of a call with its key, and every call that reports success returns the id recorded under its key |
| `Refinement.SameKeySameAnswer` | backend/internal/ledger/ledger.go:299-309 | two successful calls with one key return the same posting id |
| `Refinement.OwnRows` | backend/internal/ledger/ledger.go:299-309 | a successful call whose key no other call uses has its own resolved entries recorded under the id it returned |
| `Refinement.RetriedRows` | backend/internal/ledger/ledger.go:299-309 | a successful call has its entries recorded, on accounts they name, under the id it returned, whenever every call with its key carries the same input, as retries do |
| `Liveness.WaitsPointUp` | backend/internal/ledger/ledger.go:180-203 | a call waits only for a call whose next lock, or key, comes later in the common order |
| `Liveness.NoDeadlockCycle` | backend/internal/ledger/ledger.go:133-203 | the wait-for graph of every reachable state is acyclic |
| `Liveness.Progress` | backend/internal/ledger/ledger.go:124-203 | in every reachable state with an unfinished call some call has a statement that can succeed |
| `Liveness.RunsTerminate` | backend/internal/ledger/ledger.go:155-171 | the number of moves of any run is bounded by the calls' initial budgets: bounded retries make every run finish |
| `Retrying.RetriesEight` | backend/internal/ledger/ledger.go:155-169 | over any run of any number of calls: a transaction ended by a retryable error is followed by another, no other error is, and a call gives up on such errors exactly after the eighth |
| `Retrying.RacesNeverFail` | backend/internal/ledger/ledger.go:155-309 | over any run, a call none of whose own statements fails is not failed by a race: a lost wallet insert finds the wallet, a used key is answered from the journal, and a bare posting fails only when it is invalid, names a missing system account, or is refused by the trigger or bigint's range |
| `Engine.Database.SystemAccountId` | backend/internal/ledger/ledger.go:258-265 | the id of a system account with the code, or nothing when absent or the query fails |
| `Engine.Database.SelectWallet` | backend/internal/ledger/ledger.go:268-277 | the id of the user's wallet in the currency when there is one |
| `Engine.Database.InsertWallet` | backend/internal/ledger/ledger.go:279-284 | adds one wallet with balance zero, or fails with or without having added it; never for a user missing from the users table, and without faults always for a user in it |
| `Engine.Database.UserWalletId` | backend/internal/ledger/ledger.go:268-295 | returns a wallet of the user in the currency; the tables change by at most one provisioned zero wallet; without faults it fails only for a user with neither a wallet nor a users row |
| `Engine.Database.ResolveAccount` | backend/internal/ledger/ledger.go:236-252 | the account one entry names, looked up or provisioned |
| `Engine.Database.ResolveAccounts` | backend/internal/ledger/ledger.go:232-256 | one matching account per entry and exactly the wallet ids to lock; tables move only by provisions, as in a run of the call's protocol process; without faults it fails only at an unknown system account or user |
| `Engine.Database.OpenPosting` | backend/internal/ledger/ledger.go:173-203 | begin, lock, insert the posting row: a fresh id, or a unique violation exactly when the key is used |
| `Engine.Database.InsertEntries` | backend/internal/ledger/ledger.go:205-213 | the entry rows in order, each on its resolved account |
| `Engine.Database.UpdateCaches` | backend/internal/ledger/ledger.go:215-221 | per wallet the committed cache plus its delta, failing when bigint overflows |
| `Engine.Database.CommitPosting` | backend/internal/ledger/ledger.go:222-227 | commit installs the whole posting or nothing; without faults it succeeds exactly for balanced entries |
| `Engine.Database.WritePosting` | backend/internal/ledger/ledger.go:205-227 | the rest of a transaction once its posting row is inserted: the whole posting takes effect or nothing; ended by retryable errors only, unless the posting does not balance or fit |
| `Engine.Database.PostOnce` | backend/internal/ledger/ledger.go:173-227 | one transaction changes nothing or applies this posting whole; a reported commit applied it; a used key changes nothing |
| `Engine.Database.IdempotentReplay` | backend/internal/ledger/ledger.go:299-309 | answers only a unique violation, and only with a posting recorded under the key |
| `Engine.Database.AttemptRound` | backend/internal/ledger/ledger.go:156-169 | one round of the retry loop: one transaction, then success, replay or failure; another round follows exactly when the transaction ended in a retryable error, which only a failing statement causes |
| `Engine.Database.Attempts` | backend/internal/ledger/ledger.go:155-171 | a transaction ended by a retryable error is followed by another, up to eight, and nothing else is retried; at most one takes effect; while only such errors get in the way it fails exactly when all eight end so, or the key is unused and the database refuses the posting; and it is a run of the call's protocol process |
| `Engine.Database.Post` | backend/internal/ledger/ledger.go:124-171 | for every fault script: only wallet provisions and at most this one posting, applied whole; success names the posting recorded under the key; tables, events, posting ids and answer are those of a run of the process of any protocol call with this input; while only retryable errors inside transactions get in the way it fails if and only if the input is invalid, a system account or user is missing, the key is unused and the entries do not balance or fit, or eight transactions each ended in a retryable error; then a success is a replay exactly for a used key |
| `Engine.PostableIff` | backend/migrations/0002_ledger.sql:52-74 | the database takes a resolved posting if and only if its input balances exactly and fits every wallet, a condition on the input and the tables before the call |
| `Simulation.RoundRun` | backend/internal/ledger/ledger.go:173-227 | in any reachable state where no other call holds a lock or an open posting, every way a round of the engine can end is a run of the protocol |
| `Spending.OutgoingIsDebits` | backend/internal/transfer/transfer.go:234-244 | the spending query sums exactly the debits of the user's one wallet in the currency |
| `Spending.CeilingCheckExactIff` | backend/internal/transfer/transfer.go:220-228 | one int64 ceiling comparison agrees with the exact one if and only if the sum does not overflow |
| `Spending.WholeCheckExactIff` | backend/internal/transfer/transfer.go:216-230 | both comparisons together agree with the exact limits if and only if the daily sum does not overflow, nor the monthly sum when the day is within its limit |
| `Spending.CheckExactIff` | backend/internal/transfer/transfer.go:216-230 | while the month is within its limit, they agree if and only if the daily sum does not overflow |
| `Transfers.RequestRows` | backend/internal/transfer/transfer.go:125-133 | a send's or top-up's rows move each wallet by exactly what the request says |
| `Transfers.NoOverdraft` | backend/internal/transfer/transfer.go:110-138 | in every run in which a wallet's own user has at most one send in flight in its currency, the wallet is never negative, whatever other users do and whatever interleaves between balance read and commit |
| `Transfers.SendCommitKeepsNonNegativeIff` | backend/internal/transfer/transfer.go:110-138 | whatever its checks read, a send's commit keeps all balances non-negative if and only if the sender's committed balance covers it at that moment or it pays the sender |
| `Scenarios.TwoSendsOverdraw` | backend/internal/transfer/transfer.go:114-124 | a user topped up once and sending the amount twice: a run in which both sends read the balance before either posts leaves the wallet negative |
| `Scenarios.OverdraftReachable` | backend/internal/transfer/transfer.go:114-124 | such a run exists from the freshly migrated database |
| `Serial.InOrder` | backend/internal/transfer/transfer.go:110-164 | calls made one after another, each covered, within the comparisons and in range, all succeed with a posting of their own, and the balances, spending and top-ups are what their requests add up to |
| `Solvency.WalletsHoldTopUps` | backend/internal/transfer/transfer.go:143-164 | in every service run the wallets of a currency hold exactly its committed top-ups, the negative of its external account |
| `Solvency.NoExternalNoMoney` | backend/migrations/0002_ledger.sql:109-122 | currencies without an external account never hold money, in total and, with sends guarded, in any wallet |
| `Ceilings.CeilingsIff` | backend/internal/transfer/transfer.go:205-244 | in every run in which its own user has one send at a time in its currency, a wallet keeps the daily limit on every UTC day, the monthly limit in every month and twice the daily limit in any 24 hours if and only if no single posting debits it by more than the daily limit |
| `Ceilings.CeilingsUnlessOverflow` | backend/internal/transfer/transfer.go:216-230 | so those ceilings hold unless a daily sum of that user in that currency overflows |
| `Ceilings.SmallSendsKeepCeilings` | backend/internal/transfer/transfer.go:205-244 | they hold of a user none of whose sends in the currency asks for more than 2^63 - 1 less the daily limit, whatever other users do |
| `Ceilings.SpendingCeilings` | backend/internal/transfer/transfer.go:205-244 | and, with every sender of the currency guarded, they hold of a user while that currency's top-ups are at most 2^63 - 1 less that user's daily limit |
| `Ceilings.ChecksNeverWrap` | backend/internal/transfer/transfer.go:220-228 | in such a run no ceiling comparison of a send of that user in that currency, retries included, computes an overflowing sum |
| `Scenarios.CeilingOverflows` | backend/internal/transfer/transfer.go:216-228 | both bounds are sharp for every level: with one minor unit more in top-ups and in a send, calls made one after another put debits of 2^63 on one UTC day |
| `Scenarios.CeilingOverflowReachable` | backend/internal/transfer/transfer.go:216-228 | for every level such a guarded run exists from the freshly migrated database, and its sender exceeds the daily limit |
| `Ceilings.WindowWithinTwoDays` | backend/internal/transfer/transfer.go:212-223 | a 24-hour window holds at most twice what a UTC day may hold |
| `Kyc.UnknownIsStrictest` | backend/internal/kyc/kyc.go:35-42 | an unknown level never grants more than any known one |
| `Kyc.Tiers` | backend/internal/kyc/kyc.go:27-32 | a higher level has higher daily and monthly limits: 200 and 1,000, 1,000 and 10,000, 4,000 and 40,000 dollars in cents |
| `Calendar.DayBounds` | backend/internal/transfer/transfer.go:212 | the start of an instant's UTC day is the start of the one day that contains it |
| `Calendar.MonthBounds` | backend/internal/transfer/transfer.go:213 | the start of an instant's month is the start of the one Gregorian month that contains it |
| `Calendar.FirstDayIsCivil` | backend/internal/transfer/transfer.go:213 | the months are the Gregorian ones: each begins at the day the closed formula of the civil calendar gives, from 365 days a year, the leap days, and 153 days for five months |
| `Calendar.StartOfMonthIsCivil` | backend/internal/transfer/transfer.go:213 | the month sum starts at the first instant of the one civil month that contains the reading |
| `Service.PostingMoves` | backend/internal/transfer/transfer.go:125-133 | one posting of a request moves every balance by exactly what it says, or nothing moved at all |
| `Service.CoveredSendOverdrawsNothing` | backend/internal/transfer/transfer.go:114-124 | a send within the sender's balance leaves every wallet non-negative |
| `Service.RequestPostable` | backend/internal/transfer/transfer.go:125-133 | the engine takes a covered send exactly when the recipient's balance has room for it or the recipient is the sender, and a top-up exactly when the user's has |
| `Service.SelfSendMovesNothing` | backend/internal/transfer/transfer.go:111-113 | a send to oneself under another spelling of the id moves no balance but counts as spent |
| `Service.LimitsExactIff` | backend/internal/transfer/transfer.go:205-231 | on the tables: the comparisons pass exactly when the exact sums are within the limits, if and only if no addition they come to overflows |
| `Service.OverLimitMeans` | backend/internal/transfer/transfer.go:216-228 | a limit is reported exceeded only when the exact sum exceeds it without overflow, and, when the month's sum fits int64, exactly when the check does not pass |
| `Service.RetryAnsweredIff` | backend/internal/transfer/transfer.go:110-138 | a retry of a committed send under its own key runs the checks again: it is answered from the journal if and only if the balance covered the amount twice and the limits pass once more |
| `Service.TransferService.WalletBalanceMinor` | backend/internal/ledger/ledger.go:312-324 | the wallet's cached balance, zero without a wallet |
| `Service.TransferService.SumOutgoing` | backend/internal/transfer/transfer.go:234-244 | the sum of debits since an instant, an error when it does not fit int64 |
| `Service.TransferService.Exceeds` | backend/internal/transfer/transfer.go:216-228 | one ceiling comparison on the exact sum and the int64 addition |
| `Service.TransferService.CheckLimits` | backend/internal/transfer/transfer.go:205-231 | passes exactly when the sender has a level and both int64 comparisons pass; reports an exceeded limit exactly when a computed sum fails its comparison, else an error |
| `Service.TransferService.PostAndRead` | backend/internal/transfer/transfer.go:125-138 | posts, and without faults succeeds exactly when the accounts exist or may be opened and the key was used or the posting fits; the result carries the recorded posting's id, the currency, and the reader's balance; a run of the call's process from resolving on |
| `Service.TransferService.Check` | backend/internal/transfer/transfer.go:110-124 | passes only with the id spelled differently, a covering balance and both comparisons passed; self-transfer exactly for the same spelling; insufficient funds only uncovered, limit exceeded only covered and over a limit, and without faults both exactly then |
| `Service.TransferService.Execute` | backend/internal/transfer/transfer.go:110-138 | money moves whole or not at all, from a covering balance with both limit comparisons passed; under any faults insufficient funds is answered only to an uncovered send and limit exceeded only to a covered one over a limit, without faults exactly to those; self-transfer exactly for the same spelling; without faults success otherwise, unless the database refuses; answer, events and tables are those of one send process of the protocol |
| `Service.TransferService.CheckRecipient` | backend/internal/transfer/transfer.go:85-104 | invalid amount exactly for one below one, unsupported currency exactly next, recipient not found or unverified only in their cases, and without faults exactly |
| `Service.TransferService.TransferToUser` | backend/internal/transfer/transfer.go:85-106 | under any faults each refusal only in its own case past the earlier guards, the first two and, without faults, all of them exactly then; success otherwise, with the sender's balance; moves money only to an existing verified recipient, once per key, and never overdraws; a run of one send process |
| `Service.TransferService.TopUp` | backend/internal/transfer/transfer.go:143-164 | invalid amount exactly for one below one, unsupported currency exactly next, else only an error; without faults success exactly when the wallet may exist and has room or the key was used; credits the wallet from the external account whole or not at all, once per key; a run of one top-up process |
| `Families.FamilyShape` | backend/internal/auth/service.go:135-231 | over any run, whatever fails: tokens of a family share user and origin and form one chain; a token has at most one child, a token with a child is used, at most one token is unused |
| `Families.RunKeepsShape` | backend/internal/auth/service.go:135-231 | every run keeps each family a single parent chain in issue order |
| `Families.OverlapForks` | backend/internal/auth/repository.go:89-93 | two overlapping refreshes that both read the token before either marked it give it two children: the shape needs one request at a time |
| `Families.DeadStaysDead` | backend/internal/auth/service.go:144-181 | once all its rows are revoked, no run adds or changes a row of the family |
| `Families.DeadGrantsNothing` | backend/internal/auth/service.go:144-181 | and no step of any run grants a session in it |
| `Families.OthersUntouched` | backend/internal/auth/repository.go:96-100 | no operation changes a row of a family other than its own |
| `Families.RefusalKillsIff` | backend/internal/auth/service.go:148-156 | after reuse or expiry the family is dead if and only if the revocation, whose error is ignored, reached the store |
| `Families.LogoutKills` | backend/internal/auth/service.go:171-181 | a logout whose revocation reached the store kills the family |
| `Families.LogoutAnswers` | backend/internal/auth/service.go:171-181 | a sign-out fails only by a failing statement, and revokes exactly the unrevoked rows of the presented token's family |
| `Families.RenewsIff` | backend/internal/auth/service.go:135-168 | a refresh succeeds exactly for a live token inside both windows when no statement fails |
| `Families.RefusedIff` | backend/internal/auth/service.go:144-158 | reuse is reported exactly for the used token of a live family, expiry exactly for an unused one past a window |
| `Families.RefreshAnswers` | backend/internal/auth/service.go:135-168 | an invalid-token, user-not-found or internal answer is given exactly in its own case, in terms of the token, its row and the failing statements |
| `Families.RefusedRows` | backend/internal/auth/service.go:135-168 | what each refused refresh does to the table: nothing, the token marked, or every unrevoked row of its family and no other revoked at the clock reading |
| `Families.FailedRows` | backend/internal/auth/service.go:155-168 | a refresh that failed on a statement past its checks leaves the token marked, unless the mark was lost, and the child if only the insert's report was |
| `Families.GrantedTokens` | backend/internal/auth/service.go:204-231 | a successful refresh adds one unused child of the presented token in the same family and origin, marks the parent used, and signs an access and a refresh token for the same user with their full lifetimes |
| `Families.SignedIn` | backend/internal/auth/service.go:197-231 | a sign-in succeeds exactly when both signings and the insert do; then, and when the insert took effect unreported, it adds one row: unused id and family, no parent, this user, origin at the clock reading, unused and unrevoked; else nothing |
| `Families.SignInTokens` | backend/internal/auth/service.go:197-231 | its two tokens are an access and a refresh token of that user with their full lifetimes, the refresh token naming the new row |
| `Families.AccessBounded` | backend/pkg/jwt/jwt.go:53-65 | no access token of any run outlives its family's origin + refreshTTL + accessTTL, plus the time its request spent between the window check and signing |
| `Rotation.Service.InsertRefresh` | backend/internal/auth/repository.go:63-69 | adds the row, or reports an error with or without having added it |
| `Rotation.Service.MarkRefreshUsed` | backend/internal/auth/repository.go:89-93 | stamps an unused row and leaves a used or absent one alone, without an error |
| `Rotation.Service.RevokeFamily` | backend/internal/auth/repository.go:96-100 | stamps every unrevoked row of the family and no other row |
| `Rotation.Service.Rotate` | backend/internal/auth/service.go:204-231 | a fresh child row and its two tokens, or an error |
| `Rotation.Service.MintSession` | backend/internal/auth/service.go:197-201 | a fresh family with one root row, its origin the current time |
| `Rotation.Service.Refresh` | backend/internal/auth/service.go:135-168 | for every fault pattern the rows and answer of the rotation state machine's refresh step |
| `Rotation.Service.Logout` | backend/internal/auth/service.go:171-181 | likewise for the logout step |
| `Browser.NeverReuse` | backend/internal/auth/handler.go:97-110 | from a start without tokens, any number of browsers, each issuing one request at a time with no refresh answer lost, never set off reuse detection, whichever store writes fail, and every cookie stays empty or names an unused token no other browser holds |
| `Browser.StepKeepsFresh` | backend/internal/auth/handler.go:97-119 | one step of one browser keeps every cookie empty or naming an unused token no other browser holds |
| `Browser.LostAnswerEndsSession` | backend/internal/auth/service.go:148-152 | if a rotation's answer is lost, the next refresh is refused as reuse, clears the client, and kills the family if the revocation is stored |
| `Browser.SignedOut` | frontend/src/api/http.ts:134-140 | after a sign-out the access token is gone, the cookie survives exactly when no answer arrived, and a stored revocation kills the family |
| `Browser.AfterRefresh` | frontend/src/api/http.ts:82-91 | an answered grant leaves the new unused child of the old cookie and an access token of its user that authorizes exactly until it expires; an answered refusal neither; an answered refresh without a cookie no access token; an unanswered one changes nothing in the client; granted exactly for a live cookie and no failure |
| `Browser.AfterLogin` | frontend/src/api/http.ts:112-132 | an answered login without failure leaves a cookie naming a new family's first row and an access token of that user good until it expires; anything else changes nothing in the client |
| `Browser.Api.Refresh` | frontend/src/api/http.ts:82-91 | a grant replaces cookie and access token, the latter authorizing the cookie's user exactly until it expires; an answered refusal clears both, a lost answer changes neither; a live cookie, no failure and an answer give a grant |
| `Browser.Api.Authed` | frontend/src/api/http.ts:94-100 | one refresh and one retry after a 401 and only then; the resource is reached exactly when the first or the second attempt carries a valid access token; with a live cookie, no failure and every request answered, exactly when the retry comes before the new access token expires |
| `Browser.Api.Login` | frontend/src/api/http.ts:112-132 | an answered success leaves a refresh cookie of a new family and an access token for that user; anything else keeps both |
| `Browser.Api.Logout` | frontend/src/api/http.ts:134-140 | the access token is dropped whatever happens; the cookie only by an answer |
| `Money.New` | backend/pkg/money/money.go:38-44 | succeeds exactly for a supported code in any letter case, keeping the amount and storing the code in upper case |
| `Currency.SupportedIff` | backend/pkg/money/money.go:76-79 | exactly USD, CRC, EUR, PAB and GTQ, in any letter case, are supported |
| `Money.PrintedForm` | backend/pkg/money/money.go:82-91 | a printed non-negative amount is whole digits, a point, two digits and the code, worth exactly the amount |
| `Money.NegativePrinted` | backend/pkg/money/money.go:82-91 | a negative amount prints as a minus sign before its opposite |
| `Money.NegationWraps` | backend/pkg/money/money.go:82-89 | the magnitude printed for a negative amount is its negation on int64 |
| `Money.LeastPrinted` | backend/pkg/money/money.go:82-91 | the most negative amount, whose negation wraps, prints signs inside both parts |
| `Money.MatchesIff` | frontend/src/lib/money.ts:41 | the pattern accepts exactly digits with an optional point and one or two more digits |
| `Money.ReadsValue` | frontend/src/lib/money.ts:39-46 | with any surrounding spaces and either separator, a positive decimal is read as exactly its value if and only if Exact holds of the value |
| `Money.RejectsIff` | frontend/src/lib/money.ts:39-46 | null exactly for text that is not such a decimal and for zero, at every magnitude |
| `Money.RoundTrip` | frontend/src/lib/money.ts:39-46 | for every positive amount, parsing the numeric part printed by String returns the amount if and only if Exact holds of it |
| `MinorUnits.ExactIff` | frontend/src/lib/money.ts:44 | for every value, Math.round(Number(s)*100) is the exact value if and only if Exact holds, a test on the value's remainder modulo 100 after halving it below 2^53; below 2^53 it is never off by more than one |
| `MinorUnits.FirstFailure` | frontend/src/lib/money.ts:44 | exact for every value up to 3518437208883201; the next one comes out one too large |
| `MinorUnits.OddNeverExact` | frontend/src/lib/money.ts:44 | above 2^53 no odd amount comes back |
| `MinorUnits.MinorTwice` | frontend/src/lib/money.ts:44 | from 2^52 on the chain commutes with doubling |
| `Double.RoundedIsNearest` | frontend/src/lib/money.ts:44 | the rounding used is correct: no 53-bit significand with any exponent is closer |
| `Double.TiesToEven` | frontend/src/lib/money.ts:44 | and on a tie it takes the even significand |
| `RateLimit.RateLimiter.Allow` | backend/internal/middleware/ratelimit.go:52-66 | one request changes only its own key's counter, exactly as the fixed-window step says |
| `RateLimit.WindowBound` | backend/internal/middleware/ratelimit.go:52-66 | in any ordered trace, a key is admitted at most limit times in its counter's window |
| `RateLimit.SlidingBound` | backend/internal/middleware/ratelimit.go:52-66 | and at most 2*limit times in any closed interval of the window length |
| `RateLimit.RefusedOnlyWhenExhausted` | backend/internal/middleware/ratelimit.go:58-63 | a request is refused only when its window already holds limit admissions |
| `RateLimit.AdmittedIff` | backend/internal/middleware/ratelimit.go:52-66 | in any trace a request is admitted if and only if it is among the first limit requests, or the very first, of its key's window, which takes in the instant it ends |
| `RateLimit.KeysIndependent` | backend/internal/middleware/ratelimit.go:52-66 | the verdict on a request depends only on the requests of its own key |
| `Otp.Service.Issue` | backend/internal/otp/otp.go:94-115 | stores a fresh unattempted challenge, or fails with or without storing it |
| `Otp.Service.Active` | backend/internal/authstore/otpstore.go:33-50 | fails, finds a newest unconsumed challenge of the recipient and purpose, or finds none exactly when there is none |
| `Otp.Service.Verify` | backend/internal/otp/otp.go:120-139 | a failing lookup changes nothing; expiry and attempts are checked before the code is compared; a mismatch counts, a match consumes |
| `Otp.AnswerMeans` | backend/internal/otp/otp.go:120-139 | not-found exactly without an unconsumed challenge; refusals without a comparison change nothing; success exactly when a matching guess on an unexpired challenge with attempts left was consumed |
| `Otp.AnswersIff` | backend/internal/otp/otp.go:120-139 | each answer to a challenge found is given exactly in its own case: expiry before attempts, attempts before the code, a stored consumption before success; with what it does to the challenge |
| `Otp.GuessBudget` | backend/internal/otp/otp.go:120-139 | over any run each challenge allows at most max_attempts code comparisons, plus one per lost write, and at most one success |
| `Otp.RecipientBudget` | backend/internal/otp/otp.go:94-139 | all comparisons for a recipient and purpose stay within max_attempts times the codes issued for it, plus lost writes |
| `Migrate.CrashResumable` | backend/internal/database/migrate.go:24-96 | after any number of crashed runs the executed files are a prefix of the list and recorded as such; a successful run records all, and one more run changes nothing |
| `Migrate.SucceedsIff` | backend/internal/database/migrate.go:46-69 | a run succeeds exactly when every file is recorded with its checksum or can be applied |
| `Migrate.EditedNeverSucceeds` | backend/internal/database/migrate.go:52-60 | a file edited after it was applied makes every run fail |
| `Migrate.ExecutesExactly` | backend/internal/database/migrate.go:46-69 | a run executes exactly the unrecorded files before the first that was edited, is marked, or does not commit, that one only if its commit took effect unreported, and nothing after it |
| `Migrate.NeverTwice` | backend/internal/database/migrate.go:24-96 | over any sequence of runs from the empty database, with files added, removed, renamed or edited in between and runs cut short, no name is executed twice, the table is the exact record, and what was executed stays |
| `Migrate.Runner.LoadApplied` | backend/internal/database/migrate.go:98-113 | the loop builds the name-to-checksum map of the recorded rows |
| `Migrate.Runner.ApplyOne` | backend/internal/database/migrate.go:74-96 | executes and records a file together, or neither; files that opt out of a transaction are refused |
| `Migrate.Runner.Migrate` | backend/internal/database/migrate.go:24-72 | a run over the files is the sequential specification, for every crash point |

## Left out

- Interleaving inside `Engine.Database` and `Service.TransferService`: both classes run one call at a time, the former as a run of one `Protocol` process; interleaved statements are the subject of `Protocol`.
- Statement-level interleaving of session, OTP and migration requests: each request runs alone; the advisory lock that serialises migration runners is not modelled.
- `Transfer` by phone number: it differs from `TransferToUser` only in the recipient lookup; phone validation and encryption are not modelled.
- Posting description, metadata and timestamps of entries other than the posting's: no result depends on them.
- Row updates and deletes on the journal: the immutability triggers refuse them and the model has no such operation.
- Foreign-key share locks on account rows: they never wait here, since wallets are already held by the same transaction and system rows are never locked exclusively.
- `backoff` between retries and cancelled contexts: a cancelled statement is a failing statement.
- MinorUnits.Minor: the exponent is unbounded, so values so large that Number() overflows to Infinity, and the digits beyond the twentieth that Number() may ignore, are not modelled.
- `formatMoney`: locale formatting by the Intl library.
- Rotation.Service.Refresh: the parser's signature, issuer and algorithm checks are the assumption that tokens are not forged; expiry and token kind are modelled.
- Cookie attributes and Max-Age: a browser may drop its cookie at any time instead.
- Two calls in flight in one browser, as when wallets and transactions are fetched together: outside the one-request-at-a-time results; a second use of a rotated cookie is the case of `Browser.LostAnswerEndsSession`.
- Code generation and delivery of one-time codes: a code is an input.
- Credentials of login and phone verification, registration, password hashing: sign-in starts after they are accepted.
- File discovery and reading before a migration run, the creation of its bookkeeping table.
- The rate limiter's mutex and client address: requests arrive one at a time with their key.
- HTTP routing, JSON envelopes, CORS, configuration, React components, the mock API: plumbing or a weaker copy of the same logic.
