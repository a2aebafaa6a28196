# E-Bank: a verified model

E-Bank is a play-money bank. This project models its core as executable Dafny specifications with the services as
classes over one session object, and proves what the parts promise together.

* **Tables and ledger** (`Tables`, `Ledger`, `LedgerLaws`, `AccountRepository`, `AccountService`). Amounts are whole
  cents. A journal and its postings, the cached balance and the transaction log are three representations of one
  balance; the legacy write path touches two of them.
* **Onboarding** (`OnboardingAccounts`, `OnboardingSessions`, `Onboarding`): account and session status, the one-time
  welcome grant, account numbers and the account cap, on the same tables.
* **Money movements** (`Recipient`, `Transfers`) and **requests** (`Bank`): each request is one database transaction.
* **Laws of single requests** (`Movements`, `LegacyLaws`, `OnboardingLaws`): for every call, when it succeeds, its first
  refusal otherwise, and exactly what it leaves in the tables, said without the functions that compute it.
* **Laws over whole runs** (`Steps`, `MoneyLaws`, `SessionLaws`, `GrantLaws`, `ReplayLaws`): statements about every
  sequence of requests from empty tables; `FirstSteps`, `Overdraft` and `TakenKeys` build the runs that show their
  bounds and conditions are met.
* **Idempotency** (`Canonical`, `RequestKeys`, `Idempotency`, `Middleware`, `Traffic`, `Exclusion`, `Timing`,
  `Commits`, `KeyLaws`, `Answers`): the canonical request form, the Redis record, the middleware as steps and as code,
  and any number of requests interleaved over one store and one bank. A run is a sequence of moves: an arrival, one
  store call of one request with a possible fault, one handler, time passing, a record lost.
* **Derived views** (`Statements`, `Paging`, `StatementQueries`), **locks** (`Locking`), **amounts** (`Money`,
  `Numerals`, `Digits`), **documents and displays** (`Validation`), **rate limit** (`RateLimit`). `Prelude`, `TextOrder`
  and `Errors` are shared vocabulary.

Each method that changes state is proved equal to a function on the tables (`...Effect`); the laws are proved about
those functions. A failed service call may leave the session half-changed; `Bank.Serve` restores it.

What callers must respect, as assumed in the run laws (`Steps.Proper`): ids drawn for new accounts and ids named by
legacy callers are never the internal cash account `sys_cash`, and drawn digits are 0 to 9.

## Where the code differs from what one might expect

* The rate limiter admits at most 2 * limit - 1 requests in any window-length interval, one fewer than twice the limit.
* The canonical form ignores the spelling of a number, but "-0.00" and "0.00" stay different (`Money.SpellingIsIgnored`
  gives the exact condition).
* A statement's opening balance is computed by date and its rows are ordered by id, so lines are right when dates
  follow ids; `Statements.ClosesAtBalanceIff` and `Statements.LineIsExactIff` give the exact conditions.
* The lock record names no owner. Two handlers of one key cannot meet exactly when handlers and the releases after
  failed handlers end within the lock's life and, unless completions do too, also within a completed record's life
  (`Timing.HandlerExclusionExactly`). For completed records to be final, completions must end within the lock's life
  (`Timing.FinalityExactly`).
* Ledger movements are protected by their own key; legacy `/event` movements only by the middleware. They happen at
  most once per record life exactly when every stage ends within the lock's life, commits are answered as successes and
  successes get recorded (`Commits.EventMovesOnceExactly`). A success that could not be recorded is served again once
  its lock has run out, a commit whose handler then failed at once.
* The legacy transfer locks its origin first. Together with sorted acquisitions it can deadlock exactly if it goes from
  a greater account id to a smaller one (`Locking.DeadlockFreeExactly`).
* A client key may be an account's welcome key. If it is used before the account is finished, the grant is taken for a
  replay and never made (`GrantLaws.GrantsExactly`, `TakenKeys.KeyTakenBeforeGrant`).
* The funds check runs before the key check, so a retry can end in insufficient funds instead of a replay; nothing
  changes either way. A withdrawal retry is always an error.
* On `/event` an undeclared `account_id` field replaces the event's own account in the key, so two different
  withdrawals can share one (`RequestKeys.FormReadsBack` gives the exact condition).
* The key is built from route, method, user and body; the Idempotency-Key header only decides whether a request with an
  empty body is guarded.
* A withdrawal without a client key is filed under its subject and request id, joined by a colon: two subjects whose
  names hold colons can share one (`Movements.ColonsCollide`).
* A transfer whose destination account had the id `sys_cash` would lose its credit
  (`MoneyLaws.TransferConservesUnlessCash`).
* The legacy limit check truncates toward zero, so exact balances can reach -1000.99
  (`Overdraft.OverdraftBoundIsReached`).

## Model

| member | source | states |
|---|---|---|
| `Traffic.EndToEndAtMostOnce` | app/middleware/idempotency_middleware.py:161-390 | For any number of interleaved requests, with a storage error before or after its effect at any store call, records expiring or lost at any time, and handlers that crash before or after their transaction: the tables stay sound, no idempotency key has two journals, each arrival is served at most once, and accounts, journals, postings, log, sessions and holders equal those of running only the first successful movement of each key, in order (a replay may still add ledger account rows) |
| `Traffic.AlwaysFaithful` | app/core/database.py:28-35 | In every reachable world the tables are exactly those of running the served requests in order, whatever the middleware answered |
| `Traffic.StatementsStayExact` | app/services/demo_service.py:252-302 | In every reachable world a date-filtered statement of an account is right on every line and, with no end date and at most 500 rows, at its close |
| `Exclusion.MutualExclusion` | app/middleware/idempotency_middleware.py:242-334 | Sufficient timing (the exact conditions are the `Timing` rows): if no record is lost and every guarded request reaches its last store call before its lock expires, at most one request per key is in flight, it holds the live PROCESSING record, no record is FAILED and no request ever finds one to clear |
| `Exclusion.CompletedIsFinal` | app/core/idempotency.py:222-272 | Under the same timing, from the moment a key is COMPLETED until its record expires: the record does not change, no handler runs under the key, and every other request is answered with the stored status and body, a 503, or a 409 if it had read the key earlier |
| `Exclusion.StepKeepsExclusive` | app/middleware/idempotency_middleware.py:161-197 | Each single move of a punctual run keeps mutual exclusion |
| `Timing.HandlerExclusionExactly` | app/middleware/idempotency_middleware.py:313-408 | For every way to bound the stages of a request: two handlers of one key never run at once, in all runs that lose no record, if and only if handlers and releases after failed handlers end within the processing lifetime of taking the lock and, unless completions do so too, also within the completed lifetime |
| `Timing.HandlerExclusionWithinLock` | app/core/idempotency.py:184-193 | With the processing lifetime no longer than the completed one and completions arbitrarily late, the bound is exactly the processing lifetime |
| `Timing.FlightExclusionExactly` | app/middleware/idempotency_middleware.py:336-408 | At most one request per key is in flight, holding its own live lock, if and only if the whole flight fits the processing lifetime |
| `Timing.FinalityExactly` | app/core/idempotency.py:242-272 | With handlers and releases in time, completed records are final if and only if completions are in time too |
| `Timing.TimelyRunsHold` | app/middleware/idempotency_middleware.py:313-408 | Every request that runs its handler or is about to release has its key covered by a live record, its own lock or a late completion's |
| `Timing.LateReleaseBreaksExclusion` | app/core/idempotency.py:291-295 | If releases may come after the lock ran out: a run in which every handler ends in time and two handlers of one key still run at once, because the record removed on failure is another request's lock |
| `Timing.LateCompletionReplaces` | app/core/idempotency.py:242-272 | If completions may come after the lock ran out: a run in which a completed record others were answered from is replaced within its life |
| `Commits.LifeApartExactly` | app/middleware/idempotency_middleware.py:336-408 | For every way to bound the stages: two commits under one key are always a completed lifetime apart, in all runs that lose no record and with no help from the bank's own keys, if and only if every stage ends within the processing lifetime, a request whose transaction commits is answered below 400, and a success being recorded gets its record (the processing lifetime being the shorter one) |
| `Commits.CommitsAreALifeApart` | app/middleware/idempotency_middleware.py:336-390 | The sufficient half for any single run in which every flight ends before its lock expires |
| `Commits.EventMovesOnceExactly` | app/api/legacy.py:45-75 | A legacy event moves its money at most once per record life, everyone under its key asking for the same movement, if and only if the same condition holds |
| `Commits.EventMovesOnce` | app/api/legacy.py:45-75 | The sufficient half for any single run in which every flight ends before its lock expires |
| `Commits.SameKeySameCall` | app/core/idempotency.py:119-206 | Valid, unoverridden events under one key are the same call |
| `Commits.UnprotectedCommitRepeats` | app/middleware/idempotency_middleware.py:336-408 | Whichever part of the condition fails, some run commits any legacy deposit twice under any key, at most a lock's life apart |
| `Commits.UnreportedCommitRepeats` | app/middleware/idempotency_middleware.py:347-358 | A committed request whose handler then fails is released, and its retry commits at the same instant |
| `Commits.UnrecordedCommitRepeats` | app/middleware/idempotency_middleware.py:368-382 | If recording the success fails, its client gets a 503, and a run in which every stage is instantaneous commits the same legacy deposit again under the same key, a lock's life later |
| `Middleware.IdempotencyMiddleware.Dispatch` | app/middleware/idempotency_middleware.py:135-227 | The structured code takes exactly the steps of the protocol used in the concurrent runs; unguarded requests go straight to the handler and touch no record; a key that cannot be computed raises before anything is touched |
| `Middleware.IdempotencyMiddleware.ResolveExistingRecord` | app/middleware/idempotency_middleware.py:242-311 | Ends the request with the cached reply, 409 or 503, or goes on to take the lock, exactly as the protocol steps do |
| `Middleware.IdempotencyMiddleware.AcquireProcessingLock` | app/middleware/idempotency_middleware.py:313-334 | Ends with 409 or 503, or goes on to the handler holding a fresh PROCESSING record |
| `Middleware.IdempotencyMiddleware.ExecuteAndCache` | app/middleware/idempotency_middleware.py:336-408 | Success is stored and returned, an error response or a crash removes the record, and a storage error turns either into 503 |
| `Middleware.RetryIsAnsweredFromTheRecord` | app/middleware/idempotency_middleware.py:434-444 | A success on a free key is replayed to a retry with its status and sanitized body until the record expires, whatever the retry's own handler would say; after an error, a crash or expiry the retry runs its handler |
| `Answers.AnsweredByItsLike` | app/middleware/idempotency_middleware.py:161-334 | In every run, with records lost, calls failing and time passing anywhere: a request is answered from a record, or refused because of one, only if another request of the same route, method and user, and on routes without a form of their own the same body up to spelling, left it |
| `Answers.NewRequestReachesItsHandler` | app/middleware/idempotency_middleware.py:161-334 | Whatever records requests of other routes, methods, users or bodies have left, a request of which no like has arrived reads, locks and reaches its handler |
| `Answers.RouteNamesPathAndQuery` | app/middleware/idempotency_middleware.py:75-80 | The route that enters the key names both the path and the query |
| `Middleware.DriveStoring` | app/core/idempotency.py:242-272 | `set_completed` is a read and a write that can each fail, and keeps the hash and attempt count it read |
| `Idempotency.IdempotencyService.Check` | app/core/idempotency.py:208-220 | The live record of the key or nothing; an error on any storage fault |
| `Idempotency.IdempotencyService.SetProcessing` | app/core/idempotency.py:222-240 | Writes a PROCESSING record with the processing lifetime only if the key is free; a taken key is a duplicate |
| `Idempotency.IdempotencyService.SetCompleted` | app/core/idempotency.py:242-272 | Overwrites the record with a COMPLETED one of the completed lifetime, after reading the old one |
| `Idempotency.IdempotencyService.SetFailed` | app/core/idempotency.py:291-295 | Removes the record |
| `Idempotency.Redis.SetIfFree` | app/core/idempotency.py:229-240 | SET NX with expiry, also when the store fails after doing it |
| `Idempotency.SanitizedHides` | app/core/logger.py:33-42 | A stored dict keeps its keys, shows no value under a sensitive key at any dict depth, and sanitizing it again changes nothing |
| `Idempotency.SensitiveExactly` | app/core/logger.py:12-43 | The fields hidden are the nine sensitive ones, in any capitalization |
| `ReplayLaws.ReplaysCanBeDropped` | app/services/ledger.py:112-163 | Any run of requests leaves the same accounts, log, ledger and sessions as the run without the movements that posted nothing |
| `ReplayLaws.EffectiveKeysAreDistinct` | app/services/ledger.py:112-120 | What remains holds at most one movement per key, and each key has its journal |
| `ReplayLaws.KeyMovesMoneyOnce` | app/services/ledger.py:112-120 | Once a key has moved money, no later request under it moves any, whatever its kind, body or amount |
| `ReplayLaws.RetryIsHarmless` | app/services/demo_service.py:384-392 | A request under a used key changes no balance, row, journal or session; a withdrawal retry always fails and rolls back |
| `ReplayLaws.TransferRetryOutcome` | app/services/transfer.py:98-154 | A transfer under a used key succeeds, and changes nothing, exactly when its amount parses and is within the limit, its parties are found and ready, and the origin could still afford it; otherwise it fails with the first of those refusals, because all of them come before the key check |
| `ReplayLaws.RepeatedTransferOutcome` | app/services/transfer.py:98-154 | When a transfer that posted is repeated later in a run, amount and limit still hold: the answer is the refusal of its parties as they are now, insufficient funds as they are now, or a success without effect |
| `ReplayLaws.CallSame` | app/services/ledger.py:59-71 | No request's outcome depends on which ledger accounts already exist |
| `ReplayLaws.PostingUsesKey` | app/services/ledger.py:140-163 | A movement that posts found its key unused and files exactly one journal under it |
| `LedgerLaws.KeyedPostReplays` | app/services/ledger.py:112-120 | Posting any lines under a key that has a journal is refused as a replay |
| `Ledger.LedgerService.Post` | app/services/ledger.py:99-221 | Refuses a used key, fewer than two lines, unequal or non-positive totals and invalid lines without writing anything; otherwise stores the journal and its postings and moves cache and log together |
| `Ledger.LedgerService.Mirror` | app/services/ledger.py:165-214 | The cached balance of every customer line moves by its signed amount and one log row per line is added with the kind, counterparty and key of the journal; the cash account and unknown accounts are skipped |
| `Ledger.LedgerService.Totals` | app/services/ledger.py:127-132 | Debit and credit totals are the sums over the lines of each side |
| `Ledger.LedgerService.FindCounterparty` | app/services/ledger.py:193-203 | The first line naming another customer account |
| `Ledger.LedgerService.EnsureCustomerLedgerAccount` | app/services/ledger.py:46-71 | Adds the cash account and the customer's ledger account if missing, and nothing else |
| `Ledger.LedgerService.GrantWelcome` | app/services/ledger.py:223-238 | Debits the cash account and credits the customer |
| `Ledger.LedgerService.Transfer` | app/services/ledger.py:240-259 | Checks funds against the floor before anything else, then posts origin debit and destination credit |
| `Ledger.LedgerService.Withdraw` | app/services/ledger.py:261-279 | Checks funds against the floor, then posts customer debit and cash credit |
| `Ledger.KeyIndex` | app/services/ledger.py:112-120 | Finds a journal with the key exactly when there is one |
| `LedgerLaws.PostKeepsSound` | app/services/ledger.py:99-214 | Any accepted, mirrored, keyed journal keeps all table invariants, not only the three shapes the bank posts |
| `LedgerLaws.PostKeepsAgreement` | app/services/ledger.py:165-214 | Posting keeps cache equal to log and to ledger plus legacy rows |
| `LedgerLaws.PostKeepsDoubleEntry` | app/services/ledger.py:122-138 | Every stored journal has at least two positive postings with equal positive totals, and the new one has exactly the given lines |
| `LedgerLaws.PostKeepsUniqueKeys` | app/services/ledger.py:112-120 | No two journals share a key |
| `LedgerLaws.MirrorMovesCache` | app/services/ledger.py:165-183 | After any part of the mirror loop each customer balance has moved by the net of the lines seen, and no other column has |
| `LedgerLaws.MirrorMovesLog` | app/services/ledger.py:184-214 | The log of each account grew by the same net, and its legacy part not at all |
| `LedgerLaws.TransferShape` | app/services/ledger.py:240-259 | A posted transfer is exactly two balance changes, two log rows naming each other, and one keyed journal |
| `LedgerLaws.GrantShape` | app/services/ledger.py:223-238 | A posted grant is exactly one credit, one grant row and one keyed journal |
| `LedgerLaws.WithdrawShape` | app/services/ledger.py:261-279 | A posted withdrawal is exactly one debit, one row and one keyed journal |
| `LedgerLaws.LedgerSumsToZero` | app/services/ledger.py:73-97 | Customer ledger balances add up to the negated balance of the cash account |
| `LedgerLaws.TotalIsLog` | app/repositories/account_repository.py:382-396 | All cached balances together equal the sum of the transaction log |
| `MoneyLaws.RunIsSafe` | app/services/ledger.py:99-221 | After any run mixing every route: cache equals log, cache equals ledger plus legacy rows, journals are balanced, keys are unique and references exist |
| `MoneyLaws.BalancesAgree` | app/services/ledger.py:73-97 | For each customer account of any run, the cached balance is the sum of its transactions, and is credits minus debits of its postings plus its legacy amounts |
| `MoneyLaws.RunConservesMoney` | app/services/ledger.py:223-279 | Over any run the cached total is grants plus deposits minus withdrawals, and the ledger total is grants minus posted withdrawals |
| `MoneyLaws.TransferConservesUnlessCash` | app/services/ledger.py:178-180 | A posted transfer keeps the total of cached balances exactly when its target is not the cash account |
| `MoneyLaws.LegacyTransferConserves` | app/services/account_service.py:94-136 | A legacy transfer keeps the total of cached balances, also to itself and to an account it creates |
| `MoneyLaws.RunPairsTransfers` | app/services/ledger.py:185-213 | In every reachable log each out row is followed by its in row, naming each other with opposite amounts, and the two kinds match one to one for every pair of accounts and amount |
| `MoneyLaws.StepRows` | app/repositories/account_repository.py:192-223 | Every request appends nothing, one single row or one matched pair, dated with its own start time |
| `MoneyLaws.RunNeverNegative` | app/services/ledger.py:249-251 | Without legacy routes no balance is ever negative and every floor is zero |
| `MoneyLaws.RunOverdraftBound` | app/services/account_service.py:162-175 | In mixed runs no balance goes below -1000.99 |
| `MoneyLaws.WholeRunOverdraftBound` | app/services/account_service.py:162-171 | When only whole units move, no balance goes below -1000 |
| `AccountRepository.Repository.RecordTransaction` | app/repositories/account_repository.py:192-223 | Moves the cached balance and appends one row without key or posting; reports the cached balance, or the recomputed sum when that is zero |
| `AccountRepository.Repository.SumBalance` | app/repositories/account_repository.py:388-396 | The loop adds exactly the amounts of the account's rows |
| `AccountRepository.Repository.Create` | app/repositories/account_repository.py:150-190 | A new account with its opening row, or an integrity error when the id exists |
| `AccountRepository.Repository.EnsureAccount` | app/repositories/account_repository.py:125-144 | Creates the account only if missing |
| `AccountRepository.Repository.LockAccountsForUpdate` | app/repositories/account_repository.py:146-148 | Locks the rows in ascending id order, each once |
| `AccountRepository.RecordKeepsSound` | app/repositories/account_repository.py:192-223 | The unposted write path keeps all table invariants |
| `AccountRepository.ReportedBalanceIsCached` | app/repositories/account_repository.py:382-386 | Where cache and log agree, the zero fallback reports the same number |
| `AccountService.Service.Deposit` | app/services/account_service.py:38-67 | Creates the account with its deposit or adds to it; rejects amounts that are not positive |
| `AccountService.Service.Withdraw` | app/services/account_service.py:69-92 | Debits an existing account within the truncated limit |
| `AccountService.Service.Transfer` | app/services/account_service.py:94-154 | Debits and credits within the truncated limit, locking the origin first and then both rows in order |
| `AccountService.AcceptedDebitFloor` | app/services/account_service.py:162-175 | An accepted debit leaves at least -1000.99, and at least -1000 when the balance was whole |
| `Overdraft.OverdraftBoundIsReached` | app/services/account_service.py:162-175 | The bound is met by a run from empty tables under ordinary settings (withdrawals of 0.99 allowed, or a welcome amount that ends in one cent): skip onboarding, withdraw the odd cents but one, withdraw whole units down to -0.99, withdraw 1000 more |
| `AccountService.TruncationExactly` | app/services/account_service.py:162-175 | Exactly when the truncating check accepts a debit: the exact limit is kept, or the balance was already negative and the result stays above -1001 |
| `LegacyLaws.DepositExactly` | app/services/account_service.py:28-68 | A legacy deposit succeeds if and only if it is positive, and credits exactly its amount, to a new account if need be, with one row |
| `LegacyLaws.WithdrawalExactly` | app/services/account_service.py:70-92 | A legacy withdrawal debits exactly its amount, with one row, or fails with the first of three refusals; the limit is written in cents |
| `LegacyLaws.TransferExactly` | app/services/account_service.py:94-152 | A legacy transfer takes exactly its amount from the origin and gives exactly that to the target, with its two rows, or fails with the first of three refusals |
| `LegacyLaws.TransferReplyIsTheBalances` | app/services/account_service.py:138-152 | In sound tables the pair answered is the whole units of the two new balances |
| `Bank.Dispatch` | app/core/database.py:28-35 | Every route's service call has exactly the effect of its specification on the tables, or its error |
| `Bank.Serve` | app/core/database.py:28-35 | One request is one transaction: commit everything, or leave the tables as they were |
| `Tables.Session.Rollback` | app/core/database.py:33-35 | Restores every table |
| `Transfers.TransferService.Transfer` | app/services/transfer.py:83-185 | Key, amount, limit, parties, then the ledger; a replay answers with current balances; both rows are locked in sorted order first |
| `Transfers.TransferService.Send` | app/services/transfer.py:130-172 | Locks the two rows in sorted order, posts, and treats a replayed key as done |
| `Transfers.TransferService.Withdraw` | app/services/demo_service.py:366-399 | Limit, onboarded origin, then the ledger; a replayed key is an error |
| `Movements.OriginIs` | app/services/transfer.py:47-67 | The payer is exactly the account named, if it is the caller's own and open, or without a name the caller's first account |
| `Movements.ListingOrder` | app/services/onboarding_accounts.py:26-40 | Accounts are listed by number, those without one last, then by creation time, then by id |
| `Movements.FirstHasLeastNumber` | app/services/onboarding_accounts.py:26-40 | In tables that number owned accounts once, the first account is the one with the least number |
| `Movements.DestinationIs` | app/services/recipient.py:34-102 | The payee is exactly the active account with the id, the one account with the display, or the one active account of the one holder of the document |
| `Movements.RecipientRefusals` | app/services/recipient.py:34-102 | Which refusal names meet that are none or both, unreadable, or nobody's |
| `Movements.TransferSucceedsExactly` | app/services/transfer.py:84-152 | A transfer succeeds if and only if it has a key, a readable amount within the limit, a payer and a payee as above that differ and are open, and the funds |
| `Movements.TransferBetween` | app/services/transfer.py:95-152 | Under a fresh key it debits the payer and credits the payee by exactly the amount, with two rows, one journal and two postings, and changes nothing else; under a used key it moves nothing; limit and funds refuse it |
| `Movements.SourceRefusals` | app/services/transfer.py:59-67 | A named source that is missing, somebody else's, inactive or unfinished is refused with the matching error |
| `Movements.OtherTransferRefusals` | app/services/transfer.py:95-128 | Which refusal comes first: key, amount, limit, payer, payee, same account, unfinished payee |
| `Movements.WithdrawalSucceedsExactly` | app/services/demo_service.py:368-392 | A withdrawal succeeds if and only if its amount is readable and within the limit, the caller's first account is open and can afford it, and no journal carries its key |
| `Movements.WithdrawalFrom` | app/services/demo_service.py:368-392 | It then debits that account by exactly the amount under the client's key or the subject's and request's; otherwise the first refusal is named, a replay included |
| `Movements.KeylessKeysExactly` | app/services/demo_service.py:389 | Without a client key, withdrawals of one subject share a key if and only if they are the same request |
| `Movements.SubjectsKeysDiffer` | app/services/demo_service.py:389 | So do those of two subjects without a colon in their names |
| `Movements.ColonsCollide` | app/services/demo_service.py:389 | With a colon two subjects' withdrawals can share a key |
| `Transfers.Origin` | app/services/transfer.py:48-67 | A source is an active checking account of the caller whose onboarding is finished |
| `Transfers.DestinationOf` | app/services/transfer.py:69-128 | A destination is an existing active account |
| `Transfers.Parties` | app/services/transfer.py:100-128 | Two different accounts, the origin the caller's and ready, an owned destination ready |
| `Recipient.Resolve` | app/services/recipient.py:34-102 | Exactly one of the two names; the account found exists and is active |
| `Recipient.DisplayFindsItsAccount` | app/services/recipient.py:43-63 | With unique numbers, an active account's display finds that account, hyphenated or not |
| `Recipient.DisplayFindsNoOther` | app/services/recipient.py:43-63 | Whatever a display resolves to carries the number and digit it spells |
| `Locking.DeadlockFreeExactly` | app/services/account_service.py:94-136 | Whatever set of legacy transfers runs beside any sorted acquisitions: no reachable state is stuck, and none has a circle of waits, if and only if no such transfer goes from a greater account id to a smaller one |
| `Locking.SortedLockingNeverDeadlocks` | app/services/transfer.py:130-137 | For any number of transactions locking ascending id lists, in every reachable state with unfinished transactions one of them can step |
| `Locking.NoWaitCycle` | app/services/transfer.py:130-137 | No chain of waits returns to its start, upward legacy transfers included |
| `Locking.SortedPlansAreAdmissible` | app/repositories/account_repository.py:146-148 | Whatever ids are given, the acquired plan is one of those covered |
| `Locking.DownwardTransferDeadlocks` | app/services/account_service.py:94-136 | One legacy transfer from a greater id and one sorted acquisition of the same rows reach a state in which each waits for the other |
| `Locking.LegacyOrderDeadlocks` | app/services/account_service.py:94-136 | Two opposite legacy transfers between the same accounts reach a state in which both are unfinished and neither can step |
| `TextOrder.Sorted` | app/repositories/account_repository.py:146-148 | Ascending, each id once, the same ids |
| `TextOrder.AscendingIsUnique` | app/repositories/account_repository.py:146-148 | The order of the ids given does not matter |
| `TextOrder.LessExactly` | app/services/transfer.py:130-131 | Texts are ordered by the first place where they differ, and before their continuations |
| `OnboardingSessions.Latest` | app/repositories/user_repository.py:83-97 | The matching session with the greatest creation time, or none when there is none |
| `OnboardingSessions.OnboardingRepository.CreateSession` | app/repositories/user_repository.py:99-112 | Appends one draft session |
| `OnboardingSessions.OnboardingRepository.EnsureSession` | app/repositories/user_repository.py:114-122 | Appends a draft only if the latest session is missing or terminal |
| `OnboardingSessions.OnboardingRepository.CloseSession` | app/services/onboarding_complete.py:174-199 | Gives the latest session its final status |
| `OnboardingAccounts.Primary` | app/services/onboarding_accounts.py:26-39 | The first of the caller's accounts in listing order, none exactly when there are none |
| `OnboardingAccounts.GetOwned` | app/services/onboarding_accounts.py:42-52 | Succeeds exactly on the caller's own checking accounts |
| `OnboardingAccounts.CreateDraft` | app/services/onboarding_accounts.py:55-72 | Inserts one numbered in-progress account with zero balance and zero floor |
| `OnboardingAccounts.Resolve` | app/services/onboarding_accounts.py:75-90 | The named account, else the first, else a new draft |
| `OnboardingAccounts.ResolveEffect` | app/services/onboarding_accounts.py:75-90 | The account worked on always belongs to the caller |
| `OnboardingAccounts.NextNumber` | app/services/account_number.py:37-57 | Greater than every stored and every pending number, and at least the start |
| `OnboardingAccounts.AccountNumberGenerator.Next` | app/services/account_number.py:37-57 | Hands out the next number and remembers it as pending |
| `Onboarding.OnboardingService.Start` | app/services/onboarding_service.py:46-67 | Resolves the account, sets it in progress and ensures a draft session |
| `Onboarding.OnboardingService.AttachDocument` | app/services/onboarding_service.py:77-115 | Rejects other document types; ensures a session; leaves a finished account finished |
| `Onboarding.OnboardingCompletionService.Complete` | app/services/onboarding_complete.py:46-81 | Validated form, account and session, then holder, number, grant, session and status together |
| `OnboardingLaws.CompleteSucceedsExactly` | app/services/onboarding_complete.py:285-341 | Completion succeeds if and only if an account resolves, name, age, document, contact and terms are in order, and no grant is due without an amount |
| `OnboardingLaws.CompleteExactly` | app/services/onboarding_complete.py:160-341 | Otherwise the form's first fault is the refusal; on success the account is completed, a due grant is made with its row, journal and postings, the caller's holder carries the digits of the document, and no other account or holder changes |
| `OnboardingLaws.SkipExactly` | app/services/onboarding_complete.py:85-130 | Skipping does the same with status skipped, and leaves an existing holder as it is |
| `OnboardingLaws.NumberedExactly` | app/services/onboarding_complete.py:176-182 | An account without number or digit gets the next free number and the drawn digit when it is finished |
| `OnboardingLaws.StartExactly` | app/services/onboarding_service.py:46-67 | Starting works on the named own account or a new first one, puts it in progress with a draft session, and moves nothing else |
| `OnboardingLaws.AttachExactly` | app/services/onboarding_service.py:77-115 | Attaching refuses kinds not allowed, and leaves a finished account finished |
| `OnboardingLaws.OpenAdditionalExactly` | app/services/demo_service.py:106-122 | Opening another account succeeds if and only if one is finished, a holder is on file, the cap has room and the id is fresh; the first refusal is named, and the draft is exactly the next numbered one |
| `OnboardingLaws.ResolveRefusals` | app/services/onboarding_accounts.py:42-92 | Which refusal an account that cannot be resolved meets |
| `OnboardingLaws.UnresolvedFails` | app/services/onboarding_accounts.py:75-92 | And the calls that need one end in it |
| `Onboarding.OnboardingCompletionService.SkipAndOpen` | app/services/onboarding_complete.py:83-137 | The same without a form, ending in skipped |
| `Onboarding.OnboardingCompletionService.OpenAdditional` | app/services/demo_service.py:95-122 | Refused at the cap; otherwise one more draft account with its draft session |
| `Onboarding.OnboardingCompletionService.FinishAccount` | app/services/onboarding_complete.py:160-214 | Holder, number, welcome grant, session and status of one account |
| `Onboarding.OnboardingCompletionService.EnsureWelcome` | app/services/onboarding_complete.py:232-268 | Grants once: an earlier grant row or a replayed key leaves everything as it is |
| `SessionLaws.RunKeepsSessions` | app/repositories/user_repository.py:83-122 | Over any run with increasing times each account has at most one draft, it is the newest session, in-progress accounts have one, and sessions belong to the owner |
| `SessionLaws.InProgressHasExactlyOneDraft` | app/services/onboarding_complete.py:139-199 | An in-progress account has exactly one draft and every other session of it is terminal and older |
| `SessionLaws.TerminalSessionsAreFinal` | app/services/onboarding_complete.py:160-199 | Over any run with increasing times a terminal session is never changed again |
| `SessionLaws.FrozenWhileOnboarding` | app/services/transfer.py:48-67 | No transfer or withdrawal changes any column of an owned account whose onboarding is unfinished, as origin or as destination |
| `SessionLaws.StartIsLocal` | app/services/onboarding_service.py:46-60 | Starting onboarding changes no other account row, no balance, no transaction and no journal |
| `SessionLaws.OthersKeepSessions` | app/services/transfer.py:83-185 | Money movements and legacy routes change no session, owner or onboarding status |
| `GrantLaws.RunGrantsAtMostOnce` | app/services/onboarding_complete.py:232-268 | Whatever is run, an account has at most one grant row, of the welcome amount |
| `GrantLaws.GrantsExactly` | app/services/onboarding_complete.py:160-268 | Whatever keys clients choose, every account has exactly one grant if some request completed or skipped its onboarding and no other journal has taken its welcome key, and none otherwise; ready accounts are such finished ones |
| `GrantLaws.RunGrantsTheFinished` | app/services/onboarding_complete.py:160-268 | So if no client key starts with the welcome prefix, every completed or skipped account has exactly one grant |
| `TakenKeys.KeyTakenBeforeGrant` | app/services/onboarding_complete.py:232-268 | A run with a client key equal to a draft account's welcome key finishes that account without a grant |
| `GrantLaws.GrantedWasFinished` | app/services/onboarding_complete.py:160-268 | A granted account was the target of a skip or completion that succeeded |
| `GrantLaws.NeverFinishedIsEmpty` | app/services/transfer.py:125-128 | In runs without legacy routes an account never completed or skipped has balance 0 and no transactions |
| `GrantLaws.GrantsPerSubject` | app/services/demo_service.py:106-122 | A subject's accounts together receive at most max(limit, 1) welcome amounts |
| `GrantLaws.RunKeepsCap` | app/services/demo_service.py:106-122 | A subject never owns more than max(limit, 1) checking accounts |
| `GrantLaws.RunNumbersAccounts` | app/services/account_number.py:37-57 | In every run issued numbers are unique and at least the start, and owned accounts have one |
| `GrantLaws.RunIssuesIncreasingNumbers` | app/services/account_number.py:37-57 | Whatever is run after any point of a run keeps every number issued before it, and every number issued later is greater than all of them |
| `GrantLaws.DisplaysResolve` | app/services/recipient.py:43-63 | In every run the display of an owned active account leads back to that account |
| `Statements.ExportStatement` | app/services/demo_service.py:252-302 | Opening, rows, a running balance per row and the closing balance of the first 500 matching rows in id order |
| `Statements.RunningBalanceIsExact` | app/services/demo_service.py:252-302 | With dates in id order and only date filters, each balance printed is the sum of all the account's transactions up to that row |
| `Statements.ClosingBalance` | app/services/demo_service.py:252-302 | Without an end date, in any date order and at any length: the closing balance is the cached balance, minus the rows cut off, plus the rows dated before the first listed one when there is no start date |
| `Statements.ClosesAtBalanceIff` | app/services/demo_service.py:252-302 | It equals the cached balance exactly when those two corrections cancel; always with a start date or dates in id order and at most 500 rows, rows or not |
| `Statements.LineIsExactIff` | app/services/demo_service.py:268-302 | In any date order a line of a date-filtered statement is right exactly when the later rows dated before the opening (without a start date also the earlier ones, listed twice) sum to what the earlier rows past the end date do |
| `Statements.OutOfOrderRowsMislead` | app/repositories/account_repository.py:249-262 | Two rows dated against their id order make the first line wrong by the second amount |
| `Statements.RunStatementsAreExact` | app/services/demo_service.py:252-302 | After any run served in time order every date-filtered statement is exact |
| `Statements.TypeFiltersAgree` | app/services/statement_present.py:212-223 | The filter applied after the query selects the same kinds as the one inside it |
| `StatementQueries.ListedExactly` | app/repositories/account_repository.py:264-315 | A row is listed if and only if it is the account's, in the period, of a kind and a size asked for, and money in or out as asked for |
| `StatementQueries.DirectionsPartition` | app/repositories/account_repository.py:264-315 | Money in plus money out is the whole, the one never negative, the other never positive |
| `StatementQueries.ExportIsFull` | app/services/demo_service.py:252-302 | An export holds the first five hundred such rows, oldest first |
| `Statements.Chronological` | app/repositories/account_repository.py:284-302 | Every id listed is below the bound and matches |
| `Statements.ChronologicalIsComplete` | app/repositories/account_repository.py:284-302 | Every matching row is listed |
| `Paging.WalkRefinesFilterAndSort` | app/repositories/account_repository.py:278-313 | Following the cursor until it is null terminates and yields every row that matched at the first page exactly once, newest first, while rows are appended between pages |
| `Paging.PagingDuringAnyRun` | app/api/demo.py:157-183 | The same while the bank serves any requests between the pages |
| `Paging.PageSplits` | app/services/demo_service.py:165-196 | A page is the front of the rows below the cursor and the rest is what lies below its last row |
| `StatementQueries.PageIsFull` | app/services/demo_service.py:165-197 | A page holds as many rows as its limit, a hundred, or what is left below the cursor allow |
| `Paging.ForeignCursorEndsWalk` | app/repositories/account_repository.py:278-291 | A cursor that is not a row of the account ends the walk |
| `Canonical.CanonicalizeValue` | app/core/idempotency.py:100-107 | The recursive canonicalization equals its specification, errors included |
| `Canonical.CanonicalizeDict` | app/core/idempotency.py:110-116 | The loop over the sorted keys equals its specification, errors included |
| `Canonical.SameFormIffAlike` | app/core/idempotency.py:100-116 | Two values that canonicalize share their form if and only if they are equal up to key order, excluded keys and the spelling of amounts, at every depth |
| `Canonical.CanonIsIdempotent` | app/core/idempotency.py:100-116 | Canonicalizing a canonical value changes nothing |
| `Canonical.CanonDictLookup` | app/core/idempotency.py:110-116 | A canonical dict has ascending keys, exactly the keys that are not excluded, and canonical values |
| `Canonical.NormalizedAmount` | app/core/idempotency.py:80-94 | A normalized amount denotes the same rounded number and is stable; what is no amount is unchanged |
| `RequestKeys.AlikeBodiesShareKey` | app/core/idempotency.py:119-206 | Alike bodies have the same key on every route |
| `RequestKeys.PlainRoutesShareKeyIffAlike` | app/core/idempotency.py:163-206 | On every route that has no special form two bodies share a key if and only if they are alike |
| `KeyLaws.KeyNamesRequest` | app/core/idempotency.py:163-206 | One key means one route, one method and one user, on every route |
| `KeyLaws.PlainKeysExactly` | app/core/idempotency.py:100-206 | On routes without a form of their own two requests share a key if and only if they agree on route, method, user and body up to spelling |
| `KeyLaws.KeyExistsIff` | app/core/idempotency.py:80-206 | A request has a key, on any route, if and only if every number under a counted amount field, at any depth, fits the precision |
| `KeyLaws.AttemptFieldsAreIgnored` | app/core/idempotency.py:25-118 | Adding a timestamp or one of the request-id fields never changes the key |
| `KeyLaws.OtherFieldsCount` | app/core/idempotency.py:25-118 | Adding any other field to a plain request always does |
| `KeyLaws.WithdrawalKeysExactly` | app/core/idempotency.py:119-162 | Withdrawal requests share a key if and only if they agree on account, amount, currency and destination |
| `KeyLaws.DepositKeysExactly` | app/core/idempotency.py:119-162 | Deposit requests: on account, amount, currency and source |
| `KeyLaws.BalanceKeysExactly` | app/core/idempotency.py:119-162 | Balance adjustments: on account, amount and kind of operation |
| `KeyLaws.TransferKeysExactly` | app/core/idempotency.py:119-162 | Transfer events: on both accounts, amount and currency |
| `RequestKeys.FormReadsBack` | app/core/idempotency.py:119-160 | The normal form of a valid event reads back as that event exactly when no other account id in the body overrides it |
| `RequestKeys.EventKeyDeterminesEvent` | app/core/idempotency.py:119-160 | Events filed under one key have the same type, accounts and cents |
| `RequestKeys.DeclaredFieldsOverrideNothing` | app/schemas/__init__.py:7-24 | A body with only the declared fields overrides nothing |
| `RequestKeys.OverriddenEventsCollide` | app/core/idempotency.py:123-132 | With an extra `account_id`, withdrawals from two different accounts fall under one key |
| `Money.CanonicalAmountIsMoneyText` | app/domain/money.py:11-25 | `Money(x).as_str()` succeeds exactly on numerals within precision, and there it is the canonical amount |
| `Money.AmountRoundTrip` | app/core/idempotency.py:80-94 | Printing a two-decimal amount and reading it back gives the same decimal, sign of zero included |
| `Money.SameCanonicalText` | app/core/idempotency.py:80-94 | Two amounts share a canonical text exactly when they agree in cents and sign |
| `Money.SpellingIsIgnored` | app/core/idempotency.py:80-94 | Equal numbers share a canonical text, except zero with different signs |
| `Money.NegativeZeroIsKept` | app/core/idempotency.py:88-92 | "0.00" and "-0.00" have different canonical texts |
| `Money.ValueDeterminesCents` | app/domain/money.py:11-20 | Equal numbers round to the same cents however they are spelled |
| `Money.FixedPointText` | app/domain/money.py:24-25 | Both ways of printing a two-decimal amount agree |
| `Money.PositiveMoneyExactly` | app/domain/money.py:36-40 | Accepted exactly when the text is an amount that rounds to at least one cent, and then with that value |
| `Money.HalfEvenExactly` | app/domain/money.py:6-30 | Rounding gives the nearest number of cents, of two the even one |
| `Numerals.ReadsExactly` | app/domain/money.py:6-30 | A text is read as an amount if and only if, without outer spaces and underscores, it spells a numeral, and as the number denoted |
| `RateLimit.RateLimiter.Allow` | app/core/rate_limit.py:31-45 | Counts the request, opens a window on its first hit, and reports verdict, remaining and wait |
| `RateLimit.CounterLifetimeBound` | app/core/rate_limit.py:31-42 | One counter lifetime admits at most the limit |
| `RateLimit.WindowAdmits` | app/core/rate_limit.py:31-42 | One counter lifetime admits exactly the lesser of its requests and the limit |
| `RateLimit.IntervalBound` | app/core/rate_limit.py:31-42 | Any interval of one window length admits at most 2 * limit - 1 requests, and none when the limit is 0 |
| `RateLimit.IntervalBoundIsReached` | app/core/rate_limit.py:31-42 | For every limit of at least 1 and window of at least 2 ticks some trace meets the bound |
| `RateLimit.RemainingExactly` | app/core/rate_limit.py:31-45 | The remaining count told to a client is exactly how many more requests the same window admits |
| `RateLimit.RetryAfterExactly` | app/core/rate_limit.py:31-45 | A client that has used up its window is admitted again exactly from the told number of seconds on |
| `Validation.CpfOneDigitChange` | app/domain/validation.py:40-52 | Exactly which one-digit changes of an accepted CPF are accepted: the 1st digit by one or the 6th by two or nine, in the direction the remainders of its two sums allow |
| `Validation.CpfOneDigitErrors` | app/domain/validation.py:40-52 | Two accepted CPFs that differ in one digit differ in the 1st by one or in the 6th by two or nine; their 10th digit is 0, and for the 6th their 11th too |
| `Validation.CpfOneDigitErrorOccurs` | app/domain/validation.py:40-52 | Such a pair exists |
| `Validation.CnpjOneDigitChange` | app/domain/validation.py:55-71 | Exactly which one-digit changes of an accepted CNPJ are accepted: the 1st or 9th digit by two or nine, the 5th by five or six, in the direction the remainders of its two sums allow |
| `Validation.CnpjOneDigitErrors` | app/domain/validation.py:55-71 | Two accepted CNPJs that differ in one digit differ in the 1st, 5th or 9th, and both check digits are 0 |
| `Validation.CnpjOneDigitErrorOccurs` | app/domain/validation.py:55-71 | Such a pair exists |
| `Validation.CpfExactly` | app/domain/validation.py:40-54 | A CPF is accepted if and only if it has eleven digits, not all alike, and its last two check the descending weighted sums of those before |
| `Validation.CnpjExactly` | app/domain/validation.py:55-71 | A CNPJ likewise, with fourteen digits |
| `Validation.DocumentExactly` | app/domain/validation.py:74-80 | A document is accepted if and only if it is a CPF or a CNPJ, and kept as its digits |
| `Validation.DisplayRoundTrip` | app/domain/validation.py:108-120 | Parsing a formatted display gives back the number and the digit |
| `Validation.DisplayWithoutHyphen` | app/domain/validation.py:108-120 | Also when the hyphen is dropped |
| `Validation.HyphenatedExactly` | app/domain/validation.py:108-118 | A display with a hyphen is read as the digits before the last one and after it, or refused |
| `Validation.UnhyphenatedExactly` | app/domain/validation.py:108-118 | Without one its last digit is the check digit, or it is refused |

## Left out

- Isolation anomalies: each service call is one serial transaction. `withdraw` takes no row lock and `transfer` reads before it locks; what concurrent transactions see of each other is not modelled. The deadlock laws are about lock acquisition only.
- The recovery in `post` after a unique-key conflict at flush: in a serial transaction the earlier key check has already found the key.
- OnboardingAccounts.NextNumber: does not model the PostgreSQL sequence; numbers come from stored and pending ones, and the increasing-number law is about that path.
- OnboardingAccounts.AccountNumberGenerator.Next: the same.
- Onboarding.OnboardingService.AttachDocument: does not store the document row, which nothing modelled reads.
- Onboarding.OnboardingCompletionService.Complete: e-mail, phone, postal code and address checks are one flag of the form and the birth date another; no modelled state depends on which of them failed.
- SHA-256, JSON text and timestamps inside records: the canonical value itself is the key, time is an integer clock.
- Numeric(18,2) overflow of the amount columns, and currency codes: amounts are unbounded cents of one currency.
- NaN and infinite decimals, and non-ASCII digits, spaces and letters: texts are read as ASCII numerals.
- Parsing of day and amount filters: `Statements.Filter` holds the parsed bounds.
- User profiles, consents, uploaded documents, memos and audit columns: they decide nothing modelled here.
- `mark_failed` and `increment_attempt`: nothing calls them. A FAILED record is still handled where the middleware reads one.
- Responses whose bytes are not UTF-8, and the text Python prints for a stored number: a stored scalar is its text.
- Routing, authentication, logging, settings, PDF and CSV rendering, S3, postal-code lookup, migrations and `/reset`: plumbing, presentation, foreign calls, or a bulk delete that would only add easy members.
- `mirror_transactions=False` in run laws: no caller in the application passes it; `Ledger.LedgerService.Post` models it.
- RateLimit.RateLimiter.Allow: takes increment, expiry and lifetime query as one atomic step without storage errors; a crash between the first two would leave a counter that never expires, and a storage error refuses the request.
- Locking.SortedLockingNeverDeadlocks: is about explicit row locks; locks the database takes on its own when rows are written are not modelled.
- SessionLaws.RunKeepsSessions: assumes strictly increasing request times, because sessions are ordered by creation time alone.
