# Wallet ledger: a Dafny model

The service keeps a balance per user and a table of applied transactions. Clients credit
(`"win"`) or debit (`"lose"`) a user's balance with
`POST /user/{userId}/transaction`, and they read it back with `GET /user/{userId}/balance`.
Each transaction carries a client-chosen transaction id. The database accepts each id once,
so a resubmitted request is not applied again. It is answered "transaction already
processed" unless an earlier check refuses it.

The model follows the program's layers:

- `decimal.dfy` (module `Decimal`) covers base-10 digit strings and plain decimal amounts.
  These are the parts of `strconv.ParseUint` and `big.Rat.SetString` that the service relies
  on. Money is Dafny's `real`, an exact rational, as `big.Rat` is.
- `helpers.dfy` (module `Helpers`) holds `ParseUserID` and the `Source-Type` whitelist.
- `model.dfy` (module `Model`) holds the request body and the transaction row.
- `repository.dfy` (module `Repository`) models the database as the class `Database`. It has
  a `users` map from id to balance and a `transactions` sequence of rows in insertion order.
  `Database.ProcessTransaction` changes these fields step by step, as the Go method does, and
  restores them on every error, as the deferred `tx.Rollback` does. Its postcondition equates
  the new state and the returned error with `Apply`, a pure function of the old state. The
  schema's constraints are the predicate `Consistent`: a non-negative balance, a unique
  `transaction_id`, a row that references an existing user, and values that fit their column
  types. A value that does not fit its column makes the `UPDATE` or the `INSERT` fail. This
  applies to a `transaction_id` over 255 characters, a `source_type` over 50, a `state` over
  10, a text value containing the character U+0000 (PostgreSQL's text types cannot hold it),
  and an amount or a balance of 10^18 or more in a `NUMERIC(20,2)` column. Only a
  unique-violation reply to the `INSERT` is a duplicate: any other failure of that statement
  is an insert error, even for a recorded id. A user id of 2^63 or more cannot be passed to a
  query at all: Go's `database/sql` converts a `uint64` argument only below 2^63, so the
  locking `SELECT` fails and the client gets 500.
- `ledger.dfy` (module `Ledger`) proves the guarantees about `Apply`:
  - all-or-nothing, where a commit whose acknowledgement was lost counts as done although
    it was reported as an error;
  - the order in which errors take precedence;
  - exact credit and debit;
  - exactly-once per transaction id;
  - every balance equals its opening balance plus the signed amounts of that user's rows;
  - retries are safe: a resubmitted request takes effect at most once, and exactly once
    if one attempt meets no database failure.
  A sequence of calls is modelled by `Run`, which applies them one after another.
- `handlers.dfy` (module `Handlers`) models the validation chain of `createTransaction`, the
  mapping from repository errors to HTTP statuses, and `getUserBalance`. The pure functions
  `HandleCreate` and `HandleBalance` specify the handler methods `CreateTransaction` and
  `GetUserBalance`.

Some inputs come from the environment. They become parameters:

- A failure of the database at one step of the unit of work is a `Fault`. The steps are
  begin, the locking `SELECT`, `UPDATE`, `INSERT` and commit. A commit can fail in two
  ways. With `FailCommit` the server rolled it back. With `CommitInDoubt` the server
  committed but the acknowledgement was lost. `tx.Commit` then reports an error, and the
  client gets 500, although the new balance and the row are durable.
- A failure of the balance query is `queryFails`.
- A missing `Source-Type` header is the empty string.
- The request body arrives already read and decoded, as a `RequestBody`.

Four behaviours of the code that a caller might not expect:

- An amount that does not parse, or is not positive, is rejected inside the repository. The
  error it raises is not one of the sentinels, so the client receives 500, not a 4xx
  (`BadAmountIsServerError`).
- The overdraft check runs before the insert. A replayed debit that the current balance no
  longer covers is therefore answered "insufficient balance", not "already processed". The
  store is unchanged either way (`ReplayedDebitReportsInsufficientBalance`,
  `ReplayThroughHandler`).
- The repository treats every state other than `"win"` as a debit. Only the handler restricts
  the state to `"win"` or `"lose"`.
- The handler checks only that the transaction id is non-empty. An id longer than the
  column's 255 characters, or one containing U+0000, passes validation, fails the insert and
  is answered 500. A recorded id cannot be such a value, so such a request is never "already
  processed" (`UnstorableTransactionIdIsServerError`).

## Model

| member | source | states |
|---|---|---|
| `Helpers.ParseUserID` | internal/helpers/common.go:21-28 | on success the id is the decimal value of a non-empty all-digit string, and at least 1; on failure the id is 0 and the error is "invalid user id" |
| `Helpers.ParseUserIDAccepts` | internal/helpers/common.go:23-25 | a user id is accepted if and only if it is a non-empty digit string whose value lies in [1, 2^64) |
| `Helpers.ParseUserIDFormat` | internal/helpers/common.go:23-27 | every id from 1 to 2^64-1, written in decimal, parses back to itself without error |
| `Helpers.ParseUserIDRejectsOutOfRange` | internal/helpers/common.go:23-25 | 0, and every value of 2^64 or more, is rejected with id 0 and "invalid user id" |
| `Helpers.ParseUserIDLeadingZero` | internal/helpers/common.go:23 | a leading "0" never changes the outcome ("007" names user 7) |
| `Helpers.IsValidSourceType` | internal/helpers/common.go:14-18 | a Source-Type is valid if and only if it is "game", "server" or "payment"; a missing map key reads as false |
| `Helpers.ParseUserIDCanonical` | internal/helpers/common.go:23-27 | an accepted user id that does not start with "0" is exactly the decimal spelling of the id it names; with `ParseUserIDFormat`, ids and such spellings correspond one to one |
| `Decimal.ParseFormatCents` | internal/repository/transaction_repository.go:32 | an amount written with two fraction digits ("125.50") parses to exactly its number of cents divided by 100 |
| `Repository.Database.ProcessTransaction` | internal/repository/transaction_repository.go:24-93 | the tables afterwards and the returned error are those of `Apply` on the tables before; an error leaves both tables as they were, except a commit in doubt; the schema constraints still hold. Through `Apply`, a row with an over-long or U+0000-bearing text value, or an amount too large for its column, fails the insert; a failure of the INSERT statement itself is an insert error, not a duplicate; and a user id of 2^63 or more fails the lock |
| `Repository.ApplyPreservesConsistent` | internal/helpers/db.go:56-70 | every call, successful or not, keeps balances non-negative and within their column, transaction ids unique, rows attached to existing users, recorded amounts positive, and row values within their column types |
| `Repository.SeedDb` | internal/helpers/db.go:75-76 | the seed store (users 1, 2, 3 with 100.00, 50.00, 75.00, no rows) satisfies the schema constraints |
| `Repository.Database.Seeded` | internal/helpers/db.go:75-76 | a fresh database after migration holds exactly the seed store and is consistent (on an existing database the migrations keep its rows) |
| `Repository.BalanceOf` | internal/service/user_service.go:18-27 | a balance query succeeds if and only if the user exists and the query does not fail; its value is the stored balance; the error is UserNotFound exactly when the query itself did not fail |
| `Repository.Database.GetBalance` | internal/service/user_service.go:18-22 | the lookup returns what `BalanceOf` specifies for the current tables and changes nothing |
| `Repository.FailedCallChangesNothing` | internal/repository/transaction_repository.go:29-91 | any call that returns an error, other than a commit in doubt, leaves the balances and the transaction rows exactly as they were |
| `Ledger.CommitInDoubtIsCleanCall` | internal/repository/transaction_repository.go:89-91 | a commit in doubt has exactly the effect of the fault-free call on the store, and reports its success as CommitFailed (its refusals unchanged) |
| `Repository.ChangedStoreIsCommit` | internal/repository/transaction_repository.go:32-92 | a call that changes the store had a positive amount for an existing user with an id below 2^63, a non-negative balance and a row that fit their columns, and an unused id, and it changed exactly that balance and appended exactly that row |
| `Ledger.InvalidAmountRejected` | internal/repository/transaction_repository.go:32-38 | an unparseable amount yields the format error and a non-positive one the sign error, before the user is looked up, with the store unchanged |
| `Ledger.UnknownUserRejected` | internal/repository/transaction_repository.go:40-50 | a call for a missing user never succeeds and adds no row; with a valid amount, a working database and an id below 2^63 the error is UserNotFound |
| `Ledger.UnrepresentableUserIdRejected` | internal/repository/transaction_repository.go:40-50 | a user id of 2^63 or more never succeeds and changes nothing, whether or not the user exists; with a valid amount and a successful begin the error is the lock failure, so the client gets 500, not 404 |
| `Ledger.SuccessfulCall` | internal/repository/transaction_repository.go:58-81 | on success: the amount was positive, the user existed and its id was below 2^63; the new balance is old + amount for "win" and old - amount for any other state, and it is non-negative and within its column; no other balance changes; exactly the row (user, id, source type, state, amount) is appended, and it fits its columns; the id was unused |
| `Ledger.CommittingCall` | internal/repository/transaction_repository.go:58-92 | conversely, a positive amount for an existing user whose id is below 2^63, that leaves a non-negative balance the column can hold, with an unused id and a row that fits its columns (text values within their widths and free of U+0000, amount within `NUMERIC(20,2)`), commits, with exactly that balance and that row |
| `Ledger.OverdraftRejected` | internal/repository/transaction_repository.go:65-67 | if the computed balance is negative, the result is InsufficientBalance and the store is unchanged, whatever the later steps would do |
| `Ledger.BalanceOverflowRejected` | internal/repository/transaction_repository.go:69-75 | a new balance that its `NUMERIC(20,2)` column cannot hold once written through `float64` (10^18 - 64 or more) makes the update fail, with the store unchanged, whatever the later steps would do |
| `Ledger.DuplicateRejected` | internal/repository/transaction_repository.go:69-85 | a call that reaches the insert with a recorded id and a storable row, and whose INSERT is answered by the database (no fault, or a fault only at the commit), returns DuplicateTransaction, and the balance update already issued is rolled back |
| `Ledger.UnstorableRowRejected` | internal/repository/transaction_repository.go:77-87 | a row whose id, source type or state is too long for its column or contains U+0000, or whose amount is too large, never commits; once the call reaches the insert the error is the insert failure, not DuplicateTransaction, and the store is unchanged |
| `Ledger.InsertFailureIsNotDuplicate` | internal/repository/transaction_repository.go:82-87 | an INSERT that fails with anything but a unique violation is never reported as DuplicateTransaction, even for a recorded id; once the call reaches the insert the error is the insert failure, and the store is unchanged |
| `Ledger.RecordedIdIsNoOp` | internal/repository/transaction_repository.go:77-85 | whatever else the request says, a recorded transaction id never changes the store and never succeeds |
| `Ledger.ReplayedDebitReportsInsufficientBalance` | internal/repository/transaction_repository.go:58-85 | the checks have a fixed precedence: replaying a debit of 60 that took a balance of 100 to 40 reports InsufficientBalance, not DuplicateTransaction |
| `Ledger.ApplyReconciles` | internal/repository/transaction_repository.go:69-81 | if every balance equals its opening balance plus the signed amounts of its user's rows, this still holds after any call |
| `Ledger.RunPreservesInvariants` | internal/repository/transaction_repository.go:24-93 | over any sequence of calls, the schema constraints and the reconciliation of balances with rows are preserved |
| `Ledger.SeedReconciles` | internal/helpers/db.go:75-76 | the seed store is consistent and reconciled with itself as opening balances |
| `Ledger.CreditsAccumulate` | internal/repository/transaction_repository.go:59-60 | credits to one user (id below 2^63) with distinct unused ids, storable rows (no over-long or U+0000-bearing text, amount within its column), positive amounts whose sum the balance column can hold, and no database failure, raise that user's balance by exactly their sum |
| `Ledger.RunRecordedIdIsNoOp` | internal/repository/transaction_repository.go:83-85 | resubmitting a request whose id is recorded leaves the store unchanged, however many times and whatever the database does |
| `Ledger.RetriesApplyAtMostOnce` | internal/repository/transaction_repository.go:29-91 | however often one request is resubmitted, and whichever attempts meet a database failure, the store ends either unchanged or as after exactly one successful application, even when an attempt's commit went through unacknowledged |
| `Ledger.RetryWithCleanAttemptApplies` | internal/repository/transaction_repository.go:24-93 | and at least once: if any one of the resubmissions meets no database failure, the store ends exactly as after one fault-free call, whichever failures the other attempts met |
| `Handlers.ValidateTransaction` | cmd/api/handlers.go:16-57 | a request passes if and only if the user id parses, the Source-Type is whitelisted, the body decodes, the state is "win" or "lose", and the amount and transactionId are non-empty; every refusal is a 400 with an error message; a bad user id is reported first, then a missing header, then a non-whitelisted one |
| `Handlers.TransactionOutcome` | cmd/api/handlers.go:59-75 | status 200 exactly for success or a duplicate; 404 exactly for UserNotFound; 400 exactly for InsufficientBalance; 500 exactly for an error that is not one of the three sentinels; the body is "transaction processed successfully" for success, "transaction already processed" for a duplicate, and "user not found", "insufficient balance" or "internal server error" for the errors |
| `Handlers.BalanceOutcome` | cmd/api/handlers.go:86-97 | status 200 with the user's balance exactly when the lookup succeeded; 404 exactly for UserNotFound; 500 for any other error |
| `Handlers.CreateTransaction` | cmd/api/handlers.go:15-76 | the store afterwards and the response are those of `HandleCreate`: a refused request never reaches the repository, and a valid one gets the repository's outcome mapped to a status |
| `Handlers.GetUserBalance` | cmd/api/handlers.go:79-98 | the response is that of `HandleBalance`: 400 "invalid user id" for a bad id, otherwise the mapped lookup |
| `Handlers.RejectedRequestLeavesStore` | cmd/api/handlers.go:16-57 | a request refused by validation is answered 400 and the store is untouched |
| `Handlers.BadAmountIsServerError` | cmd/api/handlers.go:50-70 | a non-empty amount that is not a positive decimal passes the handler and is answered 500 "internal server error", with the store unchanged |
| `Handlers.UnstorableTransactionIdIsServerError` | cmd/api/handlers.go:50-70 | a valid request whose transaction id exceeds 255 characters or contains U+0000 changes nothing and is never answered 200; once it reaches the insert it is answered 500 "internal server error" |
| `Handlers.ReplayThroughHandler` | cmd/api/handlers.go:59-75 | after a request was processed successfully, the identical request changes nothing; with a working database a replayed debit is answered 200 "transaction already processed" or 400 "insufficient balance"; a replayed credit is answered "already processed", or 500 when the balance column could not hold the amount again |
| `Handlers.SeedScenario` | cmd/api/handlers.go:15-75 | on the seed store, crediting 25.50 to user 1 gives 125.50; the same id again is "already processed" and changes nothing; a debit of 500.00 is then answered "insufficient balance"; stated for every spelling of the amounts that parses to 25.50 and 500.00 |
| `Handlers.SeedScenarioAmounts` | internal/repository/transaction_repository.go:31-35 | the amounts as a client writes them, "25.50" and "500.00", parse to 25.50 and 500.00, so `SeedScenario` covers them |

## Left out

- Rounding of stored values is left out. The Go code writes the new balance through `float64`
  and `%.2f` (`RatToDecimal`). The columns are `NUMERIC(20,2)`, so PostgreSQL also rounds the
  inserted amount to two decimals. The model stores exact values. It agrees with the program
  when amounts have at most two fraction digits and balances stay below 2^46
  (70368744177664). Below that bound, `%.2f` of the nearest `float64` gives back every
  two-decimal value. From there on it does not always: 70368744177664.01 is written as
  70368744177664.02. Between 2^46 and the column's limit, the program stores a balance that
  can differ from the model's exact one by up to half the `float64` spacing. That spacing
  grows from 1/64 at 2^46 to 128 just below 10^18. `ParseAndFormat` is not modelled.
- Amount syntax: `Decimal.ParseAmount` accepts only plain decimals: an optional sign, digits,
  and an optional `.` and digits. `big.Rat.SetString` also accepts fractions (`3/4`),
  exponents, base prefixes and digit separators. The model treats those as malformed, and
  the client gets 500. Where PostgreSQL's `numeric` input refuses the same string, the
  program's `INSERT` fails too and the client also gets 500 (unless the user is missing, 404,
  or the debit overdraws, 400); a fraction such as "1/2" is such a case. Exponent notation
  is not: "1e2" credits 100 in the program, and is a 500 in the model.
- PostgreSQL does not refuse an over-long `VARCHAR` value whose excess characters are all
  spaces. It truncates the value instead. The model refuses every over-long value. So an id
  of 255 characters followed by spaces is a 500 in the model but is stored truncated by the
  program.
- Reading a stored balance that does not parse is not modelled ("invalid current balance in
  database"). The model stores numbers, so it cannot happen.
- Concurrency is not modelled. Each call is one atomic step. The `FOR UPDATE` row lock and
  the database's isolation are what make concurrent calls behave like some sequential `Run`.
- The `id` of a transaction row (a `BIGSERIAL`) and the timestamps (`NOW()`) are left out.
  Row order in `transactions` is insertion order. A rolled-back insert still consumes a
  sequence value in PostgreSQL, so serial ids can have gaps. The model does not show this.
- `Repository.BalanceOf`: for a user id of 2^63 or more it answers UserNotFound (404). The
  balance query of `UserRepository.GetBalance` is not part of this model; if it passes the
  `uint64` as the transaction path does, the driver refuses it and the client gets 500.
- HTTP plumbing is left out: routing, reading the body, JSON decoding and encoding, logging,
  `WriteJSON`/`WriteError`, configuration, startup and migrations.
- `UserRepository.GetBalance` is not part of this model: it does not appear in
  `internal/repository/user_repository.go`. It is modelled only as "the stored balance, or
  UserNotFound, or another error".
- The balance in the JSON response is a number, not the two-decimal string the service
  renders.
- The error variables are declared twice in the Go code. `ErrNegativeBalance` is unused. The
  model has one copy of each sentinel.
- `helpers.go` duplicates parts of `common.go`. The model has one copy of each.
