# Account ledger: the transaction core, in Dafny

This project models the transaction core of a small account-ledger service.
The service uses balance on an account, cancels an earlier use, and looks up
a transaction record by id. The model covers four parts of the code:

- **the transaction service** (`Ledger`), a class over three stores. Users
  are a map keyed by id. Accounts are a map keyed by account number, each
  with a numeric id, an owner id, a balance and a status. The transactions
  are an append-only sequence of records.
- **the transaction controller** (`Controller`), which calls the service.
  When a cancel fails, it writes a compensating `CANCEL/F` record.
- **the global exception handler** (`Exceptions`). It turns an exception
  into an error body carrying an error code and a message.
- **the error-code enum** (`ErrorCodes`), with each constant's description.

Each service operation runs in one storage transaction. So an operation that
ends in an error leaves every store as it was. The model states this as
"on `Failure`, `accounts` and `log` are unchanged". Three things become
method parameters:

- the clock: `now`, and `yearAgo`, which stands for `now.minusYears(1)`
  and so is required to be earlier than `now`;
- the random UUID: `uuid`, the 36-character canonical text of a fresh UUID;
- freshness: a precondition that the id made from `uuid` is not yet in the log.

The model strips the hyphens from `uuid` (`StripHyphens`) and proves that the
result is a 32-character lowercase hex id. The model is deterministic and
sequential.

Files: `wrappers.dfy` (Option, Result, Outcome), `error_code.dfy`,
`global_exception_handler.dfy`, `transaction_ids.dfy`,
`transaction_service.dfy`, `transaction_controller.dfy`.

The model follows the code, including these points a reader might not expect:

- A failed use writes **no** `USE/F` record. The service call sits outside
  the controller's `try`, and nothing inside the `try` throws an
  `AccountException`.
- When the compensating `CANCEL/F` write fails (the account is missing), its
  `NOT_ACCOUNT_EXIST` **replaces** the cancel's own error. It is not dropped.
- The service does not bound `amount`. The checks are only those in
  `validateUseBalance` and `validateCancelBalance`.
- A cancel checks neither the record's type and result nor whether the record
  was already cancelled. Repeated cancels therefore succeed
  (`CancelCanBeRepeated`).
- A request-validation failure is reported as `INTERNAL_SERVER_ERROR` with
  the exception's own message, not as `INVALID_REQUEST`.

## Model

| member | source | states |
|---|---|---|
| `ErrorCodes.Ordinal` | src/main/java/com/example/account/type/ErrorCode.java:9-20 | each constant's declaration position; every declared constant sits in the declared list at its ordinal |
| `ErrorCodes.DeclaredCodes` | src/main/java/com/example/account/type/ErrorCode.java:9-20 | the enum declares exactly twelve pairwise distinct constants; every constant except the undeclared INTERNAL_SERVER_ERROR is among them |
| `ErrorCodes.Description` | src/main/java/com/example/account/type/ErrorCode.java:9-22 | `getDescription()`: each constant carries one fixed, non-empty description, the twelve declared texts as in the enum; that they are pairwise distinct is `DescriptionIdentifiesCode` |
| `ErrorCodes.Name` | src/main/java/com/example/account/type/ErrorCode.java:9-20 | `name()`: the constant's spelling, the text the error body carries; every spelling is a non-empty upper-case identifier, and they are pairwise distinct by `NameIdentifiesCode` |
| `ErrorCodes.FindByDescription` | src/main/java/com/example/account/type/ErrorCode.java:9-22 | reverse lookup by description: a constant it returns carries that description; it returns nothing exactly when no constant does |
| `ErrorCodes.DescriptionIdentifiesCode` | src/main/java/com/example/account/type/ErrorCode.java:9-22 | the thirteen descriptions are pairwise distinct, so a description maps back to its own constant (description → code is injective) |
| `ErrorCodes.FindByName` | src/main/java/com/example/account/type/ErrorCode.java:9-20 | lookup by spelling (`valueOf`): a constant it returns has that spelling; it returns nothing exactly when no constant does |
| `ErrorCodes.NameIdentifiesCode` | src/main/java/com/example/account/type/ErrorCode.java:9-20 | the spellings, USER_ACCOUNT_UNMACH and ACCOUNT_ALREADY_UNREGISTERD included, are pairwise distinct and map back to their constants |
| `Exceptions.Raise` | src/main/java/com/example/account/service/TransactionService.java:43-44 | an exception thrown for a code carries that code, and its message identifies the code |
| `Exceptions.Handle` | src/main/java/com/example/account/exception/GlobalExceptionHandler.java:14-40 | the mapping is total. An AccountException keeps its code and message. A validation failure gives INTERNAL_SERVER_ERROR with its own message. Anything else gives INTERNAL_SERVER_ERROR with that code's fixed description |
| `Exceptions.HandleCodeIsOwnOrInternal` | src/main/java/com/example/account/exception/GlobalExceptionHandler.java:14-40 | a response code other than INTERNAL_SERVER_ERROR comes only from an AccountException and is that exception's own code; every other exception yields INTERNAL_SERVER_ERROR |
| `Exceptions.RaisedCodeRoundTrip` | src/main/java/com/example/account/exception/GlobalExceptionHandler.java:14-21 | a code thrown by the service reaches the error body unchanged, and the body's message identifies it |
| `Exceptions.InvalidRequestOnlyWhenRaised` | src/main/java/com/example/account/exception/GlobalExceptionHandler.java:23-30 | INVALID_REQUEST appears in a response only for an AccountException raised with that code, never for a request-validation failure |
| `TransactionIds.StripHyphens` | src/main/java/com/example/account/service/TransactionService.java:89 | `replace("-", "")`: the result holds no hyphen, is no longer than the input and keeps only the input's characters; that it keeps all of them is `StripHyphensKeepsOthers` |
| `TransactionIds.StripHyphensKeepsOthers` | src/main/java/com/example/account/service/TransactionService.java:89 | every character other than a hyphen is kept, exactly as often as the input holds it: the result's multiset is the input's with the hyphens taken out |
| `TransactionIds.StripHyphensAppend` | src/main/java/com/example/account/service/TransactionService.java:89 | stripping a concatenation strips each part and concatenates the results, so the kept characters stay in their input order |
| `TransactionIds.UuidGivesTransactionId` | src/main/java/com/example/account/service/TransactionService.java:89 | removing the hyphens from a canonical UUID's text gives exactly 32 lowercase hex digits |
| `Ledger.FindTransaction` | src/main/java/com/example/account/service/TransactionService.java:97-98 | `findByTransactionId`: a found record is in the log and has that id; nothing is found exactly when no record has that id |
| `Ledger.FindAfterAppend` | src/main/java/com/example/account/service/TransactionService.java:82 | appending a record does not change what an id already in the log finds; a fresh id finds the new record |
| `Ledger.FindOwnId` | src/main/java/com/example/account/service/TransactionService.java:135-141 | with unique ids, looking up a record's id finds that very record |
| `Ledger.ValidateUse` | src/main/java/com/example/account/service/TransactionService.java:58-70 | first failure wins: USER_ACCOUNT_UNMACH exactly when owner ≠ user; ACCOUNT_ALREADY_UNREGISTERD exactly when owner matches and status ≠ IN_USE; AMOUNT_EXCEED_BALANCE exactly when both pass and balance < amount (strict); success otherwise |
| `Ledger.ValidateCancel` | src/main/java/com/example/account/service/TransactionService.java:112-124 | first failure wins: TRANSACTION_ACCOUNT_UN_MATCH exactly when the record's account id differs; CANCEL_MUST_FULLY exactly when it matches and the amount differs; TOO_OLD_FOR_CANCEL exactly when both pass and the record is strictly older than one year |
| `Ledger.BoxedLongsDiffer` | src/main/java/com/example/account/service/TransactionService.java:117 | `!=` on two separately boxed `Long`s: different values always differ; equal values differ exactly when they lie outside the shared -128..127 range |
| `Ledger.ValidateCancelAsWritten` | src/main/java/com/example/account/service/TransactionService.java:117-119 | the amount check as written, as a reference comparison of boxed Longs. It refuses whatever the value check refuses, and it differs only by a spurious CANCEL_MUST_FULLY on an equal amount outside -128..127 |
| `Ledger.FullCancelRefusedAsWritten` | src/main/java/com/example/account/service/TransactionService.java:117-119 | as written, a full cancel of a matching, recent record whose amount exceeds 127 is refused with CANCEL_MUST_FULLY, which the value check accepts |
| `Ledger.CancelOf300RefusedAsWritten` | src/main/java/com/example/account/service/TransactionService.java:117-119 | the concrete input: a recent use of 300 cancelled with amount 300 is refused as written and accepted by value comparison |
| `Ledger.UseError` | src/main/java/com/example/account/service/TransactionService.java:41-70 | the ordered failures of useBalance. USER_NOT_FOUND exactly when the user is missing. NOT_ACCOUNT_EXIST exactly when the user exists and the account is missing. Otherwise the validation's verdict. Success exactly when all five checks pass. Only the five use codes arise |
| `Ledger.CancelError` | src/main/java/com/example/account/service/TransactionService.java:94-124 | the ordered failures of cancelBalance. TRANSACTION_NOT_FOUND exactly when no record has the id. NOT_ACCOUNT_EXIST exactly when the record exists and the account is missing. Otherwise the validation's verdict on the stored record. Only the five cancel codes arise |
| `Ledger.ServiceRaisesNineCodes` | src/main/java/com/example/account/service/TransactionService.java:44-122 | the service raises exactly nine codes, never MAX_ACCOUNT_PER_USER_10, BALANCE_NOT_EMPTY, INVALID_REQUEST or INTERNAL_SERVER_ERROR |
| `Ledger.CancelAgeBoundary` | src/main/java/com/example/account/service/TransactionService.java:121-123 | a record exactly one year old can still be cancelled; one an instant older is TOO_OLD_FOR_CANCEL |
| `Ledger.UseOwnerCheckIsOnRequestedId` | src/main/java/com/example/account/service/TransactionService.java:58-61 | with every user stored under its own id, a use fails with USER_ACCOUNT_UNMACH exactly when the requested user id is not the account's owner id |
| `Ledger.CancelTargetsRecordedAccount` | src/main/java/com/example/account/service/TransactionService.java:112-115 | with account ids unique across account numbers, a cancel passes the account check only against the number the record was written against; any other number is TRANSACTION_ACCOUNT_UN_MATCH |
| `Ledger.UseBalanceBoundary` | src/main/java/com/example/account/service/TransactionService.java:67-69 | spending the whole balance passes; spending one more is AMOUNT_EXCEED_BALANCE |
| `Ledger.TransactionService.SaveAndGetTransaction` | src/main/java/com/example/account/service/TransactionService.java:81-93 | appends exactly one record: the given type and result, the account's id, its number and current balance as snapshot, the amount, `now`, and the hyphen-free id. The record is found by its id, no other id's lookup changes, and ids stay unique and well formed |
| `Ledger.TransactionService.UseBalance` | src/main/java/com/example/account/service/TransactionService.java:41-56 | an error is returned exactly when UseError reports one, and then nothing changes. On success, only that account changes: its balance drops by exactly `amount`. Exactly one `{USE, S, amount, snapshot = new balance}` record is appended and returned. Its id now finds it, and every other id finds what it found before. Users keyed by their ids, unique account ids and unique, well-formed record ids are kept. Balances stay non-negative |
| `Ledger.TransactionService.CancelBalance` | src/main/java/com/example/account/service/TransactionService.java:94-110 | an error is returned exactly when CancelError reports one, and then nothing changes. On success, only that account changes: its balance rises by exactly `amount`. One `{CANCEL, S, amount, snapshot = new balance}` record is appended and returned, under an id other than the cancelled record's. Its id now finds it, and every other id, the cancelled record's included, finds what it found before. The store invariants are kept as for a use. `yearAgo` must be earlier than `now` |
| `Ledger.TransactionService.SaveFailedUseTransaction` | src/main/java/com/example/account/service/TransactionService.java:72-79 | NOT_ACCOUNT_EXIST exactly when the account is missing, and then the log is unchanged. Otherwise exactly one USE/F record is appended with the amount and the current, unchanged balance |
| `Ledger.TransactionService.SaveFailedCancelTransaction` | src/main/java/com/example/account/service/TransactionService.java:127-133 | NOT_ACCOUNT_EXIST exactly when the account is missing, and then the log is unchanged. Otherwise exactly one CANCEL/F record is appended with the amount and the current, unchanged balance |
| `Ledger.TransactionService.QueryTransaction` | src/main/java/com/example/account/service/TransactionService.java:135-141 | changes nothing; returns the stored record with that id (the only one), or TRANSACTION_NOT_FOUND exactly when there is none |
| `Ledger.CancelCanBeRepeated` | src/main/java/com/example/account/service/TransactionService.java:94-126 | after a successful cancel, the same cancel request passes every check again: nothing marks a record as cancelled |
| `Ledger.UseThenCancelRestores` | src/main/java/com/example/account/service/TransactionService.java:94-110 | a successful use followed by a cancel of its record and amount passes the cancel checks and restores the accounts exactly |
| `Controller.SurfacedCancelError` | src/main/java/com/example/account/controller/TransactionController.java:59-72 | the error a failed cancel request surfaces. NOT_ACCOUNT_EXIST exactly when the account is missing, whatever the cause. TRANSACTION_NOT_FOUND exactly when the record is missing and the account exists. Otherwise the service's own error |
| `Controller.CompensationErrorReplacesCause` | src/main/java/com/example/account/controller/TransactionController.java:64-71 | an unknown transaction on an unknown account: the service says TRANSACTION_NOT_FOUND, but the request surfaces NOT_ACCOUNT_EXIST |
| `Controller.TransactionController.UseBalance` | src/main/java/com/example/account/controller/TransactionController.java:30-51 | a failed use propagates the service's error and writes no USE/F record. A successful use has exactly the service's effect and writes no failure record |
| `Controller.TransactionController.CancelBalance` | src/main/java/com/example/account/controller/TransactionController.java:53-73 | a success has the service's effect and writes no failure record. A failure never touches balances. If the account exists, exactly one CANCEL/F record is appended with its current balance, even for TRANSACTION_NOT_FOUND, and the cancel's own error is rethrown. Otherwise nothing is written and NOT_ACCOUNT_EXIST escapes. `yearAgo` must be earlier than `now` |
| `Controller.TransactionController.QueryTransaction` | src/main/java/com/example/account/controller/TransactionController.java:75-80 | delegates to the service's query; changes and compensates nothing |

## Left out

- The per-account lock (`@AccountLock`, whose aspect is not part of this model) and all concurrency: each operation is modelled as atomic.
- `Thread.sleep(3000L)` in the use endpoint, and all logging.
- Spring and JPA: `@Transactional` rollback is modelled as "an error leaves the stores unchanged"; the repositories are maps and a sequence; dirty-checking of the loaded account is the map update.
- `Account.useBalance` and `Account.cancelBalance` live in `Account.java`, outside the modelled files; the model uses `balance − amount` and `balance + amount` for them.
- `UUID.randomUUID()` and `LocalDateTime.now()`: the UUID text, `now` and `yearAgo` (for `now.minusYears(1)`) are parameters, with `yearAgo < now` required; no calendar arithmetic is done, and the two separate `now()` calls of a cancel (the age check and the record's timestamp) are one instant in the model.
- Ledger.ValidateUse: compares the user's and the owner's ids by value; the source compares boxed `Long`s with `!=` (line 59), which agrees only when both come from the same entity instance, as they do when the persistence context shares them.
- Ledger.ValidateCancel: compares account ids by value; the source compares boxed `Long`s with `!=` (line 113), with the same caveat. The amount comparison (line 117) is a finding below.
- 64-bit `Long` arithmetic: balances and amounts are unbounded integers, so overflow of `balance − amount` or `balance + amount` is not modelled.
- Ledger.TransactionService.CancelBalance: keeps balances non-negative only when `amount >= 0`, because the service does not bound amounts (the request DTO's bounds are not part of this model).
- `INTERNAL_SERVER_ERROR` is used by the exception handler but not declared by the enum; it is modelled as a thirteenth constant, and its description text ("internal server error") is a stand-in.
- The `AccountException` class is not part of this model; it is assumed to carry its code's description as its message (`Exceptions.Raise`).
- Account creation, deletion and listing (AccountService), HTTP binding, JSON, `@Valid` request bounds and the DTO and response conversions.

## Findings

| source | as written | input that shows it | evidently intended | confidence | as-written member | corrected member |
|---|---|---|---|---|---|---|
| src/main/java/com/example/account/service/TransactionService.java:117 | `transaction.getAmount() != amount` compares two separately boxed `Long` objects by reference | cancel a recent use of 300 on its own account with amount 300: CANCEL_MUST_FULLY | compare the amounts by value, so a full cancel of any amount passes | not executed; depends on the `Transaction` entity's `amount` field and getter being a boxed `Long` (the entity is not part of this model; a primitive `long` would unbox and compare by value, and the bug would not occur), and on both `Long`s being boxed through `Long.valueOf`, which shares objects only within -128..127 | `Ledger.ValidateCancelAsWritten`, `Ledger.CancelOf300RefusedAsWritten` | `Ledger.ValidateCancel` |
