/**
 * The transaction ledger: users, accounts and the append-only log of
 * transaction records, and the service that uses and cancels balance.
 *
 * Each service operation runs in one storage transaction, so an operation
 * that ends in an error leaves the stores as they were. The clock and the
 * random UUID are inputs: `now` is the current time, `yearAgo` the same
 * instant one calendar year earlier, `uuid` the text of a fresh random UUID.
 */
module Ledger {
  import opened Wrappers
  import opened ErrorCodes
  import opened TransactionIds

  datatype AccountStatus = IN_USE | UNREGISTERED
  datatype TransactionType = USE | CANCEL
  datatype TransactionResultType = S | F

  datatype User = User(id: int, name: string)

  /** An account as stored under its account number. */
  datatype Account = Account(id: int, ownerId: int, balance: int, status: AccountStatus)

  /**
   * One record of the log. `accountId` and `accountNumber` identify the
   * account it was written against; `balanceSnapshot` is that account's
   * balance when the record was written.
   */
  datatype Transaction = Transaction(
    transactionId: string,
    transactionType: TransactionType,
    transactionResultType: TransactionResultType,
    accountId: int,
    accountNumber: string,
    amount: int,
    balanceSnapshot: int,
    transactedAt: int)

  // ---------------------------------------------------------------- the log

  /** No record of the log has id `id`. */
  predicate FreshId(log: seq<Transaction>, id: string) {
    forall i :: 0 <= i < |log| ==> log[i].transactionId != id
  }

  /** No two records of the log share an id. */
  predicate UniqueIds(log: seq<Transaction>) {
    forall i, j :: 0 <= i < j < |log| ==> log[i].transactionId != log[j].transactionId
  }

  /** `findByTransactionId`: the record of the log with id `id`, if there is one. */
  function FindTransaction(log: seq<Transaction>, id: string): (r: Option<Transaction>)
    ensures r.Some? ==> r.value in log && r.value.transactionId == id
    ensures r.None? <==> FreshId(log, id)
  {
    if log == [] then None
    else if log[0].transactionId == id then Some(log[0])
    else FindTransaction(log[1..], id)
  }

  /** Appending a record does not change what an earlier id finds. */
  lemma {:induction false} FindAfterAppend(log: seq<Transaction>, t: Transaction, id: string)
    ensures FindTransaction(log + [t], id) ==
      if FindTransaction(log, id).Some? then FindTransaction(log, id)
      else if t.transactionId == id then Some(t)
      else None
  {
    if log == [] {
      assert log + [t] == [t];
      assert [t][1..] == [];
    } else {
      assert (log + [t])[0] == log[0];
      assert (log + [t])[1..] == log[1..] + [t];
      FindAfterAppend(log[1..], t, id);
    }
  }

  /** With unique ids, looking up a record's own id finds that very record. */
  lemma {:induction false} FindOwnId(log: seq<Transaction>, i: nat)
    requires UniqueIds(log) && i < |log|
    ensures FindTransaction(log, log[i].transactionId) == Some(log[i])
  {
    if i > 0 {
      assert log[0].transactionId != log[i].transactionId;
      assert log[1..][i - 1] == log[i];
      FindOwnId(log[1..], i - 1);
    }
  }

  // ------------------------------------------------------------- validation

  /**
   * `validateUseBalance`: the owner must be the user, the account must be
   * in use and the balance must cover the amount; the first failing check
   * decides the error.
   */
  function ValidateUse(user: User, account: Account, amount: int): (r: Option<ErrorCode>)
    ensures r.None? <==> user.id == account.ownerId && account.status == IN_USE && amount <= account.balance
    ensures r == Some(USER_ACCOUNT_UNMACH) <==> user.id != account.ownerId
    ensures r == Some(ACCOUNT_ALREADY_UNREGISTERD) <==> user.id == account.ownerId && account.status != IN_USE
    ensures r == Some(AMOUNT_EXCEED_BALANCE) <==>
      user.id == account.ownerId && account.status == IN_USE && account.balance < amount
  {
    if user.id != account.ownerId then Some(USER_ACCOUNT_UNMACH)
    else if account.status != IN_USE then Some(ACCOUNT_ALREADY_UNREGISTERD)
    else if account.balance < amount then Some(AMOUNT_EXCEED_BALANCE)
    else None
  }

  /**
   * `validateCancelBalance`: the record must belong to the account, the
   * amount must be the record's full amount, and the record must not be
   * strictly older than one year; the first failing check decides the error.
   * Nothing is checked about the record's type or result, nor whether it was
   * already cancelled.
   */
  function ValidateCancel(t: Transaction, account: Account, amount: int, yearAgo: int): (r: Option<ErrorCode>)
    ensures r.None? <==> t.accountId == account.id && t.amount == amount && yearAgo <= t.transactedAt
    ensures r == Some(TRANSACTION_ACCOUNT_UN_MATCH) <==> t.accountId != account.id
    ensures r == Some(CANCEL_MUST_FULLY) <==> t.accountId == account.id && t.amount != amount
    ensures r == Some(TOO_OLD_FOR_CANCEL) <==>
      t.accountId == account.id && t.amount == amount && t.transactedAt < yearAgo
  {
    if t.accountId != account.id then Some(TRANSACTION_ACCOUNT_UN_MATCH)
    else if t.amount != amount then Some(CANCEL_MUST_FULLY)
    else if t.transactedAt < yearAgo then Some(TOO_OLD_FOR_CANCEL)
    else None
  }

  /**
   * `a != b` on two `Long` objects that were boxed separately compares
   * references. Boxing shares one object per value only within -128..127,
   * so two equal values outside that range still count as different.
   */
  function BoxedLongsDiffer(a: int, b: int): (r: bool)
    ensures a != b ==> r
    ensures a == b ==> (r <==> !(-128 <= a <= 127))
  {
    !(a == b && -128 <= a <= 127)
  }

  /**
   * `validateCancelBalance` as written: the request's amount and the
   * record's amount are separately boxed `Long`s compared with `!=`.
   */
  function ValidateCancelAsWritten(t: Transaction, account: Account, amount: int, yearAgo: int): (r: Option<ErrorCode>)
    ensures r.None? ==> ValidateCancel(t, account, amount, yearAgo).None?
    ensures r != ValidateCancel(t, account, amount, yearAgo) ==>
      r == Some(CANCEL_MUST_FULLY) && t.accountId == account.id && t.amount == amount && !(-128 <= amount <= 127)
  {
    if t.accountId != account.id then Some(TRANSACTION_ACCOUNT_UN_MATCH)
    else if BoxedLongsDiffer(t.amount, amount) then Some(CANCEL_MUST_FULLY)
    else if t.transactedAt < yearAgo then Some(TOO_OLD_FOR_CANCEL)
    else None
  }

  /**
   * As written, a full cancel of any amount above 127 is refused with
   * CANCEL_MUST_FULLY, e.g. cancelling a use of 300 with amount 300.
   */
  lemma FullCancelRefusedAsWritten(t: Transaction, account: Account, yearAgo: int)
    requires t.accountId == account.id && yearAgo <= t.transactedAt && t.amount > 127
    ensures ValidateCancel(t, account, t.amount, yearAgo).None?
    ensures ValidateCancelAsWritten(t, account, t.amount, yearAgo) == Some(CANCEL_MUST_FULLY)
  {
  }

  /** The concrete case: a recent use of 300 cancelled in full. */
  lemma CancelOf300RefusedAsWritten()
    ensures
      var t := Transaction("0123456789abcdef0123456789abcdef", USE, S, 1, "2000000000", 300, 700, 10);
      var account := Account(1, 1, 700, IN_USE);
      ValidateCancelAsWritten(t, account, 300, 0) == Some(CANCEL_MUST_FULLY) &&
      ValidateCancel(t, account, 300, 0).None?
  {
  }

  /** The codes a use of balance can fail with. */
  const UseCodes: set<ErrorCode> :=
    {USER_NOT_FOUND, NOT_ACCOUNT_EXIST, USER_ACCOUNT_UNMACH, ACCOUNT_ALREADY_UNREGISTERD, AMOUNT_EXCEED_BALANCE}

  /** The codes a cancel can fail with. */
  const CancelCodes: set<ErrorCode> :=
    {TRANSACTION_NOT_FOUND, NOT_ACCOUNT_EXIST, TRANSACTION_ACCOUNT_UN_MATCH, CANCEL_MUST_FULLY, TOO_OLD_FOR_CANCEL}

  /**
   * The error `useBalance` reports, if any: the user is looked up first,
   * then the account, then the use is validated.
   */
  function UseError(users: map<int, User>, accounts: map<string, Account>,
                    userId: int, accountNumber: string, amount: int): (r: Option<ErrorCode>)
    ensures r == Some(USER_NOT_FOUND) <==> userId !in users
    ensures r == Some(NOT_ACCOUNT_EXIST) <==> userId in users && accountNumber !in accounts
    ensures userId in users && accountNumber in accounts ==>
      r == ValidateUse(users[userId], accounts[accountNumber], amount)
    ensures r.None? <==>
      userId in users && accountNumber in accounts &&
      users[userId].id == accounts[accountNumber].ownerId &&
      accounts[accountNumber].status == IN_USE &&
      amount <= accounts[accountNumber].balance
    ensures r.Some? ==> r.value in UseCodes
  {
    if userId !in users then Some(USER_NOT_FOUND)
    else if accountNumber !in accounts then Some(NOT_ACCOUNT_EXIST)
    else ValidateUse(users[userId], accounts[accountNumber], amount)
  }

  /**
   * The error `cancelBalance` reports, if any: the record is looked up
   * first, then the account, then the cancel is validated.
   */
  function CancelError(log: seq<Transaction>, accounts: map<string, Account>,
                       transactionId: string, accountNumber: string, amount: int, yearAgo: int): (r: Option<ErrorCode>)
    ensures r == Some(TRANSACTION_NOT_FOUND) <==> FreshId(log, transactionId)
    ensures r == Some(NOT_ACCOUNT_EXIST) <==> !FreshId(log, transactionId) && accountNumber !in accounts
    ensures !FreshId(log, transactionId) && accountNumber in accounts ==>
      r == ValidateCancel(FindTransaction(log, transactionId).value, accounts[accountNumber], amount, yearAgo)
    ensures r.None? <==>
      !FreshId(log, transactionId) && accountNumber in accounts &&
      FindTransaction(log, transactionId).value.accountId == accounts[accountNumber].id &&
      FindTransaction(log, transactionId).value.amount == amount &&
      yearAgo <= FindTransaction(log, transactionId).value.transactedAt
    ensures r.Some? ==> r.value in CancelCodes
  {
    match FindTransaction(log, transactionId)
    case None => Some(TRANSACTION_NOT_FOUND)
    case Some(t) =>
      if accountNumber !in accounts then Some(NOT_ACCOUNT_EXIST)
      else ValidateCancel(t, accounts[accountNumber], amount, yearAgo)
  }

  /**
   * The service raises nine of the codes: never MAX_ACCOUNT_PER_USER_10,
   * BALANCE_NOT_EMPTY, INVALID_REQUEST (nor INTERNAL_SERVER_ERROR).
   */
  lemma ServiceRaisesNineCodes()
    ensures forall c: ErrorCode :: c in UseCodes + CancelCodes <==>
      c != MAX_ACCOUNT_PER_USER_10 && c != BALANCE_NOT_EMPTY && c != INVALID_REQUEST && c != INTERNAL_SERVER_ERROR
    ensures |UseCodes + CancelCodes| == 9
  {
    var nine := {USER_NOT_FOUND, NOT_ACCOUNT_EXIST, USER_ACCOUNT_UNMACH, ACCOUNT_ALREADY_UNREGISTERD,
      AMOUNT_EXCEED_BALANCE, TRANSACTION_NOT_FOUND, TRANSACTION_ACCOUNT_UN_MATCH, CANCEL_MUST_FULLY,
      TOO_OLD_FOR_CANCEL};
    assert UseCodes + CancelCodes == nine;
  }

  /**
   * The age check is as strict as written: a record exactly one year old
   * can still be cancelled, one an instant older cannot.
   */
  lemma CancelAgeBoundary(t: Transaction, account: Account, yearAgo: int)
    requires t.accountId == account.id
    ensures ValidateCancel(t, account, t.amount, yearAgo).None? <==> yearAgo <= t.transactedAt
    ensures t.transactedAt == yearAgo ==> ValidateCancel(t, account, t.amount, yearAgo).None?
    ensures t.transactedAt == yearAgo - 1 ==> ValidateCancel(t, account, t.amount, yearAgo) == Some(TOO_OLD_FOR_CANCEL)
  {
  }

  /**
   * The balance check is strict: spending the whole balance succeeds,
   * spending one more fails.
   */
  lemma UseBalanceBoundary(user: User, account: Account)
    requires user.id == account.ownerId && account.status == IN_USE
    ensures ValidateUse(user, account, account.balance).None?
    ensures ValidateUse(user, account, account.balance + 1) == Some(AMOUNT_EXCEED_BALANCE)
  {
  }

  // ----------------------------------------------------------- the service

  /** Every user is stored under its own id. */
  predicate UsersKeyedById(users: map<int, User>) {
    forall k :: k in users ==> users[k].id == k
  }

  /**
   * With users stored under their own ids, the owner check of a use compares
   * the requested user id itself with the account's owner id.
   */
  lemma UseOwnerCheckIsOnRequestedId(users: map<int, User>, accounts: map<string, Account>,
                                     userId: int, accountNumber: string, amount: int)
    requires UsersKeyedById(users) && userId in users && accountNumber in accounts
    ensures UseError(users, accounts, userId, accountNumber, amount) == Some(USER_ACCOUNT_UNMACH) <==>
      userId != accounts[accountNumber].ownerId
  {
  }

  /** The id of the account stored under number `n`. */
  function AccountIdAt(accounts: map<string, Account>, n: string): int
    requires n in accounts
  {
    accounts[n].id
  }

  /** No two account numbers hold accounts with the same id. */
  predicate UniqueAccountIds(accounts: map<string, Account>) {
    forall n, m :: n in accounts && m in accounts && n != m ==> AccountIdAt(accounts, n) != AccountIdAt(accounts, m)
  }

  /** Changing an account's balance keeps account ids unique. */
  lemma AdjustBalanceKeepsIds(accounts: map<string, Account>, n: string, balance: int)
    requires UniqueAccountIds(accounts) && n in accounts
    ensures UniqueAccountIds(accounts[n := accounts[n].(balance := balance)])
  {
    var adjusted := accounts[n := accounts[n].(balance := balance)];
    forall p, q | p in adjusted && q in adjusted && p != q
      ensures AccountIdAt(adjusted, p) != AccountIdAt(adjusted, q)
    {
      assert AccountIdAt(adjusted, p) == AccountIdAt(accounts, p);
      assert AccountIdAt(adjusted, q) == AccountIdAt(accounts, q);
    }
  }

  /**
   * With unique account ids, a cancel that passes validation is made against
   * the very account number the record was written against, as long as that
   * number still holds the record's account.
   */
  lemma CancelTargetsRecordedAccount(accounts: map<string, Account>, t: Transaction,
                                     accountNumber: string, amount: int, yearAgo: int)
    requires UniqueAccountIds(accounts)
    requires t.accountNumber in accounts && accounts[t.accountNumber].id == t.accountId
    requires accountNumber in accounts
    ensures ValidateCancel(t, accounts[accountNumber], amount, yearAgo).None? ==> accountNumber == t.accountNumber
    ensures accountNumber != t.accountNumber ==>
      ValidateCancel(t, accounts[accountNumber], amount, yearAgo) == Some(TRANSACTION_ACCOUNT_UN_MATCH)
  {
  }

  /** The transaction service over its three repositories. */
  class TransactionService {
    var users: map<int, User>
    var accounts: map<string, Account>
    var log: seq<Transaction>

    /**
     * What the repositories guarantee: every user is stored under its own id,
     * no two account numbers hold accounts with the same id (the id is the
     * primary key), and every id of the log is a well-formed transaction id,
     * no two equal.
     */
    ghost predicate Valid()
      reads this
    {
      UsersKeyedById(users) && UniqueAccountIds(accounts) &&
      UniqueIds(log) && forall i :: 0 <= i < |log| ==> IsTransactionId(log[i].transactionId)
    }

    /** Every account's balance is non-negative. */
    ghost predicate NonNegativeBalances()
      reads this
    {
      forall n :: n in accounts ==> accounts[n].balance >= 0
    }

    constructor (users: map<int, User>, accounts: map<string, Account>, log: seq<Transaction>)
      requires UsersKeyedById(users) && UniqueAccountIds(accounts)
      requires UniqueIds(log) && forall i :: 0 <= i < |log| ==> IsTransactionId(log[i].transactionId)
      ensures Valid()
      ensures this.users == users && this.accounts == accounts && this.log == log
    {
      this.users := users;
      this.accounts := accounts;
      this.log := log;
    }

    /**
     * `saveandGetTransaction`: append one record of the given type and result
     * for the account as it stands now, with a fresh id taken from `uuid`.
     */
    method SaveAndGetTransaction(transactionType: TransactionType, result: TransactionResultType,
                                 accountNumber: string, amount: int, now: int, uuid: string)
      returns (t: Transaction)
      requires Valid()
      requires accountNumber in accounts
      requires IsUuidText(uuid) && FreshId(log, StripHyphens(uuid))
      modifies this`log
      ensures Valid()
      ensures t == Transaction(StripHyphens(uuid), transactionType, result, accounts[accountNumber].id,
                               accountNumber, amount, accounts[accountNumber].balance, now)
      ensures log == old(log) + [t]
      ensures FindTransaction(log, t.transactionId) == Some(t)
      ensures forall id :: id != t.transactionId ==> FindTransaction(log, id) == FindTransaction(old(log), id)
    {
      var account := accounts[accountNumber];
      UuidGivesTransactionId(uuid);
      t := Transaction(StripHyphens(uuid), transactionType, result, account.id,
                       accountNumber, amount, account.balance, now);
      ghost var before := log;
      log := log + [t];
      forall id ensures FindTransaction(log, id) ==
        if FindTransaction(before, id).Some? then FindTransaction(before, id)
        else if t.transactionId == id then Some(t) else None
      {
        FindAfterAppend(before, t, id);
      }
    }

    /**
     * `useBalance`: debit the account by `amount` and append a USE/S record.
     * On any error nothing changes.
     */
    method UseBalance(userId: int, accountNumber: string, amount: int, now: int, uuid: string)
      returns (r: Result<Transaction, ErrorCode>)
      requires Valid()
      requires IsUuidText(uuid) && FreshId(log, StripHyphens(uuid))
      modifies this
      ensures Valid() && users == old(users)
      ensures r.Failure? <==> UseError(old(users), old(accounts), userId, accountNumber, amount).Some?
      ensures r.Failure? ==>
        r.error == UseError(old(users), old(accounts), userId, accountNumber, amount).value &&
        accounts == old(accounts) && log == old(log)
      ensures r.Success? ==>
        accountNumber in old(accounts) &&
        var before := old(accounts)[accountNumber];
        accounts == old(accounts)[accountNumber := before.(balance := before.balance - amount)] &&
        r.value == Transaction(StripHyphens(uuid), USE, S, before.id, accountNumber, amount,
                               before.balance - amount, now) &&
        log == old(log) + [r.value] &&
        forall id :: FindTransaction(log, id) ==
          if id == r.value.transactionId then Some(r.value) else FindTransaction(old(log), id)
      ensures old(NonNegativeBalances()) ==> NonNegativeBalances()
    {
      if userId !in users {
        return Failure(USER_NOT_FOUND);
      }
      var user := users[userId];
      if accountNumber !in accounts {
        return Failure(NOT_ACCOUNT_EXIST);
      }
      var account := accounts[accountNumber];
      var invalid := ValidateUse(user, account, amount);
      if invalid.Some? {
        return Failure(invalid.value);
      }
      AdjustBalanceKeepsIds(accounts, accountNumber, account.balance - amount);
      accounts := accounts[accountNumber := account.(balance := account.balance - amount)];
      var saved := SaveAndGetTransaction(USE, S, accountNumber, amount, now, uuid);
      return Success(saved);
    }

    /**
     * `cancelBalance`: credit the account by `amount` and append a CANCEL/S
     * record; the cancelled record itself is left as it was. On any error
     * nothing changes.
     */
    method CancelBalance(transactionId: string, accountNumber: string, amount: int,
                         now: int, yearAgo: int, uuid: string)
      returns (r: Result<Transaction, ErrorCode>)
      requires Valid()
      requires yearAgo < now
      requires IsUuidText(uuid) && FreshId(log, StripHyphens(uuid))
      modifies this
      ensures Valid() && users == old(users)
      ensures r.Failure? <==>
        CancelError(old(log), old(accounts), transactionId, accountNumber, amount, yearAgo).Some?
      ensures r.Failure? ==>
        r.error == CancelError(old(log), old(accounts), transactionId, accountNumber, amount, yearAgo).value &&
        accounts == old(accounts) && log == old(log)
      ensures r.Success? ==>
        accountNumber in old(accounts) &&
        var before := old(accounts)[accountNumber];
        accounts == old(accounts)[accountNumber := before.(balance := before.balance + amount)] &&
        r.value == Transaction(StripHyphens(uuid), CANCEL, S, before.id, accountNumber, amount,
                               before.balance + amount, now) &&
        log == old(log) + [r.value] &&
        r.value.transactionId != transactionId &&
        forall id :: FindTransaction(log, id) ==
          if id == r.value.transactionId then Some(r.value) else FindTransaction(old(log), id)
      ensures old(NonNegativeBalances()) && amount >= 0 ==> NonNegativeBalances()
    {
      var found := FindTransaction(log, transactionId);
      if found.None? {
        return Failure(TRANSACTION_NOT_FOUND);
      }
      var original := found.value;
      if accountNumber !in accounts {
        return Failure(NOT_ACCOUNT_EXIST);
      }
      var account := accounts[accountNumber];
      var invalid := ValidateCancel(original, account, amount, yearAgo);
      if invalid.Some? {
        return Failure(invalid.value);
      }
      AdjustBalanceKeepsIds(accounts, accountNumber, account.balance + amount);
      accounts := accounts[accountNumber := account.(balance := account.balance + amount)];
      var saved := SaveAndGetTransaction(CANCEL, S, accountNumber, amount, now, uuid);
      return Success(saved);
    }

    /**
     * `saveFailedUseTransaction`: append a USE/F record carrying the account's
     * current, unchanged balance; NOT_ACCOUNT_EXIST if there is no such account.
     */
    method SaveFailedUseTransaction(accountNumber: string, amount: int, now: int, uuid: string)
      returns (r: Outcome<ErrorCode>)
      requires Valid()
      requires IsUuidText(uuid) && FreshId(log, StripHyphens(uuid))
      modifies this`log
      ensures Valid()
      ensures r.Fail? <==> accountNumber !in accounts
      ensures r.Fail? ==> r.error == NOT_ACCOUNT_EXIST && log == old(log)
      ensures r.Pass? ==>
        log == old(log) + [Transaction(StripHyphens(uuid), USE, F, accounts[accountNumber].id, accountNumber,
                                       amount, accounts[accountNumber].balance, now)]
    {
      if accountNumber !in accounts {
        return Fail(NOT_ACCOUNT_EXIST);
      }
      var _ := SaveAndGetTransaction(USE, F, accountNumber, amount, now, uuid);
      return Pass;
    }

    /**
     * `saveFailedCancelTransaction`: append a CANCEL/F record carrying the
     * account's current, unchanged balance; NOT_ACCOUNT_EXIST if there is no
     * such account.
     */
    method SaveFailedCancelTransaction(accountNumber: string, amount: int, now: int, uuid: string)
      returns (r: Outcome<ErrorCode>)
      requires Valid()
      requires IsUuidText(uuid) && FreshId(log, StripHyphens(uuid))
      modifies this`log
      ensures Valid()
      ensures r.Fail? <==> accountNumber !in accounts
      ensures r.Fail? ==> r.error == NOT_ACCOUNT_EXIST && log == old(log)
      ensures r.Pass? ==>
        log == old(log) + [Transaction(StripHyphens(uuid), CANCEL, F, accounts[accountNumber].id, accountNumber,
                                       amount, accounts[accountNumber].balance, now)]
    {
      if accountNumber !in accounts {
        return Fail(NOT_ACCOUNT_EXIST);
      }
      var _ := SaveAndGetTransaction(CANCEL, F, accountNumber, amount, now, uuid);
      return Pass;
    }

    /** `queryTransaction`: the stored record with that id, or TRANSACTION_NOT_FOUND. */
    method QueryTransaction(transactionId: string) returns (r: Result<Transaction, ErrorCode>)
      requires Valid()
      ensures r.Success? <==> !FreshId(log, transactionId)
      ensures r.Success? ==> r.value in log && r.value.transactionId == transactionId
      ensures r.Success? ==> forall i :: 0 <= i < |log| && log[i].transactionId == transactionId ==> log[i] == r.value
      ensures r.Failure? ==> r.error == TRANSACTION_NOT_FOUND
    {
      var found := FindTransaction(log, transactionId);
      if found.None? {
        return Failure(TRANSACTION_NOT_FOUND);
      }
      forall i | 0 <= i < |log| && log[i].transactionId == transactionId
        ensures log[i] == found.value
      {
        FindOwnId(log, i);
      }
      return Success(found.value);
    }
  }

  // ------------------------------------------------ properties of the ledger

  /**
   * Repeated cancels succeed: after a successful cancel of a record, the
   * same cancel request passes every check again, because the cancel
   * changed only the account's balance and appended one fresh record.
   */
  lemma {:induction false} CancelCanBeRepeated(log: seq<Transaction>, accounts: map<string, Account>,
                                              transactionId: string, accountNumber: string, amount: int,
                                              yearAgo: int, c: Transaction)
    requires CancelError(log, accounts, transactionId, accountNumber, amount, yearAgo).None?
    requires FreshId(log, c.transactionId)
    ensures accountNumber in accounts
    ensures CancelError(log + [c],
                        accounts[accountNumber := accounts[accountNumber].(balance := accounts[accountNumber].balance + amount)],
                        transactionId, accountNumber, amount, yearAgo).None?
  {
    FindAfterAppend(log, c, transactionId);
  }

  /**
   * Use then cancel of the same amount restores the balance, and the log
   * grows by exactly the two records.
   */
  lemma {:induction false} UseThenCancelRestores(log: seq<Transaction>, users: map<int, User>,
                                                accounts: map<string, Account>, userId: int,
                                                accountNumber: string, amount: int, now: int,
                                                yearAgo: int, u: Transaction, c: Transaction)
    requires UseError(users, accounts, userId, accountNumber, amount).None?
    requires FreshId(log, u.transactionId)
    requires u.transactionType == USE && u.accountNumber == accountNumber && u.amount == amount
    requires u.accountId == accounts[accountNumber].id && yearAgo <= u.transactedAt
    ensures
      var used := accounts[accountNumber := accounts[accountNumber].(balance := accounts[accountNumber].balance - amount)];
      CancelError(log + [u], used, u.transactionId, accountNumber, amount, yearAgo).None? &&
      used[accountNumber := used[accountNumber].(balance := used[accountNumber].balance + amount)] == accounts
  {
    var used := accounts[accountNumber := accounts[accountNumber].(balance := accounts[accountNumber].balance - amount)];
    FindAfterAppend(log, u, u.transactionId);
    assert used[accountNumber := used[accountNumber].(balance := used[accountNumber].balance + amount)] == accounts;
  }
}
