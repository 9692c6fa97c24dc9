/**
 * The transaction controller: how the three endpoints call the service,
 * and the compensating failure record written when a cancel fails.
 * Request binding, the response bodies and the per-account lock are not
 * part of this model.
 */
module Controller {
  import opened Wrappers
  import opened ErrorCodes
  import opened TransactionIds
  import opened Ledger

  /**
   * The error a failed cancel request surfaces once the controller has
   * tried its compensating write: the cancel's own error, unless writing the
   * CANCEL/F record failed too, whose NOT_ACCOUNT_EXIST then replaces it.
   */
  function SurfacedCancelError(log: seq<Transaction>, accounts: map<string, Account>,
                               transactionId: string, accountNumber: string, amount: int,
                               yearAgo: int): (r: Option<ErrorCode>)
    ensures r.None? <==> CancelError(log, accounts, transactionId, accountNumber, amount, yearAgo).None?
    ensures r == Some(NOT_ACCOUNT_EXIST) <==> accountNumber !in accounts
    ensures r == Some(TRANSACTION_NOT_FOUND) <==> FreshId(log, transactionId) && accountNumber in accounts
    ensures accountNumber in accounts ==>
      r == CancelError(log, accounts, transactionId, accountNumber, amount, yearAgo)
  {
    var e := CancelError(log, accounts, transactionId, accountNumber, amount, yearAgo);
    if e.Some? && accountNumber !in accounts then Some(NOT_ACCOUNT_EXIST) else e
  }

  /**
   * An unknown transaction on an unknown account surfaces NOT_ACCOUNT_EXIST,
   * although the service itself reported TRANSACTION_NOT_FOUND.
   */
  lemma CompensationErrorReplacesCause(log: seq<Transaction>, accounts: map<string, Account>,
                                       transactionId: string, accountNumber: string, amount: int,
                                       yearAgo: int)
    requires FreshId(log, transactionId) && accountNumber !in accounts
    ensures CancelError(log, accounts, transactionId, accountNumber, amount, yearAgo) == Some(TRANSACTION_NOT_FOUND)
    ensures SurfacedCancelError(log, accounts, transactionId, accountNumber, amount, yearAgo) == Some(NOT_ACCOUNT_EXIST)
  {
  }

  class TransactionController {
    const service: TransactionService

    constructor (service: TransactionService)
      ensures this.service == service
    {
      this.service := service;
    }

    /**
     * POST /transaction/use. The service call stands outside the `try`, and
     * nothing inside the `try` throws an AccountException, so a failed use
     * propagates its error and writes no USE/F record.
     */
    method UseBalance(userId: int, accountNumber: string, amount: int, now: int, uuid: string)
      returns (r: Result<Transaction, ErrorCode>)
      requires service.Valid()
      requires IsUuidText(uuid) && FreshId(service.log, StripHyphens(uuid))
      modifies service
      ensures service.Valid() && service.users == old(service.users)
      ensures r.Failure? <==>
        UseError(old(service.users), old(service.accounts), userId, accountNumber, amount).Some?
      ensures r.Failure? ==>
        r.error == UseError(old(service.users), old(service.accounts), userId, accountNumber, amount).value &&
        service.accounts == old(service.accounts) && service.log == old(service.log)
      ensures r.Success? ==>
        accountNumber in old(service.accounts) &&
        var before := old(service.accounts)[accountNumber];
        service.accounts == old(service.accounts)[accountNumber := before.(balance := before.balance - amount)] &&
        r.value == Transaction(StripHyphens(uuid), USE, S, before.id, accountNumber, amount,
                               before.balance - amount, now) &&
        service.log == old(service.log) + [r.value]
    {
      r := service.UseBalance(userId, accountNumber, amount, now, uuid);
    }

    /**
     * POST /transaction/cancel. When the service's cancel fails, the
     * controller writes a CANCEL/F record in a separate storage transaction
     * (which the cancel's rollback does not undo) and rethrows; if that write
     * fails too, its NOT_ACCOUNT_EXIST is what escapes. A successful cancel
     * writes no failure record.
     */
    method CancelBalance(transactionId: string, accountNumber: string, amount: int,
                         now: int, yearAgo: int, uuid: string, failureUuid: string)
      returns (r: Result<Transaction, ErrorCode>)
      requires service.Valid()
      requires yearAgo < now
      requires IsUuidText(uuid) && FreshId(service.log, StripHyphens(uuid))
      requires IsUuidText(failureUuid) && FreshId(service.log, StripHyphens(failureUuid))
      modifies service
      ensures service.Valid() && service.users == old(service.users)
      ensures r.Failure? <==>
        CancelError(old(service.log), old(service.accounts), transactionId, accountNumber, amount, yearAgo).Some?
      ensures r.Failure? ==>
        Some(r.error) ==
          SurfacedCancelError(old(service.log), old(service.accounts), transactionId, accountNumber, amount, yearAgo) &&
        service.accounts == old(service.accounts)
      ensures r.Failure? && accountNumber in old(service.accounts) ==>
        var account := old(service.accounts)[accountNumber];
        service.log == old(service.log) +
          [Transaction(StripHyphens(failureUuid), CANCEL, F, account.id, accountNumber, amount, account.balance, now)]
      ensures r.Failure? && accountNumber !in old(service.accounts) ==> service.log == old(service.log)
      ensures r.Success? ==>
        accountNumber in old(service.accounts) &&
        var before := old(service.accounts)[accountNumber];
        service.accounts == old(service.accounts)[accountNumber := before.(balance := before.balance + amount)] &&
        r.value == Transaction(StripHyphens(uuid), CANCEL, S, before.id, accountNumber, amount,
                               before.balance + amount, now) &&
        service.log == old(service.log) + [r.value]
    {
      r := service.CancelBalance(transactionId, accountNumber, amount, now, yearAgo, uuid);
      if r.Failure? {
        var compensation := service.SaveFailedCancelTransaction(accountNumber, amount, now, failureUuid);
        if compensation.Fail? {
          r := Failure(compensation.error);
        }
      }
    }

    /** GET /transaction/{transactionId}: delegates to the service and changes nothing. */
    method QueryTransaction(transactionId: string) returns (r: Result<Transaction, ErrorCode>)
      requires service.Valid()
      ensures r.Success? <==> !FreshId(service.log, transactionId)
      ensures r.Success? ==> r.value in service.log && r.value.transactionId == transactionId
      ensures r.Success? ==>
        forall i :: 0 <= i < |service.log| && service.log[i].transactionId == transactionId ==> service.log[i] == r.value
      ensures r.Failure? ==> r.error == TRANSACTION_NOT_FOUND
    {
      r := service.QueryTransaction(transactionId);
    }
  }
}
