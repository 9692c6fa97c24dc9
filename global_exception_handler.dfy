/**
 * The global exception handler: every exception that escapes a controller
 * becomes an error body carrying an error code and a message.
 */
module Exceptions {
  import opened Wrappers
  import opened ErrorCodes

  /**
   * The three classes of exception the handler tells apart: the service's
   * own AccountException (a code and its message), a request-validation
   * failure (MethodArgumentNotValidException) and anything else.
   */
  datatype Exception =
    | AccountException(errorCode: ErrorCode, errorMessage: string)
    | MethodArgumentNotValidException(message: string)
    | OtherException(message: string)

  /** The error body sent back to the caller. */
  datatype ErrorResponse = ErrorResponse(errorCode: ErrorCode, errorMessage: string)

  /**
   * What the service throws for an error code: an AccountException whose
   * message is the code's description.
   */
  function Raise(c: ErrorCode): (e: Exception)
    ensures e.AccountException? && e.errorCode == c
    ensures FindByDescription(AllCodes, e.errorMessage) == Some(c)
  {
    DescriptionIdentifiesCode(c);
    AccountException(c, Description(c))
  }

  /**
   * Dispatch to the most specific of the three handlers. An
   * AccountException keeps its own code and message; a validation failure
   * is reported as INTERNAL_SERVER_ERROR with the exception's own message
   * (not as INVALID_REQUEST); anything else as INTERNAL_SERVER_ERROR with
   * that code's fixed description.
   */
  function Handle(e: Exception): (r: ErrorResponse)
    ensures e.AccountException? ==> r.errorCode == e.errorCode && r.errorMessage == e.errorMessage
    ensures !e.AccountException? ==> r.errorCode == INTERNAL_SERVER_ERROR
    ensures e.MethodArgumentNotValidException? ==> r.errorMessage == e.message
    ensures e.OtherException? ==> r.errorMessage == Description(INTERNAL_SERVER_ERROR)
  {
    match e
    case AccountException(code, message) => ErrorResponse(code, message)
    case MethodArgumentNotValidException(message) => ErrorResponse(INTERNAL_SERVER_ERROR, message)
    case OtherException(_) => ErrorResponse(INTERNAL_SERVER_ERROR, Description(INTERNAL_SERVER_ERROR))
  }

  /**
   * The response carries a code other than INTERNAL_SERVER_ERROR only for an
   * AccountException, and then it is that exception's own code.
   */
  lemma HandleCodeIsOwnOrInternal(e: Exception)
    ensures Handle(e).errorCode != INTERNAL_SERVER_ERROR ==> e.AccountException? && Handle(e).errorCode == e.errorCode
    ensures !e.AccountException? ==> Handle(e).errorCode == INTERNAL_SERVER_ERROR
  {
  }

  /**
   * An error code raised by the service reaches the caller unchanged, and the
   * message alone identifies it.
   */
  lemma RaisedCodeRoundTrip(c: ErrorCode)
    ensures Handle(Raise(c)).errorCode == c
    ensures FindByDescription(AllCodes, Handle(Raise(c)).errorMessage) == Some(c)
  {
  }

  /**
   * INVALID_REQUEST reaches a response only if some code explicitly raises
   * it: request validation failures never produce it.
   */
  lemma InvalidRequestOnlyWhenRaised(e: Exception)
    ensures Handle(e).errorCode == INVALID_REQUEST ==> e == AccountException(INVALID_REQUEST, e.errorMessage)
  {
  }
}
