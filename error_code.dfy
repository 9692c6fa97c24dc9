/**
 * The error taxonomy of the account service: the `ErrorCode` enum, each
 * constant with its fixed description.
 */
module ErrorCodes {
  import opened Wrappers

  /**
   * The twelve declared constants, in declaration order and with the
   * source's spellings, followed by INTERNAL_SERVER_ERROR. The exception
   * handler refers to INTERNAL_SERVER_ERROR although the enum does not
   * declare it; it is modelled as a thirteenth constant.
   */
  datatype ErrorCode =
    | USER_NOT_FOUND
    | MAX_ACCOUNT_PER_USER_10
    | NOT_ACCOUNT_EXIST
    | USER_ACCOUNT_UNMACH
    | ACCOUNT_ALREADY_UNREGISTERD
    | BALANCE_NOT_EMPTY
    | AMOUNT_EXCEED_BALANCE
    | TRANSACTION_NOT_FOUND
    | TRANSACTION_ACCOUNT_UN_MATCH
    | CANCEL_MUST_FULLY
    | TOO_OLD_FOR_CANCEL
    | INVALID_REQUEST
    | INTERNAL_SERVER_ERROR

  /** The constants the enum declares, in declaration order. */
  const Declared: seq<ErrorCode> := [
    USER_NOT_FOUND, MAX_ACCOUNT_PER_USER_10, NOT_ACCOUNT_EXIST, USER_ACCOUNT_UNMACH,
    ACCOUNT_ALREADY_UNREGISTERD, BALANCE_NOT_EMPTY, AMOUNT_EXCEED_BALANCE,
    TRANSACTION_NOT_FOUND, TRANSACTION_ACCOUNT_UN_MATCH, CANCEL_MUST_FULLY,
    TOO_OLD_FOR_CANCEL, INVALID_REQUEST
  ]

  /** `getDescription()`: the fixed human-readable text of each constant. */
  function Description(c: ErrorCode): (d: string)
    ensures |d| > 0
  {
    match c
    case USER_NOT_FOUND => "사용자가 없습니다"
    case MAX_ACCOUNT_PER_USER_10 => "계좌는 최대 10개입니다"
    case NOT_ACCOUNT_EXIST => "해당 계좌가 존재하지 않습니다"
    case USER_ACCOUNT_UNMACH => "사용자와 계좌의 소유자가 다릅니다"
    case ACCOUNT_ALREADY_UNREGISTERD => "계좌가 이미 해지되었습니다"
    case BALANCE_NOT_EMPTY => "잔액이 있는 게좌를 해지할 수 없습니다"
    case AMOUNT_EXCEED_BALANCE => "거래금액이 계좌잔액보다 큽니다"
    case TRANSACTION_NOT_FOUND => "해당 거래내역이 없습니다"
    case TRANSACTION_ACCOUNT_UN_MATCH => "해당 거래의 사용자와 요청자가 다릅니다"
    case CANCEL_MUST_FULLY => "부분 취소는 허용되지 않습니다"
    case TOO_OLD_FOR_CANCEL => "1년이상 지난 거래는 취소되지 않습니다"
    case INVALID_REQUEST => "불가능한 요청입니다"
    // Not declared by the enum, so its text is not given; any text distinct
    // from the twelve others serves.
    case INTERNAL_SERVER_ERROR => "internal server error"
  }

  /** A character that may appear in the spelling of an enum constant. */
  predicate IsConstantChar(ch: char) {
    'A' <= ch <= 'Z' || '0' <= ch <= '9' || ch == '_'
  }

  /** `name()`: the constant's spelling, which is what the error body carries. */
  function Name(c: ErrorCode): (s: string)
    ensures |s| > 0 && 'A' <= s[0] <= 'Z'
    ensures forall ch :: ch in s ==> IsConstantChar(ch)
  {
    match c
    case USER_NOT_FOUND => "USER_NOT_FOUND"
    case MAX_ACCOUNT_PER_USER_10 => "MAX_ACCOUNT_PER_USER_10"
    case NOT_ACCOUNT_EXIST => "NOT_ACCOUNT_EXIST"
    case USER_ACCOUNT_UNMACH => "USER_ACCOUNT_UNMACH"
    case ACCOUNT_ALREADY_UNREGISTERD => "ACCOUNT_ALREADY_UNREGISTERD"
    case BALANCE_NOT_EMPTY => "BALANCE_NOT_EMPTY"
    case AMOUNT_EXCEED_BALANCE => "AMOUNT_EXCEED_BALANCE"
    case TRANSACTION_NOT_FOUND => "TRANSACTION_NOT_FOUND"
    case TRANSACTION_ACCOUNT_UN_MATCH => "TRANSACTION_ACCOUNT_UN_MATCH"
    case CANCEL_MUST_FULLY => "CANCEL_MUST_FULLY"
    case TOO_OLD_FOR_CANCEL => "TOO_OLD_FOR_CANCEL"
    case INVALID_REQUEST => "INVALID_REQUEST"
    case INTERNAL_SERVER_ERROR => "INTERNAL_SERVER_ERROR"
  }

  /** Every constant: the declared ones and the extra one. */
  const AllCodes: seq<ErrorCode> := Declared + [INTERNAL_SERVER_ERROR]

  /** `ordinal()`: the constant's position in declaration order. */
  function Ordinal(c: ErrorCode): (n: nat)
    ensures n < |AllCodes| && AllCodes[n] == c
    ensures c != INTERNAL_SERVER_ERROR ==> n < |Declared| && Declared[n] == c
  {
    match c
    case USER_NOT_FOUND => 0
    case MAX_ACCOUNT_PER_USER_10 => 1
    case NOT_ACCOUNT_EXIST => 2
    case USER_ACCOUNT_UNMACH => 3
    case ACCOUNT_ALREADY_UNREGISTERD => 4
    case BALANCE_NOT_EMPTY => 5
    case AMOUNT_EXCEED_BALANCE => 6
    case TRANSACTION_NOT_FOUND => 7
    case TRANSACTION_ACCOUNT_UN_MATCH => 8
    case CANCEL_MUST_FULLY => 9
    case TOO_OLD_FOR_CANCEL => 10
    case INVALID_REQUEST => 11
    case INTERNAL_SERVER_ERROR => 12
  }

  /** The first constant in `codes` whose description is `d`, if any. */
  function FindByDescription(codes: seq<ErrorCode>, d: string): (r: Option<ErrorCode>)
    ensures r.Some? ==> r.value in codes && Description(r.value) == d
    ensures r.None? <==> forall i :: 0 <= i < |codes| ==> Description(codes[i]) != d
  {
    if codes == [] then None
    else if Description(codes[0]) == d then Some(codes[0])
    else FindByDescription(codes[1..], d)
  }

  /** The first constant in `codes` whose spelling is `s`, if any (`valueOf`). */
  function FindByName(codes: seq<ErrorCode>, s: string): (r: Option<ErrorCode>)
    ensures r.Some? ==> r.value in codes && Name(r.value) == s
    ensures r.None? <==> forall i :: 0 <= i < |codes| ==> Name(codes[i]) != s
  {
    if codes == [] then None
    else if Name(codes[0]) == s then Some(codes[0])
    else FindByName(codes[1..], s)
  }

  /**
   * The enum declares exactly twelve constants, pairwise distinct, and
   * every constant but INTERNAL_SERVER_ERROR is among them.
   */
  lemma DeclaredCodes()
    ensures |Declared| == 12
    ensures forall i, j :: 0 <= i < j < |Declared| ==> Declared[i] != Declared[j]
    ensures forall c: ErrorCode :: c in Declared <==> c != INTERNAL_SERVER_ERROR
  {
  }

  /** Search by description finds the first constant carrying it. */
  lemma {:induction false} FindByDescriptionFirst(codes: seq<ErrorCode>, i: nat)
    requires i < |codes|
    requires forall j :: 0 <= j < i ==> Description(codes[j]) != Description(codes[i])
    ensures FindByDescription(codes, Description(codes[i])) == Some(codes[i])
  {
    if i > 0 {
      FindByDescriptionFirst(codes[1..], i - 1);
    }
  }

  /** Descriptions are pairwise distinct: the text identifies the constant. */
  lemma DescriptionIdentifiesCode(c: ErrorCode)
    ensures FindByDescription(AllCodes, Description(c)) == Some(c)
  {
    FindByDescriptionFirst(AllCodes, Ordinal(c));
  }

  /** Search by spelling finds the first constant carrying it. */
  lemma {:induction false} FindByNameFirst(codes: seq<ErrorCode>, i: nat)
    requires i < |codes|
    requires forall j :: 0 <= j < i ==> Name(codes[j]) != Name(codes[i])
    ensures FindByName(codes, Name(codes[i])) == Some(codes[i])
  {
    if i > 0 {
      FindByNameFirst(codes[1..], i - 1);
    }
  }

  /** Spellings are pairwise distinct: the error body's name identifies the constant. */
  lemma NameIdentifiesCode(c: ErrorCode)
    ensures FindByName(AllCodes, Name(c)) == Some(c)
  {
    FindByNameFirst(AllCodes, Ordinal(c));
  }
}
