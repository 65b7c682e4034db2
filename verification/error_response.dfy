/** The structured error the service returns for every non-success response,
    and the fixed error-code enumeration (idam/error_response.go). */
module ErrorResponses {
  import opened Wrappers

  newtype uint16 = x: int | 0 <= x < 0x1_0000

  /** The `{ error_code, error_message, error_details }` body. */
  datatype ErrorResponse = ErrorResponse(code: uint16, message: string, details: seq<string>)
  {
    /** The error text callers see: the message alone. */
    function Error(): (text: string)
      ensures text == message
    {
      message
    }
  }

  /** An error with a code and a message and no details. */
  function NewErrorResponse(code: uint16, message: string): (e: ErrorResponse)
    ensures e.code == code && e.message == message && e.details == []
  {
    ErrorResponse(code, message, [])
  }

  /** An error with a code, a message and details kept in argument order. */
  function NewDetailedErrorResponse(code: uint16, message: string, details: seq<string>): (e: ErrorResponse)
    ensures e.code == code && e.message == message && e.details == details
  {
    ErrorResponse(code, message, details)
  }

  /** The error for an unexpected server failure. */
  function NewUnhandledErrorResponse(): (e: ErrorResponse)
    ensures e.code == 1 && e.message == "an unhandled/unexpected error occured" && e.details == []
    ensures e.Error() == UnhandledErrorMessage
  {
    ErrorResponse(UnhandledError, UnhandledErrorMessage, [])
  }

  const UnhandledError: uint16 := 1
  const UnhandledErrorMessage: string := "an unhandled/unexpected error occured"
  const RequestPayloadInvalid: uint16 := 5
  const RequestBodyInvalidMessage: string := "the request body could not be parsed"
  const RequestValidationFailure: uint16 := 10
  const RequestValidationFailureMessage: string := "request validation failure"
  const ApplicationNotFound: uint16 := 15
  const ApplicationNotFoundMessage: string := "application not found"
  const InvalidCredentials: uint16 := 20
  const InvalidCredentialsMessage: string := "invalid credentials"
  const DataConflict: uint16 := 25
  const DataConflictMessage: string := "data conflict"
  const UserNotVerified: uint16 := 30
  const UserNotVerifiedMessage: string := "user not verified"
  const InvalidAuthToken: uint16 := 35
  const InvalidAuthTokenMessage: string := "invalid or malformed authorization token"
  const AccessDenied: uint16 := 40
  const AccessDeniedMessage: string := "access denied"
  const InvalidUserVerficationToken: uint16 := 45
  const InvalidUserVerficationTokenMessage: string := "invalid verification code"
  const UserNotFound: uint16 := 50
  const UserNotFoundMessage: string := "user not found"
  const InvalidPasswordResetToken: uint16 := 55
  const InvalidPasswordResetTokenMessage: string := "invalid password reset token"
  const InvalidPasswordResetVerificationCode: uint16 := 60
  const InvalidPasswordResetVerificationCodeMessage: string := "invalid password reset verification code"
  const InvalidRequestHeaders: uint16 := 65
  const InvalidRequestHeadersMessage: string := "invalid or missing request headers"
  const AuthTokenExpired: uint16 := 70
  const AuthTokenExpiredMessage: string := "authorization token expired"
  const UserAccountLockout: uint16 := 75
  const UserAccountLockoutMessage: string := "user account lockout due to too many failed login attempts"

  /** Each error code paired with its own message constant, in declaration order. */
  const ErrorCodeTable: seq<(uint16, string)> :=
    [ (UnhandledError, UnhandledErrorMessage),
      (RequestPayloadInvalid, RequestBodyInvalidMessage),
      (RequestValidationFailure, RequestValidationFailureMessage),
      (ApplicationNotFound, ApplicationNotFoundMessage),
      (InvalidCredentials, InvalidCredentialsMessage),
      (DataConflict, DataConflictMessage),
      (UserNotVerified, UserNotVerifiedMessage),
      (InvalidAuthToken, InvalidAuthTokenMessage),
      (AccessDenied, AccessDeniedMessage),
      (InvalidUserVerficationToken, InvalidUserVerficationTokenMessage),
      (UserNotFound, UserNotFoundMessage),
      (InvalidPasswordResetToken, InvalidPasswordResetTokenMessage),
      (InvalidPasswordResetVerificationCode, InvalidPasswordResetVerificationCodeMessage),
      (InvalidRequestHeaders, InvalidRequestHeadersMessage),
      (AuthTokenExpired, AuthTokenExpiredMessage),
      (UserAccountLockout, UserAccountLockoutMessage) ]

  /** The message paired with the first entry carrying `code`, if any. */
  function Lookup(table: seq<(uint16, string)>, code: uint16): (m: Option<string>)
    ensures m.None? <==> forall i :: 0 <= i < |table| ==> table[i].0 != code
    ensures m.Some? ==> exists i :: 0 <= i < |table| && table[i] == (code, m.value)
  {
    if table == [] then None
    else if table[0].0 == code then Some(table[0].1)
    else Lookup(table[1..], code)
  }

  /** The message of a known error code. */
  function MessageFor(code: uint16): (m: Option<string>)
  {
    Lookup(ErrorCodeTable, code)
  }

  /** The codes are 1 and then the multiples of five from 5 to 75, in order. */
  lemma ErrorCodeValues()
    ensures |ErrorCodeTable| == 16
    ensures ErrorCodeTable[0].0 == 1
    ensures forall i :: 1 <= i < |ErrorCodeTable| ==> ErrorCodeTable[i].0 as int == 5 * i
  {
  }

  /** No two entries share a code. */
  lemma ErrorCodesDistinct()
    ensures forall i, j :: 0 <= i < j < |ErrorCodeTable| ==> ErrorCodeTable[i].0 != ErrorCodeTable[j].0
  {
    ErrorCodeValues();
  }

  /** Looking up an entry's code in a table with distinct codes gives that
      entry's message. */
  lemma {:induction false} LookupDistinct(table: seq<(uint16, string)>, i: nat)
    requires i < |table|
    requires forall a, b :: 0 <= a < b < |table| ==> table[a].0 != table[b].0
    ensures Lookup(table, table[i].0) == Some(table[i].1)
  {
    if i > 0 {
      assert table[0].0 != table[i].0;
      assert table[1..][i - 1] == table[i];
      LookupDistinct(table[1..], i - 1);
    }
  }

  /** The code-to-message table is a function: each code yields exactly its
      own message, and codes outside the enumeration yield none. */
  lemma MessageForIsTable(code: uint16)
    ensures forall i :: 0 <= i < |ErrorCodeTable| ==> MessageFor(ErrorCodeTable[i].0) == Some(ErrorCodeTable[i].1)
    ensures MessageFor(code).None? <==> forall i :: 0 <= i < |ErrorCodeTable| ==> ErrorCodeTable[i].0 != code
  {
    ErrorCodesDistinct();
    forall i | 0 <= i < |ErrorCodeTable|
      ensures MessageFor(ErrorCodeTable[i].0) == Some(ErrorCodeTable[i].1)
    {
      LookupDistinct(ErrorCodeTable, i);
    }
  }

  /** Error() ignores the code and the details. */
  lemma ErrorIgnoresCodeAndDetails(e: ErrorResponse, code: uint16, details: seq<string>)
    ensures e.(code := code, details := details).Error() == e.Error() == e.message
  {
  }
}
