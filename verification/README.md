# idamlib in Dafny

A model of the decision logic of idamlib, the Go client library for the
IDAM (identity and access management) service. The model covers three parts:

- **Credential validation.** These are the `Validate` methods of the registration, login and
  password-reset requests. Each one runs a named field through an ordered list of
  string-validation rules and collects one message per failing rule. Fields are
  checked in a fixed order, and a request is valid exactly when nothing was collected.
  Registration and reset execution apply the full ten-rule password policy;
  login only checks that a password is present.
- **The error record.** This is `ErrorResponse` with its constructors, `Error()` and the
  sixteen error codes with their messages.
- **The user-account client.** `UserAuthClient` builds each request: method, endpoint path
  with the application id substituted, headers and body, with the Bearer prefix added
  to the logout token. It then turns the reply into exactly one of four outcomes:
  success, the service's own `ErrorResponse`, a decoding failure, or a transport failure.

Files, one module each:

| file | module | source |
|---|---|---|
| `wrappers.dfy` | `Wrappers` | the `Option` type |
| `strval.dfy` | `Strval` | the rule engine the validators call |
| `constants.dfy` | `Constants` | `idam/constants.go` |
| `credential_policy.dfy` | `CredentialPolicy` | the field names and rule lists of the validators, with their meaning |
| `registration.dfy` | `Registration` | `registration.go` |
| `login.dfy` | `Login` | `login.go` |
| `pw_reset.dfy` | `PasswordReset` | `idam/pw_reset.go` |
| `error_response.dfy` | `ErrorResponses` | `idam/error_response.go` |
| `user_auth_client.dfy` | `AuthClient` | `idam/user_auth_client.go` |

How the model is built:

- **Validation messages** are values `Message(field, rule)`: the field name and the failing rule.
- **Validators.** The two imperative validators (registration and login) are methods that
  accumulate into a local sequence. Each is proved equal to a specification function that
  concatenates the per-field blocks. The two password-reset validators are functions.
- **Client operations** are methods of the `UserAuthClient` class. The class holds the base
  URL as an immutable field. Each operation receives the network exchange as a `transport`
  function and returns the request it sent together with its `Outcome`.

## Model

| member | source | states |
|---|---|---|
| `Strval.Holds` | registration.go:57-67 | the meaning of each rule, named after its constructor; the empty value fails exactly the rules that demand content (non-empty, a positive minimum length, a required character or class, the email format) |
| `Strval.Failures` | registration.go:32-36 | a field yields at most one message per rule |
| `Strval.ValidateStringWithName` | registration.go:32-40 | a field result is valid iff it has no messages iff every rule holds of the value; its messages are the field's failures, one per failing rule in rule order, each carrying the field's name |
| `Strval.FailuresSound` | registration.go:38-40 | every collected message names the field and a listed rule that the value fails |
| `Strval.FailuresEmptyIff` | registration.go:73-77 | no message is collected exactly when every rule holds |
| `Strval.FailuresSkip` | registration.go:57-67 | a rule that holds contributes nothing |
| `Strval.FailuresKeep` | registration.go:57-67 | a rule that fails contributes its message ahead of the later rules' messages |
| `Strval.FailuresAppend` | registration.go:57-67 | the messages of a concatenated rule list are the first list's messages followed by the second's |
| `Strval.FailuresComplete` | registration.go:57-67 | no short-circuit: every failing rule's message is present, whatever the earlier rules did |
| `Strval.FailuresInRuleOrder` | registration.go:57-67 | two failing rules report in the order they are listed |
| `Strval.FailuresRename` | idam/pw_reset.go:24-34 | the field name only labels messages: under any name the same rules fail, in the same order |
| `Constants.SpecialCharacterSets` | idam/constants.go:10-12 | the allowed set has 25 characters, the escaped backslash among them as one character; the disallowed set is exactly `"` `'` `` ` `` `~` `<` `>` `;` |
| `Constants.LengthWindowNonEmpty` | idam/constants.go:6-8 | 0 < minimum length (8) < maximum length (64) |
| `Constants.SpecialSetsDisjoint` | idam/constants.go:10-12 | no allowed special character is disallowed |
| `Constants.SpecialSetsPrintableAscii` | idam/constants.go:10-12 | every special character is printable ASCII and neither a letter nor a digit |
| `CredentialPolicy.UsernamePolicyMeaning` | registration.go:32-36 | the username rules accept exactly the alphanumeric strings of 3 to 20 characters |
| `CredentialPolicy.EmailPolicyMeaning` | registration.go:44-46 | the email rules accept exactly the non-empty well-formed addresses |
| `CredentialPolicy.PresencePolicyMeaning` | login.go:24 | the login password rule accepts exactly the non-empty strings |
| `CredentialPolicy.PasswordPolicyMeaning` | registration.go:57-67 | the ten password rules accept exactly the passwords of 8 to 64 printable ASCII characters that hold an allowed special character, a digit, an upper-case and a lower-case letter, and no disallowed character |
| `CredentialPolicy.PasswordLengthOutsideWindowFails` | registration.go:59-60 | a password shorter than 8 reports the minimum-length rule; one longer than 64 reports the maximum-length rule |
| `CredentialPolicy.DisallowedCharacterFails` | registration.go:62 | a disallowed character is reported and makes the password unacceptable, whatever else holds |
| `CredentialPolicy.PasswordPositiveControl` | registration.go:57-67 | `Abcdef1!` meets every password rule |
| `CredentialPolicy.EmptyPasswordMessages` | registration.go:57-67 | the empty password reports exactly, in order: non-empty, minimum length, allowed special, digit, upper case, lower case |
| `CredentialPolicy.UsernameAndEmailExamples` | registration.go:32-46 | `ab` and `abc_def` are refused as usernames and `User123` is accepted; `not-an-email` is refused and `user@example.com` accepted |
| `Registration.Validate` | registration.go:27-78 | the collected messages are the username block, then the email block, then the password block; the result is valid iff nothing was collected iff all three fields are acceptable |
| `Registration.RegistrationAcceptableIff` | registration.go:73-77 | a request yields no message exactly when username, email and password are all acceptable |
| `Registration.RegistrationMessagesOrdered` | registration.go:38-71 | username messages precede email messages, which precede password messages |
| `Registration.RegistrationRankAt` | registration.go:38-71 | the k-th message belongs to the field whose block k falls in |
| `Registration.RegistrationReportsEveryFailure` | registration.go:32-71 | every rule any field fails is reported: a bad username suppresses neither the email nor the password messages |
| `Registration.RegistrationRejectsDisallowedCharacter` | registration.go:62-71 | a disallowed password character yields its message and an invalid request |
| `Login.Validate` | login.go:20-42 | the collected messages are the password block, then the email block; the result is valid iff nothing was collected iff the password is non-empty and the email acceptable |
| `Login.LoginAcceptableIff` | login.go:37-41 | a login request yields no message exactly when the password is present and the email acceptable |
| `Login.LoginPasswordPresenceOnly` | login.go:24-28 | a present password never yields a message; an absent one yields exactly the non-empty message, before the email messages |
| `Login.LoginMessagesOrdered` | login.go:24-35 | password messages precede email messages, and every failing email rule is reported even when the password is missing |
| `Login.WeakPasswordAcceptedAtLoginOnly` | login.go:24 | the password `a` passes login validation and fails registration, whatever the username |
| `PasswordReset.ValidateExecution` | idam/pw_reset.go:18-41 | valid iff no errors iff the new password meets the full policy; the errors are exactly the `new_password` field's messages, one per failing password rule, in rule order |
| `PasswordReset.ValidateInitiation` | idam/pw_reset.go:48-59 | valid iff no errors iff the email is acceptable; the errors are exactly the `email` field's messages, one per failing email rule, in rule order, each naming a rule the email fails |
| `PasswordReset.ExecutionDependsOnlyOnNewPassword` | idam/pw_reset.go:18-34 | user id, reset token and verification code never affect the result |
| `PasswordReset.ExecutionMatchesRegistrationPassword` | idam/pw_reset.go:24-40 | execution fails exactly the password rules registration fails, in the same order, reported under `new_password` |
| `ErrorResponses.ErrorResponse.Error` | idam/error_response.go:12-14 | the error text is the message |
| `ErrorResponses.ErrorIgnoresCodeAndDetails` | idam/error_response.go:12-14 | the error text does not depend on the code or the details |
| `ErrorResponses.NewErrorResponse` | idam/error_response.go:18-24 | the given code and message, no details |
| `ErrorResponses.NewDetailedErrorResponse` | idam/error_response.go:28-34 | the given code and message, and the details in argument order |
| `ErrorResponses.NewUnhandledErrorResponse` | idam/error_response.go:37-43 | code 1, message `an unhandled/unexpected error occured`, no details |
| `ErrorResponses.Lookup` | idam/error_response.go:48-97 | a code is absent exactly when no entry carries it; a found message is paired with that code in the table |
| `ErrorResponses.ErrorCodeValues` | idam/error_response.go:48-96 | sixteen codes: 1, then 5, 10, ..., 75 |
| `ErrorResponses.ErrorCodesDistinct` | idam/error_response.go:48-96 | no two error codes are equal |
| `ErrorResponses.LookupDistinct` | idam/error_response.go:48-97 | in a table with distinct codes, each entry's code yields that entry's message |
| `ErrorResponses.MessageForIsTable` | idam/error_response.go:48-97 | each code yields exactly its own message constant; codes outside the enumeration yield none |
| `AuthClient.MethodOf` | idam/user_auth_client.go:65-385 | PUT exactly for account verification and reset execution (lines 203 and 385), POST for the other four operations (lines 65, 134, 258 and 324) |
| `AuthClient.ExpectedStatus` | idam/user_auth_client.go:82 | success statuses are 2xx: 201 exactly for registration, 204 exactly for the PUT operations, 200 for the other POST operations |
| `AuthClient.IndexFrom` | idam/user_auth_client.go:39 | the first occurrence of a pattern at or after a position, or none |
| `AuthClient.IndexOf` | idam/user_auth_client.go:39 | the first occurrence of a pattern, or none when there is none |
| `AuthClient.ReplaceFirst` | idam/user_auth_client.go:39 | strings.Replace with a count of 1: with no occurrence the string is unchanged; otherwise the first occurrence, and only it, is replaced |
| `AuthClient.ReplaceFirstAfterPrefix` | idam/user_auth_client.go:39 | when the prefix does not contain the placeholder's first character, the first occurrence is right after the prefix, and replacing it gives prefix + replacement + suffix, whatever the replacement and the suffix contain |
| `AuthClient.PlaceholderExactlyOnce` | idam/user_auth_client.go:21-26 | every application template holds `:appId` exactly once, right after the common prefix; the logout template holds none |
| `AuthClient.ResolvePath` | idam/user_auth_client.go:39 | an application path is `/api/idam/user-account/applications/` + appId + the endpoint name, so an appId containing `:appId` is not expanded again; logout's path is its template |
| `AuthClient.BearerHeader` | idam/user_auth_client.go:263-266 | the value starts with `Bearer `; a prefixed token is kept unchanged, any other token gets the prefix |
| `AuthClient.BearerHeaderIdempotent` | idam/user_auth_client.go:263-266 | normalising twice is normalising once |
| `AuthClient.BearerHeaderCaseSensitive` | idam/user_auth_client.go:264 | `bearer x` becomes `Bearer bearer x` |
| `AuthClient.Interpret` | idam/user_auth_client.go:74-103 | a transport failure is passed on before any status check; an unexpected status yields the decoded ErrorResponse verbatim or an error-body decode failure; the expected status yields the decoded payload or the operation's own decode failure |
| `AuthClient.InterpretVoid` | idam/user_auth_client.go:213-233 | the same mapping for operations without payload, where the expected status succeeds without reading the body |
| `AuthClient.VoidAndTypedFailAlike` | idam/user_auth_client.go:220-230 | operations with and without payload fail identically; they differ only once the expected status arrived |
| `AuthClient.DecodeFailuresDistinct` | idam/user_auth_client.go:89-100 | an error-body decode failure is never mistaken for a payload decode failure |
| `AuthClient.Dispatch` | idam/user_auth_client.go:82-103 | reading a reply step by step yields the outcome Interpret specifies |
| `AuthClient.DispatchVoid` | idam/user_auth_client.go:220-233 | reading a reply without payload yields the outcome InterpretVoid specifies |
| `AuthClient.UserAuthClient.constructor` | idam/user_auth_client.go:30-35 | the client keeps the base URL it is given |
| `AuthClient.UserAuthClient.Register` | idam/user_auth_client.go:38-104 | a POST of the request as JSON to `.../applications/<appId>/register`, expecting 201, with the outcome Interpret gives |
| `AuthClient.UserAuthClient.Login` | idam/user_auth_client.go:107-173 | a POST of the request as JSON to `.../applications/<appId>/login`, expecting 200, with the outcome Interpret gives |
| `AuthClient.UserAuthClient.VerifyAccount` | idam/user_auth_client.go:176-234 | a PUT of the request as JSON to `.../applications/<appId>/verify-account`, expecting 204 |
| `AuthClient.UserAuthClient.Logout` | idam/user_auth_client.go:238-294 | a POST to the logout path with no body, whose only header is Authorization carrying the Bearer-normalised token; expects 200 |
| `AuthClient.UserAuthClient.InitiatePasswordReset` | idam/user_auth_client.go:297-355 | a POST of the request as JSON to `.../applications/<appId>/initiate-password-reset`, expecting 200 |
| `AuthClient.UserAuthClient.ExecutePasswordReset` | idam/user_auth_client.go:358-416 | a PUT of the request as JSON to `.../applications/<appId>/execute-password-reset`, expecting 204 |

## Left out

- **The strval library** is not part of this model. Each rule is given the meaning its name states.
  - Its message text is not modelled: a message is the pair (field, rule).
  - Its email-format check is a stand-in: a non-empty local part, `@`, and a domain containing a dot. `CredentialPolicy.UsernameAndEmailExamples` and `Login.WeakPasswordAcceptedAtLoginOnly` depend on the stand-in accepting `user@example.com`, and the empty-value postcondition of `Strval.Holds` needs it to reject the empty string; everything else holds for any email predicate.
- **Character classes.** Letters, digits, upper and lower case, and printability are the ASCII ranges of Go's Unicode classes. Non-ASCII letters are therefore not treated as letters.
  - Printability here excludes only control characters, so Unicode separators and unassigned code points count as printable.
  - A password with such characters fails the ASCII-only rule either way.
- **Validator result type.** The validators return `(valid, messages)` with structured messages instead of `[]string`. Go's `nil` versus empty slice is not distinguished. The same holds for `ErrorResponse.Details`: `NewDetailedErrorResponse` called with no details stores `nil` (serialised as `null`) while `NewErrorResponse` stores an empty slice (serialised as `[]`); both are the empty sequence here.
- **Transport.** `http.Client`, `http.NewRequest`, `url.Parse`, `ResolveReference`, JSON encoding and decoding, and `Body.Close` are one `transport` function per call. It returns either a failure reason or the status code with the body decoded both ways.
  - The client's `httpClient` field is therefore not stored.
  - Each error path before the status check (URL parse, marshal, request construction, send) is one `TransportFailure`.
  - A decoder's own error text is the `reason` of `Undecodable`.
- **Response time field.** The `CreatedAtUTC` field of the registration response is not modelled. It is a `time.Time`, opaque payload data.
- `user.go` is not part of this model: it is a data declaration without behaviour.
- **Verification request.** `UserAccountVerificationRequest` is not part of this model. `AuthClient.UserAuthClient.VerifyAccount` passes its body through unchanged.
- **Integer widths.** `ExpiresIn` is an `int64` in the source and an unbounded `int` here. Error codes are a `uint16` newtype.
- **Unhandled-error code.** The comment at idam/error_response.go:47 says the unhandled-error code is 0, while the constant is 1. The model follows the constant.
- **Template constants.** The endpoint templates are written as the common prefix + `:appId` + the endpoint name. These are the same strings as the source's literals.
- **Concurrency.** Sharing a client between goroutines is not modelled. The client's fields are set only at construction.
