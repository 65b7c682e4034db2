/**
 * The client for the IDAM service's user-account endpoints
 * (idam/user_auth_client.go).
 *
 * The network exchange is not modelled: each operation receives a
 * `transport` function standing for everything between building the request
 * and reading the reply (URL parsing and resolution against the base URL,
 * JSON encoding, sending, receiving). Its result is either a failure reason
 * or the reply's status code with the body as decoded into an ErrorResponse
 * and into the operation's payload type.
 */
module AuthClient {
  import opened Wrappers
  import opened ErrorResponses
  import Registration
  import Login
  import PasswordReset

  /** The application-id placeholder of the endpoint templates. */
  const AppIdPlaceholder: string := ":appId"

  /** The common part of the application templates before the placeholder. */
  const ApplicationsPrefix: string := "/api/idam/user-account/applications/"

  /** The endpoint templates, each spelled as prefix, placeholder and
      endpoint name; the logout template has no placeholder. */
  const UserRegistrationAccountUrlSuffix: string := ApplicationsPrefix + AppIdPlaceholder + "/register"
  const UserLoginUrlSuffix: string := ApplicationsPrefix + AppIdPlaceholder + "/login"
  const UserAccountVerifyAccountUrlSuffix: string := ApplicationsPrefix + AppIdPlaceholder + "/verify-account"
  const UserLogoutUrlSuffix: string := "/api/idam/user-account/logout"
  const InitiateUserPasswordResetUrl: string := ApplicationsPrefix + AppIdPlaceholder + "/initiate-password-reset"
  const ExecuteUserPasswordResetUrl: string := ApplicationsPrefix + AppIdPlaceholder + "/execute-password-reset"

  /** 200 OK, 201 Created and 204 No Content (sections 15.3.1, 15.3.2 and
      15.3.5 of RFC 9110). */
  const StatusOK: int := 200
  const StatusCreated: int := 201
  const StatusNoContent: int := 204

  /** The authentication scheme prefix of section 2.1 of RFC 6750. */
  const BearerPrefix: string := "Bearer "

  const ErrorBodyDecodeFailurePrefix: string := "error decoding response body from idam service - "
  const RegisterPayloadDecodeFailure: string := "error decoding register user response body from idam service"
  const LoginPayloadDecodeFailure: string := "error decoding login user response body from idam service"

  datatype Operation = Register | Login | VerifyAccount | Logout | InitiatePasswordReset | ExecutePasswordReset

  datatype HttpMethod = Post | Put

  datatype Header = Header(name: string, value: string)

  const JsonContentType: Header := Header("Content-Type", "application/json")

  /** The request the client hands to the transport: method, base URL, the
      endpoint path to resolve against it, headers and JSON body. */
  datatype HttpRequest<B> = HttpRequest(verb: HttpMethod, baseUrl: string, path: string, headers: seq<Header>, body: Option<B>)

  /** A body as JSON decoding left it. */
  datatype Decoded<T> = Decoded(value: T) | Undecodable(reason: string)

  /** A reply: its status and its body decoded both ways. */
  datatype HttpResponse<T> = HttpResponse(status: int, asError: Decoded<ErrorResponse>, asPayload: Decoded<T>)

  /** What the transport produced. */
  datatype Exchange<T> = Failed(reason: string) | Received(response: HttpResponse<T>)

  /** What an operation returns: the payload, the service's structured error,
      a body that could not be decoded, or a transport failure. Exactly one,
      so no path returns both a value and an error. */
  datatype Outcome<T> =
    | Success(value: T)
    | ServiceError(error: ErrorResponse)
    | DecodeFailure(message: string)
    | TransportFailure(reason: string)

  /** The endpoint template of each operation. */
  function Template(op: Operation): (template: string)
  {
    match op
    case Register => UserRegistrationAccountUrlSuffix
    case Login => UserLoginUrlSuffix
    case VerifyAccount => UserAccountVerifyAccountUrlSuffix
    case Logout => UserLogoutUrlSuffix
    case InitiatePasswordReset => InitiateUserPasswordResetUrl
    case ExecutePasswordReset => ExecuteUserPasswordResetUrl
  }

  /** The part of an application template after the placeholder. */
  function EndpointSuffix(op: Operation): (suffix: string)
  {
    match op
    case Register => "/register"
    case Login => "/login"
    case VerifyAccount => "/verify-account"
    case Logout => ""
    case InitiatePasswordReset => "/initiate-password-reset"
    case ExecutePasswordReset => "/execute-password-reset"
  }

  /** The HTTP method of each operation. */
  function MethodOf(op: Operation): (m: HttpMethod)
    ensures m == Put <==> op == VerifyAccount || op == ExecutePasswordReset
  {
    match op
    case VerifyAccount => Put
    case ExecutePasswordReset => Put
    case _ => Post
  }

  /** The status each operation treats as success: always a 2xx code, 201
      exactly for registration, 204 exactly for the PUT operations, 200 for
      the other POST operations. */
  function ExpectedStatus(op: Operation): (code: int)
    ensures 200 <= code < 300
    ensures code == StatusCreated <==> op == Register
    ensures code == StatusNoContent <==> MethodOf(op) == Put
    ensures code == StatusOK <==> MethodOf(op) == Post && op != Register
  {
    match op
    case Register => StatusCreated
    case Login => StatusOK
    case VerifyAccount => StatusNoContent
    case Logout => StatusOK
    case InitiatePasswordReset => StatusOK
    case ExecutePasswordReset => StatusNoContent
  }

  /** `pat` occurs in `s` starting at index `i`. */
  predicate OccursAt(s: string, pat: string, i: nat)
  {
    i + |pat| <= |s| && s[i..i + |pat|] == pat
  }

  /** The index of the first occurrence of `pat` in `s` at or after `i`. */
  function IndexFrom(s: string, pat: string, i: nat): (r: Option<nat>)
    requires i <= |s|
    ensures r.Some? ==> i <= r.value && OccursAt(s, pat, r.value)
    ensures r.Some? ==> forall j: nat :: i <= j < r.value ==> !OccursAt(s, pat, j)
    ensures r.None? ==> forall j: nat :: i <= j ==> !OccursAt(s, pat, j)
    decreases |s| - i
  {
    if OccursAt(s, pat, i) then Some(i)
    else if i == |s| then None
    else IndexFrom(s, pat, i + 1)
  }

  /** The index of the first occurrence of `pat` in `s` (strings.Index). */
  function IndexOf(s: string, pat: string): (r: Option<nat>)
    ensures r.Some? ==> OccursAt(s, pat, r.value)
    ensures r.Some? ==> forall j: nat :: j < r.value ==> !OccursAt(s, pat, j)
    ensures r.None? ==> forall j: nat :: !OccursAt(s, pat, j)
  {
    IndexFrom(s, pat, 0)
  }

  /** strings.Replace with a count of 1: the first occurrence of `target`, if
      any, is replaced by `replacement`. */
  function ReplaceFirst(s: string, target: string, replacement: string): (r: string)
    ensures (forall j: nat :: !OccursAt(s, target, j)) ==> r == s
    ensures forall i: nat ::
              OccursAt(s, target, i) && (forall j: nat :: j < i ==> !OccursAt(s, target, j)) ==>
                r == s[..i] + replacement + s[i + |target|..]
  {
    match IndexOf(s, target)
    case None => s
    case Some(i) => s[..i] + replacement + s[i + |target|..]
  }

  /** When the first character of `pat` does not appear in `prefix`, the
      first occurrence in `prefix + pat + suffix` is the one after `prefix`,
      and replacing it leaves `prefix + replacement + suffix` whatever `replacement` and
      `suffix` contain: the inserted text is not scanned again. */
  lemma ReplaceFirstAfterPrefix(prefix: string, pat: string, suffix: string, replacement: string)
    requires pat != [] && pat[0] !in prefix
    ensures IndexOf(prefix + pat + suffix, pat) == Some(|prefix|)
    ensures ReplaceFirst(prefix + pat + suffix, pat, replacement) == prefix + replacement + suffix
  {
    var s := prefix + pat + suffix;
    assert s[|prefix|..|prefix| + |pat|] == pat;
    assert OccursAt(s, pat, |prefix|);
    var r := IndexOf(s, pat);
    assert r.Some?;
    assert r.value == |prefix|;
    assert s[..|prefix|] == prefix;
    assert s[|prefix| + |pat|..] == suffix;
  }

  /** The common prefix holds no ':'. */
  lemma PrefixHasNoColon()
    ensures ':' !in ApplicationsPrefix
  {
  }

  /** Every application template is the common prefix, the placeholder and
      a suffix without ':'. */
  lemma TemplateShape(op: Operation)
    requires op != Logout
    ensures Template(op) == ApplicationsPrefix + AppIdPlaceholder + EndpointSuffix(op)
    ensures ':' !in ApplicationsPrefix && ':' !in EndpointSuffix(op)
  {
    PrefixHasNoColon();
  }

  /** In `a + AppIdPlaceholder + c`, with no ':' in `a` or `c`, the only ':'
      is the placeholder's first character. */
  lemma ColonOnlyAtPlaceholder(a: string, c: string, k: nat)
    requires ':' !in a && ':' !in c
    requires k < |a + AppIdPlaceholder + c| && (a + AppIdPlaceholder + c)[k] == ':'
    ensures k == |a|
  {
  }

  /** Every application template holds the placeholder exactly once, right
      after the common prefix; the logout template holds no placeholder. */
  lemma PlaceholderExactlyOnce(op: Operation)
    ensures op != Logout ==>
              forall j: nat :: OccursAt(Template(op), AppIdPlaceholder, j) <==> j == |ApplicationsPrefix|
    ensures op == Logout ==> forall j: nat :: !OccursAt(Template(op), AppIdPlaceholder, j)
  {
    if op != Logout {
      TemplateShape(op);
      forall j: nat
        ensures OccursAt(Template(op), AppIdPlaceholder, j) <==> j == |ApplicationsPrefix|
      {
        if OccursAt(Template(op), AppIdPlaceholder, j) {
          assert Template(op)[j] == Template(op)[j..j + |AppIdPlaceholder|][0] == ':';
          ColonOnlyAtPlaceholder(ApplicationsPrefix, EndpointSuffix(op), j);
        }
        if j == |ApplicationsPrefix| {
          ReplaceFirstAfterPrefix(ApplicationsPrefix, AppIdPlaceholder, EndpointSuffix(op), "");
        }
      }
    } else {
      assert ':' !in UserLogoutUrlSuffix;
      forall j: nat
        ensures !OccursAt(Template(op), AppIdPlaceholder, j)
      {
        if j + |AppIdPlaceholder| <= |Template(op)| {
          assert Template(op)[j..j + |AppIdPlaceholder|][0] == Template(op)[j];
        }
      }
    }
  }

  /** The endpoint path an operation is sent to: the template with its
      placeholder substituted, except for logout, which uses its template as
      it is. */
  function ResolvePath(op: Operation, appId: string): (path: string)
    ensures op != Logout ==> path == ApplicationsPrefix + appId + EndpointSuffix(op)
    ensures op == Logout ==> path == UserLogoutUrlSuffix
  {
    if op == Logout then UserLogoutUrlSuffix
    else
      TemplateShape(op);
      ReplaceFirstAfterPrefix(ApplicationsPrefix, AppIdPlaceholder, EndpointSuffix(op), appId);
      ReplaceFirst(Template(op), AppIdPlaceholder, appId)
  }

  /** The Authorization header value sent on logout: the token itself when it
      already carries the (case-sensitive) Bearer prefix, the prefixed token
      otherwise. */
  function BearerHeader(token: string): (value: string)
    ensures BearerPrefix <= value
    ensures BearerPrefix <= token ==> value == token
    ensures !(BearerPrefix <= token) ==> value == BearerPrefix + token
  {
    if BearerPrefix <= token then token else BearerPrefix + token
  }

  /** Normalising twice is normalising once. */
  lemma BearerHeaderIdempotent(token: string)
    ensures BearerHeader(BearerHeader(token)) == BearerHeader(token)
  {
  }

  /** The prefix check is case-sensitive. */
  lemma BearerHeaderCaseSensitive()
    ensures BearerHeader("bearer x") == "Bearer bearer x"
  {
    assert "bearer x"[0] != BearerPrefix[0];
  }

  /** The outcome of an operation that returns a payload: a transport failure
      is passed on before any status is looked at; an unexpected status
      yields the decoded ErrorResponse verbatim, or a decoding failure when
      the body is not one; the expected status yields the decoded payload, or
      the operation's own decoding failure. */
  function Interpret<T>(expected: int, exchange: Exchange<T>, payloadFailure: string): (outcome: Outcome<T>)
    ensures outcome.TransportFailure? <==> exchange.Failed?
    ensures outcome.TransportFailure? ==> outcome.reason == exchange.reason
    ensures outcome.Success? <==>
              exchange.Received? && exchange.response.status == expected && exchange.response.asPayload.Decoded?
    ensures outcome.Success? ==> outcome.value == exchange.response.asPayload.value
    ensures outcome.ServiceError? <==>
              exchange.Received? && exchange.response.status != expected && exchange.response.asError.Decoded?
    ensures outcome.ServiceError? ==> outcome.error == exchange.response.asError.value
    ensures outcome.DecodeFailure? && exchange.response.status != expected ==>
              outcome.message == ErrorBodyDecodeFailurePrefix + exchange.response.asError.reason
    ensures outcome.DecodeFailure? && exchange.response.status == expected ==>
              outcome.message == payloadFailure
  {
    match exchange
    case Failed(reason) => TransportFailure(reason)
    case Received(response) =>
      if response.status != expected then
        match response.asError
        case Undecodable(reason) => DecodeFailure(ErrorBodyDecodeFailurePrefix + reason)
        case Decoded(errorResponse) => ServiceError(errorResponse)
      else
        match response.asPayload
        case Undecodable(_) => DecodeFailure(payloadFailure)
        case Decoded(payload) => Success(payload)
  }

  /** The outcome of an operation without a payload: as Interpret, except
      that the expected status succeeds without the body being read. */
  function InterpretVoid<T>(expected: int, exchange: Exchange<T>): (outcome: Outcome<()>)
    ensures outcome.TransportFailure? <==> exchange.Failed?
    ensures outcome.TransportFailure? ==> outcome.reason == exchange.reason
    ensures outcome.Success? <==> exchange.Received? && exchange.response.status == expected
    ensures outcome.ServiceError? <==>
              exchange.Received? && exchange.response.status != expected && exchange.response.asError.Decoded?
    ensures outcome.ServiceError? ==> outcome.error == exchange.response.asError.value
    ensures outcome.DecodeFailure? ==>
              outcome.message == ErrorBodyDecodeFailurePrefix + exchange.response.asError.reason
  {
    match exchange
    case Failed(reason) => TransportFailure(reason)
    case Received(response) =>
      if response.status != expected then
        match response.asError
        case Undecodable(reason) => DecodeFailure(ErrorBodyDecodeFailurePrefix + reason)
        case Decoded(errorResponse) => ServiceError(errorResponse)
      else Success(())
  }

  /** Operations with and without a payload fail in the same way: they differ
      only once the expected status has arrived. */
  lemma VoidAndTypedFailAlike<T>(expected: int, exchange: Exchange<T>, payloadFailure: string)
    requires !(exchange.Received? && exchange.response.status == expected)
    ensures match Interpret(expected, exchange, payloadFailure)
            case Success(_) => false
            case ServiceError(e) => InterpretVoid(expected, exchange) == ServiceError(e)
            case DecodeFailure(m) => InterpretVoid(expected, exchange) == DecodeFailure(m)
            case TransportFailure(r) => InterpretVoid(expected, exchange) == TransportFailure(r)
  {
  }

  /** A decoding failure of the payload is told apart from one of an error
      body by its message. */
  lemma DecodeFailuresDistinct(reason: string)
    ensures ErrorBodyDecodeFailurePrefix + reason != RegisterPayloadDecodeFailure
    ensures ErrorBodyDecodeFailurePrefix + reason != LoginPayloadDecodeFailure
  {
    assert (ErrorBodyDecodeFailurePrefix + reason)[17] == 's' != RegisterPayloadDecodeFailure[17];
    assert (ErrorBodyDecodeFailurePrefix + reason)[15] == 'r' != LoginPayloadDecodeFailure[15];
  }

  /** Reads the reply of an operation that returns a payload. */
  method Dispatch<T>(expected: int, exchange: Exchange<T>, payloadFailure: string) returns (outcome: Outcome<T>)
    ensures outcome == Interpret(expected, exchange, payloadFailure)
  {
    if exchange.Failed? {
      return TransportFailure(exchange.reason);
    }
    var response := exchange.response;
    if response.status != expected {
      var errorResponse := response.asError;
      if errorResponse.Undecodable? {
        return DecodeFailure(ErrorBodyDecodeFailurePrefix + errorResponse.reason);
      }
      return ServiceError(errorResponse.value);
    }
    var payload := response.asPayload;
    if payload.Undecodable? {
      return DecodeFailure(payloadFailure);
    }
    return Success(payload.value);
  }

  /** Reads the reply of an operation without a payload. */
  method DispatchVoid<T>(expected: int, exchange: Exchange<T>) returns (outcome: Outcome<()>)
    ensures outcome == InterpretVoid(expected, exchange)
  {
    if exchange.Failed? {
      return TransportFailure(exchange.reason);
    }
    var response := exchange.response;
    if response.status != expected {
      var errorResponse := response.asError;
      if errorResponse.Undecodable? {
        return DecodeFailure(ErrorBodyDecodeFailurePrefix + errorResponse.reason);
      }
      return ServiceError(errorResponse.value);
    }
    return Success(());
  }

  /** The client: a base URL fixed at construction. */
  class UserAuthClient {
    const baseUrl: string

    /** NewUserAuthClient. */
    constructor (baseUrl: string)
      ensures this.baseUrl == baseUrl
    {
      this.baseUrl := baseUrl;
    }

    method Register(
      appId: string,
      request: Registration.UserRegistrationRequest,
      transport: HttpRequest<Registration.UserRegistrationRequest> -> Exchange<Registration.UserRegistrationResponse>)
      returns (sent: HttpRequest<Registration.UserRegistrationRequest>, outcome: Outcome<Registration.UserRegistrationResponse>)
      ensures sent == HttpRequest(MethodOf(Operation.Register), baseUrl,
                                  ApplicationsPrefix + appId + "/register", [JsonContentType], Some(request))
      ensures outcome == Interpret(ExpectedStatus(Operation.Register), transport(sent), RegisterPayloadDecodeFailure)
    {
      var urlSuffix := ResolvePath(Operation.Register, appId);
      sent := HttpRequest(Post, baseUrl, urlSuffix, [JsonContentType], Some(request));
      var exchange := transport(sent);
      outcome := Dispatch(StatusCreated, exchange, RegisterPayloadDecodeFailure);
    }

    method Login(
      appId: string,
      request: Login.UserLoginRequest,
      transport: HttpRequest<Login.UserLoginRequest> -> Exchange<Login.UserLoginResponse>)
      returns (sent: HttpRequest<Login.UserLoginRequest>, outcome: Outcome<Login.UserLoginResponse>)
      ensures sent == HttpRequest(MethodOf(Operation.Login), baseUrl,
                                  ApplicationsPrefix + appId + "/login", [JsonContentType], Some(request))
      ensures outcome == Interpret(ExpectedStatus(Operation.Login), transport(sent), LoginPayloadDecodeFailure)
    {
      var urlSuffix := ResolvePath(Operation.Login, appId);
      sent := HttpRequest(Post, baseUrl, urlSuffix, [JsonContentType], Some(request));
      var exchange := transport(sent);
      outcome := Dispatch(StatusOK, exchange, LoginPayloadDecodeFailure);
    }

    /** The verification request's own fields are not part of this model:
        its body is passed through as it is. */
    method VerifyAccount<V>(appId: string, request: V, transport: HttpRequest<V> -> Exchange<()>)
      returns (sent: HttpRequest<V>, outcome: Outcome<()>)
      ensures sent == HttpRequest(MethodOf(Operation.VerifyAccount), baseUrl,
                                  ApplicationsPrefix + appId + "/verify-account", [JsonContentType], Some(request))
      ensures outcome == InterpretVoid(ExpectedStatus(Operation.VerifyAccount), transport(sent))
    {
      var urlSuffix := ResolvePath(Operation.VerifyAccount, appId);
      sent := HttpRequest(Put, baseUrl, urlSuffix, [JsonContentType], Some(request));
      var exchange := transport(sent);
      outcome := DispatchVoid(StatusNoContent, exchange);
    }

    /** Logout sends no body and no content type, only the Authorization
        header with the Bearer-normalised token. */
    method Logout(authToken: string, transport: HttpRequest<()> -> Exchange<()>)
      returns (sent: HttpRequest<()>, outcome: Outcome<()>)
      ensures sent == HttpRequest(MethodOf(Operation.Logout), baseUrl, UserLogoutUrlSuffix,
                                  [Header("Authorization", BearerHeader(authToken))], None)
      ensures BearerPrefix <= sent.headers[0].value
      ensures outcome == InterpretVoid(ExpectedStatus(Operation.Logout), transport(sent))
    {
      var token := authToken;
      if !(BearerPrefix <= token) {
        token := BearerPrefix + token;
      }
      sent := HttpRequest(Post, baseUrl, UserLogoutUrlSuffix, [Header("Authorization", token)], None);
      var exchange := transport(sent);
      outcome := DispatchVoid(StatusOK, exchange);
    }

    method InitiatePasswordReset(
      appId: string,
      request: PasswordReset.UserPasswordResetInitiationRequest,
      transport: HttpRequest<PasswordReset.UserPasswordResetInitiationRequest> -> Exchange<()>)
      returns (sent: HttpRequest<PasswordReset.UserPasswordResetInitiationRequest>, outcome: Outcome<()>)
      ensures sent == HttpRequest(MethodOf(Operation.InitiatePasswordReset), baseUrl,
                                  ApplicationsPrefix + appId + "/initiate-password-reset", [JsonContentType], Some(request))
      ensures outcome == InterpretVoid(ExpectedStatus(Operation.InitiatePasswordReset), transport(sent))
    {
      var urlSuffix := ResolvePath(Operation.InitiatePasswordReset, appId);
      sent := HttpRequest(Post, baseUrl, urlSuffix, [JsonContentType], Some(request));
      var exchange := transport(sent);
      outcome := DispatchVoid(StatusOK, exchange);
    }

    method ExecutePasswordReset(
      appId: string,
      request: PasswordReset.UserPasswordResetExecutionRequest,
      transport: HttpRequest<PasswordReset.UserPasswordResetExecutionRequest> -> Exchange<()>)
      returns (sent: HttpRequest<PasswordReset.UserPasswordResetExecutionRequest>, outcome: Outcome<()>)
      ensures sent == HttpRequest(MethodOf(Operation.ExecutePasswordReset), baseUrl,
                                  ApplicationsPrefix + appId + "/execute-password-reset", [JsonContentType], Some(request))
      ensures outcome == InterpretVoid(ExpectedStatus(Operation.ExecutePasswordReset), transport(sent))
    {
      var urlSuffix := ResolvePath(Operation.ExecutePasswordReset, appId);
      sent := HttpRequest(Put, baseUrl, urlSuffix, [JsonContentType], Some(request));
      var exchange := transport(sent);
      outcome := DispatchVoid(StatusNoContent, exchange);
    }
  }
}
