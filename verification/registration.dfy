/** User registration requests and their validation (registration.go). */
module Registration {
  import opened Strval
  import opened Constants
  import opened CredentialPolicy

  datatype UserRegistrationRequest = UserRegistrationRequest(username: string, email: string, password: string)

  /** What the service returns for a successful registration. The creation
      instant is opaque payload data and is not part of this model. */
  datatype UserRegistrationResponse = UserRegistrationResponse(
    userId: string, username: string, email: string, verified: bool,
    provider: string, features: seq<string>)

  /** The messages of a request: the username block, then the email block,
      then the password block, each in its rules' order. */
  function RegistrationMessages(request: UserRegistrationRequest): (ms: seq<Message>)
  {
    Failures(request.username, UsernameField, UsernameRules)
    + Failures(request.email, EmailField, EmailRules)
    + Failures(request.password, PasswordField, PasswordRules)
  }

  /** A request every rule accepts. */
  predicate RegistrationAcceptable(request: UserRegistrationRequest)
  {
    UsernameAcceptable(request.username) && EmailAcceptable(request.email) && PasswordAcceptable(request.password)
  }

  /** The position of a field in the order registration checks it. */
  function FieldRank(field: string): (rank: nat)
  {
    if field == UsernameField then 0 else if field == EmailField then 1 else 2
  }

  /** UserRegistrationRequest.Validate: every field is checked, the failing
      fields' messages are appended in field order, and the request is valid
      exactly when nothing was collected. */
  method Validate(request: UserRegistrationRequest) returns (valid: bool, errors: seq<Message>)
    ensures errors == RegistrationMessages(request)
    ensures valid <==> errors == []
    ensures valid <==> RegistrationAcceptable(request)
  {
    var validationErrors: seq<Message> := [];

    var usernameResult := ValidateStringWithName(request.username, UsernameField, UsernameRules);
    if !usernameResult.valid {
      validationErrors := validationErrors + usernameResult.messages;
    }
    assert validationErrors == Failures(request.username, UsernameField, UsernameRules);

    var emailResult := ValidateStringWithName(request.email, EmailField, EmailRules);
    if !emailResult.valid {
      validationErrors := validationErrors + emailResult.messages;
    }
    assert validationErrors == Failures(request.username, UsernameField, UsernameRules)
                               + Failures(request.email, EmailField, EmailRules);

    var passwordResult := ValidateStringWithName(request.password, PasswordField, PasswordRules);
    if !passwordResult.valid {
      validationErrors := validationErrors + passwordResult.messages;
    }

    assert validationErrors == RegistrationMessages(request);
    RegistrationAcceptableIff(request);
    if |validationErrors| > 0 {
      return false, validationErrors;
    }
    return true, [];
  }

  /** The request is acceptable exactly when it produces no message. */
  lemma RegistrationAcceptableIff(request: UserRegistrationRequest)
    ensures RegistrationMessages(request) == [] <==> RegistrationAcceptable(request)
  {
    FailuresEmptyIff(request.username, UsernameField, UsernameRules);
    FailuresEmptyIff(request.email, EmailField, EmailRules);
    FailuresEmptyIff(request.password, PasswordField, PasswordRules);
    UsernamePolicyMeaning(request.username);
    EmailPolicyMeaning(request.email);
    PasswordPolicyMeaning(request.password);
  }

  /** Messages come username first, then email, then password. */
  lemma RegistrationMessagesOrdered(request: UserRegistrationRequest)
    ensures forall i, j :: 0 <= i < j < |RegistrationMessages(request)| ==>
              FieldRank(RegistrationMessages(request)[i].field) <= FieldRank(RegistrationMessages(request)[j].field)
  {
    forall i, j | 0 <= i < j < |RegistrationMessages(request)|
      ensures FieldRank(RegistrationMessages(request)[i].field) <= FieldRank(RegistrationMessages(request)[j].field)
    {
      RegistrationRankAt(request, i);
      RegistrationRankAt(request, j);
    }
  }

  /** The field of the k-th message is fixed by which block k falls in. */
  lemma RegistrationRankAt(request: UserRegistrationRequest, k: nat)
    requires k < |RegistrationMessages(request)|
    ensures FieldRank(RegistrationMessages(request)[k].field) ==
              var u := |Failures(request.username, UsernameField, UsernameRules)|;
              var e := |Failures(request.email, EmailField, EmailRules)|;
              if k < u then 0 else if k < u + e then 1 else 2
  {
    var u := Failures(request.username, UsernameField, UsernameRules);
    var e := Failures(request.email, EmailField, EmailRules);
    var p := Failures(request.password, PasswordField, PasswordRules);
    var ms := u + e + p;
    assert ms == RegistrationMessages(request);
    if k < |u| {
      FailuresSound(request.username, UsernameField, UsernameRules);
      assert ms[k] == u[k];
    } else if k < |u| + |e| {
      FailuresSound(request.email, EmailField, EmailRules);
      assert ms[k] == e[k - |u|];
    } else {
      FailuresSound(request.password, PasswordField, PasswordRules);
      assert ms[k] == p[k - |u| - |e|];
    }
  }

  /** No short-circuit: whatever the other fields do, every rule a field
      fails contributes its message. */
  lemma RegistrationReportsEveryFailure(request: UserRegistrationRequest)
    ensures forall i :: 0 <= i < |UsernameRules| && !Holds(UsernameRules[i], request.username) ==>
              Message(UsernameField, UsernameRules[i]) in RegistrationMessages(request)
    ensures forall i :: 0 <= i < |EmailRules| && !Holds(EmailRules[i], request.email) ==>
              Message(EmailField, EmailRules[i]) in RegistrationMessages(request)
    ensures forall i :: 0 <= i < |PasswordRules| && !Holds(PasswordRules[i], request.password) ==>
              Message(PasswordField, PasswordRules[i]) in RegistrationMessages(request)
  {
    forall i | 0 <= i < |UsernameRules| && !Holds(UsernameRules[i], request.username)
      ensures Message(UsernameField, UsernameRules[i]) in RegistrationMessages(request)
    {
      FailuresComplete(request.username, UsernameField, UsernameRules, i);
    }
    forall i | 0 <= i < |EmailRules| && !Holds(EmailRules[i], request.email)
      ensures Message(EmailField, EmailRules[i]) in RegistrationMessages(request)
    {
      FailuresComplete(request.email, EmailField, EmailRules, i);
    }
    forall i | 0 <= i < |PasswordRules| && !Holds(PasswordRules[i], request.password)
      ensures Message(PasswordField, PasswordRules[i]) in RegistrationMessages(request)
    {
      FailuresComplete(request.password, PasswordField, PasswordRules, i);
    }
  }

  /** A disallowed character in the password makes the request invalid, even
      when every other rule passes. */
  lemma RegistrationRejectsDisallowedCharacter(request: UserRegistrationRequest, i: nat)
    requires i < |request.password| && request.password[i] in DisallowedPassowrdSpecialCharacters
    ensures Message(PasswordField, MustNotContainAnyOf(DisallowedPassowrdSpecialCharacters))
              in RegistrationMessages(request)
    ensures !RegistrationAcceptable(request)
  {
    DisallowedCharacterFails(request.password, PasswordField, i);
  }
}
