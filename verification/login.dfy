/** User login requests and their validation (login.go). */
module Login {
  import opened Strval
  import opened CredentialPolicy
  import Registration

  datatype UserLoginRequest = UserLoginRequest(email: string, password: string)

  /** What the service returns for a successful login. */
  datatype UserLoginResponse = UserLoginResponse(
    token: string, tokenType: string, applicationId: string, expiresIn: int,
    userId: string, username: string, refreshToken: string)

  /** The messages of a login request: the password block, then the email
      block (the reverse of registration's field order). */
  function LoginMessages(request: UserLoginRequest): (ms: seq<Message>)
  {
    Failures(request.password, PasswordField, PresenceRules)
    + Failures(request.email, EmailField, EmailRules)
  }

  /** UserLoginRequest.Validate: the password is only checked for presence,
      the email is checked in full, both are always checked, and the request
      is valid exactly when nothing was collected. */
  method Validate(request: UserLoginRequest) returns (valid: bool, errors: seq<Message>)
    ensures errors == LoginMessages(request)
    ensures valid <==> errors == []
    ensures valid <==> |request.password| > 0 && EmailAcceptable(request.email)
  {
    var validationErrors: seq<Message> := [];

    var passwordResult := ValidateStringWithName(request.password, PasswordField, PresenceRules);
    if !passwordResult.valid {
      validationErrors := validationErrors + passwordResult.messages;
    }

    var emailResult := ValidateStringWithName(request.email, EmailField, EmailRules);
    if !emailResult.valid {
      validationErrors := validationErrors + emailResult.messages;
    }

    assert validationErrors == LoginMessages(request);
    LoginAcceptableIff(request);
    if |validationErrors| > 0 {
      return false, validationErrors;
    }
    return true, [];
  }

  /** The request is acceptable exactly when it produces no message. */
  lemma LoginAcceptableIff(request: UserLoginRequest)
    ensures LoginMessages(request) == [] <==> |request.password| > 0 && EmailAcceptable(request.email)
  {
    FailuresEmptyIff(request.password, PasswordField, PresenceRules);
    FailuresEmptyIff(request.email, EmailField, EmailRules);
    PresencePolicyMeaning(request.password);
    EmailPolicyMeaning(request.email);
  }

  /** The password is checked for presence only: a present password never
      produces a message, an absent one produces exactly the presence
      message, ahead of any email message. */
  lemma LoginPasswordPresenceOnly(request: UserLoginRequest)
    ensures |request.password| > 0 ==>
              forall k :: 0 <= k < |LoginMessages(request)| ==> LoginMessages(request)[k].field == EmailField
    ensures |request.password| == 0 ==>
              LoginMessages(request) == [Message(PasswordField, MustNotBeEmpty)] + Failures(request.email, EmailField, EmailRules)
  {
    FailuresSound(request.email, EmailField, EmailRules);
    assert PresenceRules[1..] == [];
  }

  /** Password messages precede email messages, and a missing password does
      not stop the email from being checked. */
  lemma LoginMessagesOrdered(request: UserLoginRequest)
    ensures forall i, j :: 0 <= i < j < |LoginMessages(request)| && LoginMessages(request)[j].field == PasswordField ==>
              LoginMessages(request)[i].field == PasswordField
    ensures forall i :: 0 <= i < |EmailRules| && !Holds(EmailRules[i], request.email) ==>
              Message(EmailField, EmailRules[i]) in LoginMessages(request)
  {
    var p: seq<Message> := Failures(request.password, PasswordField, PresenceRules);
    var e: seq<Message> := Failures(request.email, EmailField, EmailRules);
    FailuresSound(request.password, PasswordField, PresenceRules);
    FailuresSound(request.email, EmailField, EmailRules);
    forall k | 0 <= k < |p + e|
      ensures (p + e)[k].field == if k < |p| then PasswordField else EmailField
    {
      if k >= |p| { assert (p + e)[k] == e[k - |p|]; }
    }
    forall i | 0 <= i < |EmailRules| && !Holds(EmailRules[i], request.email)
      ensures Message(EmailField, EmailRules[i]) in LoginMessages(request)
    {
      FailuresComplete(request.email, EmailField, EmailRules, i);
    }
  }

  /** The intended asymmetry: a weak password such as "a" is accepted at login
      and refused at registration, whatever the username. */
  lemma WeakPasswordAcceptedAtLoginOnly(username: string)
    ensures LoginMessages(UserLoginRequest("user@example.com", "a")) == []
    ensures Registration.RegistrationMessages(Registration.UserRegistrationRequest(username, "user@example.com", "a")) != []
  {
    UsernameAndEmailExamples();
    LoginAcceptableIff(UserLoginRequest("user@example.com", "a"));
    Registration.RegistrationAcceptableIff(Registration.UserRegistrationRequest(username, "user@example.com", "a"));
  }
}
