/** Password-reset requests and their validation (idam/pw_reset.go). */
module PasswordReset {
  import opened Strval
  import opened CredentialPolicy

  /** Sets a new password; only the new password is validated locally. */
  datatype UserPasswordResetExecutionRequest = UserPasswordResetExecutionRequest(
    userId: string, newPassword: string, passwordResetToken: string, verificationCode: string)

  /** Starts a reset for the account with this email. */
  datatype UserPasswordResetInitiationRequest = UserPasswordResetInitiationRequest(email: string)

  /** The `(valid, errors)` pair a Validate returns. */
  datatype ValidationResult = ValidationResult(valid: bool, errors: seq<Message>)

  /** UserPasswordResetExecutionRequest.Validate: the full password policy on
      `new_password`; the failing rules' messages are returned as they are. */
  function ValidateExecution(request: UserPasswordResetExecutionRequest): (r: ValidationResult)
    ensures r.valid <==> r.errors == []
    ensures r.valid <==> PasswordAcceptable(request.newPassword)
    ensures r.errors == Failures(request.newPassword, NewPasswordField, PasswordRules)
    ensures forall k :: 0 <= k < |r.errors| ==>
              r.errors[k].field == NewPasswordField && r.errors[k].rule in PasswordRules &&
              !Holds(r.errors[k].rule, request.newPassword)
  {
    PasswordPolicyMeaning(request.newPassword);
    FailuresSound(request.newPassword, NewPasswordField, PasswordRules);
    var passwordResult := ValidateStringWithName(request.newPassword, NewPasswordField, PasswordRules);
    if !passwordResult.valid then ValidationResult(false, passwordResult.messages)
    else ValidationResult(true, [])
  }

  /** UserPasswordResetInitiationRequest.Validate: the email rules only; the
      email field's messages are returned as they are. */
  function ValidateInitiation(request: UserPasswordResetInitiationRequest): (r: ValidationResult)
    ensures r.valid <==> r.errors == []
    ensures r.valid <==> EmailAcceptable(request.email)
    ensures r.errors == Failures(request.email, EmailField, EmailRules)
    ensures forall k :: 0 <= k < |r.errors| ==>
              r.errors[k].field == EmailField && r.errors[k].rule in EmailRules &&
              !Holds(r.errors[k].rule, request.email)
  {
    EmailPolicyMeaning(request.email);
    FailuresSound(request.email, EmailField, EmailRules);
    var emailResult := ValidateStringWithName(request.email, EmailField, EmailRules);
    if !emailResult.valid then ValidationResult(false, emailResult.messages)
    else ValidationResult(true, [])
  }

  /** The user id, reset token and verification code never affect the result. */
  lemma ExecutionDependsOnlyOnNewPassword(a: UserPasswordResetExecutionRequest, b: UserPasswordResetExecutionRequest)
    requires a.newPassword == b.newPassword
    ensures ValidateExecution(a) == ValidateExecution(b)
  {
  }

  /** Execution applies the very rules registration applies to its password,
      in the same order: it fails the same rules, reported under
      `new_password` instead of `password`. */
  lemma ExecutionMatchesRegistrationPassword(request: UserPasswordResetExecutionRequest)
    ensures ValidateExecution(request).valid <==> Failures(request.newPassword, PasswordField, PasswordRules) == []
    ensures |ValidateExecution(request).errors| == |Failures(request.newPassword, PasswordField, PasswordRules)|
    ensures forall k :: 0 <= k < |ValidateExecution(request).errors| ==>
              ValidateExecution(request).errors[k] ==
                Message(NewPasswordField, Failures(request.newPassword, PasswordField, PasswordRules)[k].rule)
  {
    FailuresRename(request.newPassword, PasswordField, NewPasswordField, PasswordRules);
  }
}
