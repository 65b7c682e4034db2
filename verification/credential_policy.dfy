/**
 * The rule lists the request validators run, and what each list means.
 *
 * Registration (registration.go:32-67) and password-reset execution
 * (idam/pw_reset.go:24-34) run the full password-strength list; login
 * (login.go:24) only checks that a password is present, so that a password
 * issued under older, weaker rules can still be used to sign in.
 */
module CredentialPolicy {
  import opened Strval
  import opened Constants

  const UsernameField: string := "username"
  const EmailField: string := "email"
  const PasswordField: string := "password"
  const NewPasswordField: string := "new_password"

  /** Non-empty, alphanumeric, 3 to 20 characters. */
  const UsernameRules: seq<Rule> :=
    [MustNotBeEmpty, MustBeAlphaNumeric, MustHaveMinLengthOf(3), MustHaveMaxLengthOf(20)]

  /** Non-empty and a valid address. */
  const EmailRules: seq<Rule> := [MustNotBeEmpty, MustBeValidEmailFormat]

  /** The ten password-strength rules, in the order they are listed. */
  const PasswordRules: seq<Rule> :=
    [ MustNotBeEmpty,
      MustHaveMinLengthOf(MinPasswordLength),
      MustHaveMaxLengthOf(MaxPasswordLength),
      MustContainAtLeastOne(AllowablePasswordSpecialCharacters),
      MustNotContainAnyOf(DisallowedPassowrdSpecialCharacters),
      MustContainNumbers,
      MustContainUppercaseLetter,
      MustContainLowercaseLetter,
      MustOnlyContainPrintableCharacters,
      MustOnlyContainASCIICharacters ]

  /** The login password check: presence only. */
  const PresenceRules: seq<Rule> := [MustNotBeEmpty]

  /** What an acceptable username is, stated independently of the rule list. */
  predicate UsernameAcceptable(u: string)
  {
    && 3 <= |u| <= 20
    && forall i :: 0 <= i < |u| ==> IsLetter(u[i]) || IsDigit(u[i])
  }

  /** What an acceptable email is. */
  predicate EmailAcceptable(e: string)
  {
    |e| > 0 && IsEmailAddress(e)
  }

  /** What an acceptable new password is. */
  predicate PasswordAcceptable(p: string)
  {
    && MinPasswordLength <= |p| <= MaxPasswordLength
    && (exists i :: 0 <= i < |p| && p[i] in AllowablePasswordSpecialCharacters)
    && (forall i :: 0 <= i < |p| ==> p[i] !in DisallowedPassowrdSpecialCharacters)
    && (exists i :: 0 <= i < |p| && IsDigit(p[i]))
    && (exists i :: 0 <= i < |p| && IsUpper(p[i]))
    && (exists i :: 0 <= i < |p| && IsLower(p[i]))
    && (forall i :: 0 <= i < |p| ==> IsPrintable(p[i]) && IsAscii(p[i]))
  }

  lemma UsernamePolicyMeaning(u: string)
    ensures AllHold(UsernameRules, u) <==> UsernameAcceptable(u)
  {
    if UsernameAcceptable(u) {
      forall i | 0 <= i < |UsernameRules| ensures Holds(UsernameRules[i], u) {
      }
    }
    if AllHold(UsernameRules, u) {
      assert Holds(UsernameRules[1], u) && Holds(UsernameRules[2], u) && Holds(UsernameRules[3], u);
    }
  }

  lemma EmailPolicyMeaning(e: string)
    ensures AllHold(EmailRules, e) <==> EmailAcceptable(e)
  {
    if AllHold(EmailRules, e) {
      assert Holds(EmailRules[0], e) && Holds(EmailRules[1], e);
    }
  }

  lemma PresencePolicyMeaning(p: string)
    ensures AllHold(PresenceRules, p) <==> |p| > 0
  {
    if AllHold(PresenceRules, p) {
      assert Holds(PresenceRules[0], p);
    }
  }

  lemma PasswordPolicyMeaning(p: string)
    ensures AllHold(PasswordRules, p) <==> PasswordAcceptable(p)
  {
    if PasswordAcceptable(p) {
      forall i | 0 <= i < |PasswordRules| ensures Holds(PasswordRules[i], p) {
      }
    }
    if AllHold(PasswordRules, p) {
      assert Holds(PasswordRules[1], p) && Holds(PasswordRules[2], p);
      assert Holds(PasswordRules[3], p) && Holds(PasswordRules[4], p);
      assert Holds(PasswordRules[5], p) && Holds(PasswordRules[6], p);
      assert Holds(PasswordRules[7], p) && Holds(PasswordRules[8], p);
      assert Holds(PasswordRules[9], p);
    }
  }

  /** A password outside the length window always fails, with a length message. */
  lemma PasswordLengthOutsideWindowFails(p: string, field: string)
    requires |p| < MinPasswordLength || |p| > MaxPasswordLength
    ensures |p| < MinPasswordLength ==>
              Message(field, MustHaveMinLengthOf(MinPasswordLength)) in Failures(p, field, PasswordRules)
    ensures |p| > MaxPasswordLength ==>
              Message(field, MustHaveMaxLengthOf(MaxPasswordLength)) in Failures(p, field, PasswordRules)
  {
    if |p| < MinPasswordLength {
      FailuresComplete(p, field, PasswordRules, 1);
    } else {
      FailuresComplete(p, field, PasswordRules, 2);
    }
  }

  /** A disallowed character fails the password whatever else it satisfies. */
  lemma DisallowedCharacterFails(p: string, field: string, i: nat)
    requires i < |p| && p[i] in DisallowedPassowrdSpecialCharacters
    ensures Message(field, MustNotContainAnyOf(DisallowedPassowrdSpecialCharacters))
              in Failures(p, field, PasswordRules)
    ensures !PasswordAcceptable(p)
  {
    assert !Holds(PasswordRules[4], p);
    FailuresComplete(p, field, PasswordRules, 4);
  }

  /** Positive control: a password meeting every rule passes. */
  lemma PasswordPositiveControl()
    ensures PasswordAcceptable("Abcdef1!")
  {
    var p := "Abcdef1!";
    PositiveControlCharacters();
    assert p[7] == AllowablePasswordSpecialCharacters[0];
    assert IsDigit(p[6]) && IsUpper(p[0]) && IsLower(p[1]);
  }

  /** Every character of the positive-control password is a letter, a digit
      or '!', none of which is disallowed. */
  lemma PositiveControlCharacters()
    ensures forall i :: 0 <= i < |"Abcdef1!"| ==> "Abcdef1!"[i] !in DisallowedPassowrdSpecialCharacters
    ensures forall i :: 0 <= i < |"Abcdef1!"| ==> IsPrintable("Abcdef1!"[i]) && IsAscii("Abcdef1!"[i])
  {
    SpecialSetsPrintableAscii();
    var p := "Abcdef1!";
    forall i | 0 <= i < |p|
      ensures p[i] !in DisallowedPassowrdSpecialCharacters
      ensures IsPrintable(p[i]) && IsAscii(p[i])
    {
      if i < 6 { assert IsLetter(p[i]); } else if i == 6 { assert IsDigit(p[i]); }
    }
  }

  /** No short-circuit: the empty password reports every rule it fails,
      in rule order, and no rule it passes. */
  lemma EmptyPasswordMessages(field: string)
    ensures Failures("", field, PasswordRules) ==
      [ Message(field, MustNotBeEmpty),
        Message(field, MustHaveMinLengthOf(MinPasswordLength)),
        Message(field, MustContainAtLeastOne(AllowablePasswordSpecialCharacters)),
        Message(field, MustContainNumbers),
        Message(field, MustContainUppercaseLetter),
        Message(field, MustContainLowercaseLetter) ]
  {
    EmptyPasswordFrom2(field);
    FailuresKeep("", field, PasswordRules, 1);
    FailuresKeep("", field, PasswordRules, 0);
    assert PasswordRules[0..] == PasswordRules;
  }

  /** EmptyPasswordMessages from the maximum-length rule on. */
  lemma EmptyPasswordFrom2(field: string)
    ensures Failures("", field, PasswordRules[2..]) ==
      [ Message(field, PasswordRules[3]), Message(field, PasswordRules[5]),
        Message(field, PasswordRules[6]), Message(field, PasswordRules[7]) ]
  {
    EmptyPasswordFrom3(field);
    FailuresSkip("", field, PasswordRules, 2);
  }

  /** EmptyPasswordMessages from the allowed-special rule on. */
  lemma EmptyPasswordFrom3(field: string)
    ensures Failures("", field, PasswordRules[3..]) ==
      [ Message(field, PasswordRules[3]), Message(field, PasswordRules[5]),
        Message(field, PasswordRules[6]), Message(field, PasswordRules[7]) ]
  {
    EmptyPasswordFrom4(field);
    FailuresKeep("", field, PasswordRules, 3);
  }

  /** EmptyPasswordMessages from the disallowed-characters rule on. */
  lemma EmptyPasswordFrom4(field: string)
    ensures Failures("", field, PasswordRules[4..]) ==
      [Message(field, PasswordRules[5]), Message(field, PasswordRules[6]), Message(field, PasswordRules[7])]
  {
    EmptyPasswordFrom6(field);
    FailuresKeep("", field, PasswordRules, 5);
    FailuresSkip("", field, PasswordRules, 4);
  }

  /** EmptyPasswordMessages from the uppercase rule on. */
  lemma EmptyPasswordFrom6(field: string)
    ensures Failures("", field, PasswordRules[6..]) ==
      [Message(field, PasswordRules[6]), Message(field, PasswordRules[7])]
  {
    EmptyPasswordFrom8(field);
    FailuresKeep("", field, PasswordRules, 7);
    FailuresKeep("", field, PasswordRules, 6);
  }

  /** The character-set rules hold of the empty password. */
  lemma EmptyPasswordFrom8(field: string)
    ensures Failures("", field, PasswordRules[8..]) == []
  {
    assert PasswordRules[10..] == [];
    FailuresSkip("", field, PasswordRules, 9);
    FailuresSkip("", field, PasswordRules, 8);
  }

  /** Sample usernames and emails: two refused and one accepted username, one
      refused and one accepted address. */
  lemma UsernameAndEmailExamples()
    ensures !UsernameAcceptable("ab")
    ensures !UsernameAcceptable("abc_def")
    ensures UsernameAcceptable("User123")
    ensures !EmailAcceptable("not-an-email")
    ensures EmailAcceptable("user@example.com")
  {
    assert !IsLetter("abc_def"[3]) && !IsDigit("abc_def"[3]);
    var e := "user@example.com";
    assert e[4] == '@' && e[12] == '.' && e[12] in e[5..];
    var n := "not-an-email";
    assert forall i :: 0 <= i < |n| ==> n[i] != '@';
  }
}
