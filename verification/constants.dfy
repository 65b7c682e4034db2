/** Password requirements and provider names (idam/constants.go). */
module Constants {
  import opened Strval

  /** Minimum password length, in characters. */
  const MinPasswordLength: nat := 8
  /** Maximum password length, in characters. */
  const MaxPasswordLength: nat := 64
  /** Special characters of which a password must contain at least one. */
  const AllowablePasswordSpecialCharacters: string := "!@#$%^&*()_+-=[]{}|\\:,./?"
  /** Special characters a password must not contain (the identifier keeps the
      source's spelling). */
  const DisallowedPassowrdSpecialCharacters: string := "\"'`~<>;"
  /** The identity provider name. */
  const MarshallLabsIdentityProvider: string := "marshall-labs"

  /** The character sets are exactly the 25 and 7 characters the source lists,
      the escaped backslash being a single character. */
  lemma SpecialCharacterSets()
    ensures |AllowablePasswordSpecialCharacters| == 25
    ensures AllowablePasswordSpecialCharacters[19] == '\\' && AllowablePasswordSpecialCharacters[20] == ':'
    ensures |DisallowedPassowrdSpecialCharacters| == 7
    ensures DisallowedPassowrdSpecialCharacters ==
      ['"', '\'', '`', '~', '<', '>', ';']
  {
  }

  /** The length window [8, 64] is not empty. */
  lemma LengthWindowNonEmpty()
    ensures 0 < MinPasswordLength < MaxPasswordLength
  {
  }

  /** Requiring one allowed special character never forces a disallowed one. */
  lemma SpecialSetsDisjoint()
    ensures forall c :: c in AllowablePasswordSpecialCharacters ==> c !in DisallowedPassowrdSpecialCharacters
  {
    forall i | 0 <= i < |AllowablePasswordSpecialCharacters|
      ensures AllowablePasswordSpecialCharacters[i] !in DisallowedPassowrdSpecialCharacters
    {
    }
  }

  /** Both sets are printable ASCII, and no special character is a letter or
      a digit, so the special-character rules never clash with the
      printable-only and ASCII-only rules. */
  lemma SpecialSetsPrintableAscii()
    ensures forall c :: c in AllowablePasswordSpecialCharacters ==>
              IsPrintable(c) && IsAscii(c) && !IsLetter(c) && !IsDigit(c)
    ensures forall c :: c in DisallowedPassowrdSpecialCharacters ==>
              IsPrintable(c) && IsAscii(c) && !IsLetter(c) && !IsDigit(c)
  {
  }
}
