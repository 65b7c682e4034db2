/**
 * The string-validation engine the request validators are built on
 * (the `strval` package imported at registration.go:6).
 *
 * A rule is a named predicate over the characters of one field. Validating a
 * field runs EVERY rule of an ordered list against the value, with no
 * short-circuit, and keeps one message per failing rule, in rule order. The
 * field is valid exactly when no message was kept.
 *
 * Lengths are counts of characters (Go runes), i.e. `|s|`. The character
 * classes are the ASCII ranges of the corresponding Unicode classes.
 */
module Strval {

  /** One validation rule, named after the strval constructor that builds it. */
  datatype Rule =
    | MustNotBeEmpty
    | MustBeAlphaNumeric
    | MustHaveMinLengthOf(min: nat)
    | MustHaveMaxLengthOf(max: nat)
    | MustContainAtLeastOne(allowed: seq<char>)
    | MustNotContainAnyOf(disallowed: seq<char>)
    | MustContainNumbers
    | MustContainUppercaseLetter
    | MustContainLowercaseLetter
    | MustOnlyContainPrintableCharacters
    | MustOnlyContainASCIICharacters
    | MustBeValidEmailFormat

  /** The message a failing rule contributes: which field failed which rule. */
  datatype Message = Message(field: string, rule: Rule)

  /** The outcome of validating one named field. */
  datatype FieldResult = FieldResult(valid: bool, messages: seq<Message>)

  predicate IsDigit(c: char) { '0' <= c <= '9' }
  predicate IsUpper(c: char) { 'A' <= c <= 'Z' }
  predicate IsLower(c: char) { 'a' <= c <= 'z' }
  predicate IsLetter(c: char) { IsUpper(c) || IsLower(c) }
  /** Code points up to 0x7F (Go's unicode.MaxASCII). */
  predicate IsAscii(c: char) { c as int <= 0x7F }
  /** Not a C0 control, DEL or a C1 control. */
  predicate IsPrintable(c: char) { !(c as int < 0x20 || 0x7F <= c as int <= 0x9F) }

  /** A conventional `local@domain` address: a non-empty local part before an
      `@`, and a domain after it that contains a dot. */
  predicate IsEmailAddress(s: string)
  {
    exists i :: 0 < i < |s| && s[i] == '@' && '.' in s[i + 1..]
  }

  /** The rules that ask for some character to be present (or, for the
      minimum length, for a positive number of them). */
  predicate DemandsContent(r: Rule)
  {
    || r.MustNotBeEmpty?
    || (r.MustHaveMinLengthOf? && r.min > 0)
    || r.MustContainAtLeastOne?
    || r.MustContainNumbers?
    || r.MustContainUppercaseLetter?
    || r.MustContainLowercaseLetter?
    || r.MustBeValidEmailFormat?
  }

  /** The meaning of each rule on a field value. The empty value fails
      exactly the rules that demand content; every rule that only restricts
      characters or bounds the length from above accepts it. */
  predicate Holds(r: Rule, s: string)
    ensures s == [] ==> (Holds(r, s) <==> !DemandsContent(r))
  {
    match r
    case MustNotBeEmpty => |s| > 0
    case MustBeAlphaNumeric => forall i :: 0 <= i < |s| ==> IsLetter(s[i]) || IsDigit(s[i])
    case MustHaveMinLengthOf(min) => |s| >= min
    case MustHaveMaxLengthOf(max) => |s| <= max
    case MustContainAtLeastOne(allowed) => exists i :: 0 <= i < |s| && s[i] in allowed
    case MustNotContainAnyOf(disallowed) => forall i :: 0 <= i < |s| ==> s[i] !in disallowed
    case MustContainNumbers => exists i :: 0 <= i < |s| && IsDigit(s[i])
    case MustContainUppercaseLetter => exists i :: 0 <= i < |s| && IsUpper(s[i])
    case MustContainLowercaseLetter => exists i :: 0 <= i < |s| && IsLower(s[i])
    case MustOnlyContainPrintableCharacters => forall i :: 0 <= i < |s| ==> IsPrintable(s[i])
    case MustOnlyContainASCIICharacters => forall i :: 0 <= i < |s| ==> IsAscii(s[i])
    case MustBeValidEmailFormat => IsEmailAddress(s)
  }

  /** Every rule of the list holds of `s`. */
  predicate AllHold(rules: seq<Rule>, s: string)
  {
    forall i :: 0 <= i < |rules| ==> Holds(rules[i], s)
  }

  /** The message one rule contributes: none when it holds, one naming the
      field and the rule when it fails. */
  function Verdict(s: string, field: string, r: Rule): (ms: seq<Message>)
  {
    if Holds(r, s) then [] else [Message(field, r)]
  }

  /** The messages of one field: one per failing rule, in rule order. */
  function Failures(s: string, field: string, rules: seq<Rule>): (ms: seq<Message>)
    ensures |ms| <= |rules|
  {
    if rules == [] then []
    else Verdict(s, field, rules[0]) + Failures(s, field, rules[1..])
  }

  /** Validate a named field against an ordered rule list
      (strval.ValidateStringWithName). */
  function ValidateStringWithName(s: string, field: string, rules: seq<Rule>): (r: FieldResult)
    ensures r.valid <==> r.messages == []
    ensures r.valid <==> AllHold(rules, s)
    ensures r.messages == Failures(s, field, rules)
    ensures forall k :: 0 <= k < |r.messages| ==> r.messages[k].field == field
  {
    FailuresEmptyIff(s, field, rules);
    FailuresSound(s, field, rules);
    var ms := Failures(s, field, rules);
    FieldResult(ms == [], ms)
  }

  /** Soundness: every message names the field and a listed rule that fails. */
  lemma {:induction false} FailuresSound(s: string, field: string, rules: seq<Rule>)
    ensures forall k :: 0 <= k < |Failures(s, field, rules)| ==>
              && Failures(s, field, rules)[k].field == field
              && Failures(s, field, rules)[k].rule in rules
              && !Holds(Failures(s, field, rules)[k].rule, s)
  {
    if rules != [] {
      FailuresSound(s, field, rules[1..]);
      var head: seq<Message> := Verdict(s, field, rules[0]);
      var tail: seq<Message> := Failures(s, field, rules[1..]);
      forall k | 0 <= k < |head + tail|
        ensures (head + tail)[k].field == field && (head + tail)[k].rule in rules
        ensures !Holds((head + tail)[k].rule, s)
      {
        if k >= |head| {
          assert (head + tail)[k] == tail[k - |head|];
          assert tail[k - |head|].rule in rules[1..];
        }
      }
    }
  }

  /** No message exactly when every rule holds. */
  lemma {:induction false} FailuresEmptyIff(s: string, field: string, rules: seq<Rule>)
    ensures Failures(s, field, rules) == [] <==> AllHold(rules, s)
  {
    if rules != [] {
      FailuresEmptyIff(s, field, rules[1..]);
      if AllHold(rules[1..], s) && Holds(rules[0], s) {
        forall i | 0 <= i < |rules| ensures Holds(rules[i], s) {
          if i > 0 { assert rules[i] == rules[1..][i - 1]; }
        }
      }
      if AllHold(rules, s) {
        forall i | 0 <= i < |rules| - 1 ensures Holds(rules[1..][i], s) {
          assert rules[1..][i] == rules[i + 1];
        }
      }
    }
  }

  /** A passing rule contributes no message. */
  lemma FailuresSkip(s: string, field: string, rules: seq<Rule>, k: nat)
    requires k < |rules| && Holds(rules[k], s)
    ensures Failures(s, field, rules[k..]) == Failures(s, field, rules[k + 1..])
  {
    assert rules[k..][1..] == rules[k + 1..];
  }

  /** A failing rule contributes its message ahead of those of the rules after it. */
  lemma FailuresKeep(s: string, field: string, rules: seq<Rule>, k: nat)
    requires k < |rules| && !Holds(rules[k], s)
    ensures Failures(s, field, rules[k..]) == [Message(field, rules[k])] + Failures(s, field, rules[k + 1..])
  {
    assert rules[k..][1..] == rules[k + 1..];
  }

  /** Validating against a concatenated rule list yields the first list's
      messages followed by the second's: messages follow rule order. */
  lemma {:induction false} FailuresAppend(s: string, field: string, a: seq<Rule>, b: seq<Rule>)
    ensures Failures(s, field, a + b) == Failures(s, field, a) + Failures(s, field, b)
  {
    if a != [] {
      assert (a + b)[0] == a[0];
      assert (a + b)[1..] == a[1..] + b;
      FailuresAppend(s, field, a[1..], b);
    } else {
      assert a + b == b;
    }
  }

  /** No short-circuit: every failing rule contributes its message, whatever
      the rules before it did. */
  lemma {:induction false} FailuresComplete(s: string, field: string, rules: seq<Rule>, i: nat)
    requires i < |rules| && !Holds(rules[i], s)
    ensures Message(field, rules[i]) in Failures(s, field, rules)
  {
    if i > 0 {
      assert rules[1..][i - 1] == rules[i];
      FailuresComplete(s, field, rules[1..], i - 1);
    }
  }

  /** Two failing rules report their messages in the order the rules are listed. */
  lemma FailuresInRuleOrder(s: string, field: string, rules: seq<Rule>, i: nat, j: nat)
    requires i < j < |rules|
    requires !Holds(rules[i], s) && !Holds(rules[j], s)
    ensures exists p, q ::
              && 0 <= p < q < |Failures(s, field, rules)|
              && Failures(s, field, rules)[p] == Message(field, rules[i])
              && Failures(s, field, rules)[q] == Message(field, rules[j])
  {
    var front, back := rules[..j], rules[j..];
    assert rules == front + back;
    FailuresAppend(s, field, front, back);
    assert front[i] == rules[i];
    FailuresComplete(s, field, front, i);
    assert back[0] == rules[j];
    FailuresComplete(s, field, back, 0);
    var fm, bm := Failures(s, field, front), Failures(s, field, back);
    var p :| 0 <= p < |fm| && fm[p] == Message(field, rules[i]);
    var q :| 0 <= q < |bm| && bm[q] == Message(field, rules[j]);
    assert (fm + bm)[p] == fm[p];
    assert (fm + bm)[|fm| + q] == bm[q];
  }

  /** The field name only labels the messages: the same value and rules fail
      the same rules under any name. */
  lemma {:induction false} FailuresRename(s: string, f: string, g: string, rules: seq<Rule>)
    ensures |Failures(s, f, rules)| == |Failures(s, g, rules)|
    ensures forall k :: 0 <= k < |Failures(s, f, rules)| ==>
      Failures(s, g, rules)[k] == Message(g, Failures(s, f, rules)[k].rule)
  {
    if rules != [] {
      FailuresRename(s, f, g, rules[1..]);
    }
  }
}
