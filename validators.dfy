/**
 * The custom `validname` constraint: a name is accepted when the whole string matches
 * the anchored pattern `^[\p{L} \.'\-]+$`, one or more characters each of which is a
 * Unicode letter, a space, a period, an apostrophe or a hyphen.
 *
 * Unicode's letter category `\p{L}` is a table outside this model, so it is a parameter
 * `letter`; the properties about digits assume only that the table classes no ASCII
 * digit as a letter, which holds of Unicode.
 */
module Validators {

  /** Membership in the bracketed character class `[\p{L} \.'\-]`. */
  predicate NameChar(letter: char -> bool, c: char)
  {
    letter(c) || c == ' ' || c == '.' || c == '\'' || c == '-'
  }

  /** `^[class]+$` matched the way a regular-expression engine walks the input: the first
      character must be in the class, and then either the input ends or the rest matches
      the same pattern again. */
  predicate ValidName(letter: char -> bool, s: string)
    ensures ValidName(letter, s) <==> |s| > 0 && forall i :: 0 <= i < |s| ==> NameChar(letter, s[i])
    decreases |s|
  {
    |s| > 0 && NameChar(letter, s[0]) && (|s| == 1 || ValidName(letter, s[1..]))
  }

  /** `+` demands at least one character, so the empty string is rejected. */
  lemma EmptyNameRejected(letter: char -> bool)
    ensures !ValidName(letter, "")
  {
  }

  /** The table classes no ASCII digit as a letter. */
  ghost predicate DigitsAreNotLetters(letter: char -> bool)
  {
    forall c :: '0' <= c <= '9' ==> !letter(c)
  }

  /** A name containing an ASCII digit is rejected; this is the case the validator's
      message "invalid name (digit is not allowed)" describes. */
  lemma DigitRejected(letter: char -> bool, s: string, i: nat)
    requires DigitsAreNotLetters(letter)
    requires i < |s| && '0' <= s[i] <= '9'
    ensures !ValidName(letter, s)
  {
  }

  /** The anchored `[...]+` language is closed under concatenation. */
  lemma ValidNameConcat(letter: char -> bool, s: string, t: string)
    requires ValidName(letter, s) && ValidName(letter, t)
    ensures ValidName(letter, s + t)
  {
    assert forall i :: |s| <= i < |s| + |t| ==> (s + t)[i] == t[i - |s|];
  }

  /** Every non-empty prefix and suffix of an accepted name is itself accepted. */
  lemma ValidNameSplit(letter: char -> bool, s: string, k: nat)
    requires ValidName(letter, s) && 0 < k < |s|
    ensures ValidName(letter, s[..k]) && ValidName(letter, s[k..])
  {
    assert forall i :: 0 <= i < |s| - k ==> s[k..][i] == s[k + i];
  }
}
