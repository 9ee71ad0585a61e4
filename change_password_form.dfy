/** The strength meter and the field rules of the change-password form
    (src/components/profile/ChangePasswordForm.tsx). The meter shows a colour
    and a label for the score of `checkPasswordStrength`; the new password
    must be present, at least 8 UTF-16 code units long and judged strong; the
    confirmation must be present and equal to it. */
module ChangePasswordForm {
  import opened Wrappers
  import opened Text
  import opened PasswordStrength

  /** `getStrengthColor`. */
  function StrengthColor(score: int): string {
    if score == 0 then "red"
    else if score <= 2 then "orange"
    else if score == 3 then "yellow"
    else "green"
  }

  /** `getStrengthLabel`. */
  function StrengthLabel(score: int): string {
    if score == 0 then "Very Weak"
    else if score == 1 then "Weak"
    else if score == 2 then "Fair"
    else if score == 3 then "Good"
    else "Strong"
  }

  /** The colour and the label agree on every score the meter can show, and
      both change exactly at the boundaries 0, 1..2, 3 and 4. */
  lemma ColorMatchesLabel(score: int)
    requires 0 <= score <= 4
    ensures StrengthColor(score) == "red" <==> StrengthLabel(score) == "Very Weak"
    ensures StrengthColor(score) == "orange" <==> StrengthLabel(score) == "Weak" || StrengthLabel(score) == "Fair"
    ensures StrengthColor(score) == "yellow" <==> StrengthLabel(score) == "Good"
    ensures StrengthColor(score) == "green" <==> StrengthLabel(score) == "Strong"
  {
  }

  /** The strength the meter shows: an empty field resets it to score 0, no
      feedback, not strong. */
  function DisplayedStrength(newPassword: string): (s: Strength)
    ensures newPassword == "" ==> s == Strength(0, [], false)
    ensures newPassword != "" ==> s == StrengthOf(newPassword)
  {
    if newPassword == "" then Strength(0, [], false) else StrengthOf(newPassword)
  }

  /** The meter reads "Good" or "Strong", in yellow or green, exactly when the
      password it shows is judged strong. */
  lemma MeterShowsStrong(newPassword: string)
    ensures var s := DisplayedStrength(newPassword);
      (StrengthLabel(s.score) == "Good" || StrengthLabel(s.score) == "Strong") <==> s.isStrong
    ensures var s := DisplayedStrength(newPassword);
      (StrengthColor(s.score) == "yellow" || StrengthColor(s.score) == "green") <==> s.isStrong
  {
    var s := DisplayedStrength(newPassword);
    assert 0 <= s.score <= 4;
    ColorMatchesLabel(s.score);
  }

  const NewPasswordRequired := "New password is required"
  const NotStrongEnough := "Password is not strong enough"
  const ConfirmRequired := "Please confirm your password"
  const Mismatch := "Passwords do not match"

  /** The rules of the new-password field in the order the form library checks
      them: `required`, then `minLength: 8`, then `validate`. */
  function NewPasswordError(value: string): (e: Option<string>)
    ensures e.None? <==> Utf16Length(value) >= 8 && StrengthOf(value).isStrong
    ensures value == "" ==> e == Some(NewPasswordRequired)
    ensures value != "" && Utf16Length(value) < 8 ==> e == Some(TooShort)
    ensures Utf16Length(value) >= 8 && !StrengthOf(value).isStrong ==> e == Some(NotStrongEnough)
  {
    if value == "" then Some(NewPasswordRequired)
    else if Utf16Length(value) < 8 then Some(TooShort)
    else if !StrengthOf(value).isStrong then Some(NotStrongEnough)
    else None
  }

  /** The rules of the confirmation field: `required`, then equality with the
      new password. */
  function ConfirmError(value: string, newPassword: string): (e: Option<string>)
    ensures e.None? <==> value != "" && value == newPassword
    ensures value == "" ==> e == Some(ConfirmRequired)
  {
    if value == "" then Some(ConfirmRequired)
    else if value != newPassword then Some(Mismatch)
    else None
  }

  /** The form accepts a pair exactly when both fields are the same password of
      at least 8 characters that passes a strong score; such a password earns
      at least 3 points and shows "Good" or "Strong". */
  lemma AcceptedPasswords(newPassword: string, confirm: string)
    ensures NewPasswordError(newPassword).None? && ConfirmError(confirm, newPassword).None?
      <==> confirm == newPassword && Utf16Length(newPassword) >= 8 && StrengthOf(newPassword).isStrong
    ensures NewPasswordError(newPassword).None? ==>
      StrengthOf(newPassword).score >= 3 && DisplayedStrength(newPassword) == StrengthOf(newPassword)
  {
  }

  /** Four copies of U+1F600, a character outside the Basic Multilingual Plane. */
  const FourEmoji := "\U{1F600}\U{1F600}\U{1F600}\U{1F600}"

  /** Length is counted in UTF-16 code units, as `length` and `minLength` do:
      four emoji are four characters but eight units, so they pass the length
      rule and fail only on strength. */
  lemma FourEmojiPassMinLength()
    ensures |FourEmoji| == 4
    ensures NewPasswordError(FourEmoji) == Some(NotStrongEnough)
  {
    FourEmojiUnits();
    FourEmojiHasNoClass();
    NoPatternInShort(FourEmoji);
    NoClassesIsWeak(FourEmoji);
  }

  lemma FourEmojiUnits()
    ensures Utf16Length(FourEmoji) == 8
  {
    var p := FourEmoji;
    assert p[1..][1..][1..][1..] == [];
  }

  lemma FourEmojiHasNoClass()
    ensures !HasLower(FourEmoji) && !HasDigit(FourEmoji) && !HasSpecial(FourEmoji)
  {
    var p := FourEmoji;
    assert forall i :: 0 <= i < |p| ==> p[i] == '\U{1F600}';
  }
}
