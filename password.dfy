/** Password strength scoring (`checkPasswordStrength`, src/api/profile.api.ts).
    Five checks each add a point: a length of at least 8 and of at least 12
    UTF-16 code units (what `length` counts), both cases of letter, a digit
    and a special character. A common pattern costs two points (not below 0),
    the reported score is capped at 4 and the password is strong when the
    uncapped score is at least 3. The regular expressions are character-class
    predicates over ASCII. */
module PasswordStrength {
  import opened Text

  predicate IsLower(c: char) { 'a' <= c <= 'z' }
  predicate IsUpper(c: char) { 'A' <= c <= 'Z' }
  predicate IsDigit(c: char) { '0' <= c <= '9' }

  /** The class `[!@#$%^&*()_+\-=\[\]{};':"\\|,.<>\/?]`. */
  const SpecialChars: string := "!@#$%^&*()_+-=[]{};':\"\\|,.<>/?"

  predicate IsSpecial(c: char) { c in SpecialChars }

  predicate HasLower(p: string) { exists i :: 0 <= i < |p| && IsLower(p[i]) }
  predicate HasUpper(p: string) { exists i :: 0 <= i < |p| && IsUpper(p[i]) }
  predicate HasDigit(p: string) { exists i :: 0 <= i < |p| && IsDigit(p[i]) }
  predicate HasSpecial(p: string) { exists i :: 0 <= i < |p| && IsSpecial(p[i]) }

  const CommonPatterns: seq<string> := ["12345", "password", "qwerty", "abc123"]

  /** `commonPatterns.some((pattern) => password.toLowerCase().includes(pattern))`. */
  predicate HasCommonPattern(p: string) {
    exists k :: 0 <= k < |CommonPatterns| && Contains(ToLower(p), CommonPatterns[k])
  }

  const TooShort := "Password must be at least 8 characters"
  const NeedMixedCase := "Include both uppercase and lowercase letters"
  const NeedDigit := "Include at least one number"
  const NeedSpecial := "Include at least one special character"
  const AvoidCommon := "Avoid common patterns like \"12345\" or \"password\""

  datatype Strength = Strength(score: int, feedback: seq<string>, isStrong: bool)

  function Point(b: bool): nat { if b then 1 else 0 }

  /** How many of the five checks the password passes. */
  function ChecksPassed(p: string): nat {
    Point(Utf16Length(p) >= 8) + Point(Utf16Length(p) >= 12) + Point(HasLower(p) && HasUpper(p)) + Point(HasDigit(p)) + Point(HasSpecial(p))
  }

  /** The score before the cap. */
  function RawScore(p: string): (s: int)
    ensures 0 <= s <= 5
    ensures HasCommonPattern(p) ==> s == if ChecksPassed(p) >= 2 then ChecksPassed(p) - 2 else 0
    ensures !HasCommonPattern(p) ==> s == ChecksPassed(p)
  {
    var passed := ChecksPassed(p);
    if HasCommonPattern(p) then (if passed - 2 > 0 then passed - 2 else 0) else passed
  }

  /** The feedback, one message per failed check, in the order the checks are made. */
  function Feedback(p: string): seq<string> {
    (if Utf16Length(p) >= 8 then [] else [TooShort])
    + (if HasLower(p) && HasUpper(p) then [] else [NeedMixedCase])
    + (if HasDigit(p) then [] else [NeedDigit])
    + (if HasSpecial(p) then [] else [NeedSpecial])
    + (if HasCommonPattern(p) then [AvoidCommon] else [])
  }

  /** The result `checkPasswordStrength` should return for `p`. */
  function StrengthOf(p: string): (s: Strength)
    ensures 0 <= s.score <= 4
    ensures s.isStrong <==> RawScore(p) >= 3
    ensures s.score == if RawScore(p) > 4 then 4 else RawScore(p)
    ensures s.feedback == Feedback(p)
  {
    var raw := RawScore(p);
    Strength(if raw > 4 then 4 else raw, Feedback(p), raw >= 3)
  }

  /** `checkPasswordStrength`, check by check, mutating the score and the feedback. */
  method CheckPasswordStrength(password: string) returns (r: Strength)
    ensures r == StrengthOf(password)
  {
    var hasMixedCase, hasDigit, hasSpecial := HasLower(password) && HasUpper(password), HasDigit(password), HasSpecial(password);
    var hasCommon := HasCommonPattern(password);
    var length := Utf16Length(password);
    var feedback: seq<string> := [];
    var score := 0;
    if length >= 8 {
      score := score + 1;
    } else {
      feedback := feedback + [TooShort];
    }
    if length >= 12 {
      score := score + 1;
    }
    ghost var f1 := feedback;
    if hasMixedCase {
      score := score + 1;
    } else {
      feedback := feedback + [NeedMixedCase];
    }
    ghost var f2 := feedback;
    if hasDigit {
      score := score + 1;
    } else {
      feedback := feedback + [NeedDigit];
    }
    ghost var f3 := feedback;
    if hasSpecial {
      score := score + 1;
    } else {
      feedback := feedback + [NeedSpecial];
    }
    ghost var f4 := feedback;
    assert score == ChecksPassed(password);
    if hasCommon {
      score := if score - 2 > 0 then score - 2 else 0;
      feedback := feedback + [AvoidCommon];
    }
    assert feedback == f4 + (if hasCommon then [AvoidCommon] else []);
    assert f4 == f3 + (if hasSpecial then [] else [NeedSpecial]);
    assert f3 == f2 + (if hasDigit then [] else [NeedDigit]);
    assert f2 == f1 + (if hasMixedCase then [] else [NeedMixedCase]);
    assert f1 == (if length >= 8 then [] else [TooShort]);
    assert feedback == Feedback(password);
    return Strength(if score < 4 then score else 4, feedback, score >= 3);
  }

  /** A password with a common pattern is strong only when it passes all five
      checks; otherwise three passed checks suffice. */
  lemma StrongMeans(p: string)
    ensures HasCommonPattern(p) ==> (StrengthOf(p).isStrong <==> ChecksPassed(p) == 5)
    ensures !HasCommonPattern(p) ==> (StrengthOf(p).isStrong <==> ChecksPassed(p) >= 3)
  {
  }

  /** No feedback means every check is passed and no common pattern occurs,
      and then the password is strong with the top score. */
  lemma NoFeedbackMeansStrong(p: string)
    ensures Feedback(p) == [] <==>
      Utf16Length(p) >= 8 && HasLower(p) && HasUpper(p) && HasDigit(p) && HasSpecial(p) && !HasCommonPattern(p)
    ensures Feedback(p) == [] ==> StrengthOf(p).isStrong && StrengthOf(p).score >= 3
  {
  }

  /** Strength does not imply length: "aA1!" is strong with only four
      characters, so the form's separate minimum length rule is needed. */
  lemma ShortStrongPassword()
    ensures Utf16Length("aA1!") < 8 && StrengthOf("aA1!").isStrong && StrengthOf("aA1!").score == 3
  {
    var p := "aA1!";
    assert IsLower(p[0]) && IsUpper(p[1]) && IsDigit(p[2]) && IsSpecial(p[3]);
    NoPatternInShort(p);
  }

  /** Every common pattern has at least five characters. */
  lemma NoPatternInShort(p: string)
    requires |p| < 5
    ensures !HasCommonPattern(p)
  {
    forall k, i | 0 <= k < |CommonPatterns| && 0 <= i <= |ToLower(p)|
      ensures !OccursAt(ToLower(p), CommonPatterns[k], i)
    {
    }
  }

  /** A password that contains "password" can still be judged strong:
      "Password123!" passes all five checks and keeps a score of 3. */
  lemma CommonPatternCanStillBeStrong()
    ensures HasCommonPattern("Password123!") && StrengthOf("Password123!").isStrong
    ensures StrengthOf("Password123!").score == 3
  {
    PasswordHasCommonPattern();
    PasswordPassesAllChecks();
  }

  lemma PasswordHasCommonPattern()
    ensures HasCommonPattern("Password123!")
  {
    var p := "Password123!";
    assert ToLower(p)[0..8] == "password";
    assert OccursAt(ToLower(p), CommonPatterns[1], 0);
  }

  lemma PasswordPassesAllChecks()
    ensures ChecksPassed("Password123!") == 5
  {
    var p := "Password123!";
    PasswordUnits();
    assert IsUpper(p[0]) && IsLower(p[1]) && IsDigit(p[8]) && IsSpecial(p[11]);
    AllChecksPassed(p);
  }

  lemma PasswordUnits()
    ensures Utf16Length("Password123!") == 12
  {
    var p := "Password123!";
    assert forall i :: 0 <= i < |p| ==> p[i] as int < 0x1_0000;
    BmpLength(p);
  }

  /** A password shorter than 12 code units with no lower-case letter, no
      digit and no special character passes at most one check. */
  lemma NoClassesIsWeak(p: string)
    requires Utf16Length(p) < 12 && !HasLower(p) && !HasDigit(p) && !HasSpecial(p)
    ensures ChecksPassed(p) <= 1 && !StrengthOf(p).isStrong
  {
  }

  /** A password of 12 or more code units with all four character classes
      passes all five checks. */
  lemma AllChecksPassed(p: string)
    requires Utf16Length(p) >= 12 && HasLower(p) && HasUpper(p) && HasDigit(p) && HasSpecial(p)
    ensures ChecksPassed(p) == 5
  {
  }
}
