/** The password rules that the registration page and the password-reset page both
    declare: at least MIN_LENGTH UTF-16 code units, and a match for each of the
    regular expressions `[A-Z]`, `[0-9]` and the special-character class. */
module PasswordRules {
  import opened Text

  const MIN_LENGTH: nat := 8

  /** The members of the class `[!@#$%^&*()_+\-=\[\]{};':"\\|,.<>\/?]`. */
  const SPECIAL_CHARS: string := "!@#$%^&*()_+-=[]{};':\"\\|,.<>/?"

  predicate LongEnough(s: string)
  {
    Utf16Length(s) >= MIN_LENGTH
  }

  /** `/[A-Z]/.test(s)`. */
  predicate HasUppercase(s: string)
  {
    exists k :: 0 <= k < |s| && 'A' <= s[k] <= 'Z'
  }

  /** `/[0-9]/.test(s)`. */
  predicate HasNumber(s: string)
  {
    exists k :: 0 <= k < |s| && '0' <= s[k] <= '9'
  }

  /** The unanchored test of the special-character class followed by `+`: it succeeds as
      soon as one character of the class occurs. */
  predicate HasSpecialChar(s: string)
  {
    exists k :: 0 <= k < |s| && s[k] in SPECIAL_CHARS
  }

  predicate Strong(s: string)
  {
    LongEnough(s) && HasUppercase(s) && HasNumber(s) && HasSpecialChar(s)
  }

  /** Four characters outside the Basic Multilingual Plane already reach the minimum
      length, because each counts as two code units. */
  lemma AstralCharsCountTwice(s: string)
    requires |s| == 4 && forall k :: 0 <= k < 4 ==> s[k] as int > 0xFFFF
    ensures LongEnough(s)
  {
    var s1, s2, s3 := s[1..], s[2..], s[3..];
    assert s1[1..] == s2 && s2[1..] == s3 && s3[1..] == [];
    assert s1[0] == s[1] && s2[0] == s[2] && s3[0] == s[3];
    assert Utf16Length(s3) == 2;
    assert Utf16Length(s2) == 4;
    assert Utf16Length(s1) == 6;
  }
}
