/** The forgot-password page: `handleSubmit` accepts the email only when it is non-empty
    and the unanchored regular expression `/\S+@\S+\.\S+/` finds a match in it; an
    accepted submission clears the input field. (The call to the backend is commented
    out in this page.) */
module ForgotPasswordPage {
  import opened Text

  /** The match of `\S+@\S+\.\S+` that occupies `s[i..j]`, with the `@` at `a` and the
      `.` at `d`: three non-empty runs without white space around them. */
  predicate PatternAt(s: string, i: nat, a: nat, d: nat, j: nat)
  {
    i < a && a + 1 < d && d + 1 < j <= |s| && s[a] == '@' && s[d] == '.'
    && NoSpaceIn(s, i, a) && NoSpaceIn(s, a + 1, d) && NoSpaceIn(s, d + 1, j)
  }

  /** What `RegExp.prototype.test` answers: some substring of `s` matches. */
  ghost predicate MatchesPattern(s: string)
  {
    exists i, a, d, j :: PatternAt(s, i, a, d, j)
  }

  /** The shortest match with its `@` at `a` and its `.` at `d`. */
  predicate ShortestAt(s: string, a: nat, d: nat)
  {
    0 < a && a + 1 < d && d + 1 < |s| && s[a] == '@' && s[d] == '.'
    && !IsSpace(s[a - 1]) && NoSpaceIn(s, a + 1, d) && !IsSpace(s[d + 1])
  }

  /** The test as a scan for its shortest witnesses: an `@` with a non-space character
      before it, then a later `.` with a non-space character after it and only
      non-space characters (at least one) between the two. */
  predicate LooksLikeEmail(s: string)
  {
    exists a, d | 0 < a < |s| && a + 1 < d < |s| - 1 :: ShortestAt(s, a, d)
  }

  lemma LooksLikeEmailIsPattern(s: string)
    ensures LooksLikeEmail(s) <==> MatchesPattern(s)
  {
    if LooksLikeEmail(s) {
      var a: nat, d: nat :| 0 < a < |s| && a + 1 < d < |s| - 1 && ShortestAt(s, a, d);
      assert NoSpaceIn(s, a - 1, a);
      assert NoSpaceIn(s, d + 1, d + 2);
      assert PatternAt(s, a - 1, a, d, d + 2);
    }
    if MatchesPattern(s) {
      var i: nat, a: nat, d: nat, j: nat :| PatternAt(s, i, a, d, j);
      assert ShortestAt(s, a, d);
    }
  }

  datatype Submission = Submission(accepted: bool, emailField: string)

  /** `handleSubmit`: accepted exactly when the pattern matches somewhere in the email
      (which rules out the empty email); an accepted submission leaves the field empty,
      a rejected one leaves it as it was. */
  function HandleSubmit(email: string): (r: Submission)
    ensures r.accepted <==> MatchesPattern(email)
    ensures r.emailField == if r.accepted then "" else email
  {
    LooksLikeEmailIsPattern(email);
    if email == "" || !LooksLikeEmail(email) then Submission(false, email) else Submission(true, "")
  }

  /** An `@` that is never followed by a `.` cannot be matched. */
  lemma NoDotAfterAtRejected(s: string)
    requires forall a, d :: 0 <= a < d < |s| && s[a] == '@' ==> s[d] != '.'
    ensures !MatchesPattern(s)
  {
  }

  lemma ShortAddressRejected()
    ensures !HandleSubmit("a@b").accepted
  {
    NoDotAfterAtRejected("a@b");
  }

  /** The pattern is not anchored: text around an address does not matter. */
  lemma SurroundedAddressAccepted()
    ensures HandleSubmit("hi a@b.c !").accepted
  {
    assert PatternAt("hi a@b.c !", 3, 4, 6, 8);
  }

  /** White space before the `@` breaks the first run. */
  lemma SpaceBeforeAtRejected()
    ensures !HandleSubmit("a @b.c").accepted
  {
    var s := "a @b.c";
    if MatchesPattern(s) {
      var i, a, d, j :| PatternAt(s, i, a, d, j);
      assert a == 2;
      assert IsSpace(s[1]);
    }
  }
}
