/** The client-side email test `/\S+@\S+\.\S+/.test(s)` shared by the signup
    and sign-in forms (src/components/Singup.tsx:48, src/components/Signin.tsx:24).
    The expression is not anchored, so it holds when SOME substring of `s`
    is one or more non-space characters, `@`, one or more non-space
    characters, `.`, and one or more non-space characters. */
module EmailPattern {
  import opened Common

  predicate NonSpace(t: string) {
    forall k :: 0 <= k < |t| ==> !IsSpace(t[k])
  }

  /** The substring `s[i..j]` is a match of the expression, split at the
      `@` at `at` and the `.` at `dot`. */
  predicate MatchAt(s: string, i: int, at: int, dot: int, j: int) {
    0 <= i < at && at + 1 < dot && dot + 1 < j <= |s|
    && s[at] == '@' && s[dot] == '.'
    && NonSpace(s[i..at]) && NonSpace(s[at + 1..dot]) && NonSpace(s[dot + 1..j])
  }

  /** What `test` decides: some substring matches. */
  ghost predicate PatternMatches(s: string) {
    exists i, at, dot, j :: MatchAt(s, i, at, dot, j)
  }

  /** The shortest candidate around an `@` at `at` and a `.` at `dot`: one
      character before the `@`, everything up to the `.`, one after it. */
  predicate Candidate(s: string, at: int, dot: int) {
    1 <= at && at + 1 < dot && dot + 1 < |s|
    && s[at] == '@' && s[dot] == '.'
    && !IsSpace(s[at - 1]) && !IsSpace(s[dot + 1])
    && forall k :: at < k < dot ==> !IsSpace(s[k])
  }

  /** A decision procedure for the expression: look for an `@` and a later
      `.` with the characters the expression needs around them. */
  predicate MatchesEmail(s: string) {
    exists at, dot | 0 <= at < dot < |s| :: Candidate(s, at, dot)
  }

  /** The decision procedure agrees with the expression on every string. */
  lemma MatchesEmailIsPattern(s: string)
    ensures MatchesEmail(s) <==> PatternMatches(s)
  {
    if MatchesEmail(s) {
      var at, dot :| 0 <= at < dot < |s| && Candidate(s, at, dot);
      assert MatchAt(s, at - 1, at, dot, dot + 2) by {
        assert s[at - 1..at] == [s[at - 1]];
        assert s[dot + 1..dot + 2] == [s[dot + 1]];
        var middle := s[at + 1..dot];
        forall k | 0 <= k < |middle| ensures !IsSpace(middle[k]) {
          assert middle[k] == s[at + 1 + k];
        }
      }
    }
    if PatternMatches(s) {
      var i, at, dot, j :| MatchAt(s, i, at, dot, j);
      assert s[i..at][at - 1 - i] == s[at - 1];
      assert s[dot + 1..j][0] == s[dot + 1];
      forall k | at < k < dot ensures !IsSpace(s[k]) {
        assert s[at + 1..dot][k - at - 1] == s[k];
      }
      assert Candidate(s, at, dot);
    }
  }

  /** A string the expression accepts contains an `@`. */
  lemma MatchHasAt(s: string)
    requires MatchesEmail(s)
    ensures '@' in s
  {
    var at, dot :| 0 <= at < dot < |s| && Candidate(s, at, dot);
    assert s[at] == '@';
  }

  /** The smallest accepted shape. */
  lemma AcceptsMinimal()
    ensures MatchesEmail("a@b.c")
  {
    assert Candidate("a@b.c", 1, 3);
  }

  /** Without a `.` after the `@`, or with nothing before the `@`, the test fails. */
  lemma RejectsIncomplete()
    ensures !MatchesEmail("a@b")
    ensures !MatchesEmail("@b.c")
    ensures !MatchesEmail("a@.c")
  {
    var s1, s2, s3 := "a@b", "@b.c", "a@.c";
    assert forall dot :: 0 <= dot < |s1| ==> s1[dot] != '.';
    assert forall at :: 1 <= at < |s2| ==> s2[at] != '@';
    assert forall at :: 0 <= at < |s3| && s3[at] == '@' ==> at == 1;
    assert forall dot :: 0 <= dot < |s3| && s3[dot] == '.' ==> dot == 2;
  }
}
