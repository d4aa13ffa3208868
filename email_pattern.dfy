/**
 * The e-mail pattern `^[^\s@]+@[^\s@]+\.[^\s@]+$` that both client forms
 * test (client/components/organisms/SignUpForm.tsx,
 * client/components/organisms/SignInForm.tsx), and its restatement as
 * plain conditions on the string.
 */
module EmailPattern {
  import opened Strings

  /** A character of the class `[^\s@]`. */
  predicate Plain(c: char) {
    !IsWhitespace(c) && c != '@'
  }

  /** Every character of `s[lo..hi]` is in `[^\s@]`. */
  predicate PlainRange(s: string, lo: int, hi: int) {
    forall k :: lo <= k < hi && 0 <= k < |s| ==> Plain(s[k])
  }

  /**
   * The pattern matches `s`: a non-empty plain run, `@` at `at`, a
   * non-empty plain run, `.` at `dot`, and a non-empty plain run to the end.
   */
  predicate SplitsAt(s: string, at: int, dot: int) {
    0 < at && at + 1 < dot && dot + 1 < |s|
    && s[at] == '@' && s[dot] == '.'
    && PlainRange(s, 0, at) && PlainRange(s, at + 1, dot) && PlainRange(s, dot + 1, |s|)
  }

  /** `emailRegex.test(s)` */
  predicate Matches(s: string)
    ensures Matches(s) ==> 5 <= |s| && s[0] != '@' && s[|s| - 1] != '@' && '@' in s
  {
    exists at, dot :: 0 <= at < |s| && 0 <= dot < |s| && SplitsAt(s, at, dot)
  }

  /** The `@` at `at` is the only one in `s`. */
  predicate OnlyAtSign(s: string, at: int) {
    0 <= at < |s| && s[at] == '@' && forall k :: 0 <= k < |s| && s[k] == '@' ==> k == at
  }

  /** The domain after the `@` at `at` has a `.` at `dot` that is neither its first nor its last character. */
  predicate InnerDot(s: string, at: int, dot: int) {
    0 <= at && at + 1 < dot < |s| - 1 && s[dot] == '.'
  }

  /**
   * The pattern in words: no whitespace, exactly one `@`, a non-empty part
   * before it, and a domain with an inner `.`.
   */
  predicate WellFormedAddress(s: string) {
    (forall k :: 0 <= k < |s| ==> !IsWhitespace(s[k]))
    && exists at :: 0 < at < |s| && OnlyAtSign(s, at) && exists dot :: 0 <= dot < |s| && InnerDot(s, at, dot)
  }

  /** The pattern and its restatement agree on every string. */
  lemma MatchesIff(s: string)
    ensures Matches(s) <==> WellFormedAddress(s)
  {
    if Matches(s) {
      var at, dot :| SplitsAt(s, at, dot);
      MatchForward(s, at, dot);
    }
    if WellFormedAddress(s) {
      var at :| 0 < at < |s| && OnlyAtSign(s, at) && exists dot :: 0 <= dot < |s| && InnerDot(s, at, dot);
      var dot :| 0 <= dot < |s| && InnerDot(s, at, dot);
      MatchBackward(s, at, dot);
    }
  }

  lemma MatchForward(s: string, at: int, dot: int)
    requires SplitsAt(s, at, dot)
    ensures WellFormedAddress(s)
  {
    assert !IsWhitespace('@') && !IsWhitespace('.');
    forall k | 0 <= k < |s| ensures !IsWhitespace(s[k]) && (s[k] == '@' ==> k == at) {
      if k != at && k != dot {
        assert Plain(s[k]);
      }
    }
    assert OnlyAtSign(s, at) && InnerDot(s, at, dot);
  }

  lemma MatchBackward(s: string, at: int, dot: int)
    requires (forall k :: 0 <= k < |s| ==> !IsWhitespace(s[k]))
    requires 0 < at && OnlyAtSign(s, at) && InnerDot(s, at, dot)
    ensures Matches(s)
  {
    forall k | 0 <= k < |s| && k != at ensures Plain(s[k]) {
    }
    assert SplitsAt(s, at, dot);
  }

  /** Two `@` signs are never accepted. */
  lemma TwoAtSignsRefused(s: string, i: int, j: int)
    requires 0 <= i < j < |s| && s[i] == '@' && s[j] == '@'
    ensures !Matches(s)
  {
    MatchesIff(s);
  }
}
