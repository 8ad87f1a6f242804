/** The e-mail check of both contact forms: the regular expression
    `^[^\s@]+@[^\s@]+\.[^\s@]+$`, written as a string predicate and proved
    equal to the pattern's meaning. */
module EmailCheck {
  import opened Text

  /** A character of the class `[^\s@]`. */
  predicate IsAddressChar(c: char) {
    !IsWhitespace(c) && c != '@'
  }

  /** Index of the first occurrence of `c` in `s`. */
  function IndexOf(s: string, c: char): (i: nat)
    requires c in s
    ensures i < |s| && s[i] == c && c !in s[..i]
  {
    if s[0] == c then 0
    else
      assert c in s[1..] by { assert s == [s[0]] + s[1..]; }
      var j := IndexOf(s[1..], c);
      assert s[..j + 1] == [s[0]] + s[1..][..j];
      j + 1
  }

  /** A `.` that is neither the first nor the last character. */
  predicate HasInnerDot(d: string) {
    exists j :: 0 < j < |d| - 1 && d[j] == '.'
  }

  /** The check as a hand-written predicate: no white space, exactly one `@`,
      a non-empty part before it, and a domain holding a `.` strictly inside. */
  predicate IsValidEmail(s: string) {
    && (forall k :: 0 <= k < |s| ==> !IsWhitespace(s[k]))
    && '@' in s
    && var at := IndexOf(s, '@');
       && '@' !in s[at + 1..]
       && at > 0
       && HasInnerDot(s[at + 1..])
  }

  /** What the regular expression matches: `s` is `a@b.c` with `a`, `b`, `c`
      non-empty runs of `[^\s@]` (the `\.` may be any dot of the domain, since
      `[^\s@]+` before it backtracks). */
  ghost predicate MatchesEmailPattern(s: string) {
    exists i, j ::
      && 0 < i && i + 1 < j && j + 1 < |s|
      && s[i] == '@' && s[j] == '.'
      && forall k :: 0 <= k < |s| && k != i ==> IsAddressChar(s[k])
  }

  /** The hand-written predicate accepts exactly the strings the pattern matches. */
  lemma EmailCheckMatchesPattern(s: string)
    ensures IsValidEmail(s) <==> MatchesEmailPattern(s)
  {
    if IsValidEmail(s) {
      var at := IndexOf(s, '@');
      var d := s[at + 1..];
      var j :| 0 < j < |d| - 1 && d[j] == '.';
      assert s[at + 1 + j] == d[j];
      forall k | 0 <= k < |s| && k != at ensures IsAddressChar(s[k]) {
        if k < at {
          assert s[k] == s[..at][k];
        } else {
          assert s[k] == d[k - at - 1];
        }
      }
    }
    if MatchesEmailPattern(s) {
      var i, j :| && 0 < i && i + 1 < j && j + 1 < |s|
                  && s[i] == '@' && s[j] == '.'
                  && forall k :: 0 <= k < |s| && k != i ==> IsAddressChar(s[k]);
      assert '@' in s;
      var at := IndexOf(s, '@');
      assert at == i;
      var d := s[at + 1..];
      assert '@' !in d by {
        forall k | 0 <= k < |d| ensures d[k] != '@' {
          assert d[k] == s[at + 1 + k];
        }
      }
      assert d[j - at - 1] == '.';
    }
  }

  // Examples from the form's behaviour.
  /** A string without an `@` is rejected. */
  lemma RejectsWithoutAt(s: string)
    requires forall k :: 0 <= k < |s| ==> s[k] != '@'
    ensures !IsValidEmail(s)
  {
  }

  lemma RejectsPlainWord()
    ensures !IsValidEmail("not-an-email")
  {
    var s := "not-an-email";
    assert forall k :: 0 <= k < |s| ==> s[k] != '@';
    RejectsWithoutAt(s);
  }

  lemma AcceptsSimpleAddress()
    ensures IsValidEmail("a@b.co")
  {
    var s := "a@b.co";
    assert IndexOf(s, '@') == 1;
    assert s[2..][1] == '.';
  }
}
