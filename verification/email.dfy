/**
  The registration page's email test, the regular expression
  `^[^\s@]+@[^\s@]+\.[^\s@]+$`, stated two ways: as the regular expression's
  own shape, and as the plain conditions it amounts to.
 */
module EmailShape {
  import opened JsText

  /** A character matched by `[^\s@]`. */
  predicate Plain(c: char) {
    !IsJsSpace(c) && c != '@'
  }

  predicate AllPlain(s: string) {
    forall k :: 0 <= k < |s| ==> Plain(s[k])
  }

  /**
    The regular expression matches `s`: three non-empty runs of `[^\s@]`
    around an `@` at `at` and a `.` at `dot`.
   */
  ghost predicate MatchesAt(s: string, at: int, dot: int) {
    && 0 < at && at + 1 < dot && dot + 1 < |s|
    && s[at] == '@' && s[dot] == '.'
    && AllPlain(s[..at]) && AllPlain(s[at + 1..dot]) && AllPlain(s[dot + 1..])
  }

  ghost predicate MatchesEmailRegex(s: string) {
    exists at, dot :: MatchesAt(s, at, dot)
  }

  predicate NoSpace(s: string) {
    forall k :: 0 <= k < |s| ==> !IsJsSpace(s[k])
  }

  /** `d` has a `.` that is neither its first nor its last character. */
  predicate HasInnerDot(d: string) {
    exists k :: 1 <= k <= |d| - 2 && d[k] == '.'
  }

  /**
    The test the page applies: exactly one `@` (no second one after the
    first), no white space, something before the `@`, and an inner dot in
    what follows it.
   */
  predicate IsValidEmail(s: string) {
    && '@' in s
    && var at := IndexOf(s, '@');
    && '@' !in s[at + 1..]
    && NoSpace(s)
    && at > 0
    && HasInnerDot(s[at + 1..])
  }

  lemma RegexToConditions(s: string, at: int, dot: int)
    requires MatchesAt(s, at, dot)
    ensures IsValidEmail(s)
  {
    assert forall k :: 0 <= k < at ==> s[..at][k] == s[k];
    assert '@' !in s[..at];
    IndexOfIs(s, '@', at);
    var d := s[at + 1..];
    forall k | 0 <= k < |d|
      ensures d[k] != '@'
    {
      if at + 1 + k < dot {
        assert d[k] == s[at + 1..dot][k];
      } else if at + 1 + k > dot {
        assert d[k] == s[dot + 1..][k - (dot - at)];
      }
    }
    forall k | 0 <= k < |s|
      ensures !IsJsSpace(s[k])
    {
      if k < at {
        assert s[k] == s[..at][k];
      } else if at < k < dot {
        assert s[k] == s[at + 1..dot][k - at - 1];
      } else if dot < k {
        assert s[k] == s[dot + 1..][k - dot - 1];
      }
    }
    assert d[dot - at - 1] == '.';
  }

  lemma ConditionsToRegex(s: string)
    requires IsValidEmail(s)
    ensures MatchesEmailRegex(s)
  {
    var at := IndexOf(s, '@');
    var d := s[at + 1..];
    var k :| 1 <= k <= |d| - 2 && d[k] == '.';
    var dot := at + 1 + k;
    assert s[dot] == '.';
    forall m | 0 <= m < |s| && m != at
      ensures Plain(s[m])
    {
      if m > at {
        assert s[m] == d[m - at - 1];
      }
    }
    assert AllPlain(s[..at]) by {
      forall m | 0 <= m < at ensures Plain(s[..at][m]) { assert s[..at][m] == s[m]; }
    }
    var domain := s[at + 1..dot];
    assert AllPlain(domain) by {
      forall m | 0 <= m < |domain| ensures Plain(domain[m]) { assert domain[m] == s[at + 1 + m]; }
    }
    var tld := s[dot + 1..];
    assert AllPlain(tld) by {
      forall m | 0 <= m < |tld| ensures Plain(tld[m]) { assert tld[m] == s[dot + 1 + m]; }
    }
    assert MatchesAt(s, at, dot);
  }

  /** The page's conditions hold exactly when the regular expression matches. */
  lemma EmailTestIsRegex(s: string)
    ensures IsValidEmail(s) <==> MatchesEmailRegex(s)
  {
    if IsValidEmail(s) {
      ConditionsToRegex(s);
    }
    if MatchesEmailRegex(s) {
      var at, dot :| MatchesAt(s, at, dot);
      RegexToConditions(s, at, dot);
    }
  }
}
