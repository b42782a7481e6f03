/** The email check the sign-up, login and both reset screens share: the
    pattern `^[^\s@]+@[^\s@]+\.[^\s@]+$`. */
module Email {
  import Text

  /** A run the pattern's `[^\s@]+` pieces may cover: no white space and no
      `@`. */
  predicate Clean(part: string) {
    forall k :: 0 <= k < |part| ==> !Text.IsSpace(part[k]) && part[k] != '@'
  }

  /** The pattern read literally: a non-empty clean part, `@`, a non-empty
      clean part, `.`, a non-empty clean part, and nothing else. */
  ghost predicate MatchesPattern(s: string) {
    exists a: string, b: string, c: string ::
      |a| >= 1 && |b| >= 1 && |c| >= 1 && Clean(a) && Clean(b) && Clean(c) && s == a + ['@'] + b + ['.'] + c
  }

  /** The same shape by positions: no white space, exactly one `@` and it
      is not first, and a `.` at least two places after it that is not
      last. */
  predicate Valid(s: string) {
    && (forall k :: 0 <= k < |s| ==> !Text.IsSpace(s[k]))
    && exists i, j :: 1 <= i && i + 2 <= j && j + 1 < |s| && s[i] == '@' && s[j] == '.'
                      && forall k :: 0 <= k < |s| && k != i ==> s[k] != '@'
  }

  lemma PatternGivesValid(a: string, b: string, c: string)
    requires |a| >= 1 && |b| >= 1 && |c| >= 1 && Clean(a) && Clean(b) && Clean(c)
    ensures Valid(a + ['@'] + b + ['.'] + c)
  {
    var s := a + ['@'] + b + ['.'] + c;
    var i := |a|;
    var j := |a| + 1 + |b|;
    assert s[i] == '@' && s[j] == '.';
    forall k | 0 <= k < |s|
      ensures !Text.IsSpace(s[k]) && (k != i ==> s[k] != '@')
    {
      if k < i {
        assert s[k] == a[k];
      } else if i < k < j {
        assert s[k] == b[k - i - 1];
      } else if j < k {
        assert s[k] == c[k - j - 1];
      }
    }
  }

  lemma ValidGivesPattern(s: string)
    requires Valid(s)
    ensures MatchesPattern(s)
  {
    var i, j :| 1 <= i && i + 2 <= j && j + 1 < |s| && s[i] == '@' && s[j] == '.'
                && forall k :: 0 <= k < |s| && k != i ==> s[k] != '@';
    var a, b, c := s[..i], s[i + 1..j], s[j + 1..];
    assert s == a + ['@'] + b + ['.'] + c;
    assert Clean(a) && Clean(b) && Clean(c) by {
      assert forall k :: 0 <= k < |a| ==> a[k] == s[k];
      assert forall k :: 0 <= k < |b| ==> b[k] == s[i + 1 + k];
      assert forall k :: 0 <= k < |c| ==> c[k] == s[j + 1 + k];
    }
  }

  /** The positional form is the pattern. */
  lemma ValidIffPattern(s: string)
    ensures Valid(s) <==> MatchesPattern(s)
  {
    if Valid(s) {
      ValidGivesPattern(s);
    }
    if MatchesPattern(s) {
      var a, b, c :| |a| >= 1 && |b| >= 1 && |c| >= 1 && Clean(a) && Clean(b) && Clean(c)
                     && s == a + ['@'] + b + ['.'] + c;
      PatternGivesValid(a, b, c);
    }
  }

  /** One left-to-right pass deciding the pattern. */
  method Check(s: string) returns (ok: bool)
    ensures ok <==> Valid(s)
    ensures ok <==> MatchesPattern(s)
  {
    var clean := true;
    var at: int := -1;
    var twoAts := false;
    var dot := false;
    var n := 0;
    while n < |s|
      invariant 0 <= n <= |s|
      invariant clean <==> forall k :: 0 <= k < n ==> !Text.IsSpace(s[k])
      invariant -1 <= at < n
      invariant at == -1 <==> forall k :: 0 <= k < n ==> s[k] != '@'
      invariant at >= 0 ==> s[at] == '@' && forall k :: 0 <= k < at ==> s[k] != '@'
      invariant twoAts <==> at >= 0 && exists k :: at < k < n && s[k] == '@'
      invariant dot <==> at >= 0 && exists j :: at + 2 <= j < n && j + 1 < |s| && s[j] == '.'
    {
      var ch := s[n];
      if Text.IsSpace(ch) {
        clean := false;
      }
      if ch == '@' {
        if at == -1 {
          at := n;
        } else {
          twoAts := true;
        }
      } else if ch == '.' && at >= 0 && at + 2 <= n && n + 1 < |s| {
        dot := true;
      }
      n := n + 1;
    }
    ok := clean && at >= 1 && !twoAts && dot;
    assert ok ==> Valid(s) by {
      if ok {
        var j :| at + 2 <= j < n && j + 1 < |s| && s[j] == '.';
        assert forall k :: 0 <= k < |s| && k != at ==> s[k] != '@';
      }
    }
    assert Valid(s) ==> ok by {
      if Valid(s) {
        var i, j :| 1 <= i && i + 2 <= j && j + 1 < |s| && s[i] == '@' && s[j] == '.'
                    && forall k :: 0 <= k < |s| && k != i ==> s[k] != '@';
        assert at == i;
      }
    }
    ValidIffPattern(s);
  }

  /** Two examples of the pattern's reach. */
  lemma Examples()
    ensures Valid("a@b.co")
    ensures !Valid("a@b.")
    ensures !Valid("a@@b.co")
  {
    PatternGivesValid("a", "b", "co");
    assert "a" + ['@'] + "b" + ['.'] + "co" == "a@b.co";
    var t := "a@@b.co";
    assert t[1] == '@' && t[2] == '@';
  }
}
