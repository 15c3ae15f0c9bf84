/**
 * The two regular expressions of the configuration, written as string
 * predicates: `URL_REGEX = /^https?:\/\/.+/` and
 * `EMAIL_REGEX = /^[^\s@]+@[^\s@]+\.[^\s@]+$/`.
 */
module Patterns {
  import opened Text

  /**
   * `URL_REGEX.test(s)`: `s` starts with `http://` or `https://` and the
   * next code unit exists and is not a line terminator. The pattern has no
   * `$`, so whatever follows is irrelevant.
   */
  predicate UrlMatches(s: string)
    ensures UrlMatches(s) ==> 7 < |s| && s[..4] == "http"
    ensures "http://" <= s && 7 < |s| && !IsLineTerminator(s[7]) ==> UrlMatches(s)
  {
    || (|s| > 7 && s[..7] == "http://" && !IsLineTerminator(s[7]))
    || (|s| > 8 && s[..8] == "https://" && !IsLineTerminator(s[8]))
  }

  /** A code unit that `[^\s@]` accepts. */
  predicate EmailUnit(c: char) {
    c != '@' && !IsSpace(c)
  }

  /**
   * `EMAIL_REGEX.test(s)`: the whole of `s` is a non-empty run, one `@`, a
   * non-empty run, a `.`, and a non-empty run, where a run holds neither
   * white space nor `@`. The runs around the `.` may themselves hold dots.
   */
  predicate EmailMatches(s: string)
    ensures EmailMatches(s) ==> 5 <= |s|
    ensures EmailMatches(s) ==> forall k :: 0 <= k < |s| ==> !IsSpace(s[k])
    ensures EmailMatches(s) ==> '@' in s && forall i, j :: 0 <= i < j < |s| && s[i] == '@' ==> s[j] != '@'
  {
    exists at, dot | 0 < at < |s| && 0 < dot < |s| ::
      && at + 1 < dot && dot + 1 < |s|
      && s[at] == '@' && s[dot] == '.'
      && forall k | 0 <= k < |s| :: k != at ==> EmailUnit(s[k])
  }

  /** The URL pattern is not anchored at the end: extending a match keeps it a match. */
  lemma UrlMatchesExtends(s: string, t: string)
    requires UrlMatches(s)
    ensures UrlMatches(s + t)
  {
    assert (s + t)[..7] == s[..7];
    if |s| > 8 {
      assert (s + t)[..8] == s[..8];
    }
  }

  /** A bare scheme is not a URL; one more character makes it one, unless it ends the line. */
  lemma UrlExamples()
    ensures !UrlMatches("https://") && !UrlMatches("http://")
    ensures UrlMatches("http://a") && UrlMatches("https://a")
    ensures !UrlMatches("http://\n") && !UrlMatches("ftp://a.example")
  {
    assert "https://"[..7] == "https:/";
    assert "http://a"[..7] == "http://";
    assert "https://a"[..8] == "https://";
    var f := "ftp://a.example";
    assert f[..7][0] == 'f' && f[..8][0] == 'f';
  }

  /** An email needs exactly one `@`, a dot after it with a unit on each side, and no white space. */
  lemma EmailExamples()
    ensures EmailMatches("a@b.c")
    ensures !EmailMatches("a@b")
    ensures !EmailMatches("a@@b.c")
    ensures !EmailMatches("a b@c.d")
  {
    var s := "a@b.c";
    assert s[1] == '@' && s[3] == '.';
    forall k | 0 <= k < |s| ensures k != 1 ==> EmailUnit(s[k]) {
    }
    var u := "a@@b.c";
    assert u[1] == '@' && u[2] == '@';
    var v := "a b@c.d";
    assert IsSpace(v[1]);
  }
}
