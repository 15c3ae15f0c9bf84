/**
 * The JavaScript string operations the archive relies on: `trim()`, the
 * `\s` and `.` character classes, `replace(/[<>]/g, '')` and
 * `substring(0, n)`. A character stands for one UTF-16 code unit, which
 * it is for text inside the Basic Multilingual Plane.
 */
module Text {

  /** Line terminators: the characters that the regular-expression `.` does not match. */
  predicate IsLineTerminator(c: char) {
    c == '\n' || c == '\r' || c == '\U{2028}' || c == '\U{2029}'
  }

  /**
   * White space as `trim()` and `\s` both see it: the line terminators plus
   * the ECMAScript WhiteSpace characters.
   */
  predicate IsSpace(c: char) {
    || IsLineTerminator(c)
    || c == ' ' || c == '\t' || c == '\U{000B}' || c == '\U{000C}'
    || c == '\U{00A0}' || c == '\U{1680}' || ('\U{2000}' <= c <= '\U{200A}')
    || c == '\U{202F}' || c == '\U{205F}' || c == '\U{3000}' || c == '\U{FEFF}'
  }

  predicate IsAngle(c: char) {
    c == '<' || c == '>'
  }

  /** `trimStart()`: drops the leading white space. */
  function TrimStart(s: string): (r: string)
    ensures |r| <= |s|
  {
    if |s| > 0 && IsSpace(s[0]) then TrimStart(s[1..]) else s
  }

  /** `trimEnd()`: drops the trailing white space. */
  function TrimEnd(s: string): (r: string)
    ensures |r| <= |s|
  {
    if |s| > 0 && IsSpace(s[|s| - 1]) then TrimEnd(s[..|s| - 1]) else s
  }

  /** `trimStart()` drops exactly the leading white space: a suffix remains that does not start with white space. */
  lemma {:induction false} TrimStartDropsLeadingSpace(s: string)
    ensures var r := TrimStart(s);
            && r == s[|s| - |r|..]
            && (r == [] || !IsSpace(r[0]))
            && (forall i :: 0 <= i < |s| - |r| ==> IsSpace(s[i]))
  {
    if |s| > 0 && IsSpace(s[0]) {
      TrimStartDropsLeadingSpace(s[1..]);
      assert forall i :: 1 <= i < |s| ==> s[i] == s[1..][i - 1];
    }
  }

  /** `trimEnd()` drops exactly the trailing white space: a prefix remains that does not end with white space. */
  lemma {:induction false} TrimEndDropsTrailingSpace(s: string)
    ensures var r := TrimEnd(s);
            && r == s[..|r|]
            && (r == [] || !IsSpace(r[|r| - 1]))
            && (forall i :: |r| <= i < |s| ==> IsSpace(s[i]))
  {
    if |s| > 0 && IsSpace(s[|s| - 1]) {
      var t := s[..|s| - 1];
      TrimEndDropsTrailingSpace(t);
      assert forall i :: 0 <= i < |t| ==> s[i] == t[i];
    }
  }

  /** `trim()`: drops the white space at both ends. */
  function Trim(s: string): (r: string)
    ensures |r| <= |s|
  {
    TrimEnd(TrimStart(s))
  }

  /** Trimming keeps a slice of `s` that neither starts nor ends with white space. */
  lemma TrimIsSlice(s: string)
    ensures var i := |s| - |TrimStart(s)|; var r := Trim(s);
            && 0 <= i <= |s| - |r|
            && r == s[i..i + |r|]
            && (r == [] || (!IsSpace(r[0]) && !IsSpace(r[|r| - 1])))
  {
    var t := TrimStart(s);
    var r := TrimEnd(t);
    var i := |s| - |t|;
    TrimStartDropsLeadingSpace(s);
    TrimEndDropsTrailingSpace(t);
    assert s[i..][..|r|] == s[i..i + |r|];
    if r != [] {
      assert r[0] == t[0];
    }
  }

  /** What trimming drops is white space, at the two ends only. */
  lemma TrimDropsOnlySpace(s: string)
    ensures var i := |s| - |TrimStart(s)|;
            && (forall k :: 0 <= k < i ==> IsSpace(s[k]))
            && (forall k :: i + |Trim(s)| <= k < |s| ==> IsSpace(s[k]))
  {
    var t := TrimStart(s);
    var i := |s| - |t|;
    TrimStartDropsLeadingSpace(s);
    TrimEndDropsTrailingSpace(t);
    forall k | i + |Trim(s)| <= k < |s|
      ensures IsSpace(s[k])
    {
      assert s[k] == t[k - i];
    }
  }

  /** A string that is blank after trimming is white space throughout, and conversely. */
  lemma TrimBlankIff(s: string)
    ensures Trim(s) == [] <==> forall i :: 0 <= i < |s| ==> IsSpace(s[i])
  {
    var t := TrimStart(s);
    TrimStartDropsLeadingSpace(s);
    TrimEndDropsTrailingSpace(t);
    if t != [] {
      assert t[0] == s[|s| - |t|];
      assert forall i :: 0 <= i < |t| ==> t[i] == s[i + (|s| - |t|)];
    }
  }

  /** A string without white space at either end is its own trim. */
  lemma TrimFixpoint(s: string)
    requires s == [] || (!IsSpace(s[0]) && !IsSpace(s[|s| - 1]))
    ensures Trim(s) == s
  {
  }

  /** Trimming twice is trimming once. */
  lemma TrimIdempotent(s: string)
    ensures Trim(Trim(s)) == Trim(s)
  {
    TrimIsSlice(s);
    TrimFixpoint(Trim(s));
  }

  /** `replace(/[<>]/g, '')`: deletes every angle bracket. */
  function StripAngles(s: string): (r: string)
    ensures |r| <= |s|
    ensures forall i :: 0 <= i < |r| ==> !IsAngle(r[i])
  {
    if s == [] then []
    else if IsAngle(s[0]) then StripAngles(s[1..]) else [s[0]] + StripAngles(s[1..])
  }

  /** Stripping deletes only brackets: every other character keeps its number of occurrences. */
  lemma {:induction false} StripAnglesKeepsOthers(s: string, c: char)
    requires !IsAngle(c)
    ensures multiset(StripAngles(s))[c] == multiset(s)[c]
  {
    if s != [] {
      assert s == [s[0]] + s[1..];
      StripAnglesKeepsOthers(s[1..], c);
    }
  }

  /** Stripping works character by character, keeping the order of what it keeps. */
  lemma {:induction false} StripAnglesAppend(a: string, b: string)
    ensures StripAngles(a + b) == StripAngles(a) + StripAngles(b)
  {
    if a != [] {
      assert (a + b)[1..] == a[1..] + b;
      StripAnglesAppend(a[1..], b);
    } else {
      assert a + b == b;
    }
  }

  /** A string without angle brackets is left as it is. */
  lemma {:induction false} StripAnglesFixpoint(s: string)
    requires forall i :: 0 <= i < |s| ==> !IsAngle(s[i])
    ensures StripAngles(s) == s
  {
    if s != [] {
      StripAnglesFixpoint(s[1..]);
    }
  }

  /** `substring(0, n)`: the first `n` code units, or all of `s` when it is shorter. */
  function Prefix(s: string, n: nat): (r: string)
    ensures |r| == (if |s| <= n then |s| else n)
    ensures r == s[..|r|]
  {
    if |s| <= n then s else s[..n]
  }
}
