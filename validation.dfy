/**
 * Payload validation and input sanitisation. Each validator checks every
 * rule and reports the message of each broken rule, in a fixed order.
 */
module Validation {
  import opened Wrappers
  import opened Constants
  import opened Text
  import opened Patterns
  import opened Records

  /** The rules the two validators check. */
  datatype Rule =
    | EmailInvalid | NameMissing | GoogleIdMissing
    | TitleMissing | TitleTooLong | UrlInvalid | ContentTooShort | ContentTooLarge | WebsiteMissing

  /** The message each check pushes; none is empty, and none is a message the store throws. */
  function Message(r: Rule): (m: string)
    ensures 0 < |m|
    ensures m != MSG_MAX_ARTICLES_REACHED && m != MSG_DUPLICATE_ARTICLE
  {
    match r
    case EmailInvalid => "Valid email is required"
    case NameMissing => "Name is required"
    case GoogleIdMissing => "Google ID is required"
    case TitleMissing => "Title is required"
    case TitleTooLong => "Title too long (max 200 characters)"
    case UrlInvalid => "Valid URL is required"
    case ContentTooShort => "Article content is required (minimum 100 characters)"
    case ContentTooLarge => MSG_ARTICLE_TOO_LARGE
    case WebsiteMissing => "Website name is required"
  }

  /** The rules of `validateUser`, in the order it checks them. */
  const UserRules: seq<Rule> := [EmailInvalid, NameMissing, GoogleIdMissing]
  /** The rules of `validateArticle`, in the order it checks them. */
  const ArticleRules: seq<Rule> :=
    [TitleMissing, TitleTooLong, UrlInvalid, ContentTooShort, ContentTooLarge, WebsiteMissing]

  /** `!v || v.trim().length < 1`. */
  predicate Blank(v: Option<string>) {
    v.None? || Trim(v.value) == []
  }

  /** A field is blank exactly when it is absent or white space throughout. */
  lemma BlankIff(v: Option<string>)
    ensures Blank(v) <==> v.None? || forall i :: 0 <= i < |v.value| ==> IsSpace(v.value[i])
  {
    if v.Some? {
      TrimBlankIff(v.value);
    }
  }

  /** Whether the user profile `u` breaks rule `r`: the condition of each `if` of `validateUser`. */
  predicate UserBreaks(u: UserData, r: Rule)
    ensures UserBreaks(u, r) ==> r in UserRules
  {
    match r
    case EmailInvalid => u.email.None? || !EmailMatches(u.email.value)
    case NameMissing => Blank(u.name)
    case GoogleIdMissing => Blank(u.googleId)
    case _ => false
  }

  /**
   * Whether the article payload `a` breaks rule `r`: the condition of each
   * `if` of `validateArticle`. The title length is that of the untrimmed title.
   */
  predicate ArticleBreaks(a: ArticleData, r: Rule)
    ensures ArticleBreaks(a, r) ==> r in ArticleRules
  {
    match r
    case TitleMissing => Blank(a.title)
    case TitleTooLong => a.title.Some? && |a.title.value| > MAX_TITLE_LENGTH
    case UrlInvalid => a.url.None? || !UrlMatches(a.url.value)
    case ContentTooShort => a.content.None? || |Trim(a.content.value)| < MIN_CONTENT_LENGTH
    case ContentTooLarge => a.content.Some? && |a.content.value| > MAX_ARTICLE_SIZE
    case WebsiteMissing => Blank(a.website)
    case _ => false
  }

  /**
   * The positions `k < n` whose check failed (`failed[k]`), in increasing
   * order: a validator runs its checks one after the other and pushes an
   * error for each one that fails.
   */
  function Failing(failed: seq<bool>, n: nat): (ks: seq<nat>)
    requires n <= |failed|
    ensures |ks| <= n
    ensures forall i :: 0 <= i < |ks| ==> ks[i] < n && failed[ks[i]]
    ensures forall i, j :: 0 <= i < j < |ks| ==> ks[i] < ks[j]
    ensures forall k :: 0 <= k < n && failed[k] ==> k in ks
  {
    if n == 0 then [] else Failing(failed, n - 1) + (if failed[n - 1] then [n - 1] else [])
  }

  /** The messages of the rules at positions `ks`, in that order. */
  function MessagesAt(rules: seq<Rule>, ks: seq<nat>): (ms: seq<string>)
    requires forall i :: 0 <= i < |ks| ==> ks[i] < |rules|
    ensures |ms| == |ks|
  {
    seq(|ks|, i requires 0 <= i < |ks| => Message(rules[ks[i]]))
  }

  /** The outcome of each check of `validateUser`, in checking order. */
  function UserChecks(u: UserData): seq<bool> {
    seq(|UserRules|, k requires 0 <= k < |UserRules| => UserBreaks(u, UserRules[k]))
  }

  /** The outcome of each check of `validateArticle`, in checking order. */
  function ArticleChecks(a: ArticleData): seq<bool> {
    seq(|ArticleRules|, k requires 0 <= k < |ArticleRules| => ArticleBreaks(a, ArticleRules[k]))
  }

  /** What `validateUser(u).errors` is. */
  function UserErrors(u: UserData): seq<string> {
    MessagesAt(UserRules, Failing(UserChecks(u), |UserRules|))
  }

  /** What `validateArticle(a).errors` is. */
  function ArticleErrors(a: ArticleData): seq<string> {
    MessagesAt(ArticleRules, Failing(ArticleChecks(a), |ArticleRules|))
  }

  /** The result object `{isValid, errors}`. */
  datatype Verdict = Verdict(isValid: bool, errors: seq<string>)

  /** No two rules share a message. */
  lemma MessageInjective(r1: Rule, r2: Rule)
    ensures Message(r1) == Message(r2) ==> r1 == r2
  {
    if Message(r1) == Message(r2) {
      assert |Message(r1)| == |Message(r2)| && Message(r1)[0] == Message(r2)[0];
    }
  }

  /** What check `r` adds to the error list: its message if it `failed`, nothing otherwise. */
  function Pushed(failed: bool, r: Rule): seq<string> {
    if failed then [Message(r)] else []
  }

  /** Running check `k` after the first `k` adds its message exactly when it fails. */
  lemma MessagesAtStep(rules: seq<Rule>, failed: seq<bool>, k: nat)
    requires |failed| == |rules| && k < |rules|
    ensures MessagesAt(rules, Failing(failed, k + 1)) == MessagesAt(rules, Failing(failed, k)) + Pushed(failed[k], rules[k])
  {
    var ks := Failing(failed, k);
    if failed[k] {
      assert Failing(failed, k + 1) == ks + [k];
      assert MessagesAt(rules, ks + [k])[..|ks|] == MessagesAt(rules, ks);
    } else {
      assert Failing(failed, k + 1) == ks;
    }
  }

  /** The messages of three checks, one check after the other. */
  lemma MessagesAtThree(rules: seq<Rule>, failed: seq<bool>)
    requires |failed| == |rules| == 3
    ensures MessagesAt(rules, Failing(failed, 3))
         == [] + Pushed(failed[0], rules[0]) + Pushed(failed[1], rules[1]) + Pushed(failed[2], rules[2])
  {
    MessagesAtStep(rules, failed, 0);
    MessagesAtStep(rules, failed, 1);
    MessagesAtStep(rules, failed, 2);
  }

  /** The messages of six checks, one check after the other. */
  lemma MessagesAtSix(rules: seq<Rule>, failed: seq<bool>)
    requires |failed| == |rules| == 6
    ensures MessagesAt(rules, Failing(failed, 6))
         == [] + Pushed(failed[0], rules[0]) + Pushed(failed[1], rules[1]) + Pushed(failed[2], rules[2])
            + Pushed(failed[3], rules[3]) + Pushed(failed[4], rules[4]) + Pushed(failed[5], rules[5])
  {
    MessagesAtStep(rules, failed, 0);
    MessagesAtStep(rules, failed, 1);
    MessagesAtStep(rules, failed, 2);
    MessagesAtStep(rules, failed, 3);
    MessagesAtStep(rules, failed, 4);
    MessagesAtStep(rules, failed, 5);
  }

  /** With distinct rules, a rule's message is reported exactly when its check failed. */
  lemma MessagesAtFailing(rules: seq<Rule>, failed: seq<bool>, k: nat)
    requires |failed| == |rules| && k < |rules|
    requires forall i, j :: 0 <= i < j < |rules| ==> rules[i] != rules[j]
    ensures Message(rules[k]) in MessagesAt(rules, Failing(failed, |rules|)) <==> failed[k]
  {
    var ks := Failing(failed, |rules|);
    var ms := MessagesAt(rules, ks);
    if failed[k] {
      var i :| 0 <= i < |ks| && ks[i] == k;
      assert ms[i] == Message(rules[k]);
    }
    if Message(rules[k]) in ms {
      var i :| 0 <= i < |ms| && ms[i] == Message(rules[k]);
      MessageInjective(rules[ks[i]], rules[k]);
      assert ks[i] == k;
    }
  }

  lemma FailingNone(failed: seq<bool>, n: nat)
    requires n <= |failed|
    ensures Failing(failed, n) == [] <==> forall k :: 0 <= k < n ==> !failed[k]
  {
    if Failing(failed, n) != [] {
      assert Failing(failed, n)[0] < n;
    }
  }

  /** `validateUser` reports a rule's message exactly when the user breaks it. */
  lemma UserErrorsExact(u: UserData, r: Rule)
    requires r in UserRules
    ensures Message(r) in UserErrors(u) <==> UserBreaks(u, r)
  {
    var k :| 0 <= k < |UserRules| && UserRules[k] == r;
    MessagesAtFailing(UserRules, UserChecks(u), k);
  }

  /** `validateUser` reports at most three errors, and none exactly when every rule holds. */
  lemma UserErrorsNone(u: UserData)
    ensures |UserErrors(u)| <= |UserRules|
    ensures UserErrors(u) == [] <==> forall q :: q in UserRules ==> !UserBreaks(u, q)
  {
    var failed := UserChecks(u);
    FailingNone(failed, |UserRules|);
    if UserErrors(u) == [] {
      forall q | q in UserRules ensures !UserBreaks(u, q) {
        var k :| 0 <= k < |UserRules| && UserRules[k] == q;
        assert !failed[k];
      }
    } else {
      var k :| 0 <= k < |UserRules| && failed[k];
      assert UserRules[k] in UserRules && UserBreaks(u, UserRules[k]);
    }
  }

  /** `validateArticle` reports a rule's message exactly when the payload breaks it. */
  lemma ArticleErrorsExact(a: ArticleData, r: Rule)
    requires r in ArticleRules
    ensures Message(r) in ArticleErrors(a) <==> ArticleBreaks(a, r)
  {
    var k :| 0 <= k < |ArticleRules| && ArticleRules[k] == r;
    MessagesAtFailing(ArticleRules, ArticleChecks(a), k);
  }

  /** `validateArticle` reports at most six errors, and none exactly when every rule holds. */
  lemma ArticleErrorsNone(a: ArticleData)
    ensures |ArticleErrors(a)| <= |ArticleRules|
    ensures ArticleErrors(a) == [] <==> forall q :: q in ArticleRules ==> !ArticleBreaks(a, q)
  {
    var failed := ArticleChecks(a);
    FailingNone(failed, |ArticleRules|);
    if ArticleErrors(a) == [] {
      forall q | q in ArticleRules ensures !ArticleBreaks(a, q) {
        var k :| 0 <= k < |ArticleRules| && ArticleRules[k] == q;
        assert !failed[k];
      }
    } else {
      var k :| 0 <= k < |ArticleRules| && failed[k];
      assert ArticleRules[k] in ArticleRules && ArticleBreaks(a, ArticleRules[k]);
    }
  }

  /** `validateUser` reports in checking order: of two errors, the earlier belongs to an earlier failed check. */
  lemma UserErrorsOrdered(u: UserData, i: nat, j: nat)
    requires i < j < |UserErrors(u)|
    ensures exists p, q :: 0 <= p < q < |UserRules|
              && UserBreaks(u, UserRules[p]) && UserErrors(u)[i] == Message(UserRules[p])
              && UserBreaks(u, UserRules[q]) && UserErrors(u)[j] == Message(UserRules[q])
  {
    var ks := Failing(UserChecks(u), |UserRules|);
    assert UserErrors(u)[i] == Message(UserRules[ks[i]]) && UserErrors(u)[j] == Message(UserRules[ks[j]]);
  }

  /** `validateArticle` reports in checking order: of two errors, the earlier belongs to an earlier failed check. */
  lemma ArticleErrorsOrdered(a: ArticleData, i: nat, j: nat)
    requires i < j < |ArticleErrors(a)|
    ensures exists p, q :: 0 <= p < q < |ArticleRules|
              && ArticleBreaks(a, ArticleRules[p]) && ArticleErrors(a)[i] == Message(ArticleRules[p])
              && ArticleBreaks(a, ArticleRules[q]) && ArticleErrors(a)[j] == Message(ArticleRules[q])
  {
    var ks := Failing(ArticleChecks(a), |ArticleRules|);
    assert ArticleErrors(a)[i] == Message(ArticleRules[ks[i]]) && ArticleErrors(a)[j] == Message(ArticleRules[ks[j]]);
  }

  /** One `if (...) errors.push(message)` of a validator. */
  method Check(errors: seq<string>, failed: bool, r: Rule) returns (pushed: seq<string>)
    ensures pushed == errors + Pushed(failed, r)
  {
    pushed := errors;
    if failed {
      pushed := pushed + [Message(r)];
    }
  }

  /** `validateUser(user)`: runs each check in turn and pushes the message of each failed one. */
  method ValidateUser(u: UserData) returns (v: Verdict)
    ensures v.errors == UserErrors(u)
    ensures v.isValid <==> v.errors == []
  {
    var errors: seq<string> := [];
    errors := Check(errors, UserBreaks(u, EmailInvalid), EmailInvalid);
    errors := Check(errors, UserBreaks(u, NameMissing), NameMissing);
    errors := Check(errors, UserBreaks(u, GoogleIdMissing), GoogleIdMissing);
    MessagesAtThree(UserRules, UserChecks(u));
    v := Verdict(|errors| == 0, errors);
  }

  /** `validateArticle(article)`: runs each check in turn and pushes the message of each failed one. */
  method ValidateArticle(a: ArticleData) returns (v: Verdict)
    ensures v.errors == ArticleErrors(a)
    ensures v.isValid <==> v.errors == []
  {
    var errors: seq<string> := [];
    errors := Check(errors, ArticleBreaks(a, TitleMissing), TitleMissing);
    errors := Check(errors, ArticleBreaks(a, TitleTooLong), TitleTooLong);
    errors := Check(errors, ArticleBreaks(a, UrlInvalid), UrlInvalid);
    errors := Check(errors, ArticleBreaks(a, ContentTooShort), ContentTooShort);
    errors := Check(errors, ArticleBreaks(a, ContentTooLarge), ContentTooLarge);
    errors := Check(errors, ArticleBreaks(a, WebsiteMissing), WebsiteMissing);
    MessagesAtSix(ArticleRules, ArticleChecks(a));
    v := Verdict(|errors| == 0, errors);
  }

  /**
   * `sanitizeInput(v)`: a non-string is returned as it is; a string is
   * trimmed, stripped of `<` and `>`, and cut to its first 10000 code units.
   */
  function SanitizeInput(v: Option<string>): (r: Option<string>)
    ensures v.None? ==> r == v
    ensures v.Some? ==> r.Some?
    ensures v.Some? ==> |r.value| <= SANITIZE_LIMIT && |r.value| <= |v.value|
    ensures v.Some? ==> forall i :: 0 <= i < |r.value| ==> !IsAngle(r.value[i])
    ensures v.Some? ==>
      var cleaned := StripAngles(Trim(v.value));
      && |r.value| == (if |cleaned| <= SANITIZE_LIMIT then |cleaned| else SANITIZE_LIMIT)
      && r.value == cleaned[..|r.value|]
  {
    match v
    case None => None
    case Some(s) => Some(Prefix(StripAngles(Trim(s)), SANITIZE_LIMIT))
  }

  /** Text that is already trimmed, bracket-free and short enough passes through unchanged. */
  lemma SanitizeKeepsCleanText(s: string)
    requires s == [] || (!IsSpace(s[0]) && !IsSpace(s[|s| - 1]))
    requires forall i :: 0 <= i < |s| ==> !IsAngle(s[i])
    requires |s| <= SANITIZE_LIMIT
    ensures SanitizeInput(Some(s)) == Some(s)
  {
    TrimFixpoint(s);
    StripAnglesFixpoint(s);
  }

  /**
   * Sanitising is not idempotent: deleting a bracket can expose white space
   * that the earlier trim did not see.
   */
  lemma SanitizeNotIdempotent()
    ensures SanitizeInput(Some("a <")) == Some("a ")
    ensures SanitizeInput(SanitizeInput(Some("a <"))) == Some("a")
  {
    SanitizeDeletesBracket();
    SanitizeTrimsExposedSpace();
  }

  lemma SanitizeDeletesBracket()
    ensures SanitizeInput(Some("a <")) == Some("a ")
  {
    TrimKeepsBracketEnd();
    StripLeavesSpaceEnd();
    assert Prefix("a ", SANITIZE_LIMIT) == "a ";
  }

  lemma SanitizeTrimsExposedSpace()
    ensures SanitizeInput(Some("a ")) == Some("a")
  {
    TrimDropsSpaceEnd();
    assert StripAngles("a") == "a";
    assert Prefix("a", SANITIZE_LIMIT) == "a";
  }

  lemma TrimKeepsBracketEnd()
    ensures Trim("a <") == "a <"
  {
    var s := "a <";
    assert !IsSpace(s[0]) && !IsSpace(s[2]);
    assert TrimStart(s) == s;
    assert TrimEnd(s) == s;
  }

  lemma StripLeavesSpaceEnd()
    ensures StripAngles("a <") == "a "
  {
    var s := "a <";
    assert StripAngles(s[2..]) == [];
    assert StripAngles(s[1..]) == " ";
  }

  lemma TrimDropsSpaceEnd()
    ensures Trim("a ") == "a"
  {
    var t := "a ";
    assert !IsSpace(t[0]);
    assert TrimStart(t) == t;
    assert IsSpace(t[1]) && t[..1] == "a";
    assert !IsSpace("a"[0]);
    assert TrimEnd("a") == "a";
    assert TrimEnd(t) == TrimEnd("a");
  }

  /**
   * The payload both handlers build: the five text fields sanitised,
   * `content` and `reading_time` passed raw, `highlights` defaulted to `[]`.
   */
  function SanitizeArticle(a: ArticleData): (r: ArticleData)
    ensures r.content == a.content && r.readingTime == a.readingTime
    ensures r.highlights == Some(a.highlights.GetOr([]))
    ensures r.title == SanitizeInput(a.title) && r.url == SanitizeInput(a.url)
    ensures r.website == SanitizeInput(a.website)
    ensures r.summary == SanitizeInput(a.summary) && r.byline == SanitizeInput(a.byline)
  {
    ArticleData(
      SanitizeInput(a.title), SanitizeInput(a.url), SanitizeInput(a.website), a.content,
      SanitizeInput(a.summary), Some(a.highlights.GetOr([])), SanitizeInput(a.byline), a.readingTime)
  }
}
