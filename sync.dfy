/**
 * The batch sync handler: uploads the client's local articles that the
 * cloud index does not yet hold, as far as the free slots allow, and
 * reports one outcome per uploaded item.
 */
module Sync {
  import opened Wrappers
  import opened Constants
  import opened Records
  import opened Validation
  import opened ArticleIndex
  import opened Store

  /** A fresh article id and the time of its save, standing for what the store generates. */
  datatype Stamp = Stamp(id: ArticleId, at: Instant)

  /** One entry of `sync_results`. */
  datatype SyncResult =
    | Synced(url: Option<string>, articleId: ArticleId)
    | Invalid(url: Option<string>, errors: seq<string>)
    | Failed(url: Option<string>, message: string)

  /** The body of the 200 response. */
  datatype SyncReport = SyncReport(
    cloudArticles: seq<IndexEntry>,
    results: seq<SyncResult>,
    skippedCount: int)

  /** The part of the store the loop writes: the caller's index and the article records. */
  datatype Cloud = Cloud(index: seq<IndexEntry>, articles: map<ArticleId, Article>)

  /** `new Set(cloudArticles.map(a => a.url))`. */
  function CloudUrls(cloud: seq<IndexEntry>): (urls: set<Option<string>>)
    ensures forall e :: e in cloud ==> e.url in urls
    ensures forall u :: u in urls ==> exists e :: e in cloud && e.url == u
  {
    set e | e in cloud :: e.url
  }

  /** `localArticles.filter(a => !cloudUrls.has(a.url))`. */
  function NotInCloud(local: seq<ArticleData>, urls: set<Option<string>>): (r: seq<ArticleData>)
    ensures |r| <= |local|
    ensures forall a :: a in r <==> a in local && a.url !in urls
  {
    if local == [] then []
    else if local[0].url in urls then NotInCloud(local[1..], urls)
    else [local[0]] + NotInCloud(local[1..], urls)
  }

  /** The filter keeps the submission order: it works element by element. */
  lemma {:induction false} NotInCloudAppend(a: seq<ArticleData>, b: seq<ArticleData>, urls: set<Option<string>>)
    ensures NotInCloud(a + b, urls) == NotInCloud(a, urls) + NotInCloud(b, urls)
  {
    if a == [] {
      assert a + b == b;
    } else {
      assert (a + b)[1..] == a[1..] + b;
      NotInCloudAppend(a[1..], b, urls);
    }
  }

  /** The end position `slice(0, end)` stops at in a sequence of length `len`; a negative end counts from the back. */
  function SliceEnd(len: nat, end: int): (r: nat)
    ensures r <= len
    ensures 0 <= end ==> r == (if end <= len then end else len)
    ensures end < 0 ==> r == (if len + end >= 0 then len + end else 0)
  {
    if end < 0 then (if len + end >= 0 then len + end else 0)
    else if end <= len then end else len
  }

  /** `candidates.slice(0, 3 - cloudLength)`. */
  function Admitted(cands: seq<ArticleData>, cloudLength: nat): (r: seq<ArticleData>)
    ensures |r| <= |cands| && r == cands[..|r|]
    ensures cloudLength <= MAX_ARTICLES_PER_USER ==>
              |r| == (if |cands| <= MAX_ARTICLES_PER_USER - cloudLength then |cands| else MAX_ARTICLES_PER_USER - cloudLength)
    ensures cloudLength <= MAX_ARTICLES_PER_USER ==> cloudLength + |r| <= MAX_ARTICLES_PER_USER
  {
    cands[..SliceEnd(|cands|, MAX_ARTICLES_PER_USER - cloudLength)]
  }

  /** An admitted item as the loop sees it: its raw URL, its raw form's errors, its sanitised form. */
  datatype Candidate = Candidate(url: Option<string>, errors: seq<string>, data: ArticleData)

  /** An item checked by `validateArticle` as submitted, and sanitised for saving. */
  function Prepared(item: ArticleData): Candidate {
    Candidate(item.url, ArticleErrors(item), SanitizeArticle(item))
  }

  /** The admitted items, each checked by `validateArticle` as submitted and sanitised for saving. */
  function Candidates(items: seq<ArticleData>): (cs: seq<Candidate>)
    ensures |cs| == |items|
    ensures forall k :: 0 <= k < |items| ==> cs[k] == Prepared(items[k])
  {
    seq(|items|, k requires 0 <= k < |items| => Prepared(items[k]))
  }

  /** What the loop does with one item: report it invalid, or save its sanitised form. */
  function Step(userId: UserId, st: Cloud, c: Candidate, stamp: Stamp): (r: (SyncResult, Cloud))
    ensures r.0.url == c.url
    ensures r.0.Invalid? <==> c.errors != []
    ensures r.0.Invalid? ==> r.0.errors == c.errors
    ensures r.0.Synced? <==> c.errors == [] && |st.index| < MAX_ARTICLES_PER_USER && !HasUrl(st.index, c.data.url)
    ensures r.0.Failed? ==> r.0.message == MSG_MAX_ARTICLES_REACHED || r.0.message == MSG_DUPLICATE_ARTICLE
  {
    if c.errors != [] then (Invalid(c.url, c.errors), st)
    else if |st.index| >= MAX_ARTICLES_PER_USER then (Failed(c.url, ErrorMessage(MaxArticlesReached)), st)
    else if HasUrl(st.index, c.data.url) then (Failed(c.url, ErrorMessage(DuplicateArticle)), st)
    else
      var article := NewArticle(stamp.id, userId, c.data, stamp.at);
      (Synced(c.url, stamp.id), Cloud(st.index + [Project(article)], st.articles[stamp.id := article]))
  }

  /**
   * The loop over the admitted items, item `k` saved with `stamps[k]`: one
   * result per item, in order and carrying its URL; an item is invalid
   * exactly when it has errors, and then reports them; the index only grows
   * at its end.
   */
  function Run(userId: UserId, st: Cloud, cs: seq<Candidate>, stamps: seq<Stamp>): (r: (seq<SyncResult>, Cloud))
    requires |cs| <= |stamps|
    ensures |r.0| == |cs|
    ensures forall k :: 0 <= k < |cs| ==> r.0[k].url == cs[k].url
    ensures forall k :: 0 <= k < |cs| ==> (r.0[k].Invalid? <==> cs[k].errors != [])
    ensures forall k :: 0 <= k < |cs| && r.0[k].Invalid? ==> r.0[k].errors == cs[k].errors
    ensures forall k :: 0 <= k < |cs| && r.0[k].Synced? ==> r.0[k].articleId == stamps[k].id
    ensures st.index <= r.1.index && |r.1.index| <= |st.index| + |cs|
    decreases |cs|
  {
    if cs == [] then ([], st)
    else
      var n := |cs| - 1;
      var before := Run(userId, st, cs[..n], stamps);
      var step := Step(userId, before.1, cs[n], stamps[n]);
      (before.0 + [step.0], step.1)
  }

  /** The ids of the synced results, in order. */
  function SyncedIds(results: seq<SyncResult>): (ids: seq<ArticleId>)
    ensures |ids| <= |results|
  {
    if results == [] then []
    else
      var rest := SyncedIds(results[..|results| - 1]);
      var last := results[|results| - 1];
      if last.Synced? then rest + [last.articleId] else rest
  }

  function Ids(index: seq<IndexEntry>): seq<ArticleId> {
    if index == [] then [] else Ids(index[..|index| - 1]) + [index[|index| - 1].id]
  }

  lemma {:induction false} IdsAppend(a: seq<IndexEntry>, b: seq<IndexEntry>)
    ensures Ids(a + b) == Ids(a) + Ids(b)
    decreases |b|
  {
    if b == [] {
      assert a + b == a;
    } else {
      var n := |b| - 1;
      assert (a + b)[..|a + b| - 1] == a + b[..n];
      IdsAppend(a, b[..n]);
    }
  }

  /** One step appends the saved article's projection, and nothing unless it synced. */
  lemma StepExtends(userId: UserId, st: Cloud, c: Candidate, stamp: Stamp)
    ensures var s := Step(userId, st, c, stamp);
            && (s.0.Synced? ==>
                  && s.0.articleId == stamp.id
                  && s.1.index == st.index + [Project(NewArticle(stamp.id, userId, c.data, stamp.at))])
            && (!s.0.Synced? ==> s.1 == st)
  {
  }

  /** The sync only appends, and what it appends is exactly the synced items, in order. */
  lemma {:induction false} RunAppendsSynced(userId: UserId, st: Cloud, cs: seq<Candidate>, stamps: seq<Stamp>)
    requires |cs| <= |stamps|
    ensures var r := Run(userId, st, cs, stamps);
            && r.1.index == st.index + r.1.index[|st.index|..]
            && Ids(r.1.index[|st.index|..]) == SyncedIds(r.0)
    decreases |cs|
  {
    var r := Run(userId, st, cs, stamps);
    if cs == [] {
      assert r.1.index[|st.index|..] == [];
    } else {
      var n := |cs| - 1;
      var before := Run(userId, st, cs[..n], stamps);
      RunAppendsSynced(userId, st, cs[..n], stamps);
      var step := Step(userId, before.1, cs[n], stamps[n]);
      assert r == (before.0 + [step.0], step.1);
      var added := before.1.index[|st.index|..];
      assert r.0[..n] == before.0;
      StepExtends(userId, before.1, cs[n], stamps[n]);
      if step.0.Synced? {
        var e := step.1.index[|before.1.index|];
        assert step.1.index == st.index + (added + [e]);
        assert step.1.index[|st.index|..] == added + [e];
        assert (added + [e])[..|added|] == added;
      }
    }
  }

  /** Capacity and URL uniqueness of the index survive the sync. */
  lemma {:induction false} RunKeepsIndexOk(userId: UserId, st: Cloud, cs: seq<Candidate>, stamps: seq<Stamp>)
    requires |cs| <= |stamps|
    requires IndexOk(st.index)
    ensures IndexOk(Run(userId, st, cs, stamps).1.index)
    decreases |cs|
  {
    if cs != [] {
      var n := |cs| - 1;
      var before := Run(userId, st, cs[..n], stamps);
      RunKeepsIndexOk(userId, st, cs[..n], stamps);
      var step := Step(userId, before.1, cs[n], stamps[n]);
      if step.0.Synced? {
        AppendKeepsIndexOk(before.1.index, step.1.index[|before.1.index|]);
      }
    }
  }

  /** Every failed result carries the duplicate error. */
  predicate OnlyDuplicatesFail(results: seq<SyncResult>) {
    forall k :: 0 <= k < |results| && results[k].Failed? ==> results[k].message == MSG_DUPLICATE_ARTICLE
  }

  /** When the items fit the free slots, no item fails on the quota. */
  lemma {:induction false} RunNeverHitsQuota(userId: UserId, st: Cloud, cs: seq<Candidate>, stamps: seq<Stamp>)
    requires |cs| <= |stamps|
    requires |st.index| + |cs| <= MAX_ARTICLES_PER_USER
    ensures OnlyDuplicatesFail(Run(userId, st, cs, stamps).0)
    decreases |cs|
  {
    if cs != [] {
      var n := |cs| - 1;
      RunNeverHitsQuota(userId, st, cs[..n], stamps);
      var before := Run(userId, st, cs[..n], stamps);
      var step := Step(userId, before.1, cs[n], stamps[n]);
      assert |before.1.index| < MAX_ARTICLES_PER_USER;
      assert Run(userId, st, cs, stamps).0 == before.0 + [step.0];
    }
  }

  /** Records outside the synced ids are untouched; the synced ids are now stored. */
  lemma {:induction false} RunArticles(userId: UserId, st: Cloud, cs: seq<Candidate>, stamps: seq<Stamp>)
    requires |cs| <= |stamps|
    ensures var r := Run(userId, st, cs, stamps);
            && (forall id :: id in r.1.articles <==> id in st.articles || id in SyncedIds(r.0))
            && (forall id :: id in st.articles && id !in SyncedIds(r.0) ==> r.1.articles[id] == st.articles[id])
    decreases |cs|
  {
    if cs != [] {
      var n := |cs| - 1;
      RunArticles(userId, st, cs[..n], stamps);
      var r := Run(userId, st, cs, stamps);
      var before := Run(userId, st, cs[..n], stamps);
      assert r.0[..n] == before.0;
    }
  }

  /** The save branch of the loop body: save the sanitised item and record `synced` or the error. */
  method SyncValid(db: Database, userId: UserId, c: Candidate, stamp: Stamp) returns (result: SyncResult)
    requires db.Valid()
    requires c.errors == []
    modifies db
    ensures db.Valid()
    ensures result == Step(userId, old(Cloud(IndexOf(db.indexes, userId), db.articles)), c, stamp).0
    ensures Cloud(IndexOf(db.indexes, userId), db.articles)
         == Step(userId, old(Cloud(IndexOf(db.indexes, userId), db.articles)), c, stamp).1
    ensures db.indexes - {userId} == old(db.indexes) - {userId}
    ensures db.users == old(db.users) && db.userIdsByEmail == old(db.userIdsByEmail)
    ensures db.rateCounters == old(db.rateCounters)
  {
    var saved := db.SaveArticle(userId, c.data, stamp.id, stamp.at);
    match saved
    case Success(article) =>
      result := Synced(c.url, article.id);
    case Failure(e) =>
      result := Failed(c.url, ErrorMessage(e));
  }

  /**
   * One pass of the loop body: validate the raw item; if it is valid, save
   * its sanitised form and record `synced` or the thrown error's message;
   * otherwise record `invalid` with its errors.
   */
  method SyncOne(db: Database, userId: UserId, item: ArticleData, stamp: Stamp) returns (result: SyncResult)
    requires db.Valid()
    modifies db
    ensures db.Valid()
    ensures result == Step(userId, old(Cloud(IndexOf(db.indexes, userId), db.articles)), Prepared(item), stamp).0
    ensures Cloud(IndexOf(db.indexes, userId), db.articles)
         == Step(userId, old(Cloud(IndexOf(db.indexes, userId), db.articles)), Prepared(item), stamp).1
    ensures db.indexes - {userId} == old(db.indexes) - {userId}
    ensures db.users == old(db.users) && db.userIdsByEmail == old(db.userIdsByEmail)
    ensures db.rateCounters == old(db.rateCounters)
  {
    var validation := ValidateArticle(item);
    if validation.isValid {
      result := SyncValid(db, userId, Candidate(item.url, validation.errors, SanitizeArticle(item)), stamp);
    } else {
      result := Invalid(item.url, validation.errors);
    }
  }

  /** What the loop reports about the admitted items themselves: one result each, with its URL and errors. */
  lemma RunReportsItems(userId: UserId, st: Cloud, items: seq<ArticleData>, stamps: seq<Stamp>)
    requires |items| <= |stamps|
    ensures var rs := Run(userId, st, Candidates(items), stamps).0;
            && |rs| == |items|
            && (forall k :: 0 <= k < |items| ==> rs[k].url == items[k].url)
            && (forall k :: 0 <= k < |items| ==> (rs[k].Invalid? <==> ArticleErrors(items[k]) != []))
            && (forall k :: 0 <= k < |items| && rs[k].Invalid? ==> rs[k].errors == ArticleErrors(items[k]))
  {
    var cs := Candidates(items);
    assert forall k :: 0 <= k < |items| ==> cs[k].url == items[k].url && cs[k].errors == ArticleErrors(items[k]);
  }

  /** The `for` loop over the admitted items: each is synced in turn with its own stamp. */
  method SyncEach(db: Database, userId: UserId, toSync: seq<ArticleData>, stamps: seq<Stamp>)
    returns (results: seq<SyncResult>)
    requires db.Valid()
    requires |toSync| <= |stamps|
    modifies db
    ensures db.Valid()
    ensures var run := Run(userId, old(Cloud(IndexOf(db.indexes, userId), db.articles)), Candidates(toSync), stamps);
            && results == run.0
            && IndexOf(db.indexes, userId) == run.1.index
            && db.articles == run.1.articles
    ensures db.indexes - {userId} == old(db.indexes) - {userId}
    ensures db.users == old(db.users) && db.userIdsByEmail == old(db.userIdsByEmail)
    ensures db.rateCounters == old(db.rateCounters)
  {
    ghost var st0 := Cloud(IndexOf(db.indexes, userId), db.articles);
    ghost var cs := Candidates(toSync);
    results := [];
    var k := 0;
    while k < |toSync|
      invariant 0 <= k <= |toSync|
      invariant db.Valid()
      invariant results == Run(userId, st0, cs[..k], stamps).0
      invariant IndexOf(db.indexes, userId) == Run(userId, st0, cs[..k], stamps).1.index
      invariant db.articles == Run(userId, st0, cs[..k], stamps).1.articles
      invariant db.indexes - {userId} == old(db.indexes) - {userId}
      invariant db.users == old(db.users) && db.userIdsByEmail == old(db.userIdsByEmail)
      invariant db.rateCounters == old(db.rateCounters)
    {
      ghost var before := Run(userId, st0, cs[..k], stamps);
      assert cs[..k + 1][..k] == cs[..k] && cs[..k + 1][k] == cs[k] == Prepared(toSync[k]);
      ghost var step := Step(userId, before.1, cs[k], stamps[k]);
      assert Run(userId, st0, cs[..k + 1], stamps) == (before.0 + [step.0], step.1);
      var result := SyncOne(db, userId, toSync[k], stamps[k]);
      results := results + [result];
      k := k + 1;
    }
    assert cs[..k] == cs;
  }

  /**
   * The handler body after authentication: filter the client's articles
   * against the cloud URLs, admit as many as the free slots allow, and
   * validate and save each one, recording its outcome.
   */
  method SyncArticles(db: Database, userId: UserId, localArticles: seq<ArticleData>, stamps: seq<Stamp>)
    returns (report: SyncReport)
    requires db.Valid()
    requires |localArticles| <= |stamps|
    modifies db
    ensures db.Valid()
    ensures var cloud := old(IndexOf(db.indexes, userId));
            var cands := NotInCloud(localArticles, CloudUrls(cloud));
            var toSync := Admitted(cands, |cloud|);
            var run := Run(userId, Cloud(cloud, old(db.articles)), Candidates(toSync), stamps);
            && report.results == run.0
            && report.cloudArticles == run.1.index
            && IndexOf(db.indexes, userId) == run.1.index
            && db.articles == run.1.articles
            && report.skippedCount == |cands| - |toSync|
    ensures var cloud := old(IndexOf(db.indexes, userId));
            var toSync := Admitted(NotInCloud(localArticles, CloudUrls(cloud)), |cloud|);
            && |report.results| == |toSync|
            && (forall k :: 0 <= k < |toSync| ==> report.results[k].url == toSync[k].url)
            && (forall k :: 0 <= k < |toSync| ==> (report.results[k].Invalid? <==> ArticleErrors(toSync[k]) != []))
            && (forall k :: 0 <= k < |toSync| && report.results[k].Invalid? ==>
                  report.results[k].errors == ArticleErrors(toSync[k]))
    ensures OnlyDuplicatesFail(report.results)
    ensures db.indexes - {userId} == old(db.indexes) - {userId}
    ensures old(IndexOf(db.indexes, userId)) <= report.cloudArticles
    ensures |report.cloudArticles| <= MAX_ARTICLES_PER_USER
    ensures db.users == old(db.users) && db.userIdsByEmail == old(db.userIdsByEmail)
    ensures db.rateCounters == old(db.rateCounters)
  {
    var cloud := db.GetUserArticles(userId);
    var cands := NotInCloud(localArticles, CloudUrls(cloud));
    var toSync := Admitted(cands, |cloud|);
    var results := SyncEach(db, userId, toSync, stamps);
    ghost var st0 := Cloud(cloud, old(db.articles));
    RunNeverHitsQuota(userId, st0, Candidates(toSync), stamps);
    RunReportsItems(userId, st0, toSync, stamps);
    var updated := db.GetUserArticles(userId);
    report := SyncReport(updated, results, |cands| - |toSync|);
  }
}
