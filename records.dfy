/**
 * The records the archive stores and receives. A JavaScript `undefined` or
 * `null` field is `None`; a present field is `Some`.
 */
module Records {
  import opened Wrappers

  type UserId = string
  type ArticleId = string
  /** A point in time, in seconds. Stored timestamps are renderings of it. */
  type Instant = int

  /** A highlight captured by the client; the store never looks inside it. */
  datatype Highlight = Highlight(payload: string)

  /** An article as a client submits it, before or after sanitisation. */
  datatype ArticleData = ArticleData(
    title: Option<string>,
    url: Option<string>,
    website: Option<string>,
    content: Option<string>,
    summary: Option<string>,
    highlights: Option<seq<Highlight>>,
    byline: Option<string>,
    readingTime: Option<int>)

  /** The full article record stored under `article:<id>`. */
  datatype Article = Article(
    id: ArticleId,
    userId: UserId,
    title: Option<string>,
    url: Option<string>,
    website: Option<string>,
    content: Option<string>,
    summary: Option<string>,
    highlights: seq<Highlight>,
    byline: Option<string>,
    readingTime: Option<int>,
    savedAt: Instant,
    updatedAt: Instant)

  /** The projection of an article kept in its owner's index `user_articles:<userId>`. */
  datatype IndexEntry = IndexEntry(
    id: ArticleId,
    title: Option<string>,
    url: Option<string>,
    website: Option<string>,
    savedAt: Instant)

  /** The profile handed over by the identity provider. */
  datatype UserData = UserData(
    email: Option<string>,
    name: Option<string>,
    googleId: Option<string>,
    picture: Option<string>)

  /** The user record stored under `user:<googleId>`. */
  datatype User = User(
    id: UserId,
    email: Option<string>,
    name: Option<string>,
    googleId: Option<string>,
    picture: Option<string>,
    createdAt: Instant,
    updatedAt: Instant,
    articleCount: int)

  /**
   * The keys of an `updates` object spread over a user record: `Some(v)` when
   * the key is present (with value `v`), `None` when it is absent.
   */
  datatype UserPatch = UserPatch(
    id: Option<UserId>,
    email: Option<Option<string>>,
    name: Option<Option<string>>,
    googleId: Option<Option<string>>,
    picture: Option<Option<string>>,
    createdAt: Option<Instant>,
    articleCount: Option<int>)

  /** The keys of an `updates` object spread over an article record. */
  datatype ArticlePatch = ArticlePatch(
    id: Option<ArticleId>,
    userId: Option<UserId>,
    title: Option<Option<string>>,
    url: Option<Option<string>>,
    website: Option<Option<string>>,
    content: Option<Option<string>>,
    summary: Option<Option<string>>,
    highlights: Option<seq<Highlight>>,
    byline: Option<Option<string>>,
    readingTime: Option<Option<int>>,
    savedAt: Option<Instant>)

  const NoUserChange := UserPatch(None, None, None, None, None, None, None)
  const NoArticleChange := ArticlePatch(None, None, None, None, None, None, None, None, None, None, None)

  /** `v || null` on a string: the empty string is falsy and becomes null. */
  function TextOrNull(v: Option<string>): (r: Option<string>)
    ensures r.None? <==> (v.None? || v.value == "")
    ensures r.Some? ==> r == v
  {
    if v.Some? && v.value != "" then v else None
  }

  /** `v || null` on a number: zero is falsy and becomes null. */
  function NumberOrNull(v: Option<int>): (r: Option<int>)
    ensures r.None? <==> (v.None? || v.value == 0)
    ensures r.Some? ==> r == v
  {
    if v.Some? && v.value != 0 then v else None
  }

  /** The template-literal text of a key part: an absent value reads as "undefined". */
  function KeyText(v: Option<string>): (t: string)
    ensures v.Some? ==> t == v.value
    ensures v.None? ==> t == "undefined"
  {
    v.GetOr("undefined")
  }

  /** The index projection `{id, title, url, website, saved_at}` of an article. */
  function Project(a: Article): (e: IndexEntry)
    ensures e.id == a.id && e.title == a.title && e.url == a.url
    ensures e.website == a.website && e.savedAt == a.savedAt
  {
    IndexEntry(a.id, a.title, a.url, a.website, a.savedAt)
  }

  /** `{...u, ...p, updated_at: now}`. */
  function ApplyUserPatch(u: User, p: UserPatch, now: Instant): (r: User)
    ensures (p.id.Some? ==> r.id == p.id.value) && (p.id.None? ==> r.id == u.id)
    ensures (p.email.Some? ==> r.email == p.email.value) && (p.email.None? ==> r.email == u.email)
    ensures (p.name.Some? ==> r.name == p.name.value) && (p.name.None? ==> r.name == u.name)
    ensures (p.googleId.Some? ==> r.googleId == p.googleId.value) && (p.googleId.None? ==> r.googleId == u.googleId)
    ensures (p.picture.Some? ==> r.picture == p.picture.value) && (p.picture.None? ==> r.picture == u.picture)
    ensures (p.createdAt.Some? ==> r.createdAt == p.createdAt.value) && (p.createdAt.None? ==> r.createdAt == u.createdAt)
    ensures (p.articleCount.Some? ==> r.articleCount == p.articleCount.value)
         && (p.articleCount.None? ==> r.articleCount == u.articleCount)
    ensures r.updatedAt == now
  {
    User(
      p.id.GetOr(u.id), p.email.GetOr(u.email), p.name.GetOr(u.name),
      p.googleId.GetOr(u.googleId), p.picture.GetOr(u.picture),
      p.createdAt.GetOr(u.createdAt), now, p.articleCount.GetOr(u.articleCount))
  }

  /** `{...a, ...p, updated_at: now}`. */
  function ApplyArticlePatch(a: Article, p: ArticlePatch, now: Instant): (r: Article)
    ensures (p.id.Some? ==> r.id == p.id.value) && (p.id.None? ==> r.id == a.id)
    ensures (p.userId.Some? ==> r.userId == p.userId.value) && (p.userId.None? ==> r.userId == a.userId)
    ensures (p.title.Some? ==> r.title == p.title.value) && (p.title.None? ==> r.title == a.title)
    ensures (p.url.Some? ==> r.url == p.url.value) && (p.url.None? ==> r.url == a.url)
    ensures (p.website.Some? ==> r.website == p.website.value) && (p.website.None? ==> r.website == a.website)
    ensures (p.content.Some? ==> r.content == p.content.value) && (p.content.None? ==> r.content == a.content)
    ensures (p.summary.Some? ==> r.summary == p.summary.value) && (p.summary.None? ==> r.summary == a.summary)
    ensures (p.highlights.Some? ==> r.highlights == p.highlights.value)
         && (p.highlights.None? ==> r.highlights == a.highlights)
    ensures (p.byline.Some? ==> r.byline == p.byline.value) && (p.byline.None? ==> r.byline == a.byline)
    ensures (p.readingTime.Some? ==> r.readingTime == p.readingTime.value)
         && (p.readingTime.None? ==> r.readingTime == a.readingTime)
    ensures (p.savedAt.Some? ==> r.savedAt == p.savedAt.value) && (p.savedAt.None? ==> r.savedAt == a.savedAt)
    ensures r.updatedAt == now
  {
    Article(
      p.id.GetOr(a.id), p.userId.GetOr(a.userId), p.title.GetOr(a.title),
      p.url.GetOr(a.url), p.website.GetOr(a.website), p.content.GetOr(a.content),
      p.summary.GetOr(a.summary), p.highlights.GetOr(a.highlights),
      p.byline.GetOr(a.byline), p.readingTime.GetOr(a.readingTime),
      p.savedAt.GetOr(a.savedAt), now)
  }

  /** `{...p, ...q}`: the keys of `q` win. */
  function MergeUserPatches(p: UserPatch, q: UserPatch): UserPatch {
    UserPatch(
      if q.id.Some? then q.id else p.id,
      if q.email.Some? then q.email else p.email,
      if q.name.Some? then q.name else p.name,
      if q.googleId.Some? then q.googleId else p.googleId,
      if q.picture.Some? then q.picture else p.picture,
      if q.createdAt.Some? then q.createdAt else p.createdAt,
      if q.articleCount.Some? then q.articleCount else p.articleCount)
  }

  /** An empty patch only refreshes the update time. */
  lemma EmptyUserPatch(u: User, now: Instant)
    ensures ApplyUserPatch(u, NoUserChange, now) == u.(updatedAt := now)
  {
  }

  /** Spreading two patches one after the other is spreading their merge once. */
  lemma UserPatchesCompose(u: User, p: UserPatch, q: UserPatch, t1: Instant, t2: Instant)
    ensures ApplyUserPatch(ApplyUserPatch(u, p, t1), q, t2) == ApplyUserPatch(u, MergeUserPatches(p, q), t2)
  {
  }

  /** Re-applying the same patch at the same time changes nothing more. */
  lemma UserPatchIdempotent(u: User, p: UserPatch, now: Instant)
    ensures ApplyUserPatch(ApplyUserPatch(u, p, now), p, now) == ApplyUserPatch(u, p, now)
  {
  }

  /** An empty article patch only refreshes the update time. */
  lemma EmptyArticlePatch(a: Article, now: Instant)
    ensures ApplyArticlePatch(a, NoArticleChange, now) == a.(updatedAt := now)
  {
  }

  /** Re-applying the same article patch at the same time changes nothing more. */
  lemma ArticlePatchIdempotent(a: Article, p: ArticlePatch, now: Instant)
    ensures ApplyArticlePatch(ApplyArticlePatch(a, p, now), p, now) == ApplyArticlePatch(a, p, now)
  {
  }
}
