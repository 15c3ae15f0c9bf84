/**
 * The `Database` of the archive over an in-memory key-value store: users,
 * per-user article indexes, full article records and rate counters.
 */
module Store {
  import opened Wrappers
  import opened Constants
  import opened Records
  import opened ArticleIndex
  import opened RateLimit

  /** The two errors `saveArticle` throws. */
  datatype SaveError = MaxArticlesReached | DuplicateArticle

  /** `error.message` of a thrown save error. */
  function ErrorMessage(e: SaveError): string {
    match e
    case MaxArticlesReached => MSG_MAX_ARTICLES_REACHED
    case DuplicateArticle => MSG_DUPLICATE_ARTICLE
  }

  /** The full record `saveArticle` builds from the caller's data. */
  function NewArticle(id: ArticleId, userId: UserId, data: ArticleData, now: Instant): (a: Article)
    ensures a.id == id && a.userId == userId
    ensures a.title == data.title && a.url == data.url && a.website == data.website && a.content == data.content
    ensures a.summary.None? <==> (data.summary.None? || data.summary.value == "")
    ensures a.byline.None? <==> (data.byline.None? || data.byline.value == "")
    ensures a.summary.Some? ==> a.summary == data.summary
    ensures a.byline.Some? ==> a.byline == data.byline
    ensures data.highlights.None? ==> a.highlights == []
    ensures data.highlights.Some? ==> a.highlights == data.highlights.value
    ensures a.readingTime.None? <==> (data.readingTime.None? || data.readingTime.value == 0)
    ensures a.readingTime.Some? ==> a.readingTime == data.readingTime
    ensures a.savedAt == now && a.updatedAt == now
  {
    Article(
      id, userId, data.title, data.url, data.website, data.content,
      TextOrNull(data.summary), data.highlights.GetOr([]), TextOrNull(data.byline),
      NumberOrNull(data.readingTime), now, now)
  }

  /** The user record `createUser` builds. */
  function NewUser(id: UserId, data: UserData, now: Instant): (u: User)
    ensures u.id == id && u.email == data.email && u.name == data.name && u.googleId == data.googleId
    ensures u.picture.None? <==> (data.picture.None? || data.picture.value == "")
    ensures u.picture.Some? ==> u.picture == data.picture
    ensures u.createdAt == now && u.updatedAt == now
    ensures u.articleCount == 0
  {
    User(id, data.email, data.name, data.googleId, TextOrNull(data.picture), now, now, 0)
  }

  class Database {
    /** `user:<googleId>`, keyed by the Google id's text. */
    var users: map<string, User>
    /** `user_email:<email>`. */
    var userIdsByEmail: map<string, UserId>
    /** `user_articles:<userId>`. */
    var indexes: map<UserId, seq<IndexEntry>>
    /** `article:<articleId>`. */
    var articles: map<ArticleId, Article>
    /** `rate_limit:<ip>`; an expired counter may linger here but reads as absent. */
    var rateCounters: map<string, Counter>

    /** Every index is within capacity with distinct URLs; every counter is within the limit. */
    ghost predicate Valid()
      reads this
    {
      && (forall u :: u in indexes ==> IndexOk(indexes[u]))
      && (forall ip :: ip in rateCounters ==> CounterOk(Some(rateCounters[ip])))
    }

    /** The stored counter for `ip`, if any. */
    function CounterOf(ip: string): Option<Counter>
      reads this
    {
      if ip in rateCounters then Some(rateCounters[ip]) else None
    }

    constructor ()
      ensures Valid()
      ensures users == map[] && userIdsByEmail == map[] && indexes == map[]
      ensures articles == map[] && rateCounters == map[]
    {
      users, userIdsByEmail, indexes := map[], map[], map[];
      articles, rateCounters := map[], map[];
    }

    /**
     * `createUser(userData)`: stores the new user under its Google id, maps
     * its email to its id and gives it an empty index. `userId` and `now`
     * stand for the generated id and the current time.
     */
    method CreateUser(userId: UserId, data: UserData, now: Instant) returns (user: User)
      requires Valid()
      modifies this
      ensures Valid()
      ensures user == NewUser(userId, data, now)
      ensures user.articleCount == 0 && user.createdAt == now && user.updatedAt == now
      ensures user.picture.None? <==> (data.picture.None? || data.picture.value == "")
      ensures users == old(users)[KeyText(data.googleId) := user]
      ensures userIdsByEmail == old(userIdsByEmail)[KeyText(data.email) := userId]
      ensures indexes == old(indexes)[userId := []]
      ensures articles == old(articles) && rateCounters == old(rateCounters)
    {
      user := NewUser(userId, data, now);
      users := users[KeyText(data.googleId) := user];
      userIdsByEmail := userIdsByEmail[KeyText(data.email) := userId];
      indexes := indexes[userId := []];
    }

    /** `getUserByGoogleId(googleId)`. */
    method GetUserByGoogleId(googleId: string) returns (r: Option<User>)
      ensures r.Some? <==> googleId in users
      ensures r.Some? ==> r.value == users[googleId]
    {
      r := if googleId in users then Some(users[googleId]) else None;
    }

    /** `getUserByEmail(email)`: reads the email key but always answers null. */
    method GetUserByEmail(email: string) returns (r: Option<User>)
      ensures r == None
    {
      if email !in userIdsByEmail {
        return None;
      }
      r := None;
    }

    /**
     * `updateUser(googleId, updates)`: null for an unknown user; otherwise
     * the stored user with the keys of `updates` spread over it and a fresh
     * update time, stored back under the same key.
     */
    method UpdateUser(googleId: string, patch: UserPatch, now: Instant) returns (r: Option<User>)
      requires Valid()
      modifies this
      ensures Valid()
      ensures r.None? <==> googleId !in old(users)
      ensures r.None? ==> users == old(users)
      ensures r.Some? ==>
              && r.value == ApplyUserPatch(old(users)[googleId], patch, now)
              && users == old(users)[googleId := r.value]
      ensures userIdsByEmail == old(userIdsByEmail) && indexes == old(indexes)
      ensures articles == old(articles) && rateCounters == old(rateCounters)
    {
      var user := GetUserByGoogleId(googleId);
      if user.None? {
        return None;
      }
      var updated := ApplyUserPatch(user.value, patch, now);
      users := users[googleId := updated];
      r := Some(updated);
    }

    /**
     * `saveArticle(userId, articleData)`: refuses when the index is full,
     * then when the URL is already in it; otherwise stores the full record
     * under `articleId` and appends its projection to the index.
     */
    method SaveArticle(userId: UserId, data: ArticleData, articleId: ArticleId, now: Instant)
      returns (r: Result<Article, SaveError>)
      requires Valid()
      modifies this
      ensures Valid()
      ensures |old(IndexOf(indexes, userId))| >= MAX_ARTICLES_PER_USER ==> r == Failure(MaxArticlesReached)
      ensures |old(IndexOf(indexes, userId))| < MAX_ARTICLES_PER_USER && old(HasUrl(IndexOf(indexes, userId), data.url))
              ==> r == Failure(DuplicateArticle)
      ensures r.Success? <==>
              |old(IndexOf(indexes, userId))| < MAX_ARTICLES_PER_USER && !old(HasUrl(IndexOf(indexes, userId), data.url))
      ensures r.Failure? ==> indexes == old(indexes) && articles == old(articles)
      ensures r.Success? ==>
              && r.value == NewArticle(articleId, userId, data, now)
              && articles == old(articles)[articleId := r.value]
              && indexes == old(indexes)[userId := old(IndexOf(indexes, userId)) + [Project(r.value)]]
      ensures r.Success? ==>
              && r.value.id == articleId && r.value.userId == userId && r.value.url == data.url
              && r.value.highlights == (if data.highlights.Some? then data.highlights.value else [])
              && (r.value.summary.None? <==> data.summary.None? || data.summary.value == "")
              && (r.value.byline.None? <==> data.byline.None? || data.byline.value == "")
              && (r.value.readingTime.None? <==> data.readingTime.None? || data.readingTime.value == 0)
      ensures users == old(users) && userIdsByEmail == old(userIdsByEmail) && rateCounters == old(rateCounters)
    {
      var existing := GetUserArticles(userId);
      if |existing| >= MAX_ARTICLES_PER_USER {
        return Failure(MaxArticlesReached);
      }
      var isDuplicate := exists i :: 0 <= i < |existing| && existing[i].url == data.url;
      if isDuplicate {
        return Failure(DuplicateArticle);
      }
      var article := NewArticle(articleId, userId, data, now);
      articles := articles[articleId := article];
      var updated := existing + [Project(article)];
      AppendKeepsIndexOk(existing, Project(article));
      indexes := indexes[userId := updated];
      r := Success(article);
    }

    /** `getUserArticles(userId)`: the index, empty when the user has none; always valid. */
    method GetUserArticles(userId: UserId) returns (index: seq<IndexEntry>)
      requires Valid()
      ensures index == IndexOf(indexes, userId)
      ensures userId !in indexes ==> index == []
      ensures |index| <= MAX_ARTICLES_PER_USER && DistinctUrls(index)
    {
      index := if userId in indexes then indexes[userId] else [];
    }

    /** `getArticle(articleId)`. */
    method GetArticle(articleId: ArticleId) returns (r: Option<Article>)
      ensures r.Some? <==> articleId in articles
      ensures r.Some? ==> r.value == articles[articleId]
    {
      r := if articleId in articles then Some(articles[articleId]) else None;
    }

    /**
     * `deleteArticle(userId, articleId)`: false, changing nothing, unless the
     * article exists and belongs to `userId`; then every index entry with that
     * id leaves the caller's index, the record is deleted, and it is true.
     */
    method DeleteArticle(userId: UserId, articleId: ArticleId) returns (deleted: bool)
      requires Valid()
      modifies this
      ensures Valid()
      ensures deleted <==> articleId in old(articles) && old(articles)[articleId].userId == userId
      ensures !deleted ==> indexes == old(indexes) && articles == old(articles)
      ensures deleted ==>
              && indexes == old(indexes)[userId := RemoveId(old(IndexOf(indexes, userId)), articleId)]
              && articles == old(articles) - {articleId}
      ensures users == old(users) && userIdsByEmail == old(userIdsByEmail) && rateCounters == old(rateCounters)
    {
      var article := GetArticle(articleId);
      if article.None? || article.value.userId != userId {
        return false;
      }
      var userArticles := GetUserArticles(userId);
      var updated := RemoveId(userArticles, articleId);
      RemoveIdKeepsIndexOk(userArticles, articleId);
      indexes := indexes[userId := updated];
      articles := articles - {articleId};
      deleted := true;
    }

    /**
     * `updateArticle(articleId, updates)`: null for an unknown article;
     * otherwise the record with the keys of `updates` spread over it and a
     * fresh update time. No index is touched, even when the patch changes a
     * projected field.
     */
    method UpdateArticle(articleId: ArticleId, patch: ArticlePatch, now: Instant) returns (r: Option<Article>)
      requires Valid()
      modifies this
      ensures Valid()
      ensures r.None? <==> articleId !in old(articles)
      ensures r.None? ==> articles == old(articles)
      ensures r.Some? ==>
              && r.value == ApplyArticlePatch(old(articles)[articleId], patch, now)
              && articles == old(articles)[articleId := r.value]
      ensures indexes == old(indexes)
      ensures users == old(users) && userIdsByEmail == old(userIdsByEmail) && rateCounters == old(rateCounters)
    {
      var article := GetArticle(articleId);
      if article.None? {
        return None;
      }
      var updated := ApplyArticlePatch(article.value, patch, now);
      articles := articles[articleId := updated];
      r := Some(updated);
    }

    /**
     * `checkRateLimit(ip)` at time `now`: rejects, writing nothing, when the
     * live count has reached the maximum; otherwise stores the count plus one
     * with a fresh 60-second expiry and admits.
     */
    method CheckRateLimit(ip: string, now: Instant) returns (ok: bool)
      requires Valid()
      modifies this
      ensures Valid()
      ensures ok == Admit(old(CounterOf(ip)), now).0
      ensures ok <==> old(Current(CounterOf(ip), now)) < MAX_REQUESTS_PER_MINUTE
      ensures !ok ==> rateCounters == old(rateCounters)
      ensures ok ==> rateCounters == old(rateCounters)[ip := Counter(old(Current(CounterOf(ip), now)) + 1, now + RATE_WINDOW)]
      ensures users == old(users) && userIdsByEmail == old(userIdsByEmail)
      ensures indexes == old(indexes) && articles == old(articles)
    {
      var current := Current(CounterOf(ip), now);
      if current >= MAX_REQUESTS_PER_MINUTE {
        return false;
      }
      rateCounters := rateCounters[ip := Counter(current + 1, now + RATE_WINDOW)];
      ok := true;
    }
  }
}
