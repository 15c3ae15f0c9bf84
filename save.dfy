/**
 * The single-article save handler: rate limit, authentication outcome,
 * sanitisation, validation, save, and the mapping of errors to statuses.
 */
module SaveHandler {
  import opened Wrappers
  import opened Constants
  import opened Records
  import opened Validation
  import opened ArticleIndex
  import opened RateLimit
  import opened Store

  /** What authenticating the request produced: the user's id, or a status and message to answer with. */
  datatype Auth = Authenticated(userId: UserId) | Rejected(status: int, error: string)

  /** The JSON bodies the handler answers with. */
  datatype Body =
    | ErrorBody(error: string)
    | InvalidBody(error: string, details: seq<string>)
    | SavedBody(article: IndexEntry)

  datatype Response = Response(status: int, body: Body)

  /**
   * The rate-limit key: the `x-forwarded-for` header when it is a non-empty
   * string, else the socket's remote address (rendered "undefined" when absent).
   */
  function ClientIp(forwardedFor: Option<string>, remoteAddress: Option<string>): (ip: string)
    ensures forwardedFor.Some? && forwardedFor.value != "" ==> ip == forwardedFor.value
    ensures (forwardedFor.None? || forwardedFor.value == "") && remoteAddress.Some? ==> ip == remoteAddress.value
  {
    if forwardedFor.Some? && forwardedFor.value != "" then forwardedFor.value else KeyText(remoteAddress)
  }

  /** The catch block: the two save errors are conflicts, anything else is a server error. */
  function StatusForError(message: string): (status: int)
    ensures status == HTTP_CONFLICT <==> message == MSG_MAX_ARTICLES_REACHED || message == MSG_DUPLICATE_ARTICLE
    ensures status != HTTP_CONFLICT ==> status == HTTP_INTERNAL_ERROR
  {
    if message == MSG_MAX_ARTICLES_REACHED then HTTP_CONFLICT
    else if message == MSG_DUPLICATE_ARTICLE then HTTP_CONFLICT
    else HTTP_INTERNAL_ERROR
  }

  /** Every error `saveArticle` throws is answered with 409 and its own message. */
  lemma SaveErrorsConflict(e: SaveError)
    ensures StatusForError(ErrorMessage(e)) == HTTP_CONFLICT
  {
  }

  /** The body the `catch` block answers with: the error's own message on a conflict, the generic message otherwise. */
  function CatchBody(message: string): (b: Body)
    ensures StatusForError(message) == HTTP_CONFLICT ==> b == ErrorBody(message)
    ensures StatusForError(message) != HTTP_CONFLICT ==> b == ErrorBody(MSG_SERVER_ERROR)
  {
    if StatusForError(message) == HTTP_CONFLICT then ErrorBody(message) else ErrorBody(MSG_SERVER_ERROR)
  }

  /**
   * The handler for a POST. `ip` is the request's `ClientIp`, `auth` the
   * outcome of authenticating it, `body` its JSON body; `articleId` and
   * `now` stand for the generated id and the clock.
   */
  method HandleSave(db: Database, ip: string, now: Instant, auth: Auth, body: ArticleData, articleId: ArticleId)
    returns (response: Response)
    requires db.Valid()
    modifies db
    ensures db.Valid()
    ensures db.users == old(db.users) && db.userIdsByEmail == old(db.userIdsByEmail)
    // Rate limit first: a rejection changes nothing at all.
    ensures old(Current(db.CounterOf(ip), now)) >= MAX_REQUESTS_PER_MINUTE ==>
              && response == Response(HTTP_TOO_MANY_REQUESTS, ErrorBody(MSG_RATE_LIMITED))
              && db.rateCounters == old(db.rateCounters)
              && db.indexes == old(db.indexes) && db.articles == old(db.articles)
    // Past the limiter the counter has been bumped, whatever follows.
    ensures old(Current(db.CounterOf(ip), now)) < MAX_REQUESTS_PER_MINUTE ==>
              db.rateCounters == old(db.rateCounters)[ip := Counter(old(Current(db.CounterOf(ip), now)) + 1, now + RATE_WINDOW)]
    ensures old(Current(db.CounterOf(ip), now)) < MAX_REQUESTS_PER_MINUTE && auth.Rejected? ==>
              && response == Response(auth.status, ErrorBody(auth.error))
              && db.indexes == old(db.indexes) && db.articles == old(db.articles)
    // Validation of the sanitised payload.
    ensures old(Current(db.CounterOf(ip), now)) < MAX_REQUESTS_PER_MINUTE && auth.Authenticated?
            && ArticleErrors(SanitizeArticle(body)) != [] ==>
              && response == Response(HTTP_BAD_REQUEST, InvalidBody(MSG_INVALID_INPUT, ArticleErrors(SanitizeArticle(body))))
              && db.indexes == old(db.indexes) && db.articles == old(db.articles)
    // The save and its two conflicts.
    ensures old(Current(db.CounterOf(ip), now)) < MAX_REQUESTS_PER_MINUTE && auth.Authenticated?
            && ArticleErrors(SanitizeArticle(body)) == [] ==>
              var existing := old(IndexOf(db.indexes, auth.userId));
              var data := SanitizeArticle(body);
              && (|existing| >= MAX_ARTICLES_PER_USER ==>
                    response == Response(HTTP_CONFLICT, ErrorBody(MSG_MAX_ARTICLES_REACHED)))
              && (|existing| < MAX_ARTICLES_PER_USER && HasUrl(existing, data.url) ==>
                    response == Response(HTTP_CONFLICT, ErrorBody(MSG_DUPLICATE_ARTICLE)))
              && (response.status == HTTP_CONFLICT ==> db.indexes == old(db.indexes) && db.articles == old(db.articles))
              && (|existing| < MAX_ARTICLES_PER_USER && !HasUrl(existing, data.url) ==>
                    var article := NewArticle(articleId, auth.userId, data, now);
                    && response == Response(HTTP_CREATED, SavedBody(Project(article)))
                    && db.articles == old(db.articles)[articleId := article]
                    && db.indexes == old(db.indexes)[auth.userId := existing + [Project(article)]])
    // The article is answered with exactly when every stage passed.
    ensures response.body.SavedBody? <==>
              && old(Current(db.CounterOf(ip), now)) < MAX_REQUESTS_PER_MINUTE
              && auth.Authenticated?
              && ArticleErrors(SanitizeArticle(body)) == []
              && |old(IndexOf(db.indexes, auth.userId))| < MAX_ARTICLES_PER_USER
              && !old(HasUrl(IndexOf(db.indexes, auth.userId), SanitizeArticle(body).url))
  {
    var rateLimitOk := db.CheckRateLimit(ip, now);
    if !rateLimitOk {
      return Response(HTTP_TOO_MANY_REQUESTS, ErrorBody(MSG_RATE_LIMITED));
    }
    if auth.Rejected? {
      return Response(auth.status, ErrorBody(auth.error));
    }
    var articleData := SanitizeArticle(body);
    var validation := ValidateArticle(articleData);
    if !validation.isValid {
      return Response(HTTP_BAD_REQUEST, InvalidBody(MSG_INVALID_INPUT, validation.errors));
    }
    var saved := db.SaveArticle(auth.userId, articleData, articleId, now);
    match saved
    case Success(article) =>
      response := Response(HTTP_CREATED, SavedBody(Project(article)));
    case Failure(e) =>
      var message := ErrorMessage(e);
      response := Response(StatusForError(message), CatchBody(message));
  }
}
