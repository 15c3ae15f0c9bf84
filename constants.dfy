/** Configuration values, HTTP status codes and error messages of the archive. */
module Constants {

  /** Per-user capacity of the article archive. */
  const MAX_ARTICLES_PER_USER: nat := 3
  /** Largest accepted article body, in characters. */
  const MAX_ARTICLE_SIZE: nat := 50000
  const MAX_TITLE_LENGTH: nat := 200
  /** Admissions allowed per rate-limit window. */
  const MAX_REQUESTS_PER_MINUTE: nat := 60
  /** Seconds a rate counter lives after it was last written (`ex: 60`). */
  const RATE_WINDOW: nat := 60
  /** Shortest accepted article body after trimming. */
  const MIN_CONTENT_LENGTH: nat := 100
  /** Length limit applied by input sanitisation. */
  const SANITIZE_LIMIT: nat := 10000

  const HTTP_CREATED: int := 201
  const HTTP_BAD_REQUEST: int := 400
  const HTTP_CONFLICT: int := 409
  const HTTP_TOO_MANY_REQUESTS: int := 429
  const HTTP_INTERNAL_ERROR: int := 500

  const MSG_MAX_ARTICLES_REACHED: string := "Maximum number of articles reached (3 limit)"
  const MSG_INVALID_INPUT: string := "Invalid input provided"
  const MSG_ARTICLE_TOO_LARGE: string := "Article content too large"
  const MSG_DUPLICATE_ARTICLE: string := "Article already saved"
  const MSG_RATE_LIMITED: string := "Too many requests, please try again later"
  const MSG_SERVER_ERROR: string := "Internal server error"
}
