# ReadEasy backend: store, sync, save and validation in Dafny

ReadEasy keeps the articles a reader saves in a browser extension in a cloud
archive. Each user may hold at most 3 articles. The backend is a set of
serverless HTTP handlers over a key-value store.

This project models four parts of it and proves properties about the model:

- **The store** (`lib/database.js`, module `Store`). It is a class `Database`
  whose map fields stand for the store's keys:
  - `user:<googleId>`;
  - `user_email:<email>`;
  - `user_articles:<userId>`, the user's index of article projections;
  - `article:<id>`;
  - `rate_limit:<ip>`.

  Its methods are proved to keep the class invariant `Valid()`. That
  invariant requires every index to hold at most 3 entries with pairwise
  distinct URLs, and every rate counter to stay between 1 and 60.
- **The batch sync handler** (`api/articles/sync.js`, module `Sync`). It is a
  method with a loop. The loop is proved equal to a reference fold `Run`,
  and the sync's promises are proved as lemmas about that fold.
- **The single-save handler** (`api/articles/save.js`, module `SaveHandler`).
  It is a method whose contract states the response and the new store state
  for each stage that can stop the request.
- **Validation and sanitisation** (`lib/validation.js`, modules `Validation`,
  `Text` and `Patterns`):
  - the two validators are methods that push error messages, one
    `Check` per `if`, proved equal to a specification that lists the failed
    checks in checking order;
  - `sanitizeInput` is a function built from models of `trim()`,
    `replace(/[<>]/g, '')` and `substring`;
  - the two regular expressions of `lib/constants.js` are string predicates.

How JavaScript values are represented:

- `undefined` and `null` fields are both `None`.
- A key built from an absent value reads `"undefined"` (`Records.KeyText`).
- Falsy values turned into `null` by `|| null`:
  - `""` for strings (`Records.TextOrNull`);
  - `0` for reading times, which the model takes to be integers
    (`Records.NumberOrNull`).
- Generated ids and clock readings are parameters. Time is an integer number
  of seconds.
- Ids need not be fresh: like `kv.set`, saving under a used id overwrites.
- Strings are sequences of Dafny characters (Unicode scalar values). For
  text inside the Basic Multilingual Plane these are exactly the UTF-16 code
  units JavaScript lengths count.

## Model

| member | source | states |
|---|---|---|
| Store.NewUser | lib/database.js:20-29 | the user record copies id, email, name and Google id as given, turns an absent or empty picture into null, is created and updated at the same time, and holds 0 articles |
| Store.NewArticle | lib/database.js:88-101 | the record copies id, owner, title, URL, website and content as given; summary and byline are null exactly when absent or empty, the reading time exactly when absent or 0; highlights default to `[]`; saved and updated at the same time |
| Store.Database.CreateUser | lib/database.js:18-41 | the new user has 0 articles, both timestamps `now`, and a null picture exactly when the given one is absent or empty; it is stored under the Google id's key text, its id under the email's, and its index becomes empty; articles and rate counters are unchanged |
| Store.Database.GetUserByGoogleId | lib/database.js:43-45 | returns the stored user exactly when the key is present |
| Store.Database.GetUserByEmail | lib/database.js:47-54 | always answers null, whatever the email index holds |
| Store.Database.UpdateUser | lib/database.js:56-68 | null and no change exactly when the user is absent; otherwise the stored user with the patch spread over it and a fresh update time, written back under the same key; no other map changes |
| Store.Database.SaveArticle | lib/database.js:74-118 | a full index fails with the quota error before the duplicate check; an index already holding the URL fails with the duplicate error; a failure changes nothing; success happens exactly otherwise; on success the full record is stored under the new id and its projection is appended to the caller's index, leaving every other index alone; highlights are kept or default to `[]`, summary and byline are null exactly when absent or empty, reading time is null exactly when absent or 0; `Valid()` is kept |
| Store.Database.GetUserArticles | lib/database.js:120-123 | returns the index, or `[]` for a user without one; its length is at most 3 and its URLs are pairwise distinct |
| Store.Database.GetArticle | lib/database.js:125-127 | returns the stored record exactly when the id is present |
| Store.Database.DeleteArticle | lib/database.js:129-147 | true exactly when the record exists and belongs to the caller; on false nothing changes; on true every entry with that id leaves the caller's index and the record is deleted; `Valid()` is kept |
| Store.Database.UpdateArticle | lib/database.js:149-161 | null and no change exactly when the record is absent; otherwise the record with the patch spread over it and a fresh update time; no index changes |
| Store.Database.CheckRateLimit | lib/database.js:167-177 | admits exactly when the live count (0 when absent or expired) is below 60; a rejection writes nothing; an admission stores the count plus one expiring 60 seconds from now; agrees with `RateLimit.Admit` |
| RateLimit.Current | lib/database.js:169 | an absent or expired counter reads as 0, and a counter the limiter wrote reads between 0 and 60 |
| RateLimit.Admit | lib/database.js:167-177 | the rate-limit decision on one counter value: admits exactly below 60, always admits an absent or expired counter, keeps a rejected counter live and unchanged, and keeps counts within 1..60 |
| RateLimit.CounterCountsAdmissions | lib/database.js:169-175 | in a run of calls in which the counter never expires, the stored count is the starting live count plus the number of admissions |
| RateLimit.AtMostMaxPerWindow | lib/database.js:171-175 | in such a run, at most 60 minus the starting live count of the calls are admitted |
| RateLimit.FreshWindowAdmitsAtMostMax | lib/constants.js:12 | starting from an absent or expired counter, at most 60 calls are admitted before the counter expires |
| RateLimit.FullWindowRejects | lib/database.js:171-173 | once 60 calls have been admitted within the window, every further call in it is rejected |
| ArticleIndex.HasUrl | lib/database.js:82 | the index holds an entry with that URL |
| ArticleIndex.AppendKeepsIndexOk | lib/database.js:77-115 | appending a projection with a new URL to an index below capacity keeps capacity and URL uniqueness |
| ArticleIndex.RemoveId | lib/database.js:138 | the filtered index keeps exactly the entries with another id, each taken from the old index, and is no longer; their order and multiplicity are in `RemoveIdAppend` |
| ArticleIndex.RemoveIdAppend | lib/database.js:138 | the filter works entry by entry, so the kept entries stay in their order with their number of occurrences |
| ArticleIndex.RemoveIdKeepsIndexOk | lib/database.js:137-141 | removing entries keeps capacity and URL uniqueness |
| ArticleIndex.RemoveIdKeepsDistinct | lib/database.js:138 | removing entries keeps the URLs pairwise distinct |
| ArticleIndex.RemoveAbsentId | lib/database.js:138 | filtering out an id the index does not hold returns the index unchanged |
| Records.KeyText | lib/database.js:5-11 | a key part is the value's text, and an absent value reads `"undefined"` |
| Records.Project | lib/database.js:107-113 | the index entry carries the record's id, title, URL, website and save time |
| Records.ApplyUserPatch | lib/database.js:60-64 | the spread: each field the update holds replaces the stored one, every other field is kept, and the update time becomes now |
| Records.ApplyArticlePatch | lib/database.js:153-157 | the same spread on an article record |
| Records.TextOrNull | lib/database.js:95-97 | `v \|\| null` on a string: null exactly when absent or empty, otherwise unchanged |
| Records.NumberOrNull | lib/database.js:98 | `v \|\| null` on a number: null exactly when absent or 0, otherwise unchanged |
| Records.EmptyUserPatch | lib/database.js:60-64 | an empty update only refreshes the update time |
| Records.UserPatchesCompose | lib/database.js:60-64 | two successive updates equal one update with their merged keys, the later winning |
| Records.UserPatchIdempotent | lib/database.js:60-64 | repeating the same update at the same time changes nothing more |
| Records.EmptyArticlePatch | lib/database.js:153-157 | an empty article update only refreshes the update time |
| Records.ArticlePatchIdempotent | lib/database.js:153-157 | repeating the same article update at the same time changes nothing more |
| Sync.CloudUrls | api/articles/sync.js:31 | the set holds exactly the URLs of the cloud index entries |
| Sync.NotInCloud | api/articles/sync.js:32 | the candidates are exactly the client articles whose raw URL is not in the cloud set |
| Sync.NotInCloudAppend | api/articles/sync.js:32 | the filter works element by element, so it keeps submission order |
| Sync.SliceEnd | api/articles/sync.js:37 | JavaScript `slice(0, end)` semantics, where a negative end counts from the back and the result is clamped to the length |
| Sync.Admitted | api/articles/sync.js:36-37 | the admitted list is a prefix of the candidates; when the cloud holds at most 3 it has `min(candidates, 3 - cloud)` items, so the cloud plus the admitted fit in 3 |
| Sync.Candidates | api/articles/sync.js:41-52 | each admitted item is paired with its raw URL, the errors of its raw form, and its sanitised form |
| Sync.Step | api/articles/sync.js:40-73 | one item's result carries its URL; it is invalid exactly when the item has errors, and then reports them; it is synced exactly when it is valid, the index is below capacity and no entry has its URL; a failure reports one of the two store errors |
| Sync.Run | api/articles/sync.js:39-74 | one result per admitted item, in order, each carrying its item's URL; an item is invalid exactly when it has errors, and then reports them; a synced item reports its new id; the index only grows, at its end, by at most one per item |
| Sync.StepExtends | api/articles/sync.js:54-59 | one item appends the saved projection when it syncs, and otherwise changes nothing |
| Sync.RunAppendsSynced | api/articles/sync.js:54-77 | the pre-existing cloud entries stay unchanged and in order, and the appended entries carry exactly the ids of the synced results, in order |
| Sync.RunKeepsIndexOk | api/articles/sync.js:36-74 | capacity and URL uniqueness of the index survive the sync |
| Sync.RunNeverHitsQuota | api/articles/sync.js:36-73 | when the admitted items fit the free slots, the only error a save can report is the duplicate error |
| Sync.RunArticles | api/articles/sync.js:39-74 | after the sync, the stored ids are the old ones plus the synced ones, and records outside the synced ids are untouched |
| Sync.SyncOne | api/articles/sync.js:40-73 | one loop pass: validates the raw item, saves its sanitised form when valid, and records `synced`, `error` with the thrown message, or `invalid` with the errors; agrees with `Step` on the result, the index and the records |
| Sync.SyncValid | api/articles/sync.js:54-72 | the save branch of one pass: saves the sanitised item and records `synced` or `error` with the thrown message; agrees with `Step` on the result, the index and the records |
| Sync.SyncEach | api/articles/sync.js:39-74 | the loop over the admitted items: its results, the caller's index and the records are those of `Run`; other users' indexes, users and counters are unchanged |
| Sync.RunReportsItems | api/articles/sync.js:39-74 | the fold gives one result per admitted item with its URL, invalid exactly when the raw item has validation errors, and then with those errors |
| Sync.SyncArticles | api/articles/sync.js:24-85 | the results, the final index and the records are those of `Run` over the admitted candidates; one result per admitted item with its URL; invalid exactly when the raw item breaks a rule; only the duplicate error can occur; `skipped_count` is the number of candidates minus the number admitted; pre-existing entries are a prefix of the reported cloud articles, which number at most 3; other users' indexes, users and counters are unchanged |
| SaveHandler.ClientIp | api/articles/save.js:22 | the forwarded-for header when it is a non-empty string, else the remote address |
| SaveHandler.StatusForError | api/articles/save.js:76-86 | 409 exactly for the quota and duplicate messages, 500 for any other |
| SaveHandler.SaveErrorsConflict | api/articles/save.js:76-82 | both errors the store throws are answered with 409 |
| SaveHandler.CatchBody | api/articles/save.js:76-86 | a conflict echoes the error's message, anything else answers the generic server error |
| SaveHandler.HandleSave | api/articles/save.js:20-86 | a rate-limit rejection answers 429 and changes nothing; past the limiter the counter is bumped whatever follows; an authentication failure answers its own status and error without saving; the five text fields are sanitised before validation, and a failure answers 400 with the full error list without saving; the quota and duplicate errors answer 409 without saving; otherwise 201 with the stored article's id, title, url, website and saved time; an article is answered exactly when every stage passes |
| Validation.Message | lib/validation.js:7-48 | no message is empty, and none is one of the two errors the store throws |
| Validation.BlankIff | lib/validation.js:10 | `!v \|\| v.trim().length < 1` holds exactly when the field is absent or white space throughout |
| Validation.UserBreaks | lib/validation.js:6-14 | only the three user rules can fail for a user profile |
| Validation.ArticleBreaks | lib/validation.js:27-47 | only the six article rules can fail for an article payload |
| Validation.Failing | lib/validation.js:4-49 | the failed checks among the first `n`, by position: in increasing order, each one failed, every failed one present, at most `n` of them |
| Validation.FailingNone | lib/validation.js:51-54 | no check is reported exactly when none of them failed |
| Validation.MessagesAtStep | lib/validation.js:6-49 | running one more check appends its message exactly when it fails, and leaves the earlier messages as they were |
| Validation.MessagesAtThree | lib/validation.js:6-16 | the messages of three checks are those of the first, then the second, then the third, each present exactly when its check failed |
| Validation.MessagesAtSix | lib/validation.js:27-49 | the same for six checks |
| Validation.MessagesAtFailing | lib/validation.js:4-49 | when the rules are distinct, a rule's message is reported exactly when its check failed |
| Validation.MessageInjective | lib/validation.js:7-48 | no two rules share a message |
| Validation.UserErrorsExact | lib/validation.js:6-16 | `validateUser` reports a rule's message exactly when the user breaks the rule |
| Validation.UserErrorsNone | lib/validation.js:3-21 | `validateUser` reports at most 3 messages, and none exactly when every rule holds |
| Validation.UserErrorsOrdered | lib/validation.js:6-16 | of two reported user errors, the earlier one belongs to a failed check that runs earlier |
| Validation.ArticleErrorsExact | lib/validation.js:27-49 | `validateArticle` reports a rule's message exactly when the payload breaks the rule |
| Validation.ArticleErrorsNone | lib/validation.js:24-54 | `validateArticle` reports at most 6 messages, and none exactly when every rule holds |
| Validation.ArticleErrorsOrdered | lib/validation.js:27-49 | of two reported article errors, the earlier one belongs to a failed check that runs earlier, so errors follow the checking order title, title length, URL, content, content size, website |
| Validation.Check | lib/validation.js:27-29 | one `if (...) errors.push(message)` appends the rule's message exactly when the check failed, and keeps what was pushed before |
| Validation.ValidateUser | lib/validation.js:3-22 | the pushed errors are the specified user errors, and `isValid` holds exactly when no error was pushed |
| Validation.ValidateArticle | lib/validation.js:24-55 | the pushed errors are the specified article errors, and `isValid` holds exactly when no error was pushed |
| Validation.SanitizeInput | lib/validation.js:57-64 | a non-string is returned unchanged; a string comes back bracket-free, at most 10000 long and no longer than the input, and is the first `min(10000, n)` units of the trimmed input with its brackets deleted |
| Validation.SanitizeKeepsCleanText | lib/validation.js:57-64 | trimmed, bracket-free text of at most 10000 units passes through unchanged |
| Validation.SanitizeNotIdempotent | lib/validation.js:60-63 | `"a <"` sanitises to `"a "`, which sanitises again to `"a"`, so sanitising is not idempotent |
| Validation.SanitizeArticle | api/articles/save.js:39-48 | as also built at api/articles/sync.js lines 43-52: title, url, website, summary and byline are sanitised; content and reading time pass raw; highlights default to `[]` |
| Text.Trim | lib/validation.js:61 | the trim is no longer than the input; the lemmas below say which slice it keeps |
| Text.TrimStartDropsLeadingSpace | lib/validation.js:61 | `trimStart` leaves a suffix of the input that does not start with white space, and everything it dropped is white space |
| Text.TrimEndDropsTrailingSpace | lib/validation.js:61 | `trimEnd` leaves a prefix of the input that does not end with white space, and everything it dropped is white space |
| Text.TrimIsSlice | lib/validation.js:61 | the trim is a contiguous slice of the input that neither starts nor ends with white space |
| Text.TrimDropsOnlySpace | lib/validation.js:61 | everything before and after that slice is white space |
| Text.TrimBlankIff | lib/validation.js:10 | a string trims to empty exactly when it is white space throughout |
| Text.TrimFixpoint | lib/validation.js:61 | a string with no white space at its ends is its own trim |
| Text.TrimIdempotent | lib/validation.js:61 | trimming twice is trimming once |
| Text.StripAngles | lib/validation.js:62 | the result holds no `<` or `>` and is no longer than the input |
| Text.StripAnglesKeepsOthers | lib/validation.js:62 | every character other than `<` and `>` occurs as often in the result as in the input |
| Text.StripAnglesAppend | lib/validation.js:62 | stripping works piecewise, so it keeps the order of what it keeps |
| Text.StripAnglesFixpoint | lib/validation.js:62 | a bracket-free string is left unchanged |
| Text.Prefix | lib/validation.js:63 | `substring(0, n)` holds `min(n, length)` units and is a prefix of the input |
| Patterns.UrlMatches | lib/constants.js:23 | a match is longer than 7 units and starts with `http`, and every `http://` followed by a unit that is not a line terminator matches |
| Patterns.EmailMatches | lib/constants.js:24 | a match has at least 5 units, no white space, and exactly one `@` |
| Patterns.UrlMatchesExtends | lib/constants.js:23 | the URL pattern is not anchored at the end, so extending a match keeps it a match |
| Patterns.UrlExamples | lib/constants.js:23 | a bare scheme is rejected; one more non-line-terminator character is accepted; a line terminator or another scheme is rejected |
| Patterns.EmailExamples | lib/constants.js:24 | `a@b.c` matches; a missing dot, a doubled `@` and white space are rejected |

## Left out

- The key-value client itself: the store is in-memory maps, and failures of the store itself are not modelled. In the save handler such a failure would end in the `catch` block's 500 answer. In the sync, a failure inside `saveArticle` would be caught per item and recorded as an `error` result while the loop goes on; a failure of the reads before or after the loop would end in the 500 answer.
- The time-to-live of user and article keys is not modelled. Only the rate counter's expiry is, driven by an explicit clock.
- Id generation from the clock and a random number, and ISO timestamp strings: ids and times are parameters, and one time stands for every clock reading within a call.
- Concurrency: requests run one at a time, so read-modify-write races between requests are not modelled.
- Authentication (`lib/auth.js`, JWT handling and the Google OAuth client) is a foreign call: `HandleSave` takes its outcome as an input, and the sync starts after it.
- The sign-in handler (`api/auth/google.js`) is not modelled. It rate-limits the client address with `checkRateLimit`, checks the access token against Google with a remote `fetch`, checks the returned email, validates the user data with `validateUser`, then calls `getUserByGoogleId` and `createUser` or `updateUser`, and signs a JWT. The store operations and the validator it uses are modelled; the remote call and the signing are foreign calls.
- The list handler (`api/articles/list.js`) is not modelled. It reads the index with `getUserArticles` and, when the query has `detailed=true`, replaces each entry by its full record from `getArticle`, keeping the entry when the record is missing.
- The delete handler (`api/articles/delete.js`) is not modelled. It answers 400 when the query has no `articleId`, 404 when `deleteArticle` returns false, and 200 otherwise.
- CORS headers, the OPTIONS preflight, the 405 answer to other methods, the health check and the environment check are not modelled. Neither are the request and response objects: a response is a status plus a body datatype.
- The sync's default of `[]` for an absent `localArticles` is not modelled; the sync takes the list itself.
- Non-string values in text fields (numbers, objects) are not modelled. A field is either absent or a string. `validateArticle` and `sanitizeInput` depend on `typeof` only through that distinction.
- A Dafny `char` is a Unicode scalar value, not a UTF-16 code unit. A character outside the Basic Multilingual Plane counts as one unit where JavaScript counts two, so length limits on such text differ, and lone surrogates cannot be expressed.
- Records.NumberOrNull: a reading time is an integer or absent. A fractional JavaScript number, and `NaN`, which is falsy and so also becomes `null`, are not modelled.
- `null` and `undefined` are not told apart. Keys of an update object outside the record's fields are not modelled.
- Sync.SyncArticles: the handler's 500 answer for errors thrown outside the per-item `try` is not modelled. Besides store failures, it is reached by a missing request body, a `localArticles` that is `null` or not an array, and a `null` element of it, whose `.url` throws. The model takes a `seq<ArticleData>`, which cannot express any of these inputs.
