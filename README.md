# Code review assistant: a Dafny model of its backend decisions

The code review assistant lets a signed-in user submit a code snippet. The
backend has a language model (Groq) analyse the snippet and stores the
analysis as a review. Users can page through their reviews, rate an
analysis once, and keep a profile. A small client store tracks who is
signed in.

This project models the decision logic of that system, with proofs about it:

- `Strings`: JavaScript `trim`, `startsWith`, `endsWith`, and the "blank after trimming" test.
- `Values`: JSON values with JavaScript truthiness, and the replies a route sends.
- `Prompts`: the three prompt templates and `String.prototype.replace` with a string pattern. The model covers first-occurrence replacement and the `$$`, `$&`, `` $` `` and `$'` replacement patterns.
- `Analysis`: `analyzeCode`. It rejects a blank snippet, extracts the model's reply, strips a Markdown fence, parses, and falls back to a fixed degraded record.
- `Reviews`: the review routes over the `reviews` table (`ReviewTable`). Covers create, paginated listing, fetch and delete, all scoped to the caller.
- `Feedback`: the feedback routes over the `feedback` table (`FeedbackTable`). Covers rating checks, ownership, one rating per review, fetch, and the statistics aggregate.
- `Profiles`: the profile routes over the `user_profiles` map (`ProfileTable`). Covers get (a missing row gives an empty profile), upsert, and the image update.
- `Auth`: the bearer-token gate `authMiddleware`.
- `AuthStore`: the client's auth store, a class with five fields and its actions.

Outside services are parameters:

- The language model call, `JSON.parse`, the auth service's token check and the client API are function-typed parameters.
- A failing database call is a fault parameter carrying its error.
- The clock is a timestamp parameter.
- The review routes receive the analysis step as a function `analyze`, which stands for `groqService.analyzeCode`. `Analysis.AnalyzeCode` defines that function.

## Model

| member | source | states |
|---|---|---|
| Strings.TrimStart | backend/src/services/groqService.js:49 | the result is a suffix of the input; everything dropped is white space; the result does not start with white space |
| Strings.TrimEnd | backend/src/services/groqService.js:49 | the result is a prefix of the input; everything dropped is white space; the result does not end with white space |
| Strings.TrimSlice | backend/src/services/groqService.js:49 | `trim` returns a contiguous piece of its input, with no white space at either end, and cuts away only white space |
| Strings.TrimIdempotent | backend/src/services/groqService.js:49-60 | trimming twice is trimming once |
| Strings.TrimEmptyIffBlank | backend/src/routes/reviews.js:38 | `s.trim().length === 0` holds exactly when every character is white space |
| Strings.TrimPadded | backend/src/services/groqService.js:49-60 | blank padding around an already trimmed text is exactly what `trim` removes |
| Values.Member | backend/src/routes/reviews.js:61 | property access on a non-null value gives the object's field, or undefined when the value is not an object or lacks the key |
| Values.OrDefault | backend/src/routes/reviews.js:59 | `x \|\| fallback` keeps a non-empty string and otherwise gives the fallback |
| Values.ErrorText | backend/src/routes/reviews.js:83-87 | `error.message \|\| 'Internal server error'` is never empty, and keeps a non-empty message |
| Prompts.FindFrom | backend/src/utils/prompts.js:93-95 | the index found is an occurrence at or after the start with none before it; None means there is no occurrence |
| Prompts.ExpandFree | backend/src/utils/prompts.js:93-95 | a replacement free of `$$`, `$&`, `` $` `` and `$'` is inserted unchanged |
| Prompts.ReplaceFromFirst | backend/src/utils/prompts.js:93-95 | `replace` with a string pattern changes only the first occurrence, to the expanded replacement; with no occurrence the text is unchanged |
| Prompts.FirstPlaceholder | backend/src/utils/prompts.js:29 | in a well-formed template the first `{code}` lies right after the prefix |
| Prompts.BuildShape | backend/src/utils/prompts.js:93-103 | a builder's result is prefix, expanded snippet, suffix |
| Prompts.BuildFree | backend/src/utils/prompts.js:93-103 | for a snippet without patterns the result is prefix + code + suffix, of length \|template\| − 6 + \|code\|, starting with the prefix and ending with the suffix |
| Prompts.BuildKeepsPrefix | backend/src/utils/prompts.js:15-29 | whatever the snippet, the template text before the placeholder opens the prompt unchanged |
| Prompts.PlaceholderOnce | backend/src/utils/prompts.js:29 | a template with no `{` around its placeholder contains the placeholder at one position only |
| Prompts.PatternsExpanded | backend/src/utils/prompts.js:93-95 | a snippet `$'` duplicates the text after the placeholder, `$&` puts the placeholder back, and `$$` gives one `$` |
| Prompts.AnalysisWellFormed | backend/src/utils/prompts.js:15-29 | the analysis template has no `{` before its placeholder, so the `{code}` that `replace` finds is the one after "CODE SNIPPET:" |
| Prompts.SecurityWellFormed | backend/src/utils/prompts.js:55-63 | the security template has no `{` before its placeholder |
| Prompts.PerformanceWellFormed | backend/src/utils/prompts.js:80-88 | the performance template has no `{` before its placeholder |
| Prompts.PerformancePlaceholderOnce | backend/src/utils/prompts.js:80-90 | the performance template contains `{code}` at one position only |
| Prompts.AnalysisPrompt | backend/src/utils/prompts.js:93-95 | `buildAnalysisPrompt(code)` is the instructions up to "CODE SNIPPET:\n", the snippet with its patterns expanded, then the response format; a snippet without patterns appears verbatim, the prompt is then \|basePrompt\| − 6 + \|code\| long and ends with the response format; a snippet `$'` repeats the response format |
| Prompts.SecurityPrompt | backend/src/utils/prompts.js:97-99 | `buildSecurityPrompt(code)` is the security checklist up to "Code:\n", the expanded snippet, then the requested format; verbatim for a snippet without patterns, of length \|securityPrompt\| − 6 + \|code\| |
| Prompts.PerformancePrompt | backend/src/utils/prompts.js:101-103 | `buildPerformancePrompt(code)` is the performance checklist up to "Code:\n", the expanded snippet, then the closing request; verbatim for a snippet without patterns, of length \|performancePrompt\| − 6 + \|code\| |
| Analysis.StripLeading | backend/src/services/groqService.js:50-55 | stripping a leading fence leaves a suffix of the text |
| Analysis.StripTrailing | backend/src/services/groqService.js:56-58 | stripping the trailing fence leaves a prefix of the text |
| Analysis.Interpret | backend/src/services/groqService.js:46-73 | parsed text is returned as parsed; null content or unparsable text gives exactly the degraded record (its summary, score 0, no issues, and the parse error) |
| Analysis.AnalyzeCode | backend/src/services/groqService.js:10-17 | a blank snippet throws "Code snippet cannot be empty" before any prompt or call; otherwise the reply to the analysis prompt decides |
| Analysis.Respond | backend/src/services/groqService.js:22-79 | a value is returned exactly when the first choice has a message; no choices gives "No response from Groq"; a failing call's error is rethrown |
| Analysis.ParsedUnchanged | backend/src/services/groqService.js:60-75 | when the cleaned reply parses, `analyzeCode` returns the parsed value unchanged |
| Analysis.UnreadableDegrades | backend/src/services/groqService.js:61-72 | a null or unparsable reply gives the degraded record (summary, score 0, no issues, error), with no `positives`, and nothing is thrown |
| Analysis.UnfenceSlice | backend/src/services/groqService.js:50-58 | the three strips remove a piece from each end and nothing in between |
| Analysis.CleanSlice | backend/src/services/groqService.js:49-60 | the cleaned text is a contiguous piece of the trimmed reply, so never longer |
| Analysis.CleanPlain | backend/src/services/groqService.js:49-60 | a reply that neither starts nor ends with a fence is only trimmed |
| Analysis.CleanFenced | backend/src/services/groqService.js:49-60 | JSON inside a "```json" block, or a bare "```" block opened by a line break, is recovered exactly, whatever white space surrounds it |
| Analysis.CleanDoubleFence | backend/src/services/groqService.js:50-55 | "```json```x" loses both leading fences before the trailing one is looked at |
| Analysis.FenceIgnored | backend/src/services/groqService.js:49-75 | wrapping the JSON in a code block does not change what is returned |
| Reviews.Validate | backend/src/routes/reviews.js:38-44 | blank code gives "Code snippet is required"; otherwise blank title gives "Title is required"; nothing otherwise |
| Reviews.StoredScore | backend/src/routes/reviews.js:61 | the stored score is the analysis's top-level `score` when truthy; a missing score and a falsy one (`null`, `false`, `""`, 0) give 0 |
| Reviews.Prepare | backend/src/routes/reviews.js:32-61 | validation comes first (400); an analysis failure gives 500 with the error's text; the row carries the caller's id, the body's title and code, and the language defaulting to "javascript" |
| Reviews.InvalidNotAnalysed | backend/src/routes/reviews.js:38-49 | a rejected body gives 400 whatever the analysis would say, so the snippet is not analysed |
| Reviews.RequestedFormatScoresZero | backend/src/routes/reviews.js:61 | a reply in the prompt's requested `{"analysis": …}` format is stored with score 0 |
| Reviews.FlatFormatKeepsScore | backend/src/routes/reviews.js:61 | a flat reply's non-zero top-level score is stored as it is |
| Reviews.Param | backend/src/routes/reviews.js:104-105 | `parseInt(x) \|\| d` keeps a non-zero number; NaN and 0 give the default, so page and limit fall back to 1 and 10 |
| Reviews.CeilDiv | backend/src/routes/reviews.js:136 | `Math.ceil(a / b)` is the least r with a ≤ r·b for positive b, and the matching bound for negative b |
| Reviews.PageCount | backend/src/routes/reviews.js:136 | no rows means 0 pages; otherwise (pages − 1)·limit < total ≤ pages·limit |
| Reviews.Window | backend/src/routes/reviews.js:119-124 | `.range(offset, offset + limit − 1)` yields the rows at indices offset onwards, limit of them or fewer at the end |
| Reviews.RowOnItsPage | backend/src/routes/reviews.js:104-136 | every row of the list appears on page ⌊k/limit⌋ + 1, which is within the page count |
| Reviews.WindowKeepsOrder | backend/src/routes/reviews.js:119-124 | a page of a newest-first list is newest first |
| Reviews.Select | backend/src/routes/reviews.js:158-163 | the selected rows are exactly the rows satisfying the filter, in their order |
| Reviews.Newest | backend/src/routes/reviews.js:109-124 | the listed rows are exactly the caller's rows, newest first |
| Reviews.ReviewTable.Create | backend/src/routes/reviews.js:29-89 | on success exactly one row is appended, owned by the authenticated user, with the prepared fields, and 201 is sent; every failure leaves the table unchanged |
| Reviews.ReviewTable.List | backend/src/routes/reviews.js:99-143 | the page holds only the caller's rows, newest first, from offset (page − 1)·limit; total is the caller's row count and pages is its ceiling quotient |
| Reviews.ReviewTable.Get | backend/src/routes/reviews.js:152-175 | a row is returned exactly when one with this id belongs to the caller; otherwise 404 "Review not found" |
| Reviews.ReviewTable.Delete | backend/src/routes/reviews.js:185-205 | only rows matching both id and owner are removed, every other row is kept in order, and 200 is sent even when nothing matched |
| Reviews.SingleMatch | backend/src/routes/reviews.js:158-163 | with distinct ids at most one row has a given id |
| Feedback.ValidateRatings | backend/src/routes/feedback.js:62-72 | a rating passes exactly when it is in 1..10; accuracy, helpfulness and trust are checked in that order, and the first failure gives its own message |
| Feedback.TimeSpent | backend/src/routes/feedback.js:105 | `time_spent \|\| 0` is the given time, or 0 when absent |
| Feedback.Comments | backend/src/routes/feedback.js:106 | `comments \|\| null` keeps a non-empty comment, and gives null otherwise |
| Feedback.Prepare | backend/src/routes/feedback.js:62-110 | checks run in order: ratings (400), then ownership (404 "Review not found"), then an earlier rating (400); the row passed on has ratings in 1..10 and the defaulted time and comments |
| Feedback.RatingsFirst | backend/src/routes/feedback.js:62-75 | a bad rating gives 400 whatever the tables hold |
| Feedback.OwnershipBeforeDuplicate | backend/src/routes/feedback.js:75-94 | a review the caller does not own gives 404 whether or not it was already rated |
| Feedback.ForReview | backend/src/routes/feedback.js:87-91 | the rows for a review are exactly the table's rows with that review id |
| Feedback.SingleRow | backend/src/routes/feedback.js:153-161 | with one row per review, the rows for a rated review are exactly its one row |
| Feedback.AppendKeepsOnePerReview | backend/src/routes/feedback.js:87-110 | adding a row for a review that had none keeps one row per review |
| Feedback.SumBounds | backend/src/routes/feedback.js:34-37 | a sum of n values within lo..hi lies within lo·n..hi·n |
| Feedback.AverageBounds | backend/src/routes/feedback.js:33-37 | an average of values within lo..hi lies within lo..hi |
| Feedback.StatisticsOf | backend/src/routes/feedback.js:6-52 | the statistics cover every row whoever asks; no rows gives all zeros; otherwise each average is its column sum over the row count, and the rating averages lie in 1..10 |
| Feedback.TwoRatingsExample | backend/src/routes/feedback.js:33-46 | ratings (8, 7, 9, 30) and (6, 5, 7, 50) average to (7, 6, 8, 40) |
| Feedback.FeedbackTable.Submit | backend/src/routes/feedback.js:55-132 | a failed check or insert leaves the table unchanged; success appends exactly one row for a review the caller owns; one row per review is preserved when the duplicate query succeeds |
| Feedback.AppendStored | backend/src/routes/feedback.js:97-110 | appending a row with the next id and ratings in 1..10 keeps ids increasing and every stored rating in 1..10 |
| Feedback.FeedbackTable.Insert | backend/src/routes/feedback.js:97-127 | a failing insert gives 400 with its message and changes nothing; otherwise exactly one row is appended with the next id, and 201 echoes its fields; one row per review is kept when the review had none |
| Feedback.FeedbackTable.GetFeedback | backend/src/routes/feedback.js:135-179 | ownership is checked first (404 "Review not found"), then the single row for the review (404 "Feedback not found"); an owned review with exactly one row and no fault gives that row with 200 |
| Feedback.FeedbackTable.GetFindsStored | backend/src/routes/feedback.js:135-179 | with one row per review, the stored rating of an owned review is what GET returns |
| Feedback.FeedbackTable.GetStatistics | backend/src/routes/feedback.js:6-52 | for a valid table, total is the row count and every rating average is within 1..10 |
| Profiles.Upserted | backend/src/routes/profiles.js:36-48 | the upserted row is keyed by the token user's id, takes the email from the token user, marks the survey completed and stamps both times |
| Profiles.BodyCannotChooseIdentity | backend/src/routes/profiles.js:34-47 | no body changes the id, email or survey columns of the upserted row |
| Profiles.ProfileTable.Get | backend/src/routes/profiles.js:7-28 | the caller's row is returned when found; a missing row (PGRST116) gives the empty profile; any other error gives 500; in a table that keeps each row under its own id, the row returned is the caller's |
| Profiles.ProfileTable.Update | backend/src/routes/profiles.js:31-63 | the caller's row is replaced by the upserted row and no other row changes; a failure gives 500 and changes nothing |
| Profiles.ProfileTable.UpdateImage | backend/src/routes/profiles.js:66-96 | a missing or empty URL gives 400 "Image URL is required"; otherwise only the caller's row changes, in its URL and update time only; no row is created |
| Auth.BearerToken | backend/src/middleware/authMiddleware.js:7-13 | a token is read exactly when the header starts with the case-sensitive "Bearer ", and the header is "Bearer " followed by the token |
| Auth.BearerRoundTrip | backend/src/middleware/authMiddleware.js:9-13 | a token sent after "Bearer " is read back unchanged |
| Auth.BareBearerEmptyToken | backend/src/middleware/authMiddleware.js:13 | a header of exactly "Bearer " yields the empty token |
| Auth.LowercaseRejected | backend/src/middleware/authMiddleware.js:9 | a "bearer " header is refused |
| Auth.Decide | backend/src/middleware/authMiddleware.js:4-29 | no bearer header gives 401 "No token provided"; the request passes exactly when the token is verified, with that user; a rejected token gives 401 "Invalid or expired token"; an exception gives 500 |
| Auth.NoTokenNoVerify | backend/src/middleware/authMiddleware.js:9-11 | without a bearer header the answer does not depend on the auth service |
| Auth.Authenticate | backend/src/middleware/authMiddleware.js:22-24 | on success `req.user` is the verified user and `next` runs with no reply; otherwise the reply is sent and `req.user` is untouched |
| AuthStore.Store.constructor | frontend/src/stores/authStore.js:5-9 | the store starts signed out, not loading, without error |
| AuthStore.Store.Begin | frontend/src/stores/authStore.js:13 | entering login or register sets loading and clears the error, and changes nothing else |
| AuthStore.Store.Settle | frontend/src/stores/authStore.js:20-24 | success only clears loading; failure records the message and clears loading; user, token and isAuthenticated never change |
| AuthStore.Store.Login | frontend/src/stores/authStore.js:12-25 | login ends not loading, never signs the user in, and leaves the error cleared on success or set to the message on failure |
| AuthStore.Store.Register | frontend/src/stores/authStore.js:28-39 | register behaves as login does |
| AuthStore.Store.SetAuth | frontend/src/stores/authStore.js:42-47 | sets user and token, signs in and clears the error; loading is kept |
| AuthStore.Store.Logout | frontend/src/stores/authStore.js:50-54 | clears user and token and signs out; loading and error are kept |
| AuthStore.Store.ClearError | frontend/src/stores/authStore.js:57 | only the error changes, to null |

## Left out

- Prompts.PlaceholderOnce: stated for templates with no `{` after the placeholder either. That holds for the performance template (Prompts.PerformancePlaceholderOnce). The response formats of the analysis and the security templates contain `{`, so "exactly once" is not proved for those two; that the first `{code}` is the one after the instructions is proved for all three.
- String lengths: a string is a sequence of Unicode scalar values, whereas JavaScript `length` counts UTF-16 code units. For a snippet with a character outside the Basic Multilingual Plane (an emoji, say), the lengths stated by Prompts.BuildFree and the three builder lemmas count that character once where JavaScript counts it twice.
- `analyzeCodeSecurity` and `analyzeCodePerformance` (backend/src/services/groqService.js:83-134): each is a model call plus a raw parse, and nothing calls them.
- backend/src/routes/auth.js, backend/src/server.js, the client API module and every React page and component: these are service calls, wiring or user interface.
- The language model, `JSON.parse`, the auth service and the client API: these are oracles, and their own behaviour is not modelled. A parsed JSON number is an integer.
- Reviews.ReviewTable.Create: receives the analysis step as a parameter `analyze`, in place of calling `Analysis.AnalyzeCode` directly. The end-to-end score-0 result is the pair of lemmas `Analysis.ParsedUnchanged` and `Reviews.RequestedFormatScoresZero`.
- Reviews.ReviewTable.List: the listing is newest first by insertion order. This assumes `created_at` (the server clock) increases with insertion. The range call's errors for out-of-range or negative offsets are not modelled: out-of-range indices give no rows.
- Feedback.StatisticsOf: averages are exact quotients. The `toFixed(2)` / `parseFloat` rounding and floating-point sums are not modelled.
- Feedback.ValidateRatings: ratings are integers or absent. Fractional ratings and non-numeric body values are not modelled.
- Feedback.FeedbackTable.Submit: the duplicate guard is a check followed by an insert, with no transaction. One row per review holds only for requests processed one at a time. When the query for earlier feedback fails, its error is ignored and the guard lets the insert through.
- Feedback.FeedbackTable.GetFeedback: `.single()` is modelled as "exactly one row", and every other outcome gives 404. The store's error codes are not modelled.
- Profiles.ProfileTable.Update: the upsert replaces the whole row. Body fields that are absent are stored as null, whereas the store's column merge would keep an existing value.
- Timestamps (`new Date()`) are a parameter. Console logging is left out.
- Request bodies are records of optional strings and integers. Values of other JSON types in body fields are not modelled.
