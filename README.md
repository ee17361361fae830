# viral-scout-vercel, modelled in Dafny

viral-scout-vercel is a set of serverless HTTP handlers. One searches YouTube for Shorts. One fans a search out over several subreddits. One asks Google Trends for the rising queries around a keyword. This project models the logic these handlers wrap around their network calls:

- **the per-client sliding-window rate limiter.** All three handlers share it through one process-wide map (`RateLimit`, a class);
- **the two ISO-8601 duration readers.** The anchored `PT#M#S` parser of the hardened Shorts search, and the unanchored "is it a Short" check of the older handler (`Duration`);
- **the Shorts pipeline** (`Shorts`). It maps upstream records with defaults, keeps the Shorts, does a stable sort by views, descending, and cuts the list to `max_results`;
- **the clamps of `max_results` and `limit`** (`Params`);
- **the subreddit side** (`Reddit`). This covers the subreddit list parsing, the `sort` parameter, how one subreddit fetch settles, and the merge of all settled fetches into one item list;
- **the rising-queries side** (`Trends`). This covers link normalisation and keyword validation;
- **the order of checks in each handler** (`Handlers`): rate limit, API key, input validation, then the upstream calls, and the reply each path produces.

The JavaScript string primitives used are modelled in `Text`:

- `trim`, with the ECMAScript whitespace set;
- `split` on one character, with the join that undoes it;
- `slice(0, n)`, lower-casing and decimal rendering;
- the UTF-16 `length`.

Upstream HTTP replies are parameters of the handlers (`Upstream.Fetched`). Each one is either a network error or a status, a body and the outcome of parsing the body as JSON. The clock (`Date.now()`) is a parameter `now`. Environment variables are parameters too.

## Model

| member | source | states |
|---|---|---|
| RateLimit.ClientKey | api/youtube/top_shorts_hardened.js:13 | the key is never empty and holds no comma; an empty or missing header, or one starting with a comma, gives "unknown"; otherwise the key is the untrimmed header text up to its first comma |
| RateLimit.Recent | api/youtube/top_shorts_hardened.js:16 | a timestamp is kept exactly when it was in the list and lies less than 60000 ms before `now` |
| RateLimit.Hits | api/youtube/top_shorts_hardened.js:16 | a known key's stored list, and the empty list for a key never seen |
| RateLimit.RateLimiter.constructor | api/youtube/top_shorts_hardened.js:15 | the shared map starts empty |
| RateLimit.RateLimiter.Admit | api/youtube/top_shorts_hardened.js:15-22 | the key's list becomes its recent hits followed by `now`, also when refused; every other key is unchanged; refused exactly when the new list holds more than 60 hits; no precondition, so it never fails |
| RateLimit.RateLimiter.Check | api/reddit/search.js:8-24 | the admission check applied to the key derived from `x-forwarded-for` |
| RateLimit.RecentAppend | api/trends/rising.js:10 | the pruning filter distributes over concatenation |
| RateLimit.RecentKeepsAll | api/trends/rising.js:10 | a list whose hits all lie in the window is kept whole |
| RateLimit.RecentDropsAll | api/trends/rising.js:10 | a list whose hits all lie outside the window is pruned to nothing |
| RateLimit.AdmitInBurst | api/youtube/top_shorts_hardened.js:16-19 | after expired hits and live hits, one check leaves exactly the live hits plus `now` and refuses exactly when they exceed 60 |
| RateLimit.BurstReplay | api/youtube/top_shorts_hardened.js:16-21 | in a burst within one window, following earlier live hits, the i-th check is refused exactly when the earlier hits plus i + 1 exceed 60 |
| RateLimit.FreshClientBurst | api/youtube/top_shorts_hardened.js:16-21 | for a client with no history, the checks of a burst within one window admit the first 60 and refuse the 61st and every later one |
| RateLimit.OtherClientsUnaffected | api/reddit/search.js:13-15 | any sequence of checks for one client leaves every other client's hits and verdict unchanged |
| Text.Trim | api/reddit/search.js:81 | the result is no longer than the input and has no whitespace at either end |
| Text.WhitespaceExactly | api/reddit/search.js:81 | the characters `trim` removes (`IsWhitespace`) are exactly the ECMAScript WhiteSpace and LineTerminator code points, listed as a set |
| Text.AstralIsNotWhitespace | api/trends/rising.js:53 | no character above U+FFFF is whitespace, so `trim` keeps it |
| Text.TrimRemovesOnlyWhitespace | api/reddit/search.js:81 | the result is the piece of the input that follows its leading whitespace run, and everything before and after that piece is whitespace |
| Text.TrimTrimmed | api/reddit/search.js:81 | trimming a string with no whitespace at either end returns it unchanged |
| Text.TrimmedParam | api/trends/rising.js:53 | the trimmed parameter is the trim of the given text and has no whitespace at either end; an absent parameter reads as "" |
| Text.Split | api/reddit/search.js:80 | there is at least one piece, no piece contains the separator, and joining the pieces with the separator gives back the input |
| Text.SplitJoin | api/reddit/search.js:80 | splitting the join of separator-free pieces gives back those pieces |
| Text.ToLowerAscii | api/reddit/search.js:85 | same length; each upper-case ASCII letter becomes its lower-case letter, every other character is kept, and no upper-case ASCII letter remains |
| Text.StartsWith | api/trends/rising.js:27 | `startsWith`: true exactly when the prefix fits in the string and its first characters are the prefix |
| Text.Utf16Length | api/trends/rising.js:55 | the `length` of a string lies between its number of characters and twice that; it equals the number of characters when none is above U+FFFF, and twice it when all are |
| Text.Utf16LengthOne | api/trends/rising.js:55 | one character is one code unit, or two when it is above U+FFFF |
| Text.Utf16LengthAppend | api/trends/rising.js:55 | the `length` of a concatenation is the sum of the lengths |
| Text.Decimal | api/youtube/top_shorts_hardened.js:71 | the rendering is a non-empty digit string whose value is the number, with no leading zero (it is "0" only for 0) |
| Text.DigitsValue | api/youtube/top_shorts.js:10-11 | the value of a digit string is 0 exactly when every digit is "0" |
| Text.DigitsValueLeadingZero | api/youtube/top_shorts_hardened.js:99-100 | a leading zero does not change the value, so "01" reads as 1 |
| Text.Prefix | api/youtube/top_shorts_hardened.js:71 | `slice(0, n)` counted in characters: a prefix of the input whose length is the smaller of n and the input's length |
| Duration.Groups | api/youtube/top_shorts_hardened.js:98 | the captures are well formed and the text they consumed followed by the rest is the input; the minutes group is taken exactly when the input starts with digits then "M", and the seconds group exactly when what follows starts with digits then "S" |
| Duration.Group | api/youtube/top_shorts_hardened.js:98 | an optional `(\d+)U` group is taken exactly when the text starts with one or more digits followed by the unit letter, and then captures exactly that digit run; otherwise nothing is consumed |
| Duration.Seconds | api/youtube/top_shorts_hardened.js:99-101 | minutes count 60 seconds each and a missing group counts 0: with only seconds the total is their value, with only minutes it is 60 times theirs, with both it is 60 times the minutes plus the seconds, and it is never below either part |
| Duration.GroupValue | api/youtube/top_shorts_hardened.js:99-100 | a missing group counts 0 and a captured one its decimal value |
| Duration.IsShortHardened | api/youtube/top_shorts_hardened.js:111-112 | a duration the pattern rejects counts as a Short (it reads as 0); a matching one is a Short exactly when its total is at most 60 |
| Duration.MatchAnchored | api/youtube/top_shorts_hardened.js:98 | a match has well-formed captures whose rendering `PT[dM][dS]` is the whole input |
| Duration.MatchAnchoredRender | api/youtube/top_shorts_hardened.js:98 | every rendering of well-formed captures matches, with those same captures |
| Duration.ParseISODurationToSeconds | api/youtube/top_shorts_hardened.js:96-102 | a string the pattern rejects gives 0, and a positive result needs a string starting with "PT" |
| Duration.ParseRoundTrip | api/youtube/top_shorts_hardened.js:96-102 | rendering any minutes and seconds and parsing them back gives minutes * 60 + seconds |
| Duration.HoursParseToZero | api/youtube/top_shorts_hardened.js:98-112 | any duration with an hours component parses to 0 and therefore counts as a Short |
| Duration.HardenedExamples | api/youtube/top_shorts_hardened.js:96-112 | "PT1M" is 60, "PT45S" is 45, "PT1M15S" is 75, "" and "PT1H" are 0; "PT0S" and "PT1H" are Shorts and "PT1M1S" is not |
| Duration.RenderedExample | api/youtube/top_shorts_hardened.js:96-102 | on a rendered duration the hardened parser gives its seconds and the legacy check says Short exactly when they are in (0, 60] |
| Duration.IndexOfPT | api/youtube/top_shorts.js:8 | the match starts at the leftmost "PT"; there is none exactly when "PT" occurs nowhere |
| Duration.MatchUnanchored | api/youtube/top_shorts.js:8-9 | there is no match exactly when "PT" occurs nowhere; otherwise the captures are the optional groups read right after the leftmost "PT", and they are well formed |
| Duration.LegacyMatchOfRender | api/youtube/top_shorts.js:8 | the legacy pattern matches every rendering of well-formed captures, with those captures |
| Duration.LeftmostPT | api/youtube/top_shorts.js:8 | after text containing no "PT", a "PT" that follows is where the match starts |
| Duration.LegacyMatchInContext | api/youtube/top_shorts.js:8 | a rendered duration preceded by text without "PT" and followed by anything not starting with a digit is matched with exactly its captures |
| Duration.IsShortISO8601 | api/youtube/top_shorts.js:4-14 | true exactly when the pattern matches and the matched total is in (0, 60]; false whenever "PT" occurs nowhere |
| Duration.LegacyCheckInContext | api/youtube/top_shorts.js:8-13 | a rendered duration embedded after text without "PT" and before text not starting with a digit is a Short exactly when its total is in (0, 60] |
| Duration.ClassifiersAgreeOnWellFormed | api/youtube/top_shorts.js:8-13 | on a well-formed duration the legacy check is true exactly when its total is in (0, 60], that is when the hardened check holds and the total is not 0 |
| Duration.LegacyExamples | api/youtube/top_shorts.js:8-13 | "PT60S" and "PT1M" are Shorts; "PT1M1S", "PT0S", "" and "PT1H2M" are not |
| Duration.HourThenMinutesIsZero | api/youtube/top_shorts.js:8-13 | "PT1H2M" reads as total 0, so it is not a Short |
| Params.MaxResults | api/youtube/top_shorts_hardened.js:40 | always in [1, 25]; absent, non-numeric or 0 gives 10; values in range pass through; larger values give 25 and negative ones give 1 |
| Params.RedditLimit | api/reddit/search.js:86 | always in [1, 50], with the same defaults and saturation |
| Params.ClampCount | api/youtube/top_shorts_hardened.js:40 | the argument, or 10 when it is absent, not a number or 0, clamped to [1, hi]: always in [1, hi]; 10 for those defaults when hi is at least 10; values in range pass through; negative ones give 1 and larger ones give hi |
| Shorts.OrDefault | api/youtube/top_shorts_hardened.js:107-110 | a present, non-empty value is kept; a missing or empty one becomes the default |
| Shorts.CountOrZero | api/youtube/top_shorts_hardened.js:113-114 | a missing count reads as 0 and a present one is kept |
| Shorts.WatchUrl | api/youtube/top_shorts_hardened.js:119 | the URL is the watch prefix followed by exactly the id |
| Shorts.HardenedItem | api/youtube/top_shorts_hardened.js:105-126 | the id and watch URL come from the record; a missing or empty title or channel title becomes "", a missing count 0, a missing duration "PT0S" (a Short); `isShort` holds exactly when the duration parses to at most 60 seconds; `publishedAt` is the record's non-empty date, and null when that is missing or empty |
| Shorts.ZeroSecondsIsShort | api/youtube/top_shorts_hardened.js:110-112 | the default duration "PT0S" counts as a Short |
| Shorts.LegacyItem | api/youtube/top_shorts.js:50-63 | the id and watch URL come from the record; a missing or empty title or channel title becomes "", a missing count 0, a missing duration "" (not a Short); `isShort` is the legacy check of the duration; `publishedAt` is the record's date, or "" when it is missing or empty |
| Shorts.HardenedItems | api/youtube/top_shorts_hardened.js:104-126 | one mapped item per record, in order |
| Shorts.LegacyItems | api/youtube/top_shorts.js:50-63 | one mapped item per record, in order |
| Shorts.KeepShorts | api/youtube/top_shorts_hardened.js:128 | keeps every Short and nothing else, taking each item no more often than it occurs |
| Shorts.KeepShortsAppend | api/youtube/top_shorts.js:64 | filtering distributes over concatenation, so kept items stay in their input order |
| Shorts.LegacyShorts | api/youtube/top_shorts.js:50-64 | every returned item is a Short by the legacy check, every record that is a Short appears, and there are no more items than records |
| Shorts.LegacyShortsAppend | api/youtube/top_shorts.js:50-64 | the legacy map-and-filter distributes over concatenation of the records, so the result keeps the records' order |
| Shorts.LegacyShortsOne | api/youtube/top_shorts.js:50-64 | one record gives its mapped item when the legacy check calls it a Short, and nothing otherwise |
| Shorts.InsertByViews | api/youtube/top_shorts_hardened.js:130 | inserting into a list sorted by views, descending, keeps it sorted and adds exactly that item |
| Shorts.SortByViews | api/youtube/top_shorts_hardened.js:130 | the result is sorted by views, descending, is a permutation of the input and has its length |
| Shorts.SortIsStable | api/youtube/top_shorts_hardened.js:130 | for every view count, the items with that count keep their input order |
| Shorts.StableOrderUnique | api/youtube/top_shorts_hardened.js:130 | two lists sorted by views, descending, that agree on the order of each view count are equal |
| Shorts.StableSortCharacterised | api/youtube/top_shorts_hardened.js:130 | any sorted list that keeps the input order within each view count is the result of the sort |
| Shorts.Truncate | api/youtube/top_shorts_hardened.js:131 | `slice(0, k)`: a prefix whose length is the smaller of k and the list's length, the whole list when it is short enough, and still sorted when the list was |
| Shorts.TopShorts | api/youtube/top_shorts_hardened.js:104-131 | exactly min(`maxResults`, number of Shorts among the mapped records) items, all Shorts, sorted by views, descending, drawn without repetition from the mapped records, and a prefix of the stable sort of the kept Shorts |
| Shorts.NoVideosNoItems | api/youtube/top_shorts_hardened.js:104 | no records give no items |
| Upstream.Excerpt | api/reddit/search.js:61 | a prefix of the body whose length is the smaller of 200 and the body's length |
| Upstream.IsOk | api/youtube/top_shorts_hardened.js:71 | `response.ok`: the status is in the 2xx class |
| Reddit.ParseSubreddits | api/reddit/search.js:79-83 | at most 10 names, each non-empty, trimmed and comma-free; an absent parameter gives ["all"] |
| Reddit.FirstTen | api/reddit/search.js:83 | the first ten names, in order: a prefix whose length is the smaller of 10 and the number of names |
| Reddit.NonEmptyTrimmed | api/reddit/search.js:81-82 | no more names than pieces, each non-empty and trimmed; pieces without commas stay comma-free |
| Reddit.NonEmptyTrimmedKeepsNames | api/reddit/search.js:81-82 | pieces that are already non-empty and trimmed pass through unchanged |
| Reddit.SubredditsRoundTrip | api/reddit/search.js:79-83 | parsing one or more clean names joined by commas gives back the first ten of them, in order |
| Reddit.EmptyParameterNoSubreddits | api/reddit/search.js:79-83 | an empty parameter gives no subreddit at all; "all" applies only when the parameter is absent |
| Reddit.CleanNamesSurviveSplit | api/reddit/search.js:80-82 | splitting comma-joined clean names and dropping blank pieces gives the names back |
| Reddit.SortMode | api/reddit/search.js:85 | the lower-casing of the parameter, or of "hot" when it is absent: same length, upper-case ASCII letters lowered, every other character kept |
| Reddit.FetchSub | api/reddit/search.js:50-67 | fulfilled exactly on a 2xx status with a JSON body, carrying that body; a network error rejects with its own message; a non-2xx status rejects with "Error: Reddit ", the status digits and ": " followed by the body excerpt; a 2xx body that is not JSON rejects with "Error: Non-JSON: " followed by the excerpt |
| Reddit.Listing.Entries | api/reddit/search.js:97 | `children ?? []`: the children of an array listing, and none when they are missing or null |
| Reddit.PostOf | api/reddit/search.js:98-108 | the item carries the subreddit; `id`, `title`, `score`, `numComments`, `createdUtc` and `thumbnail` are the child's own values; the URL is "https://www.reddit.com" followed by the permalink or ""; `isVideo` is the truthiness of `is_video` |
| Reddit.Truthy | api/reddit/search.js:107 | `!!v` is false exactly on undefined, null, false, 0 and "" |
| Reddit.ItemsOf | api/reddit/search.js:93-108 | a rejected subreddit gives exactly one error item with the reason; a fulfilled one gives one post per child, in order; every item carries the subreddit |
| Reddit.Merge | api/reddit/search.js:92-109 | as many items as one per rejected subreddit plus one per child of the fulfilled ones |
| Reddit.TotalCountAppend | api/reddit/search.js:92 | the item count is additive over the outcomes |
| Reddit.MergeAppend | api/reddit/search.js:92-109 | merging two runs of subreddits is merging each and concatenating, so items come grouped in subreddit order |
| Reddit.MergeAt | api/reddit/search.js:92-109 | the k-th item of subreddit i sits right after the items of the subreddits before it and carries `subs[i]` |
| Reddit.MergePosition | api/reddit/search.js:92-109 | the k-th item of subreddit i of the merge sits at the item count of the subreddits before it plus k, and is that subreddit's k-th item |
| Reddit.ErrorCountAppend | api/reddit/search.js:95 | the number of error items is additive |
| Reddit.PostsAreNotErrors | api/reddit/search.js:97-108 | a list of posts holds no error item |
| Reddit.EveryTargetAccountedFor | api/reddit/search.js:94-96 | the merged items hold exactly one error item per rejected subreddit |
| Trends.NormalizeLink | api/trends/rising.js:26-29 | a link starting with "/" gets the trends origin in front; any other non-empty link is kept; a missing or empty link becomes null; a result is never site-relative |
| Trends.NormalizeRising | api/trends/rising.js:24-31 | one entry per input entry, in order, with every other field unchanged and only the link normalised; a missing list gives [] |
| Trends.NormalizeIdempotent | api/trends/rising.js:24-31 | normalising an already normalised list changes nothing |
| Trends.ValidateKeyword | api/trends/rising.js:53-57 | accepted exactly when the trimmed keyword is non-empty and at most 64 UTF-16 units long, and then it is the trimmed keyword; empty is "missing" and longer is "too long" |
| Trends.AstralKeywordLimit | api/trends/rising.js:55-57 | the limit counts UTF-16 code units: a keyword made only of characters above U+FFFF is accepted up to 32 characters, and 33 are too long |
| Handlers.UnsetSecretAdmitsHeaderless | api/youtube/top_shorts_hardened.js:34 | with no secret configured, a request without the header passes the key check and one with any header fails it |
| Handlers.Reply.Status | api/youtube/top_shorts_hardened.js:20-136 | each reply's HTTP status: 200 exactly for a success, 429 exactly for the rate limit, 401 for a wrong key, 400 for bad input, 503 for an unavailable upstream and 502 for a failed upstream call |
| Handlers.Authorized | api/youtube/top_shorts_hardened.js:34 | with a secret configured, the header must be present and equal to it; with none, only a request without the header passes |
| Handlers.Configured | api/youtube/top_shorts_hardened.js:38-44 | the YouTube key counts as set only when it is present and non-empty |
| Handlers.VideoIds | api/youtube/top_shorts_hardened.js:74 | the ids are exactly the present, non-empty ids of the search results |
| Handlers.NoUsableIds | api/youtube/top_shorts_hardened.js:74 | results without a usable id give no ids |
| Handlers.StatusMessage | api/youtube/top_shorts_hardened.js:71 | the message is exactly the call name, a space, the decimal status code, ": " and the body excerpt, so it is at most the status digits plus 203 characters longer than the call name |
| Handlers.Settle | api/youtube/top_shorts_hardened.js:70-73 | an upstream call succeeds exactly on a 2xx status with a body that parses |
| Handlers.ShortsFromUpstream | api/youtube/top_shorts_hardened.js:54-141 | a network error, non-2xx status or unparsable body of the search gives 502 "YouTube upstream error" with that message (a non-2xx status reports the status and the body excerpt); a search without ids gives 200 with no items; then the same failures of the videos call give 502; when both calls succeed the 200 carries the Shorts pipeline of the listed videos cut to `maxResults` |
| Handlers.NoIdsNoItems | api/youtube/top_shorts_hardened.js:74-78 | a search without usable ids answers 200 with no items, whatever the videos call would return |
| Handlers.TopShortsHardenedReply | api/youtube/top_shorts_hardened.js:33-141 | the status is 200, 400, 401, 502 or 503; a wrong key gives 401; then an empty trimmed `q` gives 400 "Missing `q`" whatever the upstream says; then a missing YouTube key gives 503; otherwise the reply of the upstream calls with `max_results` clamped to [1, 25] |
| Handlers.TopShortsHardened | api/youtube/top_shorts_hardened.js:29-36 | the rate limit runs first and records the request even when the key is wrong; the reply is 429 exactly when the request is refused, any other gets the reply above |
| Handlers.RedditRequests | api/reddit/search.js:79-90 | one fetch per parsed subreddit, in order, each with the normalised sort and the clamped `limit`, which lies in [1, 50] |
| Handlers.SettleAll | api/reddit/search.js:90 | one settled outcome per subreddit reply, in order |
| Handlers.RedditSearchReply | api/reddit/search.js:73-119 | the status is 200, 401 or 502; a wrong key gives 401; a token failure gives 502 "Reddit upstream error" with its message; a fulfilled listing whose `children` is not an array makes the merge throw, giving 502 with that error's message; otherwise 200 carrying the merge of the parsed subreddits with their settled fetches, with one error item per rejected subreddit |
| Handlers.RedditSearch | api/reddit/search.js:69-76 | the rate limit runs first and records the request even when the key is wrong; the reply is 429 exactly when the request is refused |
| Handlers.RisingReply | api/trends/rising.js:47-72 | the status is 200, 400, 401 or 503; a wrong key gives 401; a missing or too long keyword gives 400 with its message; an upstream failure gives 503 with the failure's message; otherwise 200 carrying the trimmed keyword, the normalised rising list and the source "google-trends-api" |
| Handlers.KeywordMessage | api/trends/rising.js:54-56 | the 400 messages: "Missing `keyword`" and "`keyword` too long (max 64 chars)" |
| Handlers.Rising | api/trends/rising.js:43-50 | the rate limit runs first and records the request even when the key is wrong; the reply is 429 exactly when the request is refused |

## Left out

- Network calls (`fetch`, `axios`), the OAuth token exchange (`getToken`), the dynamic import of the trends library and `JSON.parse` of upstream bodies are not modelled. Their outcomes are parameters: a network error or a status, a body and a parse outcome, or the token and the rising list.
- The concurrency of `Promise.allSettled` is not modelled. Only the merge over the settled outcomes, in subreddit order, is.
- Response headers (`Cache-Control`) and the JSON framing of replies are not modelled. A reply is its status and payload.
- The `catch` that ignores limiter failures is not modelled. `Admit` has no precondition and cannot fail.
- `api/_lib/guard.js`, `api/version.js` and `api/health.js` are not part of this model.
- The older handler's framing is not modelled: `guard`, the 405 method check, the un-trimmed `q` check and the 500 reply. Only its duration check and its item mapping and filter are.
- JavaScript `Number` coercion is not modelled beyond integers: NaN or fractional counts and `max_results`, and digit strings above 2^53.
- `Params.MaxResults`, `Params.RedditLimit`: the parameter is an integer, absent, or not a number; a fractional value is not represented.
- Text.ToLowerAscii: lower-cases ASCII letters only, while `toLowerCase` also maps other scripts.
- Upstream.Excerpt: counts code points, while `slice(0, 200)` counts UTF-16 code units, so a body with characters outside the Basic Multilingual Plane may keep fewer characters in the source.
- Text.Prefix: counts code points, while `slice(0, n)` counts UTF-16 code units; `Upstream.Excerpt` inherits this.
- Reddit.FetchSub: a network failure's reason is taken as given, without modelling the error name `String()` puts in front of it.
- Reddit.PostOf: the reddit child fields other than `permalink` and `is_video` are opaque JSON values, copied as they are; a non-string permalink is not represented.
- Handlers.RedditSearchReply: the text of the `TypeError` that `children.map` throws on a listing that is not an array depends on the JavaScript engine, so it is the parameter `mapError`.
- Trends.NormalizeRising: a null entry in the rising list is not represented; every entry is an object with an optional string link. A truthy link that is not a string makes `startsWith` throw (api/trends/rising.js:27) inside the handler's `try`; the model represents that throw as the upstream `Failure` given to `Handlers.RisingReply`, which answers 503.
- Shorts.HardenedItem: `RawVideo.id` is always a string, so a record without `id`, which the source maps to `videoId: undefined` and a URL ending in `watch?v=undefined`, is not represented.
- Shorts.LegacyItem: `RawVideo.id` is always a string, so a record without `id`, which the source maps to `videoId: undefined` and a URL ending in `watch?v=undefined`, is not represented.
