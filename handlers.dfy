/** The three request handlers that share the rate limiter: the order of
    their checks (rate limit, API key, input validation, upstream calls)
    and the reply each one sends. Upstream replies are parameters; each
    handler method runs the admission check on the shared limiter first. */
module Handlers {
  import opened Wrappers
  import opened Text
  import opened Params
  import opened Upstream
  import opened RateLimit
  import opened Duration
  import opened Shorts
  import opened Reddit
  import opened Trends

  /** The replies a handler sends, with their HTTP status. */
  datatype Reply<T> =
    | TooManyRequests
    | Unauthorized
    | BadRequest(error: string)
    | Unavailable(error: string, detail: string)
    | BadGateway(error: string, detail: string)
    | Ok(data: T)
  {
    function Status(): (status: int)
      ensures status == 200 <==> this.Ok?
      ensures !this.Ok? ==> 400 <= status <= 599
      ensures status == 429 <==> this.TooManyRequests?
      ensures this.Unauthorized? ==> status == 401
      ensures this.BadRequest? ==> status == 400
      ensures this.Unavailable? ==> status == 503
      ensures this.BadGateway? ==> status == 502
    {
      match this
      case TooManyRequests => 429
      case Unauthorized => 401
      case BadRequest(_) => 400
      case Unavailable(_, _) => 503
      case BadGateway(_, _) => 502
      case Ok(_) => 200
    }
  }

  /** `req.headers['x-api-key'] !== process.env.PRIVATE_API_KEY` fails the
      request; `None` is `undefined` on either side. */
  function Authorized(apiKeyHeader: Option<string>, privateKey: Option<string>): (ok: bool)
    ensures privateKey.Some? ==> (ok <==> apiKeyHeader.Some? && apiKeyHeader.value == privateKey.value)
    ensures privateKey.None? ==> (ok <==> apiKeyHeader.None?)
  {
    apiKeyHeader == privateKey
  }

  /** The comparison is strict equality, so when the secret is not
      configured a request without the header passes. */
  lemma UnsetSecretAdmitsHeaderless()
    ensures Authorized(None, None)
    ensures forall h :: !Authorized(Some(h), None)
  {
  }

  /** `env || ''`, read for truthiness. */
  function Configured(value: Option<string>): (ok: bool)
    ensures value.None? ==> !ok
    ensures value == Some("") ==> !ok
    ensures value.Some? && value.value != "" ==> ok
  {
    value.Some? && value.value != ""
  }

  // ---- /api/youtube/top_shorts_hardened ----

  /** `(search.items || []).map(it => it.id?.videoId).filter(Boolean)`. */
  function VideoIds(found: seq<Option<string>>): (ids: seq<string>)
    ensures |ids| <= |found|
    ensures forall i :: 0 <= i < |ids| ==> ids[i] != ""
    ensures forall id :: id in ids <==> Some(id) in found && id != ""
  {
    if found == [] then []
    else
      assert found == [found[0]] + found[1..];
      (if found[0].Some? && found[0].value != "" then [found[0].value] else []) + VideoIds(found[1..])
  }

  /** The message of the error thrown for a non-2xx upstream reply. */
  function StatusMessage(call: string, status: nat, text: string): (msg: string)
    ensures |call| + 1 <= |msg| && msg[..|call| + 1] == call + " "
    ensures |Excerpt(text)| <= |msg| && msg[|msg| - |Excerpt(text)|..] == Excerpt(text)
    ensures |msg| <= |call| + |Decimal(status)| + 3 + ExcerptLength
    ensures |msg| == |call| + |Decimal(status)| + 3 + |Excerpt(text)|
    ensures msg[..|call| + |Decimal(status)| + 3] == call + " " + Decimal(status) + ": "
  {
    call + " " + Decimal(status) + ": " + Excerpt(text)
  }

  /** What one upstream call makes of its reply inside the handler's
      `try`: the parsed value, or the message of the error thrown. */
  function Settle<T>(call: string, reply: Fetched<T>): (r: Result<T, string>)
    ensures r.Success? <==> reply.Received? && IsOk(reply.status) && reply.json.Success?
  {
    match reply
    case NetworkError(message) => Failure(message)
    case Received(status, text, json) =>
      if !IsOk(status) then Failure(StatusMessage(call, status, text))
      else json
  }

  const ShortsUpstreamError: string := "YouTube upstream error"

  /** The `try` block of the hardened handler: the search call, the ids it
      found, the videos call and the pipeline; a thrown error becomes a
      502 carrying its message. */
  function ShortsFromUpstream(
    maxResults: nat, search: Fetched<seq<Option<string>>>, videos: Fetched<seq<RawVideo>>): (r: Reply<seq<VideoItem>>)
    ensures r.Ok? || r.BadGateway?
    ensures r.BadGateway? ==> r.error == ShortsUpstreamError
    ensures r.Ok? ==> |r.data| <= maxResults
    ensures r.Ok? ==> NonIncreasing(r.data) && forall i :: 0 <= i < |r.data| ==> r.data[i].isShort
    ensures r.Ok? && r.data != [] ==> search.Received? && videos.Received?
    ensures search.NetworkError? ==> r == BadGateway(ShortsUpstreamError, search.message)
    ensures search.Received? && !IsOk(search.status) ==>
      r == BadGateway(ShortsUpstreamError, StatusMessage("YouTube search", search.status, search.text))
    ensures search.Received? && IsOk(search.status) && search.json.Failure? ==>
      r == BadGateway(ShortsUpstreamError, search.json.error)
    ensures Settle("YouTube search", search).Success? && VideoIds(search.json.value) == [] ==> r == Ok([])
    ensures Settle("YouTube search", search).Success? && VideoIds(search.json.value) != [] ==>
      && (videos.NetworkError? ==> r == BadGateway(ShortsUpstreamError, videos.message))
      && (videos.Received? && !IsOk(videos.status) ==>
            r == BadGateway(ShortsUpstreamError, StatusMessage("YouTube videos", videos.status, videos.text)))
      && (videos.Received? && IsOk(videos.status) && videos.json.Failure? ==>
            r == BadGateway(ShortsUpstreamError, videos.json.error))
      && (videos.Received? && IsOk(videos.status) && videos.json.Success? ==>
            r == Ok(TopShorts(videos.json.value, maxResults)))
  {
    match Settle("YouTube search", search)
    case Failure(message) => BadGateway(ShortsUpstreamError, message)
    case Success(found) =>
      var ids := VideoIds(found);
      if ids == [] then Ok([])
      else
        match Settle("YouTube videos", videos)
        case Failure(message) => BadGateway(ShortsUpstreamError, message)
        case Success(listing) => Ok(TopShorts(listing, maxResults))
  }

  const KeyMissingDetail: string :=
    "Set YOUTUBE_API_KEY in Vercel to use /api/youtube/top_shorts_hardened. Until then, keep using /api/youtube/top_shorts."

  /** The hardened handler after the rate limit: API key, `q`,
      `max_results`, configuration, then the upstream calls. */
  function TopShortsHardenedReply(
    authorized: bool, q: Option<string>, maxArg: NumArg, youtubeKey: Option<string>,
    search: Fetched<seq<Option<string>>>, videos: Fetched<seq<RawVideo>>): (r: Reply<seq<VideoItem>>)
    ensures r.Status() in {200, 400, 401, 502, 503}
    ensures !authorized ==> r == Unauthorized
    ensures authorized && TrimmedParam(q) == "" ==> r == BadRequest("Missing `q`")
    ensures authorized && TrimmedParam(q) != "" && !Configured(youtubeKey) ==>
      r == Unavailable("YOUTUBE_API_KEY not set", KeyMissingDetail)
    ensures authorized && TrimmedParam(q) != "" && Configured(youtubeKey) ==>
      r == ShortsFromUpstream(MaxResults(maxArg), search, videos)
    ensures authorized && TrimmedParam(q) != "" && Configured(youtubeKey) ==> r.Ok? || r.BadGateway?
    ensures r.Ok? ==> |r.data| <= MaxResults(maxArg)
    ensures r.Ok? ==> NonIncreasing(r.data) && forall i :: 0 <= i < |r.data| ==> r.data[i].isShort
    ensures r.Ok? && r.data != [] ==> search.Received? && videos.Received?
  {
    if !authorized then Unauthorized
    else if TrimmedParam(q) == "" then BadRequest("Missing `q`")
    else if !Configured(youtubeKey) then Unavailable("YOUTUBE_API_KEY not set", KeyMissingDetail)
    else ShortsFromUpstream(MaxResults(maxArg), search, videos)
  }

  /** A search that finds no video id ends the request with no items,
      whatever the videos call would have returned. */
  lemma NoIdsNoItems(maxResults: nat, found: seq<Option<string>>, text: string, videos: Fetched<seq<RawVideo>>)
    requires forall i :: 0 <= i < |found| ==> found[i] == None || found[i] == Some("")
    ensures ShortsFromUpstream(maxResults, Received(200, text, Success(found)), videos) == Ok([])
  {
    NoUsableIds(found);
  }

  /** Entries without an id, or with an empty one, contribute no id. */
  lemma {:induction false} NoUsableIds(found: seq<Option<string>>)
    requires forall i :: 0 <= i < |found| ==> found[i] == None || found[i] == Some("")
    ensures VideoIds(found) == []
  {
    if found != [] {
      NoUsableIds(found[1..]);
    }
  }

  /** `handler` of the hardened search: the admission check runs first and
      counts the request whatever happens next, including when the API key
      is wrong. */
  method TopShortsHardened(
    limiter: RateLimiter, forwardedFor: Option<string>, now: int,
    apiKeyHeader: Option<string>, privateKey: Option<string>,
    q: Option<string>, maxArg: NumArg, youtubeKey: Option<string>,
    search: Fetched<seq<Option<string>>>, videos: Fetched<seq<RawVideo>>) returns (r: Reply<seq<VideoItem>>)
    modifies limiter
    ensures limiter.windows == Admitted(old(limiter.windows), ClientKey(forwardedFor), now)
    ensures r.Status() == 429 <==> Denied(old(limiter.windows), ClientKey(forwardedFor), now)
    ensures r == if Denied(old(limiter.windows), ClientKey(forwardedFor), now) then TooManyRequests
      else TopShortsHardenedReply(Authorized(apiKeyHeader, privateKey), q, maxArg, youtubeKey, search, videos)
  {
    var limited := limiter.Check(forwardedFor, now);
    if limited {
      return TooManyRequests;
    }
    r := TopShortsHardenedReply(Authorized(apiKeyHeader, privateKey), q, maxArg, youtubeKey, search, videos);
  }

  // ---- /api/reddit/search ----

  /** One subreddit fetch the handler issues. */
  datatype SubRequest = SubRequest(subreddit: string, sort: string, limit: int)

  /** The fetches issued, one per parsed subreddit, in order. */
  function RedditRequests(subsParam: Option<string>, sortParam: Option<string>, limitArg: NumArg): (reqs: seq<SubRequest>)
    ensures |reqs| == |ParseSubreddits(subsParam)| <= MaxSubreddits
    ensures forall i :: 0 <= i < |reqs| ==>
      && reqs[i].subreddit == ParseSubreddits(subsParam)[i]
      && reqs[i].sort == SortMode(sortParam)
      && reqs[i].limit == RedditLimit(limitArg) && 1 <= reqs[i].limit <= 50
  {
    var subs := ParseSubreddits(subsParam);
    var sort := SortMode(sortParam);
    var limit := RedditLimit(limitArg);
    seq(|subs|, i requires 0 <= i < |subs| => SubRequest(subs[i], sort, limit))
  }

  /** The settled outcome of each fetch, in subreddit order. */
  function SettleAll(replies: seq<Fetched<Listing>>): (outcomes: seq<Settled>)
    ensures |outcomes| == |replies|
    ensures forall i :: 0 <= i < |replies| ==> outcomes[i] == FetchSub(replies[i])
  {
    seq(|replies|, i requires 0 <= i < |replies| => FetchSub(replies[i]))
  }

  const RedditUpstreamError: string := "Reddit upstream error"

  /** The subreddit search after the rate limit: API key, inputs, the
      OAuth token (its failure fails the whole request), then one fetch
      per subreddit, merged whatever each fetch did. A fulfilled listing
      whose `children` is not an array makes the merge throw, and the
      whole request fails with the `TypeError`'s message, `mapError`. */
  function RedditSearchReply(
    authorized: bool, subsParam: Option<string>, token: Result<string, string>,
    replies: seq<Fetched<Listing>>, mapError: string): (r: Reply<seq<RedditItem>>)
    requires |replies| == |ParseSubreddits(subsParam)|
    ensures r.Status() in {200, 401, 502}
    ensures !authorized ==> r == Unauthorized
    ensures authorized && token.Failure? ==> r == BadGateway(RedditUpstreamError, token.error)
    ensures authorized && token.Success? && (exists i :: 0 <= i < |replies| && !Mappable(FetchSub(replies[i]))) ==>
      r == BadGateway(RedditUpstreamError, mapError)
    ensures authorized && token.Success? && (forall i :: 0 <= i < |replies| ==> Mappable(FetchSub(replies[i]))) ==>
      r == Ok(Merge(ParseSubreddits(subsParam), SettleAll(replies)))
    ensures r.Ok? ==> |r.data| == TotalCount(SettleAll(replies))
    ensures r.Ok? ==> ErrorCount(r.data) == RejectedCount(SettleAll(replies))
  {
    var subs := ParseSubreddits(subsParam);
    if !authorized then Unauthorized
    else if token.Failure? then BadGateway(RedditUpstreamError, token.error)
    else
      var outcomes := SettleAll(replies);
      if exists i :: 0 <= i < |outcomes| && !Mappable(outcomes[i]) then BadGateway(RedditUpstreamError, mapError)
      else
        EveryTargetAccountedFor(subs, outcomes);
        Ok(Merge(subs, outcomes))
  }

  /** `handler` of the subreddit search. */
  method RedditSearch(
    limiter: RateLimiter, forwardedFor: Option<string>, now: int,
    apiKeyHeader: Option<string>, privateKey: Option<string>,
    subsParam: Option<string>, token: Result<string, string>,
    replies: seq<Fetched<Listing>>, mapError: string) returns (r: Reply<seq<RedditItem>>)
    requires |replies| == |ParseSubreddits(subsParam)|
    modifies limiter
    ensures limiter.windows == Admitted(old(limiter.windows), ClientKey(forwardedFor), now)
    ensures r.Status() == 429 <==> Denied(old(limiter.windows), ClientKey(forwardedFor), now)
    ensures r == if Denied(old(limiter.windows), ClientKey(forwardedFor), now) then TooManyRequests
      else RedditSearchReply(Authorized(apiKeyHeader, privateKey), subsParam, token, replies, mapError)
  {
    var limited := limiter.Check(forwardedFor, now);
    if limited {
      return TooManyRequests;
    }
    r := RedditSearchReply(Authorized(apiKeyHeader, privateKey), subsParam, token, replies, mapError);
  }

  // ---- /api/trends/rising ----

  datatype RisingData<F> = RisingData(keyword: string, rising: seq<RisingEntry<F>>, source: string)

  const TrendsBlocked: string := "Google Trends appears to be blocking this serverless request."

  function KeywordMessage(e: KeywordError): (msg: string)
    ensures e == MissingKeyword ==> msg == "Missing `keyword`"
    ensures e == KeywordTooLong ==> msg == "`keyword` too long (max 64 chars)"
  {
    match e
    case MissingKeyword => "Missing `keyword`"
    case KeywordTooLong => "`keyword` too long (max 64 chars)"
  }

  /** The rising-queries handler after the rate limit: API key, keyword,
      then the trends library call (its rising list, or the message of
      whatever it threw). */
  function RisingReply<F>(
    authorized: bool, keywordParam: Option<string>,
    upstream: Result<Option<seq<RisingEntry<F>>>, string>): (r: Reply<RisingData<F>>)
    ensures r.Status() in {200, 400, 401, 503}
    ensures !authorized ==> r == Unauthorized
    ensures authorized && ValidateKeyword(keywordParam).Failure? ==>
      r == BadRequest(KeywordMessage(ValidateKeyword(keywordParam).error))
    ensures r.Ok? ==> r.data.keyword == TrimmedParam(keywordParam) && |r.data.keyword| <= MaxKeywordLength
    ensures r.Ok? ==> upstream.Success? && |r.data.rising| == |upstream.value.GetOr([])|
    ensures authorized && ValidateKeyword(keywordParam).Success? && upstream.Failure? ==>
      r == Unavailable(TrendsBlocked, upstream.error)
    ensures authorized && ValidateKeyword(keywordParam).Success? && upstream.Success? ==>
      r == Ok(RisingData(TrimmedParam(keywordParam), NormalizeRising(upstream.value), "google-trends-api"))
  {
    if !authorized then Unauthorized
    else
      match ValidateKeyword(keywordParam)
      case Failure(e) => BadRequest(KeywordMessage(e))
      case Success(keyword) =>
        match upstream
        case Failure(message) => Unavailable(TrendsBlocked, message)
        case Success(rising) => Ok(RisingData(keyword, NormalizeRising(rising), "google-trends-api"))
  }

  /** `handler` of the rising queries. */
  method Rising<F>(
    limiter: RateLimiter, forwardedFor: Option<string>, now: int,
    apiKeyHeader: Option<string>, privateKey: Option<string>,
    keywordParam: Option<string>, upstream: Result<Option<seq<RisingEntry<F>>>, string>)
    returns (r: Reply<RisingData<F>>)
    modifies limiter
    ensures limiter.windows == Admitted(old(limiter.windows), ClientKey(forwardedFor), now)
    ensures r.Status() == 429 <==> Denied(old(limiter.windows), ClientKey(forwardedFor), now)
    ensures r == if Denied(old(limiter.windows), ClientKey(forwardedFor), now) then TooManyRequests
      else RisingReply(Authorized(apiKeyHeader, privateKey), keywordParam, upstream)
  {
    var limited := limiter.Check(forwardedFor, now);
    if limited {
      return TooManyRequests;
    }
    r := RisingReply(Authorized(apiKeyHeader, privateKey), keywordParam, upstream);
  }
}
