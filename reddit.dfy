/** The subreddit search: parsing of the request parameters, the mapping of
    one subreddit fetch to a settled outcome, and the merge of all settled
    outcomes into one item list. */
module Reddit {
  import opened Wrappers
  import opened Text
  import opened Upstream

  /** At most this many subreddits are queried per request. */
  const MaxSubreddits: nat := 10

  /** `String(param ?? 'all').split(',').map(s => s.trim()).filter(Boolean).slice(0, 10)`. */
  function ParseSubreddits(param: Option<string>): (subs: seq<string>)
    ensures |subs| <= MaxSubreddits
    ensures forall i :: 0 <= i < |subs| ==> subs[i] != "" && Trimmed(subs[i]) && ',' !in subs[i]
    ensures param.None? ==> subs == ["all"]
  {
    var pieces := Split(param.GetOr("all"), ',');
    assert forall p :: p in pieces ==> ',' !in p;
    var names := NonEmptyTrimmed(pieces);
    var subs := FirstTen(names);
    assert param.None? ==> subs == ["all"] by {
      if param.None? {
        DefaultSubreddit();
      }
    }
    assert forall i :: 0 <= i < |subs| ==> subs[i] in names;
    subs
  }

  /** `.slice(0, 10)`. */
  function FirstTen(names: seq<string>): (r: seq<string>)
    ensures |r| <= MaxSubreddits && r <= names
    ensures |names| <= MaxSubreddits ==> r == names
    ensures |r| == if |names| <= MaxSubreddits then |names| else MaxSubreddits
    ensures forall i :: 0 <= i < |r| ==> r[i] == names[i]
  {
    if |names| <= MaxSubreddits then names else names[..MaxSubreddits]
  }

  lemma DefaultSubreddit()
    ensures NonEmptyTrimmed(Split("all", ',')) == ["all"]
  {
    SplitWithoutSeparator("all", ',');
    assert "all"[0] == 'a' && "all"[2] == 'l';
    TrimTrimmed("all");
  }

  /** `.map(s => s.trim()).filter(Boolean)`. */
  function NonEmptyTrimmed(pieces: seq<string>): (names: seq<string>)
    ensures |names| <= |pieces|
    ensures forall name :: name in names ==> name != "" && Trimmed(name)
    ensures (forall p :: p in pieces ==> ',' !in p) ==> forall name :: name in names ==> ',' !in name
  {
    if pieces == [] then []
    else
      var t := Trim(pieces[0]);
      var rest := NonEmptyTrimmed(pieces[1..]);
      TrimKeepsCharOut(pieces[0], ',');
      assert pieces[0] in pieces;
      assert forall p :: p in pieces[1..] ==> p in pieces;
      (if t != "" then [t] else []) + rest
  }

  lemma TrimKeepsCharOut(s: string, c: char)
    ensures c in Trim(s) ==> c in s
  {
    TrimRemovesOnlyWhitespace(s);
  }

  lemma NonEmptyTrimmedCons(p: string, rest: seq<string>)
    ensures NonEmptyTrimmed([p] + rest) ==
      (if Trim(p) != "" then [Trim(p)] else []) + NonEmptyTrimmed(rest)
  {
    assert ([p] + rest)[0] == p && ([p] + rest)[1..] == rest;
  }

  lemma {:induction false} NonEmptyTrimmedKeepsNames(names: seq<string>)
    requires forall i :: 0 <= i < |names| ==> names[i] != "" && Trimmed(names[i])
    ensures NonEmptyTrimmed(names) == names
  {
    if names != [] {
      var rest := names[1..];
      assert [names[0]] + rest == names;
      TrimTrimmed(names[0]);
      NonEmptyTrimmedKeepsNames(rest);
      NonEmptyTrimmedCons(names[0], rest);
    }
  }

  lemma EmptyPieceDropped()
    ensures NonEmptyTrimmed([""]) == []
  {
    TrimTrimmed("");
    NonEmptyTrimmedCons("", []);
    assert [""] + [] == [""];
  }

  lemma ParsePresent(text: string)
    ensures ParseSubreddits(Some(text)) == FirstTen(NonEmptyTrimmed(Split(text, ',')))
  {
  }

  /** Joining clean names with commas and parsing the result gives back the
      names, cut to the first ten. */
  lemma SubredditsRoundTrip(names: seq<string>)
    requires names != []
    requires forall i :: 0 <= i < |names| ==> names[i] != "" && Trimmed(names[i]) && ',' !in names[i]
    ensures ParseSubreddits(Some(Join(names, ','))) == FirstTen(names)
  {
    CleanNamesSurviveSplit(names);
  }

  /** An empty `subs` parameter (what joining no names gives) names no
      subreddit: the default "all" applies only when the parameter is
      absent. */
  lemma EmptyParameterNoSubreddits()
    ensures ParseSubreddits(Some("")) == []
  {
    ParsePresent("");
    EmptyPieceDropped();
  }

  /** Splitting comma-joined clean names and dropping blank pieces gives
      the names back. */
  lemma CleanNamesSurviveSplit(names: seq<string>)
    requires names != []
    requires forall i :: 0 <= i < |names| ==> names[i] != "" && Trimmed(names[i]) && ',' !in names[i]
    ensures NonEmptyTrimmed(Split(Join(names, ','), ',')) == names
  {
    SplitJoin(names, ',');
    NonEmptyTrimmedKeepsNames(names);
  }

  /** `String(param ?? 'hot').toLowerCase()`. */
  function SortMode(param: Option<string>): (sort: string)
    ensures sort == ToLowerAscii(param.GetOr("hot"))
    ensures param.None? ==> sort == "hot"
    ensures |sort| == |param.GetOr("hot")|
    ensures forall i :: 0 <= i < |sort| ==> !('A' <= sort[i] <= 'Z')
    ensures param.Some? ==> forall i :: 0 <= i < |sort| && !('A' <= param.value[i] <= 'Z') ==> sort[i] == param.value[i]
  {
    ToLowerAscii(param.GetOr("hot"))
  }

  /** A JSON value as far as JavaScript truthiness (`!!v`) is concerned. */
  datatype JsValue = Null | Bool(b: bool) | Num(n: int) | Str(s: string) | Compound

  /** `!!v`, with `None` for `undefined`: false exactly on JavaScript's
      falsy values. */
  function Truthy(v: Option<JsValue>): (r: bool)
    ensures !r <==> v == None || v == Some(Null) || v == Some(Bool(false)) || v == Some(Num(0)) || v == Some(Str(""))
  {
    match v
    case None => false
    case Some(Null) => false
    case Some(Bool(b)) => b
    case Some(Num(n)) => n != 0
    case Some(Str(s)) => s != ""
    case Some(Compound) => true
  }

  /** `c?.data` of one listing child; `None` is a missing field. */
  datatype Child = Child(
    id: Option<JsValue>,
    title: Option<JsValue>,
    permalink: Option<string>,
    score: Option<JsValue>,
    numComments: Option<JsValue>,
    createdUtc: Option<JsValue>,
    thumbnail: Option<JsValue>,
    isVideo: Option<JsValue>)

  /** `p.value?.data?.children`: missing or null, an array of children,
      or any other JSON value, which has no `map` to call. */
  datatype Listing = NoChildren | Children(children: seq<Child>) | NotAnArray
  {
    /** `children ?? []` where that can be mapped; a listing that is not an
        array stops the whole merge before any of its items exist. */
    function Entries(): (entries: seq<Child>)
      ensures this.Children? ==> entries == children
      ensures !this.Children? ==> entries == []
    {
      if this.Children? then children else []
    }
  }

  /** Whether the merge can map this outcome: `children.map` throws a
      `TypeError` when a fulfilled listing's `children` is not an array. */
  predicate Mappable(o: Settled) {
    !(o.Fulfilled? && o.listing.NotAnArray?)
  }

  /** One entry of `Promise.allSettled`: the parsed listing, or the
      rejection reason as `String(reason)` renders it. */
  datatype Settled = Fulfilled(listing: Listing) | Rejected(reason: string)

  /** One merged item: a post of a subreddit, or the error marker of a
      subreddit whose fetch failed. */
  datatype RedditItem =
    | Post(subreddit: string, id: Option<JsValue>, title: Option<JsValue>, url: string,
           score: Option<JsValue>, numComments: Option<JsValue>, createdUtc: Option<JsValue>,
           thumbnail: Option<JsValue>, isVideo: bool)
    | SubError(subreddit: string, detail: string)

  /** `fetchSub` once its `fetch` has settled: a non-2xx status or a body
      that is not JSON rejects with a message that quotes at most the first
      200 characters of the body; `String()` of the thrown `Error` puts
      "Error: " in front. */
  function FetchSub(reply: Fetched<Listing>): (r: Settled)
    ensures r.Fulfilled? <==> reply.Received? && IsOk(reply.status) && reply.json.Success?
    ensures r.Fulfilled? ==> r.listing == reply.json.value
    ensures reply.NetworkError? ==> r == Rejected(reply.message)
    ensures reply.Received? && !IsOk(reply.status) ==>
      var head := "Error: Reddit " + Decimal(reply.status) + ": ";
      && r.Rejected?
      && |r.reason| == |head| + |Excerpt(reply.text)|
      && r.reason[..|head|] == head
    ensures reply.Received? && IsOk(reply.status) && reply.json.Failure? ==>
      var head := "Error: Non-JSON: ";
      && r.Rejected?
      && |r.reason| == |head| + |Excerpt(reply.text)|
      && r.reason[..|head|] == head
    ensures reply.Received? && r.Rejected? ==>
      && |Excerpt(reply.text)| <= |r.reason|
      && r.reason[|r.reason| - |Excerpt(reply.text)|..] == Excerpt(reply.text)
      && |r.reason| <= |Decimal(reply.status)| + 216
  {
    match reply
    case NetworkError(message) => Rejected(message)
    case Received(status, text, json) =>
      if !IsOk(status) then Rejected("Error: Reddit " + Decimal(status) + ": " + Excerpt(text))
      else if json.Failure? then Rejected("Error: Non-JSON: " + Excerpt(text))
      else Fulfilled(json.value)
  }

  /** The item built from one child: the permalink becomes an absolute
      reddit URL and `is_video` a boolean. */
  function PostOf(subreddit: string, c: Child): (item: RedditItem)
    ensures item.Post? && item.subreddit == subreddit
    ensures item.url == "https://www.reddit.com" + c.permalink.GetOr("")
    ensures item.isVideo <==> Truthy(c.isVideo)
    ensures item.id == c.id && item.title == c.title && item.score == c.score
    ensures item.numComments == c.numComments && item.createdUtc == c.createdUtc && item.thumbnail == c.thumbnail
  {
    Post(subreddit, c.id, c.title, "https://www.reddit.com" + c.permalink.GetOr(""),
         c.score, c.numComments, c.createdUtc, c.thumbnail, Truthy(c.isVideo))
  }

  /** How many items one settled outcome contributes. */
  function Count(o: Settled): nat {
    match o
    case Rejected(_) => 1
    case Fulfilled(listing) => |listing.Entries()|
  }

  /** The items of one subreddit: one error marker, or one post per child
      in upstream order. */
  function ItemsOf(subreddit: string, o: Settled): (items: seq<RedditItem>)
    ensures |items| == Count(o)
    ensures o.Rejected? ==> items == [SubError(subreddit, o.reason)]
    ensures o.Fulfilled? ==> forall k :: 0 <= k < |items| ==> items[k] == PostOf(subreddit, o.listing.Entries()[k])
    ensures forall k :: 0 <= k < |items| ==> items[k].subreddit == subreddit
  {
    match o
    case Rejected(reason) => [SubError(subreddit, reason)]
    case Fulfilled(listing) =>
      var children := listing.Entries();
      seq(|children|, k requires 0 <= k < |children| => PostOf(subreddit, children[k]))
  }

  function TotalCount(outcomes: seq<Settled>): nat {
    if outcomes == [] then 0 else Count(outcomes[0]) + TotalCount(outcomes[1..])
  }

  /** `results.flatMap((p, i) => ...)`: every subreddit's items, in
      subreddit order. */
  function Merge(subs: seq<string>, outcomes: seq<Settled>): (items: seq<RedditItem>)
    requires |subs| == |outcomes|
    ensures |items| == TotalCount(outcomes)
  {
    if subs == [] then []
    else ItemsOf(subs[0], outcomes[0]) + Merge(subs[1..], outcomes[1..])
  }

  lemma {:induction false} TotalCountAppend(a: seq<Settled>, b: seq<Settled>)
    ensures TotalCount(a + b) == TotalCount(a) + TotalCount(b)
  {
    if a == [] {
      assert a + b == b;
    } else {
      assert (a + b)[1..] == a[1..] + b;
      TotalCountAppend(a[1..], b);
    }
  }

  lemma {:induction false} MergeAppend(s1: seq<string>, o1: seq<Settled>, s2: seq<string>, o2: seq<Settled>)
    requires |s1| == |o1| && |s2| == |o2|
    ensures Merge(s1 + s2, o1 + o2) == Merge(s1, o1) + Merge(s2, o2)
  {
    if s1 == [] {
      assert s1 + s2 == s2 && o1 + o2 == o2;
    } else {
      assert (s1 + s2)[1..] == s1[1..] + s2 && (o1 + o2)[1..] == o1[1..] + o2;
      MergeAppend(s1[1..], o1[1..], s2, o2);
    }
  }

  /** The merged list is the subreddits' groups one after the other: the
      k-th item of subreddit i sits right after the items of subreddits
      0..i-1, and it is that subreddit's k-th item (tagged with its name). */
  lemma MergeAt(subs: seq<string>, outcomes: seq<Settled>, i: nat, k: nat)
    requires |subs| == |outcomes| && i < |subs| && k < Count(outcomes[i])
    ensures TotalCount(outcomes[..i]) + k < |Merge(subs, outcomes)|
    ensures Merge(subs, outcomes)[TotalCount(outcomes[..i]) + k] == ItemsOf(subs[i], outcomes[i])[k]
    ensures Merge(subs, outcomes)[TotalCount(outcomes[..i]) + k].subreddit == subs[i]
  {
    MergePosition(subs, outcomes, i, k);
  }

  /** The position part of `MergeAt`, by induction on the subreddit. */
  lemma {:induction false} MergePosition(subs: seq<string>, outcomes: seq<Settled>, i: nat, k: nat)
    requires |subs| == |outcomes| && i < |subs| && k < Count(outcomes[i])
    ensures TotalCount(outcomes[..i]) + k < |Merge(subs, outcomes)|
    ensures Merge(subs, outcomes)[TotalCount(outcomes[..i]) + k] == ItemsOf(subs[i], outcomes[i])[k]
  {
    if i == 0 {
      assert outcomes[..i] == [];
      MergeHead(subs, outcomes, k);
    } else {
      var j := TotalCount(outcomes[1..][..i - 1]) + k;
      assert subs[1..][i - 1] == subs[i] && outcomes[1..][i - 1] == outcomes[i];
      MergePosition(subs[1..], outcomes[1..], i - 1, k);
      TotalCountPrefix(outcomes, i);
      assert TotalCount(outcomes[..i]) + k == Count(outcomes[0]) + j;
      MergeTail(subs, outcomes, j);
    }
  }

  lemma MergeHead(subs: seq<string>, outcomes: seq<Settled>, k: nat)
    requires |subs| == |outcomes| && 0 < |subs| && k < Count(outcomes[0])
    ensures k < |Merge(subs, outcomes)|
    ensures Merge(subs, outcomes)[k] == ItemsOf(subs[0], outcomes[0])[k]
  {
    var head := ItemsOf(subs[0], outcomes[0]);
    assert Merge(subs, outcomes) == head + Merge(subs[1..], outcomes[1..]);
  }

  lemma MergeTail(subs: seq<string>, outcomes: seq<Settled>, j: nat)
    requires |subs| == |outcomes| && 0 < |subs| && j < TotalCount(outcomes[1..])
    ensures Count(outcomes[0]) + j < |Merge(subs, outcomes)|
    ensures Merge(subs, outcomes)[Count(outcomes[0]) + j] == Merge(subs[1..], outcomes[1..])[j]
  {
    var head := ItemsOf(subs[0], outcomes[0]);
    var tail := Merge(subs[1..], outcomes[1..]);
    assert Merge(subs, outcomes) == head + tail;
    assert (head + tail)[|head| + j] == tail[j];
  }

  lemma TotalCountPrefix(outcomes: seq<Settled>, i: nat)
    requires 0 < i <= |outcomes|
    ensures TotalCount(outcomes[..i]) == Count(outcomes[0]) + TotalCount(outcomes[1..][..i - 1])
  {
    assert outcomes[..i][1..] == outcomes[1..][..i - 1];
  }

  function RejectedCount(outcomes: seq<Settled>): nat {
    if outcomes == [] then 0 else (if outcomes[0].Rejected? then 1 else 0) + RejectedCount(outcomes[1..])
  }

  function ErrorCount(items: seq<RedditItem>): nat {
    if items == [] then 0 else (if items[0].SubError? then 1 else 0) + ErrorCount(items[1..])
  }

  lemma {:induction false} ErrorCountAppend(a: seq<RedditItem>, b: seq<RedditItem>)
    ensures ErrorCount(a + b) == ErrorCount(a) + ErrorCount(b)
  {
    if a == [] {
      assert a + b == b;
    } else {
      assert (a + b)[1..] == a[1..] + b;
      ErrorCountAppend(a[1..], b);
    }
  }

  lemma {:induction false} PostsAreNotErrors(items: seq<RedditItem>)
    requires forall k :: 0 <= k < |items| ==> items[k].Post?
    ensures ErrorCount(items) == 0
  {
    if items != [] {
      PostsAreNotErrors(items[1..]);
    }
  }

  /** Every requested subreddit is accounted for exactly once: the merged
      list holds one error marker per rejected subreddit and no other, so
      the subreddits split into those with an error marker and those whose
      (possibly empty) group of posts arrived. */
  lemma {:induction false} EveryTargetAccountedFor(subs: seq<string>, outcomes: seq<Settled>)
    requires |subs| == |outcomes|
    ensures ErrorCount(Merge(subs, outcomes)) == RejectedCount(outcomes)
    ensures RejectedCount(outcomes) <= |subs|
  {
    if subs != [] {
      EveryTargetAccountedFor(subs[1..], outcomes[1..]);
      var group := ItemsOf(subs[0], outcomes[0]);
      ErrorCountAppend(group, Merge(subs[1..], outcomes[1..]));
      if outcomes[0].Fulfilled? {
        PostsAreNotErrors(group);
      } else {
        assert ErrorCount(group) == 1 + ErrorCount(group[1..]) && group[1..] == [];
      }
    }
  }
}
