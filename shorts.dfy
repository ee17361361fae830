/** The YouTube result pipelines: each `videos` entry becomes an item with
    every field defaulted, non-Shorts are dropped and, in the hardened
    handler, the rest are ordered by views (a stable sort) and truncated. */
module Shorts {
  import opened Wrappers
  import opened Duration

  /** One entry of the `videos` listing, as far as the handlers read it;
      `None` is a missing field. */
  datatype RawVideo = RawVideo(
    id: string,
    title: Option<string>,
    channelTitle: Option<string>,
    publishedAt: Option<string>,
    duration: Option<string>,
    viewCount: Option<int>,
    likeCount: Option<int>)

  /** One returned item. */
  datatype VideoItem = VideoItem(
    videoId: string,
    title: string,
    channelTitle: string,
    url: string,
    viewCount: int,
    likeCount: int,
    duration: string,
    publishedAt: Option<string>,
    isShort: bool)

  /** `x || d` on an optional string: missing and "" both give `d`. */
  function OrDefault(x: Option<string>, d: string): (r: string)
    ensures x.Some? && x.value != "" ==> r == x.value
    ensures x.None? || x.value == "" ==> r == d
  {
    if x.Some? && x.value != "" then x.value else d
  }

  /** `Number(x || 0)` on an optional count: a missing count is 0, and a
      present one (0 included) is kept. */
  function CountOrZero(x: Option<int>): (r: int)
    ensures x.None? ==> r == 0
    ensures x.Some? ==> r == x.value
  {
    x.GetOr(0)
  }

  const WatchPrefix: string := "https://www.youtube.com/watch?v="

  /** The watch page of a video: the fixed prefix, then the id. */
  function WatchUrl(id: string): (url: string)
    ensures |url| == |WatchPrefix| + |id|
    ensures url[..|WatchPrefix|] == WatchPrefix && url[|WatchPrefix|..] == id
  {
    WatchPrefix + id
  }

  /** The hardened handler's record mapping. */
  function HardenedItem(v: RawVideo): (item: VideoItem)
    ensures item.videoId == v.id && item.url == WatchUrl(v.id)
    ensures item.title == OrDefault(v.title, "") && item.channelTitle == OrDefault(v.channelTitle, "")
    ensures item.viewCount == CountOrZero(v.viewCount) && item.likeCount == CountOrZero(v.likeCount)
    ensures item.duration == OrDefault(v.duration, "PT0S")
    ensures v.duration.None? ==> item.duration == "PT0S" && item.isShort
    ensures item.isShort <==> IsShortHardened(item.duration)
    ensures v.duration.Some? && v.duration.value != "" ==>
      (item.isShort <==> ParseISODurationToSeconds(v.duration.value) <= 60)
    ensures item.publishedAt.Some? ==> item.publishedAt == v.publishedAt && item.publishedAt.value != ""
    ensures v.publishedAt.Some? && v.publishedAt.value != "" ==> item.publishedAt == v.publishedAt
  {
    var durationISO := OrDefault(v.duration, "PT0S");
    ZeroSecondsIsShort();
    VideoItem(
      v.id,
      OrDefault(v.title, ""),
      OrDefault(v.channelTitle, ""),
      WatchUrl(v.id),
      CountOrZero(v.viewCount),
      CountOrZero(v.likeCount),
      durationISO,
      if v.publishedAt.Some? && v.publishedAt.value != "" then v.publishedAt else None,
      IsShortHardened(durationISO))
  }

  lemma ZeroSecondsIsShort()
    ensures IsShortHardened("PT0S")
  {
    ZeroSeconds();
  }

  /** The older handler's record mapping. */
  function LegacyItem(v: RawVideo): (item: VideoItem)
    ensures item.videoId == v.id && item.url == WatchUrl(v.id)
    ensures item.title == OrDefault(v.title, "") && item.channelTitle == OrDefault(v.channelTitle, "")
    ensures item.viewCount == CountOrZero(v.viewCount) && item.likeCount == CountOrZero(v.likeCount)
    ensures item.duration == OrDefault(v.duration, "")
    ensures v.duration.None? ==> item.duration == "" && !item.isShort
    ensures item.isShort <==> IsShortISO8601(item.duration)
    ensures item.publishedAt == Some(OrDefault(v.publishedAt, ""))
  {
    var dur := OrDefault(v.duration, "");
    assert !PTAt("", 0);
    VideoItem(
      v.id,
      OrDefault(v.title, ""),
      OrDefault(v.channelTitle, ""),
      WatchUrl(v.id),
      CountOrZero(v.viewCount),
      CountOrZero(v.likeCount),
      dur,
      Some(OrDefault(v.publishedAt, "")),
      IsShortISO8601(dur))
  }

  function HardenedItems(videos: seq<RawVideo>): (items: seq<VideoItem>)
    ensures |items| == |videos|
    ensures forall i :: 0 <= i < |videos| ==> items[i] == HardenedItem(videos[i])
  {
    seq(|videos|, i requires 0 <= i < |videos| => HardenedItem(videos[i]))
  }

  function LegacyItems(videos: seq<RawVideo>): (items: seq<VideoItem>)
    ensures |items| == |videos|
    ensures forall i :: 0 <= i < |videos| ==> items[i] == LegacyItem(videos[i])
  {
    seq(|videos|, i requires 0 <= i < |videos| => LegacyItem(videos[i]))
  }

  /** `.filter(x => x.isShort)`. */
  function KeepShorts(items: seq<VideoItem>): (r: seq<VideoItem>)
    ensures |r| <= |items|
    ensures forall x :: x in r ==> x in items && x.isShort
    ensures forall i :: 0 <= i < |r| ==> r[i].isShort
    ensures multiset(r) <= multiset(items)
    ensures forall x :: x in items && x.isShort ==> x in r
  {
    if items == [] then []
    else
      assert items == [items[0]] + items[1..];
      (if items[0].isShort then [items[0]] else []) + KeepShorts(items[1..])
  }

  /** Filtering keeps the input order: it distributes over concatenation. */
  lemma {:induction false} KeepShortsAppend(a: seq<VideoItem>, b: seq<VideoItem>)
    ensures KeepShorts(a + b) == KeepShorts(a) + KeepShorts(b)
  {
    if a == [] {
      assert a + b == b;
    } else {
      assert (a + b)[1..] == a[1..] + b;
      KeepShortsAppend(a[1..], b);
    }
  }

  /** The older handler's items: the Shorts among the mapped records, in
      upstream order, neither re-sorted nor truncated. */
  function LegacyShorts(videos: seq<RawVideo>): (items: seq<VideoItem>)
    ensures |items| <= |videos|
    ensures forall i :: 0 <= i < |items| ==> items[i].isShort && IsShortISO8601(items[i].duration)
    ensures forall i :: 0 <= i < |videos| && LegacyItem(videos[i]).isShort ==> LegacyItem(videos[i]) in items
  {
    var mapped := LegacyItems(videos);
    var kept := KeepShorts(mapped);
    forall i | 0 <= i < |videos| && LegacyItem(videos[i]).isShort ensures LegacyItem(videos[i]) in kept {
      assert mapped[i] in mapped;
    }
    kept
  }

  // ---- ordering by views ----

  /** The older handler's list distributes over concatenated listings, so
      its items come in upstream order. */
  lemma {:induction false} LegacyShortsAppend(a: seq<RawVideo>, b: seq<RawVideo>)
    ensures LegacyShorts(a + b) == LegacyShorts(a) + LegacyShorts(b)
  {
    assert LegacyItems(a + b) == LegacyItems(a) + LegacyItems(b);
    KeepShortsAppend(LegacyItems(a), LegacyItems(b));
  }

  /** One record gives its mapped item when that is a Short, nothing
      otherwise. */
  lemma LegacyShortsOne(v: RawVideo)
    ensures LegacyShorts([v]) == if LegacyItem(v).isShort then [LegacyItem(v)] else []
  {
    assert LegacyItems([v]) == [LegacyItem(v)];
    assert [LegacyItem(v)][1..] == [];
  }

  /** `viewCount` never increases along `s`. */
  predicate NonIncreasing(s: seq<VideoItem>) {
    forall i, j :: 0 <= i < j < |s| ==> s[i].viewCount >= s[j].viewCount
  }

  /** The items of `s` with exactly `n` views, in their order in `s`. */
  function WithViews(s: seq<VideoItem>, n: int): (r: seq<VideoItem>)
    ensures forall x :: x in r ==> x in s && x.viewCount == n
  {
    if s == [] then []
    else (if s[0].viewCount == n then [s[0]] else []) + WithViews(s[1..], n)
  }

  lemma NonIncreasingCons(a: VideoItem, t: seq<VideoItem>)
    requires NonIncreasing(t)
    requires t == [] || a.viewCount >= t[0].viewCount
    ensures NonIncreasing([a] + t)
  {
    forall i, j | 0 <= i < j < |t| + 1 ensures ([a] + t)[i].viewCount >= ([a] + t)[j].viewCount {
      if i == 0 && j > 1 {
        assert t[0].viewCount >= t[j - 1].viewCount;
      }
    }
  }

  /** Insert `x` in front of every item with at most as many views as `x`. */
  function InsertByViews(x: VideoItem, s: seq<VideoItem>): (r: seq<VideoItem>)
    requires NonIncreasing(s)
    ensures NonIncreasing(r)
    ensures multiset(r) == multiset(s) + multiset{x}
    ensures r[0] == x || r[0] == s[0]
  {
    if s == [] || s[0].viewCount <= x.viewCount then
      NonIncreasingCons(x, s);
      [x] + s
    else
      var rest := InsertByViews(x, s[1..]);
      KeepHead(x, s, rest);
      [s[0]] + rest
  }

  /** Putting the head of `s` back in front of `x` inserted into the rest of
      `s` keeps the order and the items. */
  lemma KeepHead(x: VideoItem, s: seq<VideoItem>, rest: seq<VideoItem>)
    requires NonIncreasing(s) && s != [] && s[0].viewCount > x.viewCount
    requires NonIncreasing(rest) && multiset(rest) == multiset(s[1..]) + multiset{x}
    requires rest[0] == x || rest[0] == s[1..][0]
    ensures NonIncreasing([s[0]] + rest)
    ensures multiset([s[0]] + rest) == multiset(s) + multiset{x}
  {
    NonIncreasingCons(s[0], rest);
    assert s == [s[0]] + s[1..];
  }

  /** `.sort((a, b) => b.viewCount - a.viewCount)`, which is stable: an
      insertion sort that puts each item before the later items it ties. */
  function SortByViews(s: seq<VideoItem>): (r: seq<VideoItem>)
    ensures NonIncreasing(r)
    ensures multiset(r) == multiset(s)
    ensures |r| == |s|
  {
    if s == [] then []
    else
      assert s == [s[0]] + s[1..];
      InsertByViews(s[0], SortByViews(s[1..]))
  }

  lemma WithViewsCons(a: VideoItem, t: seq<VideoItem>, n: int)
    ensures WithViews([a] + t, n) == (if a.viewCount == n then [a] else []) + WithViews(t, n)
  {
    assert ([a] + t)[1..] == t;
  }

  lemma InsertPastHead(x: VideoItem, s: seq<VideoItem>)
    requires NonIncreasing(s) && s != [] && s[0].viewCount > x.viewCount
    ensures NonIncreasing(s[1..])
    ensures InsertByViews(x, s) == [s[0]] + InsertByViews(x, s[1..])
  {
  }

  lemma SwapSingles<T>(a: seq<T>, b: seq<T>, w: seq<T>)
    requires a == [] || b == []
    ensures a + (b + w) == b + (a + w)
  {
  }

  lemma {:induction false} InsertWithViews(x: VideoItem, s: seq<VideoItem>, n: int)
    requires NonIncreasing(s)
    ensures WithViews(InsertByViews(x, s), n) == (if x.viewCount == n then [x] else []) + WithViews(s, n)
  {
    if s == [] || s[0].viewCount <= x.viewCount {
      WithViewsCons(x, s, n);
    } else {
      var tail := s[1..];
      InsertPastHead(x, s);
      var rest := InsertByViews(x, tail);
      var head := if s[0].viewCount == n then [s[0]] else [];
      var mine := if x.viewCount == n then [x] else [];
      calc {
        WithViews(InsertByViews(x, s), n);
        WithViews([s[0]] + rest, n);
        { WithViewsCons(s[0], rest, n); }
        head + WithViews(rest, n);
        { InsertWithViews(x, tail, n); }
        head + (mine + WithViews(tail, n));
        { SwapSingles(head, mine, WithViews(tail, n)); }
        mine + (head + WithViews(tail, n));
        { assert [s[0]] + tail == s; WithViewsCons(s[0], tail, n); }
        mine + WithViews(s, n);
      }
    }
  }

  /** The sort is stable: the items with any one view count keep their
      relative order. */
  lemma {:induction false} SortIsStable(s: seq<VideoItem>, n: int)
    ensures WithViews(SortByViews(s), n) == WithViews(s, n)
  {
    if s != [] {
      var sorted := SortByViews(s[1..]);
      var head := if s[0].viewCount == n then [s[0]] else [];
      calc {
        WithViews(SortByViews(s), n);
        WithViews(InsertByViews(s[0], sorted), n);
        { InsertWithViews(s[0], sorted, n); }
        head + WithViews(sorted, n);
        { SortIsStable(s[1..], n); }
        head + WithViews(s[1..], n);
        { assert [s[0]] + s[1..] == s; WithViewsCons(s[0], s[1..], n); }
        WithViews(s, n);
      }
    }
  }

  lemma FirstWithViews(s: seq<VideoItem>)
    requires s != []
    ensures WithViews(s, s[0].viewCount) != [] && WithViews(s, s[0].viewCount)[0] == s[0]
  {
  }

  /** In a non-increasing list that holds an item with `r1[0]`'s count,
      the first item has at least that count. */
  lemma HeadBound(r1: seq<VideoItem>, r2: seq<VideoItem>)
    requires r1 != [] && NonIncreasing(r2)
    requires WithViews(r2, r1[0].viewCount) == WithViews(r1, r1[0].viewCount)
    ensures r2 != [] && r2[0].viewCount >= r1[0].viewCount
  {
    FirstWithViews(r1);
    var w := WithViews(r2, r1[0].viewCount);
    assert w[0] in w;
    var k :| 0 <= k < |r2| && r2[k] == w[0];
    assert k == 0 || r2[0].viewCount >= r2[k].viewCount;
  }

  /** Equal per-count subsequences after a common first item stay equal
      without it. */
  lemma TailsWithViews(a: VideoItem, t1: seq<VideoItem>, t2: seq<VideoItem>, n: int)
    requires WithViews([a] + t1, n) == WithViews([a] + t2, n)
    ensures WithViews(t1, n) == WithViews(t2, n)
  {
    WithViewsCons(a, t1, n);
    WithViewsCons(a, t2, n);
    var head := if a.viewCount == n then [a] else [];
    assert (head + WithViews(t1, n))[|head|..] == WithViews(t1, n);
    assert (head + WithViews(t2, n))[|head|..] == WithViews(t2, n);
  }

  /** A non-increasing order with the same per-count subsequences is
      unique: two such orders are equal. */
  lemma {:induction false} StableOrderUnique(r1: seq<VideoItem>, r2: seq<VideoItem>)
    requires NonIncreasing(r1) && NonIncreasing(r2)
    requires forall n :: WithViews(r1, n) == WithViews(r2, n)
    ensures r1 == r2
  {
    if r1 != [] && r2 == [] {
      HeadBound(r1, r2);
      assert false;
    } else if r1 == [] && r2 != [] {
      HeadBound(r2, r1);
      assert false;
    } else if r1 != [] {
      SameFirst(r1, r2);
      SameRest(r1, r2);
      StableOrderUnique(r1[1..], r2[1..]);
      assert [r1[0]] + r1[1..] == r1 && [r2[0]] + r2[1..] == r2;
    }
  }

  /** Two such orders start with the same item. */
  lemma SameFirst(r1: seq<VideoItem>, r2: seq<VideoItem>)
    requires r1 != [] && r2 != [] && NonIncreasing(r1) && NonIncreasing(r2)
    requires forall n :: WithViews(r1, n) == WithViews(r2, n)
    ensures r1[0] == r2[0]
  {
    HeadBound(r1, r2);
    HeadBound(r2, r1);
    var v := r1[0].viewCount;
    FirstWithViews(r1);
    FirstWithViews(r2);
    assert r1[0] == WithViews(r1, v)[0] == WithViews(r2, v)[0] == r2[0];
  }

  /** Once the common first item is removed, the rests still have the same
      per-count subsequences. */
  lemma SameRest(r1: seq<VideoItem>, r2: seq<VideoItem>)
    requires r1 != [] && r2 != [] && r1[0] == r2[0]
    requires forall n :: WithViews(r1, n) == WithViews(r2, n)
    ensures NonIncreasing(r1) ==> NonIncreasing(r1[1..])
    ensures NonIncreasing(r2) ==> NonIncreasing(r2[1..])
    ensures forall n :: WithViews(r1[1..], n) == WithViews(r2[1..], n)
  {
    assert [r1[0]] + r1[1..] == r1 && [r2[0]] + r2[1..] == r2;
    forall n ensures WithViews(r1[1..], n) == WithViews(r2[1..], n) {
      TailsWithViews(r1[0], r1[1..], r2[1..], n);
    }
  }

  /** `SortByViews` is the stable descending sort: any non-increasing
      reordering that keeps every tie group in input order is this one. */
  lemma StableSortCharacterised(s: seq<VideoItem>, r: seq<VideoItem>)
    requires NonIncreasing(r)
    requires forall n :: WithViews(r, n) == WithViews(s, n)
    ensures r == SortByViews(s)
  {
    forall n ensures WithViews(r, n) == WithViews(SortByViews(s), n) {
      SortIsStable(s, n);
    }
    StableOrderUnique(r, SortByViews(s));
  }

  /** The first `k` items of an ordered list (`slice(0, k)`). */
  function Truncate(sorted: seq<VideoItem>, k: nat): (items: seq<VideoItem>)
    ensures |items| <= k && items <= sorted
    ensures |items| == if |sorted| <= k then |sorted| else k
    ensures |sorted| <= k ==> items == sorted
    ensures NonIncreasing(sorted) ==> NonIncreasing(items)
    ensures multiset(items) <= multiset(sorted)
  {
    var items := if |sorted| <= k then sorted else sorted[..k];
    assert sorted == items + sorted[|items|..];
    items
  }

  /** The hardened handler's items: map, keep Shorts, order by views
      (stable), keep the first `maxResults`. */
  function TopShorts(videos: seq<RawVideo>, maxResults: nat): (items: seq<VideoItem>)
    ensures |items| <= maxResults
    ensures forall i :: 0 <= i < |items| ==> items[i].isShort
    ensures NonIncreasing(items)
    ensures multiset(items) <= multiset(HardenedItems(videos))
    ensures items <= SortByViews(KeepShorts(HardenedItems(videos)))
    ensures var shorts := |KeepShorts(HardenedItems(videos))|;
      |items| == if shorts <= maxResults then shorts else maxResults
  {
    var kept := KeepShorts(HardenedItems(videos));
    var sorted := SortByViews(kept);
    var items := Truncate(sorted, maxResults);
    ShortsSurviveReordering(items, kept);
    items
  }

  lemma ShortsSurviveReordering(items: seq<VideoItem>, kept: seq<VideoItem>)
    requires forall x :: x in kept ==> x.isShort
    requires multiset(items) <= multiset(kept)
    ensures forall i :: 0 <= i < |items| ==> items[i].isShort
  {
    forall i | 0 <= i < |items| ensures items[i].isShort {
      assert items[i] in multiset(items);
    }
  }

  /** An empty listing gives no items. */
  lemma NoVideosNoItems(maxResults: nat)
    ensures TopShorts([], maxResults) == []
  {
  }
}
