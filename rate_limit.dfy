/** The best-effort per-client sliding-window limiter that all three
    handlers share through one process-wide map from client key to the
    timestamps (in milliseconds) of that client's recent requests. */
module RateLimit {
  import opened Wrappers
  import opened Text

  /** Length of the sliding window, in milliseconds. */
  const WindowMs: int := 60000
  /** A request is refused once the window holds more hits than this. */
  const MaxHitsPerWindow: int := 60

  /** The client key: the first comma-separated hop of `x-forwarded-for`,
      untrimmed, or "unknown" when that hop is empty (which includes a
      missing or empty header). */
  function ClientKey(forwardedFor: Option<string>): (key: string)
    ensures key != "" && ',' !in key
    ensures var h := forwardedFor.GetOr("");
      if h == "" || h[0] == ',' then key == "unknown"
      else key <= h && (|key| == |h| || h[|key|] == ',')
  {
    var h := forwardedFor.GetOr("");
    var parts := Split(h, ',');
    assert parts[0] <= h by { assert |parts| == 1 || Join(parts, ',') == parts[0] + [','] + Join(parts[1..], ','); }
    if parts[0] == "" then "unknown" else parts[0]
  }

  /** `hits.filter(t => now - t < 60000)`: the hits still inside the
      window that ends at `now`, in their original order. */
  function Recent(hits: seq<int>, now: int): (r: seq<int>)
    ensures |r| <= |hits|
    ensures forall t :: t in r <==> t in hits && now - t < WindowMs
  {
    if hits == [] then []
    else (if now - hits[0] < WindowMs then [hits[0]] else []) + Recent(hits[1..], now)
  }

  /** The hits recorded for `key`, or none yet (`map.get(ip) || []`). */
  function Hits(windows: map<string, seq<int>>, key: string): (hits: seq<int>)
    ensures key in windows ==> hits == windows[key]
    ensures key !in windows ==> hits == []
  {
    if key in windows then windows[key] else []
  }

  /** The map after one admission check for `key` at `now`. */
  function Admitted(windows: map<string, seq<int>>, key: string, now: int): (r: map<string, seq<int>>) {
    windows[key := Recent(Hits(windows, key), now) + [now]]
  }

  /** Whether the admission check for `key` at `now` refuses the request. */
  predicate Denied(windows: map<string, seq<int>>, key: string, now: int) {
    |Recent(Hits(windows, key), now)| + 1 > MaxHitsPerWindow
  }

  /** The shared limiter state (`globalThis.__rate`). */
  class RateLimiter {
    var windows: map<string, seq<int>>

    constructor ()
      ensures windows == map[]
    {
      windows := map[];
    }

    /** One admission check: prune the key's expired hits, record `now`
        (also when the request is then refused) and refuse when more than
        `MaxHitsPerWindow` hits remain. It has no precondition: it never fails. */
    method Admit(key: string, now: int) returns (denied: bool)
      modifies this
      ensures key in windows && windows[key] == Recent(Hits(old(windows), key), now) + [now]
      ensures forall k :: k != key ==> Hits(windows, k) == Hits(old(windows), k)
      ensures windows.Keys == old(windows).Keys + {key}
      ensures denied <==> |windows[key]| > MaxHitsPerWindow
      ensures windows == Admitted(old(windows), key, now) && denied == Denied(old(windows), key, now)
    {
      var hits := Recent(Hits(windows, key), now);
      hits := hits + [now];
      windows := windows[key := hits];
      denied := |hits| > MaxHitsPerWindow;
    }

    /** `rateLimit(req, res)`: derive the client key from the forwarded-for
        header and run the admission check; true means "answered 429". */
    method Check(forwardedFor: Option<string>, now: int) returns (limited: bool)
      modifies this
      ensures windows == Admitted(old(windows), ClientKey(forwardedFor), now)
      ensures limited == Denied(old(windows), ClientKey(forwardedFor), now)
    {
      limited := Admit(ClientKey(forwardedFor), now);
    }
  }

  /** The refusals produced by successive checks for one key at the given
      times. */
  function Replay(windows: map<string, seq<int>>, key: string, times: seq<int>): (denials: seq<bool>)
    ensures |denials| == |times|
    decreases |times|
  {
    if times == [] then []
    else [Denied(windows, key, times[0])] + Replay(Admitted(windows, key, times[0]), key, times[1..])
  }

  /** The map after successive checks for one key at the given times. */
  function ReplayState(windows: map<string, seq<int>>, key: string, times: seq<int>): map<string, seq<int>>
    decreases |times|
  {
    if times == [] then windows
    else ReplayState(Admitted(windows, key, times[0]), key, times[1..])
  }

  /** Every later timestamp is less than one window after every earlier one. */
  predicate WithinOneWindow(times: seq<int>) {
    forall i, j :: 0 <= i < j < |times| ==> times[j] - times[i] < WindowMs
  }

  lemma {:induction false} RecentAppend(a: seq<int>, b: seq<int>, now: int)
    ensures Recent(a + b, now) == Recent(a, now) + Recent(b, now)
  {
    if a != [] {
      assert (a + b)[1..] == a[1..] + b;
      RecentAppend(a[1..], b, now);
    } else {
      assert a + b == b;
    }
  }

  lemma {:induction false} RecentKeepsAll(hits: seq<int>, now: int)
    requires forall i :: 0 <= i < |hits| ==> now - hits[i] < WindowMs
    ensures Recent(hits, now) == hits
  {
    if hits != [] {
      RecentKeepsAll(hits[1..], now);
    }
  }

  lemma {:induction false} RecentDropsAll(hits: seq<int>, now: int)
    requires forall t :: t in hits ==> now - t >= WindowMs
    ensures Recent(hits, now) == []
  {
    if hits != [] {
      assert hits[0] in hits;
      assert forall t :: t in hits[1..] ==> t in hits;
      RecentDropsAll(hits[1..], now);
    }
  }

  /** One check inside a burst: the expired hits go, the live ones stay
      and `now` joins them. */
  lemma AdmitInBurst(windows: map<string, seq<int>>, key: string,
                     stale: seq<int>, done: seq<int>, now: int)
    requires Hits(windows, key) == stale + done
    requires forall t :: t in stale ==> now - t >= WindowMs
    requires forall i :: 0 <= i < |done| ==> now - done[i] < WindowMs
    ensures Hits(Admitted(windows, key, now), key) == done + [now]
    ensures Denied(windows, key, now) == (|done| + 1 > MaxHitsPerWindow)
  {
    RecentAppend(stale, done, now);
    RecentDropsAll(stale, now);
    RecentKeepsAll(done, now);
  }

  lemma ShiftCounts(first: bool, rest: seq<bool>, done: nat)
    requires first == (done + 1 > MaxHitsPerWindow)
    requires forall i :: 0 <= i < |rest| ==> rest[i] == (done + 1 + i + 1 > MaxHitsPerWindow)
    ensures forall i :: 0 <= i < |rest| + 1 ==> ([first] + rest)[i] == (done + i + 1 > MaxHitsPerWindow)
  {
  }

  /** Moving the first time of a burst over to the hits already made
      keeps the whole run inside one window. */
  lemma BurstStep(done: seq<int>, times: seq<int>)
    requires times != [] && WithinOneWindow(done + times)
    ensures forall i :: 0 <= i < |done| ==> times[0] - done[i] < WindowMs
    ensures WithinOneWindow(done + [times[0]] + times[1..])
  {
    assert done + [times[0]] + times[1..] == done + times;
    forall i | 0 <= i < |done| ensures times[0] - done[i] < WindowMs {
      assert (done + times)[i] == done[i] && (done + times)[|done|] == times[0];
    }
  }

  /** A burst of checks for one key, all inside one window, after hits
      `stale` that have all expired and `done` that have not: the i-th check
      of the burst is refused exactly when it makes the window hold more
      than 60 hits, and a refused check still counts against later ones. */
  lemma {:induction false} BurstReplay(windows: map<string, seq<int>>, key: string,
                                       stale: seq<int>, done: seq<int>, times: seq<int>)
    requires Hits(windows, key) == stale + done
    requires forall t, now :: t in stale && now in times ==> now - t >= WindowMs
    requires WithinOneWindow(done + times)
    ensures forall i :: 0 <= i < |times| ==>
      Replay(windows, key, times)[i] == (|done| + i + 1 > MaxHitsPerWindow)
    decreases |times|
  {
    if times != [] {
      var now := times[0];
      assert now in times;
      BurstStep(done, times);
      AdmitInBurst(windows, key, stale, done, now);
      var next := Admitted(windows, key, now);
      assert Hits(next, key) == [] + (done + [now]);
      BurstReplay(next, key, [], done + [now], times[1..]);
      assert Replay(windows, key, times) == [Denied(windows, key, now)] + Replay(next, key, times[1..]);
      ShiftCounts(Denied(windows, key, now), Replay(next, key, times[1..]), |done|);
    }
  }

  /** A client with no hits yet that sends requests inside one 60-second
      window is admitted 60 times; the 61st request and every later one in
      that window are refused. */
  lemma FreshClientBurst(windows: map<string, seq<int>>, key: string, times: seq<int>)
    requires key !in windows
    requires WithinOneWindow(times)
    ensures forall i :: 0 <= i < |times| ==> (Replay(windows, key, times)[i] <==> i >= MaxHitsPerWindow)
  {
    assert [] + times == times;
    BurstReplay(windows, key, [], [], times);
  }

  /** Checks for one key leave the hits of every other key as they were,
      so those clients' admission decisions are unaffected. */
  lemma {:induction false} OtherClientsUnaffected(windows: map<string, seq<int>>, key: string,
                                                  times: seq<int>, other: string, now: int)
    requires other != key
    ensures Hits(ReplayState(windows, key, times), other) == Hits(windows, other)
    ensures Denied(ReplayState(windows, key, times), other, now) == Denied(windows, other, now)
    decreases |times|
  {
    if times != [] {
      OtherClientsUnaffected(Admitted(windows, key, times[0]), key, times[1..], other, now);
    }
  }
}
