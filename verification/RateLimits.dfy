/** The in-memory rate limiters of the backend. `WidgetRateLimiter` and `DisplayRateLimiter`
    share one algorithm (a pruned deque of accepted times per device); `RateLimitStore`
    keeps only the last accepted time per key. Times are seconds on the monotonic clock. */
module RateLimits {
  import opened Collections

  /** What one `check` does: let the request pass, refuse it with a retry hint, or die
      on `window[0]` because the deque is empty and the limit is not positive. */
  datatype Verdict = Accepted | Refused(retryAfter: int) | IndexFault

  datatype Request<K> = Request(key: K, now: real, limit: int)

  // ----- one call -----

  /** Python's `int(x)`. */
  function Truncate(x: real): int {
    if x >= 0.0 then x.Floor else -((-x).Floor)
  }

  function RetryAfter(now: real, oldest: real): int {
    var r := Truncate(60.0 - (now - oldest));
    if r > 1 then r else 1
  }

  /** The `popleft` loop. */
  function Prune(window: seq<real>, cutoff: real): seq<real> {
    if window != [] && window[0] <= cutoff then Prune(window[1..], cutoff) else window
  }

  /** The verdict on a request and the device's deque afterwards. */
  function Decide(window: seq<real>, now: real, limit: int): (Verdict, seq<real>) {
    var live := Prune(window, now - 60.0);
    if |live| < limit then (Accepted, live + [now])
    else if live == [] then (IndexFault, live)
    else (Refused(RetryAfter(now, live[0])), live)
  }

  function Window<K(==)>(windows: map<K, seq<real>>, key: K): seq<real> {
    if key in windows then windows[key] else []
  }

  class WidgetRateLimiter<K(==)> {
    var windows: map<K, seq<real>>

    constructor ()
      ensures windows == map[]
    {
      windows := map[];
    }

    method Check(key: K, now: real, limit: int) returns (verdict: Verdict)
      modifies this
      ensures verdict == Decide(Window(old(windows), key), now, limit).0
      ensures windows == old(windows)[key := Decide(Window(old(windows), key), now, limit).1]
    {
      var window := Window(windows, key);
      var cutoff := now - 60.0;
      while window != [] && window[0] <= cutoff
        invariant Prune(window, cutoff) == Prune(Window(old(windows), key), cutoff)
        decreases |window|
      {
        window := window[1..];
      }
      windows := windows[key := window];
      if |window| >= limit {
        if window == [] {
          return IndexFault;
        }
        return Refused(RetryAfter(now, window[0]));
      }
      windows := windows[key := window + [now]];
      return Accepted;
    }
  }

  /** `check` on the store: the new hits and whether the request passed. */
  function StoreDecide<K(==)>(hits: map<K, real>, interval: real, key: K, now: real): (bool, map<K, real>) {
    if key in hits && now - hits[key] < interval then (false, hits) else (true, hits[key := now])
  }

  class RateLimitStore<K(==)> {
    var hits: map<K, real>
    const interval: real

    constructor (interval: real)
      ensures hits == map[] && this.interval == interval
    {
      hits := map[];
      this.interval := interval;
    }

    method Check(key: K, now: real) returns (ok: bool)
      modifies this`hits
      ensures (ok, hits) == StoreDecide(old(hits), interval, key, now)
    {
      var last := if key in hits then Some(hits[key]) else None;
      if last.Some? && now - last.value < interval {
        return false;
      }
      hits := hits[key := now];
      return true;
    }
  }

  // ----- whole runs -----

  ghost predicate ClockForward<K(!new)>(run: seq<Request<K>>) {
    forall i, j :: 0 <= i < j < |run| ==> run[i].now <= run[j].now
  }

  ghost predicate NotAfter<K(!new)>(run: seq<Request<K>>, now: real) {
    ClockForward(run) && (run != [] ==> run[|run| - 1].now <= now)
  }

  /** The deques after a run that starts from an empty limiter. */
  function After<K(==)>(run: seq<Request<K>>): map<K, seq<real>> {
    if run == [] then map[]
    else
      var windows, r := After(run[..|run| - 1]), run[|run| - 1];
      windows[r.key := Decide(Window(windows, r.key), r.now, r.limit).1]
  }

  /** The verdict on request `r` when it arrives after the run `past`. */
  function VerdictOn<K(==)>(past: seq<Request<K>>, r: Request<K>): Verdict {
    Decide(Window(After(past), r.key), r.now, r.limit).0
  }

  /** Every accepted time of one key, oldest first: the reference the deques stand in for. */
  function History<K(==)>(run: seq<Request<K>>, key: K): seq<real> {
    if run == [] then []
    else
      var past, r := run[..|run| - 1], run[|run| - 1];
      if r.key == key && VerdictOn(past, r) == Accepted then History(past, key) + [r.now] else History(past, key)
  }

  /** The times strictly after `cutoff`, in order. */
  function Newer(times: seq<real>, cutoff: real): seq<real> {
    if times == [] then []
    else if times[|times| - 1] > cutoff then Newer(times[..|times| - 1], cutoff) + [times[|times| - 1]]
    else Newer(times[..|times| - 1], cutoff)
  }

  lemma NewerSnoc(times: seq<real>, t: real, cutoff: real)
    ensures Newer(times + [t], cutoff) == if t > cutoff then Newer(times, cutoff) + [t] else Newer(times, cutoff)
  {
    assert (times + [t])[..|times|] == times;
  }

  lemma {:induction false} NewerMember(times: seq<real>, cutoff: real, t: real)
    ensures t in Newer(times, cutoff) <==> t in times && t > cutoff
  {
    if times != [] {
      SnocCases(times);
      NewerMember(times[..|times| - 1], cutoff, t);
    }
  }

  /** The accepted times in the half-open minute that ends at `end`. */
  function InMinute(times: seq<real>, end: real): seq<real> {
    if times == [] then []
    else if end - 60.0 < times[|times| - 1] <= end then InMinute(times[..|times| - 1], end) + [times[|times| - 1]]
    else InMinute(times[..|times| - 1], end)
  }

  lemma InMinuteSnoc(times: seq<real>, t: real, end: real)
    ensures InMinute(times + [t], end)
         == if end - 60.0 < t <= end then InMinute(times, end) + [t] else InMinute(times, end)
  {
    assert (times + [t])[..|times|] == times;
  }

  lemma {:induction false} InMinuteCount(times: seq<real>, end: real, cutoff: real)
    requires cutoff <= end - 60.0
    ensures |InMinute(times, end)| <= |Newer(times, cutoff)|
    ensures cutoff == end - 60.0 && (forall i :: 0 <= i < |times| ==> times[i] <= end) ==>
              InMinute(times, end) == Newer(times, cutoff)
  {
    if times != [] {
      SnocCases(times);
      InMinuteCount(times[..|times| - 1], end, cutoff);
    }
  }

  ghost predicate Ascending(times: seq<real>) {
    forall i, j :: 0 <= i < j < |times| ==> times[i] <= times[j]
  }

  lemma {:induction false} NewerOfAll(times: seq<real>, cutoff: real)
    requires forall i :: 0 <= i < |times| ==> times[i] > cutoff
    ensures Newer(times, cutoff) == times
  {
    if times != [] {
      SnocCases(times);
      NewerOfAll(times[..|times| - 1], cutoff);
    }
  }

  lemma {:induction false} NewerDropsOld(times: seq<real>, cutoff: real)
    requires times != [] && times[0] <= cutoff
    ensures Newer(times, cutoff) == Newer(times[1..], cutoff)
  {
    if |times| > 1 {
      NewerDropsOld(times[..|times| - 1], cutoff);
      assert times[..|times| - 1][1..] == times[1..][..|times[1..]| - 1];
    }
  }

  lemma {:induction false} PruneIsNewer(window: seq<real>, cutoff: real)
    requires Ascending(window)
    ensures Prune(window, cutoff) == Newer(window, cutoff)
    ensures Ascending(Newer(window, cutoff))
    decreases |window|
  {
    if window != [] && window[0] <= cutoff {
      NewerDropsOld(window, cutoff);
      PruneIsNewer(window[1..], cutoff);
    } else {
      NewerOfAll(window, cutoff);
    }
  }

  lemma {:induction false} NewerNewer(times: seq<real>, early: real, late: real)
    requires early <= late
    ensures Newer(Newer(times, early), late) == Newer(times, late)
  {
    if times != [] {
      NewerNewer(times[..|times| - 1], early, late);
      NewerSnoc(Newer(times[..|times| - 1], early), times[|times| - 1], late);
    }
  }

  lemma {:induction false} PruneIsSuffix(window: seq<real>, cutoff: real)
    ensures |Prune(window, cutoff)| <= |window|
    ensures Prune(window, cutoff) == window[|window| - |Prune(window, cutoff)|..]
    decreases |window|
  {
    if window != [] && window[0] <= cutoff {
      PruneIsSuffix(window[1..], cutoff);
    }
  }

  /** The deque `w` stands in for the history `h` at every moment from `now` on: they agree
      on everything newer than any cutoff still to come. */
  ghost predicate Tracks(w: seq<real>, h: seq<real>, now: real) {
    && Ascending(w) && Ascending(h)
    && (forall i :: 0 <= i < |w| ==> w[i] <= now) && (forall i :: 0 <= i < |h| ==> h[i] <= now)
    && (forall cutoff :: cutoff >= now - 60.0 ==> Newer(w, cutoff) == Newer(h, cutoff))
  }

  lemma TracksPrune(w: seq<real>, h: seq<real>, now: real)
    requires Tracks(w, h, now)
    ensures Prune(w, now - 60.0) == Newer(h, now - 60.0)
    ensures Tracks(Newer(h, now - 60.0), h, now)
  {
    PruneIsNewer(w, now - 60.0);
    PruneIsSuffix(w, now - 60.0);
    forall cutoff | cutoff >= now - 60.0
      ensures Newer(Newer(h, now - 60.0), cutoff) == Newer(h, cutoff)
    {
      NewerNewer(h, now - 60.0, cutoff);
    }
  }

  lemma TracksAppend(w: seq<real>, h: seq<real>, now: real)
    requires Tracks(w, h, now)
    ensures Tracks(w + [now], h + [now], now)
  {
    forall cutoff | cutoff >= now - 60.0
      ensures Newer(w + [now], cutoff) == Newer(h + [now], cutoff)
    {
      NewerSnoc(w, now, cutoff);
      NewerSnoc(h, now, cutoff);
    }
  }

  lemma TracksLater(w: seq<real>, h: seq<real>, now: real, later: real)
    requires Tracks(w, h, now) && now <= later
    ensures Tracks(w, h, later)
  {
  }

  lemma TracksStep(w: seq<real>, h: seq<real>, now: real, limit: int)
    requires Tracks(w, h, now)
    ensures var (v, w') := Decide(w, now, limit);
            Tracks(w', if v == Accepted then h + [now] else h, now)
  {
    TracksPrune(w, h, now);
    TracksAppend(Newer(h, now - 60.0), h, now);
  }

  lemma {:induction false} WindowTracksHistory<K(!new)>(run: seq<Request<K>>, key: K, now: real)
    requires NotAfter(run, now)
    ensures Tracks(Window(After(run), key), History(run, key), now)
    decreases |run|
  {
    if run != [] {
      var past, r := run[..|run| - 1], run[|run| - 1];
      var w, h := Window(After(past), key), History(past, key);
      WindowTracksHistory(past, key, r.now);
      TracksStep(w, h, r.now, r.limit);
      TracksLater(Window(After(run), key), History(run, key), r.now, now);
    }
  }

  lemma PrunedIsRecent<K(!new)>(run: seq<Request<K>>, key: K, now: real)
    requires NotAfter(run, now)
    ensures Prune(Window(After(run), key), now - 60.0) == Newer(History(run, key), now - 60.0)
  {
    WindowTracksHistory(run, key, now);
    TracksPrune(Window(After(run), key), History(run, key), now);
  }

  /** At any later moment, the pruned deque is exactly the last minute of accepted history. */
  lemma WindowIsRecentHistory<K(!new)>(run: seq<Request<K>>, key: K, now: real)
    requires NotAfter(run, now)
    ensures Prune(Window(After(run), key), now - 60.0) == Newer(History(run, key), now - 60.0)
    ensures Ascending(Newer(History(run, key), now - 60.0))
  {
    WindowTracksHistory(run, key, now);
    TracksPrune(Window(After(run), key), History(run, key), now);
  }

  lemma HistorySnoc<K(!new)>(past: seq<Request<K>>, r: Request<K>, key: K)
    ensures History(past + [r], key)
         == if r.key == key && VerdictOn(past, r) == Accepted then History(past, key) + [r.now] else History(past, key)
    ensures After(past + [r]) == After(past)[r.key := Decide(Window(After(past), r.key), r.now, r.limit).1]
  {
    assert (past + [r])[..|past|] == past;
  }

  /** What a check leaves in a deque is newer than a minute. */
  lemma DecideLeavesNew(w: seq<real>, now: real, limit: int)
    requires Ascending(w)
    ensures var left := Decide(w, now, limit).1;
            forall i :: 0 <= i < |left| ==> left[i] > now - 60.0
  {
    var live := Prune(w, now - 60.0);
    PruneIsNewer(w, now - 60.0);
    forall i | 0 <= i < |live|
      ensures live[i] > now - 60.0
    {
      assert live[i] in live;
      NewerMember(w, now - 60.0, live[i]);
    }
  }

  lemma WindowAscends<K(!new)>(run: seq<Request<K>>, key: K, now: real)
    requires NotAfter(run, now)
    ensures Ascending(Window(After(run), key))
  {
    WindowTracksHistory(run, key, now);
  }

  lemma SameMinute<K(!new)>(run: seq<Request<K>>, key: K, now: real)
    requires NotAfter(run, now)
    ensures Newer(Window(After(run), key), now - 60.0) == Newer(History(run, key), now - 60.0)
  {
    WindowTracksHistory(run, key, now);
  }

  lemma NewWindow<K(!new)>(run: seq<Request<K>>, key: K, now: real)
    requires NotAfter(run, now)
    requires forall i :: 0 <= i < |Window(After(run), key)| ==> Window(After(run), key)[i] > now - 60.0
    ensures Window(After(run), key) == Newer(History(run, key), now - 60.0)
  {
    SameMinute(run, key, now);
    NewerOfAll(Window(After(run), key), now - 60.0);
  }

  lemma OwnWindow<K(!new)>(past: seq<Request<K>>, r: Request<K>)
    ensures Window(After(past + [r]), r.key) == Decide(Window(After(past), r.key), r.now, r.limit).1
  {
    HistorySnoc(past, r, r.key);
  }

  lemma OtherWindow<K(!new)>(past: seq<Request<K>>, r: Request<K>, other: K)
    requires other != r.key
    ensures Window(After(past + [r]), other) == Window(After(past), other)
  {
    HistorySnoc(past, r, r.key);
  }

  lemma OwnWindowIsNew<K(!new)>(past: seq<Request<K>>, r: Request<K>)
    requires NotAfter(past, r.now)
    ensures var window := Window(After(past + [r]), r.key);
            forall i :: 0 <= i < |window| ==> window[i] > r.now - 60.0
  {
    OwnWindow(past, r);
    WindowAscends(past, r.key, r.now);
    DecideLeavesNew(Window(After(past), r.key), r.now, r.limit);
  }

  lemma StillForward<K(!new)>(past: seq<Request<K>>, r: Request<K>)
    requires NotAfter(past, r.now)
    ensures NotAfter(past + [r], r.now)
  {
  }

  /** After a check the checked device's deque is exactly its history newer than `now - 60`,
      and no other device's deque has moved. */
  lemma CheckKeepsTheLastMinute<K(!new)>(past: seq<Request<K>>, r: Request<K>, other: K)
    requires NotAfter(past, r.now)
    ensures Window(After(past + [r]), r.key) == Newer(History(past + [r], r.key), r.now - 60.0)
    ensures other != r.key ==> Window(After(past + [r]), other) == Window(After(past), other)
  {
    StillForward(past, r);
    OwnWindowIsNew(past, r);
    NewWindow(past + [r], r.key, r.now);
    if other != r.key {
      OtherWindow(past, r, other);
    }
  }

  /** The decision in terms of the history alone. */
  lemma DecisionIffHistory<K(!new)>(past: seq<Request<K>>, r: Request<K>)
    requires NotAfter(past, r.now)
    ensures var recent := Newer(History(past, r.key), r.now - 60.0);
            && (VerdictOn(past, r) == Accepted <==> |recent| < r.limit)
            && (VerdictOn(past, r) == IndexFault <==> recent == [] && r.limit <= 0)
            && (VerdictOn(past, r).Refused? <==> recent != [] && |recent| >= r.limit)
            && (VerdictOn(past, r).Refused? ==> VerdictOn(past, r).retryAfter == RetryAfter(r.now, recent[0]))
  {
    PrunedIsRecent(past, r.key, r.now);
  }

  ghost predicate LimitAtMost<K>(run: seq<Request<K>>, limit: int) {
    forall i :: 0 <= i < |run| ==> run[i].limit <= limit
  }

  /** No half-open minute, wherever it ends, ever holds more than `limit` accepted requests
      of one device, as long as no request was checked against a larger limit. */
  lemma {:induction false} AtMostLimitPerMinute<K(!new)>(run: seq<Request<K>>, key: K, limit: nat, end: real)
    requires ClockForward(run) && LimitAtMost(run, limit)
    ensures |InMinute(History(run, key), end)| <= limit
  {
    if run != [] {
      var past, r := run[..|run| - 1], run[|run| - 1];
      AtMostLimitPerMinute(past, key, limit, end);
      if r.key == key && VerdictOn(past, r) == Accepted {
        InMinuteSnoc(History(past, key), r.now, end);
        if end - 60.0 < r.now <= end {
          DecisionIffHistory(past, r);
          InMinuteCount(History(past, key), end, r.now - 60.0);
        }
      }
    }
  }

  // ----- the retry hint -----

  ghost predicate FixedLimit<K>(run: seq<Request<K>>, limit: int) {
    forall i :: 0 <= i < |run| ==> run[i].limit == limit
  }

  /** The accepted times still in the minute when `r` arrives. */
  function Recent<K(==)>(past: seq<Request<K>>, r: Request<K>): seq<real> {
    Newer(History(past, r.key), r.now - 60.0)
  }

  lemma ShrinksIffOldestLeaves(recent: seq<real>, cutoff: real)
    requires recent != [] && Ascending(recent)
    ensures |Newer(recent, cutoff)| < |recent| <==> recent[0] <= cutoff
  {
    PruneIsNewer(recent, cutoff);
    if recent[0] <= cutoff {
      PruneIsSuffix(recent[1..], cutoff);
    }
  }

  lemma RoomIffOldestLeaves(h: seq<real>, now: real, later: real)
    requires now <= later && Newer(h, now - 60.0) != [] && Ascending(Newer(h, now - 60.0))
    ensures |Newer(h, later - 60.0)| < |Newer(h, now - 60.0)| <==> later >= Newer(h, now - 60.0)[0] + 60.0
  {
    NewerNewer(h, now - 60.0, later - 60.0);
    ShrinksIffOldestLeaves(Newer(h, now - 60.0), later - 60.0);
  }

  lemma RecentInPast(h: seq<real>, now: real)
    requires Newer(h, now - 60.0) != [] && forall i :: 0 <= i < |h| ==> h[i] <= now
    ensures now - 60.0 < Newer(h, now - 60.0)[0] <= now
    ensures InMinute(h, now) == Newer(h, now - 60.0)
  {
    InMinuteCount(h, now, now - 60.0);
    NewerMember(h, now - 60.0, Newer(h, now - 60.0)[0]);
  }

  lemma HistoryIsPast<K(!new)>(past: seq<Request<K>>, key: K, now: real)
    requires NotAfter(past, now)
    ensures forall i :: 0 <= i < |History(past, key)| ==> History(past, key)[i] <= now
  {
    WindowTracksHistory(past, key, now);
  }

  lemma RecentAscends<K(!new)>(past: seq<Request<K>>, r: Request<K>)
    requires NotAfter(past, r.now)
    ensures Ascending(Recent(past, r))
  {
    WindowIsRecentHistory(past, r.key, r.now);
  }

  /** A minute that is full, and holds no more than the limit, holds exactly the limit. */
  lemma MinuteIsFull(h: seq<real>, now: real, limit: nat)
    requires forall i :: 0 <= i < |h| ==> h[i] <= now
    requires Newer(h, now - 60.0) != [] && |Newer(h, now - 60.0)| >= limit && |InMinute(h, now)| <= limit
    ensures |Newer(h, now - 60.0)| == limit && now - 60.0 < Newer(h, now - 60.0)[0] <= now
  {
    RecentInPast(h, now);
  }

  lemma MinuteIsBounded<K(!new)>(past: seq<Request<K>>, r: Request<K>)
    requires NotAfter(past, r.now) && 0 <= r.limit && LimitAtMost(past, r.limit)
    requires Recent(past, r) != [] && |Recent(past, r)| >= r.limit
    ensures |Recent(past, r)| == r.limit && r.now - 60.0 < Recent(past, r)[0] <= r.now
  {
    AtMostLimitPerMinute(past, r.key, r.limit, r.now);
    HistoryIsPast(past, r.key, r.now);
    MinuteIsFull(History(past, r.key), r.now, r.limit);
  }

  /** At a refusal under a fixed limit the minute is exactly full. */
  lemma RefusedMeansFull<K(!new)>(past: seq<Request<K>>, r: Request<K>)
    requires NotAfter(past, r.now) && 0 <= r.limit && LimitAtMost(past, r.limit) && VerdictOn(past, r).Refused?
    ensures var recent := Recent(past, r);
            && |recent| == r.limit && recent != [] && Ascending(recent)
            && r.now - 60.0 < recent[0] <= r.now
            && VerdictOn(past, r).retryAfter == RetryAfter(r.now, recent[0])
  {
    DecisionIffHistory(past, r);
    MinuteIsBounded(past, r);
    RecentAscends(past, r);
  }

  /** The hint at any refusal: at least a second, at most the time until the oldest recent request is a
      minute old unless that is less than a second, and less than a second short of it. */
  lemma RetryHintIs<K(!new)>(past: seq<Request<K>>, r: Request<K>)
    requires NotAfter(past, r.now) && VerdictOn(past, r).Refused?
    ensures Recent(past, r) != [] && VerdictOn(past, r).retryAfter >= 1
    ensures var hint, due := VerdictOn(past, r).retryAfter, Recent(past, r)[0] + 60.0;
            && (hint == 1 || r.now + hint as real <= due)
            && r.now + hint as real + 1.0 > due
  {
    DecisionIffHistory(past, r);
  }

  /** `again` comes from the refused device, later, under the same limit, and none of that
      device's requests were accepted in between. */
  ghost predicate Retry<K(!new)>(past: seq<Request<K>>, r: Request<K>, between: seq<Request<K>>, again: Request<K>) {
    && NotAfter(past, r.now) && LimitAtMost(past, r.limit) && 0 <= r.limit && VerdictOn(past, r).Refused?
    && NotAfter(past + [r] + between, again.now) && r.now <= again.now
    && again.key == r.key && again.limit == r.limit
    && History(past + [r] + between, r.key) == History(past, r.key)
  }

  /** The retry passes exactly when the oldest entry is a minute old. */
  lemma AcceptedAgainIff<K(!new)>(past: seq<Request<K>>, r: Request<K>, between: seq<Request<K>>, again: Request<K>)
    requires Retry(past, r, between, again)
    ensures VerdictOn(past + [r] + between, again) == Accepted
       <==> Recent(past, r) != [] && again.now >= Recent(past, r)[0] + 60.0
  {
    RefusedMeansFull(past, r);
    DecisionIffHistory(past + [r] + between, again);
    RoomIffOldestLeaves(History(past, r.key), r.now, again.now);
  }

  /** The retry hint is between 1 and 60 seconds, and waiting one second longer than it always
      suffices: `int` rounds the remaining time down by less than one second. */
  lemma RetryHintPlusOneSuffices<K(!new)>(past: seq<Request<K>>, r: Request<K>, between: seq<Request<K>>,
                                            again: Request<K>)
    requires Retry(past, r, between, again)
    ensures 1 <= VerdictOn(past, r).retryAfter <= 60
    ensures again.now >= r.now + (VerdictOn(past, r).retryAfter + 1) as real ==>
              VerdictOn(past + [r] + between, again) == Accepted
  {
    RefusedMeansFull(past, r);
    AcceptedAgainIff(past, r, between, again);
  }

  /** A retry made exactly at the hint passes if and only if nothing was rounded away: the
      remaining time was at most one second or a whole number of seconds. */
  lemma RetryHintSufficesIff<K(!new)>(past: seq<Request<K>>, r: Request<K>, between: seq<Request<K>>, again: Request<K>)
    requires Retry(past, r, between, again)
    requires again.now == r.now + VerdictOn(past, r).retryAfter as real
    ensures Recent(past, r) != []
    ensures var remaining := Recent(past, r)[0] + 60.0 - r.now;
            VerdictOn(past + [r] + between, again) == Accepted
            <==> (remaining <= 1.0 || remaining == remaining.Floor as real)
  {
    RefusedMeansFull(past, r);
    AcceptedAgainIff(past, r, between, again);
  }

  /** A client that obeys the hint to the letter can be refused again. */
  lemma ObeyingTheHintCanFail()
    ensures var a, b, c := Request(7, 0.0, 1), Request(7, 0.5, 1), Request(7, 59.5, 1);
            && VerdictOn([a], b) == Refused(59)
            && VerdictOn([a, b], c).Refused?
  {
    var a, b := Request(7, 0.0, 1), Request(7, 0.5, 1);
    assert [a][..0] == [] && [a, b][..1] == [a];
    assert After([a])[7] == [0.0];
    assert After([a, b])[7] == [0.0];
  }

  /** The limit `require_display_device` passes on. */
  function DisplayLimit(configured: int): int {
    if configured > 30 then configured else 30
  }

  /** The display limit is the larger of 30 and the configured one. With this floor the display limiter
      never indexes an empty deque, whatever is configured; the bare algorithm does, on a device's first
      request, whenever the limit is not positive. */
  lemma FloorPreventsFault<K(!new)>(past: seq<Request<K>>, r: Request<K>, configured: int)
    ensures r.limit == DisplayLimit(configured) ==> VerdictOn(past, r) != IndexFault
    ensures DisplayLimit(configured) in {30, configured} && DisplayLimit(configured) >= 30
    ensures DisplayLimit(configured) >= configured
    ensures past == [] ==> (VerdictOn(past, r) == IndexFault <==> r.limit <= 0)
  {
  }

  // ----- two limiters, one behaviour -----

  function StoreAfter<K(==)>(run: seq<Request<K>>, interval: real): map<K, real> {
    if run == [] then map[]
    else
      var r := run[|run| - 1];
      StoreDecide(StoreAfter(run[..|run| - 1], interval), interval, r.key, r.now).1
  }

  /** The pass/refuse decisions of the store along a run. */
  function StoreDecisions<K(==)>(run: seq<Request<K>>, interval: real): (passed: seq<bool>)
    ensures |passed| == |run|
  {
    if run == [] then []
    else
      var past, r := run[..|run| - 1], run[|run| - 1];
      StoreDecisions(past, interval) + [StoreDecide(StoreAfter(past, interval), interval, r.key, r.now).0]
  }

  /** Request `j` of a run is the last of its key that passed before request `n`. */
  ghost predicate LastPassed<K(!new)>(run: seq<Request<K>>, passed: seq<bool>, key: K, j: nat, n: nat)
    requires |passed| == |run| && n <= |run|
  {
    j < n && run[j].key == key && passed[j] && forall h :: j < h < n && run[h].key == key ==> !passed[h]
  }

  lemma StoreStep<K(!new)>(run: seq<Request<K>>, interval: real)
    requires run != []
    ensures var n := |run| - 1;
            var passed, hits := StoreDecisions(run, interval), StoreAfter(run[..n], interval);
            && passed[..n] == StoreDecisions(run[..n], interval)
            && StoreAfter(run, interval) == if passed[n] then hits[run[n].key := run[n].now] else hits
  {
  }

  lemma {:induction false} StoreHoldsLast<K(!new)>(run: seq<Request<K>>, interval: real, key: K)
    ensures var passed, hits := StoreDecisions(run, interval), StoreAfter(run, interval);
            && (key in hits <==> exists j: nat :: LastPassed(run, passed, key, j, |run|))
            && (forall j: nat :: LastPassed(run, passed, key, j, |run|) ==> key in hits && hits[key] == run[j].now)
  {
    if run != [] {
      var n := |run| - 1;
      StoreHoldsLast(run[..n], interval, key);
      StoreStep(run, interval);
      var passed, before := StoreDecisions(run, interval), StoreDecisions(run[..n], interval);
      if passed[n] && run[n].key == key {
        assert LastPassed(run, passed, key, n, |run|);
      } else {
        forall j: nat
          ensures LastPassed(run, passed, key, j, |run|) <==> LastPassed(run[..n], before, key, j, n)
        {
          LastPassedStays(run, passed, key, j);
        }
      }
    }
  }

  lemma LastPassedStays<K(!new)>(run: seq<Request<K>>, passed: seq<bool>, key: K, j: nat)
    requires run != [] && |passed| == |run|
    requires !(passed[|run| - 1] && run[|run| - 1].key == key)
    ensures LastPassed(run, passed, key, j, |run|)
       <==> LastPassed(run[..|run| - 1], passed[..|run| - 1], key, j, |run| - 1)
  {
  }

  /** The store, for any interval and any clock: a request passes exactly when none of its key has
      passed before, or the last that did is at least the interval ago. */
  lemma StorePassesIff<K(!new)>(past: seq<Request<K>>, r: Request<K>, interval: real)
    ensures var passed := StoreDecisions(past, interval);
            && StoreDecisions(past + [r], interval)
               == passed + [!(exists j: nat :: LastPassed(past, passed, r.key, j, |past|)
                                               && r.now - past[j].now < interval)]
  {
    StoreHoldsLast(past, interval, r.key);
    assert (past + [r])[..|past|] == past;
  }

  /** The pass/refuse decisions of the window limiter along a run. */
  function LimiterDecisions<K(==)>(run: seq<Request<K>>): seq<bool> {
    if run == [] then []
    else LimiterDecisions(run[..|run| - 1]) + [VerdictOn(run[..|run| - 1], run[|run| - 1]) == Accepted]
  }

  /** The simulation relation: the store remembers the last accepted time of each key. */
  ghost predicate RemembersLast<K(!new)>(hits: map<K, real>, run: seq<Request<K>>, key: K) {
    IsLast(hits, History(run, key), key)
  }

  ghost predicate IsLast<K(!new)>(hits: map<K, real>, times: seq<real>, key: K) {
    if times == [] then key !in hits else key in hits && hits[key] == times[|times| - 1]
  }

  lemma {:induction false} StoreSimulates<K(!new)>(run: seq<Request<K>>)
    requires ClockForward(run) && FixedLimit(run, 1)
    ensures forall key :: RemembersLast(StoreAfter(run, 60.0), run, key)
    ensures StoreDecisions(run, 60.0) == LimiterDecisions(run)
  {
    if run != [] {
      var past, r := run[..|run| - 1], run[|run| - 1];
      StoreSimulates(past);
      SameDecision(past, r);
      SameStep(past, r);
      assert run == past + [r];
      forall key
        ensures RemembersLast(StoreAfter(run, 60.0), run, key)
      {
        RemembersNext(past, r, key);
      }
    }
  }

  /** A store that remembers the last accepted time decides as the limiter does. */
  lemma SameStep<K(!new)>(past: seq<Request<K>>, r: Request<K>)
    requires RemembersLast(StoreAfter(past, 60.0), past, r.key)
    requires var h := History(past, r.key);
             VerdictOn(past, r) == Accepted <==> h == [] || r.now - h[|h| - 1] >= 60.0
    ensures StoreDecide(StoreAfter(past, 60.0), 60.0, r.key, r.now).0 == (VerdictOn(past, r) == Accepted)
  {
  }

  lemma RemembersNext<K(!new)>(past: seq<Request<K>>, r: Request<K>, key: K)
    requires RemembersLast(StoreAfter(past, 60.0), past, key)
    requires StoreDecide(StoreAfter(past, 60.0), 60.0, r.key, r.now).0 == (VerdictOn(past, r) == Accepted)
    ensures RemembersLast(StoreAfter(past + [r], 60.0), past + [r], key)
  {
    HistorySnoc(past, r, key);
    StoreSnoc(past, r, 60.0);
    IsLastNext(StoreAfter(past, 60.0), History(past, key), key, r.key, r.now, VerdictOn(past, r) == Accepted);
  }

  lemma StoreSnoc<K(!new)>(past: seq<Request<K>>, r: Request<K>, interval: real)
    ensures var hits := StoreAfter(past, interval);
            StoreAfter(past + [r], interval)
            == if StoreDecide(hits, interval, r.key, r.now).0 then hits[r.key := r.now] else hits
  {
    assert (past + [r])[..|past|] == past;
  }

  lemma IsLastNext<K(!new)>(hits: map<K, real>, times: seq<real>, key: K, newKey: K, now: real, passes: bool)
    requires IsLast(hits, times, key)
    ensures IsLast(if passes then hits[newKey := now] else hits,
                   if newKey == key && passes then times + [now] else times, key)
  {
  }

  /** The last minute is empty exactly when the last accepted time is at least a minute old. */
  lemma SameDecision<K(!new)>(past: seq<Request<K>>, r: Request<K>)
    requires NotAfter(past, r.now) && r.limit == 1
    ensures var h := History(past, r.key);
            VerdictOn(past, r) == Accepted <==> h == [] || r.now - h[|h| - 1] >= 60.0
  {
    var h := History(past, r.key);
    DecisionIffHistory(past, r);
    WindowTracksHistory(past, r.key, r.now);
    if h != [] {
      NewerMember(h, r.now - 60.0, h[|h| - 1]);
      var recent := Newer(h, r.now - 60.0);
      if recent != [] {
        NewerMember(h, r.now - 60.0, recent[0]);
      }
    }
  }

  /** On every request sequence with a clock that does not run backwards, a store with a 60 s
      interval and a window limiter with limit 1 pass and refuse exactly the same requests. */
  lemma StoreEqualsLimitOne<K(!new)>(run: seq<Request<K>>)
    requires ClockForward(run) && FixedLimit(run, 1)
    ensures StoreDecisions(run, 60.0) == LimiterDecisions(run)
  {
    StoreSimulates(run);
  }
}
