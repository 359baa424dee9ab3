/** Sliding-window request limiter: pruned per-key queues, judged against the log of every accepted request. */
module RateLimiter {
  import opened Reals
  import opened Wrappers

  // ---------------------------------------------------------------- the full log

  // Accepted requests later than `cutoff`.
  function CountAfter(log: seq<real>, cutoff: real): nat {
    if log == [] then 0
    else CountAfter(log[..|log| - 1], cutoff) + (if cutoff < log[|log| - 1] then 1 else 0)
  }

  lemma {:induction false} CountIsLater(log: seq<real>, cutoff: real)
    ensures CountAfter(log, cutoff) == Later(log, cutoff)
  {
    hide Later;
    if log == [] {
      NoneLater(cutoff);
    } else {
      var n := |log| - 1;
      CountIsLater(log[..n], cutoff);
      LaterSnoc(log[..n], log[n], cutoff);
      assert log == log[..n] + [log[n]];
    }
  }

  // The rule on the full log: accept while fewer than `limit` requests were accepted within the window.
  predicate Admits(log: seq<real>, now: real, window: real, limit: int) {
    CountAfter(log, now - window) < limit
  }

  // A request's time, and the limit it was judged by.
  datatype Request = Request(at: real, limit: int)

  // Every request accepted so far, of those that arrived.
  function Served(requests: seq<Request>, window: real): seq<real> {
    if requests == [] then []
    else
      var n := |requests| - 1;
      var log := Served(requests[..n], window);
      if Admits(log, requests[n].at, window, requests[n].limit) then log + [requests[n].at] else log
  }

  lemma ServedSnoc(requests: seq<Request>, r: Request, window: real)
    ensures var log := Served(requests, window);
      Served(requests + [r], window) == if Admits(log, r.at, window, r.limit) then log + [r.at] else log
  {
    assert (requests + [r])[..|requests|] == requests;
  }

  lemma {:induction false} WindowIsRecent(log: seq<real>, lo: real, hi: real, cutoff: real)
    requires cutoff < lo
    ensures CountIn(log, lo, hi) <= CountAfter(log, cutoff)
  {
    if log != [] {
      WindowIsRecent(log[..|log| - 1], lo, hi, cutoff);
    }
  }

  // Whatever the arrival times, no half-open window of the configured length holds more accepted requests
  // than the greatest limit any request was judged by.
  lemma {:induction false} EveryWindowIsBounded(requests: seq<Request>, window: real, limit: int, lo: real, hi: real)
    requires hi <= lo + window && 0 <= limit && forall i :: 0 <= i < |requests| ==> requests[i].limit <= limit
    ensures CountIn(Served(requests, window), lo, hi) <= limit
  {
    if requests != [] {
      var n := |requests| - 1;
      var log := Served(requests[..n], window);
      EveryWindowIsBounded(requests[..n], window, limit, lo, hi);
      if lo <= requests[n].at < hi {
        WindowIsRecent(log, lo, hi, requests[n].at - window);
      }
      assert (log + [requests[n].at])[..|log|] == log;
    }
  }

  // ---------------------------------------------------------------- the pruned queues

  function Pruned(queue: seq<real>, cutoff: real): seq<real> {
    if queue != [] && queue[0] <= cutoff then Pruned(queue[1..], cutoff) else queue
  }

  predicate Ordered(log: seq<real>) {
    forall i, j :: 0 <= i <= j < |log| ==> log[i] <= log[j]
  }

  // The queue is the end of the log, and everything cut off is at or before `cutoff`.
  ghost predicate Keeps(queue: seq<real>, log: seq<real>, cutoff: real) {
    && |queue| <= |log|
    && queue == log[|log| - |queue|..]
    && forall i :: 0 <= i < |log| - |queue| ==> log[i] <= cutoff
  }

  // Nothing a pruned queue has forgotten can matter, so its length is the number of recent requests.
  lemma {:induction false} PrunedCounts(queue: seq<real>, log: seq<real>, earlier: real, cutoff: real)
    requires Keeps(queue, log, earlier) && earlier <= cutoff && Ordered(log)
    ensures Keeps(Pruned(queue, cutoff), log, cutoff)
    ensures |Pruned(queue, cutoff)| == CountAfter(log, cutoff)
    decreases |queue|
  {
    if queue != [] && queue[0] <= cutoff {
      var cut := |log| - |queue|;
      assert queue[0] == log[cut] && queue[1..] == log[cut + 1..];
      PrunedCounts(queue[1..], log, cutoff, cutoff);
    } else {
      CountSuffix(log, |log| - |queue|, cutoff);
    }
  }

  lemma {:induction false} CountSuffix(log: seq<real>, cut: nat, cutoff: real)
    requires cut <= |log|
    requires forall i :: 0 <= i < cut ==> log[i] <= cutoff
    requires forall i :: cut <= i < |log| ==> cutoff < log[i]
    ensures CountAfter(log, cutoff) == |log| - cut
  {
    if |log| > 0 {
      CountSuffix(log[..|log| - 1], if cut < |log| then cut else cut - 1, cutoff);
    }
  }

  ghost predicate Until(log: seq<real>, clock: real) {
    forall i :: 0 <= i < |log| ==> log[i] <= clock
  }

  // At time `clock` the queue represents the log.
  ghost predicate Tracks(queue: seq<real>, log: seq<real>, window: real, clock: real) {
    Keeps(queue, log, clock - window) && Ordered(log) && Until(log, clock)
  }

  lemma StillTracks(queue: seq<real>, log: seq<real>, window: real, clock: real, now: real)
    requires Tracks(queue, log, window, clock) && clock <= now
    ensures Tracks(queue, log, window, now)
  {
  }

  lemma PruneTracks(queue: seq<real>, log: seq<real>, window: real, clock: real, now: real)
    requires Tracks(queue, log, window, clock) && clock <= now
    ensures Tracks(Pruned(queue, now - window), log, window, now)
    ensures |Pruned(queue, now - window)| == CountAfter(log, now - window)
  {
    PrunedCounts(queue, log, clock - window, now - window);
  }

  lemma AcceptTracks(queue: seq<real>, log: seq<real>, window: real, now: real)
    requires Tracks(queue, log, window, now)
    ensures Tracks(queue + [now], log + [now], window, now)
  {
    assert (log + [now])[|log| - |queue|..] == queue + [now];
  }

  // A queue whose newest entry has expired may be forgotten altogether.
  lemma ForgetTracks(queue: seq<real>, log: seq<real>, window: real, now: real)
    requires Tracks(queue, log, window, now)
    requires queue == [] || queue[|queue| - 1] <= now - window
    ensures Tracks([], log, window, now)
  {
    if queue != [] {
      assert log[|log| - 1] == queue[|queue| - 1];
    }
  }

  class Limiter {
    const maxRequests: int
    const window: real
    var hits: map<string, seq<real>>
    var checkCount: nat

    // Every request ever checked, per key, and the time of the latest call.
    ghost var arrivals: map<string, seq<Request>>
    ghost var clock: real

    ghost function Arrivals(key: string): seq<Request>
      reads this`arrivals
    {
      if key in arrivals then arrivals[key] else []
    }

    // Every request ever accepted.
    ghost function Log(key: string): seq<real>
      reads this`arrivals
    {
      Served(Arrivals(key), window)
    }

    ghost function Queue(key: string): seq<real>
      reads this`hits
    {
      if key in hits then hits[key] else []
    }

    ghost predicate Valid()
      reads this`hits, this`arrivals, this`clock
    {
      forall k :: Tracks(Queue(k), Log(k), window, clock)
    }

    constructor (maxRequests: int, window: real, now: real)
      ensures Valid() && clock == now && this.maxRequests == maxRequests && this.window == window
      ensures forall k :: Arrivals(k) == []
    {
      this.maxRequests, this.window := maxRequests, window;
      hits, checkCount := map[], 0;
      arrivals, clock := map[], now;
    }

    // Drops expired entries from the front of one queue.
    method Prune(key: string, now: real) returns (queue: seq<real>)
      requires Valid() && clock <= now
      modifies this`hits, this`clock
      ensures Valid() && clock == now
      ensures key in hits && hits[key] == queue
      ensures |queue| == CountAfter(Log(key), now - window)
    {
      hide Tracks, CountAfter;
      ghost var before := Queue(key);
      PruneTracks(before, Log(key), window, clock, now);
      queue := if key in hits then hits[key] else [];
      while queue != [] && queue[0] <= now - window
        invariant Pruned(queue, now - window) == Pruned(before, now - window)
        decreases |queue|
      {
        queue := queue[1..];
      }
      assert queue == Pruned(before, now - window);
      forall k ensures Tracks(Queue(k), Log(k), window, now) {
        StillTracks(Queue(k), Log(k), window, clock, now);
      }
      hits := hits[key := queue];
      clock := now;
      forall k ensures Tracks(Queue(k), Log(k), window, clock) {
        assert Log(k) == old(Log(k));
        assert k != key ==> Queue(k) == old(Queue(k));
      }
    }

    // A zero or missing limit is the configured one. The pruned queue gives the verdict of the full log: refused
    // exactly when the window is full.
    method Check(key: string, limitArg: Option<int>, now: real) returns (accepted: bool)
      requires Valid() && clock <= now
      modifies this
      ensures Valid() && clock == now
      ensures var limit := if limitArg == None || limitArg == Some(0) then maxRequests else limitArg.value;
        && (accepted <==> Later(old(Log(key)), now - window) < limit)
        && Arrivals(key) == old(Arrivals(key)) + [Request(now, limit)]
      ensures Log(key) == if accepted then old(Log(key)) + [now] else old(Log(key))
      ensures forall k :: k != key ==> Arrivals(k) == old(Arrivals(k)) && Log(k) == old(Log(k))
    {
      hide Valid, Queue, CountAfter, Served, Later;
      CountIsLater(Log(key), now - window);
      var limit := if limitArg.Some? && limitArg.value != 0 then limitArg.value else maxRequests;
      ServedSnoc(Arrivals(key), Request(now, limit), window);
      var queue := Prune(key, now);
      accepted := |queue| < limit;
      Record(key, Request(now, limit), accepted);
      if accepted {
        checkCount := checkCount + 1;
        if checkCount % 1000 == 0 {
          Cleanup(now);
        }
      }
    }

    // The log of a request just judged; if accepted it joins the queue.
    method Record(key: string, r: Request, accepted: bool)
      requires Valid() && clock == r.at && key in hits && accepted == Admits(Log(key), r.at, window, r.limit)
      modifies this`hits, this`arrivals
      ensures Valid()
      ensures Arrivals(key) == old(Arrivals(key)) + [r]
      ensures forall k :: k != key ==> Arrivals(k) == old(Arrivals(k))
    {
      hide Tracks, Served, Admits;
      ServedSnoc(Arrivals(key), r, window);
      AcceptTracks(hits[key], Log(key), window, r.at);
      if accepted {
        hits := hits[key := hits[key] + [r.at]];
      }
      arrivals := arrivals[key := Arrivals(key) + [r]];
      forall k ensures Tracks(Queue(k), Log(k), window, clock) {
        assert old(Tracks(Queue(k), Log(k), window, clock));
        assert k != key ==> Queue(k) == old(Queue(k)) && Log(k) == old(Log(k));
      }
    }

    // Dropping expired queues leaves every log, hence every later verdict, as it was.
    method Cleanup(now: real)
      requires Valid() && clock == now
      modifies this`hits
      ensures Valid()
      ensures forall k :: k in hits <==>
        (k in old(hits) && old(hits)[k] != [] && now - window < old(hits)[k][|old(hits)[k]| - 1])
      ensures forall k :: k in hits ==> hits[k] == old(hits)[k]
    {
      hide Tracks;
      var empty := set k | k in hits && (hits[k] == [] || hits[k][|hits[k]| - 1] <= now - window);
      forall k | k in empty ensures Tracks([], Log(k), window, now) {
        assert Tracks(Queue(k), Log(k), window, clock);
        ForgetTracks(hits[k], Log(k), window, now);
      }
      hits := hits - empty;
      forall k ensures Tracks(Queue(k), Log(k), window, clock) {
        assert Tracks(old(Queue(k)), Log(k), window, clock);
      }
    }
  }

  // A limiter whose checks of a key were judged by limits up to `limit` never let more than `limit` of its
  // requests through in any window.
  lemma KeyIsBounded(limiter: Limiter, key: string, limit: int, lo: real, hi: real)
    requires hi <= lo + limiter.window && 0 <= limit
    requires forall i :: 0 <= i < |limiter.Arrivals(key)| ==> limiter.Arrivals(key)[i].limit <= limit
    ensures CountIn(limiter.Log(key), lo, hi) <= limit
  {
    EveryWindowIsBounded(limiter.Arrivals(key), limiter.window, limit, lo, hi);
  }
}
