/** The distress detector (app/core/distress.py): a cache of recent failures per instrument that prunes
    on every write, against the full history it never keeps. */
module DistressDetection {
  import opened Models

  function Push(r: seq<Instant>, t: Instant, cutoff: Instant): seq<Instant> {
    if t >= cutoff then r + [t] else r
  }

  /** The instants at or after the cutoff, in order. */
  function Recent(h: seq<Instant>, cutoff: Instant): (r: seq<Instant>)
    ensures |r| <= |h|
  {
    if h == [] then []
    else
      var n := |h| - 1;
      Push(Recent(h[..n], cutoff), h[n], cutoff)
  }

  /** It keeps every such instant as often as it was there, and no other. */
  lemma {:induction false} RecentKeepsExactly(h: seq<Instant>, cutoff: Instant, t: Instant)
    ensures multiset(Recent(h, cutoff))[t] == if cutoff <= t then multiset(h)[t] else 0
  {
    if h == [] {
    } else {
      var n := |h| - 1;
      RecentKeepsExactly(h[..n], cutoff, t);
      assert h == h[..n] + [h[n]];
    }
  }

  /** What the pruned list holds after a history of records: each write appends, then prunes. */
  function Cache(h: seq<Instant>, window: Duration): seq<Instant> {
    if h == [] then []
    else
      var n := |h| - 1;
      Recent(Cache(h[..n], window) + [h[n]], h[n] - window)
  }

  lemma CacheAppend(h: seq<Instant>, t: Instant, window: Duration)
    ensures Cache(h + [t], window) == Recent(Cache(h, window) + [t], t - window)
  {
    assert (h + [t])[..|h|] == h;
  }

  predicate NoneAfter(h: seq<Instant>, now: Instant) {
    forall i :: 0 <= i < |h| ==> h[i] <= now
  }

  predicate NoneWithin(h: seq<Instant>, low: Instant, high: Instant) {
    forall i :: 0 <= i < |h| ==> !(low <= h[i] < high)
  }

  predicate NonDecreasing(h: seq<Instant>) {
    forall i, j :: 0 <= i < j < |h| ==> h[i] <= h[j]
  }

  lemma RecentAppend(h: seq<Instant>, t: Instant, cutoff: Instant)
    ensures Recent(h + [t], cutoff) == Push(Recent(h, cutoff), t, cutoff)
  {
    assert (h + [t])[..|h|] == h;
  }

  /** Pruning twice is pruning at the later cutoff. */
  lemma {:induction false} RecentTwice(h: seq<Instant>, first: Instant, second: Instant)
    ensures Recent(Recent(h, first), second) == Recent(h, if first >= second then first else second)
  {
    if h == [] {
    } else {
      var n := |h| - 1;
      RecentTwice(h[..n], first, second);
      RecentAppend(Recent(h[..n], first), h[n], second);
    }
  }

  /** In whatever order the instants were recorded, a query at or after all of them cannot tell the cache
      from the history. */
  lemma {:induction false} LateQueriesAgree(h: seq<Instant>, window: Duration, now: Instant)
    requires NoneAfter(h, now)
    ensures Recent(Cache(h, window), now - window) == Recent(h, now - window)
  {
    if h == [] {
    } else {
      var n := |h| - 1;
      var before, t, cutoff := Cache(h[..n], window), h[n], now - window;
      LateQueriesAgree(h[..n], window, now);
      RecentTwice(before + [t], t - window, cutoff);
      RecentAppend(before, t, cutoff);
      assert Recent(h, cutoff) == Push(Recent(h[..n], cutoff), t, cutoff);
    }
  }

  lemma CacheIsPruned(h: seq<Instant>, window: Duration)
    requires h != []
    ensures Recent(Cache(h, window), h[|h| - 1] - window) == Cache(h, window)
  {
    var n := |h| - 1;
    RecentTwice(Cache(h[..n], window) + [h[n]], h[n] - window, h[n] - window);
  }

  /** Recorded in order, the cache is the history from the last record's cutoff on. */
  lemma CacheIsWindow(h: seq<Instant>, window: Duration)
    requires NonDecreasing(h) && h != []
    ensures Cache(h, window) == Recent(h, h[|h| - 1] - window)
  {
    var n := |h| - 1;
    assert NoneAfter(h, h[n]);
    LateQueriesAgree(h, window, h[n]);
    CacheIsPruned(h, window);
  }

  /** Raising the cutoff loses instants exactly when some lies between the two. */
  lemma {:induction false} RecentShrinks(h: seq<Instant>, low: Instant, high: Instant)
    requires low <= high
    ensures |Recent(h, high)| <= |Recent(h, low)|
    ensures |Recent(h, high)| == |Recent(h, low)| <==> NoneWithin(h, low, high)
  {
    if h == [] {
    } else {
      var n := |h| - 1;
      RecentShrinks(h[..n], low, high);
      assert NoneWithin(h, low, high) <==> NoneWithin(h[..n], low, high) && !(low <= h[n] < high);
    }
  }

  lemma WindowCountAgreesExactly(h: seq<Instant>, cached: seq<Instant>, last: Instant, cutoff: Instant)
    requires cached == Recent(h, last)
    ensures |Recent(cached, cutoff)| == |Recent(h, cutoff)| <==> NoneWithin(h, cutoff, last)
  {
    RecentTwice(h, last, cutoff);
    if cutoff > last {
      assert NoneWithin(h, cutoff, last);
    } else {
      RecentShrinks(h, cutoff, last);
    }
  }

  /** A query at any time, also before the last record, counts what the full history would exactly when no
      recorded instant lies in its window but before the last record's. */
  lemma CountAgreesExactly(h: seq<Instant>, window: Duration, now: Instant)
    requires NonDecreasing(h) && h != []
    ensures |Recent(Cache(h, window), now - window)| == |Recent(h, now - window)| <==>
            NoneWithin(h, now - window, h[|h| - 1] - window)
  {
    CacheIsWindow(h, window);
    WindowCountAgreesExactly(h, Cache(h, window), h[|h| - 1] - window, now - window);
  }

  /** The list of an instrument, empty when there is none. */
  function Listed(m: map<string, seq<Instant>>, instrument: string): seq<Instant> {
    if instrument in m then m[instrument] else []
  }

  predicate CachedFor(failures: map<string, seq<Instant>>, history: map<string, seq<Instant>>, window: Duration,
                      i: string) {
    Listed(failures, i) == Cache(Listed(history, i), window)
  }

  ghost predicate Cached(failures: map<string, seq<Instant>>, history: map<string, seq<Instant>>, window: Duration) {
    forall i :: CachedFor(failures, history, window, i)
  }

  /** The lists after one more record: append, then prune. */
  function Recorded(failures: map<string, seq<Instant>>, window: Duration, instrument: string, now: Instant)
    : map<string, seq<Instant>>
  {
    failures[instrument := Recent(Listed(failures, instrument) + [now], now - window)]
  }

  lemma RecordingKeepsCached(failures: map<string, seq<Instant>>, history: map<string, seq<Instant>>,
                             window: Duration, instrument: string, now: Instant)
    requires Cached(failures, history, window)
    ensures Cached(Recorded(failures, window, instrument, now),
                   history[instrument := Listed(history, instrument) + [now]], window)
  {
    var newFailures := Recorded(failures, window, instrument, now);
    var newHistory := history[instrument := Listed(history, instrument) + [now]];
    CacheAppend(Listed(history, instrument), now, window);
    forall i ensures CachedFor(newFailures, newHistory, window, i) {
      assert CachedFor(failures, history, window, i) && CachedFor(failures, history, window, instrument);
    }
  }

  /** What a query reads in the cache at or after every record is what the history shows. */
  lemma CacheAnswers(failures: map<string, seq<Instant>>, history: map<string, seq<Instant>>, window: Duration,
                     instrument: string, now: Instant)
    requires CachedFor(failures, history, window, instrument)
    ensures |Listed(failures, instrument)| <= |Listed(history, instrument)|
    ensures NoneAfter(Listed(history, instrument), now) ==>
              Recent(Listed(failures, instrument), now - window) == Recent(Listed(history, instrument), now - window)
  {
    CacheIsSmall(Listed(history, instrument), window);
    if NoneAfter(Listed(history, instrument), now) {
      LateQueriesAgree(Listed(history, instrument), window, now);
    }
  }

  lemma {:induction false} CacheIsSmall(h: seq<Instant>, window: Duration)
    ensures |Cache(h, window)| <= |h|
  {
    if h == [] {
    } else {
      CacheIsSmall(h[..|h| - 1], window);
    }
  }

  class DistressDetector {
    const window: Duration
    const threshold: int
    var failures: map<string, seq<Instant>>
    /** Every instant ever recorded, per instrument. */
    ghost var history: map<string, seq<Instant>>

    ghost predicate Valid()
      reads this
    {
      Cached(failures, history, window)
    }

    ghost function HistoryOf(instrument: string): seq<Instant>
      reads this
    {
      Listed(history, instrument)
    }

    constructor (window: Duration, threshold: int)
      ensures Valid() && history == map[] && this.window == window && this.threshold == threshold
    {
      this.window, this.threshold := window, threshold;
      failures, history := map[], map[];
    }

    method RecordFailure(instrument: string, now: Instant)
      requires Valid()
      modifies this
      ensures Valid() && history == old(history)[instrument := old(HistoryOf(instrument)) + [now]]
    {
      RecordingKeepsCached(failures, history, window, instrument, now);
      history := history[instrument := HistoryOf(instrument) + [now]];
      var events := Listed(failures, instrument) + [now];
      var cutoff := now - window;
      failures := failures[instrument := Recent(events, cutoff)];
    }

    /** At or after every record of the instrument the count is that of the full history. */
    method FailureCount(instrument: string, now: Instant) returns (count: nat)
      requires Valid()
      ensures count <= |HistoryOf(instrument)|
      ensures NoneAfter(HistoryOf(instrument), now) ==>
                count == |Recent(HistoryOf(instrument), now - window)|
    {
      var events := Listed(failures, instrument);
      count := |Recent(events, now - window)|;
      assert CachedFor(failures, history, window, instrument);
      CacheAnswers(failures, history, window, instrument, now);
    }

    method IsDistressed(instrument: string, now: Instant) returns (distressed: bool)
      requires Valid()
      ensures NoneAfter(HistoryOf(instrument), now) ==>
                (distressed <==> |Recent(HistoryOf(instrument), now - window)| >= threshold)
    {
      var events := Listed(failures, instrument);
      var recent := Recent(events, now - window);
      distressed := |recent| >= threshold;
      assert CachedFor(failures, history, window, instrument);
      CacheAnswers(failures, history, window, instrument, now);
    }
  }
}
