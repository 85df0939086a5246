/**
 The sliding-window limiter of relay-server: rateLimiter.allow of the conversation service
 and RateLimiter.Allow of the HTTP middleware prune and extend the same list of stamps.
 */
module WindowLimiter {

  datatype Verdict = Accepted | Rejected(retryAfter: int)

  // ---------------------------------------------------------------- one key

  /** The list without the leading stamps that have left the window. */
  function Prune(stamps: seq<int>, cutoff: int): seq<int> {
    if stamps != [] && stamps[0] <= cutoff then Prune(stamps[1..], cutoff) else stamps
  }

  function Admits(stamps: seq<int>, max: int, window: int, now: int): bool {
    |Prune(stamps, now - window)| < max
  }

  function After(stamps: seq<int>, max: int, window: int, now: int): seq<int> {
    Prune(stamps, now - window) + if Admits(stamps, max, window, now) then [now] else []
  }

  function RetryAfter(stamps: seq<int>, window: int, now: int): int {
    var kept := Prune(stamps, now - window);
    if kept == [] then window else if kept[0] + window - now < 0 then 0 else kept[0] + window - now
  }

  /** The loop both limiters share. */
  method PruneStamps(stamps: seq<int>, cutoff: int) returns (kept: seq<int>)
    ensures kept == Prune(stamps, cutoff)
  {
    var first := 0;
    while first < |stamps| && stamps[first] <= cutoff
      invariant 0 <= first <= |stamps| && Prune(stamps[first..], cutoff) == Prune(stamps, cutoff)
    {
      assert stamps[first..][1..] == stamps[first + 1..];
      first := first + 1;
    }
    kept := stamps[first..];
  }

  /** The limiter of the conversation service. */
  class ServiceLimiter {
    var stamps: map<string, seq<int>>

    constructor ()
      ensures stamps == map[]
    {
      stamps := map[];
    }

    function StampsOf(key: string): seq<int>
      reads this
    {
      if key in stamps then stamps[key] else []
    }

    method Allow(key: string, max: int, window: int, now: int) returns (verdict: Verdict)
      modifies this
      ensures verdict.Accepted? <==> old(Admits(StampsOf(key), max, window, now))
      ensures verdict.Rejected? ==> verdict.retryAfter == old(RetryAfter(StampsOf(key), window, now))
      ensures StampsOf(key) == old(After(StampsOf(key), max, window, now))
      ensures forall k :: k != key ==> StampsOf(k) == old(StampsOf(k))
    {
      var kept := PruneStamps(if key in stamps then stamps[key] else [], now - window);
      if |kept| >= max {
        var retry := window;
        if |kept| > 0 {
          retry := kept[0] + window - now;
          if retry < 0 {
            retry := 0;
          }
        }
        stamps := stamps[key := kept];
        return Rejected(retry);
      }
      stamps := stamps[key := kept + [now]];
      verdict := Accepted;
    }
  }

  const ANONYMOUS := "anonymous"

  function KeyOf(key: string): string { if key == "" then ANONYMOUS else key }

  /** The limiter of the HTTP middleware; it has one limit and window for good. */
  class RequestLimiter {
    const limit: int
    const window: int
    var entries: map<string, seq<int>>

    constructor (limit: int, window: int)
      ensures this.limit == (if limit < 1 then 1 else limit) && entries == map[]
      ensures this.window == if window <= 0 then 60_000_000_000 else window
    {
      this.limit := if limit < 1 then 1 else limit;
      this.window := if window <= 0 then 60_000_000_000 else window;
      entries := map[];
    }

    function StampsOf(key: string): seq<int>
      reads this
    {
      if key in entries then entries[key] else []
    }

    method Allow(key: string, now: int) returns (ok: bool)
      modifies this
      ensures ok == old(Admits(StampsOf(KeyOf(key)), limit, window, now))
      ensures StampsOf(KeyOf(key)) == old(After(StampsOf(KeyOf(key)), limit, window, now))
      ensures forall k :: k != KeyOf(key) ==> StampsOf(k) == old(StampsOf(k))
    {
      var key := key;
      if key == "" {
        key := ANONYMOUS;
      }
      var kept := PruneStamps(if key in entries then entries[key] else [], now - window);
      if |kept| >= limit {
        entries := entries[key := kept];
        return false;
      }
      entries := entries[key := kept + [now]];
      ok := true;
    }
  }

  // ---------------------------------------------------------------- the full history

  /** The accepted calls later than `cutoff`. */
  function Count(history: seq<int>, cutoff: int): nat {
    if history == [] then 0 else Count(history[1..], cutoff) + if history[0] > cutoff then 1 else 0
  }

  /** Those in the window (t - window, t]. */
  function InWindow(history: seq<int>, window: int, t: int): nat {
    if history == [] then 0 else InWindow(history[1..], window, t) + if t - window < history[0] <= t then 1 else 0
  }

  ghost predicate Ordered(times: seq<int>) { forall i, j :: 0 <= i < j < |times| ==> times[i] <= times[j] }

  /** The limiter's list, and every call it ever accepted. */
  datatype Key = Key(stamps: seq<int>, history: seq<int>)

  ghost function Call(k: Key, max: int, window: int, now: int): Key {
    Key(After(k.stamps, max, window, now), k.history + if Admits(k.stamps, max, window, now) then [now] else [])
  }

  ghost function Calls(times: seq<int>, max: int, window: int): Key {
    if times == [] then Key([], [])
    else Call(Calls(times[..|times| - 1], max, window), max, window, times[|times| - 1])
  }

  lemma {:induction false} PruneIsSuffix(stamps: seq<int>, cutoff: int) returns (n: nat)
    ensures n <= |stamps| && Prune(stamps, cutoff) == stamps[n..]
    ensures forall i :: 0 <= i < n ==> stamps[i] <= cutoff
    ensures n < |stamps| ==> stamps[n] > cutoff
  {
    if stamps != [] && stamps[0] <= cutoff {
      var m := PruneIsSuffix(stamps[1..], cutoff);
      n := m + 1;
      assert stamps[1..][m..] == stamps[n..];
      assert n < |stamps| ==> stamps[1..][m] == stamps[n];
      forall i | 0 <= i < n
        ensures stamps[i] <= cutoff
      {
        assert i > 0 ==> stamps[1..][i - 1] == stamps[i];
      }
    } else {
      n := 0;
    }
  }

  /** In an ordered list pruning leaves exactly what is in the window. */
  lemma {:induction false} PruneCounts(stamps: seq<int>, cutoff: int)
    requires Ordered(stamps)
    ensures |Prune(stamps, cutoff)| == Count(stamps, cutoff)
  {
    if stamps != [] {
      PruneCounts(stamps[1..], cutoff);
      if stamps[0] > cutoff {
        AllCount(stamps, cutoff);
      }
    }
  }

  lemma {:induction false} AllCount(stamps: seq<int>, cutoff: int)
    requires forall i :: 0 <= i < |stamps| ==> stamps[i] > cutoff
    ensures Count(stamps, cutoff) == |stamps|
  {
    if stamps != [] {
      AllCount(stamps[1..], cutoff);
    }
  }

  lemma {:induction false} NoneCount(stamps: seq<int>, cutoff: int)
    requires forall i :: 0 <= i < |stamps| ==> stamps[i] <= cutoff
    ensures Count(stamps, cutoff) == 0
  {
    if stamps != [] {
      NoneCount(stamps[1..], cutoff);
    }
  }

  lemma {:induction false} CountAppend(a: seq<int>, b: seq<int>, cutoff: int)
    ensures Count(a + b, cutoff) == Count(a, cutoff) + Count(b, cutoff)
  {
    if a == [] {
      assert a + b == b;
    } else {
      assert (a + b)[1..] == a[1..] + b;
      CountAppend(a[1..], b, cutoff);
    }
  }

  /** The list is the end of the history, and what was dropped had left the window at `now`. */
  ghost predicate Tracks(k: Key, window: int, now: int) {
    var dropped := |k.history| - |k.stamps|;
    0 <= dropped && k.stamps == k.history[dropped..] && forall i :: 0 <= i < dropped ==> k.history[i] <= now - window
  }

  lemma TracksCounts(k: Key, window: int, now: int)
    requires Ordered(k.history) && Tracks(k, window, now)
    ensures |Prune(k.stamps, now - window)| == Count(k.history, now - window)
  {
    var n := |k.history| - |k.stamps|;
    PruneCounts(k.stamps, now - window);
    NoneCount(k.history[..n], now - window);
    CountAppend(k.history[..n], k.stamps, now - window);
    assert k.history == k.history[..n] + k.stamps;
  }

  /** What a call drops from the list: `p` stamps, all out of its window. */
  lemma CallDrops(k: Key, max: int, window: int, now: int) returns (p: nat)
    requires |k.stamps| <= |k.history| && k.stamps == k.history[|k.history| - |k.stamps|..]
    ensures var k', d := Call(k, max, window, now), |k.history| - |k.stamps|;
      && k.history <= k'.history && |k'.history| - |k'.stamps| == d + p <= |k.history|
      && k'.stamps == k'.history[d + p..]
    ensures forall i :: |k.history| - |k.stamps| <= i < |k.history| - |k.stamps| + p ==> k.history[i] <= now - window
  {
    p := PruneIsSuffix(k.stamps, now - window);
    var d := |k.history| - |k.stamps|;
    assert k.stamps[p..] == k.history[d + p..];
    forall i | d <= i < d + p
      ensures k.history[i] <= now - window
    {
      assert k.stamps[i - d] == k.history[i];
    }
  }

  lemma CallTracks(k: Key, max: int, window: int, now: int)
    requires Tracks(k, window, now)
    ensures Tracks(Call(k, max, window, now), window, now)
  {
    var p := CallDrops(k, max, window, now);
  }

  /** What a run over an ordered clock has established by the time of its last call. */
  ghost predicate Recorded(k: Key, window: int, now: int) {
    var ordered := Ordered(k.history) && forall i :: 0 <= i < |k.history| ==> k.history[i] <= now;
    ordered && Tracks(k, window, now)
  }

  lemma CallRecords(k: Key, max: int, window: int, t: int, now: int)
    requires Recorded(k, window, t) && t <= now
    ensures Recorded(Call(k, max, window, t), window, now)
  {
    CallTracks(k, max, window, t);
  }

  lemma {:induction false} RunTracks(times: seq<int>, max: int, window: int, now: int)
    requires Ordered(times) && forall i :: 0 <= i < |times| ==> times[i] <= now
    ensures Recorded(Calls(times, max, window), window, now)
  {
    if times != [] {
      var n := |times| - 1;
      RunTracks(times[..n], max, window, times[n]);
      CallRecords(Calls(times[..n], max, window), max, window, times[n], now);
    }
  }

  /** For an ordered clock the pruned list decides as a count over everything ever accepted. */
  lemma DecidesByFullHistory(times: seq<int>, max: int, window: int, now: int)
    requires Ordered(times + [now])
    ensures var k := Calls(times, max, window);
      Admits(k.stamps, max, window, now) <==> Count(k.history, now - window) < max
  {
    forall i | 0 <= i < |times|
      ensures times[i] <= now
    {
      assert (times + [now])[i] <= (times + [now])[|times|];
    }
    assert Ordered(times) by {
      forall i, j | 0 <= i < j < |times|
        ensures times[i] <= times[j]
      {
        assert (times + [now])[i] <= (times + [now])[j];
      }
    }
    RunTracks(times, max, window, now);
    TracksCounts(Calls(times, max, window), window, now);
  }

  // ---------------------------------------------------------------- no window overflows

  lemma {:induction false} InWindowAppend(history: seq<int>, now: int, window: int, t: int)
    ensures InWindow(history + [now], window, t) ==
      InWindow(history, window, t) + if t - window < now <= t then 1 else 0
  {
    if history == [] {
      assert history + [now] == [now];
    } else {
      assert (history + [now])[1..] == history[1..] + [now];
      InWindowAppend(history[1..], now, window, t);
    }
  }

  lemma {:induction false} InWindowAtMost(history: seq<int>, window: int, t: int, cutoff: int)
    requires cutoff <= t - window
    ensures InWindow(history, window, t) <= Count(history, cutoff)
  {
    if history != [] {
      InWindowAtMost(history[1..], window, t, cutoff);
    }
  }

  /** In no window (t - window, t] does an ordered clock ever see more than `max` accepted calls. */
  lemma {:induction false} NoWindowOverfull(times: seq<int>, max: nat, window: int, t: int)
    requires Ordered(times)
    ensures InWindow(Calls(times, max, window).history, window, t) <= max
  {
    if times != [] {
      var n := |times| - 1;
      var now, k := times[n], Calls(times[..n], max, window);
      NoWindowOverfull(times[..n], max, window, t);
      RunTracks(times[..n], max, window, now);
      CallFits(k, max, window, now, t);
    }
  }

  /** In any history: if no dropped stamp is back in the window, an admitted call fits every window. */
  lemma CallFits(k: Key, max: nat, window: int, now: int, t: int)
    requires Tracks(k, window, now) && InWindow(k.history, window, t) <= max
    ensures InWindow(Call(k, max, window, now).history, window, t) <= max
  {
    if Admits(k.stamps, max, window, now) {
      InWindowAppend(k.history, now, window, t);
      if t - window < now <= t {
        InWindowAtMost(k.history, window, t, now - window);
        TracksCountsAtMost(k, window, now);
      }
    } else {
      assert k.history + [] == k.history;
    }
  }

  lemma TracksCountsAtMost(k: Key, window: int, now: int)
    requires Tracks(k, window, now)
    ensures Count(k.history, now - window) <= |Prune(k.stamps, now - window)|
  {
    var dropped := |k.history| - |k.stamps|;
    PruneKeepsCount(k.stamps, now - window);
    NoneCount(k.history[..dropped], now - window);
    CountAppend(k.history[..dropped], k.stamps, now - window);
    assert k.history == k.history[..dropped] + k.stamps;
  }

  /** Whatever the order of the list, pruning drops nothing that is in the window. */
  lemma {:induction false} PruneKeepsCount(stamps: seq<int>, cutoff: int)
    ensures Count(Prune(stamps, cutoff), cutoff) == Count(stamps, cutoff) <= |Prune(stamps, cutoff)|
  {
    if stamps != [] && stamps[0] <= cutoff {
      PruneKeepsCount(stamps[1..], cutoff);
    } else {
      CountAtMost(stamps, cutoff);
    }
  }

  lemma {:induction false} CountAtMost(stamps: seq<int>, cutoff: int)
    ensures Count(stamps, cutoff) <= |stamps|
  {
    if stamps != [] {
      CountAtMost(stamps[1..], cutoff);
    }
  }

  // ---------------------------------------------------------------- RetryAfter

  lemma {:induction false} PruneTwice(stamps: seq<int>, early: int, late: int)
    requires early <= late
    ensures Prune(Prune(stamps, early), late) == Prune(stamps, late)
  {
    if stamps != [] && stamps[0] <= early {
      PruneTwice(stamps[1..], early, late);
    }
  }

  lemma {:induction false} ListNeverOverfull(times: seq<int>, max: nat, window: int)
    ensures |Calls(times, max, window).stamps| <= max
  {
    if times != [] {
      var n := |times| - 1;
      ListNeverOverfull(times[..n], max, window);
      var _ := PruneIsSuffix(Calls(times[..n], max, window).stamps, times[n] - window);
    }
  }

  /**
   RetryAfter is tight: a call rejected now is admitted later, nothing accepted in between,
   exactly from the announced moment on.
   */
  lemma RetryIsTight(times: seq<int>, max: nat, window: int, now: int, later: int)
    requires max > 0 && now <= later && !Admits(Calls(times, max, window).stamps, max, window, now)
    ensures var stamps := Calls(times, max, window).stamps;
      && RetryAfter(stamps, window, now) > 0
      && (Admits(After(stamps, max, window, now), max, window, later) <==>
         later >= now + RetryAfter(stamps, window, now))
  {
    var stamps := Calls(times, max, window).stamps;
    ListNeverOverfull(times, max, window);
    var n := PruneIsSuffix(stamps, now - window);
    var m := PruneIsSuffix(stamps, later - window);
    PruneTwice(stamps, now - window, later - window);
    assert After(stamps, max, window, now) == Prune(stamps, now - window);
  }

  /** More rejected calls in between do not move that moment. */
  lemma RejectionsChangeNothing(stamps: seq<int>, max: int, window: int, now: int, later: int)
    requires now <= later && !Admits(stamps, max, window, now)
    ensures Prune(After(stamps, max, window, now), later - window) == Prune(stamps, later - window)
    ensures Admits(After(stamps, max, window, now), max, window, later) <==> Admits(stamps, max, window, later)
  {
    PruneTwice(stamps, now - window, later - window);
    assert After(stamps, max, window, now) == Prune(stamps, now - window);
  }

  // ---------------------------------------------------------------- clocks that run back

  /**
   Allow reads its clock before it takes the lock, so calls can be processed in any order. The
   list stays the end of the history, and what it dropped had left the window of some call.
   */
  ghost predicate Suffix(k: Key, window: int, times: seq<int>) {
    var dropped := |k.history| - |k.stamps|;
    && 0 <= dropped && k.stamps == k.history[dropped..]
    && forall i :: 0 <= i < dropped ==> GoneAt(k.history[i], window, times)
  }

  ghost predicate GoneAt(stamp: int, window: int, times: seq<int>) {
    exists m :: 0 <= m < |times| && stamp <= times[m] - window
  }

  lemma {:induction false} RunIsSuffix(times: seq<int>, max: int, window: int)
    ensures Suffix(Calls(times, max, window), window, times)
  {
    if times != [] {
      var n := |times| - 1;
      RunIsSuffix(times[..n], max, window);
      CallIsSuffix(Calls(times[..n], max, window), max, window, times);
    }
  }

  lemma CallIsSuffix(k: Key, max: int, window: int, times: seq<int>)
    requires times != [] && Suffix(k, window, times[..|times| - 1])
    ensures Suffix(Call(k, max, window, times[|times| - 1]), window, times)
  {
    var n := |times| - 1;
    var k', d := Call(k, max, window, times[n]), |k.history| - |k.stamps|;
    var p := CallDrops(k, max, window, times[n]);
    forall i | 0 <= i < d + p
      ensures GoneAt(k'.history[i], window, times)
    {
      if i < d {
        GoneStays(k.history[i], window, times);
      }
    }
  }

  lemma GoneStays(stamp: int, window: int, times: seq<int>)
    requires times != [] && GoneAt(stamp, window, times[..|times| - 1])
    ensures GoneAt(stamp, window, times)
  {
    var m :| 0 <= m < |times| - 1 && stamp <= times[..|times| - 1][m] - window;
    assert times[m] == times[..|times| - 1][m];
  }

  /** The call is admitted although some window that it falls into is full already. */
  ghost predicate Overfills(k: Key, max: int, window: int, now: int) {
    Admits(k.stamps, max, window, now) && exists t :: Full(k.history, max, window, now, t)
  }

  ghost predicate Full(history: seq<int>, max: int, window: int, now: int, t: int) {
    t - window < now <= t && InWindow(history, window, t) >= max
  }

  ghost predicate NoneOverfull(history: seq<int>, max: int, window: int) {
    forall t :: InWindow(history, window, t) <= max
  }

  /** One call, in any history: it makes a window overflow exactly if it overfills one. */
  lemma CallOverfillsExactly(k: Key, max: int, window: int, now: int)
    requires NoneOverfull(k.history, max, window)
    ensures NoneOverfull(Call(k, max, window, now).history, max, window) <==> !Overfills(k, max, window, now)
  {
    var k' := Call(k, max, window, now);
    if Admits(k.stamps, max, window, now) {
      forall t
        ensures InWindow(k'.history, window, t) > max <==> Full(k.history, max, window, now, t)
      {
        InWindowAppend(k.history, now, window, t);
        assert InWindow(k.history, window, t) <= max;
      }
    } else {
      assert k.history + [] == k.history;
    }
  }

  /** Some call of the run did. */
  ghost predicate EverOverfills(times: seq<int>, max: int, window: int) {
    times != [] &&
    (var n := |times| - 1;
     EverOverfills(times[..n], max, window) || Overfills(Calls(times[..n], max, window), max, window, times[n]))
  }

  lemma CallsGrow(k: Key, max: int, window: int, now: int, t: int)
    ensures InWindow(k.history, window, t) <= InWindow(Call(k, max, window, now).history, window, t)
  {
    InWindowAppend(k.history, now, window, t);
    assert k.history + [] == k.history;
  }

  /** A run over any clock, ordered or not: a window overflows exactly if some call overfilled one. */
  lemma {:induction false} RunOverfillsExactly(times: seq<int>, max: nat, window: int)
    ensures NoneOverfull(Calls(times, max, window).history, max, window) <==> !EverOverfills(times, max, window)
  {
    if times != [] {
      var n := |times| - 1;
      RunOverfillsExactly(times[..n], max, window);
      LaterCall(Calls(times[..n], max, window), max, window, times[n]);
    }
  }

  lemma LaterCall(k: Key, max: int, window: int, now: int)
    ensures NoneOverfull(Call(k, max, window, now).history, max, window) <==>
      NoneOverfull(k.history, max, window) && !Overfills(k, max, window, now)
  {
    if NoneOverfull(k.history, max, window) {
      CallOverfillsExactly(k, max, window, now);
    } else {
      var t :| InWindow(k.history, window, t) > max;
      CallsGrow(k, max, window, now, t);
    }
  }

  /** Only a late call can: one whose clock reading is older than that of a call processed before it. */
  lemma OnlyLateCallsOverfill(times: seq<int>, max: nat, window: int, now: int)
    requires NoneOverfull(Calls(times, max, window).history, max, window)
    requires Overfills(Calls(times, max, window), max, window, now)
    ensures exists m :: 0 <= m < |times| && times[m] > now
  {
    var k := Calls(times, max, window);
    RunIsSuffix(times, max, window);
    if forall m :: 0 <= m < |times| ==> times[m] <= now {
      assert Tracks(k, window, now) by {
        forall i | 0 <= i < |k.history| - |k.stamps|
          ensures k.history[i] <= now - window
        {
          assert GoneAt(k.history[i], window, times);
        }
      }
      forall t
        ensures InWindow(Call(k, max, window, now).history, window, t) <= max
      {
        CallFits(k, max, window, now, t);
      }
      CallOverfillsExactly(k, max, window, now);
    }
  }

  // ---------------------------------------------------------------- clocks that run back a little

  /** No reading is processed after one that is more than `delta` later. */
  ghost predicate Skewed(times: seq<int>, delta: int) {
    forall i, j :: 0 <= i < j < |times| ==> times[i] <= times[j] + delta
  }

  /** A call by a list that dropped nothing of the shorter window fits every shorter window. */
  lemma CallFitsShorter(k: Key, max: nat, window: int, shorter: int, now: int, t: int)
    requires shorter <= window && Tracks(k, shorter, now) && InWindow(k.history, shorter, t) <= max
    ensures InWindow(Call(k, max, window, now).history, shorter, t) <= max
  {
    if Admits(k.stamps, max, window, now) {
      InWindowAppend(k.history, now, shorter, t);
      if t - shorter < now <= t {
        InWindowAtMost(k.history, shorter, t, now - shorter);
        var dropped := |k.history| - |k.stamps|;
        NoneCount(k.history[..dropped], now - shorter);
        CountAppend(k.history[..dropped], k.stamps, now - shorter);
        assert k.history == k.history[..dropped] + k.stamps;
        PruneKeepsCount(k.stamps, now - window);
        CountShrinks(k.stamps, now - window, now - shorter);
      }
    } else {
      assert k.history + [] == k.history;
    }
  }

  lemma {:induction false} CountShrinks(stamps: seq<int>, early: int, late: int)
    requires early <= late
    ensures Count(stamps, late) <= Count(stamps, early)
  {
    if stamps != [] {
      CountShrinks(stamps[1..], early, late);
    }
  }

  lemma SkewedTracks(times: seq<int>, now: int, max: int, window: int, delta: int)
    requires Skewed(times + [now], delta)
    ensures Tracks(Calls(times, max, window), window - delta, now)
  {
    var k := Calls(times, max, window);
    RunIsSuffix(times, max, window);
    forall i | 0 <= i < |k.history| - |k.stamps|
      ensures k.history[i] <= now - (window - delta)
    {
      assert GoneAt(k.history[i], window, times);
      var m :| 0 <= m < |times| && k.history[i] <= times[m] - window;
      assert (times + [now])[m] <= (times + [now])[|times|] + delta;
    }
  }

  /**
   What is left of the limit when calls are processed out of order by at most `delta`: no window
   shorter by `delta` ever holds more than `max`. For an ordered clock, delta is 0.
   */
  lemma {:induction false} ShorterWindowHolds(times: seq<int>, max: nat, window: int, delta: nat, t: int)
    requires Skewed(times, delta)
    ensures InWindow(Calls(times, max, window).history, window - delta, t) <= max
  {
    if times != [] {
      var n := |times| - 1;
      assert times == times[..n] + [times[n]];
      ShorterWindowHolds(times[..n], max, window, delta, t);
      SkewedTracks(times[..n], times[n], max, window, delta);
      CallFitsShorter(Calls(times[..n], max, window), max, window, window - delta, times[n], t);
    }
  }

  /** And no longer window will do: two calls, one a window later, and one late by `delta`. */
  lemma ShorterWindowIsTight(window: int, delta: int)
    requires 1 <= delta <= window
    ensures var times := [0, 0, window, window - delta];
      && Skewed(times, delta)
      && InWindow(Calls(times, 2, window).history, window - delta + 1, window - delta) == 3
  {
    LateIsAdmitted(window, window - delta);
    ThreeInWindow(window, window - delta);
  }

  lemma LateIsAdmitted(window: int, late: int)
    requires 0 <= late < window
    ensures Calls([0, 0, window, late], 2, window).history == [0, 0, window] + [late]
  {
    TwoAndLater(window);
    AcceptedCall([0, 0, window], late, 2, window, Key([window], [0, 0, window]), [window]);
    assert [0, 0, window] + [late] == [0, 0, window, late];
  }

  /** Two calls, and one exactly a window later: the list has dropped the two. */
  lemma TwoAndLater(window: int)
    requires 0 < window
    ensures Calls([0, 0, window], 2, window) == Key([window], [0, 0, window])
  {
    AcceptedCall([], 0, 2, window, Key([], []), []);
    AcceptedCall([0], 0, 2, window, Key([0], [0]), [0]);
    assert [0] + [0] == [0, 0] && [0, 0] + [window] == [0, 0, window];
    assert Prune([0, 0], 0) == [] by {
      assert [0, 0][1..] == [0] && Prune([0], 0) == [];
    }
    AcceptedCall([0, 0], window, 2, window, Key([0, 0], [0, 0]), []);
  }

  lemma ThreeInWindow(window: int, late: int)
    requires 0 <= late < window
    ensures InWindow([0, 0, window] + [late], late + 1, late) == 3
  {
    InWindowAppend([0, 0, window], late, late + 1, late);
    InWindowAppend([0, 0], window, late + 1, late);
    InWindowAppend([0], 0, late + 1, late);
    assert [0] + [0] == [0, 0] && [0, 0] + [window] == [0, 0, window];
  }

  /**
   And when the list decides as the full history, whatever the limit and the order of the calls:
   exactly if as many dropped stamps are back in the window as expired ones are still in the list.
   */
  lemma AgreesExactly(history: seq<int>, n: nat, window: int, now: int)
    requires n <= |history|
    ensures var cutoff := now - window;
      var kept := Prune(history[n..], cutoff);
      (forall max: int :: Admits(history[n..], max, window, now) <==> Count(history, cutoff) < max)
      <==> Count(history[..n], cutoff) == |kept| - Count(kept, cutoff)
  {
    var cutoff := now - window;
    var kept := Prune(history[n..], cutoff);
    assert history == history[..n] + history[n..];
    CountAppend(history[..n], history[n..], cutoff);
    PruneKeepsCount(history[n..], cutoff);
    if Count(history, cutoff) != |kept| {
      var max := if Count(history, cutoff) < |kept| then |kept| else Count(history, cutoff);
      assert !(Admits(history[n..], max, window, now) <==> Count(history, cutoff) < max);
    }
  }

  /** And then a window can hold more than its share: three calls where two are allowed. */
  lemma BackwardClockOverfills()
    ensures InWindow(Calls([0, 1, 12, 9], 2, 10).history, 10, 9) == 3
  {
    AcceptedCall([], 0, 2, 10, Key([], []), []);
    AcceptedCall([0], 1, 2, 10, Key([0], [0]), [0]);
    assert Prune([0, 1], 2) == [] by {
      assert [0, 1][1..] == [1] && Prune([1], 2) == [];
    }
    AcceptedCall([0, 1], 12, 2, 10, Key([0, 1], [0, 1]), []);
    AcceptedCall([0, 1, 12], 9, 2, 10, Key([12], [0, 1, 12]), [12]);
    InWindowAppend([0, 1, 12], 9, 10, 9);
    InWindowAppend([0, 1], 12, 10, 9);
    InWindowAppend([0], 1, 10, 9);
    assert [0] + [1] == [0, 1] && [0, 1] + [12] == [0, 1, 12] && [0, 1, 12] + [9] == [0, 1, 12, 9];
  }

  lemma AcceptedCall(times: seq<int>, now: int, max: int, window: int, k: Key, kept: seq<int>)
    requires Calls(times, max, window) == k && Prune(k.stamps, now - window) == kept && |kept| < max
    ensures Calls(times + [now], max, window) == Key(kept + [now], k.history + [now])
  {
  }
}
