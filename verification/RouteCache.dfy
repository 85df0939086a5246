/**
 desktop-app/internal/app/trade_route.go: the client's cache of route answers, and the batch
 lookup that asks the server once for each route it does not hold.
 */
module RouteCache {
  import opened Wrappers

  datatype Query = Query(origin: int, destination: int, minSecurity: real, maxJumps: int)

  datatype Route = Route(ready: bool, jumps: int, minSecurity: real, systems: seq<int>)

  const NO_ROUTE := Route(false, 0, 0.0, [])

  datatype Entry = Entry(result: Route, expires: int)

  /** An answer of the server, and when the cache took it in. */
  datatype Served = Served(query: Query, result: Route, at: int)

  datatype Failure = InvalidBatch | RequestFailed | Mismatch

  /** The server gave `result` for `query`, and the cache took it in at `since` or later. */
  ghost predicate Answered(log: seq<Served>, query: Query, result: Route, since: int) {
    exists i :: 0 <= i < |log| && log[i].query == query && log[i].result == result && log[i].at >= since
  }

  lemma AnsweredMore(log: seq<Served>, more: seq<Served>, query: Query, result: Route, since: int)
    requires log <= more && Answered(log, query, result, since)
    ensures Answered(more, query, result, since)
  {
  }

  /** What a cached entry stands for. */
  ghost predicate Holds(e: Entry, log: seq<Served>, ttl: int, query: Query) {
    e.result.ready && Answered(log, query, e.result, e.expires - ttl)
  }

  class Client {
    const ttl: int
    const max: int
    var items: map<Query, Entry>
    var clock: int
    ghost var log: seq<Served>

    ghost predicate Valid()
      reads this
    {
      && |items| <= (if max < 1 then 1 else max)
      && forall q :: q in items ==> Holds(items[q], log, ttl, q)
    }

    constructor (ttl: int, max: int, now: int)
      ensures Valid() && this.ttl == ttl && this.max == max && items == map[] && log == [] && clock == now
    {
      this.ttl, this.max, items, clock, log := ttl, max, map[], now, [];
      new;
      assert |items| == 0;
    }

    method Now() returns (t: int)
      modifies this`clock
      ensures t == clock >= old(clock)
    {
      var passed: int := *;
      if passed > 0 {
        clock := clock + passed;
      }
      t := clock;
    }

    /** get: what it returns was answered at most `ttl` ago; an expired entry goes. */
    method Get(q: Query) returns (r: Option<Route>)
      requires Valid()
      modifies this`clock, this`items
      ensures Valid() && clock >= old(clock)
      ensures r.Some? ==> items == old(items) && q in items && r.value == items[q].result && clock <= items[q].expires
      ensures r.Some? ==> r.value.ready && Answered(log, q, r.value, clock - ttl)
      ensures r.None? ==> items == old(items) - {q} && (q in old(items) ==> old(items)[q].expires < clock)
    {
      var now := Now();
      if q !in items {
        return None;
      }
      assert Holds(items[q], log, ttl, q);
      if now > items[q].expires {
        Delete(q);
        return None;
      }
      r := Some(items[q].result);
    }

    /** The first loop of put: expired entries go. */
    method EvictExpired(now: int)
      requires Valid()
      modifies this`items
      ensures Valid() && |items| <= old(|items|) && Evicted(old(items), items, {}, now)
    {
      var keys := items.Keys;
      ghost var before := items;
      while keys != {}
        invariant Valid() && |items| <= |before| && Evicted(before, items, keys, now)
        decreases |keys|
      {
        var q := AnyOf(keys);
        EvictedOne(before, items, keys, q, now);
        if now > items[q].expires {
          Delete(q);
        }
        keys := keys - {q};
      }
    }

    method Delete(q: Query)
      requires Valid() && q in items
      modifies this`items
      ensures Valid() && items == old(items) - {q} && |items| == |old(items)| - 1
    {
      RemovedSize(items, {q});
      items := items - {q};
    }

    /** The eviction of a full cache: the expired entries, and if that is not enough any other one. */
    method MakeRoom()
      requires Valid()
      modifies this`clock, this`items
      ensures Valid() && clock >= old(clock) && Thinned(old(items), items, max)
      ensures Spares(old(items), items.Keys, clock, max)
    {
      ghost var was := items;
      if |items| >= max {
        var now := Now();
        EvictExpired(now);
        EvictedLeavesLive(was, items, now, max);
        if |items| >= max {
          DropOne();
        }
      } else {
        NothingDropped(was, clock, max);
      }
    }

    /** A range over the map that stops after deleting its first key. */
    method DropOne()
      requires Valid()
      modifies this`items
      ensures Valid() && |items| == if |old(items)| == 0 then 0 else |old(items)| - 1
      ensures items.Keys <= old(items).Keys && forall k :: k in items ==> items[k] == old(items)[k]
      ensures OneGoes(old(items).Keys, items.Keys)
    {
      if |items| > 0 {
        var k := AnyOf(items.Keys);
        Delete(k);
      }
    }

    /** put: the new entry is in, and the others stay unless the cache is full. */
    method Put(q: Query, r: Route)
      requires Valid() && r.ready
      modifies this`clock, this`items, this`log
      ensures Valid() && clock >= old(clock) && log == old(log) + [Served(q, r, clock)]
      ensures q in items && items[q] == Entry(r, clock + ttl)
      ensures OthersStay(old(items), items, q, max)
      // an entry that has not expired goes only from a cache full of such, and then it is the only one
      ensures SparesSince(old(items), items.Keys, old(clock), clock, max)
    {
      var now := RoomFor(q);
      ghost var thin := items;
      TakeEntry(q, r, now);
      EntryAdded(old(items), thin, items, q, Entry(r, now + ttl), max);
    }

    method RoomFor(q: Query) returns (now: int)
      requires Valid()
      modifies this`clock, this`items
      ensures Valid() && now == clock >= old(clock) && Thinned(old(items), items, max)
      ensures SparesSince(old(items), items.Keys + {q}, old(clock), now, max)
    {
      ghost var was, started := items, clock;
      MakeRoom();
      ghost var roomy := clock;
      now := Now();
      StillSpared(was, items.Keys, q, started, roomy, now, max);
    }

    method TakeEntry(q: Query, r: Route, now: int)
      requires Valid() && r.ready && (if max <= 0 then |items| == 0 else |items| < max)
      modifies this`items, this`log
      ensures Valid() && log == old(log) + [Served(q, r, now)] && items == old(items)[q := Entry(r, now + ttl)]
    {
      AddedSize(items, q, Entry(r, now + ttl));
      AddedHolds(items, log, ttl, q, r, now);
      log := log + [Served(q, r, now)];
      items := items[q := Entry(r, now + ttl)];
    }

    /** The request to the server; its answer is whatever it is. */
    method Ask(missing: seq<Query>) returns (r: Result<seq<Route>, ()>) {
      r := *;
    }

    /** The first loop: what the cache holds goes out, every other route is asked for once. */
    method LookUp(queries: seq<Query>) returns (out: seq<Route>, missing: seq<Query>, positions: map<Query, seq<int>>)
      requires Valid()
      modifies this`clock, this`items
      ensures Valid() && clock >= old(clock) && Sorted(queries, |queries|, out, missing, positions, log,
        old(clock) - ttl)
      ensures OnlyExpiredGo(old(items), items, clock) && NoneIsCached(old(items), missing, clock)
    {
      out := seq(|queries|, i => NO_ROUTE);
      missing, positions := [], map[];
      ghost var since, before := clock - ttl, items;
      for i := 0 to |queries|
        invariant Valid() && clock - ttl >= since
        invariant Sorted(queries, i, out, missing, positions, log, since)
        invariant OnlyExpiredGo(before, items, clock) && NoneIsCached(before, missing, clock)
      {
        ghost var was, at, had := items, clock, missing;
        out, missing, positions := LookUpOne(queries, i, out, missing, positions, since);
        StillOnlyExpired(before, was, items, had, missing, queries[i], at, clock);
      }
    }

    method LookUpOne(
      queries: seq<Query>, i: nat, out: seq<Route>, missing: seq<Query>,
      positions: map<Query, seq<int>>, ghost since: int)
      returns (out': seq<Route>, missing': seq<Query>, positions': map<Query, seq<int>>)
      requires Valid() && i < |queries| && clock - ttl >= since &&
        Sorted(queries, i, out, missing, positions, log, since)
      modifies this`clock, this`items
      ensures Valid() && clock >= old(clock) && Sorted(queries, i + 1, out', missing', positions', log, since)
      ensures OnlyExpiredGo(old(items), items, clock) && AsksIfGone(old(items), missing, missing', queries[i], clock)
    {
      out', missing', positions' := out, missing, positions;
      var q := queries[i];
      var cached := Get(q);
      if cached.Some? {
        AnsweredSince(log, q, cached.value, clock - ttl, since);
        FoundOne(queries, i, out, missing, positions, log, since, cached.value);
        out' := out[i := cached.value];
      } else {
        MissedOne(queries, i, out, missing, positions, log, since);
        if q !in positions {
          missing' := missing + [q];
        }
        positions' := positions[q := (if q in positions then positions[q] else []) + [i]];
      }
    }

    /** The second loop for one answer: it goes to every position that asked for it. */
    method Scatter(out: seq<Route>, places: seq<int>, v: Route) returns (filled: seq<Route>)
      requires forall k :: 0 <= k < |places| ==> 0 <= places[k] < |out|
      ensures |filled| == |out|
      ensures forall p :: 0 <= p < |out| ==> filled[p] == if p in places then v else out[p]
    {
      filled := out;
      for k := 0 to |places|
        invariant |filled| == |out|
        invariant forall p :: 0 <= p < |out| ==> filled[p] == if p in places[..k] then v else out[p]
      {
        filled := filled[places[k] := v];
        assert places[..k + 1] == places[..k] + [places[k]];
      }
      assert places[..|places|] == places;
    }

    /**
     SecureTradeRoutes: every route is one the cache took in at most `ttl` before the call, or
     the answer of this very request to the same query; nothing is asked for twice.
     */
    method SecureTradeRoutes(queries: seq<Query>)
      returns (r: Result<seq<Route>, Failure>, ghost missing: seq<Query>, ghost routes: seq<Route>,
        ghost reply: Result<seq<Route>, ()>)
      requires Valid()
      modifies this`clock, this`items, this`log
      ensures Valid() && clock >= old(clock)
      ensures Serves(Call(queries, old(clock) - ttl, missing, routes, r, old(log), log))
      ensures NoneIsCached(old(items), missing, clock)
      ensures Follows(Call(queries, old(clock) - ttl, missing, routes, r, old(log), log), reply)
    {
      missing, routes, reply := [], [], Success([]);
      if |queries| == 0 || |queries| > 500 {
        return Failure(InvalidBatch), missing, routes, reply;
      }
      ghost var since := clock - ttl;
      var out, asked, positions := LookUp(queries);
      missing := asked;
      if |asked| == 0 {
        StartSettled(queries, out, asked, routes, positions, log, since);
        AllAnswered(queries, out, missing, routes, positions, log, since);
        return Success(out), missing, routes, reply;
      }
      r, routes, reply := AskAll(queries, out, asked, positions, since);
    }

    /** The request for the routes that the cache does not have. */
    method AskAll(
      queries: seq<Query>, out: seq<Route>, asked: seq<Query>, positions: map<Query, seq<int>>, ghost since: int)
      returns (r: Result<seq<Route>, Failure>, ghost routes: seq<Route>, ghost reply: Result<seq<Route>, ()>)
      requires Valid() && 0 < |queries| <= 500 && asked != []
      requires Sorted(queries, |queries|, out, asked, positions, log, since)
      modifies this`clock, this`items, this`log
      ensures Valid() && clock >= old(clock)
      ensures Serves(Call(queries, since, asked, routes, r, old(log), log))
      ensures Follows(Call(queries, since, asked, routes, r, old(log), log), reply)
    {
      AskedQueried(queries, out, asked, positions, log, since);
      var answer := Ask(asked);
      routes, reply := [], answer;
      if answer.Failure? {
        return Failure(RequestFailed), routes, reply;
      }
      if |answer.value| != |asked| {
        return Failure(Mismatch), routes, reply;
      }
      routes := answer.value;
      StartSettled(queries, out, asked, routes, positions, log, since);
      var filled := Fill(queries, out, asked, answer.value, positions, since);
      r := Success(filled);
      AllAnswered(queries, filled, asked, routes, positions, old(log), since);
    }

    method TakeIn(ghost before: seq<Served>, asked: seq<Query>, routes: seq<Route>, i: nat)
      requires Valid() && i < |asked| == |routes| && LogGrows(before, log, asked, routes)
      requires AllKept(before, log, asked, routes, i)
      modifies this`clock, this`items, this`log
      ensures Valid() && clock >= old(clock) && LogGrows(before, log, asked, routes)
      ensures AllKept(before, log, asked, routes, i + 1)
    {
      ghost var was := log;
      if routes[i].ready {
        Put(asked[i], routes[i]);
        LogGrowsBy(before, log, asked, routes, i);
        assert log[|log| - 1].query == asked[i] && log[|log| - 1].result == routes[i];
      }
      KeptMore(before, was, log, asked, routes, i);
    }

    /** The second loop: ready answers are kept, and every answer is scattered. */
    method Fill(
      queries: seq<Query>, out: seq<Route>, asked: seq<Query>, routes: seq<Route>,
      positions: map<Query, seq<int>>, ghost since: int)
      returns (filled: seq<Route>)
      requires Valid() && |asked| == |routes|
      requires forall q :: q in asked ==> q in positions && PlacesOf(queries, |queries|, positions[q], q)
      requires AllSettled(queries, out, asked, routes, positions, log, since, 0)
      modifies this`clock, this`items, this`log
      ensures Valid() && clock >= old(clock)
      ensures AllSettled(queries, filled, asked, routes, positions, old(log), since, |asked|)
      ensures LogGrows(old(log), log, asked, routes) && AllKept(old(log), log, asked, routes, |asked|)
    {
      filled := out;
      ghost var before := log;
      for i := 0 to |asked|
        invariant Valid() && clock >= old(clock) && LogGrows(before, log, asked, routes)
        invariant AllKept(before, log, asked, routes, i)
        invariant AllSettled(queries, filled, asked, routes, positions, before, since, i)
      {
        TakeIn(before, asked, routes, i);
        ghost var was := filled;
        filled := Scatter(filled, positions[asked[i]], routes[i]);
        ScatteredOne(queries, was, filled, asked, routes, positions, before, since, i);
      }
    }
  }

  /** The result follows from the reply to the request, if there was one, and its ready answers were all taken in. */
  ghost predicate Follows(c: Call, reply: Result<seq<Route>, ()>) {
    var asked := 0 < |c.queries| <= 500 && c.missing != [];
    && (c.result == Failure(RequestFailed) <==> asked && reply.Failure?)
    && (c.result == Failure(Mismatch) <==> asked && reply.Success? && |reply.value| != |c.missing|)
    && (c.result.Success? && asked ==>
          reply == Success(c.routes) && AllKept(c.before, c.after, c.missing, c.routes, |c.missing|))
  }

  ghost predicate OnlyExpiredGo(before: map<Query, Entry>, items: map<Query, Entry>, now: int) {
    forall q :: q in before ==> (q in items && items[q] == before[q]) || before[q].expires < now
  }

  /** No route is asked for that the cache still has. */
  ghost predicate NoneIsCached(before: map<Query, Entry>, missing: seq<Query>, now: int) {
    forall q :: q in missing && q in before ==> before[q].expires < now
  }

  ghost predicate AsksIfGone(
    was: map<Query, Entry>, missing: seq<Query>, missing': seq<Query>, q: Query, now: int)
  {
    missing' == missing || (missing' == missing + [q] && (q in was ==> was[q].expires < now))
  }

  lemma StillOnlyExpired(
    before: map<Query, Entry>, was: map<Query, Entry>, items: map<Query, Entry>, missing: seq<Query>,
    missing': seq<Query>, q: Query, at: int, now: int)
    requires at <= now && OnlyExpiredGo(before, was, at) && OnlyExpiredGo(was, items, now)
    requires NoneIsCached(before, missing, at) && AsksIfGone(was, missing, missing', q, now)
    ensures OnlyExpiredGo(before, items, now) && NoneIsCached(before, missing', now)
  {
  }

  /** The entries that have not expired. */
  ghost function Live(items: map<Query, Entry>, now: int): set<Query> {
    set q | q in items && items[q].expires >= now
  }

  lemma LiveShrinks(items: map<Query, Entry>, early: int, late: int)
    requires early <= late
    ensures Live(items, late) <= Live(items, early) && |Live(items, late)| <= |Live(items, early)|
  {
    assert Live(items, early) == Live(items, late) + (Live(items, early) - Live(items, late));
  }

  /** There is room for one more entry, and what is left is as it was; nothing goes from a cache that is not full. */
  ghost predicate Thinned(before: map<Query, Entry>, items: map<Query, Entry>, max: int) {
    && (max > 0 ==> |items| < max) && (max <= 0 ==> |items| == 0)
    && items.Keys <= before.Keys && (forall k :: k in items ==> items[k] == before[k])
    && (|before| < max ==> items == before)
  }

  /** Nothing but the entry for `q` is new or different, and from a cache that was not full nothing has gone. */
  ghost predicate OthersStay(before: map<Query, Entry>, items: map<Query, Entry>, q: Query, max: int) {
    && (forall k :: k in items && k != q ==> k in before && items[k] == before[k])
    && (|before| < max ==> forall k :: k in before ==> k in items)
  }

  lemma EntryAdded(
    before: map<Query, Entry>, thin: map<Query, Entry>, items: map<Query, Entry>, q: Query, e: Entry, max: int)
    requires Thinned(before, thin, max) && items == thin[q := e]
    ensures OthersStay(before, items, q, max) && items.Keys == thin.Keys + {q}
  {
  }

  /** Of fewer than `max` unexpired entries all are kept, of more all but one. */
  ghost predicate Spares(before: map<Query, Entry>, kept: set<Query>, now: int, max: int) {
    && OneGoes(Live(before, now), kept)
    && (|Live(before, now)| < max ==> Live(before, now) <= kept)
  }

  /** The same across a time in which entries expire. */
  ghost predicate SparesSince(before: map<Query, Entry>, kept: set<Query>, started: int, now: int, max: int) {
    && OneGoes(Live(before, now), kept)
    && (|Live(before, started)| < max ==> Live(before, now) <= kept)
  }

  lemma NothingDropped(items: map<Query, Entry>, now: int, max: int)
    ensures Spares(items, items.Keys, now, max)
  {
  }

  lemma EvictedLeavesLive(before: map<Query, Entry>, items: map<Query, Entry>, now: int, max: int)
    requires Evicted(before, items, {}, now)
    ensures items.Keys == Live(before, now) && Spares(before, items.Keys, now, max)
  {
  }

  lemma StillSpared(
    before: map<Query, Entry>, kept: set<Query>, q: Query, started: int, roomy: int, now: int, max: int)
    requires started <= roomy <= now && Spares(before, kept, roomy, max)
    ensures SparesSince(before, kept + {q}, started, now, max)
  {
    LiveShrinks(before, started, roomy);
    LiveShrinks(before, roomy, now);
  }

  /** At most one is not kept. */
  ghost predicate OneGoes(before: set<Query>, kept: set<Query>) {
    forall a, b :: a in before && b in before && a !in kept && b !in kept ==> a == b
  }

  /** The first `n` ready answers were taken into the cache. */
  ghost predicate AllKept(log: seq<Served>, more: seq<Served>, missing: seq<Query>, routes: seq<Route>, n: nat) {
    n <= |missing| == |routes| && forall i: nat {:trigger WasKept(log, more, missing[i], routes[i])} ::
      i < n && routes[i].ready ==> WasKept(log, more, missing[i], routes[i])
  }

  ghost predicate WasKept(log: seq<Served>, more: seq<Served>, q: Query, r: Route) {
    exists k :: |log| <= k < |more| && more[k].query == q && more[k].result == r
  }

  lemma KeptMore(
    before: seq<Served>, was: seq<Served>, log: seq<Served>, asked: seq<Query>, routes: seq<Route>, i: nat)
    requires AllKept(before, was, asked, routes, i) && i < |asked| && was <= log
    requires routes[i].ready ==> WasKept(before, log, asked[i], routes[i])
    ensures AllKept(before, log, asked, routes, i + 1)
  {
    forall j: nat | j < i && routes[j].ready
      ensures WasKept(before, log, asked[j], routes[j])
    {
      assert WasKept(before, was, asked[j], routes[j]);
      var k :| |before| <= k < |was| && was[k].query == asked[j] && was[k].result == routes[j];
      assert log[k] == was[k];
    }
  }

  lemma LogGrowsBy(log: seq<Served>, more: seq<Served>, missing: seq<Query>, routes: seq<Route>, i: nat)
    requires i < |missing| == |routes| && more != [] && LogGrows(log, more[..|more| - 1], missing, routes)
    requires var last := more[|more| - 1]; last.query == missing[i] && last.result == routes[i] && routes[i].ready
    ensures LogGrows(log, more, missing, routes)
  {
    assert Replies(missing, routes, missing[i], routes[i]);
    assert forall k :: 0 <= k < |more| - 1 ==> more[..|more| - 1][k] == more[k];
  }

  /** The cache took in only ready answers of this request, each for its own query. */
  ghost predicate LogGrows(log: seq<Served>, more: seq<Served>, missing: seq<Query>, routes: seq<Route>) {
    log <= more && forall k :: |log| <= k < |more| ==>
      more[k].result.ready && Replies(missing, routes, more[k].query, more[k].result)
  }

  lemma AllAnswered(
    queries: seq<Query>, out: seq<Route>, missing: seq<Query>, routes: seq<Route>, positions: map<Query, seq<int>>,
    log: seq<Served>, since: int)
    requires AllSettled(queries, out, missing, routes, positions, log, since, |missing|)
    ensures forall p :: 0 <= p < |queries| ==>
              Answered(log, queries[p], out[p], since) || Replies(missing, routes, queries[p], out[p])
  {
    forall p | 0 <= p < |queries|
      ensures Answered(log, queries[p], out[p], since) || Replies(missing, routes, queries[p], out[p])
    {
      assert Settled(queries, out, missing, routes, positions, log, since, |missing|, p);
    }
  }

  /** The cache once all but `keys` were looked at: what is left is unchanged, and what went had expired. */
  ghost predicate Evicted(before: map<Query, Entry>, items: map<Query, Entry>, keys: set<Query>, now: int) {
    && keys <= items.Keys <= before.Keys
    && (forall q :: q in items ==> items[q] == before[q] && (q !in keys ==> items[q].expires >= now))
    && (forall q :: q in before && before[q].expires >= now ==> q in items)
  }

  lemma EvictedOne(before: map<Query, Entry>, items: map<Query, Entry>, keys: set<Query>, q: Query, now: int)
    requires Evicted(before, items, keys, now) && q in keys
    ensures Evicted(before, if now > items[q].expires then items - {q} else items, keys - {q}, now)
  {
  }

  ghost predicate Distinct(qs: seq<Query>) { forall i, j :: 0 <= i < j < |qs| ==> qs[i] != qs[j] }

  /** `v` is the server's answer to the query in this request. */
  ghost predicate Replies(missing: seq<Query>, routes: seq<Route>, q: Query, v: Route) {
    exists m :: 0 <= m < |missing| && m < |routes| && missing[m] == q && routes[m] == v
  }

  /** Query `p` was answered from the cache, or it waits among the positions of its route. */
  ghost predicate Placed(
    queries: seq<Query>, out: seq<Route>, positions: map<Query, seq<int>>, log: seq<Served>, since: int, p: nat)
    requires p < |queries| == |out|
  {
    (queries[p] in positions && p in positions[queries[p]]) || Answered(log, queries[p], out[p], since)
  }

  /** The state of the first loop after `n` queries. */
  ghost predicate Sorted(
    queries: seq<Query>, n: nat, out: seq<Route>, missing: seq<Query>,
    positions: map<Query, seq<int>>, log: seq<Served>, since: int)
  {
    && |out| == |queries| && n <= |queries|
    && (forall p: nat {:trigger Placed(queries, out, positions, log, since, p)} :: p < n ==>
       Placed(queries, out, positions, log, since, p))
    && Distinct(missing) && |missing| <= n && (forall q :: q in missing <==> q in positions)
    && (forall q {:trigger positions[q]} :: q in positions ==> PlacesOf(queries, n, positions[q], q))
  }

  ghost predicate PlacesOf(queries: seq<Query>, n: nat, places: seq<int>, q: Query)
    requires n <= |queries|
  {
    places != [] && forall k :: 0 <= k < |places| ==> 0 <= places[k] < n && queries[places[k]] == q
  }

  /** Query `p` while the answers are scattered, the first `i` of them done. */
  ghost predicate Settled(
    queries: seq<Query>, out: seq<Route>, missing: seq<Query>, routes: seq<Route>, positions: map<Query, seq<int>>,
    log: seq<Served>, since: int, i: nat, p: nat)
    requires p < |queries| == |out|
  {
    || Answered(log, queries[p], out[p], since) || Replies(missing, routes, queries[p], out[p])
    || Waits(queries[p], missing, positions, i, p)
  }

  ghost predicate Waits(q: Query, missing: seq<Query>, positions: map<Query, seq<int>>, i: nat, p: nat) {
    q in positions && p in positions[q] && exists m :: i <= m < |missing| && missing[m] == q
  }

  ghost predicate AllSettled(
    queries: seq<Query>, out: seq<Route>, missing: seq<Query>, routes: seq<Route>, positions: map<Query, seq<int>>,
    log: seq<Served>, since: int, i: nat)
  {
    |out| == |queries| &&
    forall p: nat {:trigger Settled(queries, out, missing, routes, positions, log, since, i, p)} ::
      p < |queries| ==> Settled(queries, out, missing, routes, positions, log, since, i, p)
  }

  lemma ScatteredOne(
    queries: seq<Query>, was: seq<Route>, out: seq<Route>, missing: seq<Query>, routes: seq<Route>,
    positions: map<Query, seq<int>>, log: seq<Served>, since: int, i: nat)
    requires AllSettled(queries, was, missing, routes, positions, log, since, i)
    requires i < |missing| == |routes| && missing[i] in positions && |out| == |was|
    requires PlacesOf(queries, |queries|, positions[missing[i]], missing[i])
    requires forall p :: 0 <= p < |out| ==> out[p] == if p in positions[missing[i]] then routes[i] else was[p]
    ensures AllSettled(queries, out, missing, routes, positions, log, since, i + 1)
  {
    var next := i + 1;
    forall p: nat | p < |queries|
      ensures Settled(queries, out, missing, routes, positions, log, since, next, p)
    {
      assert Settled(queries, was, missing, routes, positions, log, since, i, p);
      if p in positions[missing[i]] {
        assert queries[p] == missing[i];
        assert Replies(missing, routes, queries[p], out[p]);
      } else if Waits(queries[p], missing, positions, i, p) {
        var m :| i <= m < |missing| && missing[m] == queries[p];
        assert m != i;
      }
    }
  }

  lemma AnsweredSince(log: seq<Served>, q: Query, r: Route, late: int, early: int)
    requires early <= late && Answered(log, q, r, late)
    ensures Answered(log, q, r, early)
  {
  }

  lemma FoundOne(
    queries: seq<Query>, n: nat, out: seq<Route>, missing: seq<Query>,
    positions: map<Query, seq<int>>, log: seq<Served>,
    since: int, v: Route)
    requires Sorted(queries, n, out, missing, positions, log, since) && n < |queries|
    requires Answered(log, queries[n], v, since)
    ensures Sorted(queries, n + 1, out[n := v], missing, positions, log, since)
  {
    var more, out' := n + 1, out[n := v];
    forall p: nat | p < more
      ensures Placed(queries, out', positions, log, since, p)
    {
      assert p < n ==> Placed(queries, out, positions, log, since, p);
    }
  }

  lemma MissedOne(
    queries: seq<Query>, n: nat, out: seq<Route>, missing: seq<Query>,
    positions: map<Query, seq<int>>, log: seq<Served>,
    since: int)
    requires Sorted(queries, n, out, missing, positions, log, since) && n < |queries|
    ensures var q := queries[n];
      var places := (if q in positions then positions[q] else []) + [n];
      Sorted(queries, n + 1, out, if q in positions then missing else missing + [q], positions[q := places], log, since)
  {
    var q := queries[n];
    var places := (if q in positions then positions[q] else []) + [n];
    var more, positions' := n + 1, positions[q := places];
    forall p: nat | p < more
      ensures Placed(queries, out, positions', log, since, p)
    {
      PlacedMore(queries, n, out, positions, places, log, since, p);
    }
    forall k | k in positions'
      ensures PlacesOf(queries, more, positions'[k], k)
    {
      assert k in positions ==> PlacesOf(queries, n, positions[k], k);
    }
  }

  lemma PlacedMore(
    queries: seq<Query>, n: nat, out: seq<Route>, positions: map<Query, seq<int>>, places: seq<int>, log: seq<Served>,
    since: int, p: nat)
    requires p <= n < |queries| == |out| && (p < n ==> Placed(queries, out, positions, log, since, p))
    requires places == (if queries[n] in positions then positions[queries[n]] else []) + [n]
    ensures Placed(queries, out, positions[queries[n] := places], log, since, p)
  {
    assert places[|places| - 1] == n;
  }

  /** What is asked for was queried, each route once. */
  lemma AskedQueried(
    queries: seq<Query>, out: seq<Route>, missing: seq<Query>,
    positions: map<Query, seq<int>>, log: seq<Served>, since: int)
    requires Sorted(queries, |queries|, out, missing, positions, log, since)
    ensures forall q :: q in missing ==> q in queries && q in positions && PlacesOf(queries, |queries|, positions[q], q)
  {
    forall q | q in missing
      ensures q in queries
    {
      assert PlacesOf(queries, |queries|, positions[q], q);
      assert queries[positions[q][0]] == q;
    }
  }

  lemma StartSettled(
    queries: seq<Query>, out: seq<Route>, missing: seq<Query>, routes: seq<Route>, positions: map<Query, seq<int>>,
    log: seq<Served>, since: int)
    requires Sorted(queries, |queries|, out, missing, positions, log, since)
    ensures AllSettled(queries, out, missing, routes, positions, log, since, 0)
  {
    forall p: nat | p < |queries|
      ensures Settled(queries, out, missing, routes, positions, log, since, 0, p)
    {
      assert Placed(queries, out, positions, log, since, p);
      if queries[p] in positions && p in positions[queries[p]] {
        assert queries[p] in missing;
        assert Waits(queries[p], missing, positions, 0, p);
      }
    }
  }

  /** One call of SecureTradeRoutes: what it asked the server for, what it got and gave, and the log around it. */
  datatype Call = Call(
    queries: seq<Query>, since: int, missing: seq<Query>, routes: seq<Route>, result: Result<seq<Route>, Failure>,
    before: seq<Served>, after: seq<Served>)

  /** What every call guarantees. */
  ghost predicate Serves(c: Call) {
    var asked := Distinct(c.missing) && |c.missing| <= |c.queries| && forall q :: q in c.missing ==> q in c.queries;
    && (c.result == Failure(InvalidBatch) <==> |c.queries| == 0 || |c.queries| > 500)
    && asked && LogGrows(c.before, c.after, c.missing, c.routes) && (c.result.Failure? ==> c.after == c.before)
    && (c.result.Success? ==>
          && |c.result.value| == |c.queries| && |c.routes| == |c.missing|
          && forall p :: 0 <= p < |c.queries| ==> FromCacheOrServer(c, c.queries[p], c.result.value[p]))
  }

  ghost predicate FromCacheOrServer(c: Call, q: Query, v: Route) {
    Answered(c.before, q, v, c.since) || Replies(c.missing, c.routes, q, v)
  }

  /** The calls follow one another on one cache; in between the log stays as it is. */
  ghost predicate InTurn(calls: seq<Call>, log: seq<Served>) {
    calls == [] || (calls[0].before == log && Serves(calls[0]) && InTurn(calls[1..], calls[0].after))
  }

  ghost predicate Agrees(server: Query -> Route, log: seq<Served>) {
    forall i :: 0 <= i < |log| ==> log[i].result == server(log[i].query)
  }

  /** The server's replies in one request are its answers. */
  ghost predicate Steady(server: Query -> Route, c: Call) {
    forall m :: 0 <= m < |c.missing| && m < |c.routes| ==> c.routes[m] == server(c.missing[m])
  }

  lemma CallAgrees(server: Query -> Route, c: Call)
    requires Serves(c) && Agrees(server, c.before) && Steady(server, c)
    ensures Agrees(server, c.after)
    ensures c.result.Success? ==> forall p :: 0 <= p < |c.queries| ==> c.result.value[p] == server(c.queries[p])
  {
    forall i | 0 <= i < |c.after|
      ensures c.after[i].result == server(c.after[i].query)
    {
      assert i < |c.before| ==> c.after[i] == c.before[i];
    }
    if c.result.Success? {
      forall p | 0 <= p < |c.queries|
        ensures c.result.value[p] == server(c.queries[p])
      {
        assert FromCacheOrServer(c, c.queries[p], c.result.value[p]);
      }
    }
  }

  /**
   Any number of calls on a cache that starts empty: if the server's answers do not change, every
   batch answers each of its queries as if that had been asked alone, whatever was cached meanwhile.
   */
  lemma {:induction false} AsIfAskedAlone(server: Query -> Route, calls: seq<Call>, log: seq<Served>)
    requires InTurn(calls, log) && Agrees(server, log) && forall c :: c in calls ==> Steady(server, c)
    ensures forall c, p :: c in calls && c.result.Success? && 0 <= p < |c.queries| == |c.result.value| ==>
              c.result.value[p] == server(c.queries[p])
  {
    if calls != [] {
      assert calls[0] in calls;
      CallAgrees(server, calls[0]);
      AsIfAskedAlone(server, calls[1..], calls[0].after);
      assert calls == [calls[0]] + calls[1..];
    }
  }

  lemma AddedHolds(items: map<Query, Entry>, log: seq<Served>, ttl: int, q: Query, r: Route, now: int)
    requires r.ready && forall k :: k in items ==> Holds(items[k], log, ttl, k)
    ensures var items', more := items[q := Entry(r, now + ttl)], log + [Served(q, r, now)];
      forall k :: k in items' ==> Holds(items'[k], more, ttl, k)
  {
    var more := log + [Served(q, r, now)];
    assert more[|log|] == Served(q, r, now);
    forall k | k in items
      ensures Holds(items[k], more, ttl, k)
    {
      AnsweredMore(log, more, k, items[k].result, items[k].expires - ttl);
    }
  }

  lemma RemovedSize(items: map<Query, Entry>, keys: set<Query>)
    ensures |items - keys| <= |items|
    ensures keys <= items.Keys ==> |items - keys| == |items| - |keys|
  {
  }

  lemma AddedSize(items: map<Query, Entry>, q: Query, e: Entry)
    ensures |items[q := e]| <= |items| + 1
  {
  }
}
