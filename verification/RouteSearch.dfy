/**
 desktop-app/internal/evesde/route.go: `Route` and `summarizeRoute`, with their loops
 over the `costs`, `prev` and `visited` maps. Ranging over a Go map is modelled by
 picking any key not yet picked, so every iteration order is covered.
 */
module RouteSearch {
  import opened Wrappers
  import opened RouteGraph

  datatype RouteError = NonPositiveId | UnsupportedMode | SystemNotFound | NoRoute

  datatype RouteResult =
    RouteResult(systems: seq<System>, jumps: int, minSecurity: real, lowSecCount: int, nullSecCount: int)

  // ---------------------------------------------------------------- what Route promises

  /** The summary of a walk: its systems, its lowest security and the three parts of its cost. */
  ghost predicate Summarizes(r: RouteResult, q: Query, path: seq<int>)
    requires q.Walk(path)
  {
    && |r.systems| == |path|
    && (forall i :: 0 <= i < |path| ==> path[i] in q.galaxy.systems && r.systems[i] == q.galaxy.systems[path[i]])
    && Tallies(r, q.CostOf(path))
    && LowestSecurity(r.systems, r.minSecurity)
  }

  ghost predicate Tallies(r: RouteResult, c: Cost) {
    r.nullSecCount == c.nullSec && r.lowSecCount == c.lowSec && r.jumps == c.jumps
  }

  ghost predicate LowestSecurity(systems: seq<System>, low: real) {
    && (forall s :: s in systems ==> low <= s.security)
    && (exists s :: s in systems && s.security == low)
  }

  /** The one answer to a query between known systems. */
  ghost predicate Answers(r: Result<RouteResult, RouteError>, q: Query, destination: int) {
    match r
    case Failure(e) => e == NoRoute && forall w :: !q.WalkTo(w, destination)
    case Success(v) => exists path :: q.Canonical(path) && q.WalkTo(path, destination) && Summarizes(v, q, path)
  }

  /** Whatever order the maps were ranged over in, two runs give the same result. */
  lemma RouteIsDeterministic(
    q: Query, destination: int, a: Result<RouteResult, RouteError>, b: Result<RouteResult, RouteError>)
    requires Answers(a, q, destination) && Answers(b, q, destination)
    ensures a == b
  {
    if a.Success? && b.Success? {
      var x :| q.Canonical(x) && q.WalkTo(x, destination) && Summarizes(a.value, q, x);
      var y :| q.Canonical(y) && q.WalkTo(y, destination) && Summarizes(b.value, q, y);
      CanonicalIsUnique(q, x, y);
      SummaryIsUnique(q, x, a.value, b.value);
    }
  }

  lemma SummaryIsUnique(q: Query, path: seq<int>, a: RouteResult, b: RouteResult)
    requires q.Walk(path) && Summarizes(a, q, path) && Summarizes(b, q, path)
    ensures a == b
  {
  }

  // ---------------------------------------------------------------- the state of the search

  /** `prev` is a tree of gates from the origin over visited systems, and `costs` adds up along it. */
  ghost predicate Tree(q: Query, costs: map<int, Cost>, prev: map<int, int>, visited: set<int>) {
    && q.origin in costs && costs[q.origin] == FREE
    && prev.Keys == costs.Keys - {q.origin}
    && visited <= costs.Keys <= q.galaxy.systems.Keys
    && forall v :: v in prev ==>
         prev[v] in visited && q.Gate(prev[v], v) && costs[v] == q.Enter(costs[prev[v]], v)
  }

  /** The gate from `u` to `v` offers nothing better, and on a tie no smaller predecessor. */
  ghost predicate Relaxed(q: Query, costs: map<int, Cost>, prev: map<int, int>, u: int, v: int)
    requires u in costs && v in q.galaxy.systems
  {
    && v in costs
    && !q.Less(q.Enter(costs[u], v), costs[v])
    && (q.Same(q.Enter(costs[u], v), costs[v]) ==> v in prev && prev[v] <= u)
  }

  /** Visited systems are no dearer than the others. */
  ghost predicate Ordered(q: Query, costs: map<int, Cost>, visited: set<int>) {
    forall u, v :: u in visited && u in costs && v in costs && v !in visited ==> !q.Less(costs[v], costs[u])
  }

  ghost predicate Search(q: Query, costs: map<int, Cost>, prev: map<int, int>, visited: set<int>) {
    && Tree(q, costs, prev, visited)
    && Ordered(q, costs, visited)
    && forall u, v :: u in visited && q.Gate(u, v) ==> Relaxed(q, costs, prev, u, v)
  }

  /** As `Search`, while the gates of the newest visited system `cur` are relaxed up to `next[..i]`. */
  ghost predicate Relaxing(
    q: Query, costs: map<int, Cost>, prev: map<int, int>, visited: set<int>, cur: int, next: seq<int>, i: nat)
    requires i <= |next|
  {
    && Tree(q, costs, prev, visited)
    && Ordered(q, costs, visited)
    && cur in visited
    && (forall u :: u in visited ==> !q.Less(costs[cur], costs[u]))
    && forall u, v :: u in visited && q.Gate(u, v) && (u == cur ==> v in next[..i]) ==> Relaxed(q, costs, prev, u, v)
  }

  /** The route read off `prev`. */
  ghost function Trace(
    q: Query, costs: map<int, Cost>, prev: map<int, int>, visited: set<int>, v: int): (path: seq<int>)
    requires Tree(q, costs, prev, visited) && v in costs
    ensures q.WalkTo(path, v) && q.CostOf(path) == costs[v] && |path| == costs[v].jumps + 1
    decreases costs[v].jumps
  {
    if v == q.origin then [v]
    else
      var path := Trace(q, costs, prev, visited, prev[v]);
      assert (path + [v])[..|path|] == path;
      path + [v]
  }

  /** Every walk either ends in a visited system that costs no more, or passes the frontier. */
  lemma {:induction false} WalkMeetsFrontier(
    q: Query, costs: map<int, Cost>, prev: map<int, int>, visited: set<int>, w: seq<int>)
    requires Search(q, costs, prev, visited) && q.Walk(w)
    ensures || (w[|w| - 1] in visited && !q.Less(q.CostOf(w), costs[w[|w| - 1]]))
            || exists y :: y in costs && y !in visited && !q.Less(q.CostOf(w), costs[y])
    decreases |w|
  {
    if |w| == 1 {
      if q.origin !in visited {
        assert !q.Less(q.CostOf(w), costs[q.origin]);
      }
    } else {
      var p, v := w[..|w| - 1], w[|w| - 1];
      WalkMeetsFrontier(q, costs, prev, visited, p);
      if p[|p| - 1] in visited && !q.Less(q.CostOf(p), costs[p[|p| - 1]]) {
        assert Relaxed(q, costs, prev, p[|p| - 1], v);
        assert !q.Less(q.CostOf(w), costs[v]);
      } else {
        var y :| y in costs && y !in visited && !q.Less(q.CostOf(p), costs[y]);
        assert !q.Less(q.CostOf(w), costs[y]);
      }
    }
  }

  /** Once nothing unvisited is cheaper than `v`, the tree's route to `v` is the canonical one. */
  lemma {:induction false} TraceIsCanonical(
    q: Query, costs: map<int, Cost>, prev: map<int, int>, visited: set<int>, v: int)
    requires Search(q, costs, prev, visited) && v in costs
    requires forall y :: y in costs && y !in visited ==> !q.Less(costs[y], costs[v])
    ensures q.Canonical(Trace(q, costs, prev, visited, v))
    decreases costs[v].jumps
  {
    var path := Trace(q, costs, prev, visited, v);
    forall x | q.WalkTo(x, v)
      ensures !q.Less(q.CostOf(x), q.CostOf(path))
    {
      WalkMeetsFrontier(q, costs, prev, visited, x);
    }
    assert q.Optimal(path);
    if v != q.origin {
      var u := prev[v];
      TraceIsCanonical(q, costs, prev, visited, u);
      assert path[..|path| - 1] == Trace(q, costs, prev, visited, u);
      forall x | q.Optimal(x) && |x| > 1 && x[|x| - 1] == v
        ensures u <= x[|x| - 2]
      {
        SmallestPredecessor(q, costs, prev, visited, v, x);
      }
    }
  }

  lemma SmallestPredecessor(
    q: Query, costs: map<int, Cost>, prev: map<int, int>, visited: set<int>, v: int, x: seq<int>)
    requires Search(q, costs, prev, visited) && v in prev
    requires forall y :: y in costs && y !in visited ==> !q.Less(costs[y], costs[v])
    requires q.Optimal(x) && |x| > 1 && x[|x| - 1] == v
    ensures prev[v] <= x[|x| - 2]
  {
    var p := x[..|x| - 1];
    var u := p[|p| - 1];
    var path := Trace(q, costs, prev, visited, v);
    assert !q.Less(costs[v], q.CostOf(x));
    WalkMeetsFrontier(q, costs, prev, visited, p);
    if y :| y in costs && y !in visited && !q.Less(q.CostOf(p), costs[y]) {
      assert q.Less(q.CostOf(p), q.CostOf(x));
      assert false;
    } else {
      assert Relaxed(q, costs, prev, u, v);
      assert !q.Less(q.CostOf(x), q.Enter(costs[u], v));
    }
  }

  /** Writing a better cost, or an equal one through a smaller predecessor, keeps all that was relaxed. */
  lemma ImproveKeepsRelaxing(
    q: Query, costs: map<int, Cost>, prev: map<int, int>, visited: set<int>, cur: int, next: seq<int>, i: nat)
    requires i < |next| && Relaxing(q, costs, prev, visited, cur, next, i)
    requires q.Gate(cur, next[i])
    requires var v := next[i]; var nc := q.Enter(costs[cur], v);
      v in costs ==> q.Less(nc, costs[v]) || (q.Same(nc, costs[v]) && cur < if v in prev then prev[v] else 0)
    ensures var v := next[i]; var nc := q.Enter(costs[cur], v);
      Relaxing(q, costs[v := nc], prev[v := cur], visited, cur, next, i + 1)
  {
  }

  // ---------------------------------------------------------------- the code

  method AdjacencyOf(gates: seq<(int, int)>) returns (adj: map<int, seq<int>>)
    ensures forall a, b :: (a, b) in gates <==> a in adj && b in adj[a]
  {
    adj := map[];
    for i := 0 to |gates|
      invariant forall a, b :: (a, b) in gates[..i] <==> a in adj && b in adj[a]
    {
      var (a, b) := gates[i];
      adj := adj[a := (if a in adj then adj[a] else []) + [b]];
      assert gates[..i + 1] == gates[..i] + [gates[i]];
    }
  }

  /** The unvisited system of least cost, smallest ID first; 0 when there is none. */
  method SelectNext(costs: map<int, Cost>, visited: set<int>, mode: Mode) returns (cur: int)
    requires forall id :: id in costs ==> 0 < id
    ensures cur == 0 <==> costs.Keys <= visited
    ensures cur != 0 ==> cur in costs && cur !in visited
    ensures cur != 0 ==> forall id :: id in costs && id !in visited ==>
              !costs[id].Less(costs[cur], mode) && (costs[id].EqualPriority(costs[cur], mode) ==> cur <= id)
  {
    cur := 0;
    var ids := costs.Keys;
    while ids != {}
      invariant ids <= costs.Keys
      invariant cur == 0 <==> costs.Keys - ids <= visited
      invariant cur != 0 ==> cur in costs && cur !in visited
      invariant cur != 0 ==> forall id :: id in costs && id !in visited && id !in ids ==>
                  !costs[id].Less(costs[cur], mode) && (costs[id].EqualPriority(costs[cur], mode) ==> cur <= id)
    {
      var id := AnyOf(ids);
      if id !in visited {
        if cur == 0
           || costs[id].Less(costs[cur], mode)
           || (costs[id].EqualPriority(costs[cur], mode) && id < cur) {
          cur := id;
        }
      }
      ids := ids - {id};
    }
  }

  /** One pass over the gates out of `cur`, the system just visited. */
  method RelaxGates(
    q: Query, costs0: map<int, Cost>, prev0: map<int, int>, visited: set<int>, cur: int, next: seq<int>)
    returns (costs: map<int, Cost>, prev: map<int, int>)
    requires Relaxing(q, costs0, prev0, visited, cur, next, 0)
    requires forall v :: (cur, v) in q.galaxy.gates <==> v in next
    ensures Search(q, costs, prev, visited)
    ensures costs.Keys <= costs0.Keys + (set v | v in next)
  {
    costs, prev := costs0, prev0;
    for i := 0 to |next|
      invariant Relaxing(q, costs, prev, visited, cur, next, i)
      invariant costs.Keys <= costs0.Keys + (set v | v in next)
      invariant costs[cur] == costs0[cur]
    {
      var v := next[i];
      assert next[..i + 1] == next[..i] + [v];
      if v in q.galaxy.systems {
        var s := q.galaxy.systems[v];
        if !(q.floor.Some? && s.security < q.floor.value) {
          var nc := costs[cur].Enter(s.security);
          if v !in costs || nc.Less(costs[v], q.mode)
             || (nc.EqualPriority(costs[v], q.mode) && cur < if v in prev then prev[v] else 0) {
            ImproveKeepsRelaxing(q, costs, prev, visited, cur, next, i);
            costs, prev := costs[v := nc], prev[v := cur];
          }
        }
      }
    }
  }

  method Summarize(ghost q: Query, ghost ids: seq<int>, path: seq<System>) returns (r: RouteResult)
    requires q.Walk(ids) && |path| == |ids|
    requires forall i :: 0 <= i < |ids| ==> ids[i] in q.galaxy.systems && path[i] == q.galaxy.systems[ids[i]]
    ensures r.systems == path && Summarizes(r, q, ids)
  {
    var low, nullCount, lowCount := path[0].security, 0, 0;
    for i := 0 to |path|
      invariant i > 0 ==> q.Walk(ids[..i]) && Cost(nullCount, lowCount, i - 1) == q.CostOf(ids[..i])
      invariant i == 0 ==> nullCount == lowCount == 0
      invariant exists s :: s in path && s.security == low
      invariant forall k :: 0 <= k < i ==> low <= path[k].security
    {
      var s := path[i];
      PrefixIsWalk(q, ids, i + 1);
      assert i > 0 ==> ids[..i + 1][..i] == ids[..i];
      if s.security < low {
        low := s.security;
      }
      if i > 0 {
        if s.security < 0.0 {
          nullCount := nullCount + 1;
        } else if s.security < 0.5 {
          lowCount := lowCount + 1;
        }
      }
    }
    assert ids[..|path|] == ids;
    r := RouteResult(path, |path| - 1, low, lowCount, nullCount);
  }

  lemma {:induction false} PrefixIsWalk(q: Query, w: seq<int>, n: nat)
    requires q.Walk(w) && 0 < n <= |w|
    ensures q.Walk(w[..n])
    decreases |w|
  {
    if n < |w| {
      PrefixIsWalk(q, w[..|w| - 1], n);
      assert w[..|w| - 1][..n] == w[..n];
    } else {
      assert w[..n] == w;
    }
  }

  /** The walk of `prev` links back from the destination. */
  method FollowBack(
    q: Query, destination: int, ghost costs: map<int, Cost>, prev: map<int, int>, ghost visited: set<int>)
    returns (ids: seq<int>)
    requires Tree(q, costs, prev, visited) && destination in costs
    ensures forall i :: 0 <= i < |ids| ==> ids[i] in q.galaxy.systems
    ensures Reversed(ids) == Trace(q, costs, prev, visited, destination)
  {
    ghost var route := Trace(q, costs, prev, visited, destination);
    ids := [destination];
    TraceLinks(q, costs, prev, visited, destination, |route| - 1);
    while ids[|ids| - 1] != q.origin
      invariant 0 < |ids| <= |route|
      invariant forall i :: 0 <= i < |ids| ==> ids[i] in q.galaxy.systems && ids[i] == route[|route| - 1 - i]
      decreases |route| - |ids|
    {
      TraceLinks(q, costs, prev, visited, destination, |route| - |ids|);
      // The lookup cannot miss: every system but the origin has a predecessor.
      var p := prev[ids[|ids| - 1]];
      ids := ids + [p];
    }
    TraceLinks(q, costs, prev, visited, destination, |route| - |ids|);
    assert Reversed(ids) == route;
  }

  /** Along the traced route the costs count the jumps and `prev` leads one step back. */
  lemma {:induction false} TraceLinks(
    q: Query, costs: map<int, Cost>, prev: map<int, int>, visited: set<int>, v: int, k: nat)
    requires Tree(q, costs, prev, visited) && v in costs
    requires k < |Trace(q, costs, prev, visited, v)|
    ensures var route := Trace(q, costs, prev, visited, v);
      && route[k] in costs && costs[route[k]].jumps == k
      && (k > 0 ==> route[k] in prev && prev[route[k]] == route[k - 1] && route[k - 1] in costs)
    decreases costs[v].jumps
  {
    if v != q.origin {
      TraceLinks(q, costs, prev, visited, prev[v], if k < costs[v].jumps then k else k - 1);
    }
  }

  ghost function Reversed(s: seq<int>): seq<int> {
    seq(|s|, i requires 0 <= i < |s| => s[|s| - 1 - i])
  }

  /** The systems of `ids`, last one first. */
  method SystemsBackwards(galaxy: Galaxy, ids: seq<int>) returns (path: seq<System>)
    requires forall i :: 0 <= i < |ids| ==> ids[i] in galaxy.systems
    ensures |path| == |ids| && forall i :: 0 <= i < |ids| ==> path[i] == galaxy.systems[Reversed(ids)[i]]
  {
    var filled := new System[|ids|];
    for i := 0 to |ids|
      invariant forall k :: |ids| - i <= k < |ids| ==> filled[k] == galaxy.systems[ids[|ids| - 1 - k]]
    {
      filled[|ids| - 1 - i] := galaxy.systems[ids[i]];
    }
    path := filled[..];
  }

  ghost predicate Searched(galaxy: Galaxy, origin: int, destination: int, modeName: string) {
    && 0 < origin && 0 < destination && ModeOf(modeName) != None
    && origin in galaxy.systems && destination in galaxy.systems
  }

  method Route(galaxy: Galaxy, origin: int, destination: int, modeName: string, floor: Option<real>)
    returns (r: Result<RouteResult, RouteError>)
    requires galaxy.WellFormed()
    ensures origin <= 0 || destination <= 0 ==> r == Failure(NonPositiveId)
    ensures 0 < origin && 0 < destination ==>
              if ModeOf(modeName) == None then r == Failure(UnsupportedMode)
              else if origin !in galaxy.systems || destination !in galaxy.systems then r == Failure(SystemNotFound)
              else Answers(r, Query(galaxy, origin, ModeOf(modeName).value, floor), destination)
    // a route is found exactly when a walk exists, and no walk beats its reported figures
    ensures Searched(galaxy, origin, destination, modeName) ==>
              var q := Query(galaxy, origin, ModeOf(modeName).value, floor);
              (r.Success? <==> exists w :: q.WalkTo(w, destination))
    ensures Searched(galaxy, origin, destination, modeName) && r.Success? ==>
              var q := Query(galaxy, origin, ModeOf(modeName).value, floor);
              forall w :: q.WalkTo(w, destination) ==>
                !q.Less(q.CostOf(w), Cost(r.value.nullSecCount, r.value.lowSecCount, r.value.jumps))
    // and the same for the names of the modes, counting systems on paths
    ensures r == Failure(UnsupportedMode) <==>
              0 < origin && 0 < destination && modeName !in {"", "shortest", "safest"}
    ensures r == Failure(NoRoute) ==> forall w :: !Path(galaxy, origin, destination, floor, w)
    ensures r.Success? ==> Reports(r.value, galaxy, origin, destination, floor)
    ensures r.Success? && modeName == "safest" ==> forall w :: Path(galaxy, origin, destination, floor, w) ==>
              NotSafer(|NullSec(galaxy, w)|, |LowSec(galaxy, w)|, |w| - 1, r.value)
    ensures r.Success? && modeName != "safest" ==> forall w :: Path(galaxy, origin, destination, floor, w) ==>
              r.value.jumps <= |w| - 1
  {
    if origin <= 0 || destination <= 0 {
      return Failure(NonPositiveId);
    }
    var named := ModeOf(modeName);
    if named == None {
      return Failure(UnsupportedMode);
    }
    if origin !in galaxy.systems || destination !in galaxy.systems {
      return Failure(SystemNotFound);
    }
    var q := Query(galaxy, origin, named.value, floor);
    r := RouteBetween(q, destination);
    AnswersDecide(r, q, destination);
    AnswersArePaths(r, q, destination);
  }

  /** The answer is a path from end to end, with its lowest security and the counts of what it enters. */
  ghost predicate Reports(r: RouteResult, g: Galaxy, origin: int, destination: int, floor: Option<real>) {
    && LowestSecurity(r.systems, r.minSecurity)
    && exists w :: IsReportOf(r, g, w) && Path(g, origin, destination, floor, w)
  }

  ghost predicate IsReportOf(r: RouteResult, g: Galaxy, w: seq<int>) {
    && |r.systems| == |w| == r.jumps + 1
    && (forall i :: 0 <= i < |w| ==> w[i] in g.systems && r.systems[i] == g.systems[w[i]])
    && r.nullSecCount == |NullSec(g, w)| && r.lowSecCount == |LowSec(g, w)|
  }

  /** So many systems are not a safer way: null-sec first, then low-sec, then the number of gates. */
  predicate NotSafer(nullSec: int, lowSec: int, gates: int, r: RouteResult) {
    && r.nullSecCount <= nullSec
    && (r.nullSecCount == nullSec ==> r.lowSecCount <= lowSec)
    && (r.nullSecCount == nullSec && r.lowSecCount == lowSec ==> r.jumps <= gates)
  }

  lemma AnswersArePaths(r: Result<RouteResult, RouteError>, q: Query, destination: int)
    requires Answers(r, q, destination)
    ensures r.Failure? ==> forall w :: !Path(q.galaxy, q.origin, destination, q.floor, w)
    ensures r.Success? ==> Reports(r.value, q.galaxy, q.origin, destination, q.floor)
    ensures r.Success? ==> forall w :: Path(q.galaxy, q.origin, destination, q.floor, w) ==>
              if q.mode == Safest then NotSafer(|NullSec(q.galaxy, w)|, |LowSec(q.galaxy, w)|, |w| - 1, r.value)
              else r.value.jumps <= |w| - 1
  {
    AnswersDecide(r, q, destination);
    forall w | Path(q.galaxy, q.origin, destination, q.floor, w)
      ensures r.Success?
      ensures if q.mode == Safest then NotSafer(|NullSec(q.galaxy, w)|, |LowSec(q.galaxy, w)|, |w| - 1, r.value)
              else r.value.jumps <= |w| - 1
    {
      WalksArePaths(q, w, destination);
      NoPathBeats(r.value, q, w);
    }
    if r.Success? {
      var w :| q.Canonical(w) && q.WalkTo(w, destination) && Summarizes(r.value, q, w);
      SummaryReports(r.value, q, destination, w);
    }
  }

  lemma NoPathBeats(r: RouteResult, q: Query, w: seq<int>)
    requires q.Walk(w) && r.nullSecCount >= 0 && r.lowSecCount >= 0 && r.jumps >= 0
    requires !q.Less(q.CostOf(w), Cost(r.nullSecCount, r.lowSecCount, r.jumps))
    ensures if q.mode == Safest then NotSafer(|NullSec(q.galaxy, w)|, |LowSec(q.galaxy, w)|, |w| - 1, r)
            else r.jumps <= |w| - 1
  {
    CostCounts(q, w);
  }

  lemma SummaryReports(r: RouteResult, q: Query, destination: int, w: seq<int>)
    requires q.WalkTo(w, destination) && Summarizes(r, q, w)
    ensures Reports(r, q.galaxy, q.origin, destination, q.floor)
  {
    WalksArePaths(q, w, destination);
    CostCounts(q, w);
    assert IsReportOf(r, q.galaxy, w);
  }

  lemma AnswersDecide(r: Result<RouteResult, RouteError>, q: Query, destination: int)
    requires Answers(r, q, destination)
    ensures r.Success? <==> exists w :: q.WalkTo(w, destination)
    ensures r.Success? ==> forall w :: q.WalkTo(w, destination) ==>
              !q.Less(q.CostOf(w), Cost(r.value.nullSecCount, r.value.lowSecCount, r.value.jumps))
  {
  }

  /** The search proper, between two known systems. */
  method RouteBetween(q: Query, destination: int) returns (r: Result<RouteResult, RouteError>)
    requires q.galaxy.WellFormed() && 0 < q.origin && q.origin in q.galaxy.systems && destination in q.galaxy.systems
    ensures Answers(r, q, destination)
  {
    if q.origin == destination {
      var alone := Summarize(q, [q.origin], [q.galaxy.systems[q.origin]]);
      return Success(alone);
    }
    var costs, prev, visited := Explore(q, destination);
    if destination !in costs {
      UnreachedHasNoWalk(q, costs, prev, visited, destination);
      return Failure(NoRoute);
    }
    TraceIsCanonical(q, costs, prev, visited, destination);
    var ids := FollowBack(q, destination, costs, prev, visited);
    var path := SystemsBackwards(q.galaxy, ids);
    var found := Summarize(q, Reversed(ids), path);
    r := Success(found);
  }

  /** The main loop: it stops when the destination is next, or nothing is left to visit. */
  method Explore(q: Query, destination: int) returns (costs: map<int, Cost>, prev: map<int, int>, visited: set<int>)
    requires q.galaxy.WellFormed() && 0 < q.origin && q.origin in q.galaxy.systems && q.origin != destination
    ensures Search(q, costs, prev, visited)
    ensures destination !in costs ==> costs.Keys <= visited
    ensures destination in costs ==> forall y :: y in costs && y !in visited ==> !q.Less(costs[y], costs[destination])
  {
    var adj := AdjacencyOf(q.galaxy.gates);
    costs, prev, visited := map[q.origin := FREE], map[], {};
    while true
      invariant Search(q, costs, prev, visited) && destination !in visited
      decreases q.galaxy.systems.Keys - visited
    {
      CostsArePositive(q, costs, prev, visited);
      var cur := SelectNext(costs, visited, q.mode);
      if cur == 0 || cur == destination {
        break;
      }
      var seen := visited + {cur};
      var next := if cur in adj then adj[cur] else [];
      costs, prev := RelaxGates(q, costs, prev, seen, cur, next);
      visited := seen;
    }
  }

  /** The empty mode means shortest; any other unknown mode is an error. */
  function ModeOf(name: string): Option<Mode> {
    if name == "" || name == "shortest" then Some(Shortest) else if name == "safest" then Some(Safest) else None
  }

  lemma CostsArePositive(q: Query, costs: map<int, Cost>, prev: map<int, int>, visited: set<int>)
    requires q.galaxy.WellFormed() && 0 < q.origin && Tree(q, costs, prev, visited)
    ensures forall v :: v in costs ==> 0 < v
  {
    forall v | v in costs
      ensures 0 < v
    {
      assert v != q.origin ==> (prev[v], v) in q.galaxy.gates;
    }
  }

  lemma UnreachedHasNoWalk(q: Query, costs: map<int, Cost>, prev: map<int, int>, visited: set<int>, v: int)
    requires Search(q, costs, prev, visited) && costs.Keys <= visited && v !in costs
    ensures forall w :: !q.WalkTo(w, v)
  {
    forall w | q.WalkTo(w, v)
      ensures false
    {
      WalkMeetsFrontier(q, costs, prev, visited, w);
    }
  }
}
