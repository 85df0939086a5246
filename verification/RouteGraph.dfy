/**
 The star-gate graph of desktop-app/internal/evesde/route.go: systems, gates, the
 two cost orders, and what a best route is, stated over walks and without any
 mention of the search that finds it.
 */
module RouteGraph {
  import opened Wrappers

  datatype System = System(id: int, constellationId: int, name: string, security: real)

  datatype Mode = Shortest | Safest

  datatype Cost = Cost(nullSec: nat, lowSec: nat, jumps: nat) {

    predicate Less(other: Cost, mode: Mode) {
      if mode == Safest && nullSec != other.nullSec then nullSec < other.nullSec
      else if mode == Safest && lowSec != other.lowSec then lowSec < other.lowSec
      else jumps < other.jumps
    }

    predicate EqualPriority(other: Cost, mode: Mode) {
      if mode == Safest then this == other else jumps == other.jumps
    }

    /** The cost after entering one more system. */
    function Enter(security: real): Cost {
      if security < 0.0 then Cost(nullSec + 1, lowSec, jumps + 1)
      else if security < 0.5 then Cost(nullSec, lowSec + 1, jumps + 1)
      else Cost(nullSec, lowSec, jumps + 1)
    }
  }

  const FREE := Cost(0, 0, 0)

  /** The tables `systems` and `stargates`; a gate row is (system_id, destination_system_id). */
  datatype Galaxy = Galaxy(systems: map<int, System>, gates: seq<(int, int)>) {

    /** What the importer guarantees: rows are keyed by their ID and gates join positive IDs. */
    ghost predicate WellFormed() {
      && (forall id :: id in systems ==> systems[id].id == id)
      && (forall gate :: gate in gates ==> 0 < gate.0 && 0 < gate.1)
    }
  }

  /** The fixed inputs of one search. */
  datatype Query = Query(galaxy: Galaxy, origin: int, mode: Mode, floor: Option<real>) {

    /** A gate leads from `u` to `v`, and `v` may be entered. */
    ghost predicate Gate(u: int, v: int) {
      && (u, v) in galaxy.gates
      && v in galaxy.systems
      && (floor.Some? ==> galaxy.systems[v].security >= floor.value)
    }

    ghost function Enter(c: Cost, v: int): Cost
      requires v in galaxy.systems
    {
      c.Enter(galaxy.systems[v].security)
    }

    ghost predicate Less(a: Cost, b: Cost) { a.Less(b, mode) }

    ghost predicate Same(a: Cost, b: Cost) { a.EqualPriority(b, mode) }

    /** A walk from the origin; the floor binds every system it enters, not the origin. */
    ghost predicate Walk(w: seq<int>)
      decreases |w|
    {
      && |w| > 0
      && if |w| == 1 then w[0] == origin
         else Walk(w[..|w| - 1]) && Gate(w[|w| - 2], w[|w| - 1])
    }

    ghost predicate WalkTo(w: seq<int>, v: int) {
      Walk(w) && w[|w| - 1] == v
    }

    ghost function CostOf(w: seq<int>): Cost
      requires Walk(w)
      decreases |w|
    {
      if |w| == 1 then FREE else Enter(CostOf(w[..|w| - 1]), w[|w| - 1])
    }

    /** No walk to the same system is cheaper. */
    ghost predicate Optimal(w: seq<int>) {
      Walk(w) && forall x :: WalkTo(x, w[|w| - 1]) ==> !Less(CostOf(x), CostOf(w))
    }

    /**
     Optimal, and read backwards each step takes the smallest system that comes
     last but one on any optimal walk to the same place.
     */
    ghost predicate Canonical(w: seq<int>)
      decreases |w|
    {
      && Optimal(w)
      && (|w| > 1 ==>
            && Canonical(w[..|w| - 1])
            && forall x :: Optimal(x) && |x| > 1 && x[|x| - 1] == w[|w| - 1] ==> w[|w| - 2] <= x[|x| - 2])
    }
  }

  lemma {:induction false} WalkStartsAtOrigin(q: Query, w: seq<int>)
    requires q.Walk(w)
    ensures w[0] == q.origin
    decreases |w|
  {
    if |w| > 1 {
      WalkStartsAtOrigin(q, w[..|w| - 1]);
    }
  }

  /** Entering a system keeps the order of two costs, so a prefix of an optimal walk is optimal. */
  lemma PrefixOptimal(q: Query, w: seq<int>)
    requires q.Optimal(w) && |w| > 1
    ensures q.Optimal(w[..|w| - 1])
  {
    var p, v := w[..|w| - 1], w[|w| - 1];
    forall x | q.WalkTo(x, p[|p| - 1])
      ensures !q.Less(q.CostOf(x), q.CostOf(p))
    {
      var longer := x + [v];
      assert longer[..|longer| - 1] == x;
      assert q.WalkTo(longer, v) && q.CostOf(longer) == q.Enter(q.CostOf(x), v);
      assert q.CostOf(w) == q.Enter(q.CostOf(p), v);
    }
  }

  /** Jumps counts the gates taken. */
  lemma {:induction false} JumpsIsLength(q: Query, w: seq<int>)
    requires q.Walk(w)
    ensures q.CostOf(w).jumps == |w| - 1
    decreases |w|
  {
    if |w| > 1 {
      JumpsIsLength(q, w[..|w| - 1]);
    }
  }

  // ---------------------------------------------------------------- the same, position by position

  /** A path through the galaxy, told without walks: gates join its neighbours, and the floor binds what it enters. */
  ghost predicate Path(g: Galaxy, origin: int, destination: int, floor: Option<real>, w: seq<int>) {
    && w != [] && w[0] == origin && w[|w| - 1] == destination
    && forall i :: 0 < i < |w| ==>
         && (w[i - 1], w[i]) in g.gates && w[i] in g.systems
         && (floor.Some? ==> g.systems[w[i]].security >= floor.value)
  }

  /** The positions at which null-sec is entered: security below 0. */
  ghost function NullSec(g: Galaxy, w: seq<int>): set<int> {
    set i | 0 < i < |w| && w[i] in g.systems && g.systems[w[i]].security < 0.0
  }

  /** And low-sec: security from 0 to below 0.5. */
  ghost function LowSec(g: Galaxy, w: seq<int>): set<int> {
    set i | 0 < i < |w| && w[i] in g.systems && 0.0 <= g.systems[w[i]].security < 0.5
  }

  /** The walks of a query are the paths. */
  lemma {:induction false} WalksArePaths(q: Query, w: seq<int>, destination: int)
    ensures q.WalkTo(w, destination) <==> Path(q.galaxy, q.origin, destination, q.floor, w)
    decreases |w|
  {
    if |w| > 1 {
      var p := w[..|w| - 1];
      WalksArePaths(q, p, p[|p| - 1]);
      assert forall i :: 0 <= i < |p| ==> p[i] == w[i];
      if Path(q.galaxy, q.origin, destination, q.floor, w) {
        assert Path(q.galaxy, q.origin, p[|p| - 1], q.floor, p);
      }
    }
  }

  /** The cost of a walk counts the systems it enters. */
  lemma {:induction false} CostCounts(q: Query, w: seq<int>)
    requires q.Walk(w)
    ensures q.CostOf(w) == Cost(|NullSec(q.galaxy, w)|, |LowSec(q.galaxy, w)|, |w| - 1)
    decreases |w|
  {
    var n := |w| - 1;
    if n == 0 {
      assert NullSec(q.galaxy, w) == {} && LowSec(q.galaxy, w) == {};
    } else {
      var p := w[..n];
      CostCounts(q, p);
      OneMoreEntered(q.galaxy, w);
    }
  }

  lemma OneMoreEntered(g: Galaxy, w: seq<int>)
    requires |w| > 1 && w[|w| - 1] in g.systems
    ensures var n, p, sec := |w| - 1, w[..|w| - 1], g.systems[w[|w| - 1]].security;
      && NullSec(g, w) == (NullSec(g, p) + if sec < 0.0 then {n} else {}) && n !in NullSec(g, p)
      && LowSec(g, w) == (LowSec(g, p) + if 0.0 <= sec < 0.5 then {n} else {}) && n !in LowSec(g, p)
  {
    var n, p := |w| - 1, w[..|w| - 1];
    assert forall i :: 0 <= i < n ==> p[i] == w[i];
  }

  /** Staying at the origin beats every walk that returns to it. */
  lemma OptimalAtOrigin(q: Query, w: seq<int>)
    requires q.Optimal(w) && w[|w| - 1] == q.origin
    ensures w == [q.origin]
  {
    assert q.WalkTo([q.origin], q.origin) && q.CostOf([q.origin]) == FREE;
    WalkStartsAtOrigin(q, w);
  }

  /** At most one canonical route leads to a system: nothing else can decide the answer. */
  lemma {:induction false} CanonicalIsUnique(q: Query, a: seq<int>, b: seq<int>)
    requires q.Canonical(a) && q.Canonical(b)
    requires a[|a| - 1] == b[|b| - 1]
    ensures a == b
    decreases |a|
  {
    if a[|a| - 1] == q.origin {
      OptimalAtOrigin(q, a);
      OptimalAtOrigin(q, b);
    } else {
      WalkStartsAtOrigin(q, a);
      WalkStartsAtOrigin(q, b);
      assert |a| > 1 && |b| > 1;
      CanonicalIsUnique(q, a[..|a| - 1], b[..|b| - 1]);
      assert a == a[..|a| - 1] + [a[|a| - 1]];
      assert b == b[..|b| - 1] + [b[|b| - 1]];
    }
  }
}
