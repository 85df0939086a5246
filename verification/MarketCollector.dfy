/**
 relay-server/internal/marketdata/collector.go: the worker pool of Collect once page one is
 appended. A producer hands out pages, a failing worker reports and cancels the others; every
 send, receive, append, report and cancellation is a step of its own.
 */
module MarketCollector {
  import opened Wrappers
  import opened MarketBatch
  import opened MarketSnapshots

  datatype Worker = Idle | Fetching(page: int) | Reporting | Left

  /** As a history variable, `lost` are the pages whose failure left nothing in the batch. */
  datatype Pool = Pool(
    batch: string, expected: int, next: int, closed: bool, workers: seq<Worker>,
    error: Option<int>, cancelled: bool, parentDone: bool, lost: set<int>)

  datatype Joint = Joint(sys: System, pool: Pool)

  datatype Move =
    | Hand(w: nat)
    | CloseJobs
    | Store(w: nat, orders: seq<Order>)
    | StoreUnheard(w: nat, orders: seq<Order>)  // the append is committed, and reported as failed
    | Break(w: nat)
    | Withdraw(w: nat)
    | Leave(w: nat)
    | CancelParent
    | Other(step: Step)

  predicate Is(p: Pool, w: nat, worker: Worker) { w < |p.workers| && p.workers[w] == worker }

  predicate Fetches(p: Pool, w: nat) { w < |p.workers| && p.workers[w].Fetching? }

  predicate Enabled(p: Pool, move: Move) {
    match move
    case Hand(w) => Is(p, w, Idle) && !p.closed && p.next <= p.expected
    case CloseJobs => !p.closed && (p.next > p.expected || p.cancelled || p.parentDone)
    case Store(w, _) => Fetches(p, w)
    case StoreUnheard(w, _) => Fetches(p, w)
    case Break(w) => Fetches(p, w)
    case Withdraw(w) => Is(p, w, Reporting)
    case Leave(w) => Is(p, w, Idle) && p.closed
    case CancelParent => !p.parentDone
    case Other(step) => step.id != p.batch
  }

  /** reportCollectorError: the first failure is kept, and only who reported it cancels. */
  function Report(p: Pool, w: nat): Pool
    requires Fetches(p, w)
  {
    if p.error.Some? then p.(workers := p.workers[w := Left])
    else p.(workers := p.workers[w := Reporting], error := Some(p.workers[w].page))
  }

  /** The same for a failure that left nothing behind. */
  function Lose(p: Pool, w: nat): Pool
    requires Fetches(p, w)
  {
    Report(p, w).(lost := p.lost + {p.workers[w].page})
  }

  /** What the move makes of the pool; `stored` says whether its append goes through. */
  function Advance(p: Pool, move: Move, stored: bool): Pool
    requires Enabled(p, move)
  {
    match move
    case Hand(w) => p.(workers := p.workers[w := Fetching(p.next)], next := p.next + 1)
    case CloseJobs => p.(closed := true)
    case Store(w, _) => if stored then p.(workers := p.workers[w := Idle]) else Lose(p, w)
    case StoreUnheard(w, _) => if stored then Report(p, w) else Lose(p, w)
    case Break(w) => Lose(p, w)
    case Withdraw(w) => p.(workers := p.workers[w := Left], cancelled := true)
    case Leave(w) => p.(workers := p.workers[w := Left])
    case CancelParent => p.(parentDone := true)
    case Other(_) => p
  }

  ghost predicate Storable(j: Joint, w: nat, orders: seq<Order>)
    requires Fetches(j.pool, w)
  {
    Appends(j.sys.db, j.pool.batch, j.pool.workers[w].page, j.pool.expected, orders)
  }

  ghost predicate Stores(j: Joint, move: Move)
    requires Enabled(j.pool, move)
  {
    (move.Store? || move.StoreUnheard?) && Storable(j, move.w, move.orders)
  }

  ghost function Stored(j: Joint, w: nat, orders: seq<Order>): System
    requires Fetches(j.pool, w)
  {
    MarketBatch.Do(j.sys, AppendPage(j.pool.batch, j.pool.workers[w].page, j.pool.expected, orders))
  }

  ghost function Do(j: Joint, move: Move): Joint {
    if !Enabled(j.pool, move) then j
    else
      var sys :=
        if Stores(j, move) then Stored(j, move.w, move.orders)
        else if move.Other? then MarketBatch.Do(j.sys, move.step) else j.sys;
      Joint(sys, Advance(j.pool, move, Stores(j, move)))
  }

  ghost function Play(j: Joint, moves: seq<Move>): Joint
    decreases |moves|
  {
    if moves == [] then j else Play(Do(j, moves[0]), moves[1..])
  }

  /** Page one is in the batch; the producer and at least one worker are about to start. */
  ghost predicate Starts(j: Joint) {
    var p := j.pool;
    && Inv(j.sys) && OwnBatch(j) && PagesOf(j.sys.db, p.batch) == {1}
    && p.next == 2 <= p.expected && !p.closed && p.error == None && !p.cancelled && p.lost == {}
    && |p.workers| > 0 && forall w :: 0 <= w < |p.workers| ==> p.workers[w] == Idle
  }

  ghost predicate OwnBatch(j: Joint) {
    && j.pool.batch in j.sys.db.batches
    && j.sys.db.batches[j.pool.batch].state == Collecting
    && j.sys.db.batches[j.pool.batch].expected == Some(j.pool.expected)
  }

  // ---------------------------------------------------------------- the invariant

  /** Page `n` was handed out and is being fetched. */
  ghost predicate InFlight(p: Pool, n: int) {
    exists w :: 0 <= w < |p.workers| && p.workers[w] == Fetching(n)
  }

  /** A page is still to be handed out, in flight, stored, or lost to a failure. */
  ghost predicate PageInv(j: Joint, n: int) {
    var p := j.pool;
    var stored := n in PagesOf(j.sys.db, p.batch);
    && (n >= p.next ==> !stored && !InFlight(p, n))
    && (InFlight(p, n) ==> 2 <= n && !stored && n !in p.lost)
    && (n in p.lost ==> 2 <= n < p.next && !stored)
    && (1 <= n < p.next ==> stored || InFlight(p, n) || n in p.lost)
  }

  ghost predicate WorkersInv(p: Pool) {
    && (forall v, w :: 0 <= v < w < |p.workers| && p.workers[v].Fetching? ==> p.workers[v] != p.workers[w])
    && (forall w :: 0 <= w < |p.workers| && p.workers[w] == Left ==> p.closed || p.error.Some?)
    && (forall w :: 0 <= w < |p.workers| && p.workers[w] == Reporting ==> p.error.Some?)
  }

  predicate ProducerInv(p: Pool) {
    && 2 <= p.next <= p.expected + 1 && (p.cancelled || p.lost != {} ==> p.error.Some?)
    && (p.closed ==> p.next > p.expected || p.error.Some? || p.parentDone)
  }

  ghost predicate PoolInv(j: Joint) {
    var p := j.pool;
    var batch := Inv(j.sys) && OwnBatch(j) && forall n {:trigger PageInv(j, n)} :: PageInv(j, n);
    batch && |p.workers| > 0 && WorkersInv(p) && ProducerInv(p)
  }

  lemma StartHolds(j: Joint)
    requires Starts(j)
    ensures PoolInv(j)
  {
  }

  /** What one worker's change means for the pages in flight. */
  lemma FlightChange(p: Pool, p': Pool, w: nat, n: int)
    requires w < |p.workers| == |p'.workers| && p'.workers == p.workers[w := p'.workers[w]]
    requires p.workers[w] != Fetching(n) && p'.workers[w] != Fetching(n)
    ensures InFlight(p', n) <==> InFlight(p, n)
  {
    if InFlight(p, n) {
      var v :| 0 <= v < |p.workers| && p.workers[v] == Fetching(n);
      assert p'.workers[v] == Fetching(n);
    }
  }

  /** Other batches' steps leave this one alone. */
  lemma OthersKeepBatch(j: Joint, step: Step)
    requires Inv(j.sys) && OwnBatch(j) && step.id != j.pool.batch
    ensures OwnBatch(Do(j, Other(step)))
    ensures PagesOf(Do(j, Other(step)).sys.db, j.pool.batch) == PagesOf(j.sys.db, j.pool.batch)
  {
  }

  lemma MoveKeepsBatch(j: Joint, move: Move)
    requires PoolInv(j) && Enabled(j.pool, move)
    ensures OwnBatch(Do(j, move)) && Inv(Do(j, move).sys)
  {
    match move
    case Other(step) =>
      OthersKeepBatch(j, step);
      StepKeepsInv(j.sys, step);
    case Store(w, orders) => StoredKeepsBatch(j, w, orders);
    case StoreUnheard(w, orders) => StoredKeepsBatch(j, w, orders);
    case _ =>
  }

  lemma StoredKeepsBatch(j: Joint, w: nat, orders: seq<Order>)
    requires PoolInv(j) && Fetches(j.pool, w)
    ensures OwnBatch(j.(sys := Stored(j, w, orders))) && Inv(Stored(j, w, orders))
  {
    StepKeepsInv(j.sys, AppendPage(j.pool.batch, j.pool.workers[w].page, j.pool.expected, orders));
  }

  lemma StoreAdds(j: Joint, w: nat, orders: seq<Order>)
    requires PoolInv(j) && Fetches(j.pool, w) && Storable(j, w, orders)
    ensures PagesOf(Stored(j, w, orders).db, j.pool.batch) ==
      PagesOf(j.sys.db, j.pool.batch) + {j.pool.workers[w].page}
  {
  }

  lemma MoveKeepsPage(j: Joint, move: Move, n: int)
    requires PoolInv(j) && Enabled(j.pool, move)
    ensures PageInv(Do(j, move), n)
  {
    var j' := Do(j, move);
    var p, p' := j.pool, j'.pool;
    assert PageInv(j, n);
    match move
    case Hand(w) =>
      if n != p.next {
        FlightChange(p, p', w, n);
      } else {
        assert p'.workers[w] == Fetching(n);
      }
    case Store(w, orders) =>
      if Storable(j, w, orders) { StoreAdds(j, w, orders); }
      FetchEnds(j, j', w, n);
    case StoreUnheard(w, orders) =>
      if Storable(j, w, orders) { StoreAdds(j, w, orders); }
      FetchEnds(j, j', w, n);
    case Break(w) => FetchEnds(j, j', w, n);
    case Withdraw(w) => FlightChange(p, p', w, n);
    case Leave(w) => FlightChange(p, p', w, n);
    case CloseJobs =>
    case CancelParent =>
    case Other(step) => OthersKeepBatch(j, step);
  }

  /** The worker's page was stored, or lost, or stored and reported; other pages stay as they were. */
  lemma FetchEnds(j: Joint, j': Joint, w: nat, n: int)
    requires PoolInv(j) && Fetches(j.pool, w) && PageInv(j, n)
    requires var m, stored := j.pool.workers[w].page, PagesOf(j.sys.db, j.pool.batch);
      || (PagesOf(j'.sys.db, j.pool.batch) == stored + {m} && j'.pool == j.pool.(workers := j.pool.workers[w := Idle]))
      || (PagesOf(j'.sys.db, j.pool.batch) == stored + {m} && j'.pool == Report(j.pool, w))
      || (PagesOf(j'.sys.db, j.pool.batch) == stored && j'.pool == Lose(j.pool, w))
    ensures PageInv(j', n)
  {
    var m := j.pool.workers[w].page;
    assert PageInv(j, m);
    if n != m {
      FlightChange(j.pool, j'.pool, w, n);
    }
  }

  lemma MoveKeepsPool(j: Joint, move: Move)
    requires PoolInv(j)
    ensures PoolInv(Do(j, move))
  {
    if Enabled(j.pool, move) {
      var j' := Do(j, move);
      MoveKeepsBatch(j, move);
      forall n
        ensures PageInv(j', n)
      {
        MoveKeepsPage(j, move, n);
      }
      assert PageInv(j, j.pool.next);
      WorkersKept(j.pool, move, Stores(j, move));
      ProducerKept(j.pool, move, Stores(j, move));
    }
  }

  lemma WorkersKept(p: Pool, move: Move, stored: bool)
    requires WorkersInv(p) && Enabled(p, move) && !InFlight(p, p.next)
    ensures WorkersInv(Advance(p, move, stored))
  {
  }

  lemma ProducerKept(p: Pool, move: Move, stored: bool)
    requires WorkersInv(p) && ProducerInv(p) && Enabled(p, move)
    ensures ProducerInv(Advance(p, move, stored))
  {
  }

  lemma {:induction false} PlayKeepsPool(j: Joint, moves: seq<Move>)
    requires PoolInv(j)
    ensures PoolInv(Play(j, moves))
    decreases |moves|
  {
    if moves != [] {
      MoveKeepsPool(j, moves[0]);
      PlayKeepsPool(Do(j, moves[0]), moves[1..]);
    }
  }

  // ---------------------------------------------------------------- what Collect relies on

  ghost predicate AllLeft(p: Pool) {
    forall w :: 0 <= w < |p.workers| ==> p.workers[w] == Left
  }

  /** The batch of a collector no one else touches: an append fails only for what is in the page. */
  lemma StoredUnlessInvalid(j: Joint, moves: seq<Move>, w: nat, orders: seq<Order>)
    requires Starts(j) && Fetches(Play(j, moves).pool, w)
    ensures var k := Play(j, moves);
      var page := k.pool.workers[w].page;
      Appends(k.sys.db, k.pool.batch, page, k.pool.expected, orders) <==> ValidPage(page, k.pool.expected, orders)
  {
    StartHolds(j);
    PlayKeepsPool(j, moves);
    var k := Play(j, moves);
    var n := k.pool.workers[w].page;
    assert PageInv(k, n) && InFlight(k.pool, n);
    assert n in PagesOf(k.sys.db, k.pool.batch) <==> Page(k.pool.batch, n) in k.sys.db.pages;
  }

  /**
   When all workers have left, the batch can be published exactly if every page was handed out
   and none was lost; so it can if no failure was reported and the caller did not give up.
   */
  lemma PublishableAtEnd(j: Joint, moves: seq<Move>)
    requires Starts(j) && AllLeft(Play(j, moves).pool)
    ensures var k := Play(j, moves);
      && (Publishes(k.sys.db, k.pool.batch) <==> k.pool.next > k.pool.expected && k.pool.lost == {})
      && (k.pool.error == None && !k.pool.parentDone ==> Publishes(k.sys.db, k.pool.batch))
  {
    StartHolds(j);
    PlayKeepsPool(j, moves);
    var k := Play(j, moves);
    PublishedWhenAllPages(k.sys, k.pool.batch);
    assert k.pool.workers[0] == Left;
    if k.pool.lost != {} {
      var n :| n in k.pool.lost;
      assert PageInv(k, n) && n in UpTo(k.pool.expected);
    } else {
      PagesAtEnd(k);
    }
  }

  lemma PagesAtEnd(k: Joint)
    requires PoolInv(k) && AllLeft(k.pool) && k.pool.lost == {}
    ensures k.pool.next > k.pool.expected <==> PagesOf(k.sys.db, k.pool.batch) == UpTo(k.pool.expected)
  {
    var pages := PagesOf(k.sys.db, k.pool.batch);
    if k.pool.next > k.pool.expected {
      assert BatchInv(k.sys, k.pool.batch);
      forall n | n in UpTo(k.pool.expected)
        ensures n in pages
      {
        assert PageInv(k, n);
      }
      assert pages == UpTo(k.pool.expected);
    } else {
      assert PageInv(k, k.pool.next) && k.pool.next in UpTo(k.pool.expected);
    }
  }

  /** A failure may be reported for a batch that has every page: the last append was committed after all. */
  lemma UnheardPageCompletesBatch(j: Joint)
    requires Starts(j) && j.pool.expected == 2 && |j.pool.workers| == 1
    ensures var k := Play(j, [Hand(0), StoreUnheard(0, []), Withdraw(0)]);
      AllLeft(k.pool) && k.pool.error == Some(2) && Publishes(k.sys.db, k.pool.batch)
  {
    var moves := [Hand(0), StoreUnheard(0, []), Withdraw(0)];
    var h := Do(j, moves[0]);
    StartHolds(j);
    assert Play(j, [Hand(0)]) == h by {
      assert [Hand(0)][1..] == [] && Play(h, []) == h;
    }
    StoredUnlessInvalid(j, [Hand(0)], 0, []);
    assert Storable(h, 0, []);
    var u := Do(h, moves[1]);
    var k := Do(u, moves[2]);
    assert Play(j, moves) == k by {
      assert moves[1..][1..] == moves[2..] && moves[2..][1..] == [];
      assert Play(k, []) == k && Play(u, moves[2..]) == k && Play(h, moves[1..]) == k;
    }
    PublishableAtEnd(j, moves);
  }

  // ---------------------------------------------------------------- what a move does to its page and to the pool

  /** The append of a valid page puts it in the batch and frees its worker; one of another page reports it as lost. */
  lemma StoreStoresExactly(j: Joint, moves: seq<Move>, w: nat, orders: seq<Order>)
    requires Starts(j) && Fetches(Play(j, moves).pool, w)
    ensures var k := Play(j, moves);
      var n, after := k.pool.workers[w].page, Do(k, Store(w, orders));
      && w < |after.pool.workers|
      && if ValidPage(n, k.pool.expected, orders)
         then PagesOf(after.sys.db, k.pool.batch) == PagesOf(k.sys.db, k.pool.batch) + {n}
              && after.pool.workers[w] == Idle && after.pool.error == k.pool.error && after.pool.lost == k.pool.lost
         else after.sys == k.sys && after.pool.error.Some? && after.pool.lost == k.pool.lost + {n}
  {
    StoredUnlessInvalid(j, moves, w, orders);
    StartHolds(j);
    PlayKeepsPool(j, moves);
    if Storable(Play(j, moves), w, orders) {
      StoreAdds(Play(j, moves), w, orders);
    }
  }

  /** The first failure reported is the one that stays, and a closed producer hands out nothing more. */
  lemma {:induction false} FirstFailureStays(j: Joint, moves: seq<Move>)
    ensures var k := Play(j, moves);
      && (j.pool.error.Some? ==> k.pool.error == j.pool.error)
      && (j.pool.closed ==> k.pool.closed && k.pool.next == j.pool.next)
    decreases |moves|
  {
    if moves != [] {
      FirstFailureStays(Do(j, moves[0]), moves[1..]);
    }
  }

  /** Other work on the tables goes on beside the pool. */
  lemma OthersRunOn(j: Joint, step: Step)
    requires step.id != j.pool.batch
    ensures Do(j, Other(step)) == j.(sys := MarketBatch.Do(j.sys, step))
  {
  }

  /** A caller who gives up is heard, and so is a worker that reports. */
  lemma GivingUpIsHeard(j: Joint, w: nat)
    ensures Do(j, CancelParent).pool.parentDone
    ensures Is(j.pool, w, Reporting) ==> Do(j, Withdraw(w)).pool.cancelled && Is(Do(j, Withdraw(w)).pool, w, Left)
  {
  }

  /**
   Once somebody gave up, the pool can come to its end without handing out one more page: the
   producer closes and every worker leaves.
   */
  lemma {:induction false} PoolCanStop(j: Joint) returns (moves: seq<Move>)
    requires PoolInv(j) && (j.pool.cancelled || j.pool.parentDone)
    ensures AllLeft(Play(j, moves).pool) && Play(j, moves).pool.next == j.pool.next
    decreases Remaining(j.pool), 1
  {
    RemainingIsLeft(j.pool);
    moves := [];
    if !j.pool.closed {
      moves := StopAfter(j, CloseJobs);
    } else if !AllLeft(j.pool) {
      var w: nat :| w < |j.pool.workers| && j.pool.workers[w] != Left;
      moves := StopAfter(j, match j.pool.workers[w]
                            case Fetching(_) => Break(w)
                            case Reporting => Withdraw(w)
                            case _ => Leave(w));
    }
  }

  lemma {:induction false} StopAfter(j: Joint, move: Move) returns (moves: seq<Move>)
    requires PoolInv(j) && (j.pool.cancelled || j.pool.parentDone) && Enabled(j.pool, move)
    requires OfPool(move) && !move.Hand?
    ensures AllLeft(Play(j, moves).pool) && Play(j, moves).pool.next == j.pool.next
    decreases Remaining(j.pool), 0
  {
    var k := Do(j, move);
    MoveKeepsPool(j, move);
    MoveUsesUp(j.pool, move, Stores(j, move));
    RemainingIsLeft(k.pool);
    var rest := PoolCanStop(k);
    moves := [move] + rest;
    assert moves[1..] == rest;
  }

  lemma RemainingIsLeft(p: Pool)
    requires ProducerInv(p)
    ensures Remaining(p) >= 0
  {
  }

  // ---------------------------------------------------------------- termination

  function Weight(worker: Worker): nat {
    match worker
    case Left => 0
    case Idle => 1
    case Reporting => 2
    case Fetching(_) => 3
  }

  function Weights(workers: seq<Worker>): nat {
    if workers == [] then 0 else Weight(workers[0]) + Weights(workers[1..])
  }

  lemma {:induction false} WeightChange(workers: seq<Worker>, w: nat, worker: Worker)
    requires w < |workers|
    ensures Weights(workers[w := worker]) == Weights(workers) - Weight(workers[w]) + Weight(worker)
  {
    var changed := workers[w := worker];
    if w == 0 {
      assert changed[1..] == workers[1..];
    } else {
      assert changed[1..] == workers[1..][w - 1 := worker];
      WeightChange(workers[1..], w - 1, worker);
    }
  }

  /** The work the pool can still do. */
  ghost function Remaining(p: Pool): int {
    4 * (p.expected + 1 - p.next) + Weights(p.workers) + if p.closed then 0 else 1
  }

  predicate OfPool(move: Move) { !move.CancelParent? && !move.Other? }

  lemma MoveUsesUp(p: Pool, move: Move, stored: bool)
    requires Enabled(p, move)
    ensures var p' := Advance(p, move, stored);
      if OfPool(move) then Remaining(p') < Remaining(p) else Remaining(p') == Remaining(p)
  {
    match move
    case CloseJobs =>
    case CancelParent =>
    case Other(_) =>
    case Hand(w) => HandUsesUp(p, w);
    case Store(w, _) => FetchUsesUp(p, w);
    case StoreUnheard(w, _) => FetchUsesUp(p, w);
    case Break(w) => FetchUsesUp(p, w);
    case Withdraw(w) => WorkerUsesUp(p, p.(workers := p.workers[w := Left], cancelled := true), w);
    case Leave(w) => WorkerUsesUp(p, p.(workers := p.workers[w := Left]), w);
  }

  lemma HandUsesUp(p: Pool, w: nat)
    requires Is(p, w, Idle)
    ensures Remaining(p.(workers := p.workers[w := Fetching(p.next)], next := p.next + 1)) < Remaining(p)
  {
    WeightChange(p.workers, w, Fetching(p.next));
  }

  lemma FetchUsesUp(p: Pool, w: nat)
    requires Fetches(p, w)
    ensures Remaining(p.(workers := p.workers[w := Idle])) < Remaining(p)
    ensures Remaining(Report(p, w)) == Remaining(Lose(p, w)) < Remaining(p)
  {
    WorkerUsesUp(p, p.(workers := p.workers[w := Idle]), w);
    WorkerUsesUp(p, Report(p, w), w);
  }

  /** One worker gets on, and nothing is handed out. */
  lemma WorkerUsesUp(p: Pool, p': Pool, w: nat)
    requires w < |p.workers| == |p'.workers| && p'.workers == p.workers[w := p'.workers[w]]
    requires Weight(p'.workers[w]) < Weight(p.workers[w])
    requires p'.expected == p.expected && p'.next == p.next && p'.closed == p.closed
    ensures Remaining(p') < Remaining(p)
  {
    WeightChange(p.workers, w, p'.workers[w]);
  }

  ghost function PoolMoves(j: Joint, moves: seq<Move>): nat
    decreases |moves|
  {
    if moves == [] then 0
    else PoolMoves(Do(j, moves[0]), moves[1..]) + if OfPool(moves[0]) && Enabled(j.pool, moves[0]) then 1 else 0
  }

  /** The pool makes a bounded number of moves, whatever happens around it. */
  lemma {:induction false} PoolTerminates(j: Joint, moves: seq<Move>)
    requires PoolInv(j)
    ensures PoolMoves(j, moves) <= Remaining(j.pool)
    decreases |moves|
  {
    if moves != [] {
      MoveKeepsPool(j, moves[0]);
      if Enabled(j.pool, moves[0]) {
        MoveUsesUp(j.pool, moves[0], Stores(j, moves[0]));
      }
      PoolTerminates(Do(j, moves[0]), moves[1..]);
    }
  }

  /** And it never gets stuck before all workers have left, so waiting for them ends. */
  lemma PoolNeverStuck(j: Joint)
    requires PoolInv(j) && !AllLeft(j.pool)
    ensures exists move :: OfPool(move) && Enabled(j.pool, move)
  {
    var p := j.pool;
    var w: nat :| w < |p.workers| && p.workers[w] != Left;
    var move := match p.workers[w]
      case Fetching(_) => Break(w)
      case Reporting => Withdraw(w)
      case _ => if p.closed then Leave(w) else if p.next <= p.expected then Hand(w) else CloseJobs;
    assert OfPool(move) && Enabled(j.pool, move);
  }
}
