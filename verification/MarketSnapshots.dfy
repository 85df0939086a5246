/**
 What holds of market batches in every run: a published batch is whole, and the complete
 batches of a region are its current and previous snapshot.
 */
module MarketSnapshots {
  import opened Wrappers
  import opened MarketBatch

  // ---------------------------------------------------------------- what holds in every run

  lemma {:induction false} SizeUpTo(n: nat)
    ensures |UpTo(n)| == n
  {
    if n > 0 {
      SizeUpTo(n - 1);
    }
  }

  /** The pigeonhole argument: n pages in 1..n are all of them. */
  lemma AllOfThem(pages: set<int>, n: nat)
    requires pages <= UpTo(n) && |pages| == n
    ensures pages == UpTo(n)
  {
    SizeUpTo(n);
    var missing := UpTo(n) - pages;
    assert UpTo(n) == pages + missing && pages * missing == {};
    assert |missing| == 0;
  }

  /** The counter check means what it stands for: publication happens exactly if every page is there. */
  lemma PublishedWhenAllPages(s: System, id: string)
    requires Inv(s) && id in s.db.batches
    ensures Publishes(s.db, id) <==>
      && s.db.batches[id].state == Collecting && s.db.batches[id].expected.Some?
      && PagesOf(s.db, id) == UpTo(s.db.batches[id].expected.value)
  {
    assert BatchInv(s, id);
    if s.db.batches[id].expected.Some? {
      SizeUpTo(s.db.batches[id].expected.value);
      if Publishes(s.db, id) {
        AllOfThem(PagesOf(s.db, id), s.db.batches[id].expected.value);
      }
    }
  }

  /** Every page 1..n was appended, and the order count is that of the distinct orders appended. */
  ghost predicate Whole(s: System, id: string)
    requires id in s.db.batches
  {
    var b := s.db.batches[id];
    var pages :=
      && b.expected == Some(b.collected) && PagesOf(s.db, id) == UpTo(b.collected)
      && forall n :: 1 <= n <= b.collected <==> PageLogged(s.log, id, n);
    var orders :=
      && b.orderCount == |OrdersOf(s.db, id)|
      && forall o :: o in OrdersOf(s.db, id) <==> OrderLogged(s.log, id, o);
    pages && orders
  }

  lemma CountedIsWhole(s: System, id: string)
    requires Inv(s) && id in s.db.batches && s.db.batches[id].expected == Some(s.db.batches[id].collected)
    ensures Whole(s, id)
  {
    assert BatchInv(s, id);
    var b := s.db.batches[id];
    AllOfThem(PagesOf(s.db, id), b.collected);
    forall n
      ensures 1 <= n <= b.collected <==> PageLogged(s.log, id, n)
    {
      assert n in PagesOf(s.db, id) <==> n in UpTo(b.collected);
    }
  }

  /** In every run the snapshots of a region are whole, and the only complete batches it has. */
  lemma SnapshotsAreWhole(steps: seq<Step>, region: int, id: string)
    requires var db := Run(INIT, steps).db;
      region in db.snapshots && id in db.batches && db.batches[id].region == region
    ensures var s := Run(INIT, steps);
      && (s.db.batches[id].state == Complete <==> s.db.snapshots[region].Keeps(id))
      && (s.db.batches[id].state == Complete ==> Whole(s, id))
  {
    RunKeepsInv(INIT, steps);
    var s := Run(INIT, steps);
    assert BatchInv(s, id);
    if s.db.batches[id].state == Complete {
      CountedIsWhole(s, id);
    }
  }

  /** Both pointers always refer to batches that exist, of this region, and to different ones. */
  lemma PointersExist(steps: seq<Step>, region: int)
    requires region in Run(INIT, steps).db.snapshots
    ensures PointersHold(Run(INIT, steps).db, region)
  {
    RunKeepsInv(INIT, steps);
  }

  /** Appending to, failing or publishing a complete batch again changes nothing. */
  lemma CompleteIsFinal(s: System, id: string, page: int, expected: int, orders: seq<Order>)
    requires id in s.db.batches && s.db.batches[id].state == Complete
    ensures Do(s, FailBatch(id)) == s && Do(s, PublishBatch(id)) == s &&
      Do(s, AppendPage(id, page, expected, orders)) == s
  {
  }

  /** A published batch keeps its row, pages and orders for as long as it is kept at all. */
  lemma {:induction false} PublishedContentStays(s: System, steps: seq<Step>, id: string)
    requires Inv(s) && id in s.db.batches && s.db.batches[id].state == Complete
    requires id in Run(s, steps).db.batches
    ensures var db := Run(s, steps).db;
      && db.batches[id] == s.db.batches[id]
      && PagesOf(db, id) == PagesOf(s.db, id) && OrdersOf(db, id) == OrdersOf(s.db, id)
    decreases |steps|
  {
    if steps != [] {
      var s' := Do(s, steps[0]);
      assert BatchInv(s, id);
      StepKeepsInv(s, steps[0]);
      if id in s'.db.batches {
        StepKeepsComplete(s, steps[0], id);
        PublishedContentStays(s', steps[1..], id);
      } else {
        GoneForGood(s', steps[1..], id);
      }
    }
  }

  lemma StepKeepsComplete(s: System, step: Step, id: string)
    requires Inv(s) && id in s.db.batches && s.db.batches[id].state == Complete && id in Do(s, step).db.batches
    ensures var db := Do(s, step).db;
      && db.batches[id] == s.db.batches[id]
      && PagesOf(db, id) == PagesOf(s.db, id) && OrdersOf(db, id) == OrdersOf(s.db, id)
  {
    assert BatchInv(s, id);
    if step.PublishBatch? && Publishes(s.db, step.id) {
      PublishSame(s, step, id);
    } else if step.AppendPage? && Do(s, step) != s {
      InsertAllCounts(s.db.orders, step.id, step.orders);
    }
  }

  lemma {:induction false} GoneForGood(s: System, steps: seq<Step>, id: string)
    requires id in s.db.drawn && id !in s.db.batches
    ensures id !in Run(s, steps).db.batches
    decreases |steps|
  {
    if steps != [] {
      GoneForGood(Do(s, steps[0]), steps[1..], id);
    }
  }

  /** Publication moves the pointers on by one, and only those of the batch's region. */
  lemma PublishShifts(s: System, id: string, region: int)
    requires Inv(s) && Publishes(s.db, id)
    ensures var r := s.db.batches[id].region;
      var db := Do(s, PublishBatch(id)).db;
      && r in db.snapshots && db.snapshots[r].current == id
      && db.snapshots[r].previous == (if r in s.db.snapshots then Some(s.db.snapshots[r].current) else None)
      && (region != r ==> (region in db.snapshots <==> region in s.db.snapshots))
      && (region != r && region in db.snapshots ==> db.snapshots[region] == s.db.snapshots[region])
  {
  }
}
