/**
 relay-server/internal/marketdata: batches of market pages that any number of collectors
 append to, fail and publish, and the snapshot pointers of each region. Each transaction of
 postgres.go is one guarded step on the tables.

 A batch holds the pages and orders of its committed appends. Publication looks at the
 counters alone, so they must agree with what is stored.
 */
module MarketBatch {
  import opened Wrappers

  datatype State = Collecting | Complete | Failed

  datatype Batch = Batch(region: int, state: State, expected: Option<int>, collected: nat, orderCount: nat)

  datatype Order = Order(
    id: int, typeId: int, location: int, system: int, price: real, total: int, remain: int, minVolume: int,
    range: string, duration: int, issued: int)

  datatype Page = Page(batch: string, number: int)

  datatype Key = Key(batch: string, order: int)

  datatype Snapshot = Snapshot(current: string, previous: Option<string>) {
    predicate Keeps(batch: string) { current == batch || previous == Some(batch) }
  }

  datatype Db = Db(
    batches: map<string, Batch>, pages: set<Page>, orders: map<Key, Order>,
    snapshots: map<int, Snapshot>, drawn: set<string>)

  const MAX_ID := 2147483647
  const MAX_PER_PAGE := 10000
  const MAX_PAGES := 10000

  predicate ValidRegion(id: int) { 0 < id <= MAX_ID }

  predicate ValidOrder(o: Order) {
    && o.id > 0 && 0 < o.typeId <= MAX_ID && o.location > 0 && 0 < o.system <= MAX_ID
    && o.price >= 0.0 && 0 <= o.remain <= o.total && o.minVolume > 0
    && !Blank(o.range) && |o.range| <= 32
    && o.duration > 0 && o.issued != 0
  }

  ghost predicate ValidPage(page: int, expected: int, orders: seq<Order>) {
    && 1 <= page <= expected <= MAX_PAGES && |orders| <= MAX_PER_PAGE
    && (forall i :: 0 <= i < |orders| ==> ValidOrder(orders[i]))
    && (forall i, j :: 0 <= i < j < |orders| ==> orders[i].id != orders[j].id)
  }

  // ---------------------------------------------------------------- the transactions

  ghost function Begin(db: Db, id: string, region: int, startedAt: int): Db {
    if !ValidRegion(region) || startedAt == 0 || id in db.drawn then db
    else db.(batches := db.batches[id := Batch(region, Collecting, None, 0, 0)], drawn := db.drawn + {id})
  }

  /** The insert that skips orders the batch already holds, and the number it inserted. */
  function InsertAll(table: map<Key, Order>, batch: string, orders: seq<Order>): (map<Key, Order>, nat) {
    if orders == [] then (table, 0)
    else
      var (before, n) := InsertAll(table, batch, orders[..|orders| - 1]);
      var o := orders[|orders| - 1];
      if Key(batch, o.id) in before then (before, n) else (before[Key(batch, o.id) := o], n + 1)
  }

  ghost predicate Appends(db: Db, id: string, page: int, expected: int, orders: seq<Order>) {
    && ValidPage(page, expected, orders) && id in db.batches && db.batches[id].state == Collecting
    && (db.batches[id].expected == None || db.batches[id].expected == Some(expected))
    && Page(id, page) !in db.pages
  }

  ghost function Append(db: Db, id: string, page: int, expected: int, orders: seq<Order>): Db {
    if !Appends(db, id, page, expected, orders) then db
    else
      var (table, inserted) := InsertAll(db.orders, id, orders);
      var b := db.batches[id];
      db.(pages := db.pages + {Page(id, page)}, orders := table,
          batches := db.batches[id :=
            b.(expected := Some(expected), collected := b.collected + 1, orderCount := b.orderCount + inserted)])
  }

  predicate Publishes(db: Db, id: string) {
    && id in db.batches && db.batches[id].state == Collecting
    && db.batches[id].expected == Some(db.batches[id].collected)
  }

  function Advance(snapshots: map<int, Snapshot>, region: int, id: string): map<int, Snapshot> {
    snapshots[region := Snapshot(id, if region in snapshots then Some(snapshots[region].current) else None)]
  }

  /** The complete batches of the region that neither pointer keeps. */
  ghost predicate Stale(batches: map<string, Batch>, snapshot: Snapshot, region: int, id: string) {
    id in batches && batches[id].region == region && batches[id].state == Complete && !snapshot.Keeps(id)
  }

  /** The delete, which takes pages and orders of the deleted batches along. */
  ghost function Prune(db: Db, region: int): Db
    requires region in db.snapshots
  {
    var batches, snapshot := db.batches, db.snapshots[region];
    db.(batches := (map id | id in batches && !Stale(batches, snapshot, region, id) :: batches[id]),
        pages := (set p | p in db.pages && !Stale(batches, snapshot, region, p.batch)),
        orders := (map k | k in db.orders && !Stale(batches, snapshot, region, k.batch) :: db.orders[k]))
  }

  ghost function Publish(db: Db, id: string): Db {
    if !Publishes(db, id) then db
    else
      var region := db.batches[id].region;
      Prune(db.(batches := db.batches[id := db.batches[id].(state := Complete)],
                snapshots := Advance(db.snapshots, region, id)), region)
  }

  function Fail(db: Db, id: string): Db {
    if id != "" && id in db.batches && db.batches[id].state == Collecting
    then db.(batches := db.batches[id := db.batches[id].(state := Failed)]) else db
  }

  // ---------------------------------------------------------------- the system

  /** A committed AppendPage. */
  datatype Appended = Appended(batch: string, page: int, orders: seq<Order>)

  datatype System = System(db: Db, log: seq<Appended>)

  const INIT := System(Db(map[], {}, map[], map[], {}), [])

  datatype Step =
    | BeginBatch(id: string, region: int, startedAt: int)
    | AppendPage(id: string, page: int, expected: int, orders: seq<Order>)
    | PublishBatch(id: string)
    | FailBatch(id: string)

  ghost function Do(s: System, step: Step): System {
    match step
    case BeginBatch(id, region, at) => s.(db := Begin(s.db, id, region, at))
    case AppendPage(id, page, expected, orders) =>
      if Appends(s.db, id, page, expected, orders)
      then System(Append(s.db, id, page, expected, orders), s.log + [Appended(id, page, orders)])
      else s
    case PublishBatch(id) => s.(db := Publish(s.db, id))
    case FailBatch(id) => s.(db := Fail(s.db, id))
  }

  ghost function Run(s: System, steps: seq<Step>): System
    decreases |steps|
  {
    if steps == [] then s else Run(Do(s, steps[0]), steps[1..])
  }

  // ---------------------------------------------------------------- the invariant

  ghost function PagesOf(db: Db, id: string): set<int> {
    set p | p in db.pages && p.batch == id :: p.number
  }

  ghost function OrdersOf(db: Db, id: string): set<int> {
    set k | k in db.orders && k.batch == id :: k.order
  }

  function UpTo(n: int): (r: set<int>)
    ensures forall k :: k in r <==> 1 <= k <= n
  {
    if n <= 0 then {} else UpTo(n - 1) + {n}
  }

  ghost predicate CountsHold(db: Db, id: string)
    requires id in db.batches
  {
    var b := db.batches[id];
    && b.collected == |PagesOf(db, id)| && b.orderCount == |OrdersOf(db, id)|
    && match b.expected
       case None => PagesOf(db, id) == {}
       case Some(e) => 1 <= e <= MAX_PAGES && PagesOf(db, id) <= UpTo(e)
  }

  ghost predicate StateHolds(db: Db, id: string)
    requires id in db.batches
  {
    var b := db.batches[id];
    && id in db.drawn
    && (b.state == Complete ==> b.expected == Some(b.collected))
    && (b.state == Complete <==> b.region in db.snapshots && db.snapshots[b.region].Keeps(id))
  }

  ghost predicate PointersHold(db: Db, region: int)
    requires region in db.snapshots
  {
    var s := db.snapshots[region];
    var current := Points(db, region, s.current) && s.previous != Some(s.current);
    var previous := s.previous.Some? ==> Points(db, region, s.previous.value);
    current && previous
  }

  ghost predicate Points(db: Db, region: int, id: string) {
    id in db.batches && db.batches[id].region == region && db.batches[id].state == Complete
  }

  /** The pages and orders of a batch are those of its committed appends. */
  ghost predicate ContentHolds(s: System, id: string)
    requires id in s.db.batches
  {
    && (forall n :: n in PagesOf(s.db, id) <==> PageLogged(s.log, id, n))
    && (forall o :: o in OrdersOf(s.db, id) <==> OrderLogged(s.log, id, o))
  }

  ghost predicate PageLogged(log: seq<Appended>, id: string, n: int) {
    exists i :: 0 <= i < |log| && log[i].batch == id && log[i].page == n
  }

  ghost predicate OrderLogged(log: seq<Appended>, id: string, o: int) {
    exists i :: 0 <= i < |log| && log[i].batch == id && HasOrder(log[i].orders, o)
  }

  ghost predicate HasOrder(orders: seq<Order>, o: int) {
    exists k :: 0 <= k < |orders| && orders[k].id == o
  }

  ghost predicate BatchInv(s: System, id: string)
    requires id in s.db.batches
  {
    var counters, content := CountsHold(s.db, id) && StateHolds(s.db, id), ContentHolds(s, id);
    counters && content
  }

  /** Rows belong to batches, and batches, rows and log entries to drawn IDs. */
  ghost predicate RowsHold(s: System) {
    var rows := (forall p :: p in s.db.pages ==> p.batch in s.db.batches) &&
      (forall k :: k in s.db.orders ==> k.batch in s.db.batches);
    rows && forall i :: 0 <= i < |s.log| ==> s.log[i].batch in s.db.drawn
  }

  ghost predicate Inv(s: System) {
    var batches := forall id {:trigger BatchInv(s, id)} :: id in s.db.batches ==> BatchInv(s, id);
    var pointers := forall r {:trigger PointersHold(s.db, r)} :: r in s.db.snapshots ==> PointersHold(s.db, r);
    var rows := RowsHold(s);
    rows && batches && pointers
  }

  // ---------------------------------------------------------------- inserting orders

  lemma {:induction false} InsertAllCounts(table: map<Key, Order>, id: string, orders: seq<Order>)
    ensures var (after, n) := InsertAll(table, id, orders);
      && (forall k :: k in after <==> k in table || (k.batch == id && HasOrder(orders, k.order)))
      && (forall k :: k in table ==> after[k] == table[k])
      && |Held(after, id)| == |Held(table, id)| + n
  {
    if orders != [] {
      var m := |orders| - 1;
      var o := orders[m];
      InsertAllCounts(table, id, orders[..m]);
      var before, after := InsertAll(table, id, orders[..m]).0, InsertAll(table, id, orders).0;
      forall k
        ensures k in after <==> k in table || (k.batch == id && HasOrder(orders, k.order))
      {
      }
      if Key(id, o.id) !in before {
        HeldMore(before, id, o);
      }
    }
  }

  ghost function Held(table: map<Key, Order>, id: string): set<int> {
    set k | k in table && k.batch == id :: k.order
  }

  lemma HeldMore(table: map<Key, Order>, id: string, o: Order)
    requires Key(id, o.id) !in table
    ensures var after := table[Key(id, o.id) := o]; |Held(after, id)| == |Held(table, id)| + 1
  {
    var after := table[Key(id, o.id) := o];
    forall n
      ensures n in Held(after, id) <==> n in Held(table, id) || n == o.id
    {
      assert n in Held(after, id) <==> Key(id, n) in after;
      assert n in Held(table, id) <==> Key(id, n) in table;
    }
    assert o.id !in Held(table, id);
    assert Held(after, id) == Held(table, id) + {o.id};
  }

  // ---------------------------------------------------------------- steps keep the invariant

  /** What the batches, pages and orders that step does not touch need for their invariant. */
  ghost predicate SameBatch(s: System, s': System, id: string) {
    && id in s.db.batches && id in s'.db.batches
    && PagesOf(s'.db, id) == PagesOf(s.db, id) && OrdersOf(s'.db, id) == OrdersOf(s.db, id)
    && (forall n :: PageLogged(s'.log, id, n) <==> PageLogged(s.log, id, n))
    && (forall o :: OrderLogged(s'.log, id, o) <==> OrderLogged(s.log, id, o))
    && s'.db.batches[id].(state := Collecting) == s.db.batches[id].(state := Collecting)
  }

  lemma BeginKeeps(s: System, step: Step, id: string)
    requires Inv(s) && step.BeginBatch? && id in Do(s, step).db.batches
    ensures BatchInv(Do(s, step), id)
  {
    var s' := Do(s, step);
    if id in s.db.batches {
      assert BatchInv(s, id);
      assert SameBatch(s, s', id);
    } else {
      assert PagesOf(s'.db, id) == {} && OrdersOf(s'.db, id) == {};
      if s.db.batches[id := s'.db.batches[id]] == s'.db.batches && s'.db.batches[id].region in s.db.snapshots {
        assert PointersHold(s.db, s'.db.batches[id].region);
      }
    }
  }

  lemma FailKeeps(s: System, step: Step, id: string)
    requires Inv(s) && step.FailBatch? && id in Do(s, step).db.batches
    ensures BatchInv(Do(s, step), id)
  {
    assert BatchInv(s, id);
    assert SameBatch(s, Do(s, step), id);
  }

  lemma AppendKeepsOther(s: System, step: Step, id: string)
    requires Inv(s) && step.AppendPage? && id in s.db.batches && id != step.id
    ensures BatchInv(Do(s, step), id)
  {
    var s' := Do(s, step);
    assert BatchInv(s, id);
    if s' != s {
      InsertAllCounts(s.db.orders, step.id, step.orders);
      LogOther(s.log, s'.log[|s.log|], id);
      AppendKeepsRows(s, step, id);
    }
  }

  lemma AppendKeepsRows(s: System, step: Step, id: string)
    requires step.AppendPage? && id in s.db.batches && id != step.id
    ensures var db := Do(s, step).db;
      && id in db.batches && db.batches[id] == s.db.batches[id]
      && PagesOf(db, id) == PagesOf(s.db, id) && OrdersOf(db, id) == OrdersOf(s.db, id)
  {
    InsertAllCounts(s.db.orders, step.id, step.orders);
  }

  lemma LogOther(log: seq<Appended>, last: Appended, id: string)
    requires last.batch != id
    ensures forall n :: PageLogged(log + [last], id, n) <==> PageLogged(log, id, n)
    ensures forall o :: OrderLogged(log + [last], id, o) <==> OrderLogged(log, id, o)
  {
    forall n
      ensures PageLogged(log + [last], id, n) <==> PageLogged(log, id, n)
    {
      LoggedMore(log, last, id, n);
    }
    forall o
      ensures OrderLogged(log + [last], id, o) <==> OrderLogged(log, id, o)
    {
      LoggedMore(log, last, id, o);
    }
  }

  lemma LoggedMore(log: seq<Appended>, last: Appended, id: string, n: int)
    ensures PageLogged(log + [last], id, n) <==> PageLogged(log, id, n) || (last.batch == id && last.page == n)
    ensures OrderLogged(log + [last], id, n) <==>
      OrderLogged(log, id, n) || (last.batch == id && HasOrder(last.orders, n))
  {
    var more := log + [last];
    assert more[|log|] == last;
    if PageLogged(log, id, n) {
      var i :| 0 <= i < |log| && log[i].batch == id && log[i].page == n;
      assert more[i] == log[i];
    }
    if OrderLogged(log, id, n) {
      var i :| 0 <= i < |log| && log[i].batch == id && HasOrder(log[i].orders, n);
      assert more[i] == log[i];
    }
  }

  lemma AppendKeepsOwn(s: System, step: Step)
    requires Inv(s) && step.AppendPage? && Appends(s.db, step.id, step.page, step.expected, step.orders)
    ensures BatchInv(Do(s, step), step.id)
  {
    var s', id := Do(s, step), step.id;
    assert BatchInv(s, id);
    AppendedContent(s, step);
    AppendedCounts(s, step);
  }

  lemma AppendedCounts(s: System, step: Step)
    requires Inv(s) && step.AppendPage? && Appends(s.db, step.id, step.page, step.expected, step.orders)
    ensures CountsHold(Do(s, step).db, step.id)
  {
    var db', id := Do(s, step).db, step.id;
    assert CountsHold(s.db, id) by {
      assert BatchInv(s, id);
    }
    PagesMore(s.db, db', id, step.page);
    InsertAllCounts(s.db.orders, id, step.orders);
    assert Held(s.db.orders, id) == OrdersOf(s.db, id) && Held(db'.orders, id) == OrdersOf(db', id);
  }

  lemma PagesMore(db: Db, db': Db, id: string, page: int)
    requires db'.pages == db.pages + {Page(id, page)} && Page(id, page) !in db.pages
    ensures PagesOf(db', id) == PagesOf(db, id) + {page} && |PagesOf(db', id)| == |PagesOf(db, id)| + 1
  {
  }

  lemma AppendedContent(s: System, step: Step)
    requires Inv(s) && step.AppendPage? && Appends(s.db, step.id, step.page, step.expected, step.orders)
    ensures ContentHolds(Do(s, step), step.id)
  {
    var s', id := Do(s, step), step.id;
    assert BatchInv(s, id);
    var last := Appended(id, step.page, step.orders);
    forall n
      ensures n in PagesOf(s'.db, id) <==> PageLogged(s'.log, id, n)
    {
      PagesMore(s.db, s'.db, id, step.page);
      LoggedMore(s.log, last, id, n);
    }
    forall o
      ensures o in OrdersOf(s'.db, id) <==> OrderLogged(s'.log, id, o)
    {
      InsertAllCounts(s.db.orders, id, step.orders);
      LoggedMore(s.log, last, id, o);
      assert o in OrdersOf(s'.db, id) <==> Key(id, o) in s'.db.orders;
      assert o in OrdersOf(s.db, id) <==> Key(id, o) in s.db.orders;
    }
  }

  /** The batches that survive a publication keep their rows; the published one gets complete. */
  lemma PublishKeeps(s: System, step: Step, id: string)
    requires Inv(s) && step.PublishBatch? && Publishes(s.db, step.id) && id in Do(s, step).db.batches
    ensures BatchInv(Do(s, step), id) && id in s.db.batches
  {
    var s' := Do(s, step);
    var region := s.db.batches[step.id].region;
    assert id in s.db.batches && BatchInv(s, id) && BatchInv(s, step.id);
    PublishSame(s, step, id);
    assert StateHolds(s'.db, id) by {
      if region in s.db.snapshots {
        assert PointersHold(s.db, region);
      }
    }
  }

  lemma PublishSame(s: System, step: Step, id: string)
    requires step.PublishBatch? && Publishes(s.db, step.id) && id in Do(s, step).db.batches
    ensures SameBatch(s, Do(s, step), id)
    ensures Do(s, step).db.batches[id].state == if id == step.id then Complete else s.db.batches[id].state
  {
  }

  lemma StepKeepsBatch(s: System, step: Step, id: string)
    requires Inv(s) && id in Do(s, step).db.batches
    ensures BatchInv(Do(s, step), id)
  {
    match step
    case BeginBatch(_, _, _) => BeginKeeps(s, step, id);
    case FailBatch(_) => FailKeeps(s, step, id);
    case PublishBatch(_) =>
      if Publishes(s.db, step.id) {
        PublishKeeps(s, step, id);
      } else {
        assert BatchInv(s, id);
      }
    case AppendPage(_, _, _, _) =>
      if id != step.id {
        AppendKeepsOther(s, step, id);
      } else if Appends(s.db, step.id, step.page, step.expected, step.orders) {
        AppendKeepsOwn(s, step);
      } else {
        assert BatchInv(s, id);
      }
  }

  lemma StepKeepsPointers(s: System, step: Step, r: int)
    requires Inv(s) && r in Do(s, step).db.snapshots
    ensures PointersHold(Do(s, step).db, r)
  {
    var db, db' := s.db, Do(s, step).db;
    if r in db.snapshots {
      assert PointersHold(db, r);
      assert BatchInv(s, db.snapshots[r].current);
    }
    if step.PublishBatch? && Publishes(db, step.id) {
      assert BatchInv(s, step.id);
    } else {
      forall id | Points(db, r, id)
        ensures Points(db', r, id)
      {
        PointsStay(s, step, r, id);
      }
    }
  }

  lemma PointsStay(s: System, step: Step, r: int, id: string)
    requires Inv(s) && Points(s.db, r, id) && !(step.PublishBatch? && Publishes(s.db, step.id))
    ensures Points(Do(s, step).db, r, id)
  {
    assert BatchInv(s, id);
  }

  lemma StepKeepsRows(s: System, step: Step)
    requires Inv(s)
    ensures RowsHold(Do(s, step))
  {
    var s' := Do(s, step);
    if step.AppendPage? && s' != s {
      InsertAllCounts(s.db.orders, step.id, step.orders);
      assert BatchInv(s, step.id);
    }
  }

  lemma StepKeepsInv(s: System, step: Step)
    requires Inv(s)
    ensures Inv(Do(s, step))
  {
    var s' := Do(s, step);
    StepKeepsRows(s, step);
    forall id | id in s'.db.batches
      ensures BatchInv(s', id)
    {
      StepKeepsBatch(s, step, id);
    }
    forall r | r in s'.db.snapshots
      ensures PointersHold(s'.db, r)
    {
      StepKeepsPointers(s, step, r);
    }
  }

  lemma {:induction false} RunKeepsInv(s: System, steps: seq<Step>)
    requires Inv(s)
    ensures Inv(Run(s, steps))
    decreases |steps|
  {
    if steps != [] {
      StepKeepsInv(s, steps[0]);
      RunKeepsInv(Do(s, steps[0]), steps[1..]);
    }
  }
}
