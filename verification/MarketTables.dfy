/**
 The repository calls of relay-server/internal/marketdata/postgres.go on tables held in
 fields, each shown to be the transaction of module MarketBatch.
 */
module MarketTables {
  import opened Wrappers
  import opened MarketBatch
  import opened MarketSnapshots

  datatype Failure = InvalidInput | NotFound | BatchState | IncompleteBatch | IdTaken

  /** validOrder. */
  method CheckOrder(o: Order) returns (ok: bool)
    ensures ok <==> ValidOrder(o)
  {
    if o.id <= 0 || o.typeId <= 0 || o.typeId > MAX_ID || o.location <= 0 {
      return false;
    }
    if o.system <= 0 || o.system > MAX_ID || o.price < 0.0 {
      return false;
    }
    if o.total < 0 || o.remain < 0 || o.remain > o.total || o.minVolume <= 0 {
      return false;
    }
    if Blank(o.range) || |o.range| > 32 {
      return false;
    }
    ok := o.duration > 0 && o.issued != 0;
  }

  /** validatePage: it accepts exactly the valid pages. */
  method ValidatePage(page: int, expected: int, orders: seq<Order>) returns (ok: bool)
    ensures ok <==> ValidPage(page, expected, orders)
  {
    if page < 1 || expected < 1 || page > expected || expected > MAX_PAGES || |orders| > MAX_PER_PAGE {
      return false;
    }
    var seen: set<int> := {};
    for i := 0 to |orders|
      invariant forall k :: 0 <= k < i ==> ValidOrder(orders[k])
      invariant forall n :: n in seen <==> exists k :: 0 <= k < i && orders[k].id == n
      invariant forall j, k :: 0 <= j < k < i ==> orders[j].id != orders[k].id
    {
      var valid := CheckOrder(orders[i]);
      if !valid {
        return false;
      }
      if orders[i].id in seen {
        return false;
      }
      seen := seen + {orders[i].id};
    }
    ok := true;
  }

  class Tables {
    var batches: map<string, Batch>
    var pages: set<Page>
    var orders: map<Key, Order>
    var snapshots: map<int, Snapshot>
    ghost var drawn: set<string>
    ghost var log: seq<Appended>

    ghost function View(): System
      reads this
    {
      System(Db(batches, pages, orders, snapshots, drawn), log)
    }

    ghost predicate Valid()
      reads this
    {
      Inv(View())
    }

    constructor ()
      ensures Valid() && View() == INIT
    {
      batches, pages, orders, snapshots := map[], {}, map[], map[];
      drawn, log := {}, [];
    }

    /** BeginBatch; `id` is the UUID the database draws, which no batch had before. */
    method BeginBatch(id: string, region: int, startedAt: int) returns (r: Result<Batch, Failure>)
      requires Valid() && id !in drawn
      modifies this`batches, this`drawn
      ensures Valid() && View() == Do(old(View()), MarketBatch.BeginBatch(id, region, startedAt))
      ensures r.Success? <==> ValidRegion(region) && startedAt != 0
      ensures r.Success? ==>
        id in batches && r.value == batches[id] && r.value.state == Collecting && r.value.region == region
    {
      StepKeepsInv(View(), MarketBatch.BeginBatch(id, region, startedAt));
      if region <= 0 || region > MAX_ID || startedAt == 0 {
        return Failure(InvalidInput);
      }
      batches := batches[id := Batch(region, Collecting, None, 0, 0)];
      drawn := drawn + {id};
      r := Success(batches[id]);
    }

    /** The insert that skips the orders the batch already holds. */
    method InsertOrders(id: string, page: seq<Order>) returns (table: map<Key, Order>, inserted: nat)
      ensures (table, inserted) == InsertAll(orders, id, page)
    {
      table, inserted := orders, 0;
      for i := 0 to |page|
        invariant (table, inserted) == InsertAll(orders, id, page[..i])
      {
        assert page[..i + 1][..i] == page[..i];
        if Key(id, page[i].id) !in table {
          table := table[Key(id, page[i].id) := page[i]];
          inserted := inserted + 1;
        }
      }
      assert page[..|page|] == page;
    }

    method AppendPage(id: string, page: int, expected: int, content: seq<Order>) returns (r: Result<(), Failure>)
      requires Valid()
      modifies this`batches, this`pages, this`orders, this`log
      ensures Valid()
      ensures View() ==
        if Blank(id) then old(View()) else Do(old(View()), MarketBatch.AppendPage(id, page, expected, content))
      ensures r.Success? <==> !Blank(id) && Appends(old(View()).db, id, page, expected, content)
      ensures r == Failure(NotFound) <==> !Blank(id) && ValidPage(page, expected, content) && id !in old(batches)
      ensures r == Failure(BatchState) <==>
                && !Blank(id) && ValidPage(page, expected, content)
                && id in old(batches) && old(batches)[id].state != Collecting
    {
      if Blank(id) {
        return Failure(InvalidInput);
      }
      var ok := ValidatePage(page, expected, content);
      if !ok {
        return Failure(InvalidInput);
      }
      if id !in batches {
        return Failure(NotFound);
      }
      if batches[id].state != Collecting {
        return Failure(BatchState);
      }
      if batches[id].expected.Some? && batches[id].expected.value != expected {
        return Failure(InvalidInput);
      }
      if Page(id, page) in pages {
        return Failure(InvalidInput);
      }
      StorePage(id, page, expected, content);
      r := Success(());
    }

    /** The writes of AppendPage. */
    method StorePage(id: string, page: int, expected: int, content: seq<Order>)
      requires Valid() && Appends(View().db, id, page, expected, content)
      modifies this`batches, this`pages, this`orders, this`log
      ensures Valid() && View() == Do(old(View()), MarketBatch.AppendPage(id, page, expected, content))
    {
      StepKeepsInv(View(), MarketBatch.AppendPage(id, page, expected, content));
      var table, inserted := InsertOrders(id, content);
      log := log + [Appended(id, page, content)];
      pages, orders := pages + {Page(id, page)}, table;
      var b := batches[id];
      batches := batches[
        id := b.(expected := Some(expected), collected := b.collected + 1, orderCount := b.orderCount + inserted)];
    }

    /** The batches the delete of Publish removes. */
    method FindStale(region: int) returns (stale: set<string>)
      requires region in snapshots
      ensures forall id :: id in stale <==> Stale(batches, snapshots[region], region, id)
    {
      stale := {};
      var ids := batches.Keys;
      while ids != {}
        invariant ids <= batches.Keys
        invariant forall id :: id in stale <==> id !in ids && Stale(batches, snapshots[region], region, id)
        decreases |ids|
      {
        var id := AnyOf(ids);
        if batches[id].region == region && batches[id].state == Complete && !snapshots[region].Keeps(id) {
          stale := stale + {id};
        }
        ids := ids - {id};
      }
    }

    method DeleteStale(region: int)
      requires region in snapshots
      modifies this`batches, this`pages, this`orders
      ensures View().db == Prune(old(View().db), region)
    {
      var stale := FindStale(region);
      batches := map id | id in batches && id !in stale :: batches[id];
      pages := set p | p in pages && p.batch !in stale;
      orders := map k | k in orders && k.batch !in stale :: orders[k];
    }

    /** Publish: pointers, states and retention move together, or nothing does. */
    method Publish(id: string, completedAt: int, expiresAt: int) returns (r: Result<Snapshot, Failure>)
      requires Valid()
      modifies this`batches, this`pages, this`orders, this`snapshots
      ensures Valid()
      ensures r.Success? <==> r != Failure(InvalidInput) && Publishes(old(View()).db, id)
      ensures r.Success? ==> View() == Do(old(View()), PublishBatch(id)) && Whole(old(View()), id)
      ensures r.Success? ==> r.value.current == id && r.value == snapshots[old(batches)[id].region]
      ensures r.Failure? ==> View() == old(View())
      ensures r.Failure? && r.error != InvalidInput ==>
        r.error == if id !in batches then NotFound
                   else if batches[id].state != Collecting then BatchState
                   else IncompleteBatch
      ensures r == Failure(InvalidInput) <==>
                Blank(id) || completedAt == 0 || (expiresAt != 0 && expiresAt < completedAt)
    {
      if Blank(id) || completedAt == 0 || (expiresAt != 0 && expiresAt < completedAt) {
        return Failure(InvalidInput);
      }
      if id !in batches {
        return Failure(NotFound);
      }
      if batches[id].state != Collecting {
        return Failure(BatchState);
      }
      if batches[id].expected != Some(batches[id].collected) {
        return Failure(IncompleteBatch);
      }
      StepKeepsInv(View(), PublishBatch(id));
      CountedIsWhole(View(), id);
      var region := batches[id].region;
      batches := batches[id := batches[id].(state := Complete)];
      snapshots := Advance(snapshots, region, id);
      DeleteStale(region);
      r := Success(snapshots[region]);
    }

    /** Fail, with what went wrong. */
    method Fail(id: string, failure: string) returns (r: Result<(), Failure>)
      requires Valid()
      modifies this`batches
      ensures Valid() && View() == if Blank(failure) then old(View()) else Do(old(View()), FailBatch(id))
      ensures r == Failure(InvalidInput) <==> id == "" || Blank(failure)
      ensures r.Success? <==>
                id != "" && !Blank(failure) && id in old(batches) && old(batches)[id].state == Collecting
    {
      if id == "" || Blank(failure) {
        return Failure(InvalidInput);
      }
      StepKeepsInv(View(), FailBatch(id));
      if id !in batches || batches[id].state != Collecting {
        return Failure(BatchState);
      }
      batches := batches[id := batches[id].(state := State.Failed)];
      r := Success(());
    }
  }
}
