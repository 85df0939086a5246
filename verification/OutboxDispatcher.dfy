/**
 The repository calls of transactional_outbox.go on tables held in fields, and the loop of
 realtime/outbox.go's Dispatch on top of them. Each call is shown to be the statement of
 module Outbox, so what is proved there about runs covers these methods.
 */
module OutboxDispatcher {
  import opened Wrappers
  import opened Outbox

  /** What ClaimOutbox returns of a row. */
  datatype Record = Record(id: string, token: nat, row: Row)

  datatype PutError = UnknownConversation | Forbidden | IdTaken

  const MINUTE := 60 * SECOND

  /** The claims of one ClaimOutbox call, row by row. */
  ghost function ClaimAll(db: Db, records: seq<Record>, now: int, until: int): Db
    decreases |records|
  {
    if records == [] then db
    else
      var last := records[|records| - 1];
      Claim(ClaimAll(db, records[..|records| - 1], now, until), last.id, last.token, now, until)
  }

  class Tables {
    var conversations: map<string, Conversation>
    var messages: map<string, Message>
    var outbox: map<string, Row>
    var delivered: seq<Delivery>
    ghost var drawn: set<nat>
    var next: nat

    ghost function View(): Db
      reads this
    {
      Db(conversations, messages, outbox, delivered, drawn)
    }

    ghost predicate Valid()
      reads this
    {
      DbInv(View()) && TokensBelow()
    }

    ghost predicate TokensBelow()
      reads this
    {
      forall t :: t in drawn ==> t < next
    }

    constructor ()
      ensures Valid() && View() == INIT.db
    {
      conversations, messages, outbox, delivered := map[], map[], map[], [];
      drawn, next := {}, 0;
    }

    /** A random claim token; only its freshness matters. */
    method DrawToken() returns (t: nat)
      requires forall k :: k in drawn ==> k < next
      modifies this`next
      ensures t !in drawn && t < next && forall k :: k in drawn ==> k < next
    {
      t := next;
      next := next + 1;
    }

    /** The insert of the message, unless its client ID is known, and of its intent. */
    method PutMessageWithEvent(m: Message, account: string, payload: string, now: int)
      returns (r: Result<(Message, bool), PutError>)
      requires Valid()
      modifies this`messages, this`outbox
      ensures Valid()
      ensures r.Failure? ==> View() == old(View())
      ensures r.Failure? && r.error != Forbidden ==> Put(old(View()), m, payload, now) == old(View())
      ensures r == Failure(UnknownConversation) <==> m.conversation !in conversations
      ensures r == Failure(Forbidden) <==>
                m.conversation in conversations && account != "" && account != conversations[m.conversation].account
      ensures r.Success? ==>
        View() == Put(old(View()), m, payload, now) && r.value.0.id in messages && SameClient(r.value.0, m)
      ensures r.Success? ==> (r.value.1 <==> Duplicate(old(View()), m))
      ensures r.Success? && !r.value.1 ==> r.value.0 == m && messages == old(messages)[m.id := m]
      ensures r.Success? && !r.value.1 && PREFIX + m.id !in old(outbox) ==>
        var c := conversations[m.conversation];
        outbox == old(outbox)[PREFIX + m.id := Row(c.account, c.device, payload, now, Pending, 0, None, now)]
    {
      KeepsDbInv(View(), PutMessage(m, payload, now));
      if m.conversation !in conversations {
        return Failure(UnknownConversation);
      }
      if account != "" && account != conversations[m.conversation].account {
        return Failure(Forbidden);
      }
      if id :| id in messages && messages[id].conversation == m.conversation &&
               messages[id].sender == m.sender && messages[id].clientId == m.clientId
      {
        return Success((messages[id], true));
      }
      assert !Duplicate(View(), m);
      if m.id in messages {
        return Failure(IdTaken);
      }
      messages := messages[m.id := m];
      if RowId(m.id) !in outbox {
        outbox := outbox[RowId(m.id) :=
          Row(conversations[m.conversation].account, conversations[m.conversation].device, payload, now, Pending, 0,
              None, now)];
      }
      r := Success((m, false));
    }

    /** The first statement of the claim: the oldest eligible rows that are not locked. */
    method OldestEligible(now: int, locked: set<string>) returns (r: Option<string>)
      ensures r.None? ==> forall id :: id in outbox && outbox[id].Eligible(now) ==> id in locked
      ensures r.Some? ==> r.value in outbox && outbox[r.value].Eligible(now) && r.value !in locked
      ensures r.Some? ==> forall id :: id in outbox && outbox[id].Eligible(now) && id !in locked ==>
                outbox[r.value].createdAt <= outbox[id].createdAt
    {
      r := None;
      var ids := outbox.Keys;
      while ids != {}
        invariant ids <= outbox.Keys
        invariant r.None? ==> forall id :: id in outbox && id !in ids && outbox[id].Eligible(now) ==> id in locked
        invariant r.Some? ==> r.value in outbox && outbox[r.value].Eligible(now) && r.value !in locked
        invariant r.Some? ==> forall id :: id in outbox && id !in ids && outbox[id].Eligible(now) && id !in locked ==>
                    outbox[r.value].createdAt <= outbox[id].createdAt
        decreases |ids|
      {
        var id := AnyOf(ids);
        var row := outbox[id];
        var due := (row.status == Pending && row.availableAt <= now)
                   || (row.status == Processing && row.availableAt <= now)
                   || (row.status == Failed && row.availableAt <= now);
        if due && id !in locked && (r.None? || outbox[id].createdAt < outbox[r.value].createdAt) {
          r := Some(id);
        }
        ids := ids - {id};
      }
    }

    /** ClaimOutbox: leases the picked rows, each under a token of its own. */
    method ClaimOutbox(limit: int, now: int, lease: int, locked: set<string>) returns (records: seq<Record>)
      requires Valid()
      modifies this`outbox, this`drawn, this`next
      ensures Valid()
      ensures Picks(old(outbox), now, Limit(limit), locked, Ids(records))
      ensures View() == ClaimAll(old(View()), records, now, now + Lease(lease))
      ensures Leased(old(View()), View(), records, now + Lease(lease))
    {
      ghost var before := View();
      var count, until := Defaults(limit, now, lease);
      records := ClaimRows(count, now, until, locked);
      ClaimAllKeepsDbInv(before, records, now, now + Lease(lease));
    }

    /** What the call does about a limit or a lease that it cannot use. */
    method Defaults(limit: int, now: int, lease: int) returns (count: nat, until: int)
      ensures count == Limit(limit) && until == now + Lease(lease)
    {
      if limit <= 0 || limit > 1000 {
        count := 100;
      } else {
        count := limit;
      }
      until := now + lease;
      if lease <= 0 {
        until := now + 5 * MINUTE;
      }
    }

    method ClaimRows(limit: nat, now: int, until: int, locked: set<string>) returns (records: seq<Record>)
      requires TokensBelow()
      modifies this`outbox, this`drawn, this`next
      ensures TokensBelow()
      ensures Picks(old(outbox), now, limit, locked, Ids(records))
      ensures Claimed(old(View()), View(), records, now, until, locked)
    {
      records := [];
      ghost var before, exhausted := View(), false;
      while |records| < limit
        invariant !exhausted && TokensBelow() && |records| <= limit
        invariant Claimed(before, View(), records, now, until, locked)
        decreases limit - |records|
      {
        var pick := OldestEligible(now, locked + Ids(records));
        if pick.None? {
          NothingLeft(before, View(), records, until, now, locked);
          exhausted := true;
          break;
        }
        ghost var db := View();
        var record := ClaimOne(pick.value, now, until);
        ClaimedOneMore(before, db, View(), records, record, now, until, locked);
        records := records + [record];
      }
      DistinctCount(records);
      ThesePicked(before, now, limit, locked, Ids(records), exhausted);
    }

    method ClaimOne(id: string, now: int, until: int) returns (record: Record)
      requires TokensBelow() && id in outbox && outbox[id].Eligible(now)
      modifies this`outbox, this`drawn, this`next
      ensures TokensBelow() && record.id == id && record.token !in old(drawn)
      ensures record.row == old(outbox)[id].Claim(record.token, until) && outbox == old(outbox)[id := record.row]
      ensures View() == Claim(old(View()), id, record.token, now, until)
    {
      var token := DrawToken();
      var row := outbox[id];
      record := Record(id, token,
        row.(status := Processing, attempts := row.attempts + 1, token := Some(token), availableAt := until));
      outbox := outbox[id := record.row];
      drawn := drawn + {token};
    }

    method CompleteOutbox(id: string, token: nat) returns (ok: bool)
      requires Valid()
      modifies this`outbox
      ensures ok == Holds(old(View()), id, token) && View() == Complete(old(View()), id, token)
      ensures old(Holds(View(), id, token) ==> Delivered(View(), id)) ==> Valid()
    {
      if Holds(View(), id, token) ==> Delivered(View(), id) {
        CompleteKeepsDbInv(View(), id, token);
      }
      ok := id in outbox && outbox[id].status == Processing && outbox[id].token == Some(token);
      if ok {
        outbox := outbox[id := outbox[id].(status := Published, token := None)];
      }
    }

    method FailOutbox(id: string, token: nat, at: int) returns (ok: bool)
      requires Valid()
      modifies this`outbox
      ensures Valid() && ok == Holds(old(View()), id, token) && View() == Fail(old(View()), id, token, at)
    {
      FailKeepsDbInv(View(), id, token, at);
      ok := id in outbox && outbox[id].status == Processing && outbox[id].token == Some(token);
      if ok {
        outbox := outbox[id := outbox[id].(status := Failed, token := None, availableAt := at + SECOND)];
      }
    }

    /**
     Delivery.Publish for a claimed row: it succeeds exactly if the database does not lose it and
     no event of another target has the row's ID. A lost one may have written the event all the same.
     */
    method PublishDelivery(record: Record) returns (ok: bool, ghost lost: bool)
      requires Valid() && record.id in outbox
      requires record.row.account == outbox[record.id].account && record.row.device == outbox[record.id].device
      modifies this`delivered
      ensures Valid() && (ok <==> !lost && !Blocked(old(View()), record.id)) && (ok ==> Delivered(View(), record.id))
      ensures var row := record.row;
        || delivered == old(delivered)
        || delivered == old(delivered) + [Delivery(record.id, row.account, row.device, row.payload)]
      ensures ok && !old(HasEvent(View(), record.id)) ==> delivered != old(delivered)
    {
      var failed: bool := *;
      var written: bool := *;
      lost := failed;
      if failed && !written {
        return false, true;
      }
      var d := Delivery(record.id, record.row.account, record.row.device, record.row.payload);
      var i := 0;
      while i < |delivered|
        invariant 0 <= i <= |delivered| && forall k :: 0 <= k < i ==> delivered[k].id != d.id
      {
        if delivered[i].id == d.id {
          OneEvent(View(), i);
          ok := !failed && delivered[i].account == d.account && delivered[i].device == d.device;
          return;
        }
        i := i + 1;
      }
      KeepsDbInv(View(), PublishOther(d));
      delivered := delivered + [d];
      ok := !failed;
      assert delivered[|delivered| - 1] == d;
    }

    /** One turn of the loop; each statement can fail for reasons of the database, applied or not. */
    method SettleOne(record: Record, now: int) returns (ending: Ending, ok: bool, ghost fate: Fate)
      requires Valid() && RowAfter(View(), record, StillLeased, now)
      modifies this`outbox, this`delivered
      ensures Valid() && RowAfter(View(), record, ending, now) && OnlyRow(old(View()), View(), record.id)
      ensures Deserved(ending, fate, old(Blocked(View(), record.id)))
      ensures ok <==> !(fate.down && !fate.lost && !old(Blocked(View(), record.id)))
    {
      var published;
      ghost var lost;
      published, lost := PublishDelivery(record);
      var down: bool := *;
      var applied: bool := *;
      fate := Fate(lost, down);
      ending, ok := StillLeased, true;
      if !published {
        if !down || applied {
          var failed := FailOutbox(record.id, record.token, now);
          ending := Again;
        }
      } else if down {
        if applied {
          var unheard := CompleteOutbox(record.id, record.token);
          ending := Unheard;
        }
        ok := false;
      } else {
        var done := CompleteOutbox(record.id, record.token);
        ending := if done then Sent else StillLeased;
      }
    }

    /**
     Dispatch without interference: a claimed row ends published exactly if the database lost
     neither its publication nor its completion and its ID is not taken by another target; else it
     is failed and due again a second later, or is left as the database left it. It stops at a
     completion that is reported as failed. The count is that of the completions.
     */
    method Dispatch(limit: int, now: int, lease: int, locked: set<string>)
      returns (completed: nat, ok: bool, ghost claimed: seq<Record>, ghost endings: seq<Ending>, ghost fates: seq<Fate>)
      requires Valid()
      modifies this`outbox, this`delivered, this`drawn, this`next
      ensures Valid() && Picks(old(outbox), now, Limit(limit), locked, Ids(claimed))
      ensures Settled(old(View()), View(), claimed, endings, now) && completed == Count(endings)
      ensures Fated(old(View()), claimed, endings, fates) && (ok ==> |endings| == |claimed|)
      ensures !ok ==> |fates| > 0 && fates[|fates| - 1].down
      ensures AllWell(old(View()), claimed, fates) ==> ok && completed == |claimed|
    {
      ghost var before := View();
      var records := ClaimOutbox(limit, now, lease, locked);
      claimed := records;
      ClaimedIsUnsettled(before, View(), records, now + Lease(lease), now);
      completed, ok, endings, fates := SettleAll(records, now, before);
      AllAreSent(before, claimed, endings, fates, ok);
    }

    method SettleAll(records: seq<Record>, now: int, ghost before: Db)
      returns (completed: nat, ok: bool, ghost endings: seq<Ending>, ghost fates: seq<Fate>)
      requires Valid() && Settled(before, View(), records, [], now) && SameBlocks(before, View(), records, 0)
      modifies this`outbox, this`delivered
      ensures Valid() && Settled(before, View(), records, endings, now) && completed == Count(endings)
      ensures Fated(before, records, endings, fates) && (ok ==> |endings| == |records|)
      ensures !ok ==> |fates| > 0 && fates[|fates| - 1].down
    {
      completed, ok, endings, fates := 0, true, [], [];
      var i := 0;
      while i < |records|
        invariant 0 <= i <= |records| && |endings| == i && Valid() && ok
        invariant Settled(before, View(), records, endings, now) && completed == Count(endings)
        invariant Fated(before, records, endings, fates) && SameBlocks(before, View(), records, i)
      {
        ghost var db := View();
        assert RowAfter(db, records[i], StillLeased, now);
        var ending;
        ghost var fate;
        ending, ok, fate := SettleOne(records[i], now);
        SettledOneMore(before, db, View(), records, endings, ending, now);
        FatedOneMore(before, db, records, endings, fates, ending, fate);
        BlocksStay(before, db, View(), records, i);
        CountMore(endings, ending);
        endings, fates := endings + [ending], fates + [fate];
        if !ok {
          return;
        }
        if ending == Sent {
          completed := completed + 1;
        }
        i := i + 1;
      }
    }
  }

  /** What the database did with the publication and with the completion or failure of a row. */
  datatype Fate = Fate(lost: bool, down: bool)

  /** The ending that the fate of a row allows. */
  ghost predicate Deserved(ending: Ending, fate: Fate, blocked: bool) {
    && (ending == Sent <==> !fate.lost && !fate.down && !blocked)
    && (ending == Again ==> fate.lost || blocked)
    && (ending == Unheard ==> fate.down && !fate.lost && !blocked)
    && (ending == StillLeased ==> fate.down)
  }

  ghost predicate Fated(before: Db, records: seq<Record>, endings: seq<Ending>, fates: seq<Fate>) {
    && |fates| == |endings| <= |records|
    && forall i :: 0 <= i < |endings| ==>
         && records[i].id in before.outbox && Deserved(endings[i], fates[i], Blocked(before, records[i].id))
  }

  lemma FatedOneMore(
    before: Db, db: Db, records: seq<Record>, endings: seq<Ending>, fates: seq<Fate>, ending: Ending, fate: Fate)
    requires Fated(before, records, endings, fates) && |endings| < |records|
    requires SameBlocks(before, db, records, |endings|)
    requires Deserved(ending, fate, Blocked(db, records[|endings|].id))
    ensures Fated(before, records, endings + [ending], fates + [fate])
  {
  }

  /** Nothing was lost, and no claimed row is blocked. */
  ghost predicate AllWell(before: Db, records: seq<Record>, fates: seq<Fate>) {
    && (forall fate :: fate in fates ==> fate == Fate(false, false))
    && (forall r :: r in records ==> r.id in before.outbox && !Blocked(before, r.id))
  }

  lemma AllAreSent(before: Db, records: seq<Record>, endings: seq<Ending>, fates: seq<Fate>, ok: bool)
    requires Fated(before, records, endings, fates) && (ok ==> |endings| == |records|)
    requires !ok ==> |fates| > 0 && fates[|fates| - 1].down
    ensures AllWell(before, records, fates) ==> ok && Count(endings) == |records|
  {
    if AllWell(before, records, fates) {
      forall i | 0 <= i < |endings|
        ensures endings[i] == Sent
      {
        assert fates[i] in fates && records[i] in records;
      }
      AllCount(endings);
    }
  }

  lemma {:induction false} AllCount(endings: seq<Ending>)
    requires forall i :: 0 <= i < |endings| ==> endings[i] == Sent
    ensures Count(endings) == |endings|
  {
    if endings != [] {
      AllCount(endings[..|endings| - 1]);
    }
  }

  /** No two events share an ID, so the one found decides. */
  lemma OneEvent(db: Db, i: nat)
    requires DistinctEvents(db) && i < |db.delivered| && db.delivered[i].id in db.outbox
    ensures var d := db.delivered[i];
      Delivered(db, d.id) <==> d.account == db.outbox[d.id].account && d.device == db.outbox[d.id].device
  {
  }

  ghost predicate SameBlocks(before: Db, db: Db, records: seq<Record>, i: nat) {
    forall k :: i <= k < |records| ==>
      && records[k].id in before.outbox && records[k].id in db.outbox
      && (Blocked(db, records[k].id) <==> Blocked(before, records[k].id))
  }

  lemma ClaimKeepsBlocks(before: Db, db: Db, records: seq<Record>, now: int, until: int)
    requires Leased(before, db, records, until) && db == ClaimAll(before, records, now, until)
    ensures SameBlocks(before, db, records, 0)
  {
    ClaimKeepsEvents(before, records, now, until);
    forall k | 0 <= k < |records|
      ensures Blocked(db, records[k].id) <==> Blocked(before, records[k].id)
    {
      assert db.outbox[records[k].id] == records[k].row;
      SameTargetSameBlock(before, db, records[k].id);
    }
  }

  lemma ClaimedIsUnsettled(before: Db, db: Db, records: seq<Record>, until: int, now: int)
    requires Leased(before, db, records, until) && db == ClaimAll(before, records, now, until)
    ensures Settled(before, db, records, [], now) && SameBlocks(before, db, records, 0)
  {
    LeasedRows(before, db, records, until, now);
    ClaimKeepsBlocks(before, db, records, now, until);
  }

  lemma {:induction false} ClaimKeepsEvents(db: Db, records: seq<Record>, now: int, until: int)
    ensures ClaimAll(db, records, now, until).delivered == db.delivered
    decreases |records|
  {
    if records != [] {
      ClaimKeepsEvents(db, records[..|records| - 1], now, until);
    }
  }

  lemma SameTargetSameBlock(db: Db, db': Db, id: string)
    requires id in db.outbox && id in db'.outbox && db'.outbox[id].account == db.outbox[id].account
    requires db'.outbox[id].device == db.outbox[id].device && SameEventsOf(db, db', id)
    ensures Blocked(db', id) <==> Blocked(db, id)
  {
    var a, b := db.delivered, db'.delivered;
    assert b[..|a|] == a;
    assert forall i :: 0 <= i < |a| ==> a[i] == b[i];
  }

  /** The events under the ID are the same in both. */
  ghost predicate SameEventsOf(db: Db, db': Db, id: string) {
    db.delivered <= db'.delivered && forall i :: |db.delivered| <= i < |db'.delivered| ==> db'.delivered[i].id != id
  }

  lemma BlocksStay(before: Db, db: Db, db': Db, records: seq<Record>, i: nat)
    requires i < |records| && forall a, b :: 0 <= a < b < |records| ==> records[a].id != records[b].id
    requires SameBlocks(before, db, records, i) && OnlyRow(db, db', records[i].id)
    ensures SameBlocks(before, db', records, i + 1)
  {
    forall k | i < k < |records|
      ensures Blocked(db', records[k].id) <==> Blocked(db, records[k].id)
    {
      SameTargetSameBlock(db, db', records[k].id);
    }
  }

  /** What became of a claimed row. */
  datatype Ending = Sent | Again | StillLeased | Unheard

  ghost function Count(endings: seq<Ending>): nat {
    if endings == [] then 0 else Count(endings[..|endings| - 1]) + if endings[|endings| - 1] == Sent then 1 else 0
  }

  lemma CountMore(endings: seq<Ending>, last: Ending)
    ensures Count(endings + [last]) == Count(endings) + if last == Sent then 1 else 0
  {
    assert (endings + [last])[..|endings|] == endings;
  }

  /** The rows settled so far have ended, the others still hold their leases, the rest is untouched. */
  ghost predicate Settled(before: Db, db: Db, records: seq<Record>, endings: seq<Ending>, now: int) {
    && |endings| <= |records|
    && (forall i, j :: 0 <= i < j < |records| ==> records[i].id != records[j].id)
    && db.outbox.Keys == before.outbox.Keys
    && (forall i {:trigger records[i]} :: 0 <= i < |records| ==>
          RowAfter(db, records[i], if i < |endings| then endings[i] else StillLeased, now))
    && (forall id :: id in before.outbox && id !in Ids(records) ==> db.outbox[id] == before.outbox[id])
  }

  ghost predicate RowAfter(db: Db, record: Record, ending: Ending, now: int) {
    && record.id in db.outbox
    && record.row.status == Processing && record.row.token == Some(record.token)
    && var row := db.outbox[record.id];
       match ending
       case StillLeased => row == record.row
       case Unheard => row == record.row.(status := Published, token := None) && Delivered(db, record.id)
       case Sent => row == record.row.(status := Published, token := None) && Delivered(db, record.id)
       case Again => row == record.row.(status := Failed, token := None, availableAt := now + SECOND)
  }

  /** Nothing but row `id` changed, and an event was added under it at most. */
  ghost predicate OnlyRow(db: Db, db': Db, id: string) {
    && db'.outbox.Keys == db.outbox.Keys
    && (forall k :: k in db.outbox && k != id ==> db'.outbox[k] == db.outbox[k])
    && db.delivered <= db'.delivered
    && (forall i :: |db.delivered| <= i < |db'.delivered| ==> db'.delivered[i].id == id)
  }

  lemma SettledOneMore(
    before: Db, db: Db, db': Db, records: seq<Record>, endings: seq<Ending>, ending: Ending, now: int)
    requires Settled(before, db, records, endings, now) && |endings| < |records|
    requires OnlyRow(db, db', records[|endings|].id)
    requires RowAfter(db', records[|endings|], ending, now)
    ensures Settled(before, db', records, endings + [ending], now)
  {
    assert records[|endings|].id in Ids(records);
  }

  lemma LeasedRows(before: Db, after: Db, records: seq<Record>, until: int, now: int)
    requires Leased(before, after, records, until)
    ensures Settled(before, after, records, [], now)
  {
  }

  lemma CompleteKeepsDbInv(db: Db, id: string, token: nat)
    requires DbInv(db) && (Holds(db, id, token) ==> Delivered(db, id))
    ensures DbInv(Complete(db, id, token))
  {
    if Holds(db, id, token) {
      assert RowInv(db, id);
      var s := System(db, map[token := Work(id, true)]);
      assert token in FenceOf(db).drawn by {
        assert FenceOf(db).held[id] == token;
      }
      assert Inv(s);
      StepKeepsInv(s, CompleteRow(token));
    }
  }

  lemma FailKeepsDbInv(db: Db, id: string, token: nat, at: int)
    requires DbInv(db)
    ensures DbInv(Fail(db, id, token, at))
  {
    if Holds(db, id, token) {
      var s := System(db, map[token := Work(id, false)]);
      assert token in FenceOf(db).drawn by {
        assert FenceOf(db).held[id] == token;
      }
      assert Inv(s);
      StepKeepsInv(s, FailRow(token, at));
    }
  }

  function Limit(limit: int): nat { if limit <= 0 || limit > 1000 then 100 else limit }

  function Lease(lease: int): int { if lease <= 0 then 5 * MINUTE else lease }

  function Ids(records: seq<Record>): set<string> { set r | r in records :: r.id }

  /** The state after claiming `records`. */
  ghost predicate Claimed(before: Db, db: Db, records: seq<Record>, now: int, until: int, locked: set<string>) {
    && db == ClaimAll(before, records, now, until)
    && Leased(before, db, records, until)
    && OldestFirst(before, now, locked, Ids(records))
  }

  lemma ClaimedOneMore(
    before: Db, db: Db, db': Db, records: seq<Record>, record: Record, now: int, until: int, locked: set<string>)
    requires Claimed(before, db, records, now, until, locked)
    requires record.id in db.outbox && db.outbox[record.id].Eligible(now) && record.id !in locked + Ids(records)
    requires forall id :: id in db.outbox && db.outbox[id].Eligible(now) && id !in locked + Ids(records) ==>
               db.outbox[record.id].createdAt <= db.outbox[id].createdAt
    requires record.row == db.outbox[record.id].Claim(record.token, until) &&
      db'.outbox == db.outbox[record.id := record.row]
    requires db' == Claim(db, record.id, record.token, now, until)
    ensures Claimed(before, db', records + [record], now, until, locked)
  {
  }

  /** The claimed rows hold the tokens returned for them, and no other row changed. */
  ghost predicate Leased(before: Db, after: Db, records: seq<Record>, until: int) {
    && (forall i, j :: 0 <= i < j < |records| ==> records[i].id != records[j].id)
    && after.outbox.Keys == before.outbox.Keys
    && (forall i :: 0 <= i < |records| ==>
          && records[i].id in before.outbox
          && records[i].row == before.outbox[records[i].id].Claim(records[i].token, until)
          && after.outbox[records[i].id] == records[i].row)
    && (forall id :: id in before.outbox && id !in Ids(records) ==> after.outbox[id] == before.outbox[id])
  }

  lemma KeepsDbInv(db: Db, step: Step)
    requires DbInv(db)
    ensures DbInv(Do(System(db, map[]), step).db)
  {
    StepKeepsInv(System(db, map[]), step);
  }

  ghost predicate OldestFirst(db: Db, now: int, locked: set<string>, ids: set<string>) {
    && (forall id :: id in ids ==> id in db.outbox && db.outbox[id].Eligible(now) && id !in locked)
    && (forall a, b :: a in ids && b in db.outbox && db.outbox[b].Eligible(now) && b !in locked && b !in ids ==>
          db.outbox[a].createdAt <= db.outbox[b].createdAt)
  }

  ghost predicate Exhausted(db: Db, now: int, locked: set<string>, ids: set<string>) {
    forall id :: id in db.outbox && db.outbox[id].Eligible(now) && id !in locked ==> id in ids
  }

  lemma ThesePicked(db: Db, now: int, limit: nat, locked: set<string>, ids: set<string>, exhausted: bool)
    requires OldestFirst(db, now, locked, ids) && |ids| <= limit
    requires exhausted ==> Exhausted(db, now, locked, ids)
    requires !exhausted ==> |ids| == limit
    ensures Picks(db.outbox, now, limit, locked, ids)
  {
  }

  lemma NothingLeft(before: Db, db: Db, records: seq<Record>, until: int, now: int, locked: set<string>)
    requires Leased(before, db, records, until)
    requires forall id :: id in db.outbox && db.outbox[id].Eligible(now) ==> id in locked + Ids(records)
    ensures Exhausted(before, now, locked, Ids(records))
  {
  }

  lemma {:induction false} ClaimAllKeepsDbInv(db: Db, records: seq<Record>, now: int, until: int)
    requires DbInv(db)
    ensures DbInv(ClaimAll(db, records, now, until))
    decreases |records|
  {
    if records != [] {
      var last := records[|records| - 1];
      ClaimAllKeepsDbInv(db, records[..|records| - 1], now, until);
      KeepsDbInv(ClaimAll(db, records[..|records| - 1], now, until), ClaimRow(last.id, last.token, now, until - now));
    }
  }

  lemma {:induction false} DistinctCount(records: seq<Record>)
    requires forall i, j :: 0 <= i < j < |records| ==> records[i].id != records[j].id
    ensures |Ids(records)| == |records|
  {
    if records != [] {
      var n := |records| - 1;
      DistinctCount(records[..n]);
      assert records == records[..n] + [records[n]];
      assert Ids(records) == Ids(records[..n]) + {records[n].id};
    }
  }
}
