/**
 relay-server/internal/conversations/transactional_outbox.go and internal/realtime/outbox.go:
 messages stored together with their realtime intents, and any number of workers that claim
 rows, publish their events, and complete or fail the rows. Each SQL statement or
 transaction is one guarded step; a worker that is never stepped again has crashed.
 */
module Outbox {
  import opened Wrappers
  import opened Fencing

  datatype Status = Pending | Processing | Failed | Published

  datatype Row = Row(
    account: string, device: string, payload: string, createdAt: int,
    status: Status, attempts: nat, token: Option<nat>, availableAt: int)
  {
    predicate Eligible(now: int) { status != Published && availableAt <= now }

    function Claim(t: nat, until: int): Row {
      this.(status := Processing, attempts := attempts + 1, token := Some(t), availableAt := until)
    }
  }

  datatype Message = Message(id: string, conversation: string, sender: string, clientId: string)

  datatype Conversation = Conversation(account: string, device: string)

  /** A row of delivery_events. */
  datatype Delivery = Delivery(id: string, account: string, device: string, payload: string)

  /** The tables, and the claim tokens drawn so far. */
  datatype Db = Db(
    conversations: map<string, Conversation>, messages: map<string, Message>,
    outbox: map<string, Row>, delivered: seq<Delivery>, drawn: set<nat>)

  const PREFIX := "conversation.message:"

  function RowId(message: string): string { PREFIX + message }

  predicate ForMessage(id: string) { PREFIX <= id }

  function MessageOf(id: string): string
    requires ForMessage(id)
  {
    id[|PREFIX|..]
  }

  const SECOND := 1_000_000_000

  // ---------------------------------------------------------------- the statements

  predicate SameClient(m: Message, n: Message) {
    m.conversation == n.conversation && m.sender == n.sender && m.clientId == n.clientId
  }

  ghost predicate Duplicate(db: Db, m: Message) {
    exists id :: id in db.messages && SameClient(db.messages[id], m)
  }

  /** PutMessageWithEvent: message and intent in one transaction; a duplicate adds neither. */
  function NewIntent(c: Conversation, payload: string, now: int): Row {
    Row(c.account, c.device, payload, now, Pending, 0, None, now)
  }

  ghost function Put(db: Db, m: Message, payload: string, now: int): Db {
    if m.conversation !in db.conversations || Duplicate(db, m) || m.id in db.messages then db
    else
      var row := NewIntent(db.conversations[m.conversation], payload, now);
      db.(messages := db.messages[m.id := m],
          outbox := if RowId(m.id) in db.outbox then db.outbox else db.outbox[RowId(m.id) := row])
  }

  /** The other writers of the table use IDs that start with "run:" or "run-event:". */
  ghost function Intend(db: Db, id: string, row: Row): Db {
    if ForMessage(id) || id in db.outbox || row.status != Pending || row.token.Some? then db
    else db.(outbox := db.outbox[id := row])
  }

  /** The oldest eligible rows that no other transaction has locked, at most `limit` of them. */
  ghost predicate Picks(outbox: map<string, Row>, now: int, limit: nat, locked: set<string>, ids: set<string>) {
    && |ids| <= limit
    && (forall id :: id in ids ==> id in outbox && outbox[id].Eligible(now) && id !in locked)
    && (forall a, b :: a in ids && b in outbox && outbox[b].Eligible(now) && b !in locked && b !in ids ==>
          outbox[a].createdAt <= outbox[b].createdAt)
    && (|ids| < limit ==> forall b :: b in outbox && outbox[b].Eligible(now) && b !in locked ==> b in ids)
  }

  /** One row of a claim. A claim of several rows is one such step after another, with nothing between. */
  ghost function Claim(db: Db, id: string, token: nat, now: int, until: int): Db {
    if id in db.outbox && db.outbox[id].Eligible(now) && token !in db.drawn
    then db.(outbox := db.outbox[id := db.outbox[id].Claim(token, until)], drawn := db.drawn + {token})
    else db
  }

  predicate Holds(db: Db, id: string, token: nat) {
    id in db.outbox && db.outbox[id].status == Processing && db.outbox[id].token == Some(token)
  }

  function Complete(db: Db, id: string, token: nat): Db {
    if Holds(db, id, token)
    then db.(outbox := db.outbox[id := db.outbox[id].(status := Published, token := None)]) else db
  }

  function Fail(db: Db, id: string, token: nat, at: int): Db {
    if Holds(db, id, token)
    then db.(outbox := db.outbox[id := db.outbox[id].(status := Failed, token := None, availableAt := at + SECOND)])
    else db
  }

  ghost predicate HasEvent(db: Db, id: string) {
    exists i :: 0 <= i < |db.delivered| && db.delivered[i].id == id
  }

  /** The row's own event is in the delivery log. */
  ghost predicate Delivered(db: Db, id: string)
    requires id in db.outbox
  {
    exists i :: 0 <= i < |db.delivered| && db.delivered[i].id == id
      && db.delivered[i].account == db.outbox[id].account && db.delivered[i].device == db.outbox[id].device
  }

  /** Delivery.Publish: idempotent by event ID. */
  ghost function Publish(db: Db, d: Delivery): Db {
    if HasEvent(db, d.id) then db else db.(delivered := db.delivered + [d])
  }

  // ---------------------------------------------------------------- the system

  datatype Work = Work(id: string, published: bool)

  /** The workers in flight are known by the token of their claim. */
  datatype System = System(db: Db, workers: map<nat, Work>)

  const INIT := System(Db(map[], map[], map[], [], {}), map[])

  datatype Step =
    | Converse(id: string, conversation: Conversation)
    | PutMessage(m: Message, payload: string, now: int)
    | PutIntent(id: string, row: Row)
    | ClaimRow(id: string, token: nat, now: int, lease: int)
    | PublishRow(worker: nat)
    | CompleteRow(worker: nat)
    | FailRow(worker: nat, now: int)
    | PublishOther(d: Delivery)

  ghost function Do(s: System, step: Step): System {
    match step
    case Converse(id, c) =>
      if id in s.db.conversations then s else s.(db := s.db.(conversations := s.db.conversations[id := c]))
    case PutMessage(m, payload, now) => s.(db := Put(s.db, m, payload, now))
    case PutIntent(id, row) => s.(db := Intend(s.db, id, row))
    case ClaimRow(id, token, now, lease) =>
      var db := Claim(s.db, id, token, now, now + lease);
      if token in db.drawn - s.db.drawn then System(db, s.workers[token := Work(id, false)]) else s
    case PublishRow(w) =>
      if w !in s.workers || s.workers[w].id !in s.db.outbox then s
      else
        var id := s.workers[w].id;
        var row := s.db.outbox[id];
        var db := Publish(s.db, Delivery(id, row.account, row.device, row.payload));
        if Delivered(db, id) then System(db, s.workers[w := Work(id, true)]) else s
    case CompleteRow(w) =>
      if w in s.workers && s.workers[w].published then s.(db := Complete(s.db, s.workers[w].id, w)) else s
    case FailRow(w, now) =>
      if w in s.workers && !s.workers[w].published then s.(db := Fail(s.db, s.workers[w].id, w, now)) else s
    case PublishOther(d) => s.(db := Publish(s.db, d))
  }

  ghost function Run(s: System, steps: seq<Step>): System
    decreases |steps|
  {
    if steps == [] then s else Run(Do(s, steps[0]), steps[1..])
  }

  // ---------------------------------------------------------------- the invariant

  ghost function FenceOf(db: Db): Fence<string> {
    Fence(db.drawn, map id | id in db.outbox && db.outbox[id].token.Some? :: db.outbox[id].token.value)
  }

  ghost predicate RowInv(db: Db, id: string)
    requires id in db.outbox
  {
    && (db.outbox[id].token.Some? <==> db.outbox[id].status == Processing)
    && (db.outbox[id].status == Published ==> Delivered(db, id))
    && (ForMessage(id) ==> MessageOf(id) in db.messages)
  }

  ghost predicate WorkInv(s: System, w: nat)
    requires w in s.workers
  {
    && w in s.db.drawn && s.workers[w].id in s.db.outbox
    && (s.workers[w].published ==> Delivered(s.db, s.workers[w].id))
  }

  ghost predicate DistinctEvents(db: Db) {
    forall i, j :: 0 <= i < j < |db.delivered| ==> db.delivered[i].id != db.delivered[j].id
  }

  ghost predicate DbInv(db: Db) {
    var rows := forall id {:trigger RowInv(db, id)} :: id in db.outbox ==> RowInv(db, id);
    var messages := forall id :: id in db.messages ==> RowId(id) in db.outbox && db.messages[id].id == id;
    var delivery := DistinctEvents(db) && FenceOf(db).Sound();
    rows && messages && delivery
  }

  ghost predicate Inv(s: System) {
    var workers := forall w {:trigger WorkInv(s, w)} :: w in s.workers ==> WorkInv(s, w);
    workers && DbInv(s.db)
  }

  /** What every step keeps: rows and events stay, rows keep their target, published rows their all. */
  ghost predicate RowKept(db: Db, db': Db, id: string)
    requires id in db.outbox
  {
    && id in db'.outbox
    && db'.outbox[id].account == db.outbox[id].account && db'.outbox[id].device == db.outbox[id].device
    && (db.outbox[id].status == Published ==> db'.outbox[id] == db.outbox[id])
    && (Delivered(db, id) ==> Delivered(db', id))
  }

  lemma StepKeepsRow(s: System, step: Step, id: string)
    requires Inv(s) && id in s.db.outbox
    ensures RowKept(s.db, Do(s, step).db, id)
  {
    assert RowInv(s.db, id);
    TargetStays(s, step, id);
    DeliveryStays(s.db, Do(s, step).db, id);
  }

  lemma TargetStays(s: System, step: Step, id: string)
    requires id in s.db.outbox && RowInv(s.db, id)
    ensures var row, db' := s.db.outbox[id], Do(s, step).db;
      && id in db'.outbox && db'.outbox[id].account == row.account && db'.outbox[id].device == row.device
      && (row.status == Published ==> db'.outbox[id] == row) && s.db.delivered <= db'.delivered
  {
  }

  lemma DeliveryStays(db: Db, db': Db, id: string)
    requires id in db.outbox && id in db'.outbox && db.delivered <= db'.delivered
    requires db'.outbox[id].account == db.outbox[id].account && db'.outbox[id].device == db.outbox[id].device
    ensures Delivered(db, id) ==> Delivered(db', id)
  {
    if Delivered(db, id) {
      var i :| 0 <= i < |db.delivered| && db.delivered[i].id == id
        && db.delivered[i].account == db.outbox[id].account && db.delivered[i].device == db.outbox[id].device;
      assert db'.delivered[i] == db.delivered[i];
    }
  }

  lemma StepAdvancesFence(s: System, step: Step)
    requires FenceOf(s.db).Sound()
    ensures Advances(FenceOf(s.db), FenceOf(Do(s, step).db))
  {
    var db, db' := s.db, Do(s, step).db;
    var f, g := FenceOf(db), FenceOf(db');
    forall id | id in g.held
      ensures (id in f.held && g.held[id] == f.held[id] && f.held[id] in f.drawn)
           || (step.ClaimRow? && id == step.id && g.held[id] == step.token && step.token !in f.drawn &&
              step.token in g.drawn)
    {
    }
  }

  lemma StepKeepsRows(s: System, step: Step, id: string)
    requires Inv(s) && id in Do(s, step).db.outbox
    ensures RowInv(Do(s, step).db, id)
  {
    var s' := Do(s, step);
    if id in s.db.outbox {
      StepKeepsRow(s, step, id);
      assert RowInv(s.db, id);
      assert s.db.messages.Keys <= s'.db.messages.Keys;
      if step.CompleteRow? && step.worker in s.workers {
        assert WorkInv(s, step.worker);
      }
    }
  }

  lemma StepKeepsWorkers(s: System, step: Step, w: nat)
    requires Inv(s) && w in Do(s, step).workers
    ensures WorkInv(Do(s, step), w)
  {
    if w in s.workers {
      assert WorkInv(s, w);
      StepKeepsRow(s, step, s.workers[w].id);
    }
  }

  lemma StepKeepsInv(s: System, step: Step)
    requires Inv(s)
    ensures Inv(Do(s, step))
  {
    var s' := Do(s, step);
    StepAdvancesFence(s, step);
    forall id | id in s'.db.outbox
      ensures RowInv(s'.db, id)
    {
      StepKeepsRows(s, step, id);
    }
    forall w | w in s'.workers
      ensures WorkInv(s', w)
    {
      StepKeepsWorkers(s, step, w);
    }
  }

  lemma {:induction false} RunKeepsInv(s: System, steps: seq<Step>)
    requires Inv(s)
    ensures Inv(Run(s, steps))
    decreases |steps|
  {
    if steps != [] {
      StepKeepsInv(s, steps[0]);
      RunKeepsInv(Do(s, steps[0]), steps[1..]);
    }
  }

  /** A claimed row is nobody else's before its lease ends, and is due again then, one attempt later. */
  lemma LeaseProtects(db: Db, id: string, token: nat, now: int, until: int, t: int)
    requires id in db.outbox && db.outbox[id].status != Published && db.outbox[id].availableAt <= now
    requires token !in db.drawn
    ensures var row := Claim(db, id, token, now, until).outbox[id];
      && (row.Eligible(t) <==> until <= t)
      && row == Row(row.account, row.device, row.payload, row.createdAt, Processing, db.outbox[id].attempts + 1,
                    Some(token), until)
  {
  }

  /** The intent of a run or of its event is stored once, under an ID that no message row has. */
  lemma IntentIsStoredOnce(s: System, id: string, row: Row)
    requires row.status == Pending && row.token == None && !(PREFIX <= id)
    ensures var t := Do(s, PutIntent(id, row));
      t == s.(db := s.db.(outbox := t.db.outbox)) &&
      t.db.outbox == if id in s.db.outbox then s.db.outbox else s.db.outbox[id := row]
  {
  }

  /** A worker completes only what it has published and fails only what it has not; conversations keep their target. */
  lemma WorkersTellTheTruth(s: System, step: Step, w: nat, now: int, c: string)
    ensures w in s.workers && s.workers[w].published ==> Do(s, FailRow(w, now)) == s
    ensures w in s.workers && !s.workers[w].published ==> Do(s, CompleteRow(w)) == s
    ensures c in s.db.conversations ==>
      c in Do(s, step).db.conversations && Do(s, step).db.conversations[c] == s.db.conversations[c]
  {
  }

  // ---------------------------------------------------------------- what holds in every run

  /** Each stored message has exactly its own row, and each message row its message. */
  lemma OneRowPerMessage(steps: seq<Step>)
    ensures var db := Run(INIT, steps).db;
      && (forall m :: m in db.messages ==> RowId(m) in db.outbox)
      && (forall id :: id in db.outbox && ForMessage(id) ==> MessageOf(id) in db.messages && RowId(MessageOf(id)) == id)
  {
    RunKeepsInv(INIT, steps);
    var db := Run(INIT, steps).db;
    forall id | id in db.outbox && ForMessage(id)
      ensures MessageOf(id) in db.messages && RowId(MessageOf(id)) == id
    {
      assert RowInv(db, id);
    }
  }

  /** A published row's event exists, and no event ID was delivered twice. */
  lemma PublishedWasDelivered(steps: seq<Step>)
    ensures var db := Run(INIT, steps).db;
      && (forall id :: id in db.outbox && db.outbox[id].status == Published ==> Delivered(db, id))
      && DistinctEvents(db)
  {
    RunKeepsInv(INIT, steps);
    var db := Run(INIT, steps).db;
    forall id | id in db.outbox && db.outbox[id].status == Published
      ensures Delivered(db, id)
    {
      assert RowInv(db, id);
    }
  }

  /** Nobody else publishes an event under the ID. */
  predicate NoForeignPublish(steps: seq<Step>, id: string) {
    forall k :: 0 <= k < |steps| && steps[k].PublishOther? ==> steps[k].d.id != id
  }

  /** The event of a row, as its worker publishes it. */
  function EventOfRow(id: string, row: Row): Delivery { Delivery(id, row.account, row.device, row.payload) }

  /** Every event under the ID is the row's own, payload included. */
  ghost predicate OwnEvents(db: Db, id: string) {
    forall i :: 0 <= i < |db.delivered| && db.delivered[i].id == id ==>
      id in db.outbox && db.delivered[i] == EventOfRow(id, db.outbox[id])
  }

  lemma StepKeepsOwnEvents(s: System, step: Step, id: string)
    requires Inv(s) && OwnEvents(s.db, id) && (step.PublishOther? ==> step.d.id != id)
    ensures OwnEvents(Do(s, step).db, id)
  {
    var db' := Do(s, step).db;
    forall i | 0 <= i < |db'.delivered| && db'.delivered[i].id == id
      ensures id in db'.outbox && db'.delivered[i] == EventOfRow(id, db'.outbox[id])
    {
      if i < |s.db.delivered| {
        assert db'.delivered[i] == s.db.delivered[i];
      }
    }
  }

  /** A published row's event carries its payload, unless somebody else published under its ID. */
  lemma {:induction false} PublishedPayload(s: System, steps: seq<Step>, id: string)
    requires Inv(s) && OwnEvents(s.db, id) && NoForeignPublish(steps, id)
    ensures var db := Run(s, steps).db;
      && OwnEvents(db, id)
      && (id in db.outbox && db.outbox[id].status == Published ==> EventOfRow(id, db.outbox[id]) in db.delivered)
    decreases |steps|
  {
    if steps == [] {
      if id in s.db.outbox {
        assert RowInv(s.db, id);
      }
    } else {
      StepKeepsInv(s, steps[0]);
      StepKeepsOwnEvents(s, steps[0], id);
      PublishedPayload(Do(s, steps[0]), steps[1..], id);
    }
  }

  /** Published rows are never claimed, failed or changed again. */
  lemma {:induction false} PublishedForever(s: System, steps: seq<Step>, id: string)
    requires Inv(s) && id in s.db.outbox && s.db.outbox[id].status == Published
    ensures var db := Run(s, steps).db; id in db.outbox && db.outbox[id] == s.db.outbox[id]
    decreases |steps|
  {
    if steps != [] {
      StepKeepsRow(s, steps[0], id);
      StepKeepsInv(s, steps[0]);
      PublishedForever(Do(s, steps[0]), steps[1..], id);
    }
  }

  lemma {:induction false} RetiredInRun(s: System, steps: seq<Step>, token: nat)
    requires Inv(s) && FenceOf(s.db).Retired(token)
    ensures FenceOf(Run(s, steps).db).Retired(token)
    decreases |steps|
  {
    if steps != [] {
      StepAdvancesFence(s, steps[0]);
      RetiredStays(FenceOf(s.db), FenceOf(Do(s, steps[0]).db), token);
      StepKeepsInv(s, steps[0]);
      RetiredInRun(Do(s, steps[0]), steps[1..], token);
    }
  }

  /** Once a row has let go of a claim's token, completing or failing with it changes nothing, ever. */
  lemma StaleTokenChangesNothing(
    s: System, step: Step, later: seq<Step>, id: string, token: nat, other: string, at: int)
    requires Inv(s) && Holds(s.db, id, token)
    requires !Holds(Do(s, step).db, id, token)
    ensures var db := Run(Do(s, step), later).db;
      Complete(db, other, token) == db && Fail(db, other, token, at) == db
  {
    var s' := Do(s, step);
    StepKeepsInv(s, step);
    StepKeepsRow(s, step, id);
    StepAdvancesFence(s, step);
    assert RowInv(s'.db, id);
    LostIsRetired(FenceOf(s.db), FenceOf(s'.db), id);
    RetiredInRun(s', later, token);
    var g := FenceOf(Run(s', later).db);
    assert other in g.held ==> g.held[other] != token;
  }

  /** Another target's event occupies the row's ID, so its own can never be written. */
  ghost predicate Blocked(db: Db, id: string)
    requires id in db.outbox
  {
    HasEvent(db, id) && !Delivered(db, id)
  }

  lemma {:induction false} BlockedForever(s: System, steps: seq<Step>, id: string)
    requires Inv(s) && id in s.db.outbox && Blocked(s.db, id)
    ensures var db := Run(s, steps).db; id in db.outbox && db.outbox[id].status != Published
    decreases |steps|
  {
    assert RowInv(s.db, id);
    if steps != [] {
      var s' := Do(s, steps[0]);
      StepKeepsRow(s, steps[0], id);
      StepKeepsInv(s, steps[0]);
      assert Blocked(s'.db, id) by {
        var i :| 0 <= i < |s.db.delivered| && s.db.delivered[i].id == id;
        assert s.db.delivered <= s'.db.delivered;
        assert s'.db.delivered[i] == s.db.delivered[i];
      }
      BlockedForever(s', steps[1..], id);
    }
  }

  /** Publishing under a row's ID blocks the row exactly if it is the first event there and for another target. */
  lemma ForeignEventBlocks(s: System, id: string, d: Delivery)
    requires id in s.db.outbox && d.id == id && !Blocked(s.db, id)
    ensures var db, row := Do(s, PublishOther(d)).db, s.db.outbox[id];
      id in db.outbox &&
      (Blocked(db, id) <==> !HasEvent(s.db, id) && (d.account != row.account || d.device != row.device))
  {
    var db, n := s.db, |s.db.delivered|;
    if !HasEvent(db, id) {
      var db' := Do(s, PublishOther(d)).db;
      assert db'.delivered == db.delivered + [d] && db'.delivered[n] == d;
      assert forall i :: 0 <= i < n ==> db'.delivered[i].id != id;
    }
  }

  const TEXT := Message("m", "c", "phone", "i")

  function Blocking(): seq<Step> {
    [Converse("c", Conversation("a", "desk")), PutMessage(TEXT, "hello", 0),
      PublishOther(Delivery(RowId("m"), "a", "tablet", "other"))]
  }

  /**
   A message is stored for one device, and before a worker gets to its row an envelope goes out
   under the row's ID to another device: the message's event is never delivered, in no continuation.
   */
  lemma StoredMessageIsBlocked(later: seq<Step>)
    ensures var db := Run(INIT, Blocking()).db;
      RowId("m") in db.outbox && Blocked(db, RowId("m")) && "m" in db.messages
    ensures var db := Run(Run(INIT, Blocking()), later).db;
      RowId("m") in db.outbox && db.outbox[RowId("m")].status != Published
  {
    var steps := Blocking();
    var s1 := Do(INIT, steps[0]);
    var s2 := Do(s1, steps[1]);
    assert s2.db.outbox == map[RowId("m") := NewIntent(Conversation("a", "desk"), "hello", 0)];
    assert s2.db.delivered == [];
    ForeignEventBlocks(s2, RowId("m"), steps[2].d);
    ThreeSteps(INIT, steps);
    RunKeepsInv(INIT, steps);
    BlockedForever(Do(s2, steps[2]), later, RowId("m"));
  }

  ghost predicate PublishedAfter(s: System, steps: seq<Step>, id: string) {
    var db := Run(s, steps).db; id in db.outbox && db.outbox[id].status == Published
  }

  /** No row gets stuck: whatever crashed before, it can still be published, unless its ID is taken. */
  lemma RowCanBePublished(s: System, id: string)
    requires Inv(s) && id in s.db.outbox
    ensures (exists steps :: PublishedAfter(s, steps, id)) <==> !Blocked(s.db, id)
  {
    assert RowInv(s.db, id);
    if Blocked(s.db, id) {
      forall steps
        ensures !PublishedAfter(s, steps, id)
      {
        BlockedForever(s, steps, id);
      }
    } else if s.db.outbox[id].status == Published {
      assert PublishedAfter(s, [], id);
    } else {
      PublishInThree(s, id);
    }
  }

  /** Claim, publish, complete: nothing else is needed. */
  lemma PublishInThree(s: System, id: string)
    requires Inv(s) && id in s.db.outbox && s.db.outbox[id].status != Published && !Blocked(s.db, id)
    ensures exists steps :: PublishedAfter(s, steps, id)
  {
    var t := NewToken(s.db.drawn);
    var now := s.db.outbox[id].availableAt;
    var a, b, c := ClaimRow(id, t, now, 0), PublishRow(t), CompleteRow(t);
    var s1 := Do(s, a);
    assert s1.db.outbox[id] == s.db.outbox[id].Claim(t, now) && s1.db.delivered == s.db.delivered;
    assert s1.workers[t] == Work(id, false);
    var s2 := Do(s1, b);
    PublishDelivers(s.db, s1.db, id);
    assert s2.workers[t] == Work(id, true) && s2.db.outbox == s1.db.outbox;
    var s3 := Do(s2, c);
    assert s3.db.outbox[id].status == Published;
    ThreeSteps(s, [a, b, c]);
    assert PublishedAfter(s, [a, b, c], id);
  }

  lemma ThreeSteps(s: System, steps: seq<Step>)
    requires |steps| == 3
    ensures Run(s, steps) == Do(Do(Do(s, steps[0]), steps[1]), steps[2])
  {
    assert steps[1..][1..] == steps[2..] && steps[2..][1..] == [];
    var s2 := Do(Do(s, steps[0]), steps[1]);
    assert Run(s2, steps[2..]) == Run(Do(s2, steps[2]), []) == Do(s2, steps[2]);
    assert Run(Do(s, steps[0]), steps[1..]) == Run(s2, steps[2..]);
  }

  lemma PublishDelivers(db: Db, db1: Db, id: string)
    requires id in db.outbox && id in db1.outbox && !Blocked(db, id) && db1.delivered == db.delivered
    requires db1.outbox[id].account == db.outbox[id].account && db1.outbox[id].device == db.outbox[id].device
    ensures var row := db1.outbox[id];
      Delivered(Publish(db1, Delivery(id, row.account, row.device, row.payload)), id)
  {
    var row := db1.outbox[id];
    var d := Delivery(id, row.account, row.device, row.payload);
    if HasEvent(db1, id) {
      assert HasEvent(db, id);
      var i :| 0 <= i < |db.delivered| && db.delivered[i].id == id
        && db.delivered[i].account == db.outbox[id].account && db.delivered[i].device == db.outbox[id].device;
      assert db1.delivered[i].id == id;
    } else {
      var after := Publish(db1, d);
      assert after.delivered[|db1.delivered|] == d;
    }
  }

  /** There is always a token that was not drawn yet. */
  lemma NewToken(drawn: set<nat>) returns (t: nat)
    ensures t !in drawn
  {
    t := 0;
    var seen: set<nat> := {};
    while t in drawn
      invariant seen <= drawn && forall k: nat :: k < t ==> k in seen
      invariant forall k :: k in seen ==> k < t
      decreases |drawn - seen|
    {
      assert t in drawn - seen;
      assert drawn - (seen + {t}) == (drawn - seen) - {t};
      seen := seen + {t};
      t := t + 1;
    }
  }
}
