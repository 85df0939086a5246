/**
 SendMessage of relay-server/internal/conversations/conversations.go as it really runs: no lock
 spans its lookup, its checks, the limiter and the store, so sends overlap in any way.
 */
module SendProtocol {
  import opened Wrappers
  import opened Conversations
  import WindowLimiter

  datatype Input = Input(account: string, device: string, conversation: string, clientId: string, body: string) {
    function Key(): string { ClientKey(account, conversation, device, clientId) }

    /** The limiter's key. */
    function Budget(): string { account + "/" + device }

    predicate Complete() {
      !Blank(account) && !Blank(device) && !Blank(conversation) && !Blank(clientId) && !Blank(body)
    }
  }

  datatype Result = Kept(message: Message, duplicate: bool) | Refused | RateLimited

  /** How far a send has got. */
  datatype Send =
    | Missed(input: Input)       // its key was not stored
    | Passed(input: Input)       // and the conversation is open
    | Admitted(input: Input)     // and the limiter has charged it
    | Done(input: Input, result: Result)

  /**
   The store, the limiter's lists and the sends; as history variables the sends that were
   charged, and those whose key was stored at their own lookup.
   */
  datatype World = World(
    store: Store, stamps: map<string, seq<int>>, sends: map<nat, Send>, charged: set<nat>, found: set<nat>)

  datatype Limit = Limit(max: int, window: int)

  const START := World(EMPTY, map[], map[], {}, {})

  datatype Step =
    | LookUp(op: nat, input: Input)
    | Check(op: nat)
    | Allow(op: nat, now: int)
    | Keep(op: nat, id: string)
    | Other(step: Conversations.Step)

  function StampsOf(w: World, budget: string): seq<int> { if budget in w.stamps then w.stamps[budget] else [] }

  function Note(w: World, op: nat, send: Send): World { w.(sends := w.sends[op := send]) }

  predicate Open(s: Store, i: Input) {
    i.conversation in s.conversations && s.conversations[i.conversation] == Conversation(i.account, true)
  }

  function New(i: Input, id: string): Message {
    Message(id, i.account, i.conversation, i.device, i.clientId, i.body, Persisted, 0)
  }

  ghost function DoLookUp(w: World, op: nat, i: Input): World {
    if i.Key() in w.store.byClient && w.store.byClient[i.Key()] in w.store.messages then
      Note(w, op, Done(i, Kept(w.store.messages[w.store.byClient[i.Key()]], true))).(found := w.found + {op})
    else Note(w, op, Missed(i))
  }

  ghost function DoAllow(w: World, op: nat, i: Input, now: int, limit: Limit): World {
    var stamps := StampsOf(w, i.Budget());
    var pruned := w.(stamps := w.stamps[i.Budget() := WindowLimiter.After(stamps, limit.max, limit.window, now)]);
    if WindowLimiter.Admits(stamps, limit.max, limit.window, now)
    then Note(pruned, op, Admitted(i)).(charged := w.charged + {op})
    else Note(pruned, op, Done(i, RateLimited))
  }

  /** PutMessage, with an ID that no message has. */
  ghost function DoKeep(w: World, op: nat, i: Input, id: string): World {
    var m := New(i, id);
    if Refusal(w.store, m).Some? then Note(w, op, Done(i, Refused))
    else if IsRetry(w.store, m) then
      var key := KeyOf(Owned(w.store, m));
      if w.store.byClient[key] in w.store.messages
      then Note(w, op, Done(i, Kept(w.store.messages[w.store.byClient[key]], true))) else w
    else Note(w.(store := Added(w.store, m)), op, Done(i, Kept(Stored(w.store, m), false)))
  }

  ghost function Do(w: World, s: Step, limit: Limit): World {
    match s
    case LookUp(op, i) => if op in w.sends || !i.Complete() then w else DoLookUp(w, op, i)
    case Check(op) =>
      if op !in w.sends || !w.sends[op].Missed? then w
      else
        var i := w.sends[op].input;
        Note(w, op, if Open(w.store, i) then Passed(i) else Done(i, Refused))
    case Allow(op, now) =>
      if op !in w.sends || !w.sends[op].Passed? then w else DoAllow(w, op, w.sends[op].input, now, limit)
    case Keep(op, id) =>
      if op !in w.sends || !w.sends[op].Admitted? || id in w.store.messages then w
      else DoKeep(w, op, w.sends[op].input, id)
    case Other(step) =>
      if Overwrites(w.store, step) then w else w.(store := Conversations.Do(w.store, step))
  }

  ghost function Run(w: World, steps: seq<Step>, limit: Limit): World
    decreases |steps|
  {
    if steps == [] then w else Run(Do(w, steps[0], limit), steps[1..], limit)
  }

  // ---------------------------------------------------------------- the invariant

  ghost predicate SendInv(w: World, op: nat)
    requires op in w.sends
  {
    match w.sends[op]
    case Done(i, Kept(m, _)) => i.Key() in w.store.byClient && w.store.byClient[i.Key()] == m.id
    case _ => op !in w.found
  }

  /** What a send has cost so far, told from how far it has got. */
  ghost predicate Billed(w: World, op: nat)
    requires op in w.sends
  {
    match w.sends[op]
    case Missed(_) => op !in w.charged
    case Passed(_) => op !in w.charged
    case Admitted(_) => op in w.charged
    case Done(_, Kept(_, _)) => op in w.charged <==> op !in w.found
    case Done(_, RateLimited) => op !in w.charged
    case Done(_, Refused) => true
  }

  ghost predicate Inv(w: World) {
    var sends := forall op {:trigger SendInv(w, op)} :: op in w.sends ==> SendInv(w, op);
    var billed := forall op {:trigger Billed(w, op)} :: op in w.sends ==> Billed(w, op);
    var known := forall op :: op in w.found || op in w.charged ==> op in w.sends;
    Sound(w.store) && sends && billed && known
  }

  /** Client keys keep their message. */
  lemma StoreKeepsKeys(s: Store, step: Conversations.Step, key: string)
    requires Sound(s) && !Overwrites(s, step) && key in s.byClient
    ensures key in Conversations.Do(s, step).byClient && Conversations.Do(s, step).byClient[key] == s.byClient[key]
  {
  }

  lemma OtherKeepsInv(w: World, step: Conversations.Step, limit: Limit)
    requires Inv(w)
    ensures Inv(Do(w, Other(step), limit))
  {
    var w' := Do(w, Other(step), limit);
    if !Overwrites(w.store, step) {
      StepKeepsSound(w.store, step);
      forall op | op in w'.sends
        ensures SendInv(w', op) && Billed(w', op)
      {
        assert SendInv(w, op) && Billed(w, op);
        if w.sends[op].Done? && w.sends[op].result.Kept? {
          StoreKeepsKeys(w.store, step, w.sends[op].input.Key());
        }
      }
    }
  }

  lemma LookUpKeepsInv(w: World, op: nat, i: Input)
    requires Inv(w) && op !in w.sends
    ensures Inv(DoLookUp(w, op, i))
  {
    var w' := DoLookUp(w, op, i);
    forall k | k in w'.sends
      ensures SendInv(w', k) && Billed(w', k)
    {
      if k != op {
        assert SendInv(w, k) && Billed(w, k);
      } else if i.Key() in w.store.byClient {
        assert KeyHolds(w.store, i.Key()) && MessageInv(w.store, w.store.byClient[i.Key()]);
      }
    }
  }

  /** A send that goes on without touching the store. */
  lemma NoteKeepsInv(w: World, op: nat, send: Send)
    requires Inv(w) && op in w.sends && !w.sends[op].Done? && op !in w.charged
    requires send.Passed? || (send.Done? && !send.result.Kept?)
    ensures Inv(Note(w, op, send))
  {
    assert SendInv(w, op);
    forall k | k in w.sends && k != op
      ensures SendInv(Note(w, op, send), k) && Billed(Note(w, op, send), k)
    {
      assert SendInv(w, k) && Billed(w, k);
    }
  }

  lemma CheckKeepsInv(w: World, op: nat, limit: Limit)
    requires Inv(w) && op in w.sends && w.sends[op].Missed?
    ensures Inv(Do(w, Check(op), limit))
  {
    var i := w.sends[op].input;
    assert Billed(w, op);
    NoteKeepsInv(w, op, if Open(w.store, i) then Passed(i) else Done(i, Refused));
  }

  lemma AllowKeepsInv(w: World, op: nat, now: int, limit: Limit)
    requires Inv(w) && op in w.sends && w.sends[op].Passed?
    ensures Inv(DoAllow(w, op, w.sends[op].input, now, limit))
  {
    var w' := DoAllow(w, op, w.sends[op].input, now, limit);
    assert SendInv(w, op) && Billed(w, op);
    forall k | k in w'.sends
      ensures SendInv(w', k) && Billed(w', k)
    {
      assert SendInv(w, k) && Billed(w, k);
    }
  }

  lemma KeepKeepsInv(w: World, op: nat, id: string)
    requires Inv(w) && op in w.sends && w.sends[op].Admitted? && id !in w.store.messages
    requires w.sends[op].input.Complete()
    ensures Inv(DoKeep(w, op, w.sends[op].input, id))
  {
    var i := w.sends[op].input;
    var w', m := DoKeep(w, op, i, id), New(i, id);
    assert SendInv(w, op) && Billed(w, op);
    StepKeepsSound(w.store, PutMessage(m));
    KeepAnswers(w, op, id);
    forall k | k in w'.sends && k != op
      ensures SendInv(w', k) && Billed(w', k)
    {
      KeepKeepsOther(w, w', k, m);
    }
  }

  lemma KeepKeepsOther(w: World, w': World, k: nat, m: Message)
    requires Inv(w) && k in w.sends && m.id !in w.store.messages && w'.store == Put(w.store, m)
    requires k in w'.sends && w'.sends[k] == w.sends[k] && w'.charged == w.charged && w'.found == w.found
    ensures SendInv(w', k) && Billed(w', k)
  {
    assert SendInv(w, k) && Billed(w, k);
    if w.sends[k].Done? && w.sends[k].result.Kept? {
      StoreKeepsKeys(w.store, PutMessage(m), w.sends[k].input.Key());
    }
  }

  /** The answer of the put is the message stored under the key. */
  lemma KeepAnswers(w: World, op: nat, id: string)
    requires Sound(w.store) && op in w.sends && w.sends[op].Admitted? && id !in w.store.messages && op !in w.found
    requires w.sends[op].input.Complete()
    ensures var i, w' := w.sends[op].input, DoKeep(w, op, w.sends[op].input, id);
      && w'.store == Put(w.store, New(i, id)) && op in w'.sends && w'.sends[op].Done? && SendInv(w', op)
  {
    var i := w.sends[op].input;
    var m := New(i, id);
    if Refusal(w.store, m).None? {
      assert KeyOf(Owned(w.store, m)) == i.Key();
      if IsRetry(w.store, m) {
        assert KeyHolds(w.store, i.Key()) && MessageInv(w.store, w.store.byClient[i.Key()]);
      }
    }
  }

  /** Only complete inputs get past the first checks. */
  ghost predicate Complete(w: World) { forall op :: op in w.sends ==> w.sends[op].input.Complete() }

  lemma StepKeepsComplete(w: World, s: Step, limit: Limit)
    requires Complete(w)
    ensures Complete(Do(w, s, limit))
  {
    match s
    case LookUp(op, i) => assert Do(w, s, limit).sends.Keys <= w.sends.Keys + {op};
    case Check(op) =>
    case Allow(op, now) =>
    case Keep(op, id) =>
    case Other(_) =>
  }

  lemma StepKeepsInv(w: World, s: Step, limit: Limit)
    requires Inv(w) && Complete(w)
    ensures Inv(Do(w, s, limit)) && Complete(Do(w, s, limit))
  {
    StepKeepsComplete(w, s, limit);
    StepKeepsWorld(w, s, limit);
  }

  lemma StepKeepsWorld(w: World, s: Step, limit: Limit)
    requires Inv(w) && Complete(w)
    ensures Inv(Do(w, s, limit))
  {
    match s
    case LookUp(op, i) => if op !in w.sends { LookUpKeepsInv(w, op, i); }
    case Check(op) => if op in w.sends && w.sends[op].Missed? { CheckKeepsInv(w, op, limit); }
    case Allow(op, now) => if op in w.sends && w.sends[op].Passed? { AllowKeepsInv(w, op, now, limit); }
    case Keep(op, id) =>
      if op in w.sends && w.sends[op].Admitted? && id !in w.store.messages { KeepKeepsInv(w, op, id); }
    case Other(step) => OtherKeepsInv(w, step, limit);
  }

  lemma {:induction false} RunKeepsInv(w: World, steps: seq<Step>, limit: Limit)
    requires Inv(w) && Complete(w)
    ensures Inv(Run(w, steps, limit)) && Complete(Run(w, steps, limit))
    decreases |steps|
  {
    if steps != [] {
      StepKeepsInv(w, steps[0], limit);
      RunKeepsInv(Do(w, steps[0], limit), steps[1..], limit);
    }
  }

  /** A send without one of its parts comes to nothing. */
  lemma PartsAreRequired(w: World, op: nat, i: Input, limit: Limit)
    requires "" in [Trim(i.account), Trim(i.device), Trim(i.conversation), Trim(i.clientId), Trim(i.body)]
    ensures Do(w, LookUp(op, i), limit) == w
  {
    BlankIsTrimmed(i.account);
    BlankIsTrimmed(i.device);
    BlankIsTrimmed(i.conversation);
    BlankIsTrimmed(i.clientId);
    BlankIsTrimmed(i.body);
  }

  // ---------------------------------------------------------------- what holds however sends overlap

  /** In every interleaving the sends of one client ID that are answered with a message have the same one. */
  lemma OneMessagePerKey(steps: seq<Step>, limit: Limit, a: nat, b: nat)
    requires var w := Run(START, steps, limit);
      && a in w.sends && w.sends[a].Done? && w.sends[a].result.Kept?
      && b in w.sends && w.sends[b].Done? && w.sends[b].result.Kept?
      && w.sends[a].input.Key() == w.sends[b].input.Key()
    ensures var w := Run(START, steps, limit);
      && w.sends[a].result.message.id == w.sends[b].result.message.id
      && w.sends[a].result.message.id in w.store.messages
      && KeyOf(w.store.messages[w.sends[a].result.message.id]) == w.sends[a].input.Key()
  {
    RunKeepsInv(START, steps, limit);
    var w := Run(START, steps, limit);
    assert SendInv(w, a) && SendInv(w, b) && KeyHolds(w.store, w.sends[a].input.Key());
  }

  /** No two messages of the store have one client key, and the cursors of each conversation are exact. */
  lemma StoredOnce(steps: seq<Step>, limit: Limit, x: string, y: string, conversation: string, c: nat)
    requires var s := Run(START, steps, limit).store; x in s.messages && y in s.messages && s.messages[x].clientId != ""
    ensures var s := Run(START, steps, limit).store;
      && (KeyOf(s.messages[x]) == KeyOf(s.messages[y]) && s.messages[y].clientId != "" ==> x == y)
      && (HasCursor(s, conversation, c) <==> 1 <= c <= Last(s, conversation))
  {
    RunKeepsInv(START, steps, limit);
    var s := Run(START, steps, limit).store;
    assert IdHolds(s, x) && IdHolds(s, y) && Dense(s, conversation);
    if HasCursor(s, conversation, c) {
      var id :| At(s, conversation, c, id);
      assert MessageInv(s, id);
    }
  }

  /** Whatever becomes of it, a send is charged only if its key was not stored at its own lookup. */
  lemma ChargedOnlyIfMissed(steps: seq<Step>, limit: Limit, op: nat)
    requires op in Run(START, steps, limit).charged
    ensures op !in Run(START, steps, limit).found
  {
    RunKeepsInv(START, steps, limit);
    var w := Run(START, steps, limit);
    assert SendInv(w, op) && Billed(w, op);
  }

  lemma {:induction false} DoneStays(w: World, steps: seq<Step>, limit: Limit, op: nat)
    requires op in w.sends && w.sends[op].Done?
    ensures var w' := Run(w, steps, limit);
      op in w'.sends && w'.sends[op] == w.sends[op] && (op in w'.charged <==> op in w.charged)
    decreases |steps|
  {
    if steps != [] {
      DoneStays(Do(w, steps[0], limit), steps[1..], limit, op);
    }
  }

  /** A retry that starts once the message is stored gets it back and is never charged, whatever else runs. */
  lemma LateRetryIsFree(before: seq<Step>, later: seq<Step>, limit: Limit, op: nat, i: Input)
    requires var w := Run(START, before, limit); op !in w.sends && i.Complete() && i.Key() in w.store.byClient
    ensures var w := Run(START, before, limit);
      var w' := Run(Do(w, LookUp(op, i), limit), later, limit);
      && op !in w'.charged && op in w'.sends && w'.sends[op].Done?
      && w'.sends[op].result.Kept? && w'.sends[op].result.message.id == w.store.byClient[i.Key()]
  {
    RunKeepsInv(START, before, limit);
    var w := Run(START, before, limit);
    assert KeyHolds(w.store, i.Key()) && MessageInv(w.store, w.store.byClient[i.Key()]);
    DoneStays(Do(w, LookUp(op, i), limit), later, limit, op);
  }

  /** Whether its key was stored is decided once, at the lookup of the send. */
  lemma {:induction false} LookUpStays(w: World, steps: seq<Step>, limit: Limit, op: nat)
    requires op in w.sends
    ensures var w' := Run(w, steps, limit); op in w'.sends && (op in w'.found <==> op in w.found)
    decreases |steps|
  {
    if steps != [] {
      LookUpStays(Do(w, steps[0], limit), steps[1..], limit, op);
    }
  }

  /**
   In every run, whatever is under way when a send looks up its key and whatever runs beside it
   afterwards: once it is answered with a message it has been charged exactly if the key was
   not stored at that moment. A send that is rate limited, or has not come to the limiter, is not charged.
   */
  lemma ChargedExactly(before: seq<Step>, later: seq<Step>, limit: Limit, op: nat, i: Input)
    requires op !in Run(START, before, limit).sends && i.Complete()
    ensures var w := Run(START, before, limit);
      var w' := Run(Do(w, LookUp(op, i), limit), later, limit);
      && op in w'.sends
      && (w'.sends[op].Done? && w'.sends[op].result.Kept? ==>
            (op in w'.charged <==> i.Key() !in w.store.byClient))
      && (w'.sends[op].Missed? || w'.sends[op].Passed? || w'.sends[op] == Done(w'.sends[op].input, RateLimited) ==>
            op !in w'.charged)
      && (w'.sends[op].Admitted? ==> op in w'.charged)
  {
    RunKeepsInv(START, before, limit);
    var w := Run(START, before, limit);
    var d := Do(w, LookUp(op, i), limit);
    StepKeepsInv(w, LookUp(op, i), limit);
    RunKeepsInv(d, later, limit);
    if i.Key() in w.store.byClient {
      assert KeyHolds(w.store, i.Key()) && MessageInv(w.store, w.store.byClient[i.Key()]);
    }
    LookUpStays(d, later, limit, op);
    assert Billed(Run(d, later, limit), op);
  }

  // ---------------------------------------------------------------- two sends that overlap

  const TEXT := Input("a", "d", "c", "i", "hello")

  function Overlap(): seq<Step> {
    [LookUp(0, TEXT), LookUp(1, TEXT), Check(0), Check(1), Allow(0, 0), Allow(1, 0), Keep(0, "m"), Keep(1, "n")]
  }

  /** The usual retry: two sends of one client ID, both under way. One message, one cursor, and both charged. */
  lemma OverlappingSendsAreBothCharged()
    ensures var w := Run(Do(START, Other(CreateConversation("c", "a")), Limit(2, 10)), Overlap(), Limit(2, 10));
      && 0 in w.charged && 1 in w.charged && w.store.messages.Keys == {"m"} && Last(w.store, "c") == 1
  {
    var l := Limit(2, 10);
    var w := Do(START, Other(CreateConversation("c", "a")), l);
    TextIsComplete();
    assert w.store == EMPTY.(conversations := map["c" := Conversation("a", true)]) && w.sends == map[];
    BothPass(w, l);
    var w2 := Do(Do(Do(Do(w, Overlap()[0], l), Overlap()[1], l), Overlap()[2], l), Overlap()[3], l);
    BothAdmitted(w2, l);
    BothKept(Do(Do(w2, Overlap()[4], l), Overlap()[5], l), l);
    EightSteps(w, Overlap(), l);
  }

  lemma BothPass(w: World, l: Limit)
    requires w.store == EMPTY.(conversations := map["c" := Conversation("a", true)]) && w.sends == map[] &&
      TEXT.Complete()
    ensures Do(Do(Do(Do(w, Overlap()[0], l), Overlap()[1], l), Overlap()[2], l), Overlap()[3], l)
            == w.(sends := map[0 := Passed(TEXT), 1 := Passed(TEXT)])
  {
    var v := Do(Do(w, Overlap()[0], l), Overlap()[1], l);
    assert v == w.(sends := map[0 := Missed(TEXT), 1 := Missed(TEXT)]);
  }

  lemma BothAdmitted(w: World, l: Limit)
    requires w.sends == map[0 := Passed(TEXT), 1 := Passed(TEXT)] && w.stamps == map[] && w.charged == {} &&
      l == Limit(2, 10)
    ensures var v := Do(Do(w, Overlap()[4], l), Overlap()[5], l);
      v.charged == {0, 1} && v.sends == map[0 := Admitted(TEXT), 1 := Admitted(TEXT)] && v.store == w.store
  {
    var v := Do(w, Overlap()[4], l);
    assert v.charged == {0} && StampsOf(v, TEXT.Budget()) == [0];
  }

  lemma TextIsComplete()
    ensures TEXT.Complete()
    ensures Create(EMPTY, "c", "a") == EMPTY.(conversations := map["c" := Conversation("a", true)])
  {
    NotBlank("a");
    NotBlank("d");
    NotBlank("c");
    NotBlank("i");
    NotBlank("hello");
  }

  lemma BothKept(w: World, l: Limit)
    requires w.store == EMPTY.(conversations := map["c" := Conversation("a", true)])
    requires w.sends == map[0 := Admitted(TEXT), 1 := Admitted(TEXT)]
    ensures var w' := Do(Do(w, Keep(0, "m"), l), Keep(1, "n"), l);
      w'.charged == w.charged && w'.store.messages.Keys == {"m"} && Last(w'.store, "c") == 1
  {
    var k := Do(w, Keep(0, "m"), l);
    assert k.store == Added(w.store, New(TEXT, "m")) && k.store.byClient == map[TEXT.Key() := "m"];
    assert IsRetry(k.store, New(TEXT, "n"));
  }

  lemma EightSteps(w: World, s: seq<Step>, l: Limit)
    requires |s| == 8
    ensures Run(w, s, l) == Do(Do(Do(Do(Do(Do(Do(Do(w, s[0], l), s[1], l), s[2], l), s[3], l), s[4], l), s[5], l),
      s[6], l), s[7], l)
  {
    var v := Do(Do(Do(Do(w, s[0], l), s[1], l), s[2], l), s[3], l);
    FourSteps(w, s, l);
    FourSteps(v, s[4..], l);
    assert s[4..][4..] == [];
  }

  lemma FourSteps(w: World, s: seq<Step>, l: Limit)
    requires |s| >= 4
    ensures Run(w, s, l) == Run(Do(Do(Do(Do(w, s[0], l), s[1], l), s[2], l), s[3], l), s[4..], l)
  {
    assert s[1..][1..] == s[2..] && s[2..][1..] == s[3..] && s[3..][1..] == s[4..];
    var v := Do(Do(w, s[0], l), s[1], l);
    assert Run(w, s, l) == Run(Do(w, s[0], l), s[1..], l) == Run(v, s[2..], l);
    assert Run(v, s[2..], l) == Run(Do(v, s[2], l), s[3..], l);
  }
}
