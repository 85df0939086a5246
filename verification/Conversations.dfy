/**
 relay-server/internal/conversations/memory.go: messages with a cursor per conversation,
 written once for each client message ID and read page by page.
 */
module Conversations {
  import opened Wrappers

  datatype MessageStatus = Accepted | Persisted | Delivered | Processed | Failed

  datatype Message = Message(
    id: string, account: string, conversation: string, sender: string, clientId: string, body: string,
    status: MessageStatus, cursor: nat)

  datatype Conversation = Conversation(account: string, active: bool)

  datatype Store = Store(
    conversations: map<string, Conversation>, messages: map<string, Message>,
    byClient: map<string, string>, nextCursor: map<string, nat>)

  datatype Failure = NotFound | Invalid | Forbidden | Conflict | InvalidStatus

  function Last(s: Store, conversation: string): nat {
    if conversation in s.nextCursor then s.nextCursor[conversation] else 0
  }

  const NUL: char := '\0'

  function ClientKey(account: string, conversation: string, sender: string, clientId: string): string {
    account + [NUL] + conversation + [NUL] + sender + [NUL] + clientId
  }

  function KeyOf(m: Message): string { ClientKey(m.account, m.conversation, m.sender, m.clientId) }

  // ---------------------------------------------------------------- PutMessage

  function Refusal(s: Store, m: Message): Option<Failure> {
    if m.conversation !in s.conversations || s.conversations[m.conversation].account == "" then Some(NotFound)
    else if m.id == "" || m.conversation == "" || m.sender == "" then Some(Invalid)
    else if m.account != "" && m.account != s.conversations[m.conversation].account then Some(Forbidden)
    else None
  }

  /** The message as its conversation owns it. */
  function Owned(s: Store, m: Message): Message
    requires m.conversation in s.conversations
  {
    m.(account := s.conversations[m.conversation].account)
  }

  predicate IsRetry(s: Store, m: Message)
    requires m.conversation in s.conversations
  {
    KeyOf(Owned(s, m)) in s.byClient
  }

  function Stored(s: Store, m: Message): Message
    requires m.conversation in s.conversations
  {
    Owned(s, m).(cursor := Last(s, m.conversation) + 1)
  }

  /** The store after a message that is neither refused nor a retry. */
  function Added(s: Store, m: Message): Store
    requires m.conversation in s.conversations
  {
    var stored := Stored(s, m);
    s.(messages := s.messages[m.id := stored], nextCursor := s.nextCursor[m.conversation := stored.cursor],
       byClient := if m.clientId == "" then s.byClient else s.byClient[KeyOf(stored) := m.id])
  }

  function Put(s: Store, m: Message): Store {
    if Refusal(s, m).Some? || IsRetry(s, m) then s else Added(s, m)
  }

  // ---------------------------------------------------------------- the other writers

  function Create(s: Store, id: string, account: string): Store {
    if Blank(id) || Blank(account) || id in s.conversations then s
    else s.(conversations := s.conversations[id := Conversation(account, true)])
  }

  /** CloseConversation, which sets whatever status it is given. */
  function SetActive(s: Store, account: string, id: string, active: bool): Store {
    if id !in s.conversations || s.conversations[id].account != account then s
    else s.(conversations := s.conversations[id := Conversation(account, active)])
  }

  function Rank(status: MessageStatus): int {
    match status
    case Accepted => 1
    case Persisted => 2
    case Delivered => 3
    case Processed => 4
    case Failed => 0
  }

  predicate CanAdvance(from: MessageStatus, to: MessageStatus) {
    from == to || (to == Failed && from != Processed)
    || (from != Failed && from != Processed && Rank(to) >= Rank(from))
  }

  function SetStatus(s: Store, account: string, id: string, to: MessageStatus): Store {
    if id !in s.messages || s.messages[id].conversation !in s.conversations
       || s.conversations[s.messages[id].conversation].account != account
       || !CanAdvance(s.messages[id].status, to)
    then s
    else s.(messages := s.messages[id := s.messages[id].(status := to)])
  }

  // ---------------------------------------------------------------- what always holds

  /** Message `m` is at cursor `c` of the conversation. */
  ghost predicate At(s: Store, conversation: string, c: nat, id: string) {
    id in s.messages && s.messages[id].conversation == conversation && s.messages[id].cursor == c
  }

  ghost predicate MessageInv(s: Store, id: string)
    requires id in s.messages
  {
    && s.messages[id].id == id && s.messages[id].conversation in s.conversations
    && s.messages[id].account == s.conversations[s.messages[id].conversation].account
    && 1 <= s.messages[id].cursor <= Last(s, s.messages[id].conversation)
  }

  ghost predicate Apart(s: Store, a: string, b: string)
    requires a in s.messages && b in s.messages
  {
    s.messages[a].conversation == s.messages[b].conversation ==> s.messages[a].cursor != s.messages[b].cursor
  }

  ghost predicate Inv(s: Store) {
    var stored :=
      && (forall id {:trigger MessageInv(s, id)} :: id in s.messages ==> MessageInv(s, id))
      && (forall a, b {:trigger Apart(s, a, b)} :: a in s.messages && b in s.messages && a != b ==> Apart(s, a, b));
    var referred :=
      && (forall k :: k in s.byClient ==> s.byClient[k] in s.messages)
      && (forall c :: c in s.nextCursor ==> c in s.conversations);
    stored && referred
  }

  /** The cursors of a conversation are exactly 1..n. */
  ghost predicate Dense(s: Store, conversation: string) {
    forall c: nat {:trigger HasCursor(s, conversation, c)} :: 1 <= c <= Last(s, conversation) ==>
      HasCursor(s, conversation, c)
  }

  ghost predicate HasCursor(s: Store, conversation: string, c: nat) {
    exists id :: At(s, conversation, c, id)
  }

  /** Messages and client keys refer to each other. */
  ghost predicate Indexed(s: Store) {
    && (forall k {:trigger KeyHolds(s, k)} :: k in s.byClient ==> KeyHolds(s, k))
    && (forall id {:trigger IdHolds(s, id)} :: id in s.messages ==> IdHolds(s, id))
  }

  ghost predicate KeyHolds(s: Store, k: string)
    requires k in s.byClient
  {
    s.byClient[k] in s.messages && IndexedBy(s.messages[s.byClient[k]], k)
  }

  ghost predicate IdHolds(s: Store, id: string)
    requires id in s.messages
  {
    var m := s.messages[id];
    m.clientId != "" ==> KeyOf(m) in s.byClient && s.byClient[KeyOf(m)] == id
  }

  predicate IndexedBy(m: Message, key: string) { m.clientId != "" && KeyOf(m) == key }

  ghost predicate Sound(s: Store) {
    var indexed, dense := Inv(s) && Indexed(s), forall c {:trigger Dense(s, c)} :: Dense(s, c);
    indexed && dense
  }

  const EMPTY := Store(map[], map[], map[], map[])

  datatype Step =
    | CreateConversation(id: string, account: string)
    | CloseConversation(account: string, id: string, active: bool)
    | PutMessage(m: Message)
    | UpdateStatus(account: string, id: string, to: MessageStatus)

  function Do(s: Store, step: Step): Store {
    match step
    case CreateConversation(id, account) => Create(s, id, account)
    case CloseConversation(account, id, active) => SetActive(s, account, id, active)
    case PutMessage(m) => Put(s, m)
    case UpdateStatus(account, id, to) => SetStatus(s, account, id, to)
  }

  function Run(s: Store, steps: seq<Step>): Store
    decreases |steps|
  {
    if steps == [] then s else Run(Do(s, steps[0]), steps[1..])
  }

  /** The step stores a new message under an ID that already has one. */
  predicate Overwrites(s: Store, step: Step) {
    && step.PutMessage? && Refusal(s, step.m).None? && !IsRetry(s, step.m) && step.m.id in s.messages
  }

  lemma StepKeepsMessage(s: Store, step: Step, id: string)
    requires Inv(s) && id in Do(s, step).messages
    ensures MessageInv(Do(s, step), id)
  {
    if id in s.messages {
      assert MessageInv(s, id);
    }
  }

  lemma StepKeepsApart(s: Store, step: Step, a: string, b: string)
    requires Inv(s) && a in Do(s, step).messages && b in Do(s, step).messages && a != b
    ensures Apart(Do(s, step), a, b)
  {
    if a in s.messages {
      assert MessageInv(s, a);
    }
    if b in s.messages {
      assert MessageInv(s, b);
    }
    if a in s.messages && b in s.messages {
      assert Apart(s, a, b);
    }
  }

  lemma StepKeepsInv(s: Store, step: Step)
    requires Inv(s)
    ensures Inv(Do(s, step))
  {
    var s' := Do(s, step);
    forall id | id in s'.messages
      ensures MessageInv(s', id)
    {
      StepKeepsMessage(s, step, id);
    }
    forall a, b | a in s'.messages && b in s'.messages && a != b
      ensures Apart(s', a, b)
    {
      StepKeepsApart(s, step, a, b);
    }
  }

  lemma StepKeepsDense(s: Store, step: Step, conversation: string)
    requires Inv(s) && Dense(s, conversation) && !Overwrites(s, step)
    ensures Dense(Do(s, step), conversation)
  {
    var s' := Do(s, step);
    forall c: nat | 1 <= c <= Last(s', conversation)
      ensures HasCursor(s', conversation, c)
    {
      if c <= Last(s, conversation) {
        assert HasCursor(s, conversation, c);
        var id :| At(s, conversation, c, id);
        assert At(s', conversation, c, id);
      } else {
        assert At(s', conversation, c, step.m.id);
      }
    }
  }

  lemma StepKeepsIndexed(s: Store, step: Step)
    requires Inv(s) && Indexed(s) && !Overwrites(s, step)
    ensures Indexed(Do(s, step))
  {
    var s' := Do(s, step);
    forall k | k in s'.byClient
      ensures KeyHolds(s', k)
    {
      assert k in s.byClient ==> KeyHolds(s, k);
    }
    forall id | id in s'.messages
      ensures IdHolds(s', id)
    {
      assert id in s.messages ==> IdHolds(s, id);
    }
  }

  lemma StepKeepsSound(s: Store, step: Step)
    requires Sound(s) && !Overwrites(s, step)
    ensures Sound(Do(s, step))
  {
    StepKeepsInv(s, step);
    StepKeepsIndexed(s, step);
    forall c
      ensures Dense(Do(s, step), c)
    {
      assert Dense(s, c);
      StepKeepsDense(s, step, c);
    }
  }

  /** A step loses a cursor exactly if it stores a new message under a used ID. */
  lemma DenseBreaksExactly(s: Store, step: Step)
    requires Inv(s) && forall c {:trigger Dense(s, c)} :: Dense(s, c)
    ensures (exists c :: !Dense(Do(s, step), c)) <==> Overwrites(s, step)
  {
    var s' := Do(s, step);
    if Overwrites(s, step) {
      var lost := s.messages[step.m.id];
      assert MessageInv(s, step.m.id);
      forall id
        ensures !At(s', lost.conversation, lost.cursor, id)
      {
        assert id in s.messages && id != step.m.id ==> Apart(s, id, step.m.id);
      }
      assert !HasCursor(s', lost.conversation, lost.cursor) && !Dense(s', lost.conversation);
    } else {
      forall c
        ensures Dense(s', c)
      {
        assert Dense(s, c);
        StepKeepsDense(s, step, c);
      }
    }
  }

  /** Every new message of the run has an ID of its own, as NewID draws them. */
  predicate Fresh(s: Store, steps: seq<Step>)
    decreases |steps|
  {
    steps == [] || (!Overwrites(s, steps[0]) && Fresh(Do(s, steps[0]), steps[1..]))
  }

  lemma {:induction false} RunKeepsSound(s: Store, steps: seq<Step>)
    requires Sound(s) && Fresh(s, steps)
    ensures Sound(Run(s, steps))
    decreases |steps|
  {
    if steps != [] {
      StepKeepsSound(s, steps[0]);
      RunKeepsSound(Do(s, steps[0]), steps[1..]);
    }
  }

  /** In every run the cursors of a conversation are exactly 1..n, each with one message. */
  lemma CursorsAreExact(steps: seq<Step>, conversation: string, c: nat)
    requires Fresh(EMPTY, steps)
    ensures var s := Run(EMPTY, steps);
      && (HasCursor(s, conversation, c) <==> 1 <= c <= Last(s, conversation))
      && (forall a, b :: At(s, conversation, c, a) && At(s, conversation, c, b) ==> a == b)
  {
    RunKeepsSound(EMPTY, steps);
    var s := Run(EMPTY, steps);
    assert Dense(s, conversation);
    if HasCursor(s, conversation, c) {
      var id :| At(s, conversation, c, id);
      assert MessageInv(s, id);
    }
    forall a, b | At(s, conversation, c, a) && At(s, conversation, c, b)
      ensures a == b
    {
      assert a != b ==> Apart(s, a, b);
    }
  }

  // ---------------------------------------------------------------- retries

  // ---------------------------------------------------------------- statuses

  /** The statuses a message can still come to. */
  function Ahead(status: MessageStatus): set<MessageStatus> {
    match status
    case Accepted => {Accepted, Persisted, Delivered, Processed, Failed}
    case Persisted => {Persisted, Delivered, Processed, Failed}
    case Delivered => {Delivered, Processed, Failed}
    case Processed => {Processed}
    case Failed => {Failed}
  }

  /** An update of the owner moves the status exactly to one that is ahead of it, and nothing else of the message. */
  lemma StatusMovesExactly(s: Store, account: string, id: string, to: MessageStatus)
    requires Inv(s) && id in s.messages
    ensures var m, t := s.messages[id], SetStatus(s, account, id, to);
      && t == s.(messages := t.messages) && t.messages.Keys == s.messages.Keys
      && (forall k :: k in s.messages && k != id ==> t.messages[k] == s.messages[k])
      && t.messages[id] == if m.account == account && to in Ahead(m.status) then m.(status := to) else m
  {
    assert MessageInv(s, id);
  }

  /** So in no run does a status go back, and none leaves the two last ones. */
  lemma {:induction false} StatusNeverGoesBack(s: Store, steps: seq<Step>, id: string)
    requires Inv(s) && id in s.messages && Fresh(s, steps)
    ensures var t := Run(s, steps); id in t.messages && t.messages[id].status in Ahead(s.messages[id].status)
    decreases |steps|
  {
    if steps != [] {
      StatusStep(s, steps[0], id);
      StepKeepsInv(s, steps[0]);
      StatusNeverGoesBack(Do(s, steps[0]), steps[1..], id);
      AheadIsTransitive(s.messages[id].status, Do(s, steps[0]).messages[id].status);
    }
  }

  lemma AheadIsTransitive(a: MessageStatus, b: MessageStatus)
    requires b in Ahead(a)
    ensures Ahead(b) <= Ahead(a)
  {
  }

  lemma StatusStep(s: Store, step: Step, id: string)
    requires Inv(s) && id in s.messages && !Overwrites(s, step)
    ensures var t := Do(s, step); id in t.messages && t.messages[id].status in Ahead(s.messages[id].status)
  {
    if step.UpdateStatus? && step.id in s.messages {
      StatusMovesExactly(s, step.account, step.id, step.to);
    }
  }

  predicate NoNul(s: string) { NUL !in s }

  lemma {:induction false} FirstPart(a: string, b: string, x: string, y: string)
    requires NoNul(a) && NoNul(b) && a + [NUL] + x == b + [NUL] + y
    ensures a == b && x == y
  {
    if a != [] && b != [] {
      var l, r := a + [NUL] + x, b + [NUL] + y;
      assert l[0] == a[0] && r[0] == b[0];
      assert l[1..] == a[1..] + [NUL] + x && r[1..] == b[1..] + [NUL] + y;
      FirstPart(a[1..], b[1..], x, y);
      assert a == [a[0]] + a[1..] && b == [b[0]] + b[1..];
    } else {
      var l, r := a + [NUL] + x, b + [NUL] + y;
      assert l[0] == r[0];
      assert a == b;
      assert l[1..] == x && r[1..] == y;
    }
  }

  /** The key tells its parts apart as long as the first three contain no NUL. */
  lemma KeyIsInjective(a: string, c: string, d: string, i: string, a': string, c': string, d': string, i': string)
    requires NoNul(a) && NoNul(c) && NoNul(d) && NoNul(a') && NoNul(c') && NoNul(d')
    ensures ClientKey(a, c, d, i) == ClientKey(a', c', d', i') <==> a == a' && c == c' && d == d' && i == i'
  {
    if ClientKey(a, c, d, i) == ClientKey(a', c', d', i') {
      var x, x' := d + [NUL] + i, d' + [NUL] + i';
      var y, y' := c + [NUL] + x, c' + [NUL] + x';
      assert ClientKey(a, c, d, i) == a + [NUL] + y && ClientKey(a', c', d', i') == a' + [NUL] + y';
      FirstPart(a, a', y, y');
      FirstPart(c, c', x, x');
      FirstPart(d, d', i, i');
    }
  }

  /** No other four parts have the key of these. */
  ghost predicate KeyIsOwn(a: string, c: string, d: string, i: string) {
    forall a', c', d', i' {:trigger ClientKey(a', c', d', i')} ::
      ClientKey(a', c', d', i') == ClientKey(a, c, d, i) ==> a' == a && c' == c && d' == d && i' == i
  }

  /** A key belongs to one client message ID of one sender exactly if none of its four parts contains a NUL. */
  lemma KeyIsOwnExactly(a: string, c: string, d: string, i: string)
    ensures KeyIsOwn(a, c, d, i) <==> NoNul(a) && NoNul(c) && NoNul(d) && NoNul(i)
  {
    if NoNul(a) && NoNul(c) && NoNul(d) && NoNul(i) {
      forall a', c', d', i' | ClientKey(a', c', d', i') == ClientKey(a, c, d, i)
        ensures a' == a && c' == c && d' == d && i' == i
      {
        CleanKeyIsOwn(a, c, d, i, a', c', d', i');
      }
    } else if !NoNul(a) {
      AccountIsCut(a, c, d, i);
    } else if !NoNul(c) {
      ConversationIsCut(a, c, d, i);
    } else if !NoNul(d) {
      SenderIsCut(a, c, d, i);
    } else {
      ClientIdIsCut(a, c, d, i);
    }
  }

  lemma CleanKeyIsOwn(a: string, c: string, d: string, i: string, a': string, c': string, d': string, i': string)
    requires NoNul(a) && NoNul(c) && NoNul(d) && NoNul(i) && ClientKey(a', c', d', i') == ClientKey(a, c, d, i)
    ensures a' == a && c' == c && d' == d && i' == i
  {
    KeyNuls(a, c, d, i);
    KeyNuls(a', c', d', i');
    KeyIsInjective(a', c', d', i', a, c, d, i);
  }

  function Nuls(s: string): nat { multiset(s)[NUL] }

  lemma KeyNuls(a: string, c: string, d: string, i: string)
    ensures Nuls(ClientKey(a, c, d, i)) == 3 + Nuls(a) + Nuls(c) + Nuls(d) + Nuls(i)
  {
  }

  /** A part with a NUL in it can be cut there, and the parts after it moved up by one. */
  lemma AtNul(s: string) returns (l: string, r: string)
    requires !NoNul(s)
    ensures s == l + [NUL] + r && |l| < |s|
  {
    var k :| 0 <= k < |s| && s[k] == NUL;
    l, r := s[..k], s[k + 1..];
  }

  lemma AccountIsCut(a: string, c: string, d: string, i: string)
    requires !NoNul(a)
    ensures !KeyIsOwn(a, c, d, i)
  {
    var l, r := AtNul(a);
    assert ClientKey(l, r, c, d + [NUL] + i) == ClientKey(a, c, d, i);
  }

  lemma ConversationIsCut(a: string, c: string, d: string, i: string)
    requires !NoNul(c)
    ensures !KeyIsOwn(a, c, d, i)
  {
    var l, r := AtNul(c);
    assert ClientKey(a, l, r, d + [NUL] + i) == ClientKey(a, c, d, i);
  }

  lemma SenderIsCut(a: string, c: string, d: string, i: string)
    requires !NoNul(d)
    ensures !KeyIsOwn(a, c, d, i)
  {
    var l, r := AtNul(d);
    assert ClientKey(a, c, l, r + [NUL] + i) == ClientKey(a, c, d, i);
  }

  lemma ClientIdIsCut(a: string, c: string, d: string, i: string)
    requires !NoNul(i)
    ensures !KeyIsOwn(a, c, d, i)
  {
    var l, r := AtNul(i);
    assert ClientKey(a, c, d + [NUL] + l, r) == ClientKey(a, c, d, i);
    assert |r| < |i|;
  }

  function From(id: string, sender: string, clientId: string): Message {
    Message(id, "a", "c", sender, clientId, "text", Persisted, 0)
  }

  /** The store once "a" has a conversation "c" with one message in it. */
  function OneMessage(m: Message): Store { Run(EMPTY, [CreateConversation("c", "a"), PutMessage(m)]) }

  lemma OneMessageIsStored(m: Message)
    requires m.conversation == "c" && m.account == "a" && m.id != "" && m.sender != "" && m.clientId != ""
    ensures OneMessage(m) == Store(
              map["c" := Conversation("a", true)], map[m.id := m.(cursor := 1)], map[KeyOf(m) := m.id], map["c" := 1])
  {
    var steps := [CreateConversation("c", "a"), PutMessage(m)];
    var s := Create(EMPTY, "c", "a");
    NotBlank("c");
    NotBlank("a");
    assert steps[1..] == [PutMessage(m)] && steps[1..][1..] == [];
    assert Run(Put(s, m), []) == Put(s, m) && Run(s, [PutMessage(m)]) == Put(s, m);
    assert Owned(s, m) == m && Put(s, m) == Added(s, m);
  }

  /** With a NUL in a sender the parts can run together, and a new message is taken for a retry of another. */
  lemma NulConfusesKeys()
    ensures var first, second := From("m", "d" + [NUL] + "e", "i"), From("n", "d", "e" + [NUL] + "i");
      var s := OneMessage(first);
      && Refusal(s, second).None? && IsRetry(s, second) && Put(s, second) == s && "n" !in s.messages
      && !SameClient(first, second)
  {
    var first, second := From("m", "d" + [NUL] + "e", "i"), From("n", "d", "e" + [NUL] + "i");
    OneMessageIsStored(first);
    assert first.sender[1] == NUL && |first.sender| == 3;
    assert KeyOf(first) == "a" + [NUL] + "c" + [NUL] + "d" + [NUL] + "e" + [NUL] + "i";
    assert KeyOf(second) == KeyOf(first);
  }

  /** A message ID used a second time: the first message is gone, and with it cursor 1. */
  lemma ReusedIdLosesCursor()
    ensures var s := Put(OneMessage(From("m", "d", "i")), From("m", "d", "j"));
      && Last(s, "c") == 2 && !HasCursor(s, "c", 1) && !Dense(s, "c")
      && s.messages.Keys == {"m"} && s.messages["m"].clientId == "j"
  {
    var first, second := From("m", "d", "i"), From("m", "d", "j");
    var before := OneMessage(first);
    OneMessageIsStored(first);
    assert KeyOf(first)[|KeyOf(first)| - 1] == 'i' && KeyOf(second)[|KeyOf(second)| - 1] == 'j';
    assert !IsRetry(before, second) && Refusal(before, second).None?;
    var s := Put(before, second);
    assert s.messages == map["m" := second.(cursor := 2)];
    assert forall id :: !At(s, "c", 1, id);
  }

  predicate CleanIds(m: Message) { NoNul(m.account) && NoNul(m.conversation) && NoNul(m.sender) }

  /** The message is taken for a retry exactly if one with its client ID is stored. */
  lemma RetriesAreRecognised(s: Store, m: Message)
    requires Sound(s) && m.conversation in s.conversations && CleanIds(Owned(s, m))
    requires forall id :: id in s.messages ==> CleanIds(s.messages[id])
    ensures IsRetry(s, m) <==> m.clientId != "" && exists id :: id in s.messages && SameClient(s.messages[id], m)
    ensures IsRetry(s, m) ==> SameClient(s.messages[s.byClient[KeyOf(Owned(s, m))]], m)
  {
    var key := KeyOf(Owned(s, m));
    if key in s.byClient {
      var e := s.messages[s.byClient[key]];
      assert KeyHolds(s, key);
      KeyIsInjective(e.account, e.conversation, e.sender, e.clientId, Owned(s, m).account, m.conversation, m.sender,
        m.clientId);
    }
    if id :| m.clientId != "" && id in s.messages && SameClient(s.messages[id], m) {
      assert MessageInv(s, id) && IdHolds(s, id);
    }
  }

  predicate SameClient(a: Message, b: Message) {
    a.conversation == b.conversation && a.sender == b.sender && a.clientId == b.clientId
  }

  /** What no later step takes back from a stored message. */
  ghost predicate Keeps(s: Store, s': Store, id: string)
    requires id in s.messages
  {
    id in s'.messages && s'.messages[id].(status := Accepted) == s.messages[id].(status := Accepted)
  }

  lemma {:induction false} MessagesStay(s: Store, steps: seq<Step>, id: string)
    requires Sound(s) && Fresh(s, steps) && id in s.messages
    ensures Keeps(s, Run(s, steps), id) && Sound(Run(s, steps))
    decreases |steps|
  {
    if steps != [] {
      StepKeepsSound(s, steps[0]);
      MessagesStay(Do(s, steps[0]), steps[1..], id);
    }
  }

  /** However much happens in between, a retry changes nothing and finds the message it retries. */
  lemma RetryFindsOriginal(s: Store, m: Message, steps: seq<Step>, again: Message)
    requires Sound(s) && Refusal(s, m).None? && !IsRetry(s, m) && m.id !in s.messages && m.clientId != ""
    requires Fresh(Put(s, m), steps) && SameClient(again, m)
    requires Refusal(Run(Put(s, m), steps), again).None?
    ensures var after := Run(Put(s, m), steps);
      && IsRetry(after, again) && Put(after, again) == after
      && after.byClient[KeyOf(Owned(after, again))] == m.id && Keeps(Put(s, m), after, m.id)
  {
    var first := Put(s, m);
    StepKeepsSound(s, PutMessage(m));
    MessagesStay(first, steps, m.id);
    var after := Run(first, steps);
    assert MessageInv(after, m.id) && IdHolds(after, m.id) && KeyOf(after.messages[m.id]) == KeyOf(Owned(after, again));
  }

  // ---------------------------------------------------------------- paging

  /** The messages of the conversation after a cursor, in cursor order. */
  ghost predicate Listing(s: Store, conversation: string, after: int, items: seq<Message>) {
    && (forall m :: m in items <==>
         m.id in s.messages && s.messages[m.id] == m && m.conversation == conversation && m.cursor > after)
    && (forall i, j :: 0 <= i < j < |items| ==> items[i].cursor < items[j].cursor)
  }

  datatype Page = Page(messages: seq<Message>, next: int, more: bool)

  function Clamp(limit: int): nat { if limit <= 0 then 100 else if limit > 1000 then 1000 else limit }

  function Cut(items: seq<Message>, after: int, limit: int): Page {
    var messages := if |items| > Clamp(limit) then items[..Clamp(limit)] else items;
    Page(messages, if messages == [] then after else messages[|messages| - 1].cursor, |items| > Clamp(limit))
  }

  /** An answer of ListMessages. */
  ghost predicate Answer(s: Store, conversation: string, after: int, limit: int, page: Page) {
    exists items :: Listing(s, conversation, after, items) && page == Cut(items, after, limit)
  }

  lemma FindCursor(s: Store, conversation: string, after: nat, items: seq<Message>, c: nat) returns (k: nat)
    requires Sound(s) && Listing(s, conversation, after, items) && after < c <= Last(s, conversation)
    ensures k < |items| && items[k].cursor == c
  {
    assert Dense(s, conversation) && HasCursor(s, conversation, c);
    var id :| At(s, conversation, c, id);
    assert MessageInv(s, id) && s.messages[id] in items;
    k :| 0 <= k < |items| && items[k] == s.messages[id];
  }

  /** With exact cursors, item k is the message at cursor after + 1 + k. */
  lemma {:induction false} ListingIsRange(s: Store, conversation: string, after: nat, items: seq<Message>, k: nat)
    requires Sound(s) && Listing(s, conversation, after, items) && k < |items|
    ensures items[k].cursor == after + 1 + k <= Last(s, conversation)
    decreases k
  {
    assert items[k] in items && MessageInv(s, items[k].id);
    if k > 0 {
      ListingIsRange(s, conversation, after, items, k - 1);
    }
    var j := FindCursor(s, conversation, after, items, after + 1 + k);
  }

  lemma ListingReachesLast(s: Store, conversation: string, after: nat, items: seq<Message>)
    requires Sound(s) && Listing(s, conversation, after, items) && after <= Last(s, conversation)
    ensures |items| == Last(s, conversation) - after
  {
    if items != [] {
      ListingIsRange(s, conversation, after, items, |items| - 1);
    }
    if after < Last(s, conversation) {
      var k := FindCursor(s, conversation, after, items, Last(s, conversation));
      ListingIsRange(s, conversation, after, items, k);
    }
  }

  /** A reader that follows NextCursor from the start. */
  datatype Reader = Reader(conversation: string, after: int, seen: seq<Message>)

  datatype Act = Write(step: Step) | Read(limit: int, page: Page)

  function Turn(r: Reader, page: Page): Reader {
    Reader(r.conversation, page.next, r.seen + page.messages)
  }

  function Reading(s: Store, r: Reader, acts: seq<Act>): (Store, Reader)
    decreases |acts|
  {
    if acts == [] then (s, r)
    else
      match acts[0]
      case Write(step) => Reading(Do(s, step), r, acts[1..])
      case Read(_, page) => Reading(s, Turn(r, page), acts[1..])
  }

  /** Writers draw fresh IDs and the repository answers every read. */
  ghost predicate Proper(s: Store, r: Reader, acts: seq<Act>)
    decreases |acts|
  {
    acts == [] ||
    match acts[0]
    case Write(step) => !Overwrites(s, step) && Proper(Do(s, step), r, acts[1..])
    case Read(limit, page) => Answer(s, r.conversation, r.after, limit, page) && Proper(s, Turn(r, page), acts[1..])
  }

  /** The reader has seen cursors 1..after, each once, in order, as they were stored. */
  ghost predicate HasSeen(s: Store, r: Reader) {
    var seen := forall k {:trigger r.seen[k]} :: 0 <= k < |r.seen| ==>
      At(s, r.conversation, k + 1, r.seen[k].id) &&
        s.messages[r.seen[k].id].(status := Accepted) == r.seen[k].(status := Accepted);
    seen && 0 <= r.after == |r.seen| <= Last(s, r.conversation)
  }

  lemma ReadKeepsSeen(s: Store, r: Reader, limit: int, page: Page)
    requires Sound(s) && HasSeen(s, r) && Answer(s, r.conversation, r.after, limit, page)
    ensures HasSeen(s, Turn(r, page))
    ensures page.more <==> page.next < Last(s, r.conversation)
    ensures r.after < Last(s, r.conversation) ==> page.messages != []
  {
    var items :| Listing(s, r.conversation, r.after, items) && page == Cut(items, r.after, limit);
    ListingReachesLast(s, r.conversation, r.after, items);
    forall k | 0 <= k < |page.messages|
      ensures At(s, r.conversation, r.after + 1 + k, page.messages[k].id) &&
        s.messages[page.messages[k].id] == page.messages[k]
    {
      ListingIsRange(s, r.conversation, r.after, items, k);
      assert items[k] in items;
    }
  }

  lemma WriteKeepsSeen(s: Store, r: Reader, step: Step)
    requires Sound(s) && HasSeen(s, r) && !Overwrites(s, step)
    ensures HasSeen(Do(s, step), r)
  {
  }

  /** Paging under concurrent writers: every message up to the reader's cursor exactly once, in order. */
  lemma {:induction false} ReaderSeesEverythingOnce(s: Store, r: Reader, acts: seq<Act>)
    requires Sound(s) && HasSeen(s, r) && Proper(s, r, acts)
    ensures var (s', r') := Reading(s, r, acts); Sound(s') && HasSeen(s', r') && r.seen <= r'.seen
    decreases |acts|
  {
    if acts != [] {
      match acts[0]
      case Write(step) =>
        WriteKeepsSeen(s, r, step);
        StepKeepsSound(s, step);
        ReaderSeesEverythingOnce(Do(s, step), r, acts[1..]);
      case Read(limit, page) =>
        ReadKeepsSeen(s, r, limit, page);
        ReaderSeesEverythingOnce(s, Turn(r, page), acts[1..]);
    }
  }
}
