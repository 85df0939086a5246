/**
 The memory repository of relay-server/internal/conversations as an object, each call shown
 to be a step or a read of module Conversations, and SendMessage of conversations.go on it.
 */
module ConversationService {
  import opened Wrappers
  import opened Conversations
  import SendProtocol
  import WindowLimiter

  predicate Increasing(items: seq<Message>) {
    forall i, j :: 0 <= i < j < |items| ==> items[i].cursor < items[j].cursor
  }

  /** Where an item goes in a sorted list. */
  method PlaceFor(sorted: seq<Message>, cursor: int) returns (k: nat)
    requires Increasing(sorted) && forall i :: 0 <= i < |sorted| ==> sorted[i].cursor != cursor
    ensures k <= |sorted| && forall i :: 0 <= i < |sorted| ==> (i < k <==> sorted[i].cursor < cursor)
  {
    k := |sorted|;
    while k > 0 && sorted[k - 1].cursor > cursor
      invariant 0 <= k <= |sorted| && forall i :: k <= i < |sorted| ==> sorted[i].cursor > cursor
    {
      k := k - 1;
    }
  }

  /** The sort of ListMessages, on items whose cursors differ. */
  method SortByCursor(items: seq<Message>) returns (sorted: seq<Message>)
    requires forall i, j :: 0 <= i < j < |items| ==> items[i].cursor != items[j].cursor
    ensures Increasing(sorted) && forall m :: m in sorted <==> m in items
  {
    sorted := [];
    for n := 0 to |items|
      invariant Increasing(sorted)
      invariant forall m :: m in sorted <==> m in items[..n]
    {
      assert items[..n + 1] == items[..n] + [items[n]];
      forall i | 0 <= i < |sorted|
        ensures sorted[i].cursor != items[n].cursor
      {
        assert sorted[i] in items[..n];
      }
      var k := PlaceFor(sorted, items[n].cursor);
      sorted := sorted[..k] + [items[n]] + sorted[k..];
    }
    assert items[..|items|] == items;
  }

  lemma PutKeepsInv(s: Store, m: Message)
    requires Inv(s)
    ensures Inv(Put(s, m))
  {
    StepKeepsInv(s, Conversations.PutMessage(m));
  }

  class MemoryRepository {
    var conversations: map<string, Conversation>
    var messages: map<string, Message>
    var byClient: map<string, string>
    var nextCursor: map<string, nat>

    ghost function View(): Store
      reads this
    {
      Store(conversations, messages, byClient, nextCursor)
    }

    ghost predicate Valid()
      reads this
    {
      Inv(View())
    }

    constructor ()
      ensures Valid() && View() == EMPTY
    {
      conversations, messages, byClient, nextCursor := map[], map[], map[], map[];
    }

    method CreateConversation(id: string, account: string) returns (r: Result<(), Failure>)
      requires Valid()
      modifies this`conversations
      ensures Valid() && View() == Create(old(View()), id, account)
      ensures r == Failure(Invalid) <==> Blank(id) || Blank(account)
      ensures r == Failure(Conflict) <==> !Blank(id) && !Blank(account) && id in old(conversations)
      ensures r.Success? <==> View() != old(View())
    {
      StepKeepsInv(View(), Conversations.CreateConversation(id, account));
      if Blank(id) || Blank(account) {
        return Failure(Invalid);
      }
      if id in conversations {
        return Failure(Conflict);
      }
      conversations := conversations[id := Conversation(account, true)];
      r := Success(());
      assert id in View().conversations;
    }

    method GetConversation(account: string, id: string) returns (r: Result<Conversation, Failure>)
      ensures r == if id in conversations && conversations[id].account == account
                   then Success(conversations[id]) else Failure(NotFound)
    {
      if id !in conversations || conversations[id].account != account {
        return Failure(NotFound);
      }
      r := Success(conversations[id]);
    }

    method CloseConversation(account: string, id: string, active: bool) returns (r: Result<(), Failure>)
      requires Valid()
      modifies this`conversations
      ensures Valid() && View() == SetActive(old(View()), account, id, active)
      ensures r == if id in old(conversations) && old(conversations)[id].account == account then Success(())
        else Failure(NotFound)
    {
      StepKeepsInv(View(), Conversations.CloseConversation(account, id, active));
      if id !in conversations || conversations[id].account != account {
        return Failure(NotFound);
      }
      conversations := conversations[id := conversations[id].(active := active)];
      r := Success(());
    }

    /** PutMessage: a retry gets the stored message, a new one the next cursor. */
    method PutMessage(m: Message) returns (r: Result<(Message, bool), Failure>)
      requires Valid()
      modifies this`messages, this`byClient, this`nextCursor
      ensures Valid() && View() == Put(old(View()), m)
      ensures r.Failure? <==> Refusal(old(View()), m).Some?
      ensures r.Failure? ==> Refusal(old(View()), m) == Some(r.error)
      ensures r.Success? ==> (r.value.1 <==> IsRetry(old(View()), m))
      ensures r.Success? && !r.value.1 ==>
        r.value.0 == Stored(old(View()), m) && m.id in messages && messages[m.id] == r.value.0
      ensures r.Success? && r.value.1 ==> var s := old(View()); r.value.0 == s.messages[s.byClient[KeyOf(Owned(s, m))]]
    {
      ghost var before := View();
      PutKeepsInv(before, m);
      if m.conversation !in conversations || conversations[m.conversation].account == "" {
        return Failure(NotFound);
      }
      if m.id == "" || m.conversation == "" || m.sender == "" {
        return Failure(Invalid);
      }
      var account := conversations[m.conversation].account;
      if m.account != "" && m.account != account {
        return Failure(Forbidden);
      }
      var key := ClientKey(account, m.conversation, m.sender, m.clientId);
      assert key == KeyOf(Owned(before, m));
      if key in byClient {
        return Success((messages[byClient[key]], true));
      }
      var stored := StoreMessage(m.(account := account));
      assert View() == Added(before, m);
      r := Success((stored, false));
    }

    /** The three writes of a new message. */
    method StoreMessage(m: Message) returns (stored: Message)
      requires m.conversation in conversations && m.account == conversations[m.conversation].account
      modifies this`messages, this`byClient, this`nextCursor
      ensures View() == Added(old(View()), m) && stored == Stored(old(View()), m)
    {
      var cursor := (if m.conversation in nextCursor then nextCursor[m.conversation] else 0) + 1;
      nextCursor := nextCursor[m.conversation := cursor];
      stored := m.(cursor := cursor);
      messages := messages[m.id := stored];
      if m.clientId != "" {
        byClient := byClient[ClientKey(m.account, m.conversation, m.sender, m.clientId) := m.id];
      }
    }

    method FindMessageByClientID(account: string, conversation: string, sender: string, clientId: string)
      returns (r: Option<Message>)
      requires Valid()
      ensures r.Some? <==> ClientKey(account, conversation, sender, clientId) in byClient
      ensures r.Some? ==> var id := byClient[ClientKey(account, conversation, sender, clientId)];
        id in messages && r.value == messages[id]
    {
      var key := ClientKey(account, conversation, sender, clientId);
      if key !in byClient {
        return None;
      }
      r := Some(messages[byClient[key]]);
    }

    /** The range over the map: the messages of the conversation after the cursor, in any order. */
    method Collect(conversation: string, after: int) returns (items: seq<Message>)
      requires Valid()
      ensures forall i, j :: 0 <= i < j < |items| ==> items[i].cursor != items[j].cursor
      ensures forall m :: m in items <==>
                m.id in messages && messages[m.id] == m && m.conversation == conversation && m.cursor > after
    {
      items := [];
      var ids := messages.Keys;
      while ids != {}
        invariant ids <= messages.Keys
        invariant forall i :: 0 <= i < |items| ==> Wanted(items[i], ids, conversation, after)
        invariant forall id ::
          id in messages && id !in ids && messages[id].conversation == conversation && messages[id].cursor > after ==>
          messages[id] in items
        invariant forall i, j :: 0 <= i < j < |items| ==> items[i].cursor != items[j].cursor
        decreases |ids|
      {
        var id := AnyOf(ids);
        var m := messages[id];
        assert MessageInv(View(), id);
        if m.conversation == conversation && m.cursor > after {
          forall i | 0 <= i < |items|
            ensures items[i].cursor != m.cursor
          {
            assert Wanted(items[i], ids, conversation, after) && Apart(View(), items[i].id, id);
          }
          items := items + [m];
        }
        ids := ids - {id};
      }
      forall m | m in items
        ensures m.id in messages && messages[m.id] == m && m.conversation == conversation && m.cursor > after
      {
        var i :| 0 <= i < |items| && items[i] == m;
        assert Wanted(items[i], ids, conversation, after);
      }
      forall m: Message | m.id in messages && messages[m.id] == m && m.conversation == conversation && m.cursor > after
        ensures m in items
      {
      }
    }

    ghost predicate Wanted(m: Message, ids: set<string>, conversation: string, after: int)
      reads this
    {
      m.id in messages && m.id !in ids && messages[m.id] == m && m.conversation == conversation && m.cursor > after
    }

    /** ListMessages: the page after a cursor, in cursor order. */
    method ListMessages(
      account: string, conversation: string, after: int, limit: int) returns (r: Result<Page, Failure>)
      requires Valid()
      ensures r.Success? <==> conversation in conversations && conversations[conversation].account == account
      ensures r.Failure? ==> r.error == NotFound
      ensures r.Success? ==> Answer(View(), conversation, after, limit, r.value)
    {
      if conversation !in conversations || conversations[conversation].account != account {
        return Failure(NotFound);
      }
      var limit' := limit;
      if limit' <= 0 {
        limit' := 100;
      }
      if limit' > 1000 {
        limit' := 1000;
      }
      var found := Collect(conversation, after);
      var items := SortByCursor(found);
      ghost var all := items;
      assert Listing(View(), conversation, after, all);
      var more := |items| > limit';
      if more {
        items := items[..limit'];
      }
      var next := after;
      if |items| > 0 {
        next := items[|items| - 1].cursor;
      }
      r := Success(Page(items, next, more));
      assert r.value == Cut(all, after, limit);
    }

    method UpdateMessageStatus(account: string, id: string, to: MessageStatus) returns (r: Result<Message, Failure>)
      requires Valid()
      modifies this`messages
      ensures Valid() && View() == SetStatus(old(View()), account, id, to)
      ensures r.Success? ==> id in messages && r.value == messages[id] && r.value.status == to
      ensures r.Failure? ==> View() == old(View())
      ensures var owned := id in old(messages) && old(messages)[id].conversation in conversations
                && conversations[old(messages)[id].conversation].account == account;
        r.Failure? ==>
          r.error == (if owned then InvalidStatus else NotFound) &&
          (owned ==> !CanAdvance(old(messages)[id].status, to))
    {
      StepKeepsInv(View(), UpdateStatus(account, id, to));
      if id !in messages {
        return Failure(NotFound);
      }
      var m := messages[id];
      if m.conversation !in conversations || conversations[m.conversation].account != account {
        return Failure(NotFound);
      }
      var may := MayAdvance(m.status, to);
      if !may {
        return Failure(InvalidStatus);
      }
      messages := messages[id := m.(status := to)];
      r := Success(messages[id]);
    }
  }

  /** statusRank. */
  method StatusRank(status: MessageStatus) returns (rank: int)
    ensures rank == Rank(status)
  {
    match status
    case Accepted => rank := 1;
    case Persisted => rank := 2;
    case Delivered => rank := 3;
    case Processed => rank := 4;
    case Failed => rank := 0;
  }

  /** canAdvance. */
  method MayAdvance(from: MessageStatus, to: MessageStatus) returns (may: bool)
    ensures may == CanAdvance(from, to)
  {
    if from == to {
      return true;
    }
    if to == Failed && from != Processed && from != Failed {
      return true;
    }
    if from == Failed || from == Processed {
      return false;
    }
    var a := StatusRank(from);
    var b := StatusRank(to);
    may := b >= a;
  }

  datatype SendError =
    | Unauthorized
    | Refused(error: Failure)
    | OperationRequired
    | InvalidOperation
    | TooLarge
    | Closed
    | RateLimited(retryAfter: int)

  datatype Config = Config(requireOperation: bool, maxBytes: int, perWindow: int, window: int)

  const ALLOWED := {"get_desktop_status", "get_recent_intel", "get_route_summary", "get_character_summary"}

  /** A send with its actor; `size` is the length of its JSON form, as MessageSize computes it. */
  datatype Request = Request(input: SendProtocol.Input, mobile: bool, operation: string, size: nat) {

    /** The checks before the lookup, in their order. */
    function Objection(c: Config): Option<SendError> {
      if Blank(input.account) || Blank(input.device) then Some(Unauthorized)
      else if !mobile then Some(Refused(Forbidden))
      else if !input.Complete() then Some(Refused(Invalid))
      else if c.requireOperation && Blank(operation) then Some(OperationRequired)
      else if operation != "" && Trim(operation) !in ALLOWED then Some(InvalidOperation)
      else if size > c.maxBytes then Some(TooLarge)
      else None
    }

    function NewMessage(id: string): Message { SendProtocol.New(input, id) }
  }

  /** The service, with the budget of its send limiter. */
  class Service {
    const repo: MemoryRepository
    const limiter: WindowLimiter.ServiceLimiter
    const config: Config

    constructor (repo: MemoryRepository, limiter: WindowLimiter.ServiceLimiter, config: Config)
      ensures this.repo == repo && this.limiter == limiter && this.config == config
    {
      this.repo, this.limiter, this.config := repo, limiter, config;
    }

    predicate Owns(q: Request)
      reads repo
    {
      var i := q.input;
      i.conversation in repo.conversations && repo.conversations[i.conversation].account == i.account
    }

    predicate Budget(key: string, now: int)
      reads limiter
    {
      WindowLimiter.Admits(limiter.StampsOf(key), config.perWindow, config.window, now)
    }

    function StampsAfter(key: string, now: int): seq<int>
      reads limiter
    {
      WindowLimiter.After(limiter.StampsOf(key), config.perWindow, config.window, now)
    }

    /**
     SendMessage. A retry costs no budget and stores nothing; a new message costs one call and
     takes one cursor; whatever else is refused costs nothing.
     */
    method SendMessage(q: Request, newId: string, now: int) returns (r: Result<(Message, bool), SendError>)
      requires repo.Valid() && newId != ""
      modifies repo, limiter
      ensures repo.Valid() && (repo.View() == old(repo.View()) || (r.Success? && !r.value.1))
      ensures q.Objection(config).Some? ==> r == Failure(q.Objection(config).value)
      ensures q.Objection(config).None? && old(q.input.Key() in repo.byClient) ==>
        r == Success((old(repo.messages)[old(repo.byClient)[q.input.Key()]], true))
      ensures (r.Success? && r.value.1) || (r.Failure? && !r.error.RateLimited?) ==>
        limiter.stamps == old(limiter.stamps)
      ensures r.Failure? && !r.error.RateLimited? && q.Objection(config).None? ==>
        r.error == (if Owns(q) then Closed else Refused(NotFound)) && !SendProtocol.Open(repo.View(), q.input)
      ensures (r.Success? && !r.value.1) || (r.Failure? && r.error.RateLimited?) ==>
        && SendProtocol.Open(repo.View(), q.input) && (r.Success? <==> old(Budget(q.input.Budget(), now)))
        && limiter.StampsOf(q.input.Budget()) == old(StampsAfter(q.input.Budget(), now))
      ensures forall k :: k != q.input.Budget() ==> limiter.StampsOf(k) == old(limiter.StampsOf(k))
      ensures r.Failure? && r.error.RateLimited? ==>
        r.error.retryAfter == old(WindowLimiter.RetryAfter(limiter.StampsOf(q.input.Budget()), config.window, now))
      ensures r.Success? && !r.value.1 ==>
        && r.value.0.(cursor := 0) == q.NewMessage(newId)
        && repo.View() == Put(old(repo.View()), r.value.0)
        && newId in repo.messages && repo.messages[newId] == r.value.0
    {
      var i := q.input;
      if Blank(i.account) || Blank(i.device) {
        return Failure(Unauthorized);
      }
      if !q.mobile {
        return Failure(Refused(Forbidden));
      }
      if Blank(i.conversation) || Blank(i.clientId) || Blank(i.body) {
        return Failure(Refused(Invalid));
      }
      if config.requireOperation && Blank(q.operation) {
        return Failure(OperationRequired);
      }
      if q.operation != "" {
        var allowed := {"get_desktop_status", "get_recent_intel", "get_route_summary", "get_character_summary"};
        if Trim(q.operation) !in allowed {
          return Failure(InvalidOperation);
        }
      }
      if q.size > config.maxBytes {
        return Failure(TooLarge);
      }
      var existing := repo.FindMessageByClientID(i.account, i.conversation, i.device, i.clientId);
      if existing.Some? {
        return Success((existing.value, true));
      }
      var c := repo.GetConversation(i.account, i.conversation);
      if c.Failure? {
        return Failure(Refused(c.error));
      }
      if !c.value.active {
        return Failure(Closed);
      }
      r := ChargeAndPut(q, newId, now);
    }

    /** The end of SendMessage: a new message for an open conversation of the account. */
    method ChargeAndPut(q: Request, newId: string, now: int) returns (r: Result<(Message, bool), SendError>)
      requires repo.Valid() && newId != "" && q.Objection(config).None? && q.input.Key() !in repo.byClient
      requires Owns(q)
      modifies repo, limiter
      ensures repo.conversations == old(repo.conversations)
      ensures repo.Valid() && (r.Success? <==> old(Budget(q.input.Budget(), now)))
      ensures limiter.StampsOf(q.input.Budget()) == old(StampsAfter(q.input.Budget(), now))
      ensures forall k :: k != q.input.Budget() ==> limiter.StampsOf(k) == old(limiter.StampsOf(k))
      ensures r.Failure? ==> r.error.RateLimited? && repo.View() == old(repo.View())
      ensures r.Failure? ==>
        r.error.retryAfter == old(WindowLimiter.RetryAfter(limiter.StampsOf(q.input.Budget()), config.window, now))
      ensures r.Success? ==>
        && !r.value.1 && r.value.0.(cursor := 0) == q.NewMessage(newId)
        && repo.View() == Put(old(repo.View()), r.value.0)
        && newId in repo.messages && repo.messages[newId] == r.value.0
    {
      var verdict := limiter.Allow(q.input.Budget(), config.perWindow, config.window, now);
      if verdict.Rejected? {
        return Failure(RateLimited(verdict.retryAfter));
      }
      var put := repo.PutMessage(q.NewMessage(newId));
      r := Success(put.value);
    }
  }
}
