/**
 desktop-app/internal/storage/local_ingestion.go and internal/app/local_ingestion.go: the
 two tables, the cursor adapter with its pending event, and internal/ingest/tailer.go's
 scanFile and Scan on top of them.

 A transaction may fail, and may even be applied and reported as failed. A crash at any
 point leaves the tables as the transactions so far made them.
 */
module LogIngestion {
  import opened Wrappers
  import opened LogRecords

  /** source kind, path and file identity; the identity is a hash of the path. */
  datatype Key = Key(kind: string, path: string)

  /** stableRecordID: a hash of these, taken to be injective. */
  datatype EventId = EventId(key: Key, start: nat, end: nat)

  datatype Event = Event(id: EventId, payload: string)

  /** A selected log with its bytes at the time of the scan. */
  datatype Log = Log(key: Key, enc: Encoding, bytes: seq<Byte>) {

    ghost function Ends(from: nat): seq<nat> { LogRecords.Ends(bytes, from, enc) }

    ghost function Next(from: nat): Option<nat> { NextEnd(bytes, from, enc) }

    function Text(start: nat, end: nat): seq<Byte>
      requires start <= end <= |bytes|
    {
      Line(bytes[start..end], enc)
    }
  }

  /** What a parser makes of a record: an event's payload, or nothing. */
  type Parser = seq<Byte> -> Option<string>

  // ---------------------------------------------------------------- exactly once

  /** The ID of the record with number `i` after `from`. */
  ghost function RecordId(log: Log, from: nat, i: nat): EventId
    requires i < |log.Ends(from)|
  {
    EventId(log.key, StartOf(from, log.Ends(from), i), log.Ends(from)[i])
  }

  /** What the parser makes of that record. */
  ghost function Parsed(log: Log, parse: Parser, from: nat, i: nat): Option<string>
    requires i < |log.Ends(from)|
  {
    EndsOrdered(log.bytes, from, log.enc, i);
    parse(log.Text(RecordId(log, from, i).start, RecordId(log, from, i).end))
  }

  /** The events of this log are those of its first `m` records after `from`. */
  ghost predicate Stored(events: map<EventId, string>, log: Log, parse: Parser, from: nat, m: nat)
    requires m <= |log.Ends(from)|
  {
    && (forall i {:trigger RecordId(log, from, i)} ::
          0 <= i < m && Parsed(log, parse, from, i).Some? ==> RecordId(log, from, i) in events)
    && (forall id :: id in events && id.key == log.key ==>
          exists i {:trigger RecordId(log, from, i)} ::
            0 <= i < m && id == RecordId(log, from, i) && Parsed(log, parse, from, i) == Some(events[id]))
  }

  /**
   One event for each event-producing record between the initial offset and the durable
   cursor, none for any other record, and the cursor on a record boundary.
   */
  ghost predicate ExactlyOnce(
    events: map<EventId, string>, cursors: map<Key, int>, log: Log, parse: Parser, from: nat) {
    log.key in cursors && from <= |log.bytes| && exists m: nat ::
      StoredUpTo(events, cursors[log.key], log, parse, from, m)
  }

  ghost predicate StoredUpTo(events: map<EventId, string>, cursor: int, log: Log, parse: Parser, from: nat, m: nat) {
    m <= |log.Ends(from)| && cursor == StartOf(from, log.Ends(from), m) && Stored(events, log, parse, from, m)
  }

  lemma CursorInFile(events: map<EventId, string>, cursors: map<Key, int>, log: Log, parse: Parser, from: nat)
    requires ExactlyOnce(events, cursors, log, parse, from)
    ensures from <= cursors[log.key] <= |log.bytes|
  {
    var m: nat :| StoredUpTo(events, cursors[log.key], log, parse, from, m);
    if m > 0 {
      EndsOrdered(log.bytes, from, log.enc, m - 1);
      if m > 1 {
        RecordIdsDistinct(log, from, 0, m - 1);
      }
      EndsOrdered(log.bytes, from, log.enc, 0);
    }
  }

  /** Different records have different IDs, so "in the table" means "once in the table". */
  lemma {:induction false} RecordIdsDistinct(log: Log, from: nat, i: nat, j: nat)
    requires i < j < |log.Ends(from)|
    ensures log.Ends(from)[i] < log.Ends(from)[j] && RecordId(log, from, i) != RecordId(log, from, j)
    decreases j
  {
    EndsOrdered(log.bytes, from, log.enc, j);
    if i < j - 1 {
      RecordIdsDistinct(log, from, i, j - 1);
    }
  }

  /** The insert of one transaction: a known ID is left alone. */
  function Insert(events: map<EventId, string>, batch: seq<Event>): map<EventId, string> {
    if batch == [] then events
    else
      var before := Insert(events, batch[..|batch| - 1]);
      var e := batch[|batch| - 1];
      if e.id in before then before else before[e.id := e.payload]
  }

  /** The batch a handler commits for a record. */
  function BatchOf(log: Log, parse: Parser, start: nat, end: nat): seq<Event>
    requires start <= end <= |log.bytes|
  {
    var parsed := parse(log.Text(start, end));
    if parsed.Some? then [Event(EventId(log.key, start, end), parsed.value)] else []
  }

  /** The bytes of the record are the text `t` and its line end. */
  predicate IsRecordOf(log: Log, start: nat, end: nat, t: seq<Byte>)
    requires start <= end <= |log.bytes|
  {
    IsTextOf(log.bytes[start..end], log.enc, t)
  }

  function WithEvent(events: map<EventId, string>, id: EventId, parsed: Option<string>): map<EventId, string> {
    if parsed.Some? then events[id := parsed.value] else events
  }

  /** Committing the record at the cursor keeps the tables exact. */
  lemma CommitKeepsExact(
    events: map<EventId, string>, cursors: map<Key, int>, log: Log, parse: Parser, from: nat, c: nat, end: nat)
    requires ExactlyOnce(events, cursors, log, parse, from)
    requires cursors[log.key] == c && log.Next(c) == Some(end)
    ensures ExactlyOnce(Insert(events, BatchOf(log, parse, c, end)), cursors[log.key := end], log, parse, from)
  {
    var m: nat :| StoredUpTo(events, c, log, parse, from, m);
    NextOfRest(log.bytes, from, log.enc, m);
    EndsOrdered(log.bytes, from, log.enc, m);
    assert RecordId(log, from, m) == EventId(log.key, c, end);
    var after := Insert(events, BatchOf(log, parse, c, end));
    assert Insert(events, []) == events;
    StoredOneMore(events, after, log, parse, from, m);
    assert StoredUpTo(after, end, log, parse, from, m + 1);
  }

  lemma StoredOneMore(
    events: map<EventId, string>, after: map<EventId, string>, log: Log, parse: Parser, from: nat, m: nat)
    requires m < |log.Ends(from)| && Stored(events, log, parse, from, m)
    requires var id, parsed := RecordId(log, from, m), Parsed(log, parse, from, m);
      after == if parsed.Some? && id !in events then events[id := parsed.value] else events
    ensures Stored(after, log, parse, from, m + 1)
  {
    forall i | 0 <= i < m
      ensures RecordId(log, from, i) != RecordId(log, from, m)
    {
      RecordIdsDistinct(log, from, i, m);
    }
  }

  /** Every record of the split is a text and its line end, and the parser gets that text. */
  lemma RecordsAreLines(log: Log, parse: Parser, from: nat, i: nat) returns (t: seq<Byte>)
    requires i < |log.Ends(from)|
    ensures var id := RecordId(log, from, i);
      && id.start <= id.end <= |log.bytes| && IsRecordOf(log, id.start, id.end, t)
      && Parsed(log, parse, from, i) == parse(t)
  {
    EndsOrdered(log.bytes, from, log.enc, i);
    t := RecordText(log, RecordId(log, from, i).start, RecordId(log, from, i).end);
  }

  lemma RecordText(log: Log, start: nat, end: nat) returns (t: seq<Byte>)
    requires log.Next(start) == Some(end) && start <= end <= |log.bytes|
    ensures IsRecordOf(log, start, end, t) && log.Text(start, end) == t
  {
    RecordEndsInNewline(log.bytes, start, log.enc);
    t := TextOf(log.bytes[start..end - log.enc.Width()], log.enc);
    LineIsText(t, log.enc);
  }

  /**
   What exactly-once storage holds of a record before the cursor: an event exactly if the parser
   makes one of its text, and then that one.
   */
  lemma StoredIsParsedText(
    events: map<EventId, string>, cursor: int, log: Log, parse: Parser, from: nat, m: nat, i: nat, t: seq<Byte>)
    requires StoredUpTo(events, cursor, log, parse, from, m) && i < m
    requires var id := RecordId(log, from, i);
      id.start <= id.end <= |log.bytes| && IsRecordOf(log, id.start, id.end, t)
    ensures var id := RecordId(log, from, i);
      && (id in events <==> parse(t).Some?)
      && (id in events ==> events[id] == parse(t).value)
  {
    LineIsText(t, log.enc);
    assert Parsed(log, parse, from, i) == parse(t);
    var id := RecordId(log, from, i);
    if id in events {
      var j :| 0 <= j < m && id == RecordId(log, from, j) && Parsed(log, parse, from, j) == Some(events[id]);
      if j < i {
        RecordIdsDistinct(log, from, j, i);
      } else if i < j {
        RecordIdsDistinct(log, from, i, j);
      }
    }
  }

  // ---------------------------------------------------------------- what one scan of a file delivers

  /** How many of the records ending at `ends` fit a scan that reads up to `limit`. */
  function Fitting(ends: seq<nat>, limit: int, maxRecords: nat): (n: nat)
    ensures n <= |ends| && n <= maxRecords
    decreases maxRecords
  {
    if maxRecords == 0 || ends == [] || ends[0] > limit then 0 else 1 + Fitting(ends[1..], limit, maxRecords - 1)
  }

  lemma {:induction false} FittingIs(ends: seq<nat>, limit: int, maxRecords: nat, n: nat)
    requires n <= |ends| && n <= maxRecords && forall i :: 0 <= i < n ==> ends[i] <= limit
    requires n == maxRecords || n == |ends| || ends[n] > limit
    ensures Fitting(ends, limit, maxRecords) == n
    decreases n
  {
    if n > 0 {
      FittingIs(ends[1..], limit, maxRecords - 1, n - 1);
    }
  }

  /** The cursor once `records` more records are committed. */
  function CursorAt(cursor: int, ends: seq<nat>, records: nat): int
    requires records <= |ends|
  {
    if records == 0 then cursor else ends[records - 1]
  }

  /** Where a scan starts reading: the cursor, or 0 when the cursor lies outside the file. */
  function Start(cursor: int, size: nat): nat {
    if cursor < 0 || cursor > size then 0 else cursor
  }

  // ---------------------------------------------------------------- the code

  /** The tables normalized_local_events and log_cursors. */
  class Store {
    var events: map<EventId, string>
    var cursors: map<Key, int>
    ghost var failures: nat        // the transactions that were reported as failed

    constructor ()
      ensures events == map[] && cursors == map[] && failures == 0
    {
      events, cursors, failures := map[], map[], 0;
    }

    /** One transaction over both tables. */
    method CommitNormalizedEvents(batch: seq<Event>, key: Key, offset: int) returns (ok: bool)
      modifies this
      ensures || (events == Insert(old(events), batch) && cursors == old(cursors)[key := offset])
              || (!ok && events == old(events) && cursors == old(cursors))
      ensures failures == old(failures) + if ok then 0 else 1
    {
      var staged := events;
      for i := 0 to |batch|
        invariant staged == Insert(old(events), batch[..i])
        invariant events == old(events) && cursors == old(cursors) && failures == old(failures)
      {
        assert batch[..i + 1][..i] == batch[..i];
        if batch[i].id !in staged {
          staged := staged[batch[i].id := batch[i].payload];
        }
      }
      assert batch[..|batch|] == batch;
      var applied: bool := *;
      ok := *;
      if applied {
        events, cursors := staged, cursors[key := offset];
      } else {
        ok := false;
      }
      failures := failures + if ok then 0 else 1;
    }
  }

  class LocalCursorAdapter {
    const store: Store
    const kind: string
    var pending: map<string, Event>

    constructor (store: Store, kind: string)
      ensures this.store == store && this.kind == kind && pending == map[]
    {
      this.store, this.kind, pending := store, kind, map[];
    }

    method Load(path: string) returns (offset: Option<int>)
      ensures offset == if Key(kind, path) in store.cursors then Some(store.cursors[Key(kind, path)]) else None
    {
      var key := Key(kind, path);
      offset := if key in store.cursors then Some(store.cursors[key]) else None;
    }

    /** The pending event is taken before the transaction, so a failed commit drops it. */
    method Commit(path: string, offset: int) returns (ok: bool)
      modifies this, store
      ensures pending == old(pending) - {path}
      ensures var batch := if path in old(pending) then [old(pending)[path]] else [];
        || (store.events == Insert(old(store.events), batch) &&
           store.cursors == old(store.cursors)[Key(kind, path) := offset])
        || (!ok && store.events == old(store.events) && store.cursors == old(store.cursors))
      ensures store.failures == old(store.failures) + if ok then 0 else 1
    {
      var batch := if path in pending then [pending[path]] else [];
      pending := pending - {path};
      ok := store.CommitNormalizedEvents(batch, Key(kind, path), offset);
    }

    method SetPending(path: string, event: Event)
      modifies this`pending
      ensures pending == old(pending)[path := event]
    {
      pending := pending[path := event];
    }
  }

  /** A tailer with the handler of its source kind. */
  class Tailer {
    const adapter: LocalCursorAdapter
    const parse: Parser

    constructor (adapter: LocalCursorAdapter, parse: Parser)
      ensures this.adapter == adapter && this.parse == parse
    {
      this.adapter, this.parse := adapter, parse;
    }

    /** Between records no event is pending. */
    ghost predicate Valid()
      reads this, adapter
    {
      adapter.pending == map[]
    }

    /** handleChat and handleGame: commit the record, with its event when it parses. */
    method HandleRecord(log: Log, start: nat, end: nat) returns (ok: bool)
      requires Valid() && log.key.kind == adapter.kind && start <= end <= |log.bytes|
      modifies adapter, adapter.store
      ensures Valid()
      ensures || (adapter.store.events == Insert(old(adapter.store.events), BatchOf(log, parse, start, end))
                  && adapter.store.cursors == old(adapter.store.cursors)[log.key := end])
              || (!ok && adapter.store.events == old(adapter.store.events) &&
                 adapter.store.cursors == old(adapter.store.cursors))
      ensures adapter.store.failures == old(adapter.store.failures) + if ok then 0 else 1
      // the text that is parsed is the record without its newline and a carriage return before that
      ensures ok && EventId(log.key, start, end) !in old(adapter.store.events) ==>
        forall t :: IsRecordOf(log, start, end, t) ==>
          adapter.store.events == WithEvent(old(adapter.store.events), EventId(log.key, start, end), parse(t))
    {
      forall t | IsRecordOf(log, start, end, t)
        ensures log.Text(start, end) == t
      {
        LineIsText(t, log.enc);
      }
      var parsed := parse(log.Text(start, end));
      if parsed.Some? {
        adapter.SetPending(log.key.path, Event(EventId(log.key, start, end), parsed.value));
      }
      ok := adapter.Commit(log.key.path, end);
      assert log.key == Key(adapter.kind, log.key.path);
    }

    /**
     scanFile. Whatever fails, the tables stay exact for this log and untouched for the
     others. Without a failure the records delivered are those that fit the budgets.
     */
    method ScanFile(log: Log, maxRecords: nat, maxBytes: nat) returns (records: nat, bytesRead: nat, ok: bool)
      requires Valid() && log.key.kind == adapter.kind
      modifies adapter, adapter.store
      ensures Valid()
      ensures records <= maxRecords && bytesRead <= maxBytes
      ensures adapter.store.failures == old(adapter.store.failures) + if ok then 0 else 1
      ensures KeepsExact(log, parse, old(adapter.store.events), old(adapter.store.cursors), adapter.store.events,
        adapter.store.cursors)
      ensures SameFor(old(adapter.store.events), old(adapter.store.cursors), adapter.store.events,
        adapter.store.cursors, log.key)
      ensures log.key !in old(adapter.store.cursors) ==>
                && records == bytesRead == 0 && adapter.store.events == old(adapter.store.events)
                && (adapter.store.cursors == old(adapter.store.cursors)[log.key := |log.bytes|]
                    || (!ok && adapter.store.cursors == old(adapter.store.cursors)))
      ensures ok && log.key in old(adapter.store.cursors) ==>
                var start := Start(old(adapter.store.cursors)[log.key], |log.bytes|);
                && bytesRead == (if |log.bytes| - start < maxBytes then |log.bytes| - start else maxBytes)
                && records == Fitting(log.Ends(start), start + maxBytes, maxRecords)
                && log.key in adapter.store.cursors
                && (records > 0 ==> adapter.store.cursors[log.key] == log.Ends(start)[records - 1])
                && (records == 0 ==> Start(adapter.store.cursors[log.key], |log.bytes|) == start)
                && (records == 0 && old(adapter.store.cursors)[log.key] > |log.bytes| ==>
                      adapter.store.cursors[log.key] == 0)
    {
      records, bytesRead, ok := 0, 0, true;
      var loaded := adapter.Load(log.key.path);
      assert log.key == Key(adapter.kind, log.key.path);
      if loaded.None? {
        ok := adapter.Commit(log.key.path, |log.bytes|);
        return;
      }
      forall from: nat | ExactlyOnce(adapter.store.events, adapter.store.cursors, log, parse, from)
        ensures 0 <= loaded.value <= |log.bytes|
      {
        CursorInFile(adapter.store.events, adapter.store.cursors, log, parse, from);
      }
      var offset := loaded.value;
      if offset < 0 {
        offset := 0;
      }
      if offset > |log.bytes| {
        offset := 0;
        ok := adapter.Commit(log.key.path, 0);
        if !ok {
          return;
        }
      }
      records, bytesRead, ok := DeliverChunk(log, offset, maxRecords, maxBytes);
    }

    /**
     Scan: one pass over the selected logs, which have different paths, sharing the two
     budgets. `delivered` is what the pass took off the record budget.
     */
    method Scan(logs: seq<Log>, maxRecords: nat, maxBytes: nat) returns (delivered: nat, ok: bool)
      requires Valid() && forall i :: 0 <= i < |logs| ==> logs[i].key.kind == adapter.kind
      requires forall i, j :: 0 <= i < j < |logs| ==> logs[i].key != logs[j].key
      modifies adapter, adapter.store
      ensures Valid()
      ensures AllExact(logs, parse, old(adapter.store.events), old(adapter.store.cursors), adapter.store.events,
        adapter.store.cursors)
      ensures adapter.store.failures == old(adapter.store.failures) + if ok then 0 else 1
      ensures ok ==> delivered == Delivered(logs, old(adapter.store.cursors), maxRecords, maxBytes)
    {
      var remainingRecords, remainingBytes := maxRecords, maxBytes;
      ghost var e0, c0 := adapter.store.events, adapter.store.cursors;
      ok := true;
      var i := 0;
      assert logs[0..] == logs;
      while i < |logs|
        invariant adapter.store.failures == old(adapter.store.failures)
        invariant 0 <= i <= |logs| && Valid() && ok && 0 <= remainingRecords <= maxRecords && 0 <= remainingBytes
        invariant AllExact(logs, parse, e0, c0, adapter.store.events, adapter.store.cursors)
        invariant CursorsFrom(logs, i, c0, adapter.store.cursors)
        invariant Delivered(logs, c0, maxRecords, maxBytes) ==
                    maxRecords - remainingRecords + Delivered(logs[i..], c0, remainingRecords, remainingBytes)
      {
        if remainingRecords == 0 || remainingBytes == 0 {
          break;
        }
        var n, bytesRead, done := ScanOne(logs, i, remainingRecords, remainingBytes, e0, c0);
        remainingRecords, remainingBytes := remainingRecords - n, remainingBytes - bytesRead;
        if !done {
          return maxRecords - remainingRecords, false;
        }
        i := i + 1;
      }
      delivered := maxRecords - remainingRecords;
    }

    method ScanOne(
      logs: seq<Log>, i: nat, maxRecords: nat, maxBytes: nat, ghost e0: map<EventId, string>, ghost c0: map<Key, int>)
      returns (records: nat, bytesRead: nat, ok: bool)
      requires Valid() && i < |logs| && logs[i].key.kind == adapter.kind
      requires forall a, b :: 0 <= a < b < |logs| ==> logs[a].key != logs[b].key
      requires AllExact(logs, parse, e0, c0, adapter.store.events, adapter.store.cursors)
      requires CursorsFrom(logs, i, c0, adapter.store.cursors)
      modifies adapter, adapter.store
      ensures Valid() && records <= maxRecords && bytesRead <= maxBytes
      ensures adapter.store.failures == old(adapter.store.failures) + if ok then 0 else 1
      ensures AllExact(logs, parse, e0, c0, adapter.store.events, adapter.store.cursors)
      ensures CursorsFrom(logs, i + 1, c0, adapter.store.cursors)
      ensures ok ==>
                && records == DeliveredFrom(logs[i], c0, maxRecords, maxBytes)
                && bytesRead == if Available(logs[i], c0) < maxBytes then Available(logs[i], c0) else maxBytes
    {
      ghost var e1, c1 := adapter.store.events, adapter.store.cursors;
      records, bytesRead, ok := ScanFile(logs[i], maxRecords, maxBytes);
      ScanKeepsAllExact(logs, i, parse, e0, c0, e1, c1, adapter.store.events, adapter.store.cursors);
      assert CursorOf(c1, logs[i].key) == CursorOf(c0, logs[i].key);
    }

    /** From the read of one chunk to the end of the record loop. */
    method DeliverChunk(log: Log, offset: nat, maxRecords: nat, maxBytes: nat)
      returns (records: nat, bytesRead: nat, ok: bool)
      requires Valid() && log.key.kind == adapter.kind && offset <= |log.bytes|
      requires log.key in adapter.store.cursors
      modifies adapter, adapter.store
      ensures Valid() && log.key in adapter.store.cursors
      ensures records <= maxRecords
      ensures adapter.store.failures == old(adapter.store.failures) + if ok then 0 else 1
      ensures bytesRead == if |log.bytes| - offset < maxBytes then |log.bytes| - offset else maxBytes
      ensures Progress(log, parse, old(adapter.store.events), old(adapter.store.cursors), adapter.store.events,
        adapter.store.cursors, offset)
      ensures ok ==>
                && records == Fitting(log.Ends(offset), offset + maxBytes, maxRecords)
                && adapter.store.cursors[log.key] ==
                   CursorAt(old(adapter.store.cursors)[log.key], log.Ends(offset), records)
    {
      var n := if |log.bytes| - offset < maxBytes then |log.bytes| - offset else maxBytes;
      var buf := log.bytes[offset..offset + n];
      bytesRead := n;
      records, ok := DeliverRecords(log, offset, buf, maxRecords);
      if ok {
        StopsInChunk(log, offset, n, maxBytes, records);
        FittingIs(log.Ends(offset), offset + maxBytes, maxRecords, records);
      }
    }

    /** The record loop over the chunk `buf` read at `offset`. */
    method DeliverRecords(log: Log, offset: nat, buf: seq<Byte>, maxRecords: nat) returns (records: nat, ok: bool)
      requires Valid() && log.key.kind == adapter.kind
      requires offset + |buf| <= |log.bytes| && buf == log.bytes[offset..offset + |buf|]
      requires log.key in adapter.store.cursors
      modifies adapter, adapter.store
      ensures Valid() && log.key in adapter.store.cursors
      ensures records <= maxRecords
      ensures adapter.store.failures == old(adapter.store.failures) + if ok then 0 else 1
      ensures Progress(log, parse, old(adapter.store.events), old(adapter.store.cursors), adapter.store.events,
        adapter.store.cursors, offset)
      ensures ok ==> records <= |log.Ends(offset)| && StartOf(offset, log.Ends(offset), records) <= offset + |buf|
      ensures ok && records < maxRecords && records < |log.Ends(offset)| ==> log.Ends(offset)[records] > offset + |buf|
      ensures ok ==>
        adapter.store.cursors[log.key] == CursorAt(old(adapter.store.cursors)[log.key], log.Ends(offset), records)
    {
      records, ok := 0, true;
      var pos := 0;
      ghost var ends := log.Ends(offset);
      ghost var e0, c0 := adapter.store.events, adapter.store.cursors;
      while records < maxRecords
        invariant Valid() && log.key in adapter.store.cursors && ok
        invariant adapter.store.failures == old(adapter.store.failures)
        invariant 0 <= pos <= |buf| && records <= maxRecords && records <= |ends|
        invariant StartOf(offset, ends, records) == offset + pos
        invariant adapter.store.cursors[log.key] == CursorAt(c0[log.key], ends, records)
        invariant Progress(log, parse, e0, c0, adapter.store.events, adapter.store.cursors, offset)
      {
        var end := NewlineEnd(buf, pos, log.enc, offset);
        NextInChunk(log, offset, |buf|, pos, end, records);
        if end < 0 {
          break;
        }
        ok := HandleNext(log, offset, offset + pos, offset + end, e0, c0);
        if !ok {
          return;
        }
        records := records + 1;
        pos := end;
      }
    }

    method HandleNext(
      log: Log, ghost offset: nat, start: nat, end: nat, ghost e0: map<EventId, string>, ghost c0: map<Key, int>)
      returns (ok: bool)
      requires Valid() && log.key.kind == adapter.kind && start <= end <= |log.bytes| && log.Next(start) == Some(end)
      requires log.key in c0 && log.key in adapter.store.cursors
      requires Progress(log, parse, e0, c0, adapter.store.events, adapter.store.cursors, offset)
      requires c0[log.key] == offset ==> adapter.store.cursors[log.key] == start
      modifies adapter, adapter.store
      ensures Valid() && log.key in adapter.store.cursors && (ok ==> adapter.store.cursors[log.key] == end)
      ensures adapter.store.failures == old(adapter.store.failures) + if ok then 0 else 1
      ensures Progress(log, parse, e0, c0, adapter.store.events, adapter.store.cursors, offset)
    {
      ghost var e1, c1 := adapter.store.events, adapter.store.cursors;
      ok := HandleRecord(log, start, end);
      ProgressStep(log, parse, e0, c0, e1, c1, adapter.store.events, adapter.store.cursors, offset, start, end);
    }
  }

  ghost function CursorOf(cursors: map<Key, int>, key: Key): Option<int> {
    if key in cursors then Some(cursors[key]) else None
  }

  /** The bytes of a log past its cursor; a log without a cursor is not read. */
  ghost function Available(log: Log, cursors: map<Key, int>): nat {
    if log.key in cursors then |log.bytes| - Start(cursors[log.key], |log.bytes|) else 0
  }

  ghost function DeliveredFrom(log: Log, cursors: map<Key, int>, maxRecords: nat, maxBytes: int): (n: nat)
    ensures n <= maxRecords
  {
    if log.key !in cursors then 0
    else
      var start := Start(cursors[log.key], |log.bytes|);
      Fitting(log.Ends(start), start + maxBytes, maxRecords)
  }

  /** The records one failure-free pass delivers in all. */
  ghost function Delivered(logs: seq<Log>, cursors: map<Key, int>, maxRecords: int, maxBytes: int): nat
    decreases |logs|
  {
    if logs == [] || maxRecords <= 0 || maxBytes <= 0 then 0
    else
      var log := logs[0];
      var n := DeliveredFrom(log, cursors, maxRecords, maxBytes);
      var read := if Available(log, cursors) < maxBytes then Available(log, cursors) else maxBytes;
      n + Delivered(logs[1..], cursors, maxRecords - n, maxBytes - read)
  }

  /** What a log's exactness depends on is its own rows only. */
  lemma OtherLogKeepsExact(
    log: Log, parse: Parser, events: map<EventId, string>, cursors: map<Key, int>,
    events': map<EventId, string>, cursors': map<Key, int>, key: Key)
    requires key != log.key && SameFor(events, cursors, events', cursors', key)
    ensures KeepsExact(log, parse, events, cursors, events', cursors')
    ensures CursorOf(cursors, log.key) == CursorOf(cursors', log.key)
  {
    assert log.key in cursors <==> log.key in cursors - {key};
    assert log.key in cursors' <==> log.key in cursors' - {key};
    assert log.key in cursors ==> cursors[log.key] == (cursors - {key})[log.key] == (cursors' - {key})[log.key];
    forall from: nat | ExactlyOnce(events, cursors, log, parse, from)
      ensures ExactlyOnce(events', cursors', log, parse, from)
    {
      var m: nat :| StoredUpTo(events, cursors[log.key], log, parse, from, m);
      forall id: EventId | id.key == log.key
        ensures id in events <==> id in events'
        ensures id in events ==> events'[id] == events[id]
      {
        assert id in events <==> id in OtherEvents(events, key);
        assert id in events' <==> id in OtherEvents(events', key);
      }
      assert Stored(events', log, parse, from, m);
      assert StoredUpTo(events', cursors'[log.key], log, parse, from, m);
    }
  }

  ghost predicate AllExact(
    logs: seq<Log>, parse: Parser, e: map<EventId, string>, c: map<Key, int>, e': map<EventId, string>,
    c': map<Key, int>)
  {
    forall k {:trigger logs[k]} :: 0 <= k < |logs| ==> KeepsExact(logs[k], parse, e, c, e', c')
  }

  ghost predicate CursorsFrom(logs: seq<Log>, i: nat, c: map<Key, int>, c': map<Key, int>) {
    forall k :: i <= k < |logs| ==> CursorOf(c', logs[k].key) == CursorOf(c, logs[k].key)
  }

  lemma ScanKeepsAllExact(
    logs: seq<Log>, i: nat, parse: Parser, e0: map<EventId, string>, c0: map<Key, int>, e1: map<EventId, string>,
    c1: map<Key, int>,
    e2: map<EventId, string>, c2: map<Key, int>)
    requires i < |logs| && forall a, b :: 0 <= a < b < |logs| ==> logs[a].key != logs[b].key
    requires AllExact(logs, parse, e0, c0, e1, c1) && CursorsFrom(logs, i, c0, c1)
    requires KeepsExact(logs[i], parse, e1, c1, e2, c2) && SameFor(e1, c1, e2, c2, logs[i].key)
    ensures AllExact(logs, parse, e0, c0, e2, c2) && CursorsFrom(logs, i + 1, c0, c2)
  {
    forall k | 0 <= k < |logs|
      ensures KeepsExact(logs[k], parse, e0, c0, e2, c2)
      ensures k != i ==> CursorOf(c2, logs[k].key) == CursorOf(c1, logs[k].key)
    {
      if k != i {
        OtherLogKeepsExact(logs[k], parse, e1, c1, e2, c2, logs[i].key);
      }
    }
  }

  /** What newlineEnd says about a chunk, told in terms of the split of the file. */
  lemma NextInChunk(log: Log, offset: nat, n: nat, pos: nat, end: int, records: nat)
    requires offset + n <= |log.bytes| && pos <= n
    requires records <= |log.Ends(offset)| && StartOf(offset, log.Ends(offset), records) == offset + pos
    requires var b := log.bytes[offset..offset + n];
      if end < 0 then forall k :: pos <= k ==> !NewlineIn(b, k, log.enc, offset)
      else pos + log.enc.Width() <= end <= n && NewlineIn(b, end - log.enc.Width(), log.enc, offset)
           && forall k :: pos <= k < end - log.enc.Width() ==> !NewlineIn(b, k, log.enc, offset)
    ensures var ends := log.Ends(offset);
      if end < 0 then records == |ends| || ends[records] > offset + n
      else records < |ends| && ends[records] == offset + end && log.Next(offset + pos) == Some(offset + end)
  {
    ChunkFindsNextEnd(log.bytes, offset, n, pos, log.enc, end);
    NextOfRest(log.bytes, offset, log.enc, records);
  }

  /** Records that stop at the end of the chunk stop at the byte budget: the file has no more. */
  lemma StopsInChunk(log: Log, offset: nat, n: nat, maxBytes: nat, records: nat)
    requires offset <= |log.bytes| && n == if |log.bytes| - offset < maxBytes then |log.bytes| - offset else maxBytes
    requires records <= |log.Ends(offset)| && StartOf(offset, log.Ends(offset), records) <= offset + n
    ensures forall i :: 0 <= i < records ==> log.Ends(offset)[i] <= offset + maxBytes
    ensures records < |log.Ends(offset)| && log.Ends(offset)[records] > offset + n ==>
      log.Ends(offset)[records] > offset + maxBytes
  {
    forall i | 0 <= i < records
      ensures log.Ends(offset)[i] <= offset + maxBytes
    {
      if i < records - 1 {
        RecordIdsDistinct(log, offset, i, records - 1);
      }
    }
    if records < |log.Ends(offset)| {
      EndsOrdered(log.bytes, offset, log.enc, records);
    }
  }

  /** Other logs are untouched, and a log scanned from its cursor stays exact. */
  ghost predicate Progress(
    log: Log, parse: Parser, events: map<EventId, string>, cursors: map<Key, int>,
    events': map<EventId, string>, cursors': map<Key, int>, offset: nat)
    requires log.key in cursors
  {
    && SameFor(events, cursors, events', cursors', log.key)
    && (cursors[log.key] == offset ==> KeepsExact(log, parse, events, cursors, events', cursors'))
  }

  ghost predicate KeepsExact(
    log: Log, parse: Parser, events: map<EventId, string>, cursors: map<Key, int>,
    events': map<EventId, string>, cursors': map<Key, int>)
  {
    forall from: nat :: ExactlyOnce(events, cursors, log, parse, from) ==>
      ExactlyOnce(events', cursors', log, parse, from)
  }

  lemma ProgressStep(
    log: Log, parse: Parser, e0: map<EventId, string>, c0: map<Key, int>, e1: map<EventId, string>, c1: map<Key, int>,
    e2: map<EventId, string>, c2: map<Key, int>, offset: nat, start: nat, end: nat)
    requires log.key in c0 && log.key in c1 && Progress(log, parse, e0, c0, e1, c1, offset)
    requires start <= end <= |log.bytes| && log.Next(start) == Some(end)
    requires c0[log.key] == offset ==> c1[log.key] == start
    requires || (e2 == Insert(e1, BatchOf(log, parse, start, end)) && c2 == c1[log.key := end])
             || (e2 == e1 && c2 == c1)
    ensures Progress(log, parse, e0, c0, e2, c2, offset)
  {
    assert Insert(e1, []) == e1;
    if c0[log.key] == offset && !(e2 == e1 && c2 == c1) {
      forall from: nat | ExactlyOnce(e0, c0, log, parse, from)
        ensures ExactlyOnce(e2, c2, log, parse, from)
      {
        CommitKeepsExact(e1, c1, log, parse, from, start, end);
      }
    }
  }

  /** Nothing of any other log changes. */
  ghost predicate SameFor(
    events: map<EventId, string>, cursors: map<Key, int>, events': map<EventId, string>, cursors': map<Key, int>,
    key: Key)
  {
    cursors' - {key} == cursors - {key} && OtherEvents(events', key) == OtherEvents(events, key)
  }

  ghost function OtherEvents(events: map<EventId, string>, key: Key): map<EventId, string> {
    map id | id in events && id.key != key :: events[id]
  }

  // ---------------------------------------------------------------- whole runs

  /** A run seen from one log: bytes are appended, scans commit records one transaction at a time. */
  datatype Move =
    | Append(more: seq<Byte>)
    | FirstScan                 // no cursor yet: it is put at the end of the file
    | CommitNext                // the transaction of the next complete record, if there is one

  datatype Disk = Disk(log: Log, cursor: Option<int>, events: map<EventId, string>)

  /** A crash or a failed commit is a run that goes on without the transaction. */
  ghost function Do(d: Disk, parse: Parser, m: Move): Disk {
    match m
    case Append(more) => d.(log := d.log.(bytes := d.log.bytes + more))
    case FirstScan => if d.cursor.None? then d.(cursor := Some(|d.log.bytes|)) else d
    case CommitNext =>
      if d.cursor.None? || d.cursor.value < 0 || d.log.Next(d.cursor.value).None? then d
      else
        var end := d.log.Next(d.cursor.value).value;
        d.(cursor := Some(end), events := Insert(d.events, BatchOf(d.log, parse, d.cursor.value, end)))
  }

  ghost function Run(d: Disk, parse: Parser, moves: seq<Move>): Disk
    decreases |moves|
  {
    if moves == [] then d else Run(Do(d, parse, moves[0]), parse, moves[1..])
  }

  ghost predicate DiskExact(d: Disk, parse: Parser, from: nat) {
    d.cursor.Some? && ExactlyOnce(d.events, map[d.log.key := d.cursor.value], d.log, parse, from)
  }

  lemma AppendKeepsExact(
    events: map<EventId, string>, cursors: map<Key, int>, log: Log, parse: Parser, from: nat, more: seq<Byte>)
    requires ExactlyOnce(events, cursors, log, parse, from)
    ensures ExactlyOnce(events, cursors, log.(bytes := log.bytes + more), parse, from)
  {
    var longer := log.(bytes := log.bytes + more);
    EndsGrow(log.bytes, more, from, log.enc);
    var m: nat :| StoredUpTo(events, cursors[log.key], log, parse, from, m);
    forall i: nat | i < m
      ensures RecordId(longer, from, i) == RecordId(log, from, i)
      ensures Parsed(longer, parse, from, i) == Parsed(log, parse, from, i)
    {
      RecordStays(log, longer, parse, from, more, i);
    }
    assert Stored(events, longer, parse, from, m);
    assert StoredUpTo(events, cursors[log.key], longer, parse, from, m);
  }

  lemma RecordStays(log: Log, longer: Log, parse: Parser, from: nat, more: seq<Byte>, i: nat)
    requires longer == log.(bytes := log.bytes + more) && log.Ends(from) <= longer.Ends(from) && i < |log.Ends(from)|
    ensures RecordId(longer, from, i) == RecordId(log, from, i)
    ensures Parsed(longer, parse, from, i) == Parsed(log, parse, from, i)
  {
    EndsOrdered(log.bytes, from, log.enc, i);
    var id := RecordId(log, from, i);
    assert longer.bytes[id.start..id.end] == log.bytes[id.start..id.end];
  }

  lemma MoveKeepsExact(d: Disk, parse: Parser, from: nat, m: Move)
    requires DiskExact(d, parse, from)
    ensures DiskExact(Do(d, parse, m), parse, from)
  {
    var cursors := map[d.log.key := d.cursor.value];
    match m
    case Append(more) =>
      AppendKeepsExact(d.events, cursors, d.log, parse, from, more);
    case FirstScan =>
    case CommitNext =>
      CursorInFile(d.events, cursors, d.log, parse, from);
      if d.log.Next(d.cursor.value).Some? {
        var end := d.log.Next(d.cursor.value).value;
        CommitKeepsExact(d.events, cursors, d.log, parse, from, d.cursor.value, end);
        assert cursors[d.log.key := end] == map[d.log.key := end];
      }
  }

  /**
   Exactly once: whatever is appended, scanned, failed and crashed, the stored events are
   those of the records from where the first scan put the cursor up to the cursor.
   */
  lemma {:induction false} EventsStoredExactlyOnce(d: Disk, parse: Parser, moves: seq<Move>)
    requires d.cursor.None? && forall id :: id in d.events ==> id.key != d.log.key
    ensures var r := Run(d, parse, moves);
      (r.cursor.None? && r.events == d.events) || exists from: nat :: DiskExact(r, parse, from)
    decreases |moves|
  {
    if moves != [] {
      var next := Do(d, parse, moves[0]);
      if moves[0].FirstScan? {
        var from := |d.log.bytes|;
        assert StoredUpTo(next.events, from, next.log, parse, from, 0);
        RunKeepsExact(next, parse, from, moves[1..]);
      } else {
        EventsStoredExactlyOnce(next, parse, moves[1..]);
      }
    }
  }

  lemma {:induction false} RunKeepsExact(d: Disk, parse: Parser, from: nat, moves: seq<Move>)
    requires DiskExact(d, parse, from)
    ensures DiskExact(Run(d, parse, moves), parse, from)
    decreases |moves|
  {
    if moves != [] {
      MoveKeepsExact(d, parse, from, moves[0]);
      RunKeepsExact(Do(d, parse, moves[0]), parse, from, moves[1..]);
    }
  }

  /** All complete records after `from` are stored, and the cursor is behind the last. */
  ghost predicate CaughtUp(d: Disk, parse: Parser, from: nat) {
    d.cursor.Some? && StoredUpTo(d.events, d.cursor.value, d.log, parse, from, |d.log.Ends(from)|)
  }

  /** Whatever is appended, committing record after record catches up with it. */
  lemma CommitsCatchUp(d: Disk, parse: Parser, from: nat, more: seq<Byte>) returns (moves: seq<Move>)
    requires DiskExact(d, parse, from)
    ensures var r := Run(d, parse, [Append(more)] + moves);
      r.log == d.log.(bytes := d.log.bytes + more) && CaughtUp(r, parse, from)
    ensures forall m :: m in moves ==> m == CommitNext
  {
    var a := Do(d, parse, Append(more));
    MoveKeepsExact(d, parse, from, Append(more));
    var m: nat :| StoredUpTo(a.events, a.cursor.value, a.log, parse, from, m);
    moves := CommitRest(a, parse, from, m);
    assert ([Append(more)] + moves)[1..] == moves;
  }

  lemma CommitRest(d: Disk, parse: Parser, from: nat, m: nat) returns (moves: seq<Move>)
    requires DiskExact(d, parse, from) && StoredUpTo(d.events, d.cursor.value, d.log, parse, from, m)
    ensures Run(d, parse, moves).log == d.log && CaughtUp(Run(d, parse, moves), parse, from)
    ensures forall move :: move in moves ==> move == CommitNext
    decreases |d.log.Ends(from)| - m
  {
    moves := [];
    if m < |d.log.Ends(from)| {
      CommitOne(d, parse, from, m);
      var rest := CommitRest(Do(d, parse, CommitNext), parse, from, m + 1);
      moves := [CommitNext] + rest;
      assert moves[1..] == rest;
    }
  }

  lemma CommitOne(d: Disk, parse: Parser, from: nat, m: nat)
    requires DiskExact(d, parse, from) && StoredUpTo(d.events, d.cursor.value, d.log, parse, from, m)
    requires m < |d.log.Ends(from)|
    ensures var r := Do(d, parse, CommitNext);
      && r.log == d.log && DiskExact(r, parse, from)
      && StoredUpTo(r.events, r.cursor.value, r.log, parse, from, m + 1)
  {
    NextOfRest(d.log.bytes, from, d.log.enc, m);
    var r := Do(d, parse, CommitNext);
    MoveKeepsExact(d, parse, from, CommitNext);
    var k: nat :| StoredUpTo(r.events, r.cursor.value, r.log, parse, from, k);
    EndsDiffer(d.log, from, m + 1, k);
  }

  /** No two record boundaries are at the same place. */
  lemma EndsDiffer(log: Log, from: nat, a: nat, b: nat)
    requires a <= |log.Ends(from)| && b <= |log.Ends(from)|
    requires StartOf(from, log.Ends(from), a) == StartOf(from, log.Ends(from), b)
    ensures a == b
  {
    if a != b {
      var x, y := if a < b then a else b, if a < b then b else a;
      EndsOrdered(log.bytes, from, log.enc, y - 1);
      StartsGrow(log.bytes, log.enc, from, y - 1);
      if x > 0 {
        RecordIdsDistinct(log, from, x - 1, y - 1);
      }
    }
  }

  /** What happens to one file whose handler always commits. */
  datatype Visit = Grow(more: seq<Byte>) | ScanWith(maxRecords: nat, maxBytes: nat)

  ghost function FileAfter(bytes: seq<Byte>, visits: seq<Visit>): seq<Byte>
    decreases |visits|
  {
    if visits == [] then bytes
    else FileAfter(if visits[0].Grow? then bytes + visits[0].more else bytes, visits[1..])
  }

  /** The ends of the records delivered, in order, starting from the cursor. */
  ghost function Delivery(bytes: seq<Byte>, enc: Encoding, cursor: nat, visits: seq<Visit>): seq<nat>
    decreases |visits|
  {
    if visits == [] then []
    else match visits[0]
      case Grow(more) => Delivery(bytes + more, enc, cursor, visits[1..])
      case ScanWith(r, b) =>
        Yield(bytes, enc, cursor, r, b) + Delivery(bytes, enc, CursorAfter(bytes, enc, cursor, r, b), visits[1..])
  }

  /** What one scan delivers, and where it leaves the cursor. */
  ghost function Yield(bytes: seq<Byte>, enc: Encoding, cursor: nat, maxRecords: nat, maxBytes: nat): seq<nat> {
    var ends := Ends(bytes, cursor, enc);
    ends[..Fitting(ends, cursor + maxBytes, maxRecords)]
  }

  ghost function CursorAfter(bytes: seq<Byte>, enc: Encoding, cursor: nat, maxRecords: nat, maxBytes: nat): nat {
    var ends := Ends(bytes, cursor, enc);
    StartOf(cursor, ends, Fitting(ends, cursor + maxBytes, maxRecords))
  }

  lemma {:induction false} RecordsSurvive(bytes: seq<Byte>, enc: Encoding, cursor: nat, visits: seq<Visit>)
    ensures Ends(bytes, cursor, enc) <= Ends(FileAfter(bytes, visits), cursor, enc)
    decreases |visits|
  {
    if visits != [] {
      var next := if visits[0].Grow? then bytes + visits[0].more else bytes;
      if visits[0].Grow? {
        EndsGrow(bytes, visits[0].more, cursor, enc);
      }
      RecordsSurvive(next, enc, cursor, visits[1..]);
      assert FileAfter(bytes, visits) == FileAfter(next, visits[1..]);
    }
  }

  /** The tailer refines the newline split: whatever the budgets, its records are a prefix of it. */
  lemma {:induction false} DeliveryIsSplitPrefix(bytes: seq<Byte>, enc: Encoding, cursor: nat, visits: seq<Visit>)
    ensures Delivery(bytes, enc, cursor, visits) <= Ends(FileAfter(bytes, visits), cursor, enc)
    decreases |visits|
  {
    if visits != [] {
      if visits[0].Grow? {
        DeliveryIsSplitPrefix(bytes + visits[0].more, enc, cursor, visits[1..]);
      } else {
        var v, file := visits[0], FileAfter(bytes, visits[1..]);
        DeliveryIsSplitPrefix(bytes, enc, CursorAfter(bytes, enc, cursor, v.maxRecords, v.maxBytes), visits[1..]);
        RecordsSurvive(bytes, enc, cursor, visits[1..]);
        YieldIsPrefix(bytes, file, enc, cursor, v.maxRecords, v.maxBytes);
      }
    }
  }

  /** What a scan delivers comes first in the split of the file to be, and then that from its cursor. */
  lemma YieldIsPrefix(bytes: seq<Byte>, file: seq<Byte>, enc: Encoding, cursor: nat, maxRecords: nat, maxBytes: nat)
    requires Ends(bytes, cursor, enc) <= Ends(file, cursor, enc)
    ensures Ends(file, cursor, enc) == Yield(bytes, enc, cursor, maxRecords, maxBytes) +
      Ends(file, CursorAfter(bytes, enc, cursor, maxRecords, maxBytes), enc)
  {
    var ends := Ends(bytes, cursor, enc);
    SplitAtCursor(bytes, file, enc, cursor, Fitting(ends, cursor + maxBytes, maxRecords));
  }

  lemma SplitAtCursor(bytes: seq<Byte>, longer: seq<Byte>, enc: Encoding, cursor: nat, n: nat)
    requires n <= |Ends(bytes, cursor, enc)| && Ends(bytes, cursor, enc) <= Ends(longer, cursor, enc)
    ensures Ends(longer, cursor, enc)
         == Ends(bytes, cursor, enc)[..n] + Ends(longer, StartOf(cursor, Ends(bytes, cursor, enc), n), enc)
  {
    EndsFrom(longer, cursor, enc, n);
    assert StartOf(cursor, Ends(longer, cursor, enc), n) == StartOf(cursor, Ends(bytes, cursor, enc), n);
    assert Ends(longer, cursor, enc)[..n] == Ends(bytes, cursor, enc)[..n];
  }

  // ---------------------------------------------------------------- one file that no longer grows

  ghost function Scans(n: nat, maxRecords: nat, maxBytes: nat): seq<Visit> {
    if n == 0 then [] else [ScanWith(maxRecords, maxBytes)] + Scans(n - 1, maxRecords, maxBytes)
  }

  /** Record `i` from the cursor on is no longer than the byte budget. */
  ghost predicate Fits(bytes: seq<Byte>, enc: Encoding, cursor: nat, maxBytes: nat, i: nat)
    requires i < |Ends(bytes, cursor, enc)|
  {
    Ends(bytes, cursor, enc)[i] <= StartOf(cursor, Ends(bytes, cursor, enc), i) + maxBytes
  }

  ghost predicate AllFit(bytes: seq<Byte>, enc: Encoding, cursor: nat, maxBytes: nat) {
    forall i: nat {:trigger Fits(bytes, enc, cursor, maxBytes, i)} ::
      i < |Ends(bytes, cursor, enc)| ==> Fits(bytes, enc, cursor, maxBytes, i)
  }

  /** The records after the first `m` are the same from there. */
  lemma FitsFrom(bytes: seq<Byte>, enc: Encoding, cursor: nat, maxBytes: nat, m: nat, i: nat)
    requires m <= i < |Ends(bytes, cursor, enc)|
    ensures var next := StartOf(cursor, Ends(bytes, cursor, enc), m);
      && Ends(bytes, next, enc) == Ends(bytes, cursor, enc)[m..]
      && (Fits(bytes, enc, next, maxBytes, i - m) <==> Fits(bytes, enc, cursor, maxBytes, i))
  {
    EndsFrom(bytes, cursor, enc, m);
  }

  /** The scans deliver all there is. */
  ghost predicate DeliverAll(bytes: seq<Byte>, enc: Encoding, cursor: nat, scans: seq<Visit>) {
    Delivery(bytes, enc, cursor, scans) == Ends(bytes, cursor, enc)
  }

  /** A scan for each record that is left is enough. */
  lemma {:induction false} ScansDeliver(
    bytes: seq<Byte>, enc: Encoding, cursor: nat, n: nat, maxRecords: nat, maxBytes: nat)
    requires 0 < maxRecords && AllFit(bytes, enc, cursor, maxBytes) && |Ends(bytes, cursor, enc)| <= n
    ensures DeliverAll(bytes, enc, cursor, Scans(n, maxRecords, maxBytes))
    decreases n
  {
    if n > 0 {
      var next := FirstScanDelivers(bytes, enc, cursor, maxRecords, maxBytes, Scans(n - 1, maxRecords, maxBytes));
      ScansDeliver(bytes, enc, next, n - 1, maxRecords, maxBytes);
    }
  }

  lemma FirstScanDelivers(
    bytes: seq<Byte>, enc: Encoding, cursor: nat, maxRecords: nat, maxBytes: nat, rest: seq<Visit>)
    returns (next: nat)
    requires 0 < maxRecords && AllFit(bytes, enc, cursor, maxBytes)
    ensures AllFit(bytes, enc, next, maxBytes)
    ensures |Ends(bytes, next, enc)| < |Ends(bytes, cursor, enc)| || Ends(bytes, next, enc) == []
    ensures DeliverAll(bytes, enc, next, rest) ==>
      DeliverAll(bytes, enc, cursor, [ScanWith(maxRecords, maxBytes)] + rest)
  {
    var m := FirstFits(bytes, enc, cursor, maxRecords, maxBytes);
    next := CursorAfter(bytes, enc, cursor, maxRecords, maxBytes);
    AllFitFrom(bytes, enc, cursor, maxBytes, m);
    ScanThen(bytes, enc, cursor, maxRecords, maxBytes, rest);
  }

  lemma ScanThen(bytes: seq<Byte>, enc: Encoding, cursor: nat, maxRecords: nat, maxBytes: nat, rest: seq<Visit>)
    ensures Delivery(bytes, enc, cursor, [ScanWith(maxRecords, maxBytes)] + rest) ==
      Yield(bytes, enc, cursor, maxRecords, maxBytes) +
      Delivery(bytes, enc, CursorAfter(bytes, enc, cursor, maxRecords, maxBytes), rest)
  {
    assert ([ScanWith(maxRecords, maxBytes)] + rest)[1..] == rest;
  }

  lemma FirstFits(bytes: seq<Byte>, enc: Encoding, cursor: nat, maxRecords: nat, maxBytes: nat) returns (m: nat)
    requires 0 < maxRecords && AllFit(bytes, enc, cursor, maxBytes)
    ensures m == Fitting(Ends(bytes, cursor, enc), cursor + maxBytes, maxRecords) <= |Ends(bytes, cursor, enc)|
    ensures Ends(bytes, cursor, enc) != [] ==> 0 < m
    ensures var ends := Ends(bytes, cursor, enc); ends == ends[..m] + ends[m..]
  {
    m := Fitting(Ends(bytes, cursor, enc), cursor + maxBytes, maxRecords);
    if Ends(bytes, cursor, enc) != [] {
      assert Fits(bytes, enc, cursor, maxBytes, 0);
    }
  }

  lemma AllFitFrom(bytes: seq<Byte>, enc: Encoding, cursor: nat, maxBytes: nat, m: nat)
    requires m <= |Ends(bytes, cursor, enc)| && AllFit(bytes, enc, cursor, maxBytes)
    ensures var next := StartOf(cursor, Ends(bytes, cursor, enc), m);
      Ends(bytes, next, enc) == Ends(bytes, cursor, enc)[m..] && AllFit(bytes, enc, next, maxBytes)
  {
    var next := StartOf(cursor, Ends(bytes, cursor, enc), m);
    EndsFrom(bytes, cursor, enc, m);
    forall i: nat | i < |Ends(bytes, next, enc)|
      ensures Fits(bytes, enc, next, maxBytes, i)
    {
      FitsFrom(bytes, enc, cursor, maxBytes, m, i + m);
    }
  }

  lemma {:induction false} FittingStops(ends: seq<nat>, limit: int, maxRecords: nat, i: nat)
    requires i < |ends| && ends[i] > limit
    ensures Fitting(ends, limit, maxRecords) <= i
    decreases i
  {
    if i > 0 && maxRecords > 0 {
      FittingStops(ends[1..], limit, maxRecords - 1, i - 1);
    }
  }

  lemma {:induction false} StartsGrow(bytes: seq<Byte>, enc: Encoding, cursor: nat, i: nat)
    requires i < |Ends(bytes, cursor, enc)|
    ensures cursor <= StartOf(cursor, Ends(bytes, cursor, enc), i)
    decreases i
  {
    if i > 0 {
      StartsGrow(bytes, enc, cursor, i - 1);
      EndsOrdered(bytes, cursor, enc, i - 1);
    }
  }

  /** A record longer than every scan's budget is never passed, though the file may grow. */
  lemma {:induction false} LongRecordStops(
    bytes: seq<Byte>, enc: Encoding, cursor: nat, visits: seq<Visit>, maxBytes: nat, i: nat)
    requires i < |Ends(bytes, cursor, enc)| && !Fits(bytes, enc, cursor, maxBytes, i)
    requires forall v :: v in visits && v.ScanWith? ==> v.maxBytes <= maxBytes
    ensures |Delivery(bytes, enc, cursor, visits)| <= i
    decreases |visits|
  {
    if visits != [] {
      var v := visits[0];
      if v.Grow? {
        EndsGrow(bytes, v.more, cursor, enc);
        LongRecordStops(bytes + v.more, enc, cursor, visits[1..], maxBytes, i);
      } else {
        var m := StopsBefore(bytes, enc, cursor, v.maxRecords, v.maxBytes, maxBytes, i);
        var next := CursorAfter(bytes, enc, cursor, v.maxRecords, v.maxBytes);
        LongRecordStops(bytes, enc, next, visits[1..], maxBytes, i - m);
      }
    }
  }

  /** One scan ends before the record, which is as long as ever from where it ends. */
  lemma StopsBefore(
    bytes: seq<Byte>, enc: Encoding, cursor: nat, maxRecords: nat, budget: nat, maxBytes: nat, i: nat) returns (m: nat)
    requires i < |Ends(bytes, cursor, enc)| && !Fits(bytes, enc, cursor, maxBytes, i) && budget <= maxBytes
    ensures |Yield(bytes, enc, cursor, maxRecords, budget)| == m <= i
    ensures var next := CursorAfter(bytes, enc, cursor, maxRecords, budget);
      i - m < |Ends(bytes, next, enc)| && !Fits(bytes, enc, next, maxBytes, i - m)
  {
    var ends := Ends(bytes, cursor, enc);
    m := Fitting(ends, cursor + budget, maxRecords);
    StartsGrow(bytes, enc, cursor, i);
    FittingStops(ends, cursor + budget, maxRecords, i);
    FitsFrom(bytes, enc, cursor, maxBytes, m, i);
  }

  /** After `n` scans. */
  ghost predicate DeliveredIn(
    bytes: seq<Byte>, enc: Encoding, cursor: nat, n: nat, maxRecords: nat, maxBytes: nat) {
    DeliverAll(bytes, enc, cursor, Scans(n, maxRecords, maxBytes))
  }

  /** A file that no longer grows is delivered to its last complete record exactly if each record fits the budget. */
  lemma ScansDeliverAllExactly(bytes: seq<Byte>, enc: Encoding, cursor: nat, maxRecords: nat, maxBytes: nat)
    requires 0 < maxRecords
    ensures AllFit(bytes, enc, cursor, maxBytes) <==>
      exists n: nat :: DeliveredIn(bytes, enc, cursor, n, maxRecords, maxBytes)
  {
    if AllFit(bytes, enc, cursor, maxBytes) {
      var n := |Ends(bytes, cursor, enc)|;
      ScansDeliver(bytes, enc, cursor, n, maxRecords, maxBytes);
      assert DeliveredIn(bytes, enc, cursor, n, maxRecords, maxBytes);
    } else {
      var i: nat :| i < |Ends(bytes, cursor, enc)| && !Fits(bytes, enc, cursor, maxBytes, i);
      forall n: nat
        ensures !DeliveredIn(bytes, enc, cursor, n, maxRecords, maxBytes)
      {
        ScansOnly(n, maxRecords, maxBytes);
        LongRecordStops(bytes, enc, cursor, Scans(n, maxRecords, maxBytes), maxBytes, i);
        assert |Delivery(bytes, enc, cursor, Scans(n, maxRecords, maxBytes))| <= i;
      }
    }
  }

  lemma {:induction false} ScansOnly(n: nat, maxRecords: nat, maxBytes: nat)
    ensures forall v :: v in Scans(n, maxRecords, maxBytes) ==> v == ScanWith(maxRecords, maxBytes)
  {
    if n > 0 {
      ScansOnly(n - 1, maxRecords, maxBytes);
    }
  }

  // ---------------------------------------------------------------- progress

  /** The length of the record at a log's cursor, when it is complete. */
  ghost function NextLength(log: Log, cursors: map<Key, int>): Option<nat> {
    if log.key !in cursors then None
    else
      var start := Start(cursors[log.key], |log.bytes|);
      var e := log.Next(start);
      if e.None? then None else Some(e.value - start)
  }

  /** The bytes waiting in the logs before number `i`. */
  ghost function Before(logs: seq<Log>, cursors: map<Key, int>, i: nat): nat
    requires i <= |logs|
  {
    if i == 0 then 0 else Available(logs[0], cursors) + Before(logs[1..], cursors, i - 1)
  }

  ghost predicate Reached(logs: seq<Log>, cursors: map<Key, int>, maxBytes: int, i: nat)
    requires i < |logs|
  {
    NextLength(logs[i], cursors).Some? && Before(logs, cursors, i) + NextLength(logs[i], cursors).value <= maxBytes
  }

  /**
   A failure-free pass makes progress exactly when some log has a complete record that fits
   what the bytes waiting in the logs before it leave of the budget. That every record fits
   the budget is not enough when there are several logs.
   */
  lemma {:induction false} PassDelivers(logs: seq<Log>, cursors: map<Key, int>, maxRecords: int, maxBytes: int)
    requires 0 < maxRecords
    ensures Delivered(logs, cursors, maxRecords, maxBytes) > 0 <==>
      exists i: nat :: i < |logs| && Reached(logs, cursors, maxBytes, i)
    decreases |logs|
  {
    if logs != [] {
      var rest := logs[1..];
      var left := maxBytes - Available(logs[0], cursors);
      PassDelivers(rest, cursors, maxRecords, left);
      LaterReached(logs, cursors, maxBytes);
      FirstReached(logs, cursors, maxRecords, maxBytes);
      FirstDelivers(logs, cursors, maxRecords, maxBytes);
    }
  }

  lemma FirstDelivers(logs: seq<Log>, cursors: map<Key, int>, maxRecords: int, maxBytes: int)
    requires 0 < maxRecords && logs != []
    ensures Delivered(logs, cursors, maxRecords, maxBytes) > 0 <==>
      || (0 < maxBytes && DeliveredFrom(logs[0], cursors, maxRecords, maxBytes) > 0)
      || Delivered(logs[1..], cursors, maxRecords, maxBytes - Available(logs[0], cursors)) > 0
  {
  }

  lemma LaterReached(logs: seq<Log>, cursors: map<Key, int>, maxBytes: int)
    requires logs != []
    ensures var rest, left := logs[1..], maxBytes - Available(logs[0], cursors);
      (exists i: nat :: i < |logs| && Reached(logs, cursors, maxBytes, i)) <==>
      Reached(logs, cursors, maxBytes, 0) || exists i: nat :: i < |rest| && Reached(rest, cursors, left, i)
  {
    var rest, left := logs[1..], maxBytes - Available(logs[0], cursors);
    forall i: nat | 0 < i < |logs|
      ensures Reached(logs, cursors, maxBytes, i) <==> Reached(rest, cursors, left, i - 1)
    {
      assert logs[i] == rest[i - 1];
    }
    if i: nat :| i < |rest| && Reached(rest, cursors, left, i) {
      assert Reached(logs, cursors, maxBytes, i + 1);
    }
  }

  lemma FirstReached(logs: seq<Log>, cursors: map<Key, int>, maxRecords: nat, maxBytes: int)
    requires 0 < maxRecords && logs != []
    ensures Reached(logs, cursors, maxBytes, 0) <==> DeliveredFrom(logs[0], cursors, maxRecords, maxBytes) > 0
    ensures Reached(logs, cursors, maxBytes, 0) ==> maxBytes > 0
  {
  }

  /** Two logs whose records all fit a budget of two bytes, and a pass that delivers nothing. */
  lemma FittingRecordsMayStarve()
    ensures var first := Log(Key("eve_game", "a.txt"), Utf8, [97]);
      var second := Log(Key("eve_game", "b.txt"), Utf8, [98, LF]);
      var cursors := map[first.key := 0, second.key := 0];
      && NextLength(second, cursors) == Some(2)
      && NextLength(first.(bytes := first.bytes + [LF]), cursors) == Some(2)
      && Delivered([first, second], cursors, 1, 2) == 0
  {
    var first := Log(Key("eve_game", "a.txt"), Utf8, [97]);
    var second := Log(Key("eve_game", "b.txt"), Utf8, [98, LF]);
    var cursors := map[first.key := 0, second.key := 0];
    var logs := [first, second];
    assert logs[1..] == [second];
    assert NextEnd(second.bytes, 1, Utf8) == Some(2) && NextEnd(first.bytes + [LF], 1, Utf8) == Some(2);
    assert NextEnd(first.bytes, 1, Utf8) == None;
    assert Before(logs, cursors, 1) == Available(first, cursors) == 1;
    assert !Reached(logs, cursors, 2, 0) && !Reached(logs, cursors, 2, 1);
    PassDelivers(logs, cursors, 1, 2);
  }
}
