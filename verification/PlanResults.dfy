/**
 What ResultsAfter reads from the results table, and what the desktop client makes of it:
 latestRevisionResults and the polling loop of desktop-app/frontend/src.
 */
module PlanResults {
  import opened PlanJobs

  // ---------------------------------------------------------------- revisions

  /** The rows of one commit in rank order. */
  function Batch(e: Entry): seq<ResultRow> {
    seq(|e.results|, k requires 0 <= k < |e.results| => ResultRow(e.job, e.revision, k + 1, e.results[k]))
  }

  /** Entry `i` is the commit that wrote revision `rev` of job `id`. */
  ghost predicate WroteRevision(log: seq<Entry>, i: int, id: string, rev: nat) {
    0 <= i < |log| && log[i].job == id && log[i].results != [] && log[i].revision == rev
  }

  lemma {:induction false} RevisionsGrow(log: seq<Entry>, i: nat, j: nat, id: string)
    requires i <= j <= |log|
    ensures Revisions(log[..i], id) <= Revisions(log[..j], id)
    decreases j
  {
    if i < j {
      assert log[..j][..j - 1] == log[..j - 1];
      RevisionsGrow(log, i, j - 1, id);
    }
  }

  lemma RevisionAt(s: System, i: nat)
    requires Inv(s) && i < |s.log|
    ensures var e := s.log[i];
      e.revision == Revisions(s.log[..i], e.job) + if e.results != [] then 1 else 0
  {
    assert EntryInv(s, i);
    assert s.log[..i + 1][..i] == s.log[..i];
  }

  lemma OneWriter(s: System, i: int, j: int, id: string, rev: nat)
    requires Inv(s) && WroteRevision(s.log, i, id, rev) && WroteRevision(s.log, j, id, rev)
    ensures i == j
  {
    RevisionAt(s, i);
    RevisionAt(s, j);
    assert EntryInv(s, i) && EntryInv(s, j);
    if i < j {
      RevisionsGrow(s.log, i + 1, j, id);
    } else if j < i {
      RevisionsGrow(s.log, j + 1, i, id);
    }
  }

  lemma {:induction false} FindWriter(s: System, n: nat, id: string, rev: nat) returns (i: nat)
    requires Inv(s) && n <= |s.log| && 1 <= rev <= Revisions(s.log[..n], id)
    ensures WroteRevision(s.log, i, id, rev)
  {
    assert s.log[..n][..n - 1] == s.log[..n - 1];
    if rev <= Revisions(s.log[..n - 1], id) {
      i := FindWriter(s, n - 1, id, rev);
    } else {
      RevisionAt(s, n - 1);
      i := n - 1;
    }
  }

  ghost predicate HasRows(rows: set<ResultRow>, id: string, rev: nat) {
    exists row :: row in rows && row.job == id && row.revision == rev
  }

  /** The rows stored for a revision are those of the commit that wrote it, ranked 1..n. */
  lemma RowsOfRevision(s: System, i: nat, row: ResultRow)
    requires Inv(s) && i < |s.log| && s.log[i].results != []
    ensures row in s.db.rows && row.job == s.log[i].job && row.revision == s.log[i].revision <==> row in Batch(s.log[i])
  {
    var e := s.log[i];
    if row in Batch(e) {
      assert e.Wrote(row);
    }
    if row in s.db.rows && row.job == e.job && row.revision == e.revision {
      var j :| 0 <= j < |s.log| && s.log[j].Wrote(row);
      assert WroteRevision(s.log, i, e.job, e.revision) && WroteRevision(s.log, j, e.job, e.revision);
      OneWriter(s, i, j, e.job, e.revision);
      assert row == Batch(e)[row.rank - 1];
    }
  }

  /** In every run the stored revisions of a job are exactly 1..result_revision, each one commit's. */
  lemma RevisionsAreExact(steps: seq<Step>, id: string, rev: nat)
    requires id in Run(INIT, steps).db.jobs
    ensures var s := Run(INIT, steps);
      && (HasRows(s.db.rows, id, rev) <==> 1 <= rev <= s.db.jobs[id].revision)
      && (1 <= rev <= s.db.jobs[id].revision ==> exists i :: WroteRevision(s.log, i, id, rev))
      && (forall i, j :: WroteRevision(s.log, i, id, rev) && WroteRevision(s.log, j, id, rev) ==> i == j)
  {
    RunKeepsInv(INIT, steps);
    var s := Run(INIT, steps);
    StoredRevisions(s, id, rev);
    forall i, j | WroteRevision(s.log, i, id, rev) && WroteRevision(s.log, j, id, rev)
      ensures i == j
    {
      OneWriter(s, i, j, id, rev);
    }
  }

  lemma StoredRevisions(s: System, id: string, rev: nat)
    requires Inv(s) && id in s.db.jobs
    ensures HasRows(s.db.rows, id, rev) <==> 1 <= rev <= s.db.jobs[id].revision
    ensures 1 <= rev <= s.db.jobs[id].revision ==> exists i :: WroteRevision(s.log, i, id, rev)
  {
    assert JobInv(s, id);
    assert s.log[..|s.log|] == s.log;
    if 1 <= rev <= s.db.jobs[id].revision {
      var i := FindWriter(s, |s.log|, id, rev);
      RowsOfRevision(s, i, Batch(s.log[i])[0]);
    }
    if HasRows(s.db.rows, id, rev) {
      var row :| row in s.db.rows && row.job == id && row.revision == rev;
      var i :| 0 <= i < |s.log| && s.log[i].Wrote(row);
      RevisionAt(s, i);
      assert EntryInv(s, i);
      RevisionsGrow(s.log, i + 1, |s.log|, id);
    }
  }

  /** A commit under a valid lease can only be refused for its own keys or by the unique index. */
  lemma OnlyOwnKeysClash(s: System, id: string, results: seq<Plan>)
    requires Inv(s) && id in s.db.jobs
    ensures Insertable(s.db.rows, id, s.db.jobs[id].revision + 1, results) <==>
      && (forall k :: 0 <= k < |results| ==> 1 <= |results[k].key| <= 512)
      && (forall j, k :: 0 <= j < k < |results| ==> results[j].key != results[k].key)
  {
    var rev := s.db.jobs[id].revision + 1;
    StoredRevisions(s, id, rev);
    assert forall row :: row in s.db.rows && row.job == id && row.revision == rev ==> HasRows(s.db.rows, id, rev);
  }

  // ---------------------------------------------------------------- ResultsAfter

  /** A row of the newest revision after `after`. */
  ghost predicate Newest(rows: set<ResultRow>, id: string, after: int, row: ResultRow) {
    && row in rows && row.job == id && row.revision > after
    && forall other :: other in rows && other.job == id ==> other.revision <= row.revision
  }

  /** The answer of the query: those rows, each once, ordered by rank. */
  ghost predicate IsPage(rows: set<ResultRow>, id: string, after: int, page: seq<ResultRow>) {
    && (forall row :: Newest(rows, id, after, row) <==> row in page)
    && (forall i, j :: 0 <= i < j < |page| ==> page[i] != page[j] && page[i].rank <= page[j].rank)
  }

  /** An answer is empty, or the whole of the job's latest commit in rank order. */
  lemma PageIsOneCommit(s: System, id: string, after: nat, page: seq<ResultRow>)
    requires Inv(s) && id in s.db.jobs && IsPage(s.db.rows, id, after, page)
    ensures page == [] <==> s.db.jobs[id].revision <= after
    ensures page != [] ==> exists i :: WroteRevision(s.log, i, id, s.db.jobs[id].revision) && page == Batch(s.log[i])
  {
    var rev := s.db.jobs[id].revision;
    StoredRevisions(s, id, rev);
    forall row | row in s.db.rows && row.job == id
      ensures row.revision <= rev
    {
      StoredRevisions(s, id, row.revision);
    }
    if rev > after {
      var i :| WroteRevision(s.log, i, id, rev);
      var batch := Batch(s.log[i]);
      forall row
        ensures row in page <==> row in batch
      {
        assert Newest(s.db.rows, id, after, row) <==> row in page;
        RowsOfRevision(s, i, row);
        if row in batch {
          assert Newest(s.db.rows, id, after, row);
        }
        if row in page {
          RowsOfRevision(s, i, batch[0]);
        }
      }
      assert batch[0] in page;
      SortedIsBatch(page, batch);
    }
    PageRows(s.db.rows, id, after, page);
  }

  lemma PageRows(rows: set<ResultRow>, id: string, after: int, page: seq<ResultRow>)
    requires IsPage(rows, id, after, page)
    ensures page != [] ==> page[0] in rows && page[0].job == id && page[0].revision > after
  {
    if page != [] {
      assert Newest(rows, id, after, page[0]) <==> page[0] in page;
    }
  }

  /** Rows ranked 1..n have only one order by rank. */
  lemma {:induction false} SortedIsBatch(page: seq<ResultRow>, batch: seq<ResultRow>)
    requires forall row :: row in page <==> row in batch
    requires forall i, j :: 0 <= i < j < |page| ==> page[i] != page[j] && page[i].rank <= page[j].rank
    requires forall k :: 0 <= k < |batch| ==> batch[k].rank == k + 1
    ensures page == batch
    decreases |batch|
  {
    BothEmpty(page, batch);
    BothEmpty(batch, page);
    if batch != [] {
      var n := |page| - 1;
      var p, b, last := page[..n], batch[..|batch| - 1], batch[|batch| - 1];
      HighestIsLast(page, batch);
      forall row
        ensures row in p <==> row in b
      {
        assert row in page <==> row in batch;
        assert row in p ==> row != last;
        assert row in b ==> row.rank != last.rank;
      }
      SortedIsBatch(p, b);
      assert page == p + [last] && batch == b + [last];
    }
  }

  lemma BothEmpty(a: seq<ResultRow>, b: seq<ResultRow>)
    requires forall row :: row in a ==> row in b
    ensures a != [] ==> b != []
  {
    if a != [] {
      assert a[0] in b;
    }
  }

  lemma HighestIsLast(page: seq<ResultRow>, batch: seq<ResultRow>)
    requires page != [] && batch != [] && forall row :: row in page <==> row in batch
    requires forall i, j :: 0 <= i < j < |page| ==> page[i].rank <= page[j].rank
    requires forall k :: 0 <= k < |batch| ==> batch[k].rank == k + 1
    ensures page[|page| - 1] == batch[|batch| - 1]
  {
    assert page[|page| - 1] in batch;
    assert batch[|batch| - 1] in page;
  }

  // ---------------------------------------------------------------- the client

  function MaxRevision(items: seq<ResultRow>): nat {
    if items == [] then 0
    else
      var rest := MaxRevision(items[1..]);
      if items[0].revision > rest then items[0].revision else rest
  }

  function OfRevision(items: seq<ResultRow>, rev: nat): seq<ResultRow> {
    if items == [] then []
    else (if items[0].revision == rev then [items[0]] else []) + OfRevision(items[1..], rev)
  }

  /** The stable sort of the client: an item goes behind those of a rank no greater. */
  function InsertByRank(sorted: seq<ResultRow>, item: ResultRow): seq<ResultRow> {
    if sorted == [] || sorted[|sorted| - 1].rank <= item.rank then sorted + [item]
    else InsertByRank(sorted[..|sorted| - 1], item) + [sorted[|sorted| - 1]]
  }

  function SortByRank(items: seq<ResultRow>): seq<ResultRow> {
    if items == [] then [] else InsertByRank(SortByRank(items[..|items| - 1]), items[|items| - 1])
  }

  function PlansOf(items: seq<ResultRow>): seq<Plan> {
    seq(|items|, k requires 0 <= k < |items| => items[k].plan)
  }

  function LatestRevisionResults(items: seq<ResultRow>): (nat, seq<Plan>) {
    var revision := MaxRevision(items);
    (revision, PlansOf(SortByRank(OfRevision(items, revision))))
  }

  lemma {:induction false} OneRevision(items: seq<ResultRow>, rev: nat)
    requires forall k :: 0 <= k < |items| ==> items[k].revision == rev
    ensures MaxRevision(items) == if items == [] then 0 else rev
    ensures OfRevision(items, rev) == items
  {
    if items != [] {
      OneRevision(items[1..], rev);
    }
  }

  lemma {:induction false} SortedStays(items: seq<ResultRow>)
    requires forall i, j :: 0 <= i < j < |items| ==> items[i].rank <= items[j].rank
    ensures SortByRank(items) == items
  {
    if items != [] {
      SortedStays(items[..|items| - 1]);
    }
  }

  /** On an answer of the server the client finds its revision and its plans in rank order. */
  lemma {:induction false} MaxIsHighest(items: seq<ResultRow>)
    ensures forall item :: item in items ==> item.revision <= MaxRevision(items)
    ensures items != [] ==> exists item: ResultRow :: item in items && item.revision == MaxRevision(items)
  {
    if items != [] {
      MaxIsHighest(items[1..]);
      if MaxRevision(items) == items[0].revision {
        assert items[0] in items;
      } else {
        var item :| item in items[1..] && item.revision == MaxRevision(items[1..]);
        assert item in items;
      }
    }
  }

  lemma {:induction false} OfRevisionIsFilter(items: seq<ResultRow>, rev: nat, row: ResultRow)
    ensures multiset(OfRevision(items, rev))[row] == if row.revision == rev then multiset(items)[row] else 0
  {
    if items != [] {
      OfRevisionIsFilter(items[1..], rev, row);
      assert items == [items[0]] + items[1..];
    }
  }

  /** `kept` are the items of the revision in rank order, each as often as it was there. */
  ghost predicate NewestRanked(items: seq<ResultRow>, rev: nat, kept: seq<ResultRow>) {
    && Ranked(kept)
    && forall row: ResultRow :: multiset(kept)[row] == if row.revision == rev then multiset(items)[row] else 0
  }

  /** From any list of items the client takes the plans of the newest revision in it, all of them, by rank. */
  lemma LatestIsNewest(items: seq<ResultRow>)
    ensures var (rev, plans) := LatestRevisionResults(items);
      && (forall item: ResultRow :: item in items ==> item.revision <= rev)
      && (items != [] ==> exists item: ResultRow :: item in items && item.revision == rev)
      && exists kept :: NewestRanked(items, rev, kept) && plans == PlansOf(kept)
  {
    var rev := MaxRevision(items);
    MaxIsHighest(items);
    var kept := SortByRank(OfRevision(items, rev));
    SortPermutes(OfRevision(items, rev));
    forall row: ResultRow
      ensures multiset(kept)[row] == if row.revision == rev then multiset(items)[row] else 0
    {
      OfRevisionIsFilter(items, rev, row);
    }
    assert NewestRanked(items, rev, kept) && LatestRevisionResults(items).1 == PlansOf(kept);
  }

  /** Whatever comes as an answer, the viewer does not go back. */
  lemma LookNeverGoesBack(v: Viewer, page: seq<ResultRow>)
    ensures v.after <= Look(v, page).after
  {
  }

  lemma ClientReadsBatch(e: Entry)
    requires e.results != []
    ensures LatestRevisionResults(Batch(e)) == (e.revision, e.results)
  {
    var batch := Batch(e);
    OneRevision(batch, e.revision);
    SortedStays(batch);
    assert PlansOf(batch) == e.results;
  }

  predicate Ranked(items: seq<ResultRow>) {
    forall i, j :: 0 <= i < j < |items| ==> items[i].rank <= items[j].rank
  }

  /** The sort loses and invents nothing, whatever the order of the items. */
  lemma {:induction false} SortPermutes(items: seq<ResultRow>)
    ensures Ranked(SortByRank(items)) && multiset(SortByRank(items)) == multiset(items)
  {
    if items != [] {
      var n := |items| - 1;
      SortPermutes(items[..n]);
      InsertPermutes(SortByRank(items[..n]), items[n]);
      InsertRanks(SortByRank(items[..n]), items[n]);
      assert items == items[..n] + [items[n]];
    }
  }

  lemma {:induction false} InsertPermutes(sorted: seq<ResultRow>, item: ResultRow)
    ensures multiset(InsertByRank(sorted, item)) == multiset(sorted) + multiset{item}
  {
    if sorted != [] && sorted[|sorted| - 1].rank > item.rank {
      var n := |sorted| - 1;
      InsertPermutes(sorted[..n], item);
      assert sorted == sorted[..n] + [sorted[n]];
    }
  }

  lemma {:induction false} InsertRanks(sorted: seq<ResultRow>, item: ResultRow)
    requires Ranked(sorted)
    ensures Ranked(InsertByRank(sorted, item))
    ensures forall x :: x in InsertByRank(sorted, item) ==> x == item || x in sorted
  {
    if sorted != [] && sorted[|sorted| - 1].rank > item.rank {
      var n := |sorted| - 1;
      InsertRanks(sorted[..n], item);
      var r := InsertByRank(sorted[..n], item);
      forall k | 0 <= k < |r|
        ensures r[k].rank <= sorted[n].rank
      {
        assert r[k] == item || r[k] in sorted[..n];
      }
    }
  }

  /** The polling loop: what the workspace shows for a job, and the revision it has reached. */
  datatype Viewer = Viewer(job: string, after: nat, shown: seq<Plan>)

  datatype Act = Work(step: Step) | Poll(page: seq<ResultRow>)

  ghost predicate Answered(s: System, v: Viewer, act: Act) {
    act.Poll? ==> IsPage(s.db.rows, v.job, v.after, act.page)
  }

  ghost function Look(v: Viewer, page: seq<ResultRow>): Viewer {
    if page == [] then v
    else
      var (revision, plans) := LatestRevisionResults(page);
      v.(after := if revision > v.after then revision else v.after, shown := plans)
  }

  ghost function Watched(s: System, v: Viewer, acts: seq<Act>): (System, Viewer)
    decreases |acts|
  {
    if acts == [] then (s, v)
    else
      match acts[0]
      case Work(step) => Watched(Do(s, step), v, acts[1..])
      case Poll(page) => Watched(s, Look(v, page), acts[1..])
  }

  /** The server answered every poll of the run. */
  ghost predicate AllAnswered(s: System, v: Viewer, acts: seq<Act>)
    decreases |acts|
  {
    acts == [] ||
    (&& Answered(s, v, acts[0])
     && match acts[0]
        case Work(step) => AllAnswered(Do(s, step), v, acts[1..])
        case Poll(page) => AllAnswered(s, Look(v, page), acts[1..]))
  }

  /** Nothing yet, or exactly the results of the commit that wrote revision `after`. */
  ghost predicate ShowsOneCommit(s: System, v: Viewer) {
    if v.after == 0 then v.shown == []
    else exists i :: WroteRevision(s.log, i, v.job, v.after) && v.shown == s.log[i].results
  }

  /** A poll brings the viewer to the job's current revision, with the whole of its results. */
  lemma PollCatchesUp(s: System, v: Viewer, page: seq<ResultRow>)
    requires Inv(s) && ShowsOneCommit(s, v) && IsPage(s.db.rows, v.job, v.after, page)
    ensures ShowsOneCommit(s, Look(v, page))
    ensures page != [] ==> Look(v, page).after > v.after
    ensures v.job in s.db.jobs ==> Look(v, page).after == s.db.jobs[v.job].revision
  {
    if v.job in s.db.jobs {
      PageIsOneCommit(s, v.job, v.after, page);
      if page != [] {
        var i :| WroteRevision(s.log, i, v.job, s.db.jobs[v.job].revision) && page == Batch(s.log[i]);
        ClientReadsBatch(s.log[i]);
      } else if v.after > 0 {
        var i :| WroteRevision(s.log, i, v.job, v.after) && v.shown == s.log[i].results;
        RowsOfRevision(s, i, Batch(s.log[i])[0]);
        StoredRevisions(s, v.job, v.after);
      }
    } else {
      PageRows(s.db.rows, v.job, v.after, page);
      RowsHaveJobs(s);
    }
  }

  lemma RowsHaveJobs(s: System)
    requires Inv(s)
    ensures forall row :: row in s.db.rows ==> row.job in s.db.jobs
  {
    forall row | row in s.db.rows
      ensures row.job in s.db.jobs
    {
      var i :| 0 <= i < |s.log| && s.log[i].Wrote(row);
      assert EntryInv(s, i);
    }
  }

  lemma WorkKeepsShown(s: System, v: Viewer, step: Step)
    requires ShowsOneCommit(s, v)
    ensures ShowsOneCommit(Do(s, step), v)
  {
    if v.after > 0 {
      var i :| WroteRevision(s.log, i, v.job, v.after) && v.shown == s.log[i].results;
      assert WroteRevision(Do(s, step).log, i, v.job, v.after);
    }
  }

  /**
   However polls and workers interleave, the viewer shows nothing or one complete commit,
   and its revision never goes back.
   */
  lemma {:induction false} ViewerSeesCommits(s: System, v: Viewer, acts: seq<Act>)
    requires Inv(s) && ShowsOneCommit(s, v) && AllAnswered(s, v, acts)
    ensures var (s', v') := Watched(s, v, acts); ShowsOneCommit(s', v') && Inv(s') && v'.after >= v.after
    decreases |acts|
  {
    if acts != [] {
      match acts[0]
      case Work(step) =>
        StepKeepsInv(s, step);
        WorkKeepsShown(s, v, step);
        ViewerSeesCommits(Do(s, step), v, acts[1..]);
      case Poll(page) =>
        PollCatchesUp(s, v, page);
        ViewerSeesCommits(s, Look(v, page), acts[1..]);
    }
  }
}
