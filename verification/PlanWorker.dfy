/**
 The statements of relay-server/internal/marketplan/postgres.go on tables held in fields,
 and the worker cycle of worker.go on top of them. Each call is shown to be a run of the
 steps of module PlanJobs, so what is proved there about runs covers these methods.
 */
module PlanWorker {
  import opened Wrappers
  import opened PlanJobs
  import opened PlanResults
  import opened PlanAnswers

  datatype Claimed = Claimed(id: string, job: Job, token: nat)

  datatype WriteError = LeaseLost | Rejected

  lemma {:induction false} RunAppend(s: System, a: seq<Step>, b: seq<Step>)
    ensures Run(s, a + b) == Run(Run(s, a), b)
    decreases |a|
  {
    if a == [] {
      assert a + b == b;
    } else {
      assert (a + b)[1..] == a[1..] + b;
      RunAppend(Do(s, a[0]), a[1..], b);
    }
  }

  lemma RunOneMore(s: System, steps: seq<Step>, step: Step)
    ensures Run(s, steps + [step]) == Do(Run(s, steps), step)
  {
    RunAppend(s, steps, [step]);
    OneStep(Run(s, steps), step);
  }

  /** What the engine made of a claimed job, and the time read after that. */
  datatype Made = Made(outcome: Outcome, at: int)

  /** The claims still to be answered are held, those answered have landed. */
  ghost predicate AllLanded(claims: seq<Claimed>, made: seq<Made>, s: System) {
    && |made| <= |claims|
    && (forall i, j :: 0 <= i < j < |claims| ==> claims[i].id != claims[j].id)
    && (forall i :: 0 <= i < |claims| ==> claims[i].job.HeldBy(claims[i].token) && Live(claims[i].job.state))
    && (forall i :: 0 <= i < |made| ==> Landed(claims[i].job, s, claims[i].id, made[i].outcome, made[i].at))
    && (forall i :: |made| <= i < |claims| ==> claims[i].id in s.db.jobs && s.db.jobs[claims[i].id] == claims[i].job)
  }

  lemma LandedOneMore(claims: seq<Claimed>, made: seq<Made>, s: System, m: Made)
    requires Inv(s) && AllLanded(claims, made, s) && |made| < |claims|
    ensures var c := claims[|made|];
      AllLanded(claims, made + [m], Do(s, AnswerOf(c.id, c.token, m.outcome, m.at)))
  {
    var n := |made|;
    var c := claims[n];
    var s' := Do(s, AnswerOf(c.id, c.token, m.outcome, m.at));
    AnswerLands(s, c.id, c.token, m.outcome, m.at);
    forall i | 0 <= i < |claims| && i != n
      ensures claims[i].id in s'.db.jobs && s'.db.jobs[claims[i].id] == s.db.jobs[claims[i].id]
      ensures i < n ==> Landed(claims[i].job, s', claims[i].id, made[i].outcome, made[i].at)
    {
      AnswerTouchesOwn(s, c.id, c.token, m.outcome, m.at, claims[i].id);
      if i < n {
        LandedStays(claims[i].job, s, s', claims[i].id, made[i].outcome, made[i].at);
      }
    }
  }

  lemma ClaimsAreHeld(
    before: map<string, Job>, s: System, claims: seq<Claimed>, now: int, lease: int, locked: set<string>)
    requires Leased(before, s.db.jobs, claims, now, lease, locked)
    ensures AllLanded(claims, [], s)
    ensures forall i :: 0 <= i < |claims| ==> claims[i].job.lease.value.until == now + lease
  {
  }

  class PlanTables {
    var jobs: map<string, Job>
    var rows: set<ResultRow>
    var next: nat
    ghost var drawn: set<nat>
    ghost var log: seq<Entry>

    ghost function View(): System
      reads this
    {
      System(Db(jobs, rows, drawn), log)
    }

    ghost predicate Valid()
      reads this
    {
      Inv(View()) && forall t :: t in drawn ==> t < next
    }

    constructor ()
      ensures Valid() && View() == INIT
    {
      jobs, rows, next := map[], {}, 0;
      drawn, log := {}, [];
    }

    /** The update that supersedes the live jobs of a workspace, row by row. */
    method Supersede(w: Workspace) returns (changed: map<string, Job>)
      ensures changed == Superseded(jobs, w)
    {
      changed := jobs;
      var ids := jobs.Keys;
      while ids != {}
        invariant ids <= jobs.Keys == changed.Keys
        invariant forall id :: id in jobs ==> changed[id] == if id in ids then jobs[id] else jobs[id].Supersede(w)
        decreases |ids|
      {
        var id := AnyOf(ids);
        if jobs[id].workspace == w && Live(jobs[id].state) {
          changed := changed[id := jobs[id].(state := Cancelled, lease := None)];
        }
        ids := ids - {id};
      }
    }

    /** The lookup the unique index makes for a row about to be written. */
    method IndexRefuses(table: map<string, Job>, id: string, job: Job) returns (clash: bool)
      ensures clash <==> Clash(table, id, job)
    {
      clash := false;
      if !Live(job.state) {
        return;
      }
      var ids := table.Keys;
      while ids != {}
        invariant ids <= table.Keys
        invariant clash ==> Clash(table, id, job)
        invariant !clash ==> forall k :: k in table && k !in ids && k != id ==> !Rivals(table[k], job)
        decreases |ids|
      {
        var k := AnyOf(ids);
        if k != id && Rivals(table[k], job) {
          clash := true;
        }
        ids := ids - {k};
      }
    }

    /** Create: it fails only if the ID is taken, and then changes nothing. */
    method Create(id: string, w: Workspace, hash: string) returns (r: Result<Job, WriteError>)
      requires Valid()
      modifies this`jobs
      ensures Valid() && View() == Do(old(View()), CreateJob(id, w, hash))
      ensures r.Success? <==> id !in old(jobs)
      ensures r.Success? ==> id in jobs && r.value == jobs[id] == NewJob(w, hash)
    {
      StepKeepsInv(View(), CreateJob(id, w, hash));
      CreateNeverClashes(View().db, id, w, hash);
      var changed := Supersede(w);
      var clash := IndexRefuses(changed, id, NewJob(w, hash));
      if id in jobs || clash {
        return Failure(Rejected);
      }
      jobs := changed[id := NewJob(w, hash)];
      r := Success(jobs[id]);
    }

    /** A due row that is not locked. */
    method PickDue(now: int, locked: set<string>) returns (r: Option<string>)
      ensures r.Some? ==> r.value in jobs && jobs[r.value].Due(now) && r.value !in locked
      ensures r.None? ==> forall id :: id in jobs && jobs[id].Due(now) ==> id in locked
    {
      r := None;
      var ids := jobs.Keys;
      while ids != {}
        invariant ids <= jobs.Keys
        invariant r.Some? ==> r.value in jobs && jobs[r.value].Due(now) && r.value !in locked
        invariant r.None? ==> forall id :: id in jobs && id !in ids && jobs[id].Due(now) ==> id in locked
        decreases |ids|
      {
        var id := AnyOf(ids);
        var job := jobs[id];
        var open := job.state in {Queued, Discovering, Routing, Optimizing};
        if open && (job.lease == None || job.lease.value.until < now) && id !in locked {
          r := Some(id);
        }
        ids := ids - {id};
      }
    }

    method ClaimOne(id: string, now: int, lease: int) returns (c: Claimed)
      requires Valid() && id in jobs && jobs[id].Due(now)
      modifies this`jobs, this`drawn, this`next
      ensures Valid() && c.id == id && View() == Do(old(View()), ClaimJob(id, c.token, now, lease))
      ensures c.job == old(jobs)[id].Claim(c.token, now + lease) && jobs == old(jobs)[id := c.job]
    {
      StepKeepsInv(View(), ClaimJob(id, next, now, lease));
      var job := jobs[id];
      c := Claimed(id,
        job.(lease := Some(Lease(next, now + lease)), attempt := job.attempt + 1,
             state := if job.state == Queued then Discovering else job.state), next);
      jobs, drawn, next := jobs[id := c.job], drawn + {next}, next + 1;
    }

    /**
     Claim: up to `limit` due rows, each under a token of its own; fewer only if no other row
     is due.
     */
    method Claim(now: int, lease: int, limit: int, locked: set<string>)
      returns (claims: seq<Claimed>, ghost steps: seq<Step>)
      requires Valid()
      modifies this`jobs, this`drawn, this`next
      ensures Valid() && View() == Run(old(View()), steps) && AreClaims(steps, claims, now, lease)
      ensures |claims| <= AtLeastOne(limit) && Leased(old(jobs), jobs, claims, now, lease, locked)
      ensures |claims| < AtLeastOne(limit) ==> NoneLeft(old(jobs), claims, now, locked)
    {
      claims, steps := [], [];
      ghost var before := View();
      var count := limit;
      if limit < 1 {
        count := 1;
      }
      while |claims| < count
        invariant |claims| <= count == AtLeastOne(limit)
        invariant Valid() && View() == Run(before, steps) && AreClaims(steps, claims, now, lease)
        invariant Leased(before.db.jobs, jobs, claims, now, lease, locked)
        decreases count - |claims|
      {
        var c := ClaimNext(before, claims, steps, now, lease, locked);
        if c.None? {
          return;
        }
        claims, steps := claims + [c.value], steps + [ClaimJob(c.value.id, c.value.token, now, lease)];
      }
    }

    /** One turn of the claim: a due row that is neither locked nor claimed already. */
    method ClaimNext(
      ghost before: System, claims: seq<Claimed>, ghost steps: seq<Step>, now: int, lease: int, locked: set<string>)
      returns (c: Option<Claimed>)
      requires Valid() && View() == Run(before, steps) && Leased(before.db.jobs, jobs, claims, now, lease, locked)
      modifies this`jobs, this`drawn, this`next
      ensures Valid() && (c.None? ==> View() == old(View()) && NoneLeft(before.db.jobs, claims, now, locked))
      ensures c.Some? ==> View() == Run(before, steps + [ClaimJob(c.value.id, c.value.token, now, lease)])
      ensures c.Some? ==> Leased(before.db.jobs, jobs, claims + [c.value], now, lease, locked)
    {
      var pick := PickDue(now, locked + IdsOf(claims));
      if pick.None? {
        AllTaken(before.db.jobs, jobs, claims, now, lease, locked);
        return None;
      }
      ghost var was := jobs;
      var claimed := ClaimOne(pick.value, now, lease);
      RunOneMore(before, steps, ClaimJob(claimed.id, claimed.token, now, lease));
      OneMoreLeased(before.db.jobs, was, jobs, claims, claimed, now, lease, locked);
      c := Some(claimed);
    }

    /** The inserts of one commit, row by row; one refused row rolls all of them back. */
    method InsertRows(id: string, revision: nat, results: seq<Plan>) returns (ok: bool, added: set<ResultRow>)
      ensures ok <==> Insertable(rows, id, revision, results)
      ensures ok ==> added == RowsOf(id, revision, results)
    {
      added := {};
      for i := 0 to |results|
        invariant Insertable(rows, id, revision, results[..i])
        invariant added == RowsOf(id, revision, results[..i])
      {
        assert results[..i + 1] == results[..i] + [results[i]];
        if !(1 <= |results[i].key| <= 512) || (exists row ::
          row in rows + added && SameKey(row, id, revision, results[i].key)) {
          RefusedRow(rows, id, revision, results, i);
          return false, {};
        }
        InsertOneMore(rows, id, revision, results, i);
        added := added + {ResultRow(id, revision, i + 1, results[i])};
      }
      ok := true;
      assert results[..|results|] == results;
    }

    /** Commit: all of it or nothing, and nothing without the lease. */
    method Commit(id: string, token: nat, to: State, results: seq<Plan>, now: int) returns (r: Result<nat, WriteError>)
      requires Valid()
      modifies this`jobs, this`rows, this`log
      ensures Valid() && View() == Do(old(View()), CommitJob(id, token, to, results, now))
      ensures r.Success? <==> Commits(old(View()).db, id, token, to, results, now)
      ensures r == Failure(LeaseLost) <==>
                !(id in old(jobs) && old(jobs)[id].HeldBy(token) && old(jobs)[id].lease.value.until >= now)
      ensures r.Success? ==> r.value == jobs[id].revision
    {
      StepKeepsInv(View(), CommitJob(id, token, to, results, now));
      if id !in jobs || jobs[id].lease.None? || jobs[id].lease.value.token != token ||
        jobs[id].lease.value.until < now {
        return Failure(LeaseLost);
      }
      var job := jobs[id].Commit(to, results != []);
      var clash := IndexRefuses(jobs, id, job);
      var ok, added := InsertRows(id, jobs[id].revision + 1, results);
      if clash || !ok {
        return Failure(Rejected);
      }
      log := log + [Entry(id, token, job.revision, results)];
      NoResultsNoRows(id, job.revision, jobs[id].revision + 1, results);
      jobs, rows := jobs[id := job], rows + added;
      r := Success(job.revision);
    }

    method Fail(id: string, token: nat) returns (r: Result<(), WriteError>)
      requires Valid()
      modifies this`jobs
      ensures Valid() && View() == Do(old(View()), FailJob(id, token))
      ensures r.Success? <==> Fails(old(View()).db, id, token)
      ensures r == Failure(LeaseLost) <==> !(id in old(jobs) && old(jobs)[id].HeldBy(token))
    {
      StepKeepsInv(View(), FailJob(id, token));
      if id !in jobs || jobs[id].lease.None? || jobs[id].lease.value.token != token {
        return Failure(LeaseLost);
      }
      var job := jobs[id].(state := if jobs[id].attempt >= 5 then Failed else Queued, lease := None);
      var clash := IndexRefuses(jobs, id, job);
      if clash {
        return Failure(Rejected);
      }
      jobs := jobs[id := job];
      r := Success(());
    }

    /** Cancel leaves the lease of the job in place. */
    method Cancel(account: string, id: string) returns (r: Option<Job>)
      requires Valid()
      modifies this`jobs
      ensures Valid() && View() == Do(old(View()), CancelJob(id, account))
      ensures r.Some? <==> id in old(jobs) && old(jobs)[id].workspace.account == account
      ensures r.Some? ==>
        id in jobs && r.value == jobs[id] && r.value.lease == old(jobs)[id].lease && !Live(r.value.state)
    {
      StepKeepsInv(View(), CancelJob(id, account));
      if id !in jobs || jobs[id].workspace.account != account {
        assert id in jobs ==> jobs[id := jobs[id].Cancel(account)] == jobs;
        return None;
      }
      if jobs[id].state !in {Completed, Failed, Cancelled} {
        jobs := jobs[id := jobs[id].(state := Cancelled)];
      } else {
        assert jobs[id := jobs[id].Cancel(account)] == jobs;
      }
      r := Some(jobs[id]);
    }

    /** RequeueWatching, given the jobs whose regions have a newer snapshot. */
    method RequeueWatching(stale: set<string>) returns (ghost steps: seq<Step>)
      requires Valid()
      modifies this`jobs
      ensures Valid() && View() == Run(old(View()), steps)
      ensures forall step :: step in steps ==> step.RequeueJob? && step.id in stale
      ensures forall id :: id in jobs && id in stale ==> jobs[id].state != Watching
    {
      steps := [];
      var ids := jobs.Keys * stale;
      ghost var before := View();
      while ids != {}
        invariant ids <= jobs.Keys * stale && Valid() && View() == Run(before, steps)
        invariant forall step :: step in steps ==> step.RequeueJob? && step.id in stale
        invariant forall id :: id in jobs && id in stale && id !in ids ==> jobs[id].state != Watching
        decreases |ids|
      {
        var id := AnyOf(ids);
        RunOneMore(before, steps, RequeueJob(id));
        RequeueOne(id);
        steps := steps + [RequeueJob(id)];
        ids := ids - {id};
      }
    }

    method RequeueOne(id: string)
      requires Valid() && id in jobs
      modifies this`jobs
      ensures Valid() && View() == Do(old(View()), RequeueJob(id))
      ensures jobs == old(jobs)[id := old(jobs)[id].Requeue()]
    {
      StepKeepsInv(View(), RequeueJob(id));
      if jobs[id].state == Watching {
        jobs := jobs[id := jobs[id].(state := Queued)];
      } else {
        assert jobs[id := jobs[id].Requeue()] == jobs;
      }
    }

    /** The subquery: the newest revision after `after`, if there is one. */
    method MaxRevisionAfter(id: string, after: int) returns (max: Option<nat>)
      ensures max.None? ==> forall row :: row in rows && row.job == id ==> row.revision <= after
      ensures max.Some? ==> max.value > after && HasRows(rows, id, max.value)
      ensures max.Some? ==> forall row :: row in rows && row.job == id ==> row.revision <= max.value
    {
      max := None;
      var left := rows;
      while left != {}
        invariant left <= rows
        invariant max.None? ==> forall row :: row in rows - left && row.job == id ==> row.revision <= after
        invariant max.Some? ==> max.value > after && HasRows(rows, id, max.value)
        invariant max.Some? ==> forall row :: row in rows - left && row.job == id ==> row.revision <= max.value
        decreases |left|
      {
        var row := AnyOf(left);
        if row.job == id && row.revision > after && (max.None? || row.revision > max.value) {
          max := Some(row.revision);
        }
        left := left - {row};
      }
    }

    /** The row of lowest rank: ORDER BY rank takes it next. */
    method LowestRank(left: set<ResultRow>) returns (low: ResultRow)
      requires left != {}
      ensures low in left && forall row :: row in left ==> low.rank <= row.rank
    {
      low := AnyOf(left);
      var rest := left - {low};
      while rest != {}
        invariant low in left && rest <= left
        invariant forall row :: row in left - rest ==> low.rank <= row.rank
        decreases |rest|
      {
        var row := AnyOf(rest);
        if row.rank < low.rank {
          low := row;
        }
        rest := rest - {row};
      }
    }

    /** ResultsAfter, for a job of the account. */
    method ResultsAfter(account: string, id: string, after: int) returns (page: seq<ResultRow>)
      ensures id in jobs && jobs[id].workspace.account == account ==> IsPage(rows, id, after, page)
      ensures !(id in jobs && jobs[id].workspace.account == account) ==> page == []
    {
      page := [];
      if id !in jobs || jobs[id].workspace.account != account {
        return;
      }
      var max := MaxRevisionAfter(id, after);
      if max.None? {
        return;
      }
      var newest := set row | row in rows && row.job == id && row.revision == max.value;
      assert forall row :: Newest(rows, id, after, row) <==> row in newest;
      page := OrderByRank(newest);
    }

    method OrderByRank(all: set<ResultRow>) returns (page: seq<ResultRow>)
      ensures RankedSoFar(all, {}, page)
    {
      page := [];
      var left := all;
      while left != {}
        invariant RankedSoFar(all, left, page)
        decreases |left|
      {
        var row := LowestRank(left);
        RankedOneMore(all, left, page, row);
        page := page + [row];
        left := left - {row};
      }
    }

    /** Engine.Step, which may return anything. */
    method EngineStep(job: Job) returns (outcome: Outcome) {
      outcome := *;
    }

    /** The clock, which is read again after each step of the engine. */
    method ReadClock() returns (now: int) {
      now := *;
    }

    /** What the worker does with one claimed job; its lease may have run out meanwhile. */
    method Work(c: Claimed) returns (ghost made: Made)
      requires Valid()
      modifies this`jobs, this`rows, this`log
      ensures Valid() && View() == Do(old(View()), AnswerOf(c.id, c.token, made.outcome, made.at))
    {
      var outcome := EngineStep(c.job);
      var now := ReadClock();
      made := Made(outcome, now);
      match outcome
      case StepError(message) =>
        var r := Fail(c.id, c.token);
      case Slice(to, results) =>
        var r := Commit(c.id, c.token, to, results, now);
    }

    /**
     RunOnce: requeue, claim, then one answer for each claim with the claim's own token. At the end
     each claimed job is where the engine's outcome puts it.
     */
    method RunOnce(stale: set<string>, now: int, lease: int, batch: int, locked: set<string>)
      returns (ghost requeued: seq<Step>, ghost claims: seq<Claimed>, ghost claimed: seq<Step>, ghost made: seq<Made>)
      requires Valid()
      modifies this
      ensures Valid() && |made| == |claims| && AreClaims(claimed, claims, now, lease)
      ensures View() == Run(old(View()), requeued + claimed + Answers(claims, made))
      ensures AllLanded(claims, made, View())
      ensures forall i :: 0 <= i < |claims| ==> claims[i].job.lease.value.until == now + lease
    {
      ghost var before := View();
      requeued := RequeueWatching(stale);
      ghost var queued := jobs;
      var todo;
      todo, claimed := Claim(now, lease, batch, locked);
      RunAppend(before, requeued, claimed);
      ClaimsAreHeld(queued, View(), todo, now, lease, locked);
      claims := todo;
      made := WorkAll(todo);
      RunAppend(before, requeued + claimed, Answers(claims, made));
    }

    method WorkAll(claims: seq<Claimed>) returns (ghost made: seq<Made>)
      requires Valid() && AllLanded(claims, [], View())
      modifies this`jobs, this`rows, this`log
      ensures Valid() && |made| == |claims| && View() == Run(old(View()), Answers(claims, made))
      ensures AllLanded(claims, made, View())
    {
      made := [];
      ghost var before := View();
      for i := 0 to |claims|
        invariant Valid() && |made| == i && View() == Run(before, Answers(claims, made))
        invariant AllLanded(claims, made, View())
      {
        ghost var s := View();
        ghost var m := Work(claims[i]);
        LandedOneMore(claims, made, s, m);
        RunOneMore(before, Answers(claims, made), AnswerOf(claims[i].id, claims[i].token, m.outcome, m.at));
        made := made + [m];
      }
    }
  }

  /** The answers of a cycle as steps of the protocol. */
  ghost function Answers(claims: seq<Claimed>, made: seq<Made>): seq<Step>
    requires |made| <= |claims|
  {
    if made == [] then []
    else
      var n := |made| - 1;
      Answers(claims, made[..n]) + [AnswerOf(claims[n].id, claims[n].token, made[n].outcome, made[n].at)]
  }

  /** The rows taken so far in rank order, each once, and behind them those that are left. */
  ghost predicate RankedSoFar(all: set<ResultRow>, left: set<ResultRow>, page: seq<ResultRow>) {
    && (forall row :: row in all <==> row in page || row in left)
    && (forall i, row :: 0 <= i < |page| && row in left ==> page[i] != row && page[i].rank <= row.rank)
    && (forall i, j :: 0 <= i < j < |page| ==> page[i] != page[j] && page[i].rank <= page[j].rank)
  }

  lemma RankedOneMore(all: set<ResultRow>, left: set<ResultRow>, page: seq<ResultRow>, row: ResultRow)
    requires RankedSoFar(all, left, page) && row in left && forall other :: other in left ==> row.rank <= other.rank
    ensures RankedSoFar(all, left - {row}, page + [row])
  {
  }

  function AtLeastOne(limit: int): nat { if limit < 1 then 1 else limit }

  function IdsOf(claims: seq<Claimed>): set<string> { set c | c in claims :: c.id }

  ghost predicate AreClaims(steps: seq<Step>, claims: seq<Claimed>, now: int, lease: int) {
    |steps| == |claims| && forall i :: 0 <= i < |claims| ==>
      steps[i] == ClaimJob(claims[i].id, claims[i].token, now, lease)
  }

  /** The claimed rows were due and are leased now; no other row changed. */
  ghost predicate Leased(
    before: map<string, Job>, after: map<string, Job>, claims: seq<Claimed>, now: int, lease: int, locked: set<string>)
  {
    && after.Keys == before.Keys
    && (forall i, j :: 0 <= i < j < |claims| ==> claims[i].id != claims[j].id)
    && (forall i :: 0 <= i < |claims| ==> LeasedTo(before, after, claims[i], now, lease) && claims[i].id !in locked)
    && (forall id :: id in before && id !in IdsOf(claims) ==> after[id] == before[id])
  }

  ghost predicate LeasedTo(before: map<string, Job>, after: map<string, Job>, c: Claimed, now: int, lease: int) {
    && c.id in before && before[c.id].Due(now) && c.id in after
    && after[c.id] == c.job == before[c.id].Claim(c.token, now + lease)
  }

  ghost predicate NoneLeft(before: map<string, Job>, claims: seq<Claimed>, now: int, locked: set<string>) {
    forall id :: id in before && before[id].Due(now) && id !in locked ==> id in IdsOf(claims)
  }

  lemma AllTaken(
    before: map<string, Job>, after: map<string, Job>, claims: seq<Claimed>, now: int, lease: int, locked: set<string>)
    requires Leased(before, after, claims, now, lease, locked)
    requires forall id :: id in after && after[id].Due(now) ==> id in locked + IdsOf(claims)
    ensures NoneLeft(before, claims, now, locked)
  {
  }

  lemma OneMoreLeased(
    before: map<string, Job>, was: map<string, Job>, after: map<string, Job>, claims: seq<Claimed>, c: Claimed,
    now: int, lease: int, locked: set<string>)
    requires Leased(before, was, claims, now, lease, locked)
    requires c.id in was && was[c.id].Due(now) && c.id !in locked + IdsOf(claims)
    requires c.job == was[c.id].Claim(c.token, now + lease) && after == was[c.id := c.job]
    ensures Leased(before, after, claims + [c], now, lease, locked)
  {
    var more := claims + [c];
    assert IdsOf(more) == IdsOf(claims) + {c.id};
    NowLeased(before, was, after, c, claims, now, lease, locked);
    forall i | 0 <= i < |more|
      ensures LeasedTo(before, after, more[i], now, lease) && more[i].id !in locked
      ensures i < |claims| ==> more[i] == claims[i] && more[i].id != c.id
    {
      if i < |claims| {
        assert claims[i].id in IdsOf(claims);
        StillLeased(before, was, after, claims[i], c.id, now, lease);
      }
    }
  }

  lemma NowLeased(
    before: map<string, Job>, was: map<string, Job>, after: map<string, Job>, c: Claimed, claims: seq<Claimed>,
    now: int, lease: int, locked: set<string>)
    requires Leased(before, was, claims, now, lease, locked) && c.id in was && was[c.id].Due(now)
    requires c.id !in IdsOf(claims)
    requires c.job == was[c.id].Claim(c.token, now + lease) && after == was[c.id := c.job]
    ensures LeasedTo(before, after, c, now, lease) && after.Keys == before.Keys
    ensures forall id :: id in before && id !in IdsOf(claims) + {c.id} ==> after[id] == before[id]
  {
  }

  lemma StillLeased(
    before: map<string, Job>, was: map<string, Job>, after: map<string, Job>, claim: Claimed, id: string, now: int,
    lease: int)
    requires LeasedTo(before, was, claim, now, lease) && claim.id != id && id in after && after == was[id := after[id]]
    ensures LeasedTo(before, after, claim, now, lease)
  {
  }

  predicate SameKey(row: ResultRow, id: string, revision: nat, key: string) {
    row.job == id && row.revision == revision && row.plan.key == key
  }

  lemma RefusedRow(rows: set<ResultRow>, id: string, revision: nat, results: seq<Plan>, i: nat)
    requires i < |results|
    requires !(1 <= |results[i].key| <= 512) || exists row ::
               row in rows + RowsOf(id, revision, results[..i]) && SameKey(row, id, revision, results[i].key)
    ensures !Insertable(rows, id, revision, results)
  {
  }

  lemma InsertOneMore(rows: set<ResultRow>, id: string, revision: nat, results: seq<Plan>, i: nat)
    requires i < |results| && Insertable(rows, id, revision, results[..i])
    requires 1 <= |results[i].key| <= 512
    requires !exists row ::
      row in rows + RowsOf(id, revision, results[..i]) && SameKey(row, id, revision, results[i].key)
    ensures Insertable(rows, id, revision, results[..i + 1])
    ensures RowsOf(id, revision, results[..i + 1]) ==
      RowsOf(id, revision, results[..i]) + {ResultRow(id, revision, i + 1, results[i])}
  {
    var more := results[..i + 1];
    assert more == results[..i] + [results[i]];
    forall j | 0 <= j < i
      ensures more[j].key != results[i].key
    {
      assert ResultRow(id, revision, j + 1, results[..i][j]) in RowsOf(id, revision, results[..i]);
      assert !SameKey(ResultRow(id, revision, j + 1, results[..i][j]), id, revision, results[i].key);
    }
    forall row | row in rows && row.job == id && row.revision == revision
      ensures row.plan.key != results[i].key
    {
      assert !SameKey(row, id, revision, results[i].key);
    }
    forall row
      ensures row in RowsOf(id, revision, more) <==>
              row in RowsOf(id, revision, results[..i]) + {ResultRow(id, revision, i + 1, results[i])}
    {
      if row in RowsOf(id, revision, results[..i]) {
        var k :| 0 <= k < i && row == ResultRow(id, revision, k + 1, results[..i][k]);
        assert more[k] == results[..i][k];
      }
      assert more[i] == results[i];
    }
  }

  lemma NoResultsNoRows(id: string, a: nat, b: nat, results: seq<Plan>)
    requires results != [] ==> a == b
    ensures RowsOf(id, a, results) == RowsOf(id, b, results)
  {
  }
}
