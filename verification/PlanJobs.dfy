/**
 relay-server/internal/marketplan: plan jobs that workers lease, step and commit, and the
 revisions of results that the desktop client polls for. Each SQL statement or transaction
 of postgres.go is one guarded step on the tables; a worker is whoever knows the token of a
 claim, and may use it late, twice or never.
 */
module PlanJobs {
  import opened Wrappers
  import opened Fencing

  datatype State = Queued | Discovering | Routing | Optimizing | Watching | Completed | Failed | Cancelled

  /** The states of the partial unique index. */
  predicate Live(state: State) { state != Completed && state != Failed && state != Cancelled }

  predicate Claimable(state: State) { Live(state) && state != Watching }

  datatype Workspace = Workspace(account: string, character: int, mode: string)

  /** worker_token and lease_until, which every statement sets or clears together. */
  datatype Lease = Lease(token: nat, until: int)

  datatype Job = Job(
    workspace: Workspace, hash: string, state: State, lease: Option<Lease>,
    attempt: nat, iteration: nat, revision: nat)
  {
    predicate Due(now: int) { Claimable(state) && (lease.None? || lease.value.until < now) }

    predicate HeldBy(token: nat) { lease.Some? && lease.value.token == token }

    function Claim(token: nat, until: int): Job {
      this.(lease := Some(Lease(token, until)), attempt := attempt + 1,
            state := if state == Queued then Discovering else state)
    }

    function Commit(to: State, results: bool): Job {
      this.(state := to, lease := None, iteration := iteration + 1,
            revision := if results then revision + 1 else revision)
    }

    function Fail(): Job { this.(state := if attempt >= 5 then Failed else Queued, lease := None) }

    function Supersede(w: Workspace): Job {
      if workspace == w && Live(state) then this.(state := Cancelled, lease := None) else this
    }

    function Cancel(account: string): Job {
      if workspace.account == account && state != Completed && state != Failed && state != Cancelled
      then this.(state := Cancelled) else this
    }

    function Requeue(): Job { if state == Watching then this.(state := Queued) else this }
  }

  datatype Plan = Plan(key: string, score: real, payload: string)

  /** A row of market_plan_results. */
  datatype ResultRow = ResultRow(job: string, revision: nat, rank: nat, plan: Plan)

  datatype Db = Db(jobs: map<string, Job>, rows: set<ResultRow>, drawn: set<nat>)

  // ---------------------------------------------------------------- the statements

  function NewJob(w: Workspace, hash: string): Job { Job(w, hash, Queued, None, 0, 0, 0) }

  ghost function Superseded(jobs: map<string, Job>, w: Workspace): map<string, Job> {
    map id | id in jobs :: jobs[id].Supersede(w)
  }

  /** The unique index refuses `job` under `id`. */
  ghost predicate Clash(jobs: map<string, Job>, id: string, job: Job) {
    Live(job.state) && exists k :: k in jobs && k != id && Rivals(jobs[k], job)
  }

  /** Two rows with the same entry in the unique index. */
  predicate Rivals(a: Job, b: Job) {
    Live(a.state) && Live(b.state) && a.workspace == b.workspace && a.hash == b.hash
  }

  ghost function Create(db: Db, id: string, w: Workspace, hash: string): Db {
    if id in db.jobs || Clash(Superseded(db.jobs, w), id, NewJob(w, hash)) then db
    else db.(jobs := Superseded(db.jobs, w)[id := NewJob(w, hash)])
  }

  /** One row of a claim; the statement claims several, with nothing between. */
  ghost function Claim(db: Db, id: string, token: nat, now: int, until: int): Db {
    if id in db.jobs && db.jobs[id].Due(now) && token !in db.drawn
    then db.(jobs := db.jobs[id := db.jobs[id].Claim(token, until)], drawn := db.drawn + {token})
    else db
  }

  function RowsOf(id: string, revision: nat, results: seq<Plan>): set<ResultRow> {
    set k | 0 <= k < |results| :: ResultRow(id, revision, k + 1, results[k])
  }

  /** The checks of the results table: the length of a key, and the primary key. */
  ghost predicate Insertable(rows: set<ResultRow>, id: string, revision: nat, results: seq<Plan>) {
    && (forall k :: 0 <= k < |results| ==> 1 <= |results[k].key| <= 512)
    && (forall j, k :: 0 <= j < k < |results| ==> results[j].key != results[k].key)
    && (forall row, k :: row in rows && row.job == id && row.revision == revision && 0 <= k < |results| ==>
          row.plan.key != results[k].key)
  }

  /** The guard of Commit, and the constraints its transaction must meet not to roll back. */
  ghost predicate Commits(db: Db, id: string, token: nat, to: State, results: seq<Plan>, now: int) {
    && id in db.jobs && db.jobs[id].HeldBy(token) && db.jobs[id].lease.value.until >= now
    && !Clash(db.jobs, id, db.jobs[id].Commit(to, results != []))
    && Insertable(db.rows, id, db.jobs[id].revision + 1, results)
  }

  ghost function Commit(db: Db, id: string, token: nat, to: State, results: seq<Plan>, now: int): Db {
    if !Commits(db, id, token, to, results, now) then db
    else
      var job := db.jobs[id].Commit(to, results != []);
      db.(jobs := db.jobs[id := job], rows := db.rows + RowsOf(id, job.revision, results))
  }

  ghost predicate Fails(db: Db, id: string, token: nat) {
    id in db.jobs && db.jobs[id].HeldBy(token) && !Clash(db.jobs, id, db.jobs[id].Fail())
  }

  ghost function Fail(db: Db, id: string, token: nat): Db {
    if Fails(db, id, token) then db.(jobs := db.jobs[id := db.jobs[id].Fail()]) else db
  }

  function Cancel(db: Db, id: string, account: string): Db {
    if id in db.jobs then db.(jobs := db.jobs[id := db.jobs[id].Cancel(account)]) else db
  }

  /** One row of RequeueWatching. */
  function Requeue(db: Db, id: string): Db {
    if id in db.jobs then db.(jobs := db.jobs[id := db.jobs[id].Requeue()]) else db
  }

  /** A claimed job is nobody else's while its lease lasts, and is due again after it, one attempt later. */
  lemma LeaseProtects(db: Db, id: string, token: nat, now: int, until: int, t: int)
    requires id in db.jobs && db.jobs[id].Due(now) && token !in db.drawn
    ensures var was, job := db.jobs[id], Claim(db, id, token, now, until).jobs[id];
      && (job.Due(t) <==> until < t)
      && job == Job(was.workspace, was.hash, if was.state == Queued then Discovering else was.state,
                    Some(Lease(token, until)), was.attempt + 1, was.iteration, was.revision)
      && was.state in {Queued, Discovering, Routing, Optimizing}
  {
  }

  // ---------------------------------------------------------------- the system

  /** A committed transaction of Commit, with the revision it left the job at. */
  datatype Entry = Entry(job: string, token: nat, revision: nat, results: seq<Plan>) {
    predicate Wrote(row: ResultRow) {
      && row.job == job && row.revision == revision
      && 1 <= row.rank <= |results| && row.plan == results[row.rank - 1]
    }
  }

  datatype System = System(db: Db, log: seq<Entry>)

  const INIT := System(Db(map[], {}, {}), [])

  datatype Step =
    | CreateJob(id: string, workspace: Workspace, hash: string)
    | ClaimJob(id: string, token: nat, now: int, lease: int)
    | CommitJob(id: string, token: nat, to: State, results: seq<Plan>, now: int)
    | FailJob(id: string, token: nat)
    | CancelJob(id: string, account: string)
    | RequeueJob(id: string)

  ghost function Do(s: System, step: Step): System {
    match step
    case CreateJob(id, w, hash) => s.(db := Create(s.db, id, w, hash))
    case ClaimJob(id, token, now, lease) => s.(db := Claim(s.db, id, token, now, now + lease))
    case CommitJob(id, token, to, results, now) =>
      if !Commits(s.db, id, token, to, results, now) then s
      else
        var db := Commit(s.db, id, token, to, results, now);
        System(db, s.log + [Entry(id, token, db.jobs[id].revision, results)])
    case FailJob(id, token) => s.(db := Fail(s.db, id, token))
    case CancelJob(id, account) => s.(db := Cancel(s.db, id, account))
    case RequeueJob(id) => s.(db := Requeue(s.db, id))
  }

  ghost function Run(s: System, steps: seq<Step>): System
    decreases |steps|
  {
    if steps == [] then s else Run(Do(s, steps[0]), steps[1..])
  }

  // ---------------------------------------------------------------- fencing

  ghost function FenceOf(db: Db): Fence<string> {
    Fence(db.drawn, map id | id in db.jobs && db.jobs[id].lease.Some? :: db.jobs[id].lease.value.token)
  }

  lemma StepAdvancesFence(s: System, step: Step)
    requires FenceOf(s.db).Sound()
    ensures Advances(FenceOf(s.db), FenceOf(Do(s, step).db))
  {
    var db, db' := s.db, Do(s, step).db;
    var f, g := FenceOf(db), FenceOf(db');
    forall id | id in g.held
      ensures (id in f.held && g.held[id] == f.held[id] && f.held[id] in f.drawn)
           || (step.ClaimJob? && id == step.id && g.held[id] == step.token && step.token !in f.drawn &&
              step.token in g.drawn)
    {
    }
  }

  // ---------------------------------------------------------------- the unique index

  /** At most one live job for each workspace and constraint hash. */
  ghost predicate IndexHolds(jobs: map<string, Job>) {
    forall a, b {:trigger Rivals(jobs[a], jobs[b])} :: a in jobs && b in jobs && a != b ==> !Rivals(jobs[a], jobs[b])
  }

  /** Job `id` of the next state is the old one, or no more alive than it was. */
  ghost predicate NoMoreAlive(jobs: map<string, Job>, jobs': map<string, Job>, id: string) {
    && id in jobs && id in jobs'
    && jobs'[id].workspace == jobs[id].workspace && jobs'[id].hash == jobs[id].hash
    && (Live(jobs'[id].state) ==> Live(jobs[id].state))
  }

  lemma IndexShrinks(jobs: map<string, Job>, jobs': map<string, Job>)
    requires IndexHolds(jobs)
    requires forall id :: id in jobs' ==> NoMoreAlive(jobs, jobs', id)
    ensures IndexHolds(jobs')
  {
    forall a, b | a in jobs' && b in jobs' && a != b
      ensures !Rivals(jobs'[a], jobs'[b])
    {
      assert NoMoreAlive(jobs, jobs', a) && NoMoreAlive(jobs, jobs', b);
      assert !Rivals(jobs[a], jobs[b]);
    }
  }

  /** The insert of Create never meets the unique index: what it could clash with was just superseded. */
  lemma CreateNeverClashes(db: Db, id: string, w: Workspace, hash: string)
    ensures Create(db, id, w, hash) != db <==> id !in db.jobs
    ensures id !in db.jobs ==> Create(db, id, w, hash).jobs == Superseded(db.jobs, w)[id := NewJob(w, hash)]
  {
  }

  lemma StepKeepsIndex(s: System, step: Step)
    requires IndexHolds(s.db.jobs)
    ensures IndexHolds(Do(s, step).db.jobs)
  {
    var jobs, jobs' := s.db.jobs, Do(s, step).db.jobs;
    match step
    case CreateJob(id, w, hash) =>
    case CommitJob(id, token, to, results, now) =>
    case FailJob(id, token) =>
    case _ =>
      forall id | id in jobs'
        ensures NoMoreAlive(jobs, jobs', id)
      {
      }
      IndexShrinks(jobs, jobs');
  }

  // ---------------------------------------------------------------- the invariant

  /** The number of commits of `id` that wrote results. */
  ghost function Revisions(log: seq<Entry>, id: string): nat {
    if log == [] then 0
    else
      var last := log[|log| - 1];
      Revisions(log[..|log| - 1], id) + if last.job == id && last.results != [] then 1 else 0
  }

  ghost predicate EntryInv(s: System, i: nat)
    requires i < |s.log|
  {
    && s.log[i].job in s.db.jobs && FenceOf(s.db).Retired(s.log[i].token)
    && s.log[i].revision == Revisions(s.log[..i + 1], s.log[i].job)
  }

  ghost predicate JobInv(s: System, id: string)
    requires id in s.db.jobs
  {
    && s.db.jobs[id].revision == Revisions(s.log, id)
    && (s.db.jobs[id].lease.Some? ==> Claimable(s.db.jobs[id].state) || s.db.jobs[id].state == Cancelled)
  }

  ghost predicate Written(log: seq<Entry>, row: ResultRow) {
    exists i :: 0 <= i < |log| && log[i].Wrote(row)
  }

  ghost predicate DistinctTokens(log: seq<Entry>) {
    forall i, j :: 0 <= i < j < |log| ==> log[i].token != log[j].token
  }

  ghost predicate Inv(s: System) {
    var jobs :=
      && IndexHolds(s.db.jobs) && FenceOf(s.db).Sound()
      && forall id {:trigger JobInv(s, id)} :: id in s.db.jobs ==> JobInv(s, id);
    var results :=
      && (forall i: nat {:trigger EntryInv(s, i)} :: i < |s.log| ==> EntryInv(s, i))
      && DistinctTokens(s.log)
      && (forall row :: row in s.db.rows <==> Written(s.log, row));
    jobs && results
  }

  lemma StepKeepsJob(s: System, step: Step, id: string)
    requires Inv(s) && id in Do(s, step).db.jobs
    ensures JobInv(Do(s, step), id)
  {
    var s' := Do(s, step);
    if id in s.db.jobs {
      assert JobInv(s, id);
      if s'.log != s.log {
        assert s'.log[..|s.log|] == s.log;
      }
    } else {
      assert step.CreateJob? && s'.db.jobs[id] == NewJob(step.workspace, step.hash);
      NoRevisions(s, |s.log|, id);
      assert s.log[..|s.log|] == s.log;
    }
  }

  lemma {:induction false} NoRevisions(s: System, n: nat, id: string)
    requires Inv(s) && id !in s.db.jobs && n <= |s.log|
    ensures Revisions(s.log[..n], id) == 0
  {
    if n > 0 {
      assert s.log[..n][..n - 1] == s.log[..n - 1];
      assert EntryInv(s, n - 1);
      NoRevisions(s, n - 1, id);
    }
  }

  /** A commit gives up the token it was made with. */
  lemma CommitRetires(s: System, step: Step)
    requires Inv(s) && step.CommitJob? && Do(s, step).log != s.log
    ensures FenceOf(Do(s, step).db).Retired(step.token)
    ensures forall i :: 0 <= i < |s.log| ==> s.log[i].token != step.token
  {
    StepAdvancesFence(s, step);
    var f := FenceOf(s.db);
    assert f.held[step.id] == step.token;
    LostIsRetired(f, FenceOf(Do(s, step).db), step.id);
    forall i | 0 <= i < |s.log|
      ensures s.log[i].token != step.token
    {
      assert EntryInv(s, i);
    }
  }

  lemma StepKeepsEntry(s: System, step: Step, i: nat)
    requires Inv(s) && i < |Do(s, step).log|
    ensures EntryInv(Do(s, step), i)
  {
    var s' := Do(s, step);
    StepAdvancesFence(s, step);
    if i < |s.log| {
      assert EntryInv(s, i) && s'.log[i] == s.log[i] && s'.log[..i + 1] == s.log[..i + 1];
      RetiredStays(FenceOf(s.db), FenceOf(s'.db), s.log[i].token);
    } else {
      CommitRetires(s, step);
      StepKeepsJob(s, step, step.id);
      assert s'.log[..i + 1] == s'.log;
    }
  }

  lemma StepKeepsRows(s: System, step: Step, row: ResultRow)
    requires Inv(s)
    ensures row in Do(s, step).db.rows <==> Written(Do(s, step).log, row)
  {
    var s' := Do(s, step);
    assert row in s.db.rows <==> Written(s.log, row);
    if s'.log != s.log {
      var n := |s.log|;
      assert row in RowsOf(step.id, s'.log[n].revision, step.results) <==> s'.log[n].Wrote(row) by {
        if s'.log[n].Wrote(row) {
          assert row == ResultRow(step.id, s'.log[n].revision, row.rank - 1 + 1, step.results[row.rank - 1]);
        }
      }
      if Written(s.log, row) {
        var i :| 0 <= i < n && s.log[i].Wrote(row);
        assert s'.log[i].Wrote(row);
      }
    }
  }

  lemma StepKeepsInv(s: System, step: Step)
    requires Inv(s)
    ensures Inv(Do(s, step))
  {
    var s' := Do(s, step);
    StepKeepsIndex(s, step);
    StepAdvancesFence(s, step);
    forall id | id in s'.db.jobs
      ensures JobInv(s', id)
    {
      StepKeepsJob(s, step, id);
    }
    forall i: nat | i < |s'.log|
      ensures EntryInv(s', i)
    {
      StepKeepsEntry(s, step, i);
    }
    if s'.log != s.log {
      CommitRetires(s, step);
    }
    forall row
      ensures row in s'.db.rows <==> Written(s'.log, row)
    {
      StepKeepsRows(s, step, row);
    }
  }

  lemma {:induction false} RunKeepsInv(s: System, steps: seq<Step>)
    requires Inv(s)
    ensures Inv(Run(s, steps))
    decreases |steps|
  {
    if steps != [] {
      StepKeepsInv(s, steps[0]);
      RunKeepsInv(Do(s, steps[0]), steps[1..]);
    }
  }

  // ---------------------------------------------------------------- claims

  /** In every run, a claim leads to at most one successful commit. */
  lemma OneCommitPerClaim(steps: seq<Step>)
    ensures DistinctTokens(Run(INIT, steps).log)
  {
    RunKeepsInv(INIT, steps);
  }

  lemma {:induction false} RetiredInRun(s: System, steps: seq<Step>, token: nat)
    requires Inv(s) && FenceOf(s.db).Retired(token)
    ensures FenceOf(Run(s, steps).db).Retired(token)
    decreases |steps|
  {
    if steps != [] {
      StepAdvancesFence(s, steps[0]);
      RetiredStays(FenceOf(s.db), FenceOf(Do(s, steps[0]).db), token);
      StepKeepsInv(s, steps[0]);
      RetiredInRun(Do(s, steps[0]), steps[1..], token);
    }
  }

  /** Once a job has let go of a claim's token, nothing done with that token has any effect, ever. */
  lemma StaleTokenChangesNothing(
    s: System, step: Step, later: seq<Step>, id: string, token: nat,
    other: string, to: State, results: seq<Plan>, now: int)
    requires Inv(s) && id in s.db.jobs && s.db.jobs[id].HeldBy(token)
    requires !Do(s, step).db.jobs[id].HeldBy(token)
    ensures var end := Run(Do(s, step), later);
      Do(end, CommitJob(other, token, to, results, now)) == end && Do(end, FailJob(other, token)) == end
  {
    var s' := Do(s, step);
    StepKeepsInv(s, step);
    StepAdvancesFence(s, step);
    LostIsRetired(FenceOf(s.db), FenceOf(s'.db), id);
    RetiredInRun(s', later, token);
    var g := FenceOf(Run(s', later).db);
    assert other in g.held ==> g.held[other] != token;
  }

  // ---------------------------------------------------------------- one live job per workspace

  /** At most one live job for each workspace. */
  ghost predicate Single(jobs: map<string, Job>) {
    forall a, b :: a in jobs && b in jobs && a != b && Live(jobs[a].state) && Live(jobs[b].state) ==>
      jobs[a].workspace != jobs[b].workspace
  }

  /** The step is a commit or failure that brings a cancelled job, still leased, back to life. */
  ghost predicate Revives(s: System, step: Step) {
    && (step.CommitJob? || step.FailJob?) && step.id in s.db.jobs
    && s.db.jobs[step.id].state == Cancelled
    && if step.CommitJob?
       then Live(step.to) && Commits(s.db, step.id, step.token, step.to, step.results, step.now)
       else s.db.jobs[step.id].attempt < 5 && Fails(s.db, step.id, step.token)
  }

  /** Another job of the workspace is live. */
  ghost predicate Occupied(jobs: map<string, Job>, id: string)
    requires id in jobs
  {
    exists k :: k in jobs && k != id && Live(jobs[k].state) && jobs[k].workspace == jobs[id].workspace
  }

  /** The only step that breaks it: a revival while another job of the workspace is live. */
  lemma SingleBreaksExactly(s: System, step: Step)
    requires Inv(s) && Single(s.db.jobs)
    ensures !Single(Do(s, step).db.jobs) <==> Revives(s, step) && Occupied(s.db.jobs, step.id)
  {
    var jobs, jobs' := s.db.jobs, Do(s, step).db.jobs;
    if Revives(s, step) && Occupied(jobs, step.id) {
      var k :| k in jobs && k != step.id && Live(jobs[k].state) && jobs[k].workspace == jobs[step.id].workspace;
      assert Live(jobs'[step.id].state) && jobs'[k] == jobs[k];
    } else if Revives(s, step) {
      SingleTakes(jobs, step.id, jobs'[step.id]);
    } else if step.CreateJob? {
      CreateKeepsSingle(s.db, step.id, step.workspace, step.hash);
    } else {
      OtherStepsRevive(s, step);
      SingleShrinks(jobs, jobs');
    }
  }

  lemma OtherStepsRevive(s: System, step: Step)
    requires Inv(s) && !Revives(s, step) && !step.CreateJob?
    ensures forall id :: id in Do(s, step).db.jobs ==> NoMoreAlive(s.db.jobs, Do(s, step).db.jobs, id)
  {
    forall id | id in Do(s, step).db.jobs
      ensures NoMoreAlive(s.db.jobs, Do(s, step).db.jobs, id)
    {
      assert JobInv(s, id);
    }
  }

  lemma SingleTakes(jobs: map<string, Job>, id: string, job: Job)
    requires Single(jobs) && id in jobs && job.workspace == jobs[id].workspace && !Occupied(jobs, id)
    ensures Single(jobs[id := job])
  {
  }

  lemma SingleShrinks(jobs: map<string, Job>, jobs': map<string, Job>)
    requires Single(jobs)
    requires forall id :: id in jobs' ==> NoMoreAlive(jobs, jobs', id)
    ensures Single(jobs')
  {
    forall a, b | a in jobs' && b in jobs' && a != b && Live(jobs'[a].state) && Live(jobs'[b].state)
      ensures jobs'[a].workspace != jobs'[b].workspace
    {
      assert NoMoreAlive(jobs, jobs', a) && NoMoreAlive(jobs, jobs', b);
    }
  }

  lemma CreateKeepsSingle(db: Db, id: string, w: Workspace, hash: string)
    requires Single(db.jobs)
    ensures Single(Create(db, id, w, hash).jobs)
  {
    var jobs := Superseded(db.jobs, w);
    forall k | k in jobs
      ensures jobs[k].workspace == w ==> !Live(jobs[k].state)
      ensures NoMoreAlive(db.jobs, jobs, k)
    {
    }
    SingleShrinks(db.jobs, jobs);
  }

  /** No step of the run cancels a job while a worker holds it. */
  ghost predicate NoClaimedCancel(s: System, steps: seq<Step>)
    decreases |steps|
  {
    steps == [] ||
    (&& (var step := steps[0]; step.CancelJob? && step.id in s.db.jobs ==> s.db.jobs[step.id].lease.None?)
     && NoClaimedCancel(Do(s, steps[0]), steps[1..]))
  }

  ghost predicate CancelledIsFree(jobs: map<string, Job>) {
    forall id :: id in jobs && jobs[id].state == Cancelled ==> jobs[id].lease.None?
  }

  /** The design promise: one live job per workspace, in every run without such a cancellation. */
  lemma OneLiveJobPerWorkspace(steps: seq<Step>)
    requires NoClaimedCancel(INIT, steps)
    ensures Single(Run(INIT, steps).db.jobs)
  {
    SingleInRun(INIT, steps);
  }

  lemma {:induction false} SingleInRun(s: System, steps: seq<Step>)
    requires Inv(s) && Single(s.db.jobs) && CancelledIsFree(s.db.jobs) && NoClaimedCancel(s, steps)
    ensures Single(Run(s, steps).db.jobs)
    decreases |steps|
  {
    if steps != [] {
      var s' := Do(s, steps[0]);
      SingleBreaksExactly(s, steps[0]);
      StepKeepsInv(s, steps[0]);
      forall id | id in s'.db.jobs && s'.db.jobs[id].state == Cancelled
        ensures s'.db.jobs[id].lease.None?
      {
        assert id in s.db.jobs && JobInv(s, id);
      }
      SingleInRun(s', steps[1..]);
    }
  }

  /** A job that is neither live nor leased. Create leaves each job it supersedes like this. */
  predicate Dead(job: Job) { !Live(job.state) && job.lease.None? }

  lemma CreateSupersedes(s: System, step: Step, id: string)
    requires Inv(s) && step.CreateJob? && step.id !in s.db.jobs
    requires id in s.db.jobs && Live(s.db.jobs[id].state) && s.db.jobs[id].workspace == step.workspace
    ensures var jobs := Do(s, step).db.jobs; id in jobs && Dead(jobs[id]) && jobs[id].state == Cancelled
  {
  }

  /** In every run, cancellations included, such a job stays as it is: no in-flight worker revives it. */
  lemma {:induction false} DeadForever(s: System, steps: seq<Step>, id: string)
    requires id in s.db.jobs && Dead(s.db.jobs[id])
    ensures var jobs := Run(s, steps).db.jobs; id in jobs && jobs[id] == s.db.jobs[id]
    decreases |steps|
  {
    if steps != [] {
      DeadForever(Do(s, steps[0]), steps[1..], id);
    }
  }

  ghost predicate LiveAfter(s: System, steps: seq<Step>, id: string) {
    var jobs := Run(s, steps).db.jobs; id in jobs && Live(jobs[id].state)
  }

  /** A cancelled job can come back to life exactly if a worker still holds it. */
  lemma CancelledCanReturn(s: System, id: string)
    requires Inv(s) && id in s.db.jobs && s.db.jobs[id].state == Cancelled
    ensures (exists steps :: LiveAfter(s, steps, id)) <==> s.db.jobs[id].lease.Some?
  {
    if s.db.jobs[id].lease.None? {
      forall steps
        ensures !LiveAfter(s, steps, id)
      {
        DeadForever(s, steps, id);
      }
    } else {
      var lease := s.db.jobs[id].lease.value;
      var back := CommitJob(id, lease.token, Watching, [], lease.until);
      var job := s.db.jobs[id].Commit(Watching, false);
      if Clash(s.db.jobs, id, job) {
        var k :| k in s.db.jobs && k != id && Rivals(s.db.jobs[k], job);
        var clear := CancelJob(k, job.workspace.account);
        var s' := Do(s, clear);
        assert !Clash(s'.db.jobs, id, job) by {
          forall j | j in s'.db.jobs && j != id
            ensures !Rivals(s'.db.jobs[j], job)
          {
            assert j != k ==> !Rivals(s.db.jobs[k], s.db.jobs[j]);
          }
        }
        OneStep(s', back);
        assert Run(s, [clear, back]) == Do(s', back) by {
          assert [clear, back][1..] == [back];
        }
        assert LiveAfter(s, [clear, back], id);
      } else {
        OneStep(s, back);
        assert LiveAfter(s, [back], id);
      }
    }
  }

  lemma OneStep(s: System, step: Step)
    ensures Run(s, [step]) == Do(s, step)
  {
  }

  /** The promise fails once a claimed job is cancelled: its worker's commit makes it live beside its successor. */
  lemma CancelledJobReturns(a: string, b: string, w: Workspace, h: string, g: string, token: nat, now: int, lease: nat)
    requires a != b && h != g
    ensures !Single(Run(INIT, Careless(a, b, w, h, g, token, now, lease)).db.jobs)
  {
    var s2 := Do(Do(INIT, CreateJob(a, w, h)), ClaimJob(a, token, now, lease));
    CreateNeverClashes(INIT.db, a, w, h);
    assert s2.db.jobs == map[a := NewJob(w, h).Claim(token, now + lease)];
    var s3 := Do(s2, CancelJob(a, w.account));
    assert s3.db.jobs == map[a := NewJob(w, h).Claim(token, now + lease).Cancel(w.account)];
    var s4 := Do(s3, CreateJob(b, w, g));
    CreateNeverClashes(s3.db, b, w, g);
    LateCommitLands(s4, CommitJob(a, token, Watching, [], now), w, b);
    FiveSteps(INIT, Careless(a, b, w, h, g, token, now, lease));
  }

  function Careless(
    a: string, b: string, w: Workspace, h: string, g: string, token: nat, now: int, lease: nat): seq<Step> {
    [CreateJob(a, w, h), ClaimJob(a, token, now, lease), CancelJob(a, w.account), CreateJob(b, w, g),
     CommitJob(a, token, Watching, [], now)]
  }

  lemma LateCommitLands(s: System, step: Step, w: Workspace, b: string)
    requires step.CommitJob? && step.to == Watching && step.results == [] && step.id != b
    requires s.db.jobs.Keys == {step.id, b} && s.db.jobs[step.id].HeldBy(step.token)
    requires s.db.jobs[step.id].lease.value.until >= step.now && s.db.jobs[step.id].hash != s.db.jobs[b].hash
    requires s.db.jobs[step.id].workspace == w && s.db.jobs[b].workspace == w && Live(s.db.jobs[b].state)
    ensures !Single(Do(s, step).db.jobs)
  {
    var jobs := Do(s, step).db.jobs;
    assert Commits(s.db, step.id, step.token, step.to, step.results, step.now);
    assert Live(jobs[step.id].state) && jobs[b] == s.db.jobs[b];
  }

  lemma FiveSteps(s: System, steps: seq<Step>)
    requires |steps| == 5
    ensures Run(s, steps) == Do(Do(Do(Do(Do(s, steps[0]), steps[1]), steps[2]), steps[3]), steps[4])
  {
    var s3 := Do(Do(Do(s, steps[0]), steps[1]), steps[2]);
    var s4 := Do(s3, steps[3]);
    OneStep(s4, steps[4]);
    assert steps[4..] == [steps[4]] && steps[3..][1..] == steps[4..] && steps[2..][1..] == steps[3..];
    assert Run(s3, steps[3..]) == Run(s4, steps[4..]);
    assert steps[1..][1..] == steps[2..];
    assert Run(Do(Do(s, steps[0]), steps[1]), steps[2..]) == Run(s3, steps[3..]);
  }
}
