/**
 What a worker's answer to a claimed job leaves behind: worker.go's RunOnce commits what the
 engine made of the job, or fails the job.
 */
module PlanAnswers {
  import opened Wrappers
  import opened PlanJobs
  import opened PlanResults

  /** What Engine.Step returns. */
  datatype Outcome = Slice(to: State, results: seq<Plan>) | StepError(message: string)

  /** The statement for an outcome, at time `t`. */
  function AnswerOf(id: string, token: nat, o: Outcome, t: int): Step {
    match o
    case Slice(to, results) => CommitJob(id, token, to, results, t)
    case StepError(_) => FailJob(id, token)
  }

  predicate LegalKeys(results: seq<Plan>) {
    && (forall k :: 0 <= k < |results| ==> 1 <= |results[k].key| <= 512)
    && (forall j, k :: 0 <= j < k < |results| ==> results[j].key != results[k].key)
  }

  /**
   What became of `job`, as it was claimed: an error queues it again, or fails it on the fifth
   attempt. A slice with legal keys within the lease leaves it in the state the engine chose, at the
   next revision if there are results, and these are ranked 1 to n there; any other slice is dropped.
   */
  ghost predicate Landed(job: Job, s: System, id: string, o: Outcome, t: int)
    requires job.lease.Some?
  {
    && id in s.db.jobs
    && match o
       case StepError(_) =>
         s.db.jobs[id] == job.(state := if job.attempt >= 5 then Failed else Queued, lease := None)
       case Slice(to, results) =>
         if t > job.lease.value.until || !LegalKeys(results) then s.db.jobs[id] == job
         else
           && s.db.jobs[id] == Job(job.workspace, job.hash, to, None, job.attempt, job.iteration + 1,
                                   if results == [] then job.revision else job.revision + 1)
           && (results != [] ==> RanksOf(s.db.rows, id, job.revision + 1, results))
  }

  /** The rows of the revision are exactly the results, ranked from 1. */
  ghost predicate RanksOf(rows: set<ResultRow>, id: string, revision: nat, results: seq<Plan>) {
    && (forall k :: 0 <= k < |results| ==> ResultRow(id, revision, k + 1, results[k]) in rows)
    && (forall row :: row in rows && row.job == id && row.revision == revision ==>
          1 <= row.rank <= |results| && row.plan == results[row.rank - 1])
  }

  lemma AnswerLands(s: System, id: string, token: nat, o: Outcome, t: int)
    requires Inv(s) && id in s.db.jobs && s.db.jobs[id].HeldBy(token) && Live(s.db.jobs[id].state)
    ensures Landed(s.db.jobs[id], Do(s, AnswerOf(id, token, o, t)), id, o, t)
  {
    NeverClashes(s, id);
    if o.Slice? {
      OnlyOwnKeysClash(s, id, o.results);
      if t <= s.db.jobs[id].lease.value.until && LegalKeys(o.results) && o.results != [] {
        SliceIsRanked(s, id, token, o, t);
      }
    }
  }

  /** The unique index has no objection to a live job, whatever state it goes to. */
  lemma NeverClashes(s: System, id: string)
    requires Inv(s) && id in s.db.jobs && Live(s.db.jobs[id].state)
    ensures forall job: Job :: job.workspace == s.db.jobs[id].workspace && job.hash == s.db.jobs[id].hash ==>
      !Clash(s.db.jobs, id, job)
  {
    forall k | k in s.db.jobs && k != id
      ensures !Rivals(s.db.jobs[k], s.db.jobs[id])
    {
    }
  }

  lemma SliceIsRanked(s: System, id: string, token: nat, o: Outcome, t: int)
    requires Inv(s) && id in s.db.jobs && o.Slice? && Commits(s.db, id, token, o.to, o.results, t) && o.results != []
    ensures RanksOf(Do(s, AnswerOf(id, token, o, t)).db.rows, id, s.db.jobs[id].revision + 1, o.results)
  {
    var rev := s.db.jobs[id].revision + 1;
    StoredRevisions(s, id, rev);
    assert forall row :: row in s.db.rows && row.job == id && row.revision == rev ==> HasRows(s.db.rows, id, rev);
    assert Do(s, AnswerOf(id, token, o, t)).db.rows == s.db.rows + RowsOf(id, rev, o.results);
  }

  /** An answer touches its own job and the rows of that, and nothing else. */
  lemma AnswerTouchesOwn(s: System, id: string, token: nat, o: Outcome, t: int, other: string)
    requires other in s.db.jobs && other != id
    ensures var s' := Do(s, AnswerOf(id, token, o, t));
      && other in s'.db.jobs && s'.db.jobs[other] == s.db.jobs[other]
      && forall row: ResultRow :: row.job == other ==> (row in s'.db.rows <==> row in s.db.rows)
  {
  }

  lemma LandedStays(job: Job, s: System, s': System, id: string, o: Outcome, t: int)
    requires job.lease.Some? && Landed(job, s, id, o, t)
    requires id in s'.db.jobs && s'.db.jobs[id] == s.db.jobs[id]
    requires forall row: ResultRow :: row.job == id ==> (row in s'.db.rows <==> row in s.db.rows)
    ensures Landed(job, s', id, o, t)
  {
  }
}
