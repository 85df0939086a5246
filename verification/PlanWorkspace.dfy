/**
 What a market workspace shows: applyJobResults and applyJobState of marketWorkspace.ts, and
 the plan, collect and pollJob of desktop-app/frontend/src/main.tsx that use them.
 */
module PlanWorkspace {
  import opened Wrappers
  import opened PlanJobs
  import opened PlanResults

  /** Where an item on the screen came from; the workspace itself does not record it. */
  datatype Origin = FromSearch | FromCommit(job: string, revision: nat)

  datatype Item = Item(plan: Plan, origin: Origin)

  datatype Session = Session(
    plans: seq<Item>, selected: Option<nat>, job: Option<string>, state: string, revision: nat)

  datatype Mode = Single | Portfolio | Chain

  datatype MarketWorkspace = MarketWorkspace(active: Mode, byMode: map<Mode, Session>) {
    ghost predicate Complete() { forall m: Mode :: m in byMode }
  }

  /** isRealMarketPlan, which only reads the plan. */
  type Filter = Plan -> bool

  function Keep(plans: seq<Plan>, genuine: Filter): seq<Plan> {
    if plans == [] then [] else (if genuine(plans[0]) then [plans[0]] else []) + Keep(plans[1..], genuine)
  }

  function Tagged(plans: seq<Plan>, origin: Origin): seq<Item> {
    seq(|plans|, k requires 0 <= k < |plans| => Item(plans[k], origin))
  }

  // ---------------------------------------------------------------- one session

  /** A poll of a job: the revision it asked from, and the answer. */
  datatype Answer = Answer(job: string, after: nat, page: seq<ResultRow>) {
    function Reached(): nat {
      var revision := LatestRevisionResults(page).0;
      if page != [] && revision > after then revision else after
    }
  }

  /** applyJobResults, which pollJob calls for an answer with items. */
  function ShowResults(x: Session, a: Answer, genuine: Filter): Session {
    if a.page == [] || x.job != Some(a.job) then x
    else
      var valid := Tagged(Keep(LatestRevisionResults(a.page).1, genuine), FromCommit(a.job, a.Reached()));
      var wished := if x.selected.Some? then x.selected.value else 0;
      var selected := if valid == [] then None else Some(if wished < |valid| then wished else |valid| - 1);
      x.(plans := valid, selected := selected, revision := a.Reached())
  }

  /** applyJobState, with the revision that the poll has reached. */
  function ShowState(x: Session, job: string, state: string, reached: nat): Session {
    if x.job != Some(job) then x else x.(state := state, revision := reached)
  }

  /** plan: the session turns to a new job and keeps the plans it shows. */
  function Replan(x: Session, job: string): Session { x.(job := Some(job), state := "queued", revision := 0) }

  /** collect: what the search found replaces the plans; the job stays. */
  function Collected(x: Session, found: seq<Plan>): Session {
    x.(plans := Tagged(found, FromSearch), selected := if found == [] then None else Some(0))
  }

  /** One whole turn of pollJob. */
  function Turn(x: Session, a: Answer, state: string, genuine: Filter): Session {
    ShowState(ShowResults(x, a, genuine), a.job, state, a.Reached())
  }

  /** The filter takes out exactly what is not genuine, and keeps the order. */
  lemma {:induction false} KeepIsFilter(plans: seq<Plan>, genuine: Filter, p: Plan)
    ensures multiset(Keep(plans, genuine))[p] == if genuine(p) then multiset(plans)[p] else 0
  {
    if plans != [] {
      KeepIsFilter(plans[1..], genuine, p);
      assert plans == [plans[0]] + plans[1..];
    }
  }

  lemma {:induction false} KeepKeepsOrder(a: seq<Plan>, b: seq<Plan>, genuine: Filter)
    ensures Keep(a + b, genuine) == Keep(a, genuine) + Keep(b, genuine)
  {
    if a == [] {
      assert a + b == b;
    } else {
      assert (a + b)[1..] == a[1..] + b;
      KeepKeepsOrder(a[1..], b, genuine);
    }
  }

  /** After an answer the selection is still the same place in the list, or the last one there is. */
  lemma SelectionFollows(x: Session, a: Answer, genuine: Filter)
    requires a.page != [] && x.job == Some(a.job)
    ensures var y := ShowResults(x, a, genuine);
      && (y.selected == None <==> y.plans == [])
      && (y.selected.Some? ==>
            && y.selected.value < |y.plans|
            && (x.selected.Some? && x.selected.value < |y.plans| ==> y.selected == x.selected)
            && (x.selected.Some? && x.selected.value >= |y.plans| ==> y.selected.value == |y.plans| - 1)
            && (x.selected == None ==> y.selected.value == 0))
      && a.after <= y.revision && y.job == x.job && y.state == x.state
  {
  }

  /** A search selects the first plan it found; a new job waits in the queue. */
  lemma SearchAndReplan(x: Session, found: seq<Plan>, job: string)
    ensures var y := Collected(x, found);
      && |y.plans| == |found| && (forall k :: 0 <= k < |found| ==> y.plans[k] == Item(found[k], FromSearch))
      && (y.selected == if found == [] then None else Some(0))
      && y.job == x.job && y.state == x.state && y.revision == x.revision
    ensures Replan(x, job) == Session(x.plans, x.selected, Some(job), "queued", 0)
  {
  }

  // ---------------------------------------------------------------- an answer

  /** The plans are those of one whole commit of the job. */
  ghost predicate OneCommit(s: System, plans: seq<Item>, job: string, revision: nat, genuine: Filter) {
    exists i :: WroteRevision(s.log, i, job, revision) &&
      plans == Tagged(Keep(s.log[i].results, genuine), FromCommit(job, revision))
  }

  /** Whatever the session showed before, an answer with items puts exactly one commit on the screen. */
  lemma AnswerShowsOneCommit(s: System, x: Session, a: Answer, genuine: Filter)
    requires Inv(s) && IsPage(s.db.rows, a.job, a.after, a.page) && a.page != [] && x.job == Some(a.job)
    ensures a.job in s.db.jobs
    ensures var r := s.db.jobs[a.job].revision;
      var shown := ShowResults(x, a, genuine);
      && r > a.after && shown.revision == r && OneCommit(s, shown.plans, a.job, r, genuine)
  {
    PageRows(s.db.rows, a.job, a.after, a.page);
    RowsHaveJobs(s);
    PageIsOneCommit(s, a.job, a.after, a.page);
    var i :| WroteRevision(s.log, i, a.job, s.db.jobs[a.job].revision) && a.page == Batch(s.log[i]);
    ClientReadsBatch(s.log[i]);
  }

  /** A turn brings the session to its job's current revision; without items the plans stay as they are. */
  lemma TurnReachesRevision(s: System, x: Session, v: Viewer, page: seq<ResultRow>, state: string, genuine: Filter)
    requires Inv(s) && v.job in s.db.jobs && ShowsOneCommit(s, v) && IsPage(s.db.rows, v.job, v.after, page)
    requires x.job == Some(v.job)
    ensures var y := Turn(x, Answer(v.job, v.after, page), state, genuine);
      && y.revision == s.db.jobs[v.job].revision && y.state == state && y.job == x.job
      && if page == [] then y.plans == x.plans else OneCommit(s, y.plans, v.job, y.revision, genuine)
  {
    PollCatchesUp(s, v, page);
    if page != [] {
      AnswerShowsOneCommit(s, x, Answer(v.job, v.after, page), genuine);
    }
  }

  /** In the workspace the answer reaches the session of its mode, if that still is about its job, and no other. */
  lemma OthersUntouched(w: MarketWorkspace, mode: Mode, other: Mode, a: Answer, state: string, genuine: Filter)
    requires w.Complete() && (other != mode || w.byMode[mode].job != Some(a.job))
    ensures w.byMode[mode := Turn(w.byMode[mode], a, state, genuine)][other] == w.byMode[other]
  {
  }

  // ---------------------------------------------------------------- runs

  /** The server, one session, the answers read so far, and the job IDs the server has given out. */
  datatype Screen = Screen(sys: System, session: Session, read: set<Answer>, used: set<string>)

  datatype Act =
    | Serve(step: Step)
    | StartJob(job: string)
    | Collect(found: seq<Plan>)
    | Select(index: Option<nat>)
    | Read(answer: Answer)
    | Show(answer: Answer)
    | State(job: string, state: string, reached: nat)

  /** A poll reads and shows in two steps, so answers may be shown late, or after a newer one. */
  ghost function Do(c: Screen, act: Act, genuine: Filter): Screen {
    match act
    case Serve(step) => c.(sys := PlanJobs.Do(c.sys, step))
    case StartJob(job) =>
      if job in c.used then c else c.(session := Replan(c.session, job), used := c.used + {job})
    case Collect(found) => c.(session := Collected(c.session, found))
    case Select(index) =>
      if index.Some? && index.value >= |c.session.plans| then c else c.(session := c.session.(selected := index))
    case Read(a) => if IsPage(c.sys.db.rows, a.job, a.after, a.page) then c.(read := c.read + {a}) else c
    case Show(a) => if a in c.read then c.(session := ShowResults(c.session, a, genuine)) else c
    case State(job, state, reached) => c.(session := ShowState(c.session, job, state, reached))
  }

  ghost function Run(c: Screen, acts: seq<Act>, genuine: Filter): Screen
    decreases |acts|
  {
    if acts == [] then c else Run(Do(c, acts[0], genuine), acts[1..], genuine)
  }

  /** Nothing on the screen, or one whole commit of the session's own job. */
  ghost predicate ShowsOwn(c: Screen, genuine: Filter) {
    c.session.plans == [] ||
    exists job, r :: c.session.job == Some(job) && OneCommit(c.sys, c.session.plans, job, r, genuine)
  }

  /** What the plans can be at all, and where the answers came from. */
  ghost predicate Sound(c: Screen, genuine: Filter) {
    var plans := c.session.plans;
    var origin := Searched(plans) || exists job, r :: OneCommit(c.sys, plans, job, r, genuine) && job in c.used;
    var answers := forall a {:trigger WasRead(c.sys, a)} :: a in c.read ==> WasRead(c.sys, a);
    && Inv(c.sys) && origin && answers && (c.session.job.Some? ==> c.session.job.value in c.used)
    && (c.session.selected.Some? ==> c.session.selected.value < |plans|)
  }

  predicate Searched(plans: seq<Item>) { forall k :: 0 <= k < |plans| ==> plans[k].origin == FromSearch }

  /** The answer holds nothing, or the whole of one commit. */
  ghost predicate WasRead(s: System, a: Answer) {
    a.page == [] || exists i :: WroteRevision(s.log, i, a.job, a.Reached()) && a.page == Batch(s.log[i])
  }

  /** What the plans on the screen are tagged with. */
  predicate OwnTag(x: Session) {
    x.plans == [] || (x.plans[0].origin.FromCommit? && x.job == Some(x.plans[0].origin.job))
  }

  lemma OwnTagIsOwn(c: Screen, genuine: Filter)
    requires Sound(c, genuine)
    ensures ShowsOwn(c, genuine) <==> OwnTag(c.session)
  {
    var plans := c.session.plans;
    if plans != [] && ShowsOwn(c, genuine) {
      var job, r :| c.session.job == Some(job) && OneCommit(c.sys, plans, job, r, genuine);
      assert plans[0].origin == FromCommit(job, r);
    }
    if plans != [] && OwnTag(c.session) {
      var job, r :| OneCommit(c.sys, plans, job, r, genuine);
      assert plans[0].origin == FromCommit(job, r);
    }
  }

  lemma CommitStays(s: System, step: Step, plans: seq<Item>, job: string, r: nat, genuine: Filter)
    requires OneCommit(s, plans, job, r, genuine)
    ensures OneCommit(PlanJobs.Do(s, step), plans, job, r, genuine)
  {
    var i :| WroteRevision(s.log, i, job, r) && plans == Tagged(Keep(s.log[i].results, genuine), FromCommit(job, r));
    assert WroteRevision(PlanJobs.Do(s, step).log, i, job, r);
  }

  lemma ReadStays(s: System, step: Step, a: Answer)
    requires WasRead(s, a)
    ensures WasRead(PlanJobs.Do(s, step), a)
  {
    if a.page != [] {
      var i :| WroteRevision(s.log, i, a.job, a.Reached()) && a.page == Batch(s.log[i]);
      assert WroteRevision(PlanJobs.Do(s, step).log, i, a.job, a.Reached());
    }
  }

  lemma NowRead(s: System, a: Answer)
    requires Inv(s) && IsPage(s.db.rows, a.job, a.after, a.page)
    ensures WasRead(s, a)
  {
    if a.page != [] {
      PageRows(s.db.rows, a.job, a.after, a.page);
      RowsHaveJobs(s);
      PageIsOneCommit(s, a.job, a.after, a.page);
      var i :| WroteRevision(s.log, i, a.job, s.db.jobs[a.job].revision) && a.page == Batch(s.log[i]);
      ClientReadsBatch(s.log[i]);
    }
  }

  lemma ShowsRead(s: System, x: Session, a: Answer, genuine: Filter)
    requires WasRead(s, a) && a.page != [] && x.job == Some(a.job)
    ensures OneCommit(s, ShowResults(x, a, genuine).plans, a.job, a.Reached(), genuine)
  {
    var i :| WroteRevision(s.log, i, a.job, a.Reached()) && a.page == Batch(s.log[i]);
    ClientReadsBatch(s.log[i]);
  }

  /** The player's selection and the job's state reach the session as they are. */
  lemma ActsReachSession(c: Screen, index: Option<nat>, job: string, state: string, reached: nat, genuine: Filter)
    ensures index.None? || index.value < |c.session.plans| ==>
      Do(c, Select(index), genuine) == c.(session := c.session.(selected := index))
    ensures index.Some? && index.value >= |c.session.plans| ==> Do(c, Select(index), genuine) == c
    ensures Do(c, State(job, state, reached), genuine) ==
      if c.session.job == Some(job) then c.(session := c.session.(state := state, revision := reached)) else c
  {
  }

  lemma ActKeepsSound(c: Screen, act: Act, genuine: Filter)
    requires Sound(c, genuine)
    ensures Sound(Do(c, act, genuine), genuine)
  {
    var c' := Do(c, act, genuine);
    match act
    case Serve(step) =>
      StepKeepsInv(c.sys, step);
      forall a | a in c'.read
        ensures WasRead(c'.sys, a)
      {
        assert WasRead(c.sys, a);
        ReadStays(c.sys, step, a);
      }
      if !Searched(c.session.plans) {
        var job, r :| OneCommit(c.sys, c.session.plans, job, r, genuine) && job in c.used;
        CommitStays(c.sys, step, c.session.plans, job, r, genuine);
      }
    case Read(a) =>
      if c'.read != c.read {
        NowRead(c.sys, a);
      }
    case Show(a) =>
      if a in c.read && a.page != [] && c.session.job == Some(a.job) {
        assert WasRead(c.sys, a);
        ShowsRead(c.sys, c.session, a, genuine);
      }
    case _ =>
  }

  lemma {:induction false} RunKeepsSound(c: Screen, acts: seq<Act>, genuine: Filter)
    requires Sound(c, genuine)
    ensures Sound(Run(c, acts, genuine), genuine)
    decreases |acts|
  {
    if acts != [] {
      ActKeepsSound(c, acts[0], genuine);
      RunKeepsSound(Do(c, acts[0], genuine), acts[1..], genuine);
    }
  }

  /**
   Whether the screen is the job's own, from what happened: there were no plans when the job was
   planned, or an answer with items has been shown since, and no search has found any after it.
   */
  ghost predicate OwnAfter(c: Screen, own: bool, acts: seq<Act>, genuine: Filter)
    decreases |acts|
  {
    if acts == [] then own
    else
      var now := match acts[0]
        case StartJob(job) => if job in c.used then own else c.session.plans == []
        case Collect(found) => found == []
        case Show(a) => own || (a in c.read && a.page != [] && c.session.job == Some(a.job))
        case _ => own;
      OwnAfter(Do(c, acts[0], genuine), now, acts[1..], genuine)
  }

  lemma OwnTagMoves(c: Screen, act: Act, genuine: Filter)
    requires Sound(c, genuine)
    ensures OwnTag(Do(c, act, genuine).session) <==>
      match act
      case StartJob(job) => if job in c.used then OwnTag(c.session) else c.session.plans == []
      case Collect(found) => found == []
      case Show(a) => OwnTag(c.session) || (a in c.read && a.page != [] && c.session.job == Some(a.job))
      case _ => OwnTag(c.session)
  {
    if act.StartJob? && c.session.plans != [] && !Searched(c.session.plans) {
      var job, r :| OneCommit(c.sys, c.session.plans, job, r, genuine) && job in c.used;
      assert c.session.plans[0].origin == FromCommit(job, r);
    }
  }

  /** In every run the screen shows a commit of its own job exactly then; otherwise it shows another list. */
  lemma {:induction false} ScreenIsOwnExactly(c: Screen, acts: seq<Act>, genuine: Filter)
    requires Sound(c, genuine)
    ensures ShowsOwn(Run(c, acts, genuine), genuine) <==> OwnAfter(c, ShowsOwn(c, genuine), acts, genuine)
    decreases |acts|
  {
    OwnTagIsOwn(c, genuine);
    if acts != [] {
      var c' := Do(c, acts[0], genuine);
      ActKeepsSound(c, acts[0], genuine);
      OwnTagMoves(c, acts[0], genuine);
      OwnTagIsOwn(c', genuine);
      ScreenIsOwnExactly(c', acts[1..], genuine);
    }
  }

  /** A new job whose first answer has not come yet stands above the plans of the job before it. */
  lemma ReplanShowsOldPlans(c: Screen, job: string, genuine: Filter)
    requires Sound(c, genuine) && c.session.plans != [] && job !in c.used
    ensures var c' := Do(c, StartJob(job), genuine);
      && c'.session.job == Some(job) && c'.session.revision == 0 && c'.session.plans == c.session.plans
      && !ShowsOwn(c', genuine)
  {
    ActKeepsSound(c, StartJob(job), genuine);
    OwnTagMoves(c, StartJob(job), genuine);
    OwnTagIsOwn(Do(c, StartJob(job), genuine), genuine);
  }

  // ---------------------------------------------------------------- a run of two jobs

  const EMPTY := Screen(INIT, Session([], None, None, "", 0), {}, {})
  const AT := Workspace("account", 0, "single")
  const FOUND: Plan := PlanJobs.Plan("key", 1.0, "payload")
  const ROW := ResultRow("a", 1, 1, FOUND)

  /** Job "a" commits a plan, which the client reads and shows; then it plans job "b". */
  function Committing(): seq<Act> {
    [Serve(CreateJob("a", AT, "h")), Serve(ClaimJob("a", 1, 0, 60)), Serve(CommitJob("a", 1, Watching, [FOUND], 0))]
  }

  function Showing(): seq<Act> { [StartJob("a"), Read(Answer("a", 0, [ROW])), Show(Answer("a", 0, [ROW]))] }

  function Replanning(): seq<Act> { [Serve(CreateJob("b", AT, "g")), StartJob("b")] }

  predicate All(p: Plan) { true }

  /** Job "b" has no revision yet, and the screen shows the plans of job "a". */
  lemma OldPlansUnderNewJob()
    ensures var c := Run(EMPTY, Committing() + Showing() + Replanning(), All);
      && c.session.job == Some("b") && c.session.revision == 0
      && c.session.plans == [Item(FOUND, FromCommit("a", 1))] && !ShowsOwn(c, All)
  {
    var c0 := Run(EMPTY, Committing(), All);
    var c1 := Run(c0, Showing(), All);
    PlanIsCommitted();
    PlanIsShown(c0);
    RunKeepsSound(EMPTY, Committing() + Showing(), All);
    RunAppend(EMPTY, Committing(), Showing(), All);
    RunAppend(EMPTY, Committing() + Showing(), Replanning(), All);
    var c2 := Do(c1, Replanning()[0], All);
    ActKeepsSound(c1, Replanning()[0], All);
    TwoActs(c1, Replanning(), All);
    ReplanShowsOldPlans(c2, "b", All);
  }

  /** A job shows its commit, and then a search puts what it found under the same job and revision. */
  lemma SearchUnderRunningJob(found: seq<Plan>)
    requires found != []
    ensures var c := Run(EMPTY, Committing() + Showing() + [Collect(found)], All);
      && c.session.job == Some("a") && c.session.revision == 1
      && c.session.plans == Tagged(found, FromSearch) && !ShowsOwn(c, All)
  {
    var c0 := Run(EMPTY, Committing(), All);
    var c1 := Run(c0, Showing(), All);
    PlanIsCommitted();
    PlanIsShown(c0);
    RunAppend(EMPTY, Committing(), Showing(), All);
    RunKeepsSound(EMPTY, Committing() + Showing(), All);
    RunAppend(EMPTY, Committing() + Showing(), [Collect(found)], All);
    var c2 := Do(c1, Collect(found), All);
    assert Run(c1, [Collect(found)], All) == c2 by {
      assert [Collect(found)][1..] == [] && Run(c2, [], All) == c2;
    }
    ActKeepsSound(c1, Collect(found), All);
    OwnTagMoves(c1, Collect(found), All);
    OwnTagIsOwn(c2, All);
  }

  lemma PlanIsCommitted()
    ensures var c := Run(EMPTY, Committing(), All);
      c.session == EMPTY.session && c.used == {} && c.sys.db.rows == {ROW}
  {
    var s1 := PlanJobs.Do(INIT, CreateJob("a", AT, "h"));
    CreateNeverClashes(INIT.db, "a", AT, "h");
    assert s1.db.jobs == map["a" := NewJob(AT, "h")];
    var s2 := PlanJobs.Do(s1, ClaimJob("a", 1, 0, 60));
    assert s2.db.jobs == map["a" := NewJob(AT, "h").Claim(1, 60)] && s2.db.rows == {};
    CommitSucceeds(s2);
    ThreeActs(EMPTY, Committing(), All);
  }

  lemma CommitSucceeds(s: System)
    requires s.db.jobs == map["a" := NewJob(AT, "h").Claim(1, 60)] && s.db.rows == {}
    ensures PlanJobs.Do(s, CommitJob("a", 1, Watching, [FOUND], 0)).db.rows == {ROW}
  {
    assert Commits(s.db, "a", 1, Watching, [FOUND], 0);
    var found := [FOUND];
    assert forall row :: row in RowsOf("a", 1, found) ==> row == ROW;
    assert ResultRow("a", 1, 0 + 1, found[0]) in RowsOf("a", 1, found);
  }

  lemma PlanIsShown(c: Screen)
    requires c.session == EMPTY.session && c.used == {} && c.sys.db.rows == {ROW}
    ensures var d := Run(c, Showing(), All);
      && d.session.plans == [Item(FOUND, FromCommit("a", 1))] && d.used == {"a"}
      && d.session.job == Some("a") && d.session.revision == 1
  {
    var a := Answer("a", 0, [ROW]);
    forall row
      ensures Newest({ROW}, "a", 0, row) <==> row in [ROW]
    {
      assert row in {ROW} <==> row == ROW;
    }
    assert IsPage(c.sys.db.rows, "a", 0, [ROW]);
    assert Batch(Entry("a", 1, 1, [FOUND])) == [ROW];
    ClientReadsBatch(Entry("a", 1, 1, [FOUND]));
    assert Keep([FOUND], All) == [FOUND];
    assert Tagged([FOUND], FromCommit("a", 1)) == [Item(FOUND, FromCommit("a", 1))];
    ThreeActs(c, Showing(), All);
  }

  lemma TwoActs(c: Screen, acts: seq<Act>, genuine: Filter)
    requires |acts| == 2
    ensures Run(c, acts, genuine) == Do(Do(c, acts[0], genuine), acts[1], genuine)
  {
    assert acts[1..][1..] == [];
    assert Run(Do(c, acts[0], genuine), acts[1..], genuine) == Do(Do(c, acts[0], genuine), acts[1], genuine);
  }

  lemma ThreeActs(c: Screen, acts: seq<Act>, genuine: Filter)
    requires |acts| == 3
    ensures Run(c, acts, genuine) == Do(Do(Do(c, acts[0], genuine), acts[1], genuine), acts[2], genuine)
  {
    TwoActs(Do(c, acts[0], genuine), acts[1..], genuine);
  }

  lemma {:induction false} RunAppend(c: Screen, a: seq<Act>, b: seq<Act>, genuine: Filter)
    ensures Run(c, a + b, genuine) == Run(Run(c, a, genuine), b, genuine)
    decreases |a|
  {
    if a == [] {
      assert a + b == b;
    } else {
      assert (a + b)[1..] == a[1..] + b;
      RunAppend(Do(c, a[0], genuine), a[1..], b, genuine);
    }
  }
}
