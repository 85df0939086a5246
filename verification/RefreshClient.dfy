/**
 desktop-app/internal/app/relay.go: refreshTokenOnce, SaveOAuthCredentials and the single
 retry in doRequest, against the server of SessionProtocol.

 One client owns the token families of its logins. `refreshMu` makes a refresh exclusive:
 read both tokens, send, save to the vault, then set the fields. Logins save their
 credentials without that mutex, and the server serves everybody else meanwhile. A refresh
 may be given up at any point: before the server saw it, before its answer came, or after
 the answer, when the vault could not be written. What was sent may still arrive, even twice.
 */
module RefreshClient {
  import opened Wrappers
  import opened SessionStore
  import opened SessionProtocol

  /** Who holds refreshMu, and how far that call has got. */
  datatype Lock =
    | Free
    | Sending(sent: Session)                    // both tokens read, the request is under way
    | Asking(sent: Session, op: nat)            // the server has looked the token up
    | Holding(sent: Session, op: nat, got: Session, inVault: bool)  // the response is in

  /**
   `memory` is the accessToken/refreshToken pair; `logins` are the client's pending issues.
   History variables: the refreshes of the client that reached the server, with the credential
   each presented, those of them that the client gave up, what it sent and gave up before any of
   it arrived, and the credentials it has written to the vault.
   */
  datatype Joint = Joint(
    world: World, families: set<string>, memory: Option<Session>, lock: Lock, logins: map<nat, string>,
    asked: map<nat, Session>, given: set<nat>, strays: set<Session>, saved: set<Session>)

  const START := Joint(INIT, {}, None, Free, map[], map[], {}, {}, {})

  datatype Move =
    | Serve(step: Step)
    | Login(op: nat, account: string, device: string, names: Names, accessExpires: int, expires: int)
    | StoreLogin(login: nat)
    | Enter(failedAccess: string)
    | Arrive(refreshOp: nat, now: int)
    | StrayArrives(stray: Session, refreshOp: nat, now: int)
    | Receive
    | SaveVault
    | SetMemory
    | Refused
    | GiveUp
    | Clear

  /** Nobody else presents a token of this client's families. */
  ghost predicate Foreign(j: Joint, s: Step) {
    s.BeginRefresh? ==>
      var found := FindRefresh(j.world.sessions, s.presented);
      found.Some? ==> found.value.family !in j.families
  }

  /** The entry of refreshTokenOnce under the mutex: reuse newer tokens, or ask the server. */
  ghost predicate Asks(j: Joint, failedAccess: string) {
    && j.lock.Free?
    && j.memory.Some?
    && !(failedAccess != "" && j.memory.value.accessHash != "" && j.memory.value.accessHash != failedAccess)
  }

  ghost predicate Answered(j: Joint) {
    j.lock.Asking? && j.lock.op in j.world.ops && j.world.ops[j.lock.op].Done?
  }

  ghost function LookUpBy(j: Joint, op: nat, c: Session, now: int): Joint {
    j.(world := Do(j.world, BeginRefresh(op, c.refreshHash, now)), asked := j.asked[op := c])
  }

  ghost function Act(j: Joint, m: Move): Joint {
    match m
    case Serve(s) =>
      if Foreign(j, s) then j.(world := Do(j.world, s)) else j
    case Login(op, account, device, n, accessExpires, expires) =>
      if op in j.world.ops || n.family in j.world.families then j
      else if !Active(j.world, account) then
        j.(world := Do(j.world, BeginIssue(op, account, device, n, accessExpires, expires)))
      else j.(world := Do(j.world, BeginIssue(op, account, device, n, accessExpires, expires)),
              families := j.families + {n.family}, logins := j.logins[op := n.family])
    case StoreLogin(op) =>
      if op in j.logins && op in j.world.ops && Won(j.world, op)
      then j.(memory := Some(j.world.ops[op].result.session), logins := j.logins - {op},
              saved := j.saved + {j.world.ops[op].result.session})
      else j
    case Enter(failedAccess) =>
      if Asks(j, failedAccess) then j.(lock := Sending(j.memory.value)) else j
    case Arrive(op, now) =>
      if j.lock.Sending? && op !in j.world.ops
      then LookUpBy(j, op, j.lock.sent, now).(lock := Asking(j.lock.sent, op))
      else j
    case StrayArrives(c, op, now) =>
      if c in j.strays && op !in j.world.ops
      then LookUpBy(j, op, c, now).(given := j.given + {op})
      else j
    case Receive =>
      if Answered(j) && Won(j.world, j.lock.op)
      then j.(lock := Holding(j.lock.sent, j.lock.op, j.world.ops[j.lock.op].result.session, false)) else j
    case SaveVault =>
      if j.lock.Holding? then j.(lock := j.lock.(inVault := true), saved := j.saved + {j.lock.got}) else j
    case SetMemory =>
      if j.lock.Holding? && j.lock.inVault then j.(memory := Some(j.lock.got), lock := Free) else j
    case Refused =>
      if Answered(j) && j.world.ops[j.lock.op].result.Denied? then j.(lock := Free) else j
    case GiveUp =>
      if j.lock.Free? then j
      else if j.lock.Sending? then j.(lock := Free, strays := j.strays + {j.lock.sent})
      else j.(lock := Free, given := j.given + {j.lock.op})
    case Clear =>
      j.(memory := None)
  }

  ghost function Play(j: Joint, moves: seq<Move>): Joint
    decreases |moves|
  {
    if moves == [] then j else Play(Act(j, moves[0]), moves[1..])
  }

  // ---------------------------------------------------------------- the invariant

  ghost predicate Won(w: World, op: nat) { op in w.ops && w.ops[op].Done? && w.ops[op].result.Granted? }

  /** The session was replaced by a rotation of its own token. */
  predicate Superseded(s: Session) { s.replacedBy != "" || s.rotatedAt.Some? }

  ghost predicate Known(w: World, c: Session) {
    c.id in w.sessions && w.sessions[c.id].family == c.family && w.sessions[c.id].refreshHash == c.refreshHash
  }

  ghost predicate Own(j: Joint, c: Session) { Known(j.world, c) && c.family in j.families }

  ghost predicate Concerns(o: Op, family: string) {
    (o.Refreshing? || o.Rotating?) && o.current.family == family
  }

  /** A refresh of the client at the server, in progress or answered. */
  ghost predicate AskInv(j: Joint, op: nat)
    requires op in j.asked
  {
    var c := j.asked[op];
    && Own(j, c) && op in j.world.ops
    && match j.world.ops[op]
       case Refreshing(p, s, _) => p == c.refreshHash && s.id == c.id
       case Rotating(p, s, _, _) => p == c.refreshHash && s.id == c.id
       case Killing(_, _) => true
       case Done(Denied(_)) => true
       case Done(Granted(n)) => Own(j, n) && n.family == c.family && n.id != c.id && Superseded(j.world.sessions[c.id])
       case _ => false
  }

  /** A granted refresh of the credential. */
  ghost predicate RotatedBy(j: Joint, op: nat, id: string) {
    op in j.asked && j.asked[op].id == id && Won(j.world, op)
  }

  /** A session of the client is superseded only by a refresh of its own that was granted. */
  ghost predicate CauseInv(j: Joint, id: string)
    requires id in j.world.sessions
  {
    j.world.sessions[id].family in j.families && Superseded(j.world.sessions[id]) ==> exists op :: RotatedBy(j, op, id)
  }

  /** Nobody has presented the credential, and nobody is about to. */
  ghost predicate Fresh(j: Joint, c: Session) {
    var memory := j.memory.Some? ==> j.memory.value.id != c.id;
    var presented := (forall op :: op in j.asked ==> j.asked[op].id != c.id) &&
      (forall t :: t in j.strays ==> t.id != c.id);
    memory && presented && Own(j, c)
  }

  ghost function LockFamily(j: Joint): Option<string> {
    if j.lock.Free? then None else Some(j.lock.sent.family)
  }

  /** The family of a login that is not stored yet: nobody has presented any of its tokens. */
  ghost predicate FamilyUnused(j: Joint, f: string) {
    var asked := forall op :: op in j.asked ==> j.asked[op].family != f;
    var strays := forall t :: t in j.strays ==> t.family != f;
    asked && strays && LockFamily(j) != Some(f) && (j.memory.Some? ==> j.memory.value.family != f)
  }

  ghost predicate LoginInv(j: Joint, op: nat)
    requires op in j.logins
  {
    var f := j.logins[op];
    && f in j.families && op in j.world.ops && op !in j.asked && FamilyUnused(j, f)
    && match j.world.ops[op]
       case Issuing(s) => s.family == f
       case Done(Denied(_)) => true
       case Done(Granted(s)) => s.family == f && Own(j, s)
       case _ => false
  }

  ghost predicate LockInv(j: Joint) {
    match j.lock
    case Free => true
    case Sending(sent) => Own(j, sent)
    case Asking(sent, op) =>
      && Own(j, sent) && op in j.asked && j.asked[op] == sent && op !in j.given
      && (Won(j.world, op) ==> Fresh(j, j.world.ops[op].result.session))
    case Holding(sent, op, got, _) =>
      && Own(j, sent) && op in j.asked && j.asked[op] == sent && op !in j.given
      && Won(j.world, op) && j.world.ops[op].result.session == got && Fresh(j, got)
  }

  ghost predicate IsCurrent(j: Joint, op: nat) { (j.lock.Asking? || j.lock.Holding?) && j.lock.op == op }

  /** A refresh that is over and was not given up: its answer was kept, so its token is not used again. */
  ghost predicate OverInv(j: Joint, op: nat)
    requires op in j.asked
  {
    op !in j.given && !IsCurrent(j, op) ==>
      && op in j.world.ops && j.world.ops[op].Done?
      && (Won(j.world, op) ==>
            && (j.memory.Some? ==> j.memory.value.id != j.asked[op].id)
            && (!j.lock.Free? ==> j.lock.sent.id != j.asked[op].id))
  }

  /** Every refresh and every issue in a family of the client is its own. */
  ghost predicate OthersInv(j: Joint) {
    var refreshes := forall op, f {:trigger Concerns(j.world.ops[op], f)} ::
      op in j.world.ops && f in j.families && Concerns(j.world.ops[op], f) ==> op in j.asked;
    var issues := forall op {:trigger IssuingOp(j.world, op)} ::
      IssuingOp(j.world, op) && j.world.ops[op].session.family in j.families ==>
        op in j.logins && j.logins[op] == j.world.ops[op].session.family;
    refreshes && issues
  }

  ghost predicate HistoryInv(j: Joint) {
    var asked := forall op {:trigger AskInv(j, op)} :: op in j.asked ==> AskInv(j, op);
    var over := forall op {:trigger OverInv(j, op)} :: op in j.asked ==> OverInv(j, op);
    var causes := forall id {:trigger CauseInv(j, id)} :: id in j.world.sessions ==> CauseInv(j, id);
    asked && over && causes
  }

  ghost predicate ClientInv(j: Joint) {
    var memory := j.memory.Some? ==> Own(j, j.memory.value);
    var strays := forall c {:trigger Own(j, c)} :: c in j.strays ==> Own(j, c);
    memory && strays && LockInv(j) && j.given <= j.asked.Keys
  }

  ghost predicate LoginsInv(j: Joint) {
    var each := forall op {:trigger LoginInv(j, op)} :: op in j.logins ==> LoginInv(j, op);
    var distinct := forall a, b :: a in j.logins && b in j.logins && j.logins[a] == j.logins[b] ==> a == b;
    each && distinct
  }

  ghost predicate Safe(j: Joint) {
    var server := Inv(j.world) && j.families <= j.world.families && OthersInv(j);
    var client := HistoryInv(j) && ClientInv(j) && LoginsInv(j);
    server && client
  }

  // ---------------------------------------------------------------- a server step, seen by the client

  lemma OpStarts(w: World, s: Step, op: nat)
    requires op !in w.ops && op in Do(w, s).ops
    ensures StartOf(w, s, Do(w, s).ops[op])
  {
    if s.EndRefresh? && s.op in w.ops && w.ops[s.op].Rotating? {
      RotationAnswers(w, s.op, w.ops[s.op]);
      assert false;
    } else if s.BeginRefresh? {
    } else {
      OtherOpStarts(w, s, op);
    }
  }

  lemma OtherOpStarts(w: World, s: Step, op: nat)
    requires op !in w.ops && op in Do(w, s).ops && !s.BeginRefresh? && !s.EndRefresh?
    ensures StartOf(w, s, Do(w, s).ops[op])
  {
    assert s.BeginIssue? || s.BeginAuth? || s.BeginRevoke?;
  }

  ghost predicate StartOf(w: World, s: Step, p: Op) {
    match p
    case Refreshing(presented, cur, _) =>
      s.BeginRefresh? && presented == s.presented && FindRefresh(w.sessions, s.presented) == Some(cur)
    case Killing(f, _) =>
      s.BeginRefresh? && FindRefresh(w.sessions, s.presented).Some? &&
        FindRefresh(w.sessions, s.presented).value.family == f
    case Rotating(_, _, _, _) => false
    case Issuing(session) => s.BeginIssue? && session.family == s.names.family && s.names.family !in w.families
    case _ => true
  }

  /** The step is the rotation of session `id`. */
  ghost predicate Rotates(w: World, s: Step, id: string) {
    && s.EndRefresh? && s.op in w.ops && w.ops[s.op].Rotating? && w.ops[s.op].current.id == id
    && Won(Do(w, s), s.op)
  }

  /** Rotation is the only step that supersedes a session. */
  lemma SupersededBy(w: World, s: Step, id: string)
    requires Inv(w) && id in w.sessions
    ensures id in Do(w, s).sessions
    ensures Superseded(Do(w, s).sessions[id]) <==> Superseded(w.sessions[id]) || Rotates(w, s, id)
  {
    if s.EndRefresh? {
      if s.op in w.ops && w.ops[s.op].Rotating? {
        var o := w.ops[s.op];
        assert OpInv(w, o) && Proper(w.sessions[o.current.id]);
        RotateCases(w.sessions, o.current.id, o.next, o.now);
      }
    } else {
      OtherStepSupersedesNone(w, s, id);
    }
  }

  lemma OtherStepSupersedesNone(w: World, s: Step, id: string)
    requires id in w.sessions && !s.EndRefresh?
    ensures id in Do(w, s).sessions && Superseded(Do(w, s).sessions[id]) == Superseded(w.sessions[id])
  {
  }

  lemma NewSessionIsCurrent(w: World, s: Step, id: string)
    requires Inv(w) && id !in w.sessions && id in Do(w, s).sessions
    ensures !Superseded(Do(w, s).sessions[id])
  {
    if s.EndRefresh? {
      NextIsCurrent(w, s.op, id);
    } else {
      assert s.EndIssue? && OpInv(w, w.ops[s.op]);
    }
  }

  lemma NextIsCurrent(w: World, op: nat, id: string)
    requires Inv(w) && id !in w.sessions && id in Do(w, EndRefresh(op)).sessions
    ensures !Superseded(Do(w, EndRefresh(op)).sessions[id])
  {
    var o := w.ops[op];
    assert OpInv(w, o) && Proper(w.sessions[o.current.id]);
    RotateCases(w.sessions, o.current.id, o.next, o.now);
  }

  /** A granted rotation supersedes its token and stores a session that was not there before. */
  lemma GrantRotates(w: World, s: Step, op: nat)
    requires Inv(w) && op in w.ops && w.ops[op].Rotating? && Won(Do(w, s), op)
    ensures var n := Do(w, s).ops[op].result.session;
      && Rotates(w, s, w.ops[op].current.id) && s.op == op
      && n.id !in w.sessions && n.family == w.ops[op].current.family && Known(Do(w, s), n)
  {
    if !Advances(s, op, w.ops[op]) {
      OpUnmoved(w, s, op);
      assert false;
    }
    var o := w.ops[op];
    assert OpInv(w, o) && Proper(w.sessions[o.current.id]);
    RotateCases(w.sessions, o.current.id, o.next, o.now);
  }

  lemma IssueIsKnown(w: World, s: Step, op: nat)
    requires op in w.ops && w.ops[op].Issuing? && Won(Do(w, s), op)
    ensures Do(w, s).ops[op].result.session == w.ops[op].session && Known(Do(w, s), w.ops[op].session)
  {
    if !Advances(s, op, w.ops[op]) {
      OpUnmoved(w, s, op);
      assert false;
    }
  }

  lemma KnownKept(w: World, s: Step, c: Session)
    requires Inv(w) && Known(w, c)
    ensures Known(Do(w, s), c)
  {
    StepGrows(w, s);
    assert Kept(w.sessions[c.id], Do(w, s).sessions[c.id]);
  }

  lemma GrantedStays(w: World, s: Step, op: nat)
    requires op in w.ops && w.ops[op].Done?
    ensures op in Do(w, s).ops && Do(w, s).ops[op] == w.ops[op]
  {
    OpUnmoved(w, s, op);
  }

  lemma ServeKeepsAsk(j: Joint, s: Step, op: nat)
    requires Safe(j) && op in j.asked
    ensures AskInv(j.(world := Do(j.world, s)), op)
  {
    var w, c := j.world, j.asked[op];
    assert AskInv(j, op) && OpInv(w, w.ops[op]);
    KnownKept(w, s, c);
    SupersededBy(w, s, c.id);
    OpProgresses(w, s, op);
    if Won(w, op) {
      GrantedStays(w, s, op);
      KnownKept(w, s, w.ops[op].result.session);
    } else if w.ops[op].Rotating? && Won(Do(w, s), op) {
      GrantRotates(w, s, op);
    }
  }

  lemma ServeKeepsCause(j: Joint, s: Step, id: string)
    requires Safe(j) && id in Do(j.world, s).sessions
    ensures CauseInv(j.(world := Do(j.world, s)), id)
  {
    var w, w', j' := j.world, Do(j.world, s), j.(world := Do(j.world, s));
    if id !in w.sessions {
      NewSessionIsCurrent(w, s, id);
    } else if w'.sessions[id].family in j.families && Superseded(w'.sessions[id]) {
      StepGrows(w, s);
      assert Kept(w.sessions[id], w'.sessions[id]) && CauseInv(j, id);
      SupersededBy(w, s, id);
      if Superseded(w.sessions[id]) {
        var op :| RotatedBy(j, op, id);
        GrantedStays(w, s, op);
        assert RotatedBy(j', op, id);
      } else {
        assert OpInv(w, w.ops[s.op]) && Concerns(w.ops[s.op], w.sessions[id].family);
        assert AskInv(j, s.op) && RotatedBy(j', s.op, id);
      }
    }
  }

  lemma ServeKeepsOver(j: Joint, s: Step, op: nat)
    requires Safe(j) && op in j.asked
    ensures OverInv(j.(world := Do(j.world, s)), op)
  {
    assert OverInv(j, op);
    if op !in j.given && !IsCurrent(j, op) {
      GrantedStays(j.world, s, op);
    }
  }

  lemma ServeKeepsHistory(j: Joint, s: Step)
    requires Safe(j)
    ensures HistoryInv(j.(world := Do(j.world, s)))
  {
    var j' := j.(world := Do(j.world, s));
    forall op | op in j'.asked
      ensures AskInv(j', op) && OverInv(j', op)
    {
      ServeKeepsAsk(j, s, op);
      ServeKeepsOver(j, s, op);
    }
    forall id | id in j'.world.sessions
      ensures CauseInv(j', id)
    {
      ServeKeepsCause(j, s, id);
    }
  }

  lemma FreshKept(j: Joint, s: Step, c: Session)
    requires Safe(j) && Fresh(j, c)
    ensures Fresh(j.(world := Do(j.world, s)), c)
  {
    KnownKept(j.world, s, c);
  }

  /** A session that was not stored before is one that nobody has presented. */
  lemma NewIsFresh(j: Joint, w: World, c: Session)
    requires Safe(j) && c.id !in j.world.sessions && Known(w, c) && c.family in j.families
    ensures Fresh(j.(world := w), c)
  {
    forall op | op in j.asked
      ensures j.asked[op].id != c.id
    {
      assert AskInv(j, op);
    }
    forall t | t in j.strays
      ensures t.id != c.id
    {
      assert Own(j, t);
    }
  }

  lemma ServeKeepsLock(j: Joint, s: Step)
    requires Safe(j)
    ensures LockInv(j.(world := Do(j.world, s)))
  {
    var w, j' := j.world, j.(world := Do(j.world, s));
    if !j.lock.Free? {
      KnownKept(w, s, j.lock.sent);
    }
    if j.lock.Asking? || j.lock.Holding? {
      var op := j.lock.op;
      assert AskInv(j, op);
      OpProgresses(w, s, op);
      if Won(w, op) {
        GrantedStays(w, s, op);
        FreshKept(j, s, w.ops[op].result.session);
      } else if Won(Do(w, s), op) {
        assert OpInv(w, w.ops[op]);
        GrantRotates(w, s, op);
        NewIsFresh(j, Do(w, s), Do(w, s).ops[op].result.session);
      }
    }
  }

  lemma ServeKeepsClient(j: Joint, s: Step)
    requires Safe(j)
    ensures ClientInv(j.(world := Do(j.world, s)))
  {
    var j' := j.(world := Do(j.world, s));
    ServeKeepsLock(j, s);
    if j.memory.Some? {
      KnownKept(j.world, s, j.memory.value);
    }
    forall c | c in j'.strays
      ensures Own(j', c)
    {
      assert Own(j, c);
      KnownKept(j.world, s, c);
    }
  }

  lemma ServeKeepsLogin(j: Joint, s: Step, op: nat)
    requires Safe(j) && op in j.logins
    ensures LoginInv(j.(world := Do(j.world, s)), op)
  {
    var w, j' := j.world, j.(world := Do(j.world, s));
    assert LoginInv(j, op);
    OpProgresses(w, s, op);
    assert FamilyUnused(j', j.logins[op]);
    if Won(w, op) {
      GrantedStays(w, s, op);
      KnownKept(w, s, w.ops[op].result.session);
    } else if w.ops[op].Issuing? && Won(Do(w, s), op) {
      IssueIsKnown(w, s, op);
    }
  }

  lemma ServeStartsNoRefresh(j: Joint, s: Step, op: nat, f: string)
    requires Safe(j) && Foreign(j, s) && f in j.families && op in Do(j.world, s).ops &&
      Concerns(Do(j.world, s).ops[op], f)
    ensures op in j.asked
  {
    if op in j.world.ops {
      OpProgresses(j.world, s, op);
      assert Concerns(j.world.ops[op], f);
    } else {
      OpStarts(j.world, s, op);
      assert false;
    }
  }

  lemma ServeKeepsOthers(j: Joint, s: Step)
    requires Safe(j) && Foreign(j, s)
    ensures OthersInv(j.(world := Do(j.world, s)))
  {
    var w, w' := j.world, Do(j.world, s);
    forall op, f | op in w'.ops && f in j.families && Concerns(w'.ops[op], f)
      ensures op in j.asked
    {
      ServeStartsNoRefresh(j, s, op, f);
    }
    forall op | IssuingOp(w', op) && w'.ops[op].session.family in j.families
      ensures op in j.logins && j.logins[op] == w'.ops[op].session.family
    {
      if op in w.ops {
        OpProgresses(w, s, op);
        assert IssuingOp(w, op);
      } else {
        OpStarts(w, s, op);
        assert false;
      }
    }
  }

  lemma ServeKeepsSafe(j: Joint, s: Step)
    requires Safe(j) && Foreign(j, s)
    ensures Safe(j.(world := Do(j.world, s)))
  {
    StepKeepsInv(j.world, s);
    ServeKeepsHistory(j, s);
    ServeKeepsClient(j, s);
    ServeKeepsOthers(j, s);
    ServeKeepsLogins(j, s);
    assert Do(j.world, s).families >= j.world.families;
  }

  lemma ServeKeepsLogins(j: Joint, s: Step)
    requires Safe(j)
    ensures LoginsInv(j.(world := Do(j.world, s)))
  {
    var j' := j.(world := Do(j.world, s));
    forall op | op in j'.logins
      ensures LoginInv(j', op)
    {
      ServeKeepsLogin(j, s, op);
    }
  }

  // ---------------------------------------------------------------- a refresh of the client arrives

  /** What the server makes of a request that presents the credential `c`. */
  lemma LookUpOwn(w: World, op: nat, c: Session, now: int)
    requires Inv(w) && Known(w, c) && op !in w.ops
    ensures var w' := Do(w, BeginRefresh(op, c.refreshHash, now));
      && w'.sessions == w.sessions && w'.families == w.families && op in w'.ops && w' == Note(w, op, w'.ops[op])
      && match w'.ops[op]
         case Refreshing(p, s, _) => p == c.refreshHash && s.id == c.id
         case Killing(_, _) => true
         case Done(Denied(_)) => true
         case _ => false
  {
    assert Proper(w.sessions[c.id]);
    FindRefreshIsUnique(w.sessions, c.id);
  }

  /** The parts of the invariant that a lookup of the client's own leaves alone. */
  lemma ArrivalKeepsHistory(j: Joint, op: nat, c: Session, now: int, j': Joint)
    requires Safe(j) && Own(j, c) && op !in j.world.ops
    requires var k := LookUpBy(j, op, c, now);
      && j'.world == k.world && j'.asked == k.asked && j'.families == j.families && j'.memory == j.memory
    requires (j'.lock == j.lock && j'.given == j.given + {op})
          || (j.lock == Sending(c) && j'.lock == Asking(c, op) && j'.given == j.given)
    ensures HistoryInv(j')
  {
    LookUpOwn(j.world, op, c, now);
    forall k | k in j'.asked
      ensures AskInv(j', k) && OverInv(j', k)
    {
      if k != op {
        assert AskInv(j, k) && OverInv(j, k);
      }
    }
    forall id | id in j'.world.sessions
      ensures CauseInv(j', id)
    {
      assert CauseInv(j, id);
      if k :| RotatedBy(j, k, id) {
        assert AskInv(j, k) && RotatedBy(j', k, id);
      }
    }
  }

  lemma ArrivalKeepsOthers(j: Joint, op: nat, c: Session, now: int)
    requires Safe(j) && Own(j, c) && op !in j.world.ops
    ensures OthersInv(LookUpBy(j, op, c, now)) && Inv(LookUpBy(j, op, c, now).world)
  {
    var j' := LookUpBy(j, op, c, now);
    LookUpOwn(j.world, op, c, now);
    StepKeepsInv(j.world, BeginRefresh(op, c.refreshHash, now));
    forall k, f | k in j'.world.ops && f in j'.families && Concerns(j'.world.ops[k], f)
      ensures k in j'.asked
    {
      assert k != op ==> Concerns(j.world.ops[k], f);
    }
    forall k | IssuingOp(j'.world, k) && j'.world.ops[k].session.family in j'.families
      ensures k in j'.logins && j'.logins[k] == j'.world.ops[k].session.family
    {
      assert k != op && IssuingOp(j.world, k);
    }
  }

  lemma ArrivalKeepsLogins(j: Joint, op: nat, c: Session, now: int, j': Joint)
    requires Safe(j) && Own(j, c) && op !in j.world.ops
    requires j'.world == LookUpBy(j, op, c, now).world && j'.asked == j.asked[op := c] && j'.families == j.families
    requires j'.memory == j.memory && j'.strays == j.strays && j'.logins == j.logins && LockFamily(j') == LockFamily(j)
    requires c in j.strays || LockFamily(j) == Some(c.family)
    ensures LoginsInv(j')
  {
    LookUpOwn(j.world, op, c, now);
    forall k | k in j'.logins
      ensures LoginInv(j', k)
    {
      assert LoginInv(j, k) && FamilyUnused(j, j.logins[k]);
      assert FamilyUnused(j', j.logins[k]);
    }
  }

  lemma ArriveKeepsSafe(j: Joint, m: Move)
    requires Safe(j) && m.Arrive?
    ensures Safe(Act(j, m))
  {
    if j.lock.Sending? && m.refreshOp !in j.world.ops {
      var j', op, c := Act(j, m), m.refreshOp, j.lock.sent;
      LookUpOwn(j.world, op, c, m.now);
      ArrivalKeepsHistory(j, op, c, m.now, j');
      ArrivalKeepsOthers(j, op, c, m.now);
      ArrivalKeepsLogins(j, op, c, m.now, j');
      AskedIsServed(j, op);
      forall t | t in j'.strays
        ensures Own(j', t)
      {
        assert Own(j, t);
      }
    }
  }

  lemma AskedIsServed(j: Joint, op: nat)
    requires Safe(j) && op !in j.world.ops
    ensures op !in j.asked && op !in j.given
  {
    forall k | k in j.asked
      ensures k in j.world.ops
    {
      assert AskInv(j, k);
    }
  }

  lemma StrayKeepsSafe(j: Joint, m: Move)
    requires Safe(j) && m.StrayArrives?
    ensures Safe(Act(j, m))
  {
    if m.stray in j.strays && m.refreshOp !in j.world.ops {
      var j', op, c := Act(j, m), m.refreshOp, m.stray;
      assert Own(j, c);
      LookUpOwn(j.world, op, c, m.now);
      ArrivalKeepsHistory(j, op, c, m.now, j');
      ArrivalKeepsOthers(j, op, c, m.now);
      ArrivalKeepsLogins(j, op, c, m.now, j');
      AskedIsServed(j, op);
      forall t | t in j'.strays
        ensures Own(j', t)
      {
        assert Own(j, t);
      }
      StrayKeepsLock(j, op, c, j');
    }
  }

  lemma StrayKeepsLock(j: Joint, op: nat, c: Session, j': Joint)
    requires Safe(j) && c in j.strays && op !in j.world.ops && op in j'.world.ops
    requires j'.world == Note(j.world, op, j'.world.ops[op]) && j'.asked == j.asked[op := c] &&
      j'.families == j.families
    requires j'.memory == j.memory && j'.strays == j.strays && j'.lock == j.lock && j'.given == j.given + {op}
    ensures LockInv(j')
  {
    if j.lock.Asking? || j.lock.Holding? {
      assert AskInv(j, j.lock.op);
      if Won(j.world, j.lock.op) {
        var got := j.world.ops[j.lock.op].result.session;
        assert Fresh(j, got) && Own(j', got);
        assert Fresh(j', got);
      }
    }
  }

  // ---------------------------------------------------------------- the client's own moves

  /** The history invariant, when the server and the history stay and fewer refreshes count as over. */
  lemma HistoryKept(j: Joint, j': Joint)
    requires Safe(j) && j'.world == j.world && j'.asked == j.asked && j'.families == j.families
    requires forall op {:trigger OverInv(j', op)} :: op in j.asked ==> OverInv(j', op)
    ensures HistoryInv(j')
  {
    forall op | op in j'.asked
      ensures AskInv(j', op)
    {
      assert AskInv(j, op);
    }
    forall id | id in j'.world.sessions
      ensures CauseInv(j', id)
    {
      assert CauseInv(j, id);
      if k :| RotatedBy(j, k, id) {
        assert RotatedBy(j', k, id);
      }
    }
  }

  lemma StraysKept(j: Joint, j': Joint)
    requires ClientInv(j) && j'.world == j.world && j'.families == j.families && j'.strays == j.strays
    ensures forall c :: c in j'.strays ==> Own(j', c)
  {
    forall c | c in j'.strays
      ensures Own(j', c)
    {
      assert Own(j, c);
    }
  }

  lemma OthersKept(j: Joint, j': Joint)
    requires OthersInv(j) && j'.world == j.world && j'.families == j.families && j'.asked == j.asked
    requires forall op :: op in j.logins && IssuingOp(j.world, op) ==> op in j'.logins && j'.logins[op] == j.logins[op]
    ensures OthersInv(j')
  {
    forall op, f | op in j'.world.ops && f in j'.families && Concerns(j'.world.ops[op], f)
      ensures op in j'.asked
    {
      assert Concerns(j.world.ops[op], f);
    }
  }

  lemma LoginsKept(j: Joint, j': Joint)
    requires LoginsInv(j) && j'.world == j.world && j'.families == j.families && j'.asked == j.asked
    requires j'.logins.Keys <= j.logins.Keys && forall op :: op in j'.logins ==> j'.logins[op] == j.logins[op]
    requires forall op :: op in j'.logins ==> FamilyUnused(j', j'.logins[op])
    ensures LoginsInv(j')
  {
    forall op | op in j'.logins
      ensures LoginInv(j', op)
    {
      assert LoginInv(j, op);
    }
  }

  lemma StoreLoginKeepsSafe(j: Joint, op: nat)
    requires Safe(j)
    ensures Safe(Act(j, StoreLogin(op)))
  {
    var j' := Act(j, StoreLogin(op));
    if j' != j {
      assert LoginInv(j, op) && FamilyUnused(j, j.logins[op]);
      var c, f := j.world.ops[op].result.session, j.logins[op];
      forall k | k in j.asked
        ensures OverInv(j', k)
      {
        assert OverInv(j, k) && AskInv(j, k) && Known(j.world, j.asked[k]);
      }
      HistoryKept(j, j');
      StraysKept(j, j');
      OthersKept(j, j');
      forall k | k in j'.logins
        ensures FamilyUnused(j', j'.logins[k])
      {
        assert LoginInv(j, k) && FamilyUnused(j, j.logins[k]);
      }
      LoginsKept(j, j');
      StoreLoginKeepsLock(j, op);
    }
  }

  lemma StoreLoginKeepsLock(j: Joint, op: nat)
    requires Safe(j) && Act(j, StoreLogin(op)) != j
    ensures LockInv(Act(j, StoreLogin(op)))
  {
    var j' := Act(j, StoreLogin(op));
    assert LoginInv(j, op) && FamilyUnused(j, j.logins[op]);
    if j.lock.Asking? || j.lock.Holding? {
      assert AskInv(j, j.lock.op);
      if Won(j.world, j.lock.op) {
        var got := j.world.ops[j.lock.op].result.session;
        assert Fresh(j, got) && Own(j', got) && got.family == j.lock.sent.family;
        assert Fresh(j', got);
      }
    }
  }

  /** The moves that change only the memory, the lock and what was given up. */
  predicate OfLock(m: Move) {
    m.Enter? || m.Receive? || m.SaveVault? || m.SetMemory? || m.Refused? || m.GiveUp? || m.Clear?
  }

  lemma LockMoveKeepsOver(j: Joint, m: Move, op: nat)
    requires Safe(j) && OfLock(m) && op in j.asked
    ensures OverInv(Act(j, m), op)
  {
    assert OverInv(j, op) && AskInv(j, op);
    if m.SetMemory? && j.lock.Holding? {
      assert Fresh(j, j.lock.got);
    }
  }

  lemma FreshMoved(j: Joint, j': Joint, c: Session)
    requires Fresh(j, c) && j'.world == j.world && j'.families == j.families && j'.asked == j.asked
    requires j'.strays == j.strays && (j'.memory == j.memory || j'.memory.None?)
    ensures Fresh(j', c)
  {
  }

  /** The moves after which no call of the client is under way. */
  lemma ReleaseKeepsLock(j: Joint, m: Move)
    requires Safe(j) && (m.SetMemory? || m.Refused? || m.GiveUp?)
    ensures LockInv(Act(j, m)) && (Act(j, m).memory.Some? ==> Own(Act(j, m), Act(j, m).memory.value))
  {
  }

  lemma LockMoveKeepsLock(j: Joint, m: Move)
    requires Safe(j) && OfLock(m)
    ensures LockInv(Act(j, m)) && (Act(j, m).memory.Some? ==> Own(Act(j, m), Act(j, m).memory.value))
  {
    if m.SetMemory? || m.Refused? || m.GiveUp? {
      ReleaseKeepsLock(j, m);
    } else if (j.lock.Asking? || j.lock.Holding?) && Won(j.world, j.lock.op) {
      FreshMoved(j, Act(j, m), j.world.ops[j.lock.op].result.session);
    }
  }

  /** Credentials only move between the memory, the lock and what was given up. */
  ghost predicate OnlyMoves(j: Joint, j': Joint) {
    && j'.world == j.world && j'.families == j.families && j'.asked == j.asked && j'.logins == j.logins
    && (forall t :: t in j'.strays ==> t in j.strays || LockFamily(j) == Some(t.family))
    && (LockFamily(j') in {None, LockFamily(j)} || (j.memory.Some? && LockFamily(j') == Some(j.memory.value.family)))
    && (j'.memory.Some? ==> j'.memory == j.memory || LockFamily(j) == Some(j'.memory.value.family))
  }

  lemma LockMoveOnlyMoves(j: Joint, m: Move)
    requires Safe(j) && OfLock(m)
    ensures OnlyMoves(j, Act(j, m))
  {
    if m.SetMemory? && j.lock.Holding? {
      HeldFamily(j);
    } else {
      OtherLockMoveOnlyMoves(j, m);
    }
  }

  lemma HeldFamily(j: Joint)
    requires Safe(j) && j.lock.Holding?
    ensures j.lock.got.family == j.lock.sent.family
  {
    assert AskInv(j, j.lock.op);
  }

  lemma OtherLockMoveOnlyMoves(j: Joint, m: Move)
    requires OfLock(m) && !(m.SetMemory? && j.lock.Holding?)
    ensures OnlyMoves(j, Act(j, m))
  {
  }

  lemma MovesKeepUnused(j: Joint, j': Joint, f: string)
    requires OnlyMoves(j, j') && FamilyUnused(j, f)
    ensures FamilyUnused(j', f)
  {
  }

  lemma LockMoveKeepsLogins(j: Joint, j': Joint)
    requires LoginsInv(j) && OnlyMoves(j, j')
    ensures LoginsInv(j')
  {
    forall k | k in j'.logins
      ensures FamilyUnused(j', j'.logins[k])
    {
      assert LoginInv(j, k);
      MovesKeepUnused(j, j', j.logins[k]);
    }
    LoginsKept(j, j');
  }

  lemma LockMoveKeepsClient(j: Joint, m: Move)
    requires Safe(j) && OfLock(m)
    ensures ClientInv(Act(j, m))
  {
    var j' := Act(j, m);
    LockMoveKeepsLock(j, m);
    LockMoveKeepsStrays(j, m);
    assert j'.given <= j'.asked.Keys;
  }

  lemma LockMoveKeepsStrays(j: Joint, m: Move)
    requires Safe(j) && OfLock(m)
    ensures forall c {:trigger Own(Act(j, m), c)} :: c in Act(j, m).strays ==> Own(Act(j, m), c)
  {
    forall c | c in Act(j, m).strays
      ensures Own(Act(j, m), c)
    {
      assert c in j.strays ==> Own(j, c);
    }
  }

  lemma LockMoveKeepsSafe(j: Joint, m: Move)
    requires Safe(j) && OfLock(m)
    ensures Safe(Act(j, m))
  {
    var j' := Act(j, m);
    forall op | op in j.asked
      ensures OverInv(j', op)
    {
      LockMoveKeepsOver(j, m, op);
    }
    LockMoveOnlyMoves(j, m);
    HistoryKept(j, j');
    LockMoveKeepsClient(j, m);
    LockMoveKeepsLogins(j, j');
    OthersKept(j, j');
  }

  // ---------------------------------------------------------------- logins

  /** The names of operations and sessions were drawn before. */
  lemma ConcernsKnown(w: World, op: nat, f: string)
    requires Inv(w) && op in w.ops && Concerns(w.ops[op], f)
    ensures f in w.families
  {
    assert OpInv(w, w.ops[op]);
    assert Placed(w.sessions, w.chains, w.ops[op].current.id);
  }

  lemma SessionKnown(w: World, id: string)
    requires Inv(w) && id in w.sessions
    ensures w.sessions[id].family in w.families
  {
    assert Placed(w.sessions, w.chains, id);
  }

  /** Adding the family of a new login, whose name nothing carries yet. */
  lemma NewFamilyKeepsHistory(j: Joint, k: Joint, f: string, op: nat)
    requires Safe(k) && f !in k.families && (forall id :: id in k.world.sessions ==> k.world.sessions[id].family != f)
    requires j == k.(families := k.families + {f}, logins := k.logins[op := f])
    ensures HistoryInv(j)
  {
    forall a | a in j.asked
      ensures AskInv(j, a) && OverInv(j, a)
    {
      assert AskInv(k, a) && OverInv(k, a);
    }
    forall id | id in j.world.sessions
      ensures CauseInv(j, id)
    {
      assert CauseInv(k, id);
      if a :| RotatedBy(k, a, id) {
        assert RotatedBy(j, a, id);
      }
    }
  }

  lemma NewFamilyKeepsClient(j: Joint, k: Joint, f: string, op: nat)
    requires Safe(k)
    requires j == k.(families := k.families + {f}, logins := k.logins[op := f])
    ensures ClientInv(j)
  {
    forall c | c in j.strays
      ensures Own(j, c)
    {
      assert Own(k, c);
    }
    if k.lock.Asking? || k.lock.Holding? {
      if Won(k.world, k.lock.op) {
        assert Fresh(k, k.world.ops[k.lock.op].result.session);
        assert Fresh(j, k.world.ops[k.lock.op].result.session);
      }
    }
  }

  /** No credential of the client is of a family that no session has. */
  lemma NewFamilyIsUnused(k: Joint, f: string)
    requires Safe(k) && (forall id :: id in k.world.sessions ==> k.world.sessions[id].family != f)
    ensures FamilyUnused(k, f)
  {
    forall a | a in k.asked
      ensures k.asked[a].family != f
    {
      assert AskInv(k, a);
    }
    forall t | t in k.strays
      ensures t.family != f
    {
      assert Own(k, t);
    }
  }

  lemma NewFamilyKeepsLogins(j: Joint, k: Joint, f: string, op: nat)
    requires Safe(k) && f !in k.families && (forall id :: id in k.world.sessions ==> k.world.sessions[id].family != f)
    requires j == k.(families := k.families + {f}, logins := k.logins[op := f])
    requires IssuingOp(k.world, op) && k.world.ops[op].session.family == f && op !in k.logins && op !in k.asked
    ensures LoginsInv(j)
  {
    NewFamilyIsUnused(k, f);
    forall a | a in j.logins
      ensures LoginInv(j, a)
      ensures a != op ==> j.logins[a] != f
    {
      if a != op {
        assert LoginInv(k, a) && FamilyUnused(k, k.logins[a]);
      }
      assert FamilyUnused(j, j.logins[a]);
    }
  }

  lemma LoginKeepsSafe(j: Joint, m: Move)
    requires Safe(j) && m.Login?
    ensures Safe(Act(j, m))
  {
    var j', f := Act(j, m), m.names.family;
    if m.op !in j.world.ops && f !in j.world.families {
      var s := BeginIssue(m.op, m.account, m.device, m.names, m.accessExpires, m.expires);
      var k := j.(world := Do(j.world, s));
      ServeKeepsSafe(j, s);
      if Active(j.world, m.account) {
        forall id | id in k.world.sessions
          ensures k.world.sessions[id].family != f
        {
          SessionKnown(j.world, id);
        }
        AskedIsServed(j, m.op);
        NewFamilyKeepsHistory(j', k, f, m.op);
        NewFamilyKeepsClient(j', k, f, m.op);
        forall a | a in j.logins
          ensures a in j.world.ops
        {
          assert LoginInv(j, a);
        }
        NewFamilyKeepsLogins(j', k, f, m.op);
        NewFamilyKeepsOthers(j, m);
      }
    }
  }

  lemma NewFamilyKeepsOthers(j: Joint, m: Move)
    requires Safe(j) && m.Login? && m.op !in j.world.ops && m.names.family !in j.world.families &&
      Active(j.world, m.account)
    ensures OthersInv(Act(j, m))
  {
    var j' := Act(j, m);
    forall op, f | op in j'.world.ops && f in j'.families && Concerns(j'.world.ops[op], f)
      ensures op in j'.asked
    {
      assert op in j.world.ops && Concerns(j.world.ops[op], f);
      ConcernsKnown(j.world, op, f);
    }
    forall op | IssuingOp(j'.world, op) && j'.world.ops[op].session.family in j'.families
      ensures op in j'.logins && j'.logins[op] == j'.world.ops[op].session.family
    {
      assert op != m.op ==> IssuingOp(j.world, op) && OpInv(j.world, j.world.ops[op]);
    }
  }

  lemma ActKeepsSafe(j: Joint, m: Move)
    requires Safe(j)
    ensures Safe(Act(j, m))
  {
    match m
    case Serve(s) => if Foreign(j, s) { ServeKeepsSafe(j, s); }
    case Login(_, _, _, _, _, _) => LoginKeepsSafe(j, m);
    case StoreLogin(op) => StoreLoginKeepsSafe(j, op);
    case Arrive(_, _) => ArriveKeepsSafe(j, m);
    case StrayArrives(_, _, _) => StrayKeepsSafe(j, m);
    case _ => LockMoveKeepsSafe(j, m);
  }
}
