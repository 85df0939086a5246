/**
 What the refreshing client can rely on, in every run: a token it presents was rotated before
 exactly if it gave up a refresh of that token which the server granted.
 */
module RefreshSafety {
  import opened Wrappers
  import opened SessionStore
  import opened SessionProtocol
  import opened SessionSafety
  import opened RefreshClient

  lemma {:induction false} PlayKeepsSafe(j: Joint, moves: seq<Move>)
    requires Safe(j)
    ensures Safe(Play(j, moves))
    decreases |moves|
  {
    if moves != [] {
      ActKeepsSafe(j, moves[0]);
      PlayKeepsSafe(Act(j, moves[0]), moves[1..]);
    }
  }

  /** A refresh of the credential was given up, and the server granted it. */
  ghost predicate GaveUpGrant(j: Joint, c: Session) {
    exists op :: op in j.given && RotatedBy(j, op, c.id)
  }

  /** What the server makes of a request that arrives now. */
  ghost function LookedUp(w: World, op: nat, presented: string, now: int): Op
    requires op !in w.ops
  {
    var w' := LookUp(w, op, presented, now);
    assert op in w'.ops;
    w'.ops[op]
  }

  /** The credential in use: the one being presented, or the one in memory while nothing is under way. */
  ghost predicate InUse(j: Joint, c: Session) {
    || (j.lock.Sending? && c == j.lock.sent)
    || (j.lock.Asking? && c == j.lock.sent && !Won(j.world, j.lock.op))
    || (j.lock.Free? && j.memory == Some(c))
  }

  lemma InUseIsOwn(j: Joint, c: Session)
    requires Safe(j) && InUse(j, c)
    ensures Own(j, c)
    ensures Superseded(j.world.sessions[c.id]) <==> GaveUpGrant(j, c)
  {
    assert CauseInv(j, c.id);
    forall op | RotatedBy(j, op, c.id)
      ensures op in j.given && Superseded(j.world.sessions[c.id])
    {
      assert AskInv(j, op) && OverInv(j, op);
    }
  }

  /**
   The token in use was rotated exactly if a refresh of it was given up and granted: however
   the retries, logins, late arrivals and the rest of the server interleave, and whatever was
   given up before for other tokens.
   */
  lemma RotatedExactly(moves: seq<Move>, c: Session)
    requires InUse(Play(START, moves), c)
    ensures var j := Play(START, moves);
      c.id in j.world.sessions && (Superseded(j.world.sessions[c.id]) <==> GaveUpGrant(j, c))
  {
    PlayKeepsSafe(START, moves);
    InUseIsOwn(Play(START, moves), c);
  }

  /** And so it is taken for a replay exactly then, or if its family was already revoked. */
  lemma ReplayedExactly(moves: seq<Move>, op: nat, now: int)
    requires Play(START, moves).lock.Sending? && op !in Play(START, moves).world.ops
    ensures var j := Play(START, moves);
      var c := j.lock.sent;
      && c.id in j.world.sessions
      && (LookedUp(j.world, op, c.refreshHash, now).Killing? <==>
            GaveUpGrant(j, c) || j.world.sessions[c.id].familyRevokedAt.Some?)
  {
    PlayKeepsSafe(START, moves);
    var j := Play(START, moves);
    InUseIsOwn(j, j.lock.sent);
    KillingExactly(j, j.lock.sent, op, now);
  }

  lemma KillingExactly(j: Joint, c: Session, op: nat, now: int)
    requires Safe(j) && Own(j, c) && op !in j.world.ops
    ensures LookedUp(j.world, op, c.refreshHash, now).Killing? <==> j.world.sessions[c.id].Rotated()
  {
    var w := j.world;
    assert Proper(w.sessions[c.id]);
    FindRefreshIsUnique(w.sessions, c.id);
    if w.sessions[c.id].Rotated() {
      RotatedIsRevoked(w, c.id);
    }
  }

  /** The same for the rotation itself, which may come long after the lookup. */
  lemma RotationReplayedExactly(moves: seq<Move>)
    requires var j := Play(START, moves);
      j.lock.Asking? && j.lock.op in j.world.ops && j.world.ops[j.lock.op].Rotating?
    requires var next := Play(START, moves).world.ops[Play(START, moves).lock.op].next;
      next.id != "" && next.refreshHash != ""
    ensures var j := Play(START, moves);
      var o, c := j.world.ops[j.lock.op], j.lock.sent;
      && c.id in j.world.sessions
      && (o.next.family != "" ==>
            (Rotate(j.world.sessions, o.presented, o.next, o.now).1 == Failure(RefreshReplay) <==>
               GaveUpGrant(j, c) || j.world.sessions[c.id].familyRevokedAt.Some?))
  {
    PlayKeepsSafe(START, moves);
    var j := Play(START, moves);
    var o, c, w := j.world.ops[j.lock.op], j.lock.sent, j.world;
    InUseIsOwn(j, c);
    assert AskInv(j, j.lock.op) && Proper(w.sessions[c.id]);
    RotateCases(w.sessions, c.id, o.next, o.now);
    FindRefreshIsUnique(w.sessions, c.id);
    if w.sessions[c.id].Rotated() {
      RotatedIsRevoked(w, c.id);
    }
  }

  /** Any refresh of the client, one that arrives late too, replays exactly what a granted one rotated. */
  lemma ArrivalsReplayExactly(moves: seq<Move>, c: Session, op: nat, now: int)
    requires var j := Play(START, moves); (c in j.strays || (j.lock.Sending? && c == j.lock.sent)) && op !in j.world.ops
    ensures var j := Play(START, moves);
      && c.id in j.world.sessions
      && (LookedUp(j.world, op, c.refreshHash, now).Killing? <==>
            (exists k :: RotatedBy(j, k, c.id)) || j.world.sessions[c.id].familyRevokedAt.Some?)
  {
    PlayKeepsSafe(START, moves);
    var j := Play(START, moves);
    assert Own(j, c) && CauseInv(j, c.id);
    KillingExactly(j, c, op, now);
    if k :| RotatedBy(j, k, c.id) {
      assert AskInv(j, k);
    }
  }

  // ---------------------------------------------------------------- what a refresh does to the client

  ghost predicate VaultAhead(j: Joint) {
    && (j.memory.Some? ==> j.memory.value in j.saved)
    && (j.lock.Holding? && j.lock.inVault ==> j.lock.got in j.saved)
  }

  /** In every run the credential in memory was written to the vault before it was put there. */
  lemma {:induction false} MemoryWasSaved(j: Joint, moves: seq<Move>)
    requires VaultAhead(j)
    ensures VaultAhead(Play(j, moves))
    decreases |moves|
  {
    if moves != [] {
      ActKeepsVaultAhead(j, moves[0]);
      MemoryWasSaved(Act(j, moves[0]), moves[1..]);
    }
  }

  lemma ActKeepsVaultAhead(j: Joint, m: Move)
    requires VaultAhead(j)
    ensures VaultAhead(Act(j, m))
  {
  }

  /** A granted refresh ends with the new credential in the vault and in memory, a refused one with the old. */
  lemma RefreshRunsThrough(j: Joint)
    requires Answered(j)
    ensures var answer := j.world.ops[j.lock.op].result;
      && (answer.Granted? ==>
            Act(Act(Act(j, Receive), SaveVault), SetMemory) ==
              j.(memory := Some(answer.session), lock := Free, saved := j.saved + {answer.session}))
      && (answer.Denied? ==> Act(j, Refused) == j.(lock := Free))
  {
  }

  /**
   A request that failed with one access token and waited while another refreshed it reuses the new
   token: nothing is sent. Otherwise the refresh token in memory is sent.
   */
  lemma WaitingRetryReusesToken(j: Joint, failedAccess: string)
    requires j.lock.Free? && j.memory.Some?
    ensures var access := j.memory.value.accessHash;
      Act(j, Enter(failedAccess)) ==
        if failedAccess != "" && access != "" && access != failedAccess then j
        else j.(lock := Sending(j.memory.value))
  {
  }

  /** So one refresh serves all requests that failed with the same access token. */
  lemma OneRefreshServesAll(j: Joint)
    requires j.lock.Holding? && j.lock.inVault
    requires j.lock.sent.accessHash != "" && j.lock.got.accessHash !in {"", j.lock.sent.accessHash}
    ensures var done := Act(j, SetMemory);
      done.memory == Some(j.lock.got) && Act(done, Enter(j.lock.sent.accessHash)) == done
  {
    WaitingRetryReusesToken(Act(j, SetMemory), j.lock.sent.accessHash);
  }

  /** What was sent and given up can reach the server all the same, and is looked up there like any other. */
  lemma GivenUpMayArrive(j: Joint, op: nat, now: int)
    requires j.lock.Sending? && op !in j.world.ops
    ensures var g := Act(Act(j, GiveUp), StrayArrives(j.lock.sent, op, now));
      g.lock == Free && g.memory == j.memory && g.world == Do(j.world, BeginRefresh(op, j.lock.sent.refreshHash, now))
  {
  }

  /** A login is an issue at the server, whatever comes of it; logging out forgets the credential. */
  lemma LoginIsAnIssue(
    j: Joint, op: nat, account: string, device: string, n: Names, accessExpires: int, expires: int)
    requires op !in j.world.ops && n.family !in j.world.families
    ensures var l := Act(j, Login(op, account, device, n, accessExpires, expires));
      && l.world == Do(j.world, BeginIssue(op, account, device, n, accessExpires, expires))
      && (op in l.logins <==> Active(j.world, account) || op in j.logins) && l.memory == j.memory && l.lock == j.lock
    ensures Act(j, Clear) == j.(memory := None)
    ensures forall k :: k in j.world.ops ==> Act(j, Login(k, account, device, n, accessExpires, expires)) == j
  {
  }

  // ---------------------------------------------------------------- what giving up costs

  /** The refresh under way was granted: its answer is on its way, or in and not yet kept. */
  ghost predicate GrantedNow(j: Joint) { (j.lock.Asking? || j.lock.Holding?) && Won(j.world, j.lock.op) }

  /**
   Giving up a granted refresh, before its answer came or because the vault could not be
   written, makes the token in memory a rotated one; the next refresh revokes its family.
   */
  lemma GivingUpAGrantReplays(moves: seq<Move>, failedAccess: string, op: nat, now: int)
    requires var j := Play(START, moves);
      GrantedNow(j) && j.memory == Some(j.lock.sent) && op !in j.world.ops && Asks(Act(j, GiveUp), failedAccess)
    ensures var j := Play(START, moves);
      var arrived := Act(Act(Act(j, GiveUp), Enter(failedAccess)), Arrive(op, now));
      && GaveUpGrant(Act(j, GiveUp), j.lock.sent)
      && op in arrived.world.ops && arrived.world.ops[op] == Killing(j.lock.sent.family, now)
  {
    PlayKeepsSafe(START, moves);
    var j := Play(START, moves);
    GivingUpAGrant(j);
    ActKeepsSafe(j, GiveUp);
    NextRefreshReplays(Act(j, GiveUp), j.lock.sent, failedAccess, op, now);
  }

  lemma GivingUpAGrant(j: Joint)
    requires Safe(j) && GrantedNow(j)
    ensures GaveUpGrant(Act(j, GiveUp), j.lock.sent)
  {
    assert RotatedBy(Act(j, GiveUp), j.lock.op, j.lock.sent.id);
  }

  lemma NextRefreshReplays(j: Joint, c: Session, failedAccess: string, op: nat, now: int)
    requires Safe(j) && j.memory == Some(c) && GaveUpGrant(j, c) && op !in j.world.ops && Asks(j, failedAccess)
    ensures var arrived := Act(Act(j, Enter(failedAccess)), Arrive(op, now));
      op in arrived.world.ops && arrived.world.ops[op] == Killing(c.family, now)
  {
    InUseIsOwn(j, c);
    KillingExactly(j, c, op, now);
    assert Proper(j.world.sessions[c.id]);
    FindRefreshIsUnique(j.world.sessions, c.id);
    assert Act(j, Enter(failedAccess)) == j.(lock := Sending(c));
  }

  /** Giving up anything else changes nothing about any token, for as long as the server does not grant it. */
  lemma GivingUpElseIsHarmless(moves: seq<Move>, c: Session)
    requires !GrantedNow(Play(START, moves))
    ensures var j := Play(START, moves); GaveUpGrant(Act(j, GiveUp), c) <==> GaveUpGrant(j, c)
  {
    var j := Play(START, moves);
    var g := Act(j, GiveUp);
    forall op
      ensures (op in g.given && RotatedBy(g, op, c.id)) <==> (op in j.given && RotatedBy(j, op, c.id))
    {
    }
  }

  /** A login and a refresh that the server grants. */
  const FIRST := Session("s1", "a", "d", "x1", 100, "r1", "f", 200, None, None, "", None)
  const SECOND := Session("s2", "a", "d", "x2", 100, "r2", "f", 200, None, None, "", None)

  const ROW := Account("a", "active")

  function LoginMoves(): seq<Move> {
    [Serve(NewAccount(ROW)), Login(0, "a", "d", Names("s1", "x1", "r1", "f"), 100, 200), Serve(EndIssue(0)),
      StoreLogin(0)]
  }

  function RefreshMoves(): seq<Move> {
    [Enter(""), Arrive(1, 5), Serve(CheckRefresh(1, Names("s2", "x2", "r2", ""), 100)), Serve(EndRefresh(1))]
  }

  ghost predicate LoggedIn(j: Joint) {
    && j.memory == Some(FIRST) && j.lock.Free? && j.world.sessions == map["s1" := FIRST]
    && j.world.accounts == map["a" := ROW] && j.world.ops == map[0 := Done(Granted(FIRST))]
  }

  /** The server is at work on the refresh; `o` is how far it has got. */
  ghost predicate AtWork(j: Joint, o: Op) {
    && j.lock == Asking(FIRST, 1) && j.memory == Some(FIRST) && 1 in j.world.ops && j.world.ops[1] == o
    && (o.Refreshing? || o.Rotating? ==> j.world.sessions == map["s1" := FIRST] && j.world.accounts == map["a" := ROW])
  }

  /** Granted, with the old token still in memory, before the answer as well as after it. */
  ghost predicate Exposed(j: Joint) {
    && GrantedNow(j) && j.memory == Some(j.lock.sent) && Asks(Act(j, GiveUp), "")
    && Act(j, Receive).lock.Holding? && GrantedNow(Act(j, Receive))
  }

  /** Such a run exists: giving up now, before the answer or after it, is what the next refresh pays for. */
  lemma GrantCanBeGivenUp()
    ensures exists moves :: Exposed(Play(START, moves))
  {
    LoginSucceeds();
    var b := Play(START, LoginMoves());
    RefreshSucceeds(b);
    AtWorkIsExposed(Play(b, RefreshMoves()));
    PlayAppend(START, LoginMoves(), RefreshMoves());
    assert Exposed(Play(START, LoginMoves() + RefreshMoves()));
  }

  lemma AtWorkIsExposed(d: Joint)
    requires AtWork(d, Done(Granted(SECOND)))
    ensures Exposed(d)
  {
  }

  lemma LoginSucceeds()
    ensures LoggedIn(Play(START, LoginMoves()))
  {
    NotBlank(ROW.id);
    LoginIsIssued(Act(START, LoginMoves()[0]));
    FourMoves(START, LoginMoves());
  }

  lemma LoginIsIssued(a: Joint)
    requires a == START.(world := INIT.(accounts := map["a" := ROW]))
    ensures LoggedIn(Act(Act(Act(a, LoginMoves()[1]), LoginMoves()[2]), LoginMoves()[3]))
  {
    var l := Act(a, LoginMoves()[1]);
    assert l.world.ops == map[0 := Issuing(FIRST)] && l.logins == map[0 := "f"];
    var i := Act(l, LoginMoves()[2]);
    assert i.world.sessions == map["s1" := FIRST] && i.world.ops == map[0 := Done(Granted(FIRST))];
  }

  lemma RefreshSucceeds(b: Joint)
    requires LoggedIn(b)
    ensures AtWork(Play(b, RefreshMoves()), Done(Granted(SECOND)))
  {
    FourMoves(b, RefreshMoves());
    RefreshArrives(b);
    var c := Act(Act(b, RefreshMoves()[0]), RefreshMoves()[1]);
    RefreshIsChecked(c);
    RefreshIsGranted(Act(c, RefreshMoves()[2]));
  }

  lemma RefreshArrives(b: Joint)
    requires LoggedIn(b)
    ensures AtWork(Act(Act(b, RefreshMoves()[0]), RefreshMoves()[1]), Refreshing("r1", FIRST, 5))
  {
    FindRefreshIsUnique(b.world.sessions, "s1");
  }

  lemma RefreshIsChecked(c: Joint)
    requires AtWork(c, Refreshing("r1", FIRST, 5))
    ensures AtWork(Act(c, RefreshMoves()[2]), Rotating("r1", FIRST, SECOND, 5))
  {
  }

  lemma RefreshIsGranted(c: Joint)
    requires AtWork(c, Rotating("r1", FIRST, SECOND, 5))
    ensures AtWork(Act(c, RefreshMoves()[3]), Done(Granted(SECOND)))
  {
    FindRefreshIsUnique(c.world.sessions, "s1");
    assert !Clashes(c.world.sessions, SECOND);
  }

  lemma FourMoves(j: Joint, moves: seq<Move>)
    requires |moves| == 4
    ensures Play(j, moves) == Act(Act(Act(Act(j, moves[0]), moves[1]), moves[2]), moves[3])
  {
    assert moves[1..][1..] == moves[2..] && moves[2..][1..] == moves[3..] && moves[3..][1..] == [];
    var k := Act(Act(j, moves[0]), moves[1]);
    assert Play(Act(k, moves[2]), moves[3..]) == Act(Act(k, moves[2]), moves[3]);
    assert Play(k, moves[2..]) == Act(Act(k, moves[2]), moves[3]);
  }

  lemma {:induction false} PlayAppend(j: Joint, a: seq<Move>, b: seq<Move>)
    ensures Play(j, a + b) == Play(Play(j, a), b)
    decreases |a|
  {
    if a == [] {
      assert a + b == b;
    } else {
      assert (a + b)[1..] == a[1..] + b;
      PlayAppend(Act(j, a[0]), a[1..], b);
    }
  }
}
