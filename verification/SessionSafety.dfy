/**
 What the session protocol guarantees in every interleaving: one live session per family,
 replayed tokens that end their family, and revocation of an account that nothing undoes.
 */
module SessionSafety {
  import opened Wrappers
  import opened SessionStore
  import opened SessionProtocol

  // ---------------------------------------------------------------- what holds in every interleaving

  ghost predicate LiveIn(ss: Sessions, id: string, family: string) {
    id in ss && ss[id].family == family && ss[id].revokedAt.None?
  }

  /** From the empty store on, each family is one replacement chain with at most one live session. */
  lemma OneLiveSessionPerFamily(steps: seq<Step>)
    ensures Chained(Run(INIT, steps).sessions, Run(INIT, steps).chains)
    ensures forall a, b, f :: LiveIn(Run(INIT, steps).sessions, a, f) && LiveIn(Run(INIT, steps).sessions, b, f) ==>
      a == b
  {
    RunKeepsInv(INIT, steps);
    var w := Run(INIT, steps);
    forall a, b, f | LiveIn(w.sessions, a, f) && LiveIn(w.sessions, b, f)
      ensures a == b
    {
      LiveIsLast(w.sessions, w.chains, a);
      LiveIsLast(w.sessions, w.chains, b);
    }
  }

  ghost predicate Dead(w: World, family: string) {
    && family in w.chains
    && forall id :: id in w.sessions && w.sessions[id].family == family ==> w.sessions[id].revokedAt.Some?
  }

  /** The step issues new credentials to a refresh of the family. */
  ghost predicate Refreshes(w: World, s: Step, family: string) {
    && s.EndRefresh? && s.op in w.ops && w.ops[s.op].Rotating? && w.ops[s.op].current.family == family
    && Rotate(w.sessions, w.ops[s.op].presented, w.ops[s.op].next, w.ops[s.op].now).1.Success?
  }

  lemma DeadStep(w: World, s: Step, family: string)
    requires Inv(w) && Dead(w, family)
    ensures Dead(Do(w, s), family) && !Refreshes(w, s, family)
  {
    if s.EndIssue? && IssuingOp(w, s.op) {
      assert OpInv(w, w.ops[s.op]);
    } else if s.EndRefresh? {
      if s.op in w.ops && w.ops[s.op].Rotating? {
        DeadEndRefresh(w, s, family);
      }
    } else {
      OtherDeadStep(w, s, family);
    }
  }

  lemma OtherDeadStep(w: World, s: Step, family: string)
    requires Inv(w) && Dead(w, family) && !s.EndRefresh? && !(s.EndIssue? && IssuingOp(w, s.op))
    ensures Dead(Do(w, s), family)
  {
    StepGrows(w, s);
    StepAddsNone(w, s);
    var w' := Do(w, s);
    forall id | id in w'.sessions && w'.sessions[id].family == family
      ensures w'.sessions[id].revokedAt.Some?
    {
      assert Kept(w.sessions[id], w'.sessions[id]);
    }
  }

  lemma StepAddsNone(w: World, s: Step)
    requires !(s.EndRefresh? && s.op in w.ops && w.ops[s.op].Rotating?) && !(s.EndIssue? && IssuingOp(w, s.op))
    ensures Do(w, s).sessions.Keys == w.sessions.Keys && Do(w, s).chains == w.chains
  {
    if s.BeginIssue? || s.BeginAuth? || s.EndAuth? || s.BeginRefresh? || s.CheckRefresh? || s.NewAccount? {
      NoSessionStep(w, s);
    }
  }

  lemma DeadEndRefresh(w: World, s: Step, family: string)
    requires Inv(w) && Dead(w, family) && s.EndRefresh? && s.op in w.ops && w.ops[s.op].Rotating?
    ensures Dead(Do(w, s), family) && !Refreshes(w, s, family)
  {
    var o := w.ops[s.op];
    assert OpInv(w, o) && Proper(w.sessions[o.current.id]);
    RotateCases(w.sessions, o.current.id, o.next, o.now);
  }

  /** A dead family stays dead, whatever happens, and no refresh of it succeeds again. */
  lemma {:induction false} DeadForever(w: World, steps: seq<Step>, family: string, s: Step)
    requires Inv(w) && Dead(w, family)
    ensures Dead(Run(w, steps), family) && !Refreshes(Run(w, steps), s, family)
    decreases |steps|
  {
    if steps == [] {
      DeadStep(w, s, family);
    } else {
      DeadStep(w, steps[0], family);
      StepKeepsInv(w, steps[0]);
      DeadForever(Do(w, steps[0]), steps[1..], family, s);
    }
  }

  lemma RotatedIsRevoked(w: World, id: string)
    requires Inv(w) && id in w.sessions && w.sessions[id].Rotated()
    ensures w.sessions[id].revokedAt.Some? && w.sessions[id].family in w.chains
  {
    assert Placed(w.sessions, w.chains, id) && Proper(w.sessions[id]);
    var c := w.chains[w.sessions[id].family];
    assert Chain(w.sessions, w.sessions[id].family, c);
    var i :| 0 <= i < |c| && c[i] == id;
    assert i < |c| - 1 ==> Replaced(w.sessions, c, i);
  }

  /** Looking up a rotated token can only lead to the revocation of its family. */
  lemma ReplayIsNoticed(w: World, op: nat, id: string, now: int)
    requires Inv(w) && id in w.sessions && w.sessions[id].Rotated() && op !in w.ops
    ensures Do(w, BeginRefresh(op, w.sessions[id].refreshHash, now)).ops[op] == Killing(w.sessions[id].family, now)
  {
    RotatedIsRevoked(w, id);
    assert Proper(w.sessions[id]);
    FindRefreshIsUnique(w.sessions, id);
  }

  /**
   Presenting a token that was already rotated: once the call has answered, no session of
   the family is live and no refresh of the family ever succeeds, whatever runs between
   the lookup and the revocation and whatever runs after.
   */
  lemma ReplayIsFatal(w: World, op: nat, id: string, now: int, between: seq<Step>, later: seq<Step>, s: Step)
    requires Inv(w) && id in w.sessions && w.sessions[id].Rotated() && op !in w.ops
    requires EndKill(op) !in between
    ensures var family := w.sessions[id].family;
      var found := Run(Do(w, BeginRefresh(op, w.sessions[id].refreshHash, now)), between);
      var answered := Do(found, EndKill(op));
      && op in answered.ops && answered.ops[op] == Done(Denied(RefreshReplay))
      && Dead(Run(answered, later), family)
      && !Refreshes(Run(answered, later), s, family)
  {
    var family := w.sessions[id].family;
    var begin := BeginRefresh(op, w.sessions[id].refreshHash, now);
    ReplayIsNoticed(w, op, id, now);
    StepKeepsInv(w, begin);
    RunKeepsInv(Do(w, begin), between);
    OpWaits(Do(w, begin), between, op);
    var found := Run(Do(w, begin), between);
    KillIsDeadly(found, op);
    StepKeepsInv(found, EndKill(op));
    DeadForever(Do(found, EndKill(op)), later, family, s);
  }

  lemma KillIsDeadly(w: World, op: nat)
    requires Inv(w) && op in w.ops && w.ops[op].Killing?
    ensures Dead(Do(w, EndKill(op)), w.ops[op].family)
  {
    assert OpInv(w, w.ops[op]);
  }

  /** The same at the rotation itself, for a token rotated after it was looked up. */
  lemma LateReplayIsFatal(w: World, op: nat, later: seq<Step>, s: Step)
    requires Inv(w) && op in w.ops && w.ops[op].Rotating?
    requires w.ops[op].current.id in w.sessions && w.sessions[w.ops[op].current.id].Rotated()
    requires w.ops[op].next.id != "" && w.ops[op].next.refreshHash != "" && w.ops[op].next.family != ""
    ensures var family := w.ops[op].current.family;
      var answered := Do(w, EndRefresh(op));
      && op in answered.ops && answered.ops[op] == Done(Denied(RefreshReplay))
      && Dead(Run(answered, later), family) && !Refreshes(Run(answered, later), s, family)
  {
    var o := w.ops[op];
    assert OpInv(w, o) && Proper(w.sessions[o.current.id]);
    RotateCases(w.sessions, o.current.id, o.next, o.now);
    assert Placed(w.sessions, w.chains, o.current.id);
    var answered := Do(w, EndRefresh(op));
    RotatedIsRevoked(w, o.current.id);
    assert Dead(answered, o.current.family);
    StepKeepsInv(w, EndRefresh(op));
    DeadForever(answered, later, o.current.family, s);
  }

  /** The step answers a caller with access to the account: an authentication or a refresh. */
  ghost predicate Admits(w: World, s: Step, account: string) {
    || (s.EndAuth? && s.op in w.ops && w.ops[s.op].Authenticating? && w.ops[s.op].session.accountId == account
          && s.op in Do(w, s).ops && Do(w, s).ops[s.op] == Done(Granted(w.ops[s.op].session)))
    || (s.EndRefresh? && s.op in w.ops && w.ops[s.op].Rotating? && w.ops[s.op].current.accountId == account
          && Rotate(w.sessions, w.ops[s.op].presented, w.ops[s.op].next, w.ops[s.op].now).1.Success?)
  }

  lemma DeactivatedStep(w: World, s: Step, account: string)
    requires Inv(w) && Deactivated(w, account)
    ensures Deactivated(Do(w, s), account) && !Admits(w, s, account)
  {
    if s.EndRefresh? && s.op in w.ops && w.ops[s.op].Rotating? {
      var o := w.ops[s.op];
      assert OpInv(w, o) && Proper(w.sessions[o.current.id]);
      RotateCases(w.sessions, o.current.id, o.next, o.now);
    }
  }

  /**
   Once an account is revoked no authentication and no refresh for it succeeds: not one
   already past its account check, and not one using a session stored afterwards.
   */
  lemma {:induction false} RevocationIsAbsorbing(w: World, steps: seq<Step>, account: string, s: Step)
    requires Inv(w) && Deactivated(w, account)
    ensures Deactivated(Run(w, steps), account) && !Admits(Run(w, steps), s, account)
    decreases |steps|
  {
    if steps == [] {
      DeactivatedStep(w, s, account);
    } else {
      DeactivatedStep(w, steps[0], account);
      StepKeepsInv(w, steps[0]);
      RevocationIsAbsorbing(Do(w, steps[0]), steps[1..], account, s);
    }
  }

  /**
   What revoking an account does not promise: a session stored by an issue that had already
   passed its account check stays unrevoked. That is the only way to one.
   */
  lemma LiveAfterRevocation(w: World, op: nat, account: string, now: int)
    requires Inv(w) && op !in w.ops && account in w.accounts
    ensures CanBeLive(Do(w, BeginRevoke(op, account, now)), account) <==> exists k :: LateIssue(w, k, account)
  {
    var r := Do(w, BeginRevoke(op, account, now));
    StepKeepsInv(w, BeginRevoke(op, account, now));
    assert !HasLive(r, account);
    forall k
      ensures LateIssue(r, k, account) <==> LateIssue(w, k, account)
    {
      if IssuingOp(w, k) {
        RevokingKeepsClashes(w.sessions, account, now, w.ops[k].session);
      }
    }
    if k :| LateIssue(w, k, account) {
      assert LateIssue(r, k, account);
      LateIssueLands(r, k, account);
    } else {
      forall steps
        ensures !HasLive(Run(r, steps), account)
      {
        StaysQuiet(r, steps, account);
      }
    }
  }

  lemma LateIssueLands(w: World, k: nat, account: string)
    requires Inv(w) && LateIssue(w, k, account)
    ensures CanBeLive(w, account)
  {
    var s, steps := w.ops[k].session, [EndIssue(k)];
    assert OpInv(w, w.ops[k]);
    assert Run(w, steps) == Run(Do(w, EndIssue(k)), []) == Do(w, EndIssue(k));
    assert s.id in Run(w, steps).sessions;
    assert HasLive(Run(w, steps), account);
  }

  lemma RevokingKeepsClashes(ss: Sessions, account: string, now: int, s: Session)
    ensures Clashes(RevokeOfAccount(ss, account, now), s) <==> Clashes(ss, s)
  {
    var tt := RevokeOfAccount(ss, account, now);
    if id :|
      id in ss && (ss[id].refreshHash == s.refreshHash || (s.accessHash != "" && ss[id].accessHash == s.accessHash))
    {
      assert id in tt;
    }
  }

  ghost predicate CanBeLive(w: World, account: string) {
    exists steps :: HasLive(Run(w, steps), account)
  }

  ghost predicate HasLive(w: World, account: string) {
    exists id :: id in w.sessions && w.sessions[id].accountId == account && w.sessions[id].revokedAt.None?
  }

  /** An issue for the account whose session the store would still accept. */
  ghost predicate LateIssue(w: World, k: nat, account: string) {
    && IssuingOp(w, k) && w.ops[k].session.accountId == account
    && Create(w.accounts, w.sessions, w.ops[k].session).1 == None
  }

  ghost predicate Quiet(w: World, account: string) {
    && Deactivated(w, account) && !HasLive(w, account)
    && forall k :: !LateIssue(w, k, account)
  }

  lemma ClashStays(ss: Sessions, tt: Sessions, s: Session)
    requires Grows(ss, tt) && Clashes(ss, s)
    ensures Clashes(tt, s)
  {
    if s.id !in ss {
      var id :| id in ss && (ss[id].refreshHash == s.refreshHash ||
        (s.accessHash != "" && ss[id].accessHash == s.accessHash));
      assert Kept(ss[id], tt[id]);
    }
  }

  lemma QuietStep(w: World, s: Step, account: string)
    requires Inv(w) && Quiet(w, account)
    ensures Quiet(Do(w, s), account)
  {
    var w' := Do(w, s);
    DeactivatedStep(w, s, account);
    forall k
      ensures !LateIssue(w', k, account)
    {
      if LateIssue(w', k, account) {
        LateIssueWasLate(w, s, k, account);
        assert false;
      }
    }
    forall id | id in w'.sessions && w'.sessions[id].accountId == account
      ensures w'.sessions[id].revokedAt.Some?
    {
      if w'.sessions[id].revokedAt.None? {
        NewLiveSession(w, s, id);
        assert false;
      }
    }
  }

  lemma IssuerIsOld(w: World, s: Step, k: nat)
    requires IssuingOp(Do(w, s), k)
    ensures || (IssuingOp(w, k) && w.ops[k] == Do(w, s).ops[k])
            || (s.BeginIssue? && Active(w, Do(w, s).ops[k].session.accountId))
  {
    if k in w.ops {
      OpProgresses(w, s, k);
    } else if s.EndRefresh? && s.op in w.ops && w.ops[s.op].Rotating? {
      RotationAnswers(w, s.op, w.ops[s.op]);
    }
  }

  lemma LateIssueWasLate(w: World, s: Step, k: nat, account: string)
    requires Inv(w) && Deactivated(w, account) && LateIssue(Do(w, s), k, account)
    ensures LateIssue(w, k, account)
  {
    var w' := Do(w, s);
    StepGrows(w, s);
    IssuerIsOld(w, s, k);
    if Clashes(w.sessions, w.ops[k].session) {
      ClashStays(w.sessions, w'.sessions, w.ops[k].session);
      assert false;
    }
  }

  /** A live session that was not live before was just issued or rotated in. */
  lemma NewLiveSession(w: World, s: Step, id: string)
    requires Inv(w) && id in Do(w, s).sessions && Do(w, s).sessions[id].revokedAt.None?
    ensures var a := Do(w, s).sessions[id].accountId;
      || (id in w.sessions && w.sessions[id].accountId == a && w.sessions[id].revokedAt.None?)
      || (s.EndIssue? && IssuingOp(w, s.op) && LateIssue(w, s.op, a))
      || Admits(w, s, a)
  {
    if id in w.sessions {
      StepGrows(w, s);
      assert Kept(w.sessions[id], Do(w, s).sessions[id]);
    } else if s.EndRefresh? && s.op in w.ops && w.ops[s.op].Rotating? {
      var o := w.ops[s.op];
      assert OpInv(w, o) && Proper(w.sessions[o.current.id]);
      RotateCases(w.sessions, o.current.id, o.next, o.now);
    } else if !(s.EndIssue? && IssuingOp(w, s.op)) {
      StepAddsNone(w, s);
    }
  }

  lemma {:induction false} StaysQuiet(w: World, steps: seq<Step>, account: string)
    requires Inv(w) && Quiet(w, account)
    ensures Quiet(Run(w, steps), account)
    decreases |steps|
  {
    if steps != [] {
      QuietStep(w, steps[0], account);
      StepKeepsInv(w, steps[0]);
      StaysQuiet(Do(w, steps[0]), steps[1..], account);
    }
  }

  // ---------------------------------------------------------------- an issue across a revocation

  const ROW := Account("a", "active")
  const LATE := Session("s", "a", "d", "x", 100, "r", "f", 200, None, None, "", None)

  /** An issue passes its account check, the account is revoked, and then the issue stores its session. */
  function LateIssueSteps(): seq<Step> {
    [NewAccount(ROW), BeginIssue(0, "a", "d", Names("s", "x", "r", "f"), 100, 200),
     BeginRevoke(1, "a", 5), EndRevoke(1), EndIssue(0)]
  }

  /** The account is revoked and has an unrevoked session. */
  lemma RevokedAccountKeepsLateSession()
    ensures var w := Run(INIT, LateIssueSteps());
      Deactivated(w, "a") && HasLive(w, "a") && w.sessions == map["s" := LATE]
  {
    var t := LateIssueSteps();
    NotBlank(ROW.id);
    var w2 := Do(Do(INIT, t[0]), t[1]);
    assert w2.ops == map[0 := Issuing(LATE)] && w2.accounts == map["a" := ROW] && w2.sessions == map[];
    LateSessionIsStored(w2);
    FiveSteps(INIT, t);
  }

  lemma LateSessionIsStored(w: World)
    requires w.ops == map[0 := Issuing(LATE)] && w.accounts == map["a" := ROW] && w.sessions == map[]
    ensures var w' := Do(Do(Do(w, BeginRevoke(1, "a", 5)), EndRevoke(1)), EndIssue(0));
      Deactivated(w', "a") && HasLive(w', "a") && w'.sessions == map["s" := LATE]
  {
    var r := Do(w, BeginRevoke(1, "a", 5));
    assert r.ops == map[0 := Issuing(LATE), 1 := Revoking("a", 5)] && r.sessions == map[];
    assert r.accounts == map["a" := ROW.(status := "revoked")];
    var e := Do(r, EndRevoke(1));
    LateSessionLands(e);
  }

  lemma LateSessionLands(e: World)
    requires 0 in e.ops && e.ops[0] == Issuing(LATE) && e.sessions == map[]
    requires e.accounts == map["a" := ROW.(status := "revoked")]
    ensures var w' := Do(e, EndIssue(0));
      Deactivated(w', "a") && HasLive(w', "a") && w'.sessions == map["s" := LATE]
  {
    assert Do(e, EndIssue(0)).sessions == map["s" := LATE];
  }

  lemma FiveSteps(w: World, t: seq<Step>)
    requires |t| == 5
    ensures Run(w, t) == Do(Do(Do(Do(Do(w, t[0]), t[1]), t[2]), t[3]), t[4])
  {
    assert t[1..][1..] == t[2..] && t[2..][1..] == t[3..] && t[3..][1..] == t[4..] && t[4..][1..] == [];
    var v := Do(Do(Do(w, t[0]), t[1]), t[2]);
    assert Run(v, t[3..]) == Run(Do(v, t[3]), t[4..]) == Do(Do(v, t[3]), t[4]);
    assert Run(Do(Do(w, t[0]), t[1]), t[2..]) == Run(v, t[3..]);
  }
}
