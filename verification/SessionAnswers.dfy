/**
 Whom the account service lets in: the answers of AuthenticateAccess, RefreshAt and
 IssueSession told from the stored sessions, in every interleaving.
 */
module SessionAnswers {
  import opened Wrappers
  import opened SessionStore
  import opened SessionProtocol

  /** A stored session keeps its tokens, expiries and owner, and stays revoked. */
  lemma {:induction false} SessionStays(w: World, steps: seq<Step>, id: string)
    requires Inv(w) && id in w.sessions
    ensures var w' := Run(w, steps); Inv(w') && id in w'.sessions && Kept(w.sessions[id], w'.sessions[id])
    decreases |steps|
  {
    if steps != [] {
      var next := Do(w, steps[0]);
      StepKeepsInv(w, steps[0]);
      StepGrows(w, steps[0]);
      assert Kept(w.sessions[id], next.sessions[id]);
      SessionStays(next, steps[1..], id);
    }
  }

  // ---------------------------------------------------------------- access tokens

  /** The session that an access token opens, as the store holds it. */
  ghost predicate Opens(w: World, access: string, s: Session) {
    access != "" && s.id in w.sessions && w.sessions[s.id] == s && s.accessHash == access
  }

  ghost predicate AccountIsActive(w: World, account: string) {
    account in w.accounts && w.accounts[account].status in {"", "active"}
  }

  /** The error for an account that is missing or not active. */
  function AccountRefusal(w: World, account: string): Error {
    if account !in w.accounts then NotFound else AccountRevoked
  }

  /** An account is stored unless its ID is blank or taken. */
  lemma AccountStoredExactly(w: World, a: Account)
    ensures var t := Do(w, NewAccount(a));
      t == w.(accounts := t.accounts) &&
      t.accounts == if a.id in w.accounts || Trim(a.id) == "" then w.accounts else w.accounts[a.id := a]
  {
    BlankIsTrimmed(a.id);
  }

  /**
   The access token of a session that is revoked, or whose access has expired, is refused:
   whatever ran before it is presented, and whatever runs until it is answered and after.
   */
  lemma DeadTokenIsRefused(w: World, id: string, before: seq<Step>, op: nat, now: int, later: seq<Step>)
    requires Inv(w) && id in w.sessions && w.sessions[id].accessHash != "" && op !in Run(w, before).ops
    requires w.sessions[id].revokedAt.Some? || now >= w.sessions[id].accessExpires
    ensures var r := Run(Do(Run(w, before), BeginAuth(op, w.sessions[id].accessHash, now)), later);
      op in r.ops && r.ops[op] == Done(Denied(SessionRevoked))
  {
    SessionStays(w, before, id);
    var w1 := Run(w, before);
    FindAccessIsUnique(w1.sessions, id);
    OpWaits(Do(w1, BeginAuth(op, w.sessions[id].accessHash, now)), later, op);
  }

  /**
   A session is let in by its access token exactly if it was unrevoked and its access unexpired
   at the lookup, and its account is active at the account check, whatever runs in between.
   */
  lemma LetInExactly(w: World, op: nat, access: string, now: int, between: seq<Step>, s: Session)
    requires Inv(w) && op !in w.ops && EndAuth(op) !in between
    ensures var seen := Run(Do(w, BeginAuth(op, access, now)), between);
      var r := Do(seen, EndAuth(op));
      && op in r.ops && r.ops[op].Done?
      && (r.ops[op] == Done(Granted(s)) <==>
            && Opens(w, access, s) && s.revokedAt == None && now < s.accessExpires
            && AccountIsActive(seen, s.accountId))
      && (Opens(w, access, s) && s.revokedAt == None && now < s.accessExpires && !AccountIsActive(seen, s.accountId) ==>
            r.ops[op] == Done(Denied(AccountRefusal(seen, s.accountId))))
      && ((forall t :: !Opens(w, access, t)) ==> r.ops[op] == Done(Denied(NotFound)))
  {
    var b := Do(w, BeginAuth(op, access, now));
    FoundExactly(w, op, access, now, s);
    OpWaits(b, between, op);
    CheckedExactly(Run(b, between), op, s);
  }

  lemma FoundExactly(w: World, op: nat, access: string, now: int, s: Session)
    requires Inv(w) && op !in w.ops
    ensures var b := Do(w, BeginAuth(op, access, now));
      && op in b.ops && (b.ops[op].Authenticating? || (b.ops[op].Done? && b.ops[op].result.Denied?))
      && (b.ops[op] == Authenticating(s) <==> Opens(w, access, s) && s.revokedAt == None && now < s.accessExpires)
      && ((forall t :: !Opens(w, access, t)) ==> b.ops[op] == Done(Denied(NotFound)))
  {
    if Opens(w, access, s) {
      FindAccessIsUnique(w.sessions, s.id);
    }
    if FindAccess(w.sessions, access).Some? {
      var id :| HoldsAccess(w.sessions, id, access) && FindAccess(w.sessions, access) == Some(w.sessions[id]);
      assert Opens(w, access, w.sessions[id]);
    }
  }

  lemma CheckedExactly(w: World, op: nat, s: Session)
    requires op in w.ops && (w.ops[op].Authenticating? || (w.ops[op].Done? && w.ops[op].result.Denied?))
    ensures var r := Do(w, EndAuth(op));
      && op in r.ops && r.ops[op].Done?
      && (r.ops[op] == Done(Granted(s)) <==> w.ops[op] == Authenticating(s) && AccountIsActive(w, s.accountId))
      && (w.ops[op] == Authenticating(s) && !AccountIsActive(w, s.accountId) ==>
            r.ops[op] == Done(Denied(AccountRefusal(w, s.accountId))))
      && (w.ops[op].Done? ==> r.ops[op] == w.ops[op])
  {
  }

  // ---------------------------------------------------------------- refresh tokens

  /** The session that a refresh token belongs to. */
  ghost predicate Presents(w: World, refresh: string, s: Session) {
    refresh != "" && s.id in w.sessions && w.sessions[s.id] == s && s.refreshHash == refresh
  }

  lemma PresentsOne(w: World, refresh: string)
    requires Inv(w)
    ensures FindRefresh(w.sessions, refresh).Some? ==>
      Presents(w, refresh, FindRefresh(w.sessions, refresh).value)
    ensures forall s :: Presents(w, refresh, s) ==> FindRefresh(w.sessions, refresh) == Some(s)
  {
    forall s | Presents(w, refresh, s)
      ensures FindRefresh(w.sessions, refresh) == Some(s)
    {
      FindRefreshIsUnique(w.sessions, s.id);
    }
    if FindRefresh(w.sessions, refresh).Some? {
      var id :| Holds(w.sessions, id, refresh) && FindRefresh(w.sessions, refresh) == Some(w.sessions[id]);
      assert w.sessions[id].id == id;
    }
  }

  /** An operation that was granted nothing and will be granted nothing. */
  ghost predicate Hopeless(w: World, op: nat) {
    op in w.ops && (w.ops[op].Killing? || (w.ops[op].Done? && w.ops[op].result.Denied?))
  }

  lemma {:induction false} HopelessStays(w: World, steps: seq<Step>, op: nat)
    requires Hopeless(w, op)
    ensures Hopeless(Run(w, steps), op)
    decreases |steps|
  {
    if steps != [] {
      OpProgresses(w, steps[0], op);
      HopelessStays(Do(w, steps[0]), steps[1..], op);
    }
  }

  /** The refresh token of a revoked or expired session is granted nothing, in any continuation. */
  lemma DeadRefreshIsRefused(w: World, id: string, before: seq<Step>, op: nat, now: int, later: seq<Step>)
    requires Inv(w) && id in w.sessions && op !in Run(w, before).ops
    requires w.sessions[id].revokedAt.Some? || now >= w.sessions[id].expires
    ensures var asked := Do(Run(w, before), BeginRefresh(op, w.sessions[id].refreshHash, now));
      && id in Run(w, before).sessions && Hopeless(asked, op) && Hopeless(Run(asked, later), op)
      && (Run(w, before).sessions[id].revokedAt.None? ==> asked.ops[op] == Done(Denied(RefreshExpired)))
  {
    SessionStays(w, before, id);
    var w1 := Run(w, before);
    assert Proper(w1.sessions[id]);
    FindRefreshIsUnique(w1.sessions, id);
    HopelessStays(Do(w1, BeginRefresh(op, w.sessions[id].refreshHash, now)), later, op);
  }

  /** No stored session has one of the new names. */
  ghost predicate Unclaimed(w: World, n: Names) {
    && n.id !in w.sessions
    && forall id :: id in w.sessions ==>
         w.sessions[id].refreshHash != n.refresh && (n.access == "" || w.sessions[id].accessHash != n.access)
  }

  /** The session under new names, for the owner and up to the expiry of an old one. */
  function Successor(s: Session, n: Names, accessExpires: int): Session {
    Session(n.id, s.accountId, s.deviceId, n.access, accessExpires, n.refresh, s.family, s.expires, None, None, "",
      None)
  }

  /**
   The answer of a refresh whose token was found live: it is granted exactly if the account is
   active at the check, and at the rotation the session is still unrevoked and the new names are
   unclaimed. What is granted is the successor of the session; it is stored, and the session itself
   is marked as rotated.
   */
  lemma RefreshGrantedExactly(
    w: World, op: nat, s: Session, now: int, b1: seq<Step>, n: Names, accessExpires: int, b2: seq<Step>)
    requires Inv(w) && op !in w.ops && Presents(w, s.refreshHash, s) && s.revokedAt == None && now < s.expires
    requires n.id != "" && n.refresh != "" && s.family != ""
    requires (forall x :: x in b1 ==> !(x.CheckRefresh? && x.op == op)) && EndRefresh(op) !in b2
    ensures var seen := Run(Do(w, BeginRefresh(op, s.refreshHash, now)), b1);
      var due := Run(Do(seen, CheckRefresh(op, n, accessExpires)), b2);
      var r := Do(due, EndRefresh(op));
      && s.id in due.sessions && op in r.ops && r.ops[op].Done?
      && (!AccountIsActive(seen, s.accountId) ==> r.ops[op] == Done(Denied(AccountRefusal(seen, s.accountId))))
      && (r.ops[op].result.Granted? <==>
            && AccountIsActive(seen, s.accountId)
            && due.sessions[s.id].revokedAt == None && Unclaimed(due, n))
      && (r.ops[op].result.Granted? ==>
            && r.ops[op].result.session == Successor(s, n, accessExpires)
            && r.sessions == due.sessions[
                 s.id := due.sessions[s.id].(
                   revokedAt := Some(now), rotatedAt := Some(now), replacedBy := n.refresh)
               ][n.id := Successor(s, n, accessExpires)])
  {
    var a := LiveTokenIsFound(w, op, s, now);
    OpWaits(a, b1, op);
    SessionStays(a, b1, s.id);
    var seen := Run(a, b1);
    var c := AccountIsChecked(seen, op, s, now, n, accessExpires);
    OpWaits(c, b2, op);
    SessionStays(c, b2, s.id);
    if AccountIsActive(seen, s.accountId) {
      RotationGrantsExactly(Run(c, b2), op, s, n, accessExpires, now);
    } else {
      RefusedStays(Run(c, b2), op);
    }
  }

  lemma LiveTokenIsFound(w: World, op: nat, s: Session, now: int) returns (a: World)
    requires Inv(w) && op !in w.ops && Presents(w, s.refreshHash, s) && s.revokedAt == None && now < s.expires
    ensures a == Do(w, BeginRefresh(op, s.refreshHash, now)) && Inv(a) && a.sessions == w.sessions
    ensures op in a.ops && a.ops[op] == Refreshing(s.refreshHash, s, now)
  {
    a := Do(w, BeginRefresh(op, s.refreshHash, now));
    PresentsOne(w, s.refreshHash);
    StepKeepsInv(w, BeginRefresh(op, s.refreshHash, now));
  }

  lemma AccountIsChecked(w: World, op: nat, s: Session, now: int, n: Names, accessExpires: int) returns (c: World)
    requires Inv(w) && op in w.ops && w.ops[op] == Refreshing(s.refreshHash, s, now)
    ensures c == Do(w, CheckRefresh(op, n, accessExpires)) && Inv(c) && c.sessions == w.sessions && op in c.ops
    ensures if AccountIsActive(w, s.accountId)
      then c.ops[op] == Rotating(s.refreshHash, s, Successor(s, n, accessExpires), now)
      else c.ops[op] == Done(Denied(AccountRefusal(w, s.accountId)))
  {
    c := Do(w, CheckRefresh(op, n, accessExpires));
    StepKeepsInv(w, CheckRefresh(op, n, accessExpires));
  }

  lemma RefusedStays(w: World, op: nat)
    requires op in w.ops && w.ops[op].Done?
    ensures Do(w, EndRefresh(op)) == w
  {
  }

  lemma RotationGrantsExactly(w: World, op: nat, s: Session, n: Names, accessExpires: int, now: int)
    requires Inv(w) && op in w.ops && s.id in w.sessions && Kept(s, w.sessions[s.id]) && now < s.expires
    requires w.ops[op] == Rotating(s.refreshHash, s, Successor(s, n, accessExpires), now)
    requires n.id != "" && n.refresh != "" && s.family != "" && s.refreshHash != ""
    ensures var r, next := Do(w, EndRefresh(op)), Successor(s, n, accessExpires);
      && op in r.ops && r.ops[op].Done?
      && (r.ops[op].result.Granted? <==> w.sessions[s.id].revokedAt == None && Unclaimed(w, n))
      && (r.ops[op].result.Granted? ==>
            && r.ops[op].result.session == next
            && r.sessions == w.sessions[
                 s.id := w.sessions[s.id].(revokedAt := Some(now), rotatedAt := Some(now), replacedBy := n.refresh)
               ][n.id := next])
  {
    FindRefreshIsUnique(w.sessions, s.id);
    assert Unclaimed(w, n) <==> !Clashes(w.sessions, Successor(s, n, accessExpires));
  }

  // ---------------------------------------------------------------- new sessions

  lemma {:induction false} AccountsStay(w: World, steps: seq<Step>, account: string)
    requires account in w.accounts
    ensures account in Run(w, steps).accounts
    decreases |steps|
  {
    if steps != [] {
      AccountsStay(Do(w, steps[0]), steps[1..], account);
    }
  }

  /**
   A session is issued exactly if its account is active at the check and its names are unclaimed at
   the insert. It is a new family of the account on the device, and nothing else changes.
   */
  lemma IssuedExactly(
    w: World, op: nat, account: string, device: string, n: Names, accessExpires: int, expires: int, between: seq<Step>)
    requires op !in w.ops && n.family !in w.families && EndIssue(op) !in between
    requires account != "" && n.id != "" && n.refresh != "" && n.family != ""
    ensures var s := Session(n.id, account, device, n.access, accessExpires, n.refresh, n.family, expires, None,
        None, "", None);
      var due := Run(Do(w, BeginIssue(op, account, device, n, accessExpires, expires)), between);
      var r := Do(due, EndIssue(op));
      && op in r.ops && r.ops[op].Done?
      && (r.ops[op].result.Granted? <==> AccountIsActive(w, account) && Unclaimed(due, n))
      && (r.ops[op].result.Granted? ==> r.ops[op].result.session == s && r.sessions == due.sessions[n.id := s])
      && (!r.ops[op].result.Granted? ==> r.sessions == due.sessions)
      && (!AccountIsActive(w, account) ==> r.ops[op] == Done(Denied(AccountRefusal(w, account))))
  {
    var begin := BeginIssue(op, account, device, n, accessExpires, expires);
    var b := Do(w, begin);
    OpWaits(b, between, op);
    if AccountIsActive(w, account) {
      AccountsStay(b, between, account);
      var s := b.ops[op].session;
      assert Unclaimed(Run(b, between), n) <==> !Clashes(Run(b, between).sessions, s);
    }
  }

  // ---------------------------------------------------------------- revocations

  /** What a revocation makes of one session: nothing if it is not concerned or was revoked before. */
  ghost predicate RevokedIf(s: Session, t: Session, concerned: bool, now: int) {
    t == if concerned && s.revokedAt == None then s.(revokedAt := Some(now)) else s
  }

  /** Each way to revoke concerns exactly its own sessions, and touches nothing else of any. */
  lemma LogoutConcernsOne(w: World, id: string, k: string, now: int)
    requires Inv(w) && id in w.sessions
    ensures var t := Do(w, DropSession(k, now)).sessions;
      t.Keys == w.sessions.Keys && RevokedIf(w.sessions[id], t[id], id == k, now)
  {
  }

  lemma DeviceRevocationConcernsDevice(w: World, id: string, account: string, device: string, now: int)
    requires Inv(w) && id in w.sessions
    ensures var s, t := w.sessions[id], Do(w, DropDevice(account, device, now)).sessions;
      t.Keys == w.sessions.Keys && RevokedIf(s, t[id], s.accountId == account && s.deviceId == device, now)
  {
  }

  lemma AccountRevocationConcernsAccount(w: World, id: string, account: string, op: nat, now: int)
    requires Inv(w) && id in w.sessions && op !in w.ops && account in w.accounts
    ensures var s, r := w.sessions[id], Do(w, BeginRevoke(op, account, now));
      && r.sessions.Keys == w.sessions.Keys && RevokedIf(s, r.sessions[id], s.accountId == account, now)
      && r.accounts == w.accounts[account := Account(w.accounts[account].id, "revoked")]
  {
  }

  /** The second pass of an account's revocation leaves none of its sessions unrevoked. */
  lemma RevocationEndsWithNone(w: World, op: nat, account: string, now: int)
    requires op in w.ops && w.ops[op] == Revoking(account, now)
    ensures var r := Do(w, EndRevoke(op));
      && op in r.ops && r.ops[op] == Done(Completed) && r.sessions.Keys == w.sessions.Keys
      && forall id :: id in w.sessions ==>
           RevokedIf(w.sessions[id], r.sessions[id], w.sessions[id].accountId == account, now)
  {
  }

  /** Revoking a family marks each of its sessions as well, so that their tokens count as replayed. */
  lemma FamilyRevocationMarks(w: World, id: string, family: string, now: int)
    requires Inv(w) && id in w.sessions
    ensures var s, t := w.sessions[id], Do(w, DropFamily(family, now)).sessions;
      && t.Keys == w.sessions.Keys
      && if s.family != family then t[id] == s
         else RevokedIf(s, t[id].(familyRevokedAt := s.familyRevokedAt), true, now)
              && t[id].familyRevokedAt == if s.familyRevokedAt.Some? then s.familyRevokedAt else Some(now)
  {
  }

  /** Logging a session out ends it: neither of its tokens is granted anything again, in any continuation. */
  lemma LogoutIsFinal(
    w: World, id: string, at: int, before: seq<Step>, a: nat, b: nat, now: int, later: seq<Step>)
    requires Inv(w) && id in w.sessions && w.sessions[id].accessHash != ""
    requires var w1 := Run(Do(w, DropSession(id, at)), before); a !in w1.ops && b !in w1.ops
    ensures var w1, s := Run(Do(w, DropSession(id, at)), before), w.sessions[id];
      var auth := Run(Do(w1, BeginAuth(a, s.accessHash, now)), later);
      && a in auth.ops && auth.ops[a] == Done(Denied(SessionRevoked))
      && Hopeless(Run(Do(w1, BeginRefresh(b, s.refreshHash, now)), later), b)
  {
    var out := Do(w, DropSession(id, at));
    StepKeepsInv(w, DropSession(id, at));
    DeadTokenIsRefused(out, id, before, a, now, later);
    DeadRefreshIsRefused(out, id, before, b, now, later);
  }
}
