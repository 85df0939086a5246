/**
 relay-server/internal/accounts/service.go: IssueSession, RefreshAt, AuthenticateAccess
 and RevokeAccount as sequences of repository calls, with any number of them in flight.

 A step is one repository call of one operation, so a sequence of steps is an
 interleaving. An operation that is never stepped again is one that crashed.
 Refresh rotation with replay detection is the scheme of section 10.4 of RFC 6749.
 */
module SessionProtocol {
  import opened Wrappers
  import opened SessionStore

  /** Where an operation stands: what it has read, and so what it will do next. */
  datatype Op =
    | Issuing(session: Session)                                            // account seen active
    | Refreshing(presented: string, current: Session, now: int)            // token found live
    | Rotating(presented: string, current: Session, next: Session, now: int)  // account seen active
    | Killing(family: string, now: int)                                    // token found already rotated
    | Authenticating(session: Session)                                     // access token found live
    | Revoking(account: string, now: int)                                  // account row revoked
    | Done(result: Outcome)

  datatype Outcome = Granted(session: Session) | Denied(error: Error) | Completed

  /**
   The stored maps, the operations in flight, the family IDs generated so far, and
   as a history variable the sessions of each family in order of creation.
   */
  datatype World = World(
    accounts: map<string, Account>, sessions: Sessions, ops: map<nat, Op>,
    families: set<string>, chains: map<string, seq<string>>)

  const INIT := World(map[], map[], map[], {}, map[])

  datatype Step =
    | NewAccount(row: Account)
    | BeginIssue(op: nat, account: string, device: string, names: Names, accessExpires: int, expires: int)
    | EndIssue(op: nat)
    | BeginRefresh(op: nat, presented: string, now: int)
    | CheckRefresh(op: nat, names: Names, accessExpires: int)
    | EndRefresh(op: nat)
    | EndKill(op: nat)
    | BeginAuth(op: nat, access: string, now: int)
    | EndAuth(op: nat)
    | BeginRevoke(op: nat, account: string, now: int)
    | EndRevoke(op: nat)
    | DropSession(id: string, now: int)
    | DropDevice(account: string, device: string, now: int)
    | DropFamily(family: string, now: int)

  /** The random values drawn by an operation; only family IDs need to be unused before. */
  datatype Names = Names(id: string, access: string, refresh: string, family: string)

  ghost predicate Active(w: World, account: string) {
    account in w.accounts && w.accounts[account].Active()
  }

  ghost predicate Deactivated(w: World, account: string) {
    account in w.accounts && !w.accounts[account].Active()
  }

  ghost function Note(w: World, op: nat, o: Op): World { w.(ops := w.ops[op := o]) }

  ghost function Deny(w: World, op: nat, e: Error): World { Note(w, op, Done(Denied(e))) }

  ghost function AccountError(w: World, account: string): Error {
    if account in w.accounts then AccountRevoked else NotFound
  }

  /** One step; a step that does not fit the state changes nothing. */
  ghost function Do(w: World, s: Step): World {
    match s
    case NewAccount(a) =>
      if Blank(a.id) || a.id in w.accounts then w else w.(accounts := w.accounts[a.id := a])
    case BeginIssue(op, account, device, n, accessExpires, expires) =>
      if op in w.ops || n.family in w.families then w
      else if !Active(w, account) then Deny(w, op, AccountError(w, account))
      else
        var session := Session(n.id, account, device, n.access, accessExpires, n.refresh, n.family, expires, None,
          None, "", None);
        Note(w, op, Issuing(session)).(families := w.families + {n.family})
    case EndIssue(op) =>
      if op !in w.ops || !w.ops[op].Issuing? then w else FinishIssue(w, op, w.ops[op].session)
    case BeginRefresh(op, presented, now) =>
      if op in w.ops then w else LookUp(w, op, presented, now)
    case CheckRefresh(op, n, accessExpires) =>
      if op !in w.ops || !w.ops[op].Refreshing? then w else CheckAccount(w, op, w.ops[op], n, accessExpires)
    case EndRefresh(op) =>
      if op !in w.ops || !w.ops[op].Rotating? then w else FinishRotation(w, op, w.ops[op])
    case EndKill(op) =>
      if op !in w.ops || !w.ops[op].Killing? then w
      else Deny(w.(sessions := RevokeFamily(w.sessions, w.ops[op].family, w.ops[op].now)), op, RefreshReplay)
    case BeginAuth(op, access, now) =>
      if op in w.ops then w else LookUpAccess(w, op, access, now)
    case EndAuth(op) =>
      if op !in w.ops || !w.ops[op].Authenticating? then w
      else
        var a := w.ops[op].session.accountId;
        if Active(w, a) then Note(w, op, Done(Granted(w.ops[op].session))) else Deny(w, op, AccountError(w, a))
    case BeginRevoke(op, account, now) =>
      if op in w.ops then w
      else if account !in w.accounts then Deny(w, op, NotFound)
      else Note(w.(accounts := w.accounts[account := w.accounts[account].(status := "revoked")],
                   sessions := RevokeOfAccount(w.sessions, account, now)), op, Revoking(account, now))
    case EndRevoke(op) =>
      if op !in w.ops || !w.ops[op].Revoking? then w
      else Note(w.(sessions := RevokeOfAccount(w.sessions, w.ops[op].account, w.ops[op].now)), op, Done(Completed))
    case DropSession(id, now) =>
      if id !in w.sessions then w else w.(sessions := w.sessions[id := w.sessions[id].Revoke(now)])
    case DropDevice(account, device, now) =>
      w.(sessions := RevokeOfDevice(w.sessions, account, device, now))
    case DropFamily(family, now) =>
      w.(sessions := RevokeFamily(w.sessions, family, now))
  }

  ghost function FinishIssue(w: World, op: nat, s: Session): World {
    var (ss, e) := Create(w.accounts, w.sessions, s);
    if e.Some? then Deny(w, op, e.value)
    else Note(w.(sessions := ss, chains := w.chains[s.family := [s.id]]), op, Done(Granted(s)))
  }

  ghost function LookUp(w: World, op: nat, presented: string, now: int): World {
    match FindRefresh(w.sessions, presented)
    case None => Deny(w, op, NotFound)
    case Some(s) =>
      if s.revokedAt.Some? then
        if s.Rotated() then Note(w, op, Killing(s.family, now)) else Deny(w, op, SessionRevoked)
      else if now >= s.expires then Deny(w, op, RefreshExpired)
      else Note(w, op, Refreshing(presented, s, now))
  }

  ghost function LookUpAccess(w: World, op: nat, access: string, now: int): World {
    match FindAccess(w.sessions, access)
    case None => Deny(w, op, NotFound)
    case Some(s) =>
      if now >= s.accessExpires then Deny(w, op, SessionRevoked)
      else if s.revokedAt.Some? then Deny(w, op, SessionRevoked)
      else Note(w, op, Authenticating(s))
  }

  ghost function CheckAccount(w: World, op: nat, o: Op, n: Names, accessExpires: int): World
    requires o.Refreshing?
  {
    var s := o.current;
    if !Active(w, s.accountId) then Deny(w, op, AccountError(w, s.accountId))
    else
      var next := Session(n.id, s.accountId, s.deviceId, n.access, accessExpires, n.refresh, s.family, s.expires, None,
        None, "", None);
      Note(w, op, Rotating(o.presented, s, next, o.now))
  }

  ghost function FinishRotation(w: World, op: nat, o: Op): World
    requires o.Rotating?
  {
    var (ss, r) := Rotate(w.sessions, o.presented, o.next, o.now);
    match r
    case Failure(e) => Deny(w.(sessions := ss), op, e)
    case Success(next) =>
      var chain := (if next.family in w.chains then w.chains[next.family] else []) + [next.id];
      Note(w.(sessions := ss, chains := w.chains[next.family := chain]), op, Done(Granted(next)))
  }

  ghost function Run(w: World, steps: seq<Step>): World
    decreases |steps|
  {
    if steps == [] then w else Run(Do(w, steps[0]), steps[1..])
  }

  // ---------------------------------------------------------------- the invariant

  /** The sessions of a family: one replacement chain, all but the last of it rotated away. */
  ghost predicate Chain(ss: Sessions, family: string, c: seq<string>) {
    && |c| > 0
    && (forall i {:trigger Member(ss, family, c, i)} :: 0 <= i < |c| ==> Member(ss, family, c, i))
    && (forall i, j :: 0 <= i < j < |c| ==> c[i] != c[j])
    && (forall i {:trigger Replaced(ss, c, i)} :: 0 <= i < |c| - 1 ==> Replaced(ss, c, i))
    && Member(ss, family, c, |c| - 1)
    && ss[c[|c| - 1]].rotatedAt.None? && ss[c[|c| - 1]].replacedBy == ""
  }

  /** One account and one absolute expiry per family. */
  ghost predicate Member(ss: Sessions, family: string, c: seq<string>, i: nat)
    requires i < |c|
  {
    && c[i] in ss && c[0] in ss && ss[c[i]].family == family
    && ss[c[i]].accountId == ss[c[0]].accountId && ss[c[i]].expires == ss[c[0]].expires
  }

  ghost predicate Replaced(ss: Sessions, c: seq<string>, i: nat)
    requires i + 1 < |c|
  {
    && c[i] in ss && c[i + 1] in ss
    && ss[c[i]].revokedAt.Some? && ss[c[i]].rotatedAt.Some?
    && ss[c[i]].replacedBy == ss[c[i + 1]].refreshHash
  }

  ghost predicate Placed(ss: Sessions, chains: map<string, seq<string>>, id: string)
    requires id in ss
  {
    ss[id].family in chains && id in chains[ss[id].family]
  }

  ghost predicate Chained(ss: Sessions, chains: map<string, seq<string>>) {
    && (forall f {:trigger Chain(ss, f, chains[f])} :: f in chains ==> Chain(ss, f, chains[f]))
    && (forall id {:trigger Placed(ss, chains, id)} :: id in ss ==> Placed(ss, chains, id))
  }

  ghost predicate Sound(ss: Sessions) {
    && Consistent(ss)
    && forall id {:trigger Proper(ss[id])} :: id in ss ==> Proper(ss[id])
  }

  ghost predicate Proper(s: Session) {
    s.refreshHash != "" && (s.familyRevokedAt.Some? ==> s.revokedAt.Some?)
  }

  /** `s` is an earlier reading of a stored session. */
  ghost predicate Read(ss: Sessions, s: Session) {
    && s.id in ss
    && ss[s.id].accountId == s.accountId && ss[s.id].family == s.family
    && ss[s.id].expires == s.expires && ss[s.id].refreshHash == s.refreshHash
  }

  ghost predicate Unused(s: Session) {
    s.revokedAt == None && s.familyRevokedAt == None && s.replacedBy == "" && s.rotatedAt == None
  }

  ghost predicate OpInv(w: World, o: Op) {
    match o
    case Issuing(s) => Unused(s) && s.family in w.families && s.family !in w.chains
    case Refreshing(presented, s, _) => Read(w.sessions, s) && s.refreshHash == presented
    case Rotating(presented, s, next, _) =>
      && Read(w.sessions, s) && s.refreshHash == presented
      && Unused(next) && next.accountId == s.accountId && next.family == s.family && next.expires == s.expires
      && s.accountId in w.accounts
      && (Deactivated(w, s.accountId) ==> w.sessions[s.id].revokedAt.Some?)
    case Killing(f, _) => f in w.chains
    case _ => true
  }

  ghost predicate IssuingOp(w: World, op: nat) { op in w.ops && w.ops[op].Issuing? }

  ghost predicate OpsInv(w: World) {
    && (forall op {:trigger OpInv(w, w.ops[op])} :: op in w.ops ==> OpInv(w, w.ops[op]))
    && (forall a, b {:trigger IssuingOp(w, a), IssuingOp(w, b)} ::
       IssuingOp(w, a) && IssuingOp(w, b) && w.ops[a].session.family == w.ops[b].session.family ==> a == b)
  }

  ghost predicate Inv(w: World) {
    var stored := Sound(w.sessions) && Chained(w.sessions, w.chains);
    var running := w.chains.Keys <= w.families && OpsInv(w);
    stored && running
  }

  /** What every call keeps of a stored session: its names, and that it is revoked. */
  ghost predicate Kept(s: Session, t: Session) {
    && t.id == s.id && t.accountId == s.accountId && t.deviceId == s.deviceId && t.family == s.family
    && t.expires == s.expires && t.accessExpires == s.accessExpires
    && t.refreshHash == s.refreshHash && t.accessHash == s.accessHash
    && (s.revokedAt.Some? ==> t.revokedAt.Some?)
  }

  ghost predicate Grows(ss: Sessions, tt: Sessions) {
    ss.Keys <= tt.Keys && forall id {:trigger Kept(ss[id], tt[id])} :: id in ss ==> Kept(ss[id], tt[id])
  }

  /** Only revocation marks are set. */
  ghost predicate Marked(s: Session, t: Session) {
    && Kept(s, t)
    && t.replacedBy == s.replacedBy && t.rotatedAt == s.rotatedAt
    && (t.familyRevokedAt.Some? && s.familyRevokedAt.None? ==> t.revokedAt.Some?)
  }

  ghost predicate Marks(ss: Sessions, tt: Sessions) {
    tt.Keys == ss.Keys && forall id {:trigger Marked(ss[id], tt[id])} :: id in ss ==> Marked(ss[id], tt[id])
  }

  lemma MarksKeepChains(ss: Sessions, tt: Sessions, chains: map<string, seq<string>>)
    requires Sound(ss) && Chained(ss, chains) && Marks(ss, tt)
    ensures Sound(tt) && Chained(tt, chains) && Grows(ss, tt)
  {
    forall id | id in ss
      ensures tt[id].id == ss[id].id
      ensures tt[id].refreshHash == ss[id].refreshHash && tt[id].accessHash == ss[id].accessHash
      ensures Kept(ss[id], tt[id]) && Proper(tt[id]) && Placed(tt, chains, id)
    {
      assert Marked(ss[id], tt[id]) && Proper(ss[id]) && Placed(ss, chains, id);
    }
    SameNamesConsistent(ss, tt);
    forall f | f in chains
      ensures Chain(tt, f, chains[f])
    {
      assert Chain(ss, f, chains[f]);
      MarksKeepChain(ss, tt, f, chains[f]);
    }
  }

  lemma MarksKeepChain(ss: Sessions, tt: Sessions, f: string, c: seq<string>)
    requires Chain(ss, f, c) && Marks(ss, tt)
    ensures Chain(tt, f, c)
  {
    forall i | 0 <= i < |c|
      ensures Member(tt, f, c, i)
    {
      assert Member(ss, f, c, i);
      assert Marked(ss[c[i]], tt[c[i]]);
      assert Marked(ss[c[0]], tt[c[0]]);
    }
    forall i | 0 <= i < |c| - 1
      ensures Replaced(tt, c, i)
    {
      assert Replaced(ss, c, i);
      assert Marked(ss[c[i]], tt[c[i]]);
      assert Member(ss, f, c, i + 1) && c[i + 1] in tt;
      assert Marked(ss[c[i + 1]], tt[c[i + 1]]);
    }
    assert Member(tt, f, c, |c| - 1);
    assert Marked(ss[c[|c| - 1]], tt[c[|c| - 1]]);
  }

  /** Stored sessions that grow keep the invariant of an operation in flight. */
  lemma GrowthKeepsOp(w: World, w': World, o: Op)
    requires OpInv(w, o) && Grows(w.sessions, w'.sessions)
    requires w'.accounts == w.accounts && w.families <= w'.families && w.chains.Keys <= w'.chains.Keys
    requires o.Issuing? ==> o.session.family !in w'.chains
    ensures OpInv(w', o)
  {
    if o.Refreshing? || o.Rotating? {
      assert Kept(w.sessions[o.current.id], w'.sessions[o.current.id]);
    }
  }

  lemma GrowthKeepsOps(w: World, w': World)
    requires OpsInv(w) && Grows(w.sessions, w'.sessions)
    requires w'.accounts == w.accounts && w'.families == w.families && w.chains.Keys <= w'.chains.Keys
    requires w'.ops.Keys <= w.ops.Keys && forall k :: k in w'.ops ==> w'.ops[k] == w.ops[k]
    requires forall k :: IssuingOp(w', k) ==> w.ops[k].session.family !in w'.chains
    ensures OpsInv(w')
  {
    forall k | k in w'.ops
      ensures OpInv(w', w'.ops[k])
    {
      assert w'.ops[k].Issuing? ==> IssuingOp(w', k);
      GrowthKeepsOp(w, w', w.ops[k]);
    }
    forall a, b | IssuingOp(w', a) && IssuingOp(w', b) && w'.ops[a].session.family == w'.ops[b].session.family
      ensures a == b
    {
      assert IssuingOp(w, a) && IssuingOp(w, b);
    }
  }

  lemma MarksKeepInv(w: World, tt: Sessions)
    requires Inv(w) && Marks(w.sessions, tt)
    ensures Inv(w.(sessions := tt))
  {
    MarksKeepChains(w.sessions, tt, w.chains);
    forall k | IssuingOp(w, k)
      ensures w.ops[k].session.family !in w.chains
    {
      assert OpInv(w, w.ops[k]);
    }
    GrowthKeepsOps(w, w.(sessions := tt));
  }

  lemma OpsNoted(w: World, op: nat, o: Op)
    requires OpsInv(w) && OpInv(w, o) && !o.Issuing?
    ensures OpsInv(Note(w, op, o))
  {
    var w' := Note(w, op, o);
    forall k | k in w'.ops
      ensures OpInv(w', w'.ops[k])
    {
      assert k != op ==> OpInv(w, w.ops[k]);
    }
    forall a, b | IssuingOp(w', a) && IssuingOp(w', b) && w'.ops[a].session.family == w'.ops[b].session.family
      ensures a == b
    {
      assert IssuingOp(w, a) && IssuingOp(w, b);
    }
  }

  lemma NoteKeepsInv(w: World, op: nat, o: Op)
    requires Inv(w) && OpInv(w, o) && !o.Issuing?
    ensures Inv(Note(w, op, o))
  {
    OpsNoted(w, op, o);
  }

  lemma BeginIssueKeepsInv(w: World, op: nat, s: Session)
    requires Inv(w) && op !in w.ops && Unused(s) && s.family !in w.families
    ensures Inv(Note(w, op, Issuing(s)).(families := w.families + {s.family}))
  {
    var w' := Note(w, op, Issuing(s)).(families := w.families + {s.family});
    forall k | k in w'.ops
      ensures OpInv(w', w'.ops[k])
    {
      assert k != op ==> OpInv(w, w.ops[k]);
    }
    forall a, b | IssuingOp(w', a) && IssuingOp(w', b) && w'.ops[a].session.family == w'.ops[b].session.family
      ensures a == b
    {
      assert a != op ==> IssuingOp(w, a) && OpInv(w, w.ops[a]);
      assert b != op ==> IssuingOp(w, b) && OpInv(w, w.ops[b]);
    }
  }

  /** Ending `op` with the stored sessions grown and its family, if new, recorded. */
  lemma OpEnded(w: World, op: nat, ss: Sessions, chains: map<string, seq<string>>, result: Outcome)
    requires Inv(w) && op in w.ops && Grows(w.sessions, ss)
    requires w.chains.Keys <= chains.Keys
    requires forall k :: k != op && IssuingOp(w, k) ==> w.ops[k].session.family !in chains
    ensures OpsInv(Note(w.(sessions := ss, chains := chains), op, Done(result)))
  {
    var mid := w.(sessions := ss, chains := chains, ops := w.ops - {op});
    GrowthKeepsOps(w, mid);
    OpsNoted(mid, op, Done(result));
    assert (w.ops - {op})[op := Done(result)] == w.ops[op := Done(result)];
  }

  lemma NewChain(ss: Sessions, chains: map<string, seq<string>>, s: Session)
    requires Sound(ss) && Chained(ss, chains) && s.family !in chains
    requires Unused(s) && s.id != "" && s.refreshHash != "" && !Clashes(ss, s)
    ensures Sound(ss[s.id := s]) && Chained(ss[s.id := s], chains[s.family := [s.id]]) && Grows(ss, ss[s.id := s])
  {
    var tt, cc := ss[s.id := s], chains[s.family := [s.id]];
    InsertConsistent(ss, s);
    forall id | id in tt
      ensures Proper(tt[id]) && Placed(tt, cc, id)
    {
      assert id != s.id ==> Proper(ss[id]) && Placed(ss, chains, id);
    }
    forall f | f in cc
      ensures Chain(tt, f, cc[f])
    {
      if f == s.family {
        assert Member(tt, f, cc[f], 0);
      } else {
        assert Chain(ss, f, chains[f]);
        forall i | 0 <= i < |chains[f]|
          ensures chains[f][i] in ss && chains[f][i] in tt && tt[chains[f][i]] == ss[chains[f][i]]
        {
          assert Member(ss, f, chains[f], i);
        }
        ChainKept(ss, tt, f, chains[f]);
      }
    }
  }

  /** A chain depends only on its own sessions. */
  lemma ChainKept(ss: Sessions, tt: Sessions, f: string, c: seq<string>)
    requires Chain(ss, f, c)
    requires forall i :: 0 <= i < |c| ==> c[i] in ss && c[i] in tt && tt[c[i]] == ss[c[i]]
    ensures Chain(tt, f, c)
  {
    forall i | 0 <= i < |c|
      ensures Member(tt, f, c, i)
    {
      assert Member(ss, f, c, i);
    }
    forall i | 0 <= i < |c| - 1
      ensures Replaced(tt, c, i)
    {
      assert Replaced(ss, c, i);
    }
    assert Member(ss, f, c, |c| - 1);
  }

  lemma EndIssueKeepsInv(w: World, op: nat)
    requires Inv(w) && IssuingOp(w, op)
    ensures Inv(FinishIssue(w, op, w.ops[op].session))
  {
    var s := w.ops[op].session;
    var (ss, e) := Create(w.accounts, w.sessions, s);
    assert OpInv(w, w.ops[op]);
    if e.Some? {
      NoteKeepsInv(w, op, Done(Denied(e.value)));
    } else {
      NewChain(w.sessions, w.chains, s);
      forall k | k != op && IssuingOp(w, k)
        ensures w.ops[k].session.family !in w.chains[s.family := [s.id]]
      {
        assert OpInv(w, w.ops[k]) && IssuingOp(w, op);
      }
      OpEnded(w, op, ss, w.chains[s.family := [s.id]], Granted(s));
    }
  }

  /** The session that is still live is the last of its chain. */
  lemma LiveIsLast(ss: Sessions, chains: map<string, seq<string>>, id: string)
    requires Chained(ss, chains) && id in ss && ss[id].revokedAt.None?
    ensures ss[id].family in chains
    ensures var c := chains[ss[id].family]; |c| > 0 && id == c[|c| - 1]
  {
    assert Placed(ss, chains, id);
    var c := chains[ss[id].family];
    assert Chain(ss, ss[id].family, c);
    var i :| 0 <= i < |c| && c[i] == id;
    assert i < |c| - 1 ==> Replaced(ss, c, i);
  }

  /** Rotation appends to the chain of the session it replaces. */
  lemma LongerChain(ss: Sessions, chains: map<string, seq<string>>, cur: Session, next: Session, now: int)
    requires Sound(ss) && Chained(ss, chains) && cur.id in ss && ss[cur.id] == cur && cur.revokedAt.None?
    requires Unused(next) && next.accountId == cur.accountId && next.family == cur.family && next.expires == cur.expires
    requires next.id != "" && next.refreshHash != "" && !Clashes(ss, next)
    ensures cur.family in chains
    ensures var tt := ss[cur.id := cur.RotateTo(next.refreshHash, now)][next.id := next];
      Sound(tt) && Chained(tt, chains[cur.family := chains[cur.family] + [next.id]]) && Grows(ss, tt)
  {
    var mid := ss[cur.id := cur.RotateTo(next.refreshHash, now)];
    var tt := mid[next.id := next];
    LiveIsLast(ss, chains, cur.id);
    var cc := chains[cur.family := chains[cur.family] + [next.id]];
    SameNamesConsistent(ss, mid);
    InsertConsistent(mid, next);
    forall id | id in tt
      ensures Proper(tt[id]) && Placed(tt, cc, id)
    {
      assert cc[cur.family][|chains[cur.family]|] == next.id;
      assert id != next.id ==> Proper(ss[id]) && Placed(ss, chains, id);
    }
    forall f | f in cc
      ensures Chain(tt, f, cc[f])
    {
      assert f in chains && Chain(ss, f, chains[f]);
      if f == cur.family {
        ExtendedChain(ss, tt, f, chains[f], cur, next, now);
      } else {
        forall i | 0 <= i < |chains[f]|
          ensures chains[f][i] in ss && chains[f][i] in tt && tt[chains[f][i]] == ss[chains[f][i]]
        {
          assert Member(ss, f, chains[f], i);
        }
        ChainKept(ss, tt, f, chains[f]);
      }
    }
  }

  lemma ExtendedChain(
    ss: Sessions, tt: Sessions, f: string, c: seq<string>, cur: Session, next: Session, now: int)
    requires Chain(ss, f, c) && cur.id == c[|c| - 1] && ss[cur.id] == cur && f == cur.family
    requires next.id !in ss && Unused(next)
    requires next.accountId == cur.accountId && next.family == cur.family && next.expires == cur.expires
    requires tt == ss[cur.id := cur.RotateTo(next.refreshHash, now)][next.id := next]
    ensures Chain(tt, f, c + [next.id])
  {
    var d := c + [next.id];
    forall i | 0 <= i < |d|
      ensures Member(tt, f, d, i)
    {
      assert Member(ss, f, c, 0) && Member(ss, f, c, |c| - 1);
      assert i < |c| ==> Member(ss, f, c, i);
    }
    forall i | 0 <= i < |d| - 1
      ensures Replaced(tt, d, i)
    {
      assert Member(ss, f, c, i);
      if i < |c| - 1 {
        assert Replaced(ss, c, i);
        assert Member(ss, f, c, i + 1);
      }
    }
    forall i | 0 <= i < |c|
      ensures c[i] != next.id
    {
      assert Member(ss, f, c, i);
    }
    assert Member(tt, f, d, |d| - 1);
  }

  /** What presenting the token of a stored session can do to the store. */
  lemma RotateCases(ss: Sessions, id: string, next: Session, now: int)
    requires Consistent(ss) && id in ss && ss[id].refreshHash != ""
    ensures var (tt, r) := Rotate(ss, ss[id].refreshHash, next, now);
      if r.Success? then
        && r.value == next && ss[id].revokedAt.None? && now < ss[id].expires
        && next.accountId == ss[id].accountId && next.family == ss[id].family
        && next.id != "" && next.refreshHash != "" && !Clashes(ss, next)
        && tt == ss[id := ss[id].RotateTo(next.refreshHash, now)][next.id := next]
      else
        tt == if r.error == RefreshReplay then RevokeFamily(ss, ss[id].family, now) else ss
    ensures
      ss[id].revokedAt.Some? && ss[id].Rotated() && next.id != "" && next.refreshHash != "" && next.family != "" ==>
      Rotate(ss, ss[id].refreshHash, next, now).1 == Failure(RefreshReplay)
  {
    FindRefreshIsUnique(ss, id);
  }

  lemma EndRefreshKeepsInv(w: World, op: nat)
    requires Inv(w) && op in w.ops && w.ops[op].Rotating?
    ensures Inv(FinishRotation(w, op, w.ops[op]))
  {
    var o := w.ops[op];
    assert OpInv(w, o);
    var id := o.current.id;
    var (ss, r) := Rotate(w.sessions, o.presented, o.next, o.now);
    assert Proper(w.sessions[id]);
    RotateCases(w.sessions, id, o.next, o.now);
    if r.Failure? {
      MarkAndEndKeepsInv(w, ss, op, Denied(r.error));
    } else {
      EndRotationKeepsInv(w, op, o);
    }
  }

  lemma EndRotationKeepsInv(w: World, op: nat, o: Op)
    requires Inv(w) && op in w.ops && w.ops[op] == o && o.Rotating? && OpInv(w, o)
    requires w.sessions[o.current.id].revokedAt.None?
    requires o.next.id != "" && o.next.refreshHash != "" && !Clashes(w.sessions, o.next)
    ensures w.sessions[o.current.id].family in w.chains
    ensures var cur := w.sessions[o.current.id];
      var ss := w.sessions[cur.id := cur.RotateTo(o.next.refreshHash, o.now)][o.next.id := o.next];
      var chains := w.chains[cur.family := w.chains[cur.family] + [o.next.id]];
      Inv(Note(w.(sessions := ss, chains := chains), op, Done(Granted(o.next))))
  {
    var cur := w.sessions[o.current.id];
    var ss := w.sessions[cur.id := cur.RotateTo(o.next.refreshHash, o.now)][o.next.id := o.next];
    LongerChain(w.sessions, w.chains, cur, o.next, o.now);
    var chains := w.chains[cur.family := w.chains[cur.family] + [o.next.id]];
    forall k | k != op && IssuingOp(w, k)
      ensures w.ops[k].session.family !in chains
    {
      assert OpInv(w, w.ops[k]);
    }
    OpEnded(w, op, ss, chains, Granted(o.next));
  }

  lemma AccountMarks(ss: Sessions, account: string, now: int)
    ensures Marks(ss, RevokeOfAccount(ss, account, now))
  {
  }

  lemma DeviceMarks(ss: Sessions, account: string, device: string, now: int)
    ensures Marks(ss, RevokeOfDevice(ss, account, device, now))
  {
  }

  lemma BeginRevokeKeepsInv(w: World, op: nat, account: string, now: int)
    requires Inv(w) && op !in w.ops && account in w.accounts
    ensures Inv(Do(w, BeginRevoke(op, account, now)))
  {
    var tt := RevokeOfAccount(w.sessions, account, now);
    AccountMarks(w.sessions, account, now);
    MarksKeepInv(w, tt);
    var w1 := w.(sessions := tt);
    var w2 := w1.(accounts := w.accounts[account := w.accounts[account].(status := "revoked")]);
    forall k | k in w2.ops
      ensures OpInv(w2, w2.ops[k])
    {
      assert OpInv(w1, w1.ops[k]);
    }
    IssuersKept(w, w2);
    NoteKeepsInv(w2, op, Revoking(account, now));
  }

  lemma IssuersKept(w: World, w': World)
    requires OpsInv(w) && w'.ops == w.ops
    requires forall op :: op in w'.ops ==> OpInv(w', w'.ops[op])
    ensures OpsInv(w')
  {
    forall a, b | IssuingOp(w', a) && IssuingOp(w', b) && w'.ops[a].session.family == w'.ops[b].session.family
      ensures a == b
    {
      assert IssuingOp(w, a) && IssuingOp(w, b);
    }
  }

  lemma NewAccountKeepsInv(w: World, a: Account)
    requires Inv(w) && a.id !in w.accounts
    ensures Inv(w.(accounts := w.accounts[a.id := a]))
  {
    var w' := w.(accounts := w.accounts[a.id := a]);
    forall k | k in w'.ops
      ensures OpInv(w', w'.ops[k])
    {
      assert OpInv(w, w.ops[k]);
    }
    IssuersKept(w, w');
  }

  lemma LookUpNotes(w: World, op: nat, presented: string, now: int)
    requires Sound(w.sessions) && Chained(w.sessions, w.chains)
    ensures var w' := LookUp(w, op, presented, now);
      op in w'.ops && w' == Note(w, op, w'.ops[op]) && OpInv(w, w'.ops[op]) && !w'.ops[op].Issuing?
  {
    var found := FindRefresh(w.sessions, presented);
    assert found.Some? ==> Placed(w.sessions, w.chains, found.value.id);
  }

  lemma LookUpKeepsInv(w: World, op: nat, presented: string, now: int)
    requires Inv(w)
    ensures Inv(LookUp(w, op, presented, now))
  {
    LookUpNotes(w, op, presented, now);
    NoteKeepsInv(w, op, LookUp(w, op, presented, now).ops[op]);
  }

  lemma MarkAndEndKeepsInv(w: World, tt: Sessions, op: nat, result: Outcome)
    requires Inv(w) && Marks(w.sessions, tt)
    ensures Inv(Note(w.(sessions := tt), op, Done(result)))
  {
    MarksKeepInv(w, tt);
    NoteKeepsInv(w.(sessions := tt), op, Done(result));
  }

  lemma CheckAccountKeepsInv(w: World, op: nat, n: Names, accessExpires: int)
    requires Inv(w) && op in w.ops && w.ops[op].Refreshing?
    ensures Inv(CheckAccount(w, op, w.ops[op], n, accessExpires))
  {
    assert OpInv(w, w.ops[op]);
    NoteKeepsInv(w, op, CheckAccount(w, op, w.ops[op], n, accessExpires).ops[op]);
  }

  lemma IssueCheckKeepsInv(w: World, s: Step)
    requires Inv(w) && s.BeginIssue? && s.op !in w.ops && s.names.family !in w.families
    ensures Inv(Do(w, s))
  {
    var n := s.names;
    if Active(w, s.account) {
      BeginIssueKeepsInv(w, s.op,
        Session(n.id, s.account, s.device, n.access, s.accessExpires, n.refresh, n.family, s.expires, None, None, "",
          None));
    } else {
      NoteKeepsInv(w, s.op, Done(Denied(AccountError(w, s.account))));
    }
  }

  lemma AuthKeepsInv(w: World, s: Step)
    requires Inv(w) && (s.BeginAuth? || s.EndAuth?)
    ensures Inv(Do(w, s))
  {
    if s.BeginAuth? {
      BeginAuthKeepsInv(w, s);
    } else {
      EndAuthKeepsInv(w, s);
    }
  }

  lemma BeginAuthKeepsInv(w: World, s: Step)
    requires Inv(w) && s.BeginAuth?
    ensures Inv(Do(w, s))
  {
    if s.op !in w.ops {
      LookUpAccessNotes(w, s.op, s.access, s.now);
      NoteKeepsInv(w, s.op, Do(w, s).ops[s.op]);
    }
  }

  lemma LookUpAccessNotes(w: World, op: nat, access: string, now: int)
    ensures var w' := LookUpAccess(w, op, access, now);
      op in w'.ops && w' == Note(w, op, w'.ops[op]) && OpInv(w, w'.ops[op]) && !w'.ops[op].Issuing?
  {
  }

  lemma EndAuthKeepsInv(w: World, s: Step)
    requires Inv(w) && s.EndAuth?
    ensures Inv(Do(w, s))
  {
    if Do(w, s) != w {
      NoteKeepsInv(w, s.op, Do(w, s).ops[s.op]);
    }
  }

  predicate Begins(s: Step) {
    s.NewAccount? || s.BeginIssue? || s.BeginRefresh? || s.CheckRefresh? || s.BeginAuth? || s.EndAuth?
  }

  lemma BeginKeepsInv(w: World, s: Step)
    requires Inv(w) && Begins(s)
    ensures Inv(Do(w, s))
  {
    if s.NewAccount? && s.row.id !in w.accounts {
      NewAccountKeepsInv(w, s.row);
    } else if s.BeginIssue? && s.op !in w.ops && s.names.family !in w.families {
      IssueCheckKeepsInv(w, s);
    } else if s.BeginRefresh? && s.op !in w.ops {
      LookUpKeepsInv(w, s.op, s.presented, s.now);
    } else if s.CheckRefresh? && s.op in w.ops && w.ops[s.op].Refreshing? {
      CheckAccountKeepsInv(w, s.op, s.names, s.accessExpires);
    } else if s.BeginAuth? || s.EndAuth? {
      AuthKeepsInv(w, s);
    }
  }

  lemma EndKeepsInv(w: World, s: Step)
    requires Inv(w) && !Begins(s)
    ensures Inv(Do(w, s))
  {
    var w' := Do(w, s);
    if w' != w {
      match s
      case EndIssue(op) =>
        EndIssueKeepsInv(w, op);
      case EndRefresh(op) =>
        EndRefreshKeepsInv(w, op);
      case EndKill(op) =>
        MarkAndEndKeepsInv(w, w'.sessions, op, Denied(RefreshReplay));
      case BeginRevoke(op, account, now) =>
        if account in w.accounts { BeginRevokeKeepsInv(w, op, account, now); }
        else { NoteKeepsInv(w, op, w'.ops[op]); }
      case EndRevoke(op) =>
        AccountMarks(w.sessions, w.ops[op].account, w.ops[op].now);
        MarkAndEndKeepsInv(w, w'.sessions, op, Completed);
      case _ => DropKeepsInv(w, s);
    }
  }

  lemma DropKeepsInv(w: World, s: Step)
    requires Inv(w) && (s.DropSession? || s.DropDevice? || s.DropFamily?)
    ensures Inv(Do(w, s))
  {
    var ss := Do(w, s).sessions;
    if s.DropDevice? {
      DeviceMarks(w.sessions, s.account, s.device, s.now);
    }
    MarksKeepInv(w, ss);
  }

  lemma StepKeepsInv(w: World, s: Step)
    requires Inv(w)
    ensures Inv(Do(w, s))
  {
    if Begins(s) {
      BeginKeepsInv(w, s);
    } else {
      EndKeepsInv(w, s);
    }
  }

  lemma {:induction false} RunKeepsInv(w: World, steps: seq<Step>)
    requires Inv(w)
    ensures Inv(Run(w, steps))
    decreases |steps|
  {
    if steps != [] {
      StepKeepsInv(w, steps[0]);
      RunKeepsInv(Do(w, steps[0]), steps[1..]);
    }
  }

  // ---------------------------------------------------------------- no step takes a session or its revocation back

  lemma MarksGrow(ss: Sessions, tt: Sessions)
    requires Marks(ss, tt)
    ensures Grows(ss, tt)
  {
    forall id | id in ss
      ensures Kept(ss[id], tt[id])
    {
      assert Marked(ss[id], tt[id]);
    }
  }

  lemma StepGrows(w: World, s: Step)
    requires Inv(w)
    ensures Grows(w.sessions, Do(w, s).sessions)
  {
    var ss := w.sessions;
    assert Grows(ss, ss);
    match s
    case EndRefresh(op) =>
      if op in w.ops && w.ops[op].Rotating? { RotationGrows(w, op); }
    case EndKill(op) =>
      if op in w.ops && w.ops[op].Killing? { FamilyGrows(ss, w.ops[op].family, w.ops[op].now); }
    case BeginRevoke(_, account, now) =>
      AccountGrows(ss, account, now);
    case EndRevoke(op) =>
      if op in w.ops && w.ops[op].Revoking? { AccountGrows(ss, w.ops[op].account, w.ops[op].now); }
    case DropDevice(account, device, now) =>
      DeviceMarks(ss, account, device, now);
      MarksGrow(ss, RevokeOfDevice(ss, account, device, now));
    case DropFamily(family, now) =>
      FamilyGrows(ss, family, now);
    case _ => OtherStepGrows(w, s);
  }

  lemma OtherStepGrows(w: World, s: Step)
    requires Inv(w) && !s.EndRefresh? && !s.EndKill? && !s.BeginRevoke? && !s.EndRevoke? && !s.DropDevice? &&
      !s.DropFamily?
    ensures Grows(w.sessions, Do(w, s).sessions)
  {
    if !s.EndIssue? && !s.DropSession? {
      NoSessionStep(w, s);
    }
  }

  lemma NoSessionStep(w: World, s: Step)
    requires s.BeginIssue? || s.BeginAuth? || s.EndAuth? || s.BeginRefresh? || s.CheckRefresh? || s.NewAccount?
    ensures Do(w, s).sessions == w.sessions && Do(w, s).chains == w.chains
  {
  }

  lemma FamilyGrows(ss: Sessions, family: string, now: int)
    ensures Grows(ss, RevokeFamily(ss, family, now))
  {
    MarksGrow(ss, RevokeFamily(ss, family, now));
  }

  lemma AccountGrows(ss: Sessions, account: string, now: int)
    ensures Grows(ss, RevokeOfAccount(ss, account, now))
  {
    AccountMarks(ss, account, now);
    MarksGrow(ss, RevokeOfAccount(ss, account, now));
  }

  lemma RotationGrows(w: World, op: nat)
    requires Inv(w) && op in w.ops && w.ops[op].Rotating?
    ensures Grows(w.sessions, FinishRotation(w, op, w.ops[op]).sessions)
  {
    var ss, o := w.sessions, w.ops[op];
    assert OpInv(w, o) && Proper(ss[o.current.id]);
    RotateCases(ss, o.current.id, o.next, o.now);
    FamilyGrows(ss, ss[o.current.id].family, o.now);
  }

  // ---------------------------------------------------------------- operations in flight

  /** An operation changes only by its own steps, and goes on concerning the same family. */
  predicate Advances(s: Step, op: nat, o: Op) {
    || (s == EndIssue(op) && o.Issuing?) || (s.CheckRefresh? && s.op == op && o.Refreshing?)
    || (s == EndRefresh(op) && o.Rotating?) || (s == EndKill(op) && o.Killing?)
    || (s == EndAuth(op) && o.Authenticating?) || (s == EndRevoke(op) && o.Revoking?)
  }

  lemma OpUnmoved(w: World, s: Step, op: nat)
    requires op in w.ops && !Advances(s, op, w.ops[op])
    ensures op in Do(w, s).ops && Do(w, s).ops[op] == w.ops[op]
  {
    if s.EndRefresh? && s.op in w.ops && w.ops[s.op].Rotating? {
      RotationAnswers(w, s.op, w.ops[s.op]);
    }
  }

  lemma OpProgresses(w: World, s: Step, op: nat)
    requires op in w.ops
    ensures op in Do(w, s).ops
    ensures Do(w, s).ops[op] == w.ops[op] || ProgressOf(w.ops[op], Do(w, s).ops[op])
  {
    if !Advances(s, op, w.ops[op]) {
      OpUnmoved(w, s, op);
    } else if s.EndRefresh? {
      RotationAnswers(w, op, w.ops[op]);
    } else if s.CheckRefresh? {
      assert ProgressOf(w.ops[op], CheckAccount(w, op, w.ops[op], s.names, s.accessExpires).ops[op]);
    }
  }

  lemma RotationAnswers(w: World, op: nat, o: Op)
    requires o.Rotating?
    ensures var w' := FinishRotation(w, op, o);
      op in w'.ops && ProgressOf(o, w'.ops[op]) && w'.ops == w.ops[op := w'.ops[op]]
  {
    var (ss, r) := Rotate(w.sessions, o.presented, o.next, o.now);
    assert r.Success? ==> r.value == o.next;
  }

  ghost predicate ProgressOf(o: Op, p: Op) {
    match o
    case Issuing(s) => p == Done(Granted(s)) || (p.Done? && p.result.Denied?)
    case Refreshing(presented, s, _) =>
      (p.Rotating? && p.presented == presented && p.current == s && p.next.family == s.family)
      || (p.Done? && p.result.Denied?)
    case Rotating(_, s, next, _) => p == Done(Granted(next)) || (p.Done? && p.result.Denied?)
    case Done(_) => false
    case Killing(_, _) => p.Done? && p.result.Denied?
    case _ => p.Done?
  }

  /** Until its own next step an operation waits. */
  lemma {:induction false} OpWaits(w: World, steps: seq<Step>, op: nat)
    requires op in w.ops && forall s :: s in steps ==> !Advances(s, op, w.ops[op])
    ensures var w' := Run(w, steps); op in w'.ops && w'.ops[op] == w.ops[op]
    decreases |steps|
  {
    if steps != [] {
      OpUnmoved(w, steps[0], op);
      OpWaits(Do(w, steps[0]), steps[1..], op);
    }
  }
}
