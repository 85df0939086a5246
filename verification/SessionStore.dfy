/**
 relay-server/internal/accounts/memory.go: the account and session maps, each
 repository call first as a function on the stored values and then as the
 method that scans and updates the maps in place.

 Tokens appear only as their hashes, taken to be injective; `now` is the caller's clock.
 */
module SessionStore {
  import opened Wrappers

  datatype Account = Account(id: string, status: string) {
    predicate Active() { status == "" || status == "active" }
  }

  datatype Session = Session(
    id: string, accountId: string, deviceId: string,
    accessHash: string, accessExpires: int, refreshHash: string, family: string, expires: int,
    revokedAt: Option<int>, familyRevokedAt: Option<int>, replacedBy: string, rotatedAt: Option<int>)
  {
    /** The mark that tells a replayed credential from one that was merely revoked. */
    predicate Rotated() { familyRevokedAt.Some? || replacedBy != "" || rotatedAt.Some? }

    function Revoke(now: int): Session {
      if revokedAt.None? then this.(revokedAt := Some(now)) else this
    }

    function RevokeWithFamily(now: int): Session {
      var s := Revoke(now);
      if s.familyRevokedAt.None? then s.(familyRevokedAt := Some(now)) else s
    }

    function RotateTo(next: string, now: int): Session {
      this.(revokedAt := Some(now), replacedBy := next, rotatedAt := Some(now))
    }
  }

  datatype Error =
    InvalidInput | NotFound | AlreadyExists | RefreshReplay | SessionRevoked | RefreshExpired | AccountRevoked

  type Sessions = map<string, Session>

  // ---------------------------------------------------------------- the calls, on values

  /** Sessions are keyed by their ID, and no two share a refresh hash or an access hash. */
  ghost predicate Consistent(ss: Sessions) {
    && (forall id :: id in ss ==> ss[id].id == id && id != "")
    && (forall a, b, hash :: Holds(ss, a, hash) && Holds(ss, b, hash) ==> a == b)
    && (forall a, b, hash :: HoldsAccess(ss, a, hash) && HoldsAccess(ss, b, hash) ==> a == b)
  }

  /** A session without an access hash is found by none. */
  ghost predicate HoldsAccess(ss: Sessions, id: string, hash: string) {
    hash != "" && id in ss && ss[id].accessHash == hash
  }

  ghost function FindAccess(ss: Sessions, hash: string): (r: Option<Session>)
    ensures r.Some? ==> r.value.id in ss || !Consistent(ss)
  {
    if exists id :: HoldsAccess(ss, id, hash)
    then var id :| HoldsAccess(ss, id, hash); Some(ss[id])
    else None
  }

  lemma FindAccessIsUnique(ss: Sessions, id: string)
    requires Consistent(ss) && id in ss && ss[id].accessHash != ""
    ensures FindAccess(ss, ss[id].accessHash) == Some(ss[id])
  {
    assert HoldsAccess(ss, id, ss[id].accessHash);
  }

  ghost predicate Holds(ss: Sessions, id: string, hash: string) {
    id in ss && ss[id].refreshHash == hash
  }

  ghost function FindRefresh(ss: Sessions, hash: string): (r: Option<Session>)
    ensures r.Some? ==> r.value.id in ss || !Consistent(ss)
  {
    if hash != "" && exists id :: Holds(ss, id, hash)
    then var id :| Holds(ss, id, hash); Some(ss[id])
    else None
  }

  ghost predicate Clashes(ss: Sessions, s: Session) {
    || s.id in ss
    || exists id :: id in ss && (ss[id].refreshHash == s.refreshHash
                                 || (s.accessHash != "" && ss[id].accessHash == s.accessHash))
  }

  ghost function RevokeFamily(ss: Sessions, family: string, now: int): Sessions {
    map id | id in ss :: if ss[id].family == family then ss[id].RevokeWithFamily(now) else ss[id]
  }

  ghost function RevokeOfAccount(ss: Sessions, account: string, now: int): Sessions {
    map id | id in ss :: if ss[id].accountId == account then ss[id].Revoke(now) else ss[id]
  }

  ghost function RevokeOfDevice(ss: Sessions, account: string, device: string, now: int): Sessions {
    map id | id in ss ::
      if ss[id].accountId == account && ss[id].deviceId == device then ss[id].Revoke(now) else ss[id]
  }

  ghost function Create(accounts: map<string, Account>, ss: Sessions, s: Session): (r: (Sessions, Option<Error>)) {
    if s.id == "" || s.accountId == "" || s.refreshHash == "" || s.family == "" then (ss, Some(InvalidInput))
    else if s.accountId !in accounts then (ss, Some(NotFound))
    else if Clashes(ss, s) then (ss, Some(AlreadyExists))
    else (ss[s.id := s], None)
  }

  /** Rotation: one transaction that also detects a replayed credential. */
  ghost function Rotate(
    ss: Sessions, presented: string, next: Session, now: int): (r: (Sessions, Result<Session, Error>)) {
    if presented == "" || next.id == "" || next.refreshHash == "" || next.family == "" then (ss, Failure(InvalidInput))
    else match FindRefresh(ss, presented)
      case None => (ss, Failure(NotFound))
      case Some(cur) =>
        if cur.revokedAt.Some? then
          if cur.Rotated() then (RevokeFamily(ss, cur.family, now), Failure(RefreshReplay))
          else (ss, Failure(SessionRevoked))
        else if now >= cur.expires then (ss, Failure(RefreshExpired))
        else if next.accountId != cur.accountId || next.family != cur.family then (ss, Failure(InvalidInput))
        else if Clashes(ss, next) then (ss, Failure(AlreadyExists))
        else (ss[cur.id := cur.RotateTo(next.refreshHash, now)][next.id := next], Success(next))
  }

  lemma FindRefreshIsUnique(ss: Sessions, id: string)
    requires Consistent(ss) && id in ss && ss[id].refreshHash != ""
    ensures FindRefresh(ss, ss[id].refreshHash) == Some(ss[id])
  {
    assert Holds(ss, id, ss[id].refreshHash);
  }

  /** Marking sessions leaves the names the consistency is about alone. */
  lemma SameNamesConsistent(ss: Sessions, tt: Sessions)
    requires Consistent(ss) && ss.Keys == tt.Keys
    requires forall id :: id in ss ==>
      tt[id].id == ss[id].id && tt[id].refreshHash == ss[id].refreshHash && tt[id].accessHash == ss[id].accessHash
    ensures Consistent(tt)
  {
    forall a, b, hash | Holds(tt, a, hash) && Holds(tt, b, hash)
      ensures a == b
    {
      assert Holds(ss, a, hash) && Holds(ss, b, hash);
    }
    forall a, b, hash | HoldsAccess(tt, a, hash) && HoldsAccess(tt, b, hash)
      ensures a == b
    {
      assert HoldsAccess(ss, a, hash) && HoldsAccess(ss, b, hash);
    }
  }

  lemma InsertConsistent(ss: Sessions, s: Session)
    requires Consistent(ss) && s.id != "" && !Clashes(ss, s)
    ensures Consistent(ss[s.id := s])
  {
    var tt := ss[s.id := s];
    forall a, b, hash | Holds(tt, a, hash) && Holds(tt, b, hash)
      ensures a == b
    {
      if a != s.id && b != s.id {
        assert Holds(ss, a, hash) && Holds(ss, b, hash);
      }
    }
    forall a, b, hash | HoldsAccess(tt, a, hash) && HoldsAccess(tt, b, hash)
      ensures a == b
    {
      if a != s.id && b != s.id {
        assert HoldsAccess(ss, a, hash) && HoldsAccess(ss, b, hash);
      }
    }
  }

  // ---------------------------------------------------------------- the repository

  class MemoryRepository {
    var accounts: map<string, Account>
    var sessions: Sessions

    ghost predicate Valid()
      reads this
    {
      Consistent(sessions)
    }

    constructor ()
      ensures Valid() && accounts == map[] && sessions == map[]
    {
      accounts, sessions := map[], map[];
    }

    method CreateAccount(account: Account) returns (e: Option<Error>)
      modifies this`accounts
      ensures Blank(account.id) ==> e == Some(InvalidInput)
      ensures !Blank(account.id) ==> e == if account.id in old(accounts) then Some(AlreadyExists) else None
      ensures accounts == if e == None
                then old(accounts)[
                  account.id := account.(status := if account.status == "" then "active" else account.status)]
                else old(accounts)
    {
      if Blank(account.id) {
        return Some(InvalidInput);
      }
      if account.id in accounts {
        return Some(AlreadyExists);
      }
      var status := if account.status == "" then "active" else account.status;
      accounts := accounts[account.id := account.(status := status)];
      e := None;
    }

    method GetAccount(id: string) returns (r: Result<Account, Error>)
      ensures r == if id in accounts then Success(accounts[id]) else Failure(NotFound)
    {
      r := if id in accounts then Success(accounts[id]) else Failure(NotFound);
    }

    method RevokeAccount(id: string, now: int) returns (e: Option<Error>)
      requires Valid()
      modifies this
      ensures Valid()
      ensures id !in old(accounts) ==> e == Some(NotFound) && accounts == old(accounts) && sessions == old(sessions)
      ensures id in old(accounts) ==>
                && e == None
                && accounts == old(accounts)[id := old(accounts)[id].(status := "revoked")]
                && sessions == RevokeOfAccount(old(sessions), id, now)
    {
      if id !in accounts {
        return Some(NotFound);
      }
      if accounts[id].status != "revoked" {
        accounts := accounts[id := accounts[id].(status := "revoked")];
      }
      MarkAccountSessions(id, now);
      e := None;
    }

    method RevokeAccountSessions(account: string, now: int) returns (e: Option<Error>)
      requires Valid()
      modifies this`sessions
      ensures Valid() && e == if account == "" then Some(InvalidInput) else None
      ensures sessions == if account == "" then old(sessions) else RevokeOfAccount(old(sessions), account, now)
    {
      if account == "" {
        return Some(InvalidInput);
      }
      MarkAccountSessions(account, now);
      e := None;
    }

    method MarkAccountSessions(account: string, now: int)
      requires Valid()
      modifies this`sessions
      ensures Valid() && sessions == RevokeOfAccount(old(sessions), account, now)
    {
      var ids := sessions.Keys;
      while ids != {}
        invariant ids <= sessions.Keys == old(sessions).Keys
        invariant forall id :: id in sessions ==>
                    sessions[id] == if id in ids then old(sessions)[id]
                                    else RevokeOfAccount(old(sessions), account, now)[id]
        decreases |ids|
      {
        var id := AnyOf(ids);
        if sessions[id].accountId == account && sessions[id].revokedAt == None {
          sessions := sessions[id := sessions[id].(revokedAt := Some(now))];
        }
        ids := ids - {id};
      }
      SameNamesConsistent(old(sessions), sessions);
    }

    method CreateSession(s: Session) returns (e: Option<Error>)
      requires Valid()
      modifies this`sessions
      ensures Valid() && (sessions, e) == Create(accounts, old(sessions), s)
    {
      if s.id == "" || s.accountId == "" || s.refreshHash == "" || s.family == "" {
        return Some(InvalidInput);
      }
      if s.accountId !in accounts {
        return Some(NotFound);
      }
      var clash := ClashesWith(s);
      if clash {
        return Some(AlreadyExists);
      }
      InsertConsistent(sessions, s);
      sessions := sessions[s.id := s];
      e := None;
    }

    /** The uniqueness checks shared by CreateSession and RotateRefresh. */
    method ClashesWith(s: Session) returns (clash: bool)
      ensures clash == Clashes(sessions, s)
    {
      if s.id in sessions {
        return true;
      }
      var ids := sessions.Keys;
      while ids != {}
        invariant ids <= sessions.Keys
        invariant forall id :: id in sessions && id !in ids ==>
                    && sessions[id].refreshHash != s.refreshHash
                    && (s.accessHash != "" ==> sessions[id].accessHash != s.accessHash)
        decreases |ids|
      {
        var id := AnyOf(ids);
        if sessions[id].refreshHash == s.refreshHash ||
          (s.accessHash != "" && sessions[id].accessHash == s.accessHash) {
          return true;
        }
        ids := ids - {id};
      }
      clash := false;
    }

    method FindSessionByAccessHash(hash: string) returns (r: Result<Session, Error>)
      requires Valid()
      ensures r == match FindAccess(sessions, hash) case Some(s) => Success(s) case None => Failure(NotFound)
      ensures r.Success? ==> hash != "" && r.value in sessions.Values && r.value.accessHash == hash
      ensures r.Failure? ==> hash == "" || forall id :: id in sessions ==> sessions[id].accessHash != hash
    {
      if hash == "" {
        return Failure(NotFound);
      }
      var ids := sessions.Keys;
      while ids != {}
        invariant ids <= sessions.Keys
        invariant forall id :: id in sessions && id !in ids ==> sessions[id].accessHash != hash
        decreases |ids|
      {
        var id := AnyOf(ids);
        if sessions[id].accessHash == hash {
          FindAccessIsUnique(sessions, id);
          return Success(sessions[id]);
        }
        ids := ids - {id};
      }
      r := Failure(NotFound);
    }

    method FindSessionByRefreshHash(hash: string) returns (r: Result<Session, Error>)
      requires Valid()
      ensures r == match FindRefresh(sessions, hash) case Some(s) => Success(s) case None => Failure(NotFound)
    {
      if hash == "" {
        return Failure(NotFound);
      }
      var ids := sessions.Keys;
      while ids != {}
        invariant ids <= sessions.Keys
        invariant forall id :: id in sessions && id !in ids ==> !Holds(sessions, id, hash)
        decreases |ids|
      {
        var id := AnyOf(ids);
        if sessions[id].refreshHash == hash {
          FindRefreshIsUnique(sessions, id);
          return Success(sessions[id]);
        }
        ids := ids - {id};
      }
      r := Failure(NotFound);
    }

    method RotateRefresh(presented: string, next: Session, now: int) returns (r: Result<Session, Error>)
      requires Valid()
      modifies this`sessions
      ensures Valid() && (sessions, r) == Rotate(old(sessions), presented, next, now)
    {
      if presented == "" || next.id == "" || next.refreshHash == "" || next.family == "" {
        return Failure(InvalidInput);
      }
      var found := FindSessionByRefreshHash(presented);
      if found.Failure? {
        return Failure(NotFound);
      }
      var cur := found.value;
      if cur.revokedAt.Some? {
        if cur.familyRevokedAt.Some? || cur.replacedBy != "" || cur.rotatedAt.Some? {
          var any := MarkFamily(cur.family, now);
          return Failure(RefreshReplay);
        }
        return Failure(SessionRevoked);
      }
      if now >= cur.expires {
        return Failure(RefreshExpired);
      }
      if next.accountId != cur.accountId || next.family != cur.family {
        return Failure(InvalidInput);
      }
      var clash := ClashesWith(next);
      if clash {
        return Failure(AlreadyExists);
      }
      sessions := sessions[cur.id := cur.(revokedAt := Some(now), replacedBy := next.refreshHash,
        rotatedAt := Some(now))];
      SameNamesConsistent(old(sessions), sessions);
      InsertConsistent(sessions, next);
      sessions := sessions[next.id := next];
      r := Success(next);
    }

    /** The loop over a token family shared by replay detection and RevokeTokenFamily. */
    method MarkFamily(family: string, now: int) returns (found: bool)
      requires Valid()
      modifies this`sessions
      ensures Valid() && sessions == RevokeFamily(old(sessions), family, now)
      ensures found <==> exists id :: id in old(sessions) && old(sessions)[id].family == family
    {
      found := false;
      ghost var seen := "";
      ghost var marked := RevokeFamily(sessions, family, now);
      var ids := sessions.Keys;
      while ids != {}
        invariant ids <= sessions.Keys == old(sessions).Keys
        invariant forall id :: id in sessions ==> sessions[id] == if id in ids then old(sessions)[id] else marked[id]
        invariant found ==> seen in old(sessions) && old(sessions)[seen].family == family
        invariant !found ==> forall id :: id in sessions && id !in ids ==> old(sessions)[id].family != family
        decreases |ids|
      {
        var id := AnyOf(ids);
        var s := sessions[id];
        if s.family == family {
          found, seen := true, id;
          s := MarkSession(s, now);
          sessions := sessions[id := s];
        }
        ids := ids - {id};
      }
      assert sessions == marked;
      SameNamesConsistent(old(sessions), marked);
    }

    method MarkSession(s: Session, now: int) returns (r: Session)
      ensures r == s.RevokeWithFamily(now)
    {
      r := s;
      if r.revokedAt == None {
        r := r.(revokedAt := Some(now));
      }
      if r.familyRevokedAt == None {
        r := r.(familyRevokedAt := Some(now));
      }
    }

    method RevokeTokenFamily(family: string, now: int) returns (e: Option<Error>)
      requires Valid()
      modifies this`sessions
      ensures Valid()
      ensures sessions == if family == "" then old(sessions) else RevokeFamily(old(sessions), family, now)
      ensures e == if family == "" then Some(InvalidInput)
                   else if exists id :: id in old(sessions) && old(sessions)[id].family == family then None
                   else Some(NotFound)
    {
      if family == "" {
        return Some(InvalidInput);
      }
      var found := MarkFamily(family, now);
      e := if found then None else Some(NotFound);
    }

    method RevokeSession(id: string, now: int) returns (e: Option<Error>)
      requires Valid()
      modifies this`sessions
      ensures Valid()
      ensures e == if id in old(sessions) then None else Some(NotFound)
      ensures sessions == if e == None then old(sessions)[id := old(sessions)[id].Revoke(now)] else old(sessions)
    {
      if id !in sessions {
        return Some(NotFound);
      }
      if sessions[id].revokedAt == None {
        sessions := sessions[id := sessions[id].(revokedAt := Some(now))];
      }
      SameNamesConsistent(old(sessions), sessions);
      e := None;
    }

    method RevokeDeviceSessions(account: string, device: string, now: int) returns (e: Option<Error>)
      requires Valid()
      modifies this`sessions
      ensures Valid()
      ensures e == if account == "" || device == "" then Some(InvalidInput) else None
      ensures sessions == if e == None then RevokeOfDevice(old(sessions), account, device, now) else old(sessions)
    {
      if account == "" || device == "" {
        return Some(InvalidInput);
      }
      var ids := sessions.Keys;
      while ids != {}
        invariant ids <= sessions.Keys == old(sessions).Keys
        invariant forall id :: id in sessions ==>
                    sessions[id] == if id in ids then old(sessions)[id]
                                    else RevokeOfDevice(old(sessions), account, device, now)[id]
        decreases |ids|
      {
        var id := AnyOf(ids);
        if sessions[id].accountId == account && sessions[id].deviceId == device && sessions[id].revokedAt == None {
          sessions := sessions[id := sessions[id].(revokedAt := Some(now))];
        }
        ids := ids - {id};
      }
      SameNamesConsistent(old(sessions), sessions);
      e := None;
    }
  }
}
