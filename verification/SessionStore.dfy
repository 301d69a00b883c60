/** The refresh-session table and the service calls that step it. */
module SessionStore {
  import opened Options

  datatype Error = EmailRequired | InvalidCredentials | InactiveUser | InvalidRefresh | SessionNotFound | Conflict

  /** A row of refresh_sessions; its id is its position, so ids grow in order of creation. */
  datatype Session = Session(user: int, hash: string, expiresAt: int, revokedAt: Option<int>, replacedBy: Option<int>)

  // ---------- the statements ----------

  /** token_hash is UNIQUE. */
  ghost predicate DistinctHashes(t: seq<Session>) {
    forall i, j :: 0 <= i < j < |t| ==> t[i].hash != t[j].hash
  }

  /** SELECT ... WHERE token_hash = hash. */
  function Find(t: seq<Session>, hash: string): (id: Option<int>)
    ensures id.Some? ==> 0 <= id.value < |t| && t[id.value].hash == hash
    ensures id.None? ==> forall i :: 0 <= i < |t| ==> t[i].hash != hash
  {
    if t == [] then None
    else if t[|t| - 1].hash == hash then Some(|t| - 1)
    else Find(t[..|t| - 1], hash)
  }

  function NewSession(user: int, hash: string, expiresAt: int): Session {
    Session(user, hash, expiresAt, None, None)
  }

  /** UPDATE ... SET revoked_at = now() WHERE id = id AND revoked_at IS NULL. */
  function Revoke(t: seq<Session>, id: int, now: int): seq<Session>
    requires 0 <= id < |t|
  {
    if t[id].revokedAt.None? then t[id := t[id].(revokedAt := Some(now))] else t
  }

  /** Insert the successor, then revoke and link the old row if it is still live: one transaction. */
  function Rotate(t: seq<Session>, id: int, next: Session, now: int): seq<Session>
    requires 0 <= id < |t|
  {
    var grown := t + [next];
    if t[id].revokedAt.None? then grown[id := t[id].(revokedAt := Some(now), replacedBy := Some(|t|))] else grown
  }

  /** Usable for a refresh: not revoked and not expired. */
  predicate Usable(s: Session, now: int) {
    s.revokedAt.None? && s.expiresAt > now
  }

  class Repository {
    var sessions: seq<Session>

    constructor ()
      ensures sessions == []
    {
      sessions := [];
    }

    method CreateSession(s: Session) returns (r: Result<int, Error>)
      modifies this
      ensures r.Ok? <==> Find(old(sessions), s.hash).None?
      ensures r.Ok? ==> sessions == old(sessions) + [s] && r.value == |old(sessions)|
      ensures r.Err? ==> sessions == old(sessions) && r.error == Conflict
    {
      if Find(sessions, s.hash).Some? {
        return Err(Conflict);
      }
      sessions := sessions + [s];
      r := Ok(|sessions| - 1);
    }

    method SessionByHash(hash: string) returns (r: Result<int, Error>)
      ensures r == if Find(sessions, hash).Some? then Ok(Find(sessions, hash).value) else Err(SessionNotFound)
    {
      var id := Find(sessions, hash);
      r := if id.Some? then Ok(id.value) else Err(SessionNotFound);
    }

    method RevokeSession(id: int, now: int)
      requires 0 <= id < |sessions|
      modifies this
      ensures sessions == if old(sessions)[id].revokedAt.None?
                          then old(sessions)[id := old(sessions)[id].(revokedAt := Some(now))] else old(sessions)
    {
      if sessions[id].revokedAt.None? {
        sessions := sessions[id := sessions[id].(revokedAt := Some(now))];
      }
    }

    /** The new row and the conditional update commit together; a failed insert rolls back. */
    method RotateSession(id: int, next: Session, now: int) returns (r: Result<int, Error>)
      requires 0 <= id < |sessions|
      modifies this
      ensures r.Ok? <==> Find(old(sessions), next.hash).None?
      ensures r.Ok? ==>
                && r.value == |old(sessions)|
                && sessions == (if old(sessions)[id].revokedAt.None?
                                then old(sessions)[id := old(sessions)[id].(revokedAt := Some(now), replacedBy := Some(r.value))]
                                else old(sessions)) + [next]
      ensures r.Err? ==> sessions == old(sessions) && r.error == Conflict
    {
      r := CreateSession(next);
      if r.Err? {
        return;
      }
      // The affected-row count is not checked: a row revoked meanwhile is simply not linked.
      if sessions[id].revokedAt.None? {
        sessions := sessions[id := sessions[id].(revokedAt := Some(now), replacedBy := Some(r.value))];
      }
    }
  }

  // ---------- the service, one call at a time ----------

  datatype User = User(id: int, active: bool)

  class Service {
    const repo: Repository
    const refreshTtl: int

    constructor (repo: Repository, refreshTtl: int)
      ensures this.repo == repo && this.refreshTtl == refreshTtl
    {
      this.repo, this.refreshTtl := repo, refreshTtl;
    }

    /** `email` is trimmed and lower-cased, `known` the account found for it, `matches` the password check;
    `hash` is the fresh token's. */
    method Login(email: string, password: string, known: Option<User>, matches: bool, hash: string, now: int)
      returns (r: Result<int, Error>)
      modifies repo
      ensures r.Ok? <==> email != "" && password != "" && known.Some? && matches && known.value.active &&
                         Find(old(repo.sessions), hash).None?
      ensures r.Ok? ==> repo.sessions == old(repo.sessions) + [Session(known.value.id, hash, now + refreshTtl, None, None)]
      ensures r.Err? ==> repo.sessions == old(repo.sessions)
      ensures r == Err(EmailRequired) <==> email == "" || password == ""
      ensures r == Err(InvalidCredentials) <==> email != "" && password != "" && (known.None? || !matches)
      ensures r == Err(InactiveUser) <==> email != "" && password != "" && known.Some? && matches && !known.value.active
    {
      if email == "" || password == "" {
        return Err(EmailRequired);
      }
      if known.None? || !matches {
        return Err(InvalidCredentials);
      }
      if !known.value.active {
        return Err(InactiveUser);
      }
      r := repo.CreateSession(NewSession(known.value.id, hash, now + refreshTtl));
    }

    /** Uninterrupted, a refresh succeeds exactly for a known, live, unexpired token and then leaves the
    presented session revoked and linked to the new one, which belongs to the same user. */
    method Refresh(token: string, hashOf: string -> string, newHash: string, now: int) returns (r: Result<int, Error>)
      modifies repo
      ensures var id := if token == "" then None else Find(old(repo.sessions), hashOf(token));
              && (r.Ok? <==> id.Some? && old(repo.sessions)[id.value].revokedAt.None? &&
                             old(repo.sessions)[id.value].expiresAt > now && Find(old(repo.sessions), newHash).None?)
              && (r.Ok? ==>
                    && r.value == |old(repo.sessions)|
                    && repo.sessions == old(repo.sessions)[id.value :=
                         old(repo.sessions)[id.value].(revokedAt := Some(now), replacedBy := Some(r.value))]
                         + [Session(old(repo.sessions)[id.value].user, newHash, now + refreshTtl, None, None)])
              && (r == Err(InvalidRefresh) <==>
                    id.None? || old(repo.sessions)[id.value].revokedAt.Some? || old(repo.sessions)[id.value].expiresAt <= now)
      ensures r.Err? ==> repo.sessions == old(repo.sessions)
    {
      if token == "" {
        return Err(InvalidRefresh);
      }
      var found := repo.SessionByHash(hashOf(token));
      if found.Err? {
        return Err(InvalidRefresh);
      }
      var s := repo.sessions[found.value];
      if s.revokedAt.Some? || s.expiresAt <= now {
        return Err(InvalidRefresh);
      }
      r := repo.RotateSession(found.value, NewSession(s.user, newHash, now + refreshTtl), now);
    }

    /** Idempotent: an empty, unknown or already revoked token changes nothing. */
    method Logout(token: string, hashOf: string -> string, now: int)
      modifies repo
      ensures var id := if token == "" then None else Find(old(repo.sessions), hashOf(token));
              repo.sessions == if id.Some? && old(repo.sessions)[id.value].revokedAt.None?
                               then old(repo.sessions)[id.value := old(repo.sessions)[id.value].(revokedAt := Some(now))]
                               else old(repo.sessions)
    {
      if token == "" {
        return;
      }
      var found := repo.SessionByHash(hashOf(token));
      if found.Ok? {
        repo.RevokeSession(found.value, now);
      }
    }
  }
}
