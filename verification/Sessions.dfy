/** Refresh sessions as committed rows, and what one rotation or sign-in writes. */
module Sessions {
  import opened Wrappers

  /** A row of `refresh_sessions`; `token` stands for the stored hash, which no two tokens share. */
  datatype Session = Session(user: int, token: string, expires: int, revoked: bool, replacedBy: Option<nat>)

  type Table = map<nat, Session>

  function NewSession(user: int, token: string, expires: int): Session {
    Session(user, token, expires, false, None)
  }

  /** The row that the lookup of a refresh accepts. */
  predicate Accepts(t: Table, id: nat, token: string, now: int) {
    id in t && t[id].token == token && !t[id].revoked && t[id].expires > now
  }

  /** What a committed rotation leaves: the old row revoked and linked, the new row added. */
  function Rotated(t: Table, id: nat, newId: nat, added: Session): Table
    requires id in t
  {
    t[id := t[id].(revoked := true, replacedBy := Some(newId))][newId := added]
  }

  predicate UniqueTokens(t: Table) {
    forall i, j | i in t && j in t && t[i].token == t[j].token :: i == j
  }

  predicate TokenFree(t: Table, token: string) {
    forall id | id in t :: t[id].token != token
  }

  /** A revoked session, and only a revoked one, has a successor: a later session of the same user. */
  predicate Linked(t: Table) {
    forall id | id in t ::
      && (t[id].revoked <==> t[id].replacedBy.Some?)
      && (t[id].replacedBy.Some? ==>
            var r := t[id].replacedBy.value; id < r && r in t && t[r].user == t[id].user)
  }

  predicate Below(t: Table, next: nat) {
    forall id | id in t :: id < next
  }

  /** Committed sessions, and the sequence that numbers them. */
  predicate TableOk(t: Table, next: nat) {
    Linked(t) && UniqueTokens(t) && Below(t, next)
  }

  lemma AddedOk(t: Table, next: nat, added: Session)
    requires TableOk(t, next) && TokenFree(t, added.token) && !added.revoked && added.replacedBy.None?
    ensures TableOk(t[next := added], next + 1)
  {
  }

  lemma RotatedOk(t: Table, next: nat, id: nat, newId: nat, added: Session)
    requires TableOk(t, next) && id in t && id < newId < next && newId !in t
    requires TokenFree(t, added.token) && added.user == t[id].user && !added.revoked && added.replacedBy.None?
    ensures TableOk(Rotated(t, id, newId, added), next)
  {
  }

  // ---------------------------------------------------------------- following the links

  /** Following `replaced_by` from a session to the last one. */
  function Follow(t: Table, next: nat, id: nat): (last: nat)
    requires Linked(t) && Below(t, next) && id in t
    ensures last in t && !t[last].revoked && t[last].user == t[id].user && id <= last
    decreases next - id
  {
    if t[id].replacedBy.None? then id else Follow(t, next, t[id].replacedBy.value)
  }

  // ---------------------------------------------------------------- the service, one call at a time

  datatype User = User(id: int, passwordHash: string, active: bool)

  datatype AuthResponse = AuthResponse(refreshToken: string, user: int)

  /** Which of a function's calls to the database fails, if any. */
  datatype Fault = NoFault | Fails(step: nat)

  predicate BreaksBefore(fault: Fault, step: nat) {
    fault.Fails? && fault.step < step
  }

  /** User ids are unique and below the sequence. */
  predicate UsersOk(users: map<string, User>, next: nat) {
    && (forall e | e in users :: users[e].id < next)
    && (forall e, f | e in users && f in users && users[e].id == users[f].id :: e == f)
  }

  class AuthService {
    const ttl: int
    var users: map<string, User>
    var nextUser: nat
    var sessions: Table
    var next: nat
    var now: int

    constructor (ttl: int)
      ensures Valid() && sessions == map[] && users == map[] && this.ttl == ttl
      ensures next == 1 && nextUser == 1 && now == 0
    {
      this.ttl := ttl;
      users, nextUser, sessions, next, now := map[], 1, map[], 1, 0;
    }

    ghost predicate Valid()
      reads this
    {
      TableOk(sessions, next) && UsersOk(users, nextUser)
    }

    /** There is a session of the token that is neither revoked nor expired. */
    ghost predicate Exchangeable(token: string)
      reads this
    {
      exists id ::
        id in sessions && sessions[id].token == token && !sessions[id].revoked && sessions[id].expires > now
    }

    /** `INSERT INTO refresh_sessions (...) VALUES (...)`; the unique index refuses a token in use. */
    method InsertSession(user: int, token: string, fails: bool) returns (r: Result<nat>)
      requires Valid()
      modifies this`sessions, this`next
      ensures Valid() && old(next) < next
      ensures r.Ok? <==> !fails && TokenFree(old(sessions), token)
      ensures r.Err? ==> sessions == old(sessions) && r.error.Internal?
      ensures r.Ok? ==> r.value == old(next)
      ensures r.Ok? ==> sessions == old(sessions)[r.value := Session(user, token, now + ttl, false, None)]
    {
      var id := next;
      next := next + 1;
      if fails || exists i | i in sessions :: sessions[i].token == token {
        return Err(Internal("insert failed"));
      }
      AddedOk(sessions, id, NewSession(user, token, now + ttl));
      sessions := sessions[id := NewSession(user, token, now + ttl)];
      r := Ok(id);
    }

    /**
     * The session-creating part of `register`: a new user, then its first session. The two inserts are
     * separate, so the user stays registered when the second one fails.
     */
    method Register(email: string, passwordHash: string, passwordLength: nat, token: string,
                    fault: Fault) returns (r: Result<AuthResponse>)
      requires Valid()
      modifies this`users, this`nextUser, this`sessions, this`next
      ensures Valid()
      ensures r.Ok? <==>
        passwordLength >= 8 && !BreaksBefore(fault, 2) && email !in old(users) && TokenFree(old(sessions), token)
      ensures users ==
        if passwordLength >= 8 && fault != Fails(0) && email !in old(users)
        then old(users)[email := User(old(nextUser), passwordHash, true)] else old(users)
      ensures sessions ==
        if r.Ok? then old(sessions)[old(next) := Session(old(nextUser), token, now + ttl, false, None)] else old(sessions)
      ensures r.Ok? ==> r.value == AuthResponse(token, old(nextUser))
      ensures passwordLength < 8 ==> r == Err(BadRequest("password too short"))
      ensures passwordLength >= 8 && email in old(users) && fault != Fails(0) ==>
        r == Err(Conflict("email already exists"))
    {
      if passwordLength < 8 {
        return Err(BadRequest("password too short"));
      }
      if fault == Fails(0) {
        return Err(Internal("database error"));
      }
      if email in users {
        return Err(Conflict("email already exists"));
      }
      var id := nextUser;
      nextUser := nextUser + 1;
      users := users[email := User(id, passwordHash, true)];
      var _ :- InsertSession(id, token, fault == Fails(1));
      r := Ok(AuthResponse(token, id));
    }

    /** The session-creating part of `login`; `verified` is the outcome of the password check. */
    method Login(email: string, verified: bool, token: string, fault: Fault) returns (r: Result<AuthResponse>)
      requires Valid()
      modifies this`sessions, this`next
      ensures Valid()
      ensures r.Ok? <==>
        && !BreaksBefore(fault, 2) && email in users && users[email].active && verified
        && TokenFree(old(sessions), token)
      ensures sessions ==
        if r.Ok? then old(sessions)[old(next) := Session(users[email].id, token, now + ttl, false, None)] else old(sessions)
      ensures r.Ok? ==> r.value == AuthResponse(token, users[email].id)
      ensures fault != Fails(0) && (email !in users || (users[email].active && !verified)) ==>
        r == Err(Unauthorized("invalid credentials"))
      ensures fault != Fails(0) && email in users && !users[email].active ==> r == Err(Unauthorized("inactive account"))
    {
      if fault == Fails(0) {
        return Err(Internal("database error"));
      }
      if email !in users {
        return Err(Unauthorized("invalid credentials"));
      }
      var user := users[email];
      if !user.active {
        return Err(Unauthorized("inactive account"));
      }
      if !verified {
        return Err(Unauthorized("invalid credentials"));
      }
      var _ :- InsertSession(user.id, token, fault == Fails(1));
      r := Ok(AuthResponse(token, user.id));
    }

    /** `SELECT id, user_id ... WHERE token_hash = $1 AND revoked = FALSE AND expires_at > NOW()` */
    method Lookup(token: string) returns (id: Option<nat>)
      requires Valid()
      ensures id.Some? ==>
        && id.value in sessions && sessions[id.value].token == token
        && !sessions[id.value].revoked && sessions[id.value].expires > now
      ensures id.None? ==>
        forall i | i in sessions && sessions[i].token == token :: sessions[i].revoked || sessions[i].expires <= now
    {
      if i :| i in sessions && Accepts(sessions, i, token, now) {
        return Some(i);
      }
      id := None;
    }

    /**
     * The transaction of `refresh`, on a copy that the commit publishes: begin, revoke, insert, link, commit
     * (steps 1 to 5).
     */
    method Rotate(id: nat, newToken: string, fault: Fault) returns (r: Result<int>)
      requires Valid() && id in sessions
      modifies this`sessions, this`next
      ensures old(next) <= next && TableOk(sessions, next)
      ensures r.Ok? <==> !(fault.Fails? && 1 <= fault.step <= 5) && TokenFree(old(sessions), newToken)
      ensures r.Err? ==> sessions == old(sessions) && r.error == Internal("database error")
      ensures r.Ok? ==>
        && r.value == old(sessions)[id].user && old(next) !in old(sessions)
        && sessions == old(sessions)[id := old(sessions)[id].(revoked := true, replacedBy := Some(old(next)))][
             old(next) := Session(r.value, newToken, now + ttl, false, None)]
    {
      hide UsersOk;
      var user := sessions[id].user;
      if fault == Fails(1) || fault == Fails(2) {
        return Err(Internal("database error"));
      }
      var working := sessions[id := sessions[id].(revoked := true)];
      var newId := next;
      next := next + 1;
      assert TokenFree(working, newToken) <==> TokenFree(sessions, newToken) by {
        SameTokens(sessions, working, newToken);
      }
      if fault == Fails(3) || exists i | i in working :: working[i].token == newToken {
        return Err(Internal("database error"));
      }
      working := working[newId := NewSession(user, newToken, now + ttl)];
      if fault == Fails(4) {
        return Err(Internal("database error"));
      }
      working := working[id := working[id].(replacedBy := Some(newId))];
      if fault == Fails(5) {
        return Err(Internal("database error"));
      }
      RotatedOk(sessions, next, id, newId, NewSession(user, newToken, now + ttl));
      assert working == Rotated(sessions, id, newId, NewSession(user, newToken, now + ttl));
      sessions := working;
      r := Ok(user);
    }

    /**
     * `refresh` without a concurrent call. The rotation happens exactly if the token has a live session, the
     * new one is free, and nothing fails up to the commit (steps 0 to 5); afterwards the old token is refused.
     * The user's email is read after the commit, so a failure there (step 6) is an error although the
     * rotation has happened; a commit that took effect while its answer got lost counts as step 6 too.
     */
    method Refresh(presented: string, newToken: string, fault: Fault) returns (r: Result<AuthResponse>)
      requires Valid()
      modifies this`sessions, this`next
      ensures Valid()
      ensures fault != Fails(0) && !old(Exchangeable(presented)) ==> r == Err(Unauthorized("invalid or expired refresh"))
      ensures sessions != old(sessions) <==>
        !BreaksBefore(fault, 6) && old(Exchangeable(presented)) && TokenFree(old(sessions), newToken)
      ensures r.Ok? <==>
        !BreaksBefore(fault, 7) && old(Exchangeable(presented)) && TokenFree(old(sessions), newToken)
      ensures sessions != old(sessions) ==> exists id ::
        && id in old(sessions) && old(sessions)[id].token == presented
        && !old(sessions)[id].revoked && old(sessions)[id].expires > now
        && (r.Ok? ==> r.value == AuthResponse(newToken, old(sessions)[id].user))
        && sessions == old(sessions)[id := old(sessions)[id].(revoked := true, replacedBy := Some(old(next)))][
             old(next) := Session(old(sessions)[id].user, newToken, now + ttl, false, None)]
      ensures sessions != old(sessions) ==> !Exchangeable(presented) && (ttl > 0 ==> Exchangeable(newToken))
    {
      if fault == Fails(0) {
        return Err(Internal("database error"));
      }
      var found := Lookup(presented);
      if found.None? {
        return Err(Unauthorized("invalid or expired refresh"));
      }
      hide UsersOk;
      var id := found.value;
      ghost var t := sessions;
      var rotated := Rotate(id, newToken, fault);
      hide TableOk;
      if rotated.Err? {
        return Err(rotated.error);
      }
      var user := rotated.value;
      OldTokenRefused(t, old(next), id, old(next), NewSession(user, newToken, now + ttl), presented, now);
      assert sessions == Rotated(t, id, old(next), NewSession(user, newToken, now + ttl));
      assert old(next) in sessions && old(next) !in t;
      if fault == Fails(6) {
        return Err(Internal("database error"));
      }
      r := Ok(AuthResponse(newToken, user));
    }
  }

  /** After a rotation nothing accepts the old token any more. */
  lemma OldTokenRefused(t: Table, next: nat, id: nat, newId: nat, added: Session, token: string, now: int)
    requires TableOk(t, next) && id in t && t[id].token == token && newId !in t && added.token != token
    ensures forall i | i in Rotated(t, id, newId, added) && Rotated(t, id, newId, added)[i].token == token ::
              Rotated(t, id, newId, added)[i].revoked
  {
  }

  lemma SameTokens(t: Table, u: Table, token: string)
    requires t.Keys == u.Keys && forall id | id in t :: t[id].token == u[id].token
    ensures TokenFree(t, token) <==> TokenFree(u, token)
  {
  }

  /**
   * A refresh that answers with an error and has used the token up all the same: the caller has neither
   * the old token, which is refused, nor the new one, which it was not told.
   */
  method LostAnswer() returns (service: AuthService, r: Result<AuthResponse>)
    ensures fresh(service) && service.Valid() && r.Err?
    ensures !service.Exchangeable("old") && service.Exchangeable("new")
  {
    service := new AuthService(60);
    var signedIn := service.Register("a@b", "hash", 8, "old", NoFault);
    assert service.sessions == map[1 := NewSession(1, "old", 60)];
    assert Accepts(service.sessions, 1, "old", service.now);
    assert "new" != "old" by { assert "new"[0] != "old"[0]; }
    assert TokenFree(service.sessions, "new");
    r := service.Refresh("old", "new", Fails(6));
  }
}
