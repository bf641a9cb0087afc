/** The session operations as the service runs them, on a users table and on connection objects that are
    updated in place. */
module SessionObject {
  import opened Text
  import opened Session

  // ----- the users table -----

  class UserRepository {
    var rows: map<Uid, Row>
    var creds: set<Uid>
    ghost var used: set<Uid>

    ghost function Value(): Db
      reads this
    {
      Db(rows, creds)
    }

    /** Names are unique, and `used` has every id ever given out. */
    ghost predicate Valid()
      reads this
    {
      && rows.Keys <= used
      && forall u, v :: u in rows && v in rows && rows[u].username == rows[v].username ==> u == v
    }

    constructor ()
      ensures Valid() && Value() == Db(map[], {}) && used == {}
    {
      rows, creds, used := map[], {}, {};
    }

    /** The user of that name, which is new only if there was none.  `newId` is a new random id. */
    method UpsertByUsername(username: string, newId: Uid) returns (id: Uid)
      requires Valid() && newId !in used
      modifies this
      ensures Valid() && Value() == Upsert(old(Value()), username, newId) && used == old(used) + {newId}
      ensures id in rows && rows[id].username == username
      ensures id == newId <==> !HasName(old(Value()), username)
    {
      used := used + {newId};
      if u :| u in rows && rows[u].username == username {
        return u;
      }
      rows := rows[newId := Row(username, None)];
      return newId;
    }

    method DeleteById(u: Uid)
      requires Valid()
      modifies `rows, `creds
      ensures Valid() && Value() == Delete(old(Value()), u)
    {
      rows, creds := rows - {u}, creds - {u};
    }

    /** A missing user is an error, as a failing statement is. */
    method TouchWsActivity(u: Uid, now: nat, fails: bool) returns (ok: bool)
      requires Valid()
      modifies `rows
      ensures Valid() && ok == (!fails && u in old(rows))
      ensures Value() == if fails then old(Value()) else SetLast(old(Value()), u, Some(now))
    {
      if fails || u !in rows {
        return false;
      }
      rows := rows[u := rows[u].(last := Some(now))];
      return true;
    }

    /** Clearing a missing user is no error. */
    method ClearWsActivity(u: Uid, fails: bool) returns (ok: bool)
      requires Valid()
      modifies `rows
      ensures Valid() && ok == !fails
      ensures Value() == if fails then old(Value()) else SetLast(old(Value()), u, None)
    {
      if fails {
        return false;
      }
      if u in rows {
        rows := rows[u := rows[u].(last := None)];
      }
      return true;
    }

    /** None if the query fails; a missing user has no activity. */
    method GetWsLastActivity(u: Uid, fails: bool) returns (last: Option<Option<nat>>)
      ensures last == if fails then None else Some(LastActivity(Value(), u))
    {
      if fails {
        return None;
      }
      if u !in rows {
        return Some(None);
      }
      return Some(rows[u].last);
    }
  }

  // ----- tokens -----

  datatype AuthResult = Ok(u: Uid) | Err(error: AuthError)

  datatype AuthError = NoSecret | TokenInvalid | SessionExpired | UserGone | TouchFailed | ReadFailed

  /** The statements that fail. */
  datatype Faults = Faults(user: bool, creds: bool, activity: bool, clear: bool)

  class WsAuthService {
    const repo: UserRepository
    const idleTimeout: nat
    const hasSecret: bool

    constructor (hasSecret: bool, idleTimeoutSeconds: int, repo: UserRepository)
      ensures this.repo == repo && this.hasSecret == hasSecret
      ensures idleTimeout == if idleTimeoutSeconds <= 0 then 3600 else idleTimeoutSeconds
    {
      this.repo, this.hasSecret := repo, hasSecret;
      idleTimeout := if idleTimeoutSeconds <= 0 then 3600 else idleTimeoutSeconds;
    }

    /** Issuing a token touches its user; a token validated at once is accepted if there are
        credentials. */
    method GenerateToken(u: Uid, now: nat, fails: bool) returns (r: AuthResult)
      requires repo.Valid()
      modifies repo`rows
      ensures repo.Valid()
      ensures r.Ok? <==> hasSecret && !fails && u in old(repo.rows)
      ensures var was := old(repo.Value());
              repo.Value() == if hasSecret && !fails then SetLast(was, u, Some(now)) else was
      ensures r.Ok? ==> r.u == u && (u in repo.creds ==> Judge(repo.Value(), u, now, idleTimeout) == Accepted)
    {
      if !hasSecret {
        return Err(NoSecret);
      }
      var ok := repo.TouchWsActivity(u, now, fails);
      if !ok {
        return Err(TouchFailed);
      }
      return Ok(u);
    }

    /** `token`: the user in the token's claims, if its signature is right.  A user or credentials that cannot
        be read count as gone.  A stale session is cleared if it can be, and expired in any case. */
    method ValidateToken(token: Option<Uid>, now: nat, faults: Faults) returns (r: AuthResult)
      requires repo.Valid()
      modifies repo`rows
      ensures repo.Valid()
      ensures !hasSecret ==> r == Err(NoSecret)
      ensures hasSecret && token.None? ==> r == Err(TokenInvalid)
      ensures hasSecret && token.Some? ==>
        var verdict := Judge(old(repo.Value()), token.value, now, idleTimeout);
        && (r == Err(UserGone) <==> verdict == Gone || faults.user || faults.creds)
        && (r != Err(UserGone) ==>
              r == if faults.activity then Err(ReadFailed)
                   else if verdict == Accepted then Ok(token.value) else Err(SessionExpired))
      ensures var was := old(repo.Value());
              repo.Value() == if r == Err(SessionExpired) && !faults.clear then SetLast(was, token.value, None) else was
    {
      if !hasSecret {
        return Err(NoSecret);
      }
      if token.None? {
        return Err(TokenInvalid);
      }
      var u := token.value;
      if faults.user || u !in repo.rows {
        return Err(UserGone);
      }
      if faults.creds || u !in repo.creds {
        return Err(UserGone);
      }
      var last := repo.GetWsLastActivity(u, faults.activity);
      if last.None? {
        return Err(ReadFailed);
      }
      if last.value.None? {
        assert repo.rows[u := repo.rows[u].(last := None)] == repo.rows;
        return Err(SessionExpired);
      }
      if now - last.value.value > idleTimeout {
        var _ := repo.ClearWsActivity(u, faults.clear);
        return Err(SessionExpired);
      }
      return Ok(u);
    }
  }

  // ----- connections -----

  class WsConn {
    const user: Uid
    var lastAppActivity: nat
    var open: bool

    constructor (user: Uid, now: nat)
      ensures this.user == user && lastAppActivity == now && open
    {
      this.user, lastAppActivity, open := user, now, true;
    }
  }

  ghost function ConnsOf(conns: map<ConnId, WsConn>, covered: set<ConnId>): map<ConnId, Conn>
    reads conns.Values
  {
    map c | c in conns :: Conn(conns[c].user, conns[c].lastAppActivity, conns[c].open, c in covered)
  }

  ghost predicate OwnObjects(conns: map<ConnId, WsConn>) {
    forall c, d :: c in conns && d in conns && conns[c] == conns[d] ==> c == d
  }

  class WsHandler {
    const auth: WsAuthService
    var conns: map<ConnId, WsConn>
    ghost var covered: set<ConnId>

    ghost predicate Valid()
      reads this, auth, auth.repo
    {
      auth.repo.Valid() && OwnObjects(conns)
    }

    constructor (auth: WsAuthService)
      requires auth.repo.Valid()
      ensures Valid() && this.auth == auth && conns == map[]
    {
      this.auth, conns, covered := auth, map[], {};
    }

    /** The state of the machine at a moment when no clear is pending. */
    ghost function Value(now: nat): State
      reads this, auth, auth.repo, conns.Values
    {
      State(auth.idleTimeout, now, auth.repo.Value(), auth.repo.used, ConnsOf(conns, covered), map[])
    }

    /** An accepted connection is registered and counts as activity, which is recorded unless that fails. */
    method HandleConnect(c: ConnId, u: Uid, now: nat, fails: bool)
      requires Valid() && c !in conns && u in auth.repo.used
      modifies this, auth.repo`rows
      ensures Valid()
      ensures var s := old(Value(now));
              Value(now) == Run(s, if fails then [Registers(c, u), Marks(c)] else Actions(s, ConnectionOpened(c, u)))
    {
      ghost var s := Value(now);
      OpenedIs(s, c, u);
      RegisteredIs(s, c, u);
      var x := new WsConn(u, now);
      conns := conns[c := x];
      covered := covered - {c};
      assert ConnsOf(conns, covered) == s.conns[c := Conn(u, now, true, false)];
      TouchActivity(u, now, fails);
    }

    /** A message of the client arrived, or a data frame was pushed. */
    method MarkAppActivity(c: ConnId, now: nat, fails: bool)
      requires Valid() && c in conns && conns[c].open
      modifies this, auth.repo`rows, conns[c]
      ensures Valid()
      ensures var s := old(Value(now));
              Value(now) == if fails then Step(s, Marks(c)) else Run(s, Actions(s, Traffic(c)))
    {
      ghost var s := Value(now);
      TrafficIs(s, c);
      conns[c].lastAppActivity := now;
      covered := covered - {c};
      assert ConnsOf(conns, covered) == Marked(s, c).conns;
      TouchActivity(conns[c].user, now, fails);
    }

    /** A failed touch is only logged. */
    method TouchActivity(u: Uid, now: nat, fails: bool)
      requires Valid()
      modifies `covered, auth.repo`rows
      ensures Valid() && Value(now) == if fails then old(Value(now)) else Touched(old(Value(now)), u)
    {
      ghost var s := Value(now);
      var ok := auth.repo.TouchWsActivity(u, now, fails);
      if ok {
        covered := covered + set c | c in conns && conns[c].user == u;
      }
      assert ok ==> ConnsOf(conns, covered) == Covered(s.conns, u);
      assert TouchedChecks(map[], u, now) == map[];
    }

    /** The writer's check of its connection: an idle one is closed, and if no statement fails its user's
        session invalidated. */
    method IdleCheck(c: ConnId, now: nat, readFails: bool, clearFails: bool) returns (closing: bool)
      requires Valid() && c in conns && conns[c].open
      modifies auth.repo`rows, conns.Values
      ensures Valid()
      ensures closing <==> now - old(conns[c].lastAppActivity) > auth.idleTimeout
      ensures forall d :: d in conns ==>
                var invalidated := closing && !readFails && !clearFails && conns[d].user == conns[c].user
                  && !Recent(old(LastActivity(auth.repo.Value(), conns[c].user)), now, auth.idleTimeout);
                conns[d].open <==> old(conns[d].open) && !(d == c && closing) && !invalidated
      ensures var s := old(Value(now));
              Value(now) == if closing && (readFails || clearFails) then Step(s, Closes(c))
                            else Run(s, Actions(s, IdleTick(c)))
    {
      ghost var s := Value(now);
      closing := now - conns[c].lastAppActivity > auth.idleTimeout;
      if closing {
        var invalidated := InvalidateOnIdle(conns[c].user, now, readFails, clearFails);
        ghost var m := Value(now);
        assert m == Invalidated(s, c, invalidated);
        Close(c);
        assert Value(now) == m.(conns := m.conns[c := m.conns[c].(open := false)]);
        IdleOutcome(s, c, invalidated, readFails || clearFails);
      }
    }

    method Close(c: ConnId)
      requires OwnObjects(conns) && c in conns
      modifies conns[c]
      ensures var was := old(ConnsOf(conns, covered));
              ConnsOf(conns, covered) == was[c := was[c].(open := false)]
    {
      conns[c].open := false;
    }

    /** The session is cleared, and with it all connections of the user closed, unless the database shows
        recent activity, of whatever connection, or a statement fails. */
    method InvalidateOnIdle(u: Uid, now: nat, readFails: bool, clearFails: bool) returns (invalidated: bool)
      requires Valid()
      modifies auth.repo`rows, conns.Values
      ensures Valid()
      ensures var recent := Recent(old(LastActivity(auth.repo.Value(), u)), now, auth.idleTimeout);
              invalidated <==> !recent && !readFails && !clearFails
      ensures forall c :: c in conns ==>
                (conns[c].open <==> old(conns[c].open) && !(invalidated && conns[c].user == u))
      ensures var s := old(Value(now));
              Value(now) == if invalidated then s.(db := SetLast(s.db, u, None), conns := ClosedOf(s.conns, u)) else s
    {
      var last := auth.repo.GetWsLastActivity(u, readFails);
      if last.None? {
        return false;
      }
      if last.value.Some? && now - last.value.value <= auth.idleTimeout {
        return false;
      }
      var ok := auth.repo.ClearWsActivity(u, clearFails);
      if !ok {
        return false;
      }
      CloseUserConnections(u);
      return true;
    }

    method CloseUserConnections(u: Uid)
      requires OwnObjects(conns)
      modifies conns.Values
      ensures forall c :: c in conns ==>
                (conns[c].open <==> old(conns[c].open) && conns[c].user != u)
                && conns[c].lastAppActivity == old(conns[c].lastAppActivity)
      ensures ConnsOf(conns, covered) == ClosedOf(old(ConnsOf(conns, covered)), u)
    {
      var left := conns.Keys;
      while left != {}
        invariant left <= conns.Keys
        invariant forall c :: c in conns ==>
          && conns[c].lastAppActivity == old(conns[c].lastAppActivity)
          && conns[c].open == (old(conns[c].open) && (c in left || conns[c].user != u))
        decreases left
      {
        var c :| c in left;
        if conns[c].user == u {
          conns[c].open := false;
        }
        left := left - {c};
      }
    }
  }
}
