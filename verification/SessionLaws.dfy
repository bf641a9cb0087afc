/** What each event of a session does, and to whom, without the words of the machine. */
module SessionLaws {
  import opened Text
  import opened Session

  // ----- whose connections stay open -----

  /** The session of the user is stale in the database. */
  predicate Stale(s: State, u: Uid) {
    !(u in s.db.rows && s.db.rows[u].last.Some? && s.now - s.db.rows[u].last.value <= s.idle)
  }

  /** The events that end an open connection: its own closing, its own idle check when it has been idle past
      the timeout, and the idle check of another idle connection of the same user when the database shows
      no recent activity of that user. */
  predicate Ends(s: State, e: Event, c: ConnId)
    requires c in s.conns
  {
    || e == ConnectionClosed(c)
    || (e.IdleTick? && e.c in s.conns && s.conns[e.c].open && s.now - s.conns[e.c].last > s.idle
        && (e.c == c || (s.conns[e.c].user == s.conns[c].user && Stale(s, s.conns[c].user))))
  }

  function After(s: State, e: Event): State {
    Run(s, Actions(s, e))
  }

  /** The closed forms of the events, one by one. */
  lemma PlainEventIs(s: State, e: Event)
    ensures match e
            case Elapsed(d) => After(s, e) == s.(now := s.now + d)
            case UserConfigured(name, id) => After(s, e) == Configured(s, name, id)
            case CredsSaved(u) => After(s, e) == s.(db := Save(s.db, u))
            case UserDeleted(u) => After(s, e) == s.(db := Delete(s.db, u))
            case TokenIssued(u) => After(s, e) == Touched(s, u)
            case PingPong(c) => After(s, e) == s
            case ConnectionClosed(c) => After(s, e) == Step(s, Closes(c))
            case _ => true
  {
    match e
    case Elapsed(d) => RunOne(s, Ticks(d));
    case UserConfigured(name, id) => RunOne(s, Configures(name, id));
    case CredsSaved(u) => RunOne(s, Saves(u));
    case UserDeleted(u) => RunOne(s, Deletes(u));
    case TokenIssued(u) => RunOne(s, Touches(u));
    case PingPong(c) => RunOne(s, Pongs(c));
    case ConnectionClosed(c) => RunOne(s, Closes(c));
    case _ =>
  }

  lemma ActivityEventIs(s: State, e: Event)
    requires s.checks == map[]
    ensures match e
            case ConnectionOpened(c, u) =>
              After(s, e) == if c in s.conns || u !in s.used then s
                             else Touched(s.(conns := s.conns[c := Conn(u, s.now, true, false)]), u)
            case Traffic(c) =>
              After(s, e) == if c !in s.conns || !s.conns[c].open then s else Touched(Marked(s, c), s.conns[c].user)
            case TokenChecked(u) =>
              After(s, e) == if Judge(s.db, u, s.now, s.idle) == Expired then s.(db := SetLast(s.db, u, None)) else s
            case _ => true
  {
    match e
    case ConnectionOpened(c, u) => if c !in s.conns && u in s.used { OpenedIs(s, c, u); }
    case Traffic(c) => if c in s.conns && s.conns[c].open { TrafficIs(s, c); }
    case TokenChecked(u) => TokenCheckedIs(s, u);
    case _ =>
  }

  lemma IdleEventIs(s: State, c: ConnId)
    requires s.checks == map[]
    ensures After(s, IdleTick(c))
         == if c !in s.conns || !s.conns[c].open || s.now - s.conns[c].last <= s.idle then s
            else if !Stale(s, s.conns[c].user) then s.(conns := s.conns[c := s.conns[c].(open := false)])
            else s.(db := SetLast(s.db, s.conns[c].user, None), conns := ClosedOf(s.conns, s.conns[c].user))
  {
    if c in s.conns && s.conns[c].open && s.now - s.conns[c].last > s.idle {
      IdleTickIs(s, c);
    }
  }

  /** An open connection is open after an event exactly unless the event ends it; a closed one stays closed;
      its user never changes, and its own last activity only by its own traffic. */
  lemma OpenUnlessEnded(s: State, e: Event, c: ConnId)
    requires s.checks == map[] && c in s.conns
    ensures var t := After(s, e);
            && c in t.conns && t.conns[c].user == s.conns[c].user
            && (t.conns[c].open <==> s.conns[c].open && !Ends(s, e, c))
            && t.conns[c].last == (if e == Traffic(c) && s.conns[c].open then s.now else s.conns[c].last)
  {
    PlainEventIs(s, e);
    ActivityEventIs(s, e);
    if e.IdleTick? { IdleEventIs(s, e.c); }
  }

  // ----- what happens to the users -----

  /** The user an event is about. */
  function About(s: State, e: Event): Option<Uid> {
    match e
    case UserConfigured(_, id) => Some(id)
    case CredsSaved(u) => Some(u)
    case UserDeleted(u) => Some(u)
    case TokenIssued(u) => Some(u)
    case ConnectionOpened(_, u) => Some(u)
    case Traffic(c) => if c in s.conns then Some(s.conns[c].user) else None
    case IdleTick(c) => if c in s.conns then Some(s.conns[c].user) else None
    case TokenChecked(u) => Some(u)
    case _ => None
  }

  /** No event touches any other user. */
  lemma OthersUntouched(s: State, e: Event, v: Uid)
    requires s.checks == map[] && About(s, e) != Some(v)
    ensures var t := After(s, e);
            && (v in t.db.rows <==> v in s.db.rows) && (v in t.db.creds <==> v in s.db.creds)
            && (v in s.db.rows ==> t.db.rows[v] == s.db.rows[v])
  {
    PlainEventIs(s, e);
    ActivityEventIs(s, e);
    if e.IdleTick? { IdleEventIs(s, e.c); }
  }

  /** A name that nobody has goes to a new user with a new id; otherwise nothing changes.  Credentials are
      saved for existing users, and go with their user. */
  lemma UsersComeAndGo(s: State, name: string, id: Uid, u: Uid)
    ensures var t := After(s, UserConfigured(name, id));
            if id !in s.used && id !in s.db.rows && (forall v :: v in s.db.rows ==> s.db.rows[v].username != name)
            then id in t.db.rows && t.db.rows[id] == Row(name, None) && t.db.creds == s.db.creds && id in t.used
            else t.db == s.db
    ensures var t := After(s, CredsSaved(u));
            t.db.rows == s.db.rows && (u in t.db.creds <==> u in s.db.creds || u in s.db.rows)
    ensures var t := After(s, UserDeleted(u)); u !in t.db.rows && u !in t.db.creds && t.used == s.used
  {
    PlainEventIs(s, UserConfigured(name, id));
    PlainEventIs(s, CredsSaved(u));
    PlainEventIs(s, UserDeleted(u));
  }

  /** Only the clock moves the time, and only by what has elapsed. */
  lemma OnlyTimePasses(s: State, e: Event)
    requires s.checks == map[]
    ensures var t := After(s, e);
            && t.now == s.now + (if e.Elapsed? then e.d else 0) && t.idle == s.idle
            && (e.Elapsed? || e.PingPong? ==> t.db == s.db && t.conns == s.conns)
  {
    PlainEventIs(s, e);
    ActivityEventIs(s, e);
    if e.IdleTick? { IdleEventIs(s, e.c); }
  }

  /** Token issues, connections and traffic set an existing user's last activity to now; an expired session
      is unset when its token is checked, and a recent one never. */
  lemma ActivitySetsLast(s: State, e: Event, u: Uid)
    requires s.checks == map[] && u in s.db.rows && u in s.used
    ensures var t := After(s, e);
            && (e == TokenIssued(u) || (e.ConnectionOpened? && e.u == u && e.c !in s.conns)
                || (e.Traffic? && e.c in s.conns && s.conns[e.c].open && s.conns[e.c].user == u) ==>
                  u in t.db.rows && t.db.rows[u] == Row(s.db.rows[u].username, Some(s.now)))
            && (e == TokenChecked(u) ==>
                  u in t.db.rows && t.db.rows[u] ==
                    if Stale(s, u) && u in s.db.creds then Row(s.db.rows[u].username, None) else s.db.rows[u])
  {
    PlainEventIs(s, e);
    ActivityEventIs(s, e);
  }

  /** A new connection is open, belongs to its user and has just been active. */
  lemma OpenedConnection(s: State, c: ConnId, u: Uid)
    requires s.checks == map[] && c !in s.conns && u in s.used
    ensures var t := After(s, ConnectionOpened(c, u));
            c in t.conns && t.conns[c].open && t.conns[c].user == u && t.conns[c].last == s.now
  {
    ActivityEventIs(s, ConnectionOpened(c, u));
  }
}
