/** Sessions: a token is valid while the user and its credentials exist and the recorded last activity is
    recent enough.  Connections keep a last activity of their own, and record it in the database in a
    second step; a stale session is found in one step and cleared in another. */
module Session {
  import opened Text

  type Uid = nat
  type ConnId = nat
  type CheckId = nat

  // ----- the users table -----

  datatype Row = Row(username: string, last: Option<nat>)

  datatype Db = Db(rows: map<Uid, Row>, creds: set<Uid>)

  function SetLast(db: Db, u: Uid, last: Option<nat>): Db {
    if u in db.rows then db.(rows := db.rows[u := db.rows[u].(last := last)]) else db
  }

  predicate HasName(db: Db, username: string) {
    exists u :: u in db.rows && db.rows[u].username == username
  }

  /** An insert that leaves an existing row of that name alone. */
  function Upsert(db: Db, username: string, newId: Uid): Db {
    if HasName(db, username) || newId in db.rows then db
    else db.(rows := db.rows[newId := Row(username, None)])
  }

  function Save(db: Db, u: Uid): Db {
    if u in db.rows then db.(creds := db.creds + {u}) else db
  }

  /** Deleting a user deletes its credentials. */
  function Delete(db: Db, u: Uid): Db {
    Db(db.rows - {u}, db.creds - {u})
  }

  function LastActivity(db: Db, u: Uid): Option<nat> {
    if u in db.rows then db.rows[u].last else None
  }

  predicate Recent(last: Option<nat>, now: nat, idle: nat) {
    last.Some? && now - last.value <= idle
  }

  datatype Verdict = Accepted | Expired | Gone

  /** What ValidateToken says of a correctly signed token of u. */
  function Judge(db: Db, u: Uid, now: nat, idle: nat): Verdict {
    if u !in db.rows || u !in db.creds then Gone
    else if Recent(db.rows[u].last, now, idle) then Accepted
    else Expired
  }

  // ----- the machine -----

  /** `covered`: a database touch for the connection's user has landed since its last own activity. */
  datatype Conn = Conn(user: Uid, last: nat, open: bool, covered: bool)

  /** A session found stale or unset, and not yet cleared: what was read, and when the last touch landed
      since then. */
  datatype Check = Check(user: Uid, read: Option<nat>, touched: Option<nat>)

  /** `used`: every id ever given to a user. */
  datatype State =
    State(idle: nat, now: nat, db: Db, used: set<Uid>, conns: map<ConnId, Conn>, checks: map<CheckId, Check>)

  /** Touches: a token is issued, or activity of a connection is recorded in the database.  Marks: a
      connection stores its own last activity. */
  datatype Action =
    | Ticks(d: nat)
    | Configures(username: string, newId: Uid)
    | Saves(u: Uid)
    | Deletes(u: Uid)
    | Touches(u: Uid)
    | Registers(c: ConnId, u: Uid)
    | Marks(c: ConnId)
    | Pongs(c: ConnId)
    | Closes(c: ConnId)
    | ClosesAll(u: Uid)
    | Checks(p: CheckId, u: Uid)
    | Clears(p: CheckId)

  function Init(idle: nat): State {
    State(idle, 0, Db(map[], {}), {}, map[], map[])
  }

  function Configured(s: State, username: string, newId: Uid): State {
    if newId in s.used then s
    else s.(db := Upsert(s.db, username, newId), used := s.used + {newId})
  }

  function Covered(conns: map<ConnId, Conn>, u: Uid): map<ConnId, Conn> {
    map c | c in conns :: if conns[c].user == u then conns[c].(covered := true) else conns[c]
  }

  function TouchedChecks(checks: map<CheckId, Check>, u: Uid, now: nat): map<CheckId, Check> {
    map p | p in checks :: if checks[p].user == u then checks[p].(touched := Some(now)) else checks[p]
  }

  /** A touch of a user that is gone fails. */
  function Touched(s: State, u: Uid): State {
    if u in s.db.rows then
      s.(db := SetLast(s.db, u, Some(s.now)), conns := Covered(s.conns, u), checks := TouchedChecks(s.checks, u, s.now))
    else s
  }

  function Registered(s: State, c: ConnId, u: Uid): State {
    if c in s.conns || u !in s.used then s else s.(conns := s.conns[c := Conn(u, s.now, true, false)])
  }

  function Marked(s: State, c: ConnId): State {
    if c in s.conns && s.conns[c].open then
      s.(conns := s.conns[c := s.conns[c].(last := s.now, covered := false)])
    else s
  }

  function ClosedOf(conns: map<ConnId, Conn>, u: Uid): map<ConnId, Conn> {
    map c | c in conns :: if conns[c].user == u then conns[c].(open := false) else conns[c]
  }

  /** A session that is not recent is going to be cleared. */
  function Checked(s: State, p: CheckId, u: Uid): State {
    if u !in s.db.rows || Recent(s.db.rows[u].last, s.now, s.idle) then s
    else s.(checks := s.checks[p := Check(u, s.db.rows[u].last, None)])
  }

  function Cleared(s: State, p: CheckId): State {
    if p in s.checks then s.(db := SetLast(s.db, s.checks[p].user, None), checks := s.checks - {p}) else s
  }

  /** An action that is not possible changes nothing. */
  function Step(s: State, a: Action): State {
    match a
    case Ticks(d) => s.(now := s.now + d)
    case Configures(username, newId) => Configured(s, username, newId)
    case Saves(u) => s.(db := Save(s.db, u))
    case Deletes(u) => s.(db := Delete(s.db, u))
    case Touches(u) => Touched(s, u)
    case Registers(c, u) => Registered(s, c, u)
    case Marks(c) => Marked(s, c)
    case Pongs(c) => s
    case Closes(c) => if c in s.conns then s.(conns := s.conns[c := s.conns[c].(open := false)]) else s
    case ClosesAll(u) => s.(conns := ClosedOf(s.conns, u))
    case Checks(p, u) => Checked(s, p, u)
    case Clears(p) => Cleared(s, p)
  }

  function Run(s: State, actions: seq<Action>): State
    decreases |actions|
  {
    if actions == [] then s else Run(Step(s, actions[0]), actions[1..])
  }

  lemma {:induction false} RunAppend(s: State, a: seq<Action>, b: seq<Action>)
    ensures Run(s, a + b) == Run(Run(s, a), b)
    decreases |a|
  {
    if a == [] {
      assert a + b == b;
    } else {
      assert (a + b)[0] == a[0] && (a + b)[1..] == a[1..] + b;
      RunAppend(Step(s, a[0]), a[1..], b);
    }
  }

  lemma RunOne(s: State, a: Action)
    ensures Run(s, [a]) == Step(s, a)
  {
  }

  lemma RunTwo(s: State, a: Action, b: Action)
    ensures Run(s, [a, b]) == Step(Step(s, a), b)
  {
    assert [a, b][1..] == [b];
    RunOne(Step(s, a), b);
  }

  lemma RunThree(s: State, a: Action, b: Action, c: Action)
    ensures Run(s, [a, b, c]) == Step(Step(Step(s, a), b), c)
  {
    assert [a, b, c][1..] == [b, c];
    RunTwo(Step(s, a), b, c);
  }

  // ----- what every interleaving keeps -----

  /** No recorded activity lies in the future, and ids are used once. */
  ghost predicate DbSound(s: State) {
    && s.db.rows.Keys <= s.used
    && (forall u :: u in s.db.rows && s.db.rows[u].last.Some? ==> s.db.rows[u].last.value <= s.now)
  }

  /** A connection's own activity, once covered, is no later than what the database records. */
  ghost predicate ConnSound(s: State, x: Conn) {
    && x.user in s.used && x.last <= s.now
    && (x.covered && x.user in s.db.rows && s.db.rows[x.user].last.Some? ==> x.last <= s.db.rows[x.user].last.value)
  }

  /** Between a check and its clear the database holds the stale value that was read, unless the session
      was touched again or has been cleared already. */
  ghost predicate CheckSound(s: State, k: Check) {
    && k.user in s.used
    && (k.read.Some? ==> s.now - k.read.value > s.idle)
    && (k.user in s.db.rows && s.db.rows[k.user].last.Some? ==>
          s.db.rows[k.user].last == if k.touched.Some? then k.touched else k.read)
  }

  ghost predicate Sound(s: State) {
    && DbSound(s)
    && (forall c :: c in s.conns ==> ConnSound(s, s.conns[c]))
    && (forall p :: p in s.checks ==> CheckSound(s, s.checks[p]))
  }

  lemma TouchedSound(s: State, u: Uid)
    requires Sound(s)
    ensures Sound(Touched(s, u))
  {
  }

  lemma ConfiguredSound(s: State, username: string, newId: Uid)
    requires Sound(s)
    ensures Sound(Configured(s, username, newId))
  {
  }

  lemma ClearedSound(s: State, p: CheckId)
    requires Sound(s)
    ensures Sound(Cleared(s, p))
  {
  }

  lemma CheckedSound(s: State, p: CheckId, u: Uid)
    requires Sound(s)
    ensures Sound(Checked(s, p, u))
  {
  }

  /** Everything else leaves recorded activities alone. */
  lemma OtherSound(s: State, a: Action)
    requires Sound(s) && !a.Touches? && !a.Configures? && !a.Clears? && !a.Checks?
    ensures Sound(Step(s, a))
  {
    var r := Step(s, a);
    forall c | c in r.conns ensures ConnSound(r, r.conns[c]) {
      if c in s.conns { assert ConnSound(s, s.conns[c]); }
    }
    forall p | p in r.checks ensures CheckSound(r, r.checks[p]) { assert CheckSound(s, s.checks[p]); }
  }

  lemma StepSound(s: State, a: Action)
    requires Sound(s)
    ensures Sound(Step(s, a))
  {
    match a
    case Touches(u) => TouchedSound(s, u);
    case Configures(username, newId) => ConfiguredSound(s, username, newId);
    case Clears(p) => ClearedSound(s, p);
    case Checks(p, u) => CheckedSound(s, p, u);
    case _ => OtherSound(s, a);
  }

  lemma {:induction false} RunSound(s: State, actions: seq<Action>)
    requires Sound(s)
    ensures Sound(Run(s, actions))
    decreases |actions|
  {
    if actions != [] {
      StepSound(s, actions[0]);
      RunSound(Step(s, actions[0]), actions[1..]);
    }
  }

  // ----- which clears end a session that is alive -----

  /** In every interleaving, a clear that ends a session without a touch since its check finds every
      open connection of the user idle past the timeout, or with no touch landed for its last activity. */
  lemma UntouchedClearIsHarmless(idle: nat, actions: seq<Action>, p: CheckId, c: ConnId)
    requires var s := Run(Init(idle), actions);
             && p in s.checks && s.checks[p].touched.None? && LastActivity(s.db, s.checks[p].user).Some?
             && c in s.conns && s.conns[c].user == s.checks[p].user && s.conns[c].covered
    ensures var s := Run(Init(idle), actions); s.now - s.conns[c].last > idle
  {
    RunSound(Init(idle), actions);
    RunIdle(Init(idle), actions);
    var s := Run(Init(idle), actions);
    assert CheckSound(s, s.checks[p]) && ConnSound(s, s.conns[c]);
  }

  lemma {:induction false} RunIdle(s: State, actions: seq<Action>)
    ensures Run(s, actions).idle == s.idle && Run(s, actions).now >= s.now
    decreases |actions|
  {
    if actions != [] {
      RunIdle(Step(s, actions[0]), actions[1..]);
    }
  }

  /** In every interleaving, a pending clear is about to end a session that is alive exactly when a touch
      landed since its check, no longer ago than the timeout, and no other clear came first. */
  lemma ClearEndsLiveSessionIff(idle: nat, actions: seq<Action>, p: CheckId)
    requires p in Run(Init(idle), actions).checks
    ensures var s := Run(Init(idle), actions);
            var (last, touched) := (LastActivity(s.db, s.checks[p].user), s.checks[p].touched);
            Recent(last, s.now, idle) <==> (last.Some? && Recent(touched, s.now, idle))
  {
    RunSound(Init(idle), actions);
    RunIdle(Init(idle), actions);
    var s := Run(Init(idle), actions);
    assert CheckSound(s, s.checks[p]);
  }

  // ----- sessions in every interleaving -----

  /** The time of each user's last touch, never forgotten. */
  function NotedTouch(times: map<Uid, nat>, s: State, a: Action): map<Uid, nat> {
    if a.Touches? && a.u in s.db.rows then times[a.u := s.now] else times
  }

  function TouchTimes(s: State, times: map<Uid, nat>, actions: seq<Action>): map<Uid, nat>
    decreases |actions|
  {
    if actions == [] then times else TouchTimes(Step(s, actions[0]), NotedTouch(times, s, actions[0]), actions[1..])
  }

  /** The database holds a user's last touch, or nothing if there was none or it is too long ago. */
  ghost predicate CalmUser(s: State, times: map<Uid, nat>, u: Uid)
    requires u in s.db.rows
  {
    if s.db.rows[u].last.Some? then u in times && times[u] == s.db.rows[u].last.value <= s.now
    else u in times ==> s.now - times[u] > s.idle
  }

  /** The database follows the touches. */
  ghost predicate Followed(s: State, times: map<Uid, nat>) {
    forall u :: u in s.db.rows ==> CalmUser(s, times, u)
  }

  ghost predicate CheckTimed(s: State, times: map<Uid, nat>, k: Check) {
    k.user in s.db.rows ==>
      if k.touched.Some? then k.user in times && times[k.user] == k.touched.value
      else k.user in times ==> s.now - times[k.user] > s.idle
  }

  ghost predicate ConnTimed(s: State, times: map<Uid, nat>, x: Conn) {
    x.covered && x.user in s.db.rows ==> x.user in times && x.last <= times[x.user]
  }

  /** What checks and connections know of the touches. */
  ghost predicate Timed(s: State, times: map<Uid, nat>) {
    && times.Keys <= s.used
    && (forall p :: p in s.checks ==> CheckTimed(s, times, s.checks[p]))
    && (forall c :: c in s.conns ==> ConnTimed(s, times, s.conns[c]))
  }

  /** A clear of a session that was touched, recently, after its check. */
  predicate RacingClear(s: State, a: Action) {
    && a.Clears? && a.p in s.checks && s.checks[a.p].user in s.db.rows
    && Recent(s.checks[a.p].touched, s.now, s.idle)
  }

  lemma CheckTimedStep(s: State, times: map<Uid, nat>, a: Action, p: CheckId)
    requires Sound(s) && Timed(s, times) && Followed(s, times) && p in Step(s, a).checks
    ensures CheckTimed(Step(s, a), NotedTouch(times, s, a), Step(s, a).checks[p])
  {
    if p in s.checks {
      assert CheckTimed(s, times, s.checks[p]) && CheckSound(s, s.checks[p]);
    }
    if a.Checks? && a.u in s.db.rows {
      assert CalmUser(s, times, a.u);
    }
  }

  lemma ConnTimedStep(s: State, times: map<Uid, nat>, a: Action, c: ConnId)
    requires Sound(s) && Timed(s, times) && c in Step(s, a).conns
    ensures ConnTimed(Step(s, a), NotedTouch(times, s, a), Step(s, a).conns[c])
  {
    if c in s.conns {
      assert ConnTimed(s, times, s.conns[c]) && ConnSound(s, s.conns[c]);
    }
  }

  lemma TimedStep(s: State, times: map<Uid, nat>, a: Action)
    requires Sound(s) && Timed(s, times) && Followed(s, times)
    ensures Timed(Step(s, a), NotedTouch(times, s, a))
  {
    var t, later := Step(s, a), NotedTouch(times, s, a);
    KnownUsers(s, times, a);
    forall p | p in t.checks ensures CheckTimed(t, later, t.checks[p]) {
      CheckTimedStep(s, times, a, p);
    }
    forall c | c in t.conns ensures ConnTimed(t, later, t.conns[c]) {
      ConnTimedStep(s, times, a, c);
    }
  }

  lemma KnownUsers(s: State, times: map<Uid, nat>, a: Action)
    requires Sound(s) && times.Keys <= s.used
    ensures NotedTouch(times, s, a).Keys <= Step(s, a).used
  {
  }

  lemma FollowedClear(s: State, times: map<Uid, nat>, p: CheckId)
    requires Timed(s, times) && Followed(s, times)
    ensures Followed(Cleared(s, p), times) <==> !RacingClear(s, Clears(p))
  {
    var t := Cleared(s, p);
    forall u | u in t.db.rows && (p !in s.checks || u != s.checks[p].user) ensures CalmUser(t, times, u) {
      assert CalmUser(s, times, u);
    }
    if p in s.checks && s.checks[p].user in s.db.rows {
      var u := s.checks[p].user;
      assert CheckTimed(s, times, s.checks[p]) && CalmUser(s, times, u);
      assert CalmUser(t, times, u) <==> !RacingClear(s, Clears(p));
    }
  }

  lemma FollowedOther(s: State, times: map<Uid, nat>, a: Action)
    requires Sound(s) && Timed(s, times) && Followed(s, times) && !a.Clears?
    ensures Followed(Step(s, a), NotedTouch(times, s, a))
  {
    var t, later := Step(s, a), NotedTouch(times, s, a);
    forall u | u in t.db.rows ensures CalmUser(t, later, u) {
      if u in s.db.rows { assert CalmUser(s, times, u); }
    }
  }

  /** The database follows the touches through a step exactly unless the step is a racing clear. */
  lemma FollowedStepIff(s: State, times: map<Uid, nat>, a: Action)
    requires Sound(s) && Timed(s, times) && Followed(s, times)
    ensures Followed(Step(s, a), NotedTouch(times, s, a)) <==> !RacingClear(s, a)
  {
    if a.Clears? { FollowedClear(s, times, a.p); } else { FollowedOther(s, times, a); }
  }

  predicate NoRacingClear(s: State, actions: seq<Action>)
    decreases |actions|
  {
    actions == [] || (!RacingClear(s, actions[0]) && NoRacingClear(Step(s, actions[0]), actions[1..]))
  }

  ghost predicate FollowedThroughout(s: State, times: map<Uid, nat>, actions: seq<Action>)
    decreases |actions|
  {
    && Followed(s, times)
    && (actions != [] ==> FollowedThroughout(Step(s, actions[0]), NotedTouch(times, s, actions[0]), actions[1..]))
  }

  lemma {:induction false} FollowedFrom(s: State, times: map<Uid, nat>, actions: seq<Action>)
    requires Sound(s) && Timed(s, times) && Followed(s, times)
    ensures FollowedThroughout(s, times, actions) <==> NoRacingClear(s, actions)
    ensures NoRacingClear(s, actions) ==>
              var (t, later) := (Run(s, actions), TouchTimes(s, times, actions)); Followed(t, later) && Timed(t, later)
    decreases |actions|
  {
    if actions != [] {
      StepSound(s, actions[0]);
      TimedStep(s, times, actions[0]);
      FollowedStepIff(s, times, actions[0]);
      if !RacingClear(s, actions[0]) {
        FollowedFrom(Step(s, actions[0]), NotedTouch(times, s, actions[0]), actions[1..]);
      }
    }
  }

  /** In every interleaving, the database follows the touches throughout exactly if no clear races with a
      touch. */
  lemma FollowedThroughoutIff(idle: nat, actions: seq<Action>)
    ensures FollowedThroughout(Init(idle), map[], actions) <==> NoRacingClear(Init(idle), actions)
  {
    FollowedFrom(Init(idle), map[], actions);
  }

  /** In every interleaving without racing clears, touches failing or late as they may, a user's tokens are
      accepted exactly while the user and its credentials exist and the last touch that landed is recent. */
  lemma AcceptedUnlessRaced(idle: nat, actions: seq<Action>, u: Uid)
    requires NoRacingClear(Init(idle), actions)
    ensures var (s, times) := (Run(Init(idle), actions), TouchTimes(Init(idle), map[], actions));
            Judge(s.db, u, s.now, idle) == Accepted <==>
            (u in s.db.rows && u in s.db.creds && u in times && s.now - times[u] <= idle)
  {
    FollowedFrom(Init(idle), map[], actions);
    RunIdle(Init(idle), actions);
    var s := Run(Init(idle), actions);
    assert u in s.db.rows ==> CalmUser(s, TouchTimes(Init(idle), map[], actions), u);
  }

  /** And a recently active connection whose activity has been recorded keeps its user's session. */
  lemma RecordedActivityKeepsSession(idle: nat, actions: seq<Action>, c: ConnId)
    requires NoRacingClear(Init(idle), actions) && c in Run(Init(idle), actions).conns
    ensures var s := Run(Init(idle), actions);
            var x := s.conns[c];
            x.covered && s.now - x.last <= idle && x.user in s.db.rows ==> Recent(s.db.rows[x.user].last, s.now, idle)
  {
    FollowedFrom(Init(idle), map[], actions);
    RunIdle(Init(idle), actions);
    var (s, times) := (Run(Init(idle), actions), TouchTimes(Init(idle), map[], actions));
    var x := s.conns[c];
    assert ConnTimed(s, times, x);
    assert x.user in s.db.rows ==> CalmUser(s, times, x.user);
  }

  // ----- expiry and deletion -----

  /** What the database records for u is no later than t. */
  ghost predicate NotAfter(s: State, u: Uid, t: nat) {
    u in s.db.rows && s.db.rows[u].last.Some? ==> s.db.rows[u].last.value <= t
  }

  lemma NotAfterStep(s: State, a: Action, u: Uid, t: nat)
    requires NotAfter(s, u, t) && a != Touches(u)
    ensures NotAfter(Step(s, a), u, t)
  {
  }

  lemma {:induction false} NotAfterRun(s: State, actions: seq<Action>, u: Uid, t: nat)
    requires NotAfter(s, u, t) && Touches(u) !in actions
    ensures NotAfter(Run(s, actions), u, t)
    decreases |actions|
  {
    if actions != [] {
      NotAfterStep(s, actions[0], u, t);
      NotAfterRun(Step(s, actions[0]), actions[1..], u, t);
    }
  }

  /** In every interleaving: once no touch of u has landed for longer than the timeout, u's tokens are
      not accepted, whatever else happened meanwhile and whatever happens until the next touch. */
  lemma QuietUserExpires(idle: nat, before: seq<Action>, quiet: seq<Action>, u: Uid)
    requires Touches(u) !in quiet
    requires Run(Init(idle), before + quiet).now > Run(Init(idle), before).now + idle
    ensures var s := Run(Init(idle), before + quiet); Judge(s.db, u, s.now, idle) != Accepted
  {
    var s := Run(Init(idle), before);
    RunAppend(Init(idle), before, quiet);
    RunSound(Init(idle), before);
    NotAfterRun(s, quiet, u, s.now);
  }

  /** A session that has been cleared stays ended until the next touch. */
  lemma ClearedStaysEnded(s: State, p: CheckId, actions: seq<Action>)
    requires p in s.checks && Touches(s.checks[p].user) !in actions
    ensures var r := Run(Cleared(s, p), actions); Judge(r.db, s.checks[p].user, r.now, r.idle) != Accepted
  {
    UnsetRun(Cleared(s, p), actions, s.checks[p].user);
  }

  lemma {:induction false} UnsetRun(s: State, actions: seq<Action>, u: Uid)
    requires LastActivity(s.db, u).None? && Touches(u) !in actions
    ensures LastActivity(Run(s, actions).db, u).None?
    decreases |actions|
  {
    if actions != [] {
      assert LastActivity(Step(s, actions[0]).db, u).None?;
      UnsetRun(Step(s, actions[0]), actions[1..], u);
    }
  }

  lemma {:induction false} GoneRun(s: State, actions: seq<Action>, u: Uid)
    requires u in s.used && u !in s.db.rows
    ensures u !in Run(s, actions).db.rows
    decreases |actions|
  {
    if actions != [] {
      GoneRun(Step(s, actions[0]), actions[1..], u);
    }
  }

  /** In every interleaving: tokens of a deleted user are never accepted again, also when its name is
      configured again, which gives that name another id. */
  lemma DeletedStaysGone(idle: nat, before: seq<Action>, after: seq<Action>, u: Uid)
    requires u in Run(Init(idle), before).db.rows
    ensures var r := Run(Step(Run(Init(idle), before), Deletes(u)), after);
            Judge(r.db, u, r.now, r.idle) == Gone
            && u !in r.db.rows
  {
    var s := Run(Init(idle), before);
    RunSound(Init(idle), before);
    GoneRun(Step(s, Deletes(u)), after, u);
  }

  // ----- a touch between check and clear -----

  const OPENING := [Configures("", 0), Saves(0), Registers(0, 0), Marks(0), Touches(0)]

  function Opened(idle: nat): State {
    State(idle, 0, Db(map[0 := Row("", Some(0))], {0}), {0}, map[0 := Conn(0, 0, true, true)], map[])
  }

  lemma OpeningRun(idle: nat)
    ensures Run(Init(idle), OPENING) == Opened(idle)
  {
  }

  /** A connection is found idle; then it shows activity again, which is recorded. */
  function Racing(idle: nat): seq<Action> {
    [Ticks(idle + 1), Checks(0, 0)] + [Marks(0), Touches(0)]
  }

  lemma RacingRun(idle: nat)
    ensures var r := Run(Opened(idle), Racing(idle));
            && 0 in r.checks && r.checks[0].user == 0 && r.now == idle + 1 && r.idle == idle
            && r.db == Db(map[0 := Row("", Some(idle + 1))], {0})
            && r.conns == map[0 := Conn(0, idle + 1, true, true)]
  {
    RunTwo(Opened(idle), Ticks(idle + 1), Checks(0, 0));
    RunAppend(Opened(idle), [Ticks(idle + 1), Checks(0, 0)], [Marks(0), Touches(0)]);
    var s := Checked(Opened(idle).(now := idle + 1), 0, 0);
    assert s.checks == map[0 := Check(0, Some(0), None)];
    RunTwo(s, Marks(0), Touches(0));
  }

  /** The clear does not look again, so it can end a session whose connection has just been active and
      whose activity is recorded. */
  lemma RaceEndsActiveSession(idle: nat) returns (actions: seq<Action>)
    ensures var s := Run(Init(idle), actions);
            && 0 in s.conns && s.conns[0] == Conn(0, s.now, true, true)
            && Judge(s.db, 0, s.now, idle) == Accepted
            && 0 in s.checks && Judge(Step(s, Clears(0)).db, 0, s.now, idle) == Expired
  {
    actions := OPENING + Racing(idle);
    OpeningRun(idle);
    RunAppend(Init(idle), OPENING, Racing(idle));
    RacingRun(idle);
  }

  // ----- when touches land at once and clears follow their checks at once -----

  /** What happens to a session, seen from outside.  Traffic: a message of the client, or a data frame
      pushed to it. */
  datatype Event =
    | Elapsed(d: nat)
    | UserConfigured(username: string, newId: Uid)
    | CredsSaved(u: Uid)
    | UserDeleted(u: Uid)
    | TokenIssued(u: Uid)
    | ConnectionOpened(c: ConnId, u: Uid)
    | Traffic(c: ConnId)
    | PingPong(c: ConnId)
    | ConnectionClosed(c: ConnId)
    | IdleTick(c: ConnId)
    | TokenChecked(u: Uid)

  predicate Idle(s: State, c: ConnId)
    requires c in s.conns
  {
    s.now - s.conns[c].last > s.idle
  }

  /** The actions an event consists of. */
  function Actions(s: State, e: Event): seq<Action> {
    match e
    case Elapsed(d) => [Ticks(d)]
    case UserConfigured(username, newId) => [Configures(username, newId)]
    case CredsSaved(u) => [Saves(u)]
    case UserDeleted(u) => [Deletes(u)]
    case TokenIssued(u) => [Touches(u)]
    case ConnectionOpened(c, u) => if c in s.conns || u !in s.used then [] else [Registers(c, u), Marks(c), Touches(u)]
    case Traffic(c) => if c in s.conns && s.conns[c].open then [Marks(c), Touches(s.conns[c].user)] else []
    case PingPong(c) => [Pongs(c)]
    case ConnectionClosed(c) => [Closes(c)]
    case IdleTick(c) =>
      if c !in s.conns || !s.conns[c].open || !Idle(s, c) then []
      else if Recent(LastActivity(s.db, s.conns[c].user), s.now, s.idle) then [Closes(c)]
      else [Checks(0, s.conns[c].user), Clears(0), ClosesAll(s.conns[c].user)]
    case TokenChecked(u) =>
      if Judge(s.db, u, s.now, s.idle) == Expired && s.db.rows[u].last.Some? then [Checks(0, u), Clears(0)] else []
  }

  lemma OpenedIs(s: State, c: ConnId, u: Uid)
    requires c !in s.conns && u in s.used
    ensures Run(s, Actions(s, ConnectionOpened(c, u)))
         == Touched(s.(conns := s.conns[c := Conn(u, s.now, true, false)]), u)
  {
    RunThree(s, Registers(c, u), Marks(c), Touches(u));
    var x := Conn(u, s.now, true, false);
    assert s.conns[c := x][c := x] == s.conns[c := x];
  }

  lemma RegisteredIs(s: State, c: ConnId, u: Uid)
    requires c !in s.conns && u in s.used
    ensures Run(s, [Registers(c, u), Marks(c)]) == s.(conns := s.conns[c := Conn(u, s.now, true, false)])
  {
    RunTwo(s, Registers(c, u), Marks(c));
    var x := Conn(u, s.now, true, false);
    assert s.conns[c := x][c := x] == s.conns[c := x];
  }

  lemma TrafficIs(s: State, c: ConnId)
    requires c in s.conns && s.conns[c].open
    ensures Run(s, Actions(s, Traffic(c))) == Touched(Marked(s, c), s.conns[c].user)
  {
    RunTwo(s, Marks(c), Touches(s.conns[c].user));
  }

  /** Nothing happens between the check and its clear. */
  lemma CheckThenClear(s: State, u: Uid)
    requires s.checks == map[] && !Recent(LastActivity(s.db, u), s.now, s.idle)
    ensures Cleared(Checked(s, 0, u), 0) == s.(db := SetLast(s.db, u, None))
  {
  }

  lemma ClosedAlready(conns: map<ConnId, Conn>, c: ConnId)
    requires c in conns
    ensures var closed := ClosedOf(conns, conns[c].user); closed[c := closed[c].(open := false)] == closed
  {
  }

  lemma TokenCheckedIs(s: State, u: Uid)
    requires s.checks == map[]
    ensures Run(s, Actions(s, TokenChecked(u)))
         == if Judge(s.db, u, s.now, s.idle) == Expired then s.(db := SetLast(s.db, u, None)) else s
  {
    if Judge(s.db, u, s.now, s.idle) == Expired {
      if s.db.rows[u].last.Some? {
        RunTwo(s, Checks(0, u), Clears(0));
        CheckThenClear(s, u);
      } else {
        assert SetLast(s.db, u, None).rows == s.db.rows;
      }
    }
  }

  lemma IdleTickIs(s: State, c: ConnId)
    requires s.checks == map[] && c in s.conns && s.conns[c].open && Idle(s, c)
    ensures var u := s.conns[c].user;
            Run(s, Actions(s, IdleTick(c)))
              == if Recent(LastActivity(s.db, u), s.now, s.idle)
                 then s.(conns := s.conns[c := s.conns[c].(open := false)])
                 else s.(db := SetLast(s.db, u, None), conns := ClosedOf(s.conns, u))
  {
    var u := s.conns[c].user;
    if Recent(LastActivity(s.db, u), s.now, s.idle) {
      RunOne(s, Closes(c));
    } else {
      RunThree(s, Checks(0, u), Clears(0), ClosesAll(u));
      CheckThenClear(s, u);
    }
  }

  function Invalidated(s: State, c: ConnId, invalidated: bool): State
    requires c in s.conns
  {
    var u := s.conns[c].user;
    if invalidated then s.(db := SetLast(s.db, u, None), conns := ClosedOf(s.conns, u)) else s
  }

  /** An idle connection is closed last, whether the session has been invalidated or not. */
  lemma IdleOutcome(s: State, c: ConnId, invalidated: bool, fails: bool)
    requires s.checks == map[] && c in s.conns && s.conns[c].open && Idle(s, c)
    requires invalidated <==> !Recent(LastActivity(s.db, s.conns[c].user), s.now, s.idle) && !fails
    ensures var m := Invalidated(s, c, invalidated);
            m.(conns := m.conns[c := m.conns[c].(open := false)])
              == if fails then Step(s, Closes(c)) else Run(s, Actions(s, IdleTick(c)))
  {
    IdleTickIs(s, c);
    ClosedAlready(s.conns, c);
  }

  function EventRun(s: State, events: seq<Event>): State
    decreases |events|
  {
    if events == [] then s else EventRun(Run(s, Actions(s, events[0])), events[1..])
  }

  /** The user an event touches. */
  function TouchOf(s: State, e: Event): Option<Uid> {
    match e
    case TokenIssued(u) => Some(u)
    case ConnectionOpened(c, u) => if c in s.conns then None else Some(u)
    case Traffic(c) => if c in s.conns && s.conns[c].open then Some(s.conns[c].user) else None
    case _ => None
  }

  /** The time of each user's last touch, never forgotten: an event of an existing user renews it. */
  function Noted(times: map<Uid, nat>, s: State, e: Event): map<Uid, nat> {
    match TouchOf(s, e)
    case Some(u) => if u in s.db.rows then times[u := s.now] else times
    case None => times
  }

  function LastTouches(s: State, times: map<Uid, nat>, events: seq<Event>): map<Uid, nat>
    decreases |events|
  {
    if events == [] then times
    else LastTouches(Run(s, Actions(s, events[0])), Noted(times, s, events[0]), events[1..])
  }

  /** An open connection's own activity is no later than its user's last touch. */
  ghost predicate CalmConn(s: State, times: map<Uid, nat>, x: Conn) {
    x.user in s.used && (x.open && x.user in s.db.rows ==> x.user in times && x.last <= times[x.user])
  }

  ghost predicate Calm(s: State, times: map<Uid, nat>) {
    && s.checks == map[]
    && s.db.rows.Keys <= s.used && times.Keys <= s.used
    && (forall u :: u in s.db.rows ==> CalmUser(s, times, u))
    && (forall c :: c in s.conns ==> CalmConn(s, times, s.conns[c]))
  }

  /** A connection shows activity, and it is recorded. */
  lemma ActivityCalm(s: State, times: map<Uid, nat>, conns: map<ConnId, Conn>, c: ConnId)
    requires Calm(s, times)
    requires c in conns && conns[c].last == s.now && conns[c].user in s.used
    requires conns == s.conns[c := conns[c]]
    ensures var u := conns[c].user;
            Calm(Touched(s.(conns := conns), u), if u in s.db.rows then times[u := s.now] else times)
  {
  }

  lemma IssueCalm(s: State, times: map<Uid, nat>, u: Uid)
    requires Calm(s, times)
    ensures Calm(Touched(s, u), if u in s.db.rows then times[u := s.now] else times)
  {
  }

  /** A check that finds the session stale, and its clear. */
  lemma ClearCalm(s: State, times: map<Uid, nat>, u: Uid)
    requires Calm(s, times) && !Recent(LastActivity(s.db, u), s.now, s.idle)
    ensures Calm(s.(db := SetLast(s.db, u, None)), times)
  {
  }

  /** Actions that concern neither touches nor clears. */
  lemma PlainCalm(s: State, times: map<Uid, nat>, a: Action)
    requires Calm(s, times)
    requires a.Ticks? || a.Configures? || a.Saves? || a.Deletes? || a.Pongs? || a.Closes? || a.ClosesAll?
    ensures Calm(Step(s, a), times)
  {
    var r := Step(s, a);
    forall u | u in r.db.rows ensures CalmUser(r, times, u) {
      if u in s.db.rows { assert CalmUser(s, times, u); }
    }
    forall c | c in r.conns ensures CalmConn(r, times, r.conns[c]) { assert CalmConn(s, times, s.conns[c]); }
  }

  lemma EventCalm(s: State, times: map<Uid, nat>, e: Event)
    requires Calm(s, times)
    ensures Calm(Run(s, Actions(s, e)), Noted(times, s, e))
  {
    match e
    case Elapsed(d) => PlainEvent(s, times, e, Ticks(d));
    case UserConfigured(username, newId) => PlainEvent(s, times, e, Configures(username, newId));
    case CredsSaved(u) => PlainEvent(s, times, e, Saves(u));
    case UserDeleted(u) => PlainEvent(s, times, e, Deletes(u));
    case PingPong(c) => PlainEvent(s, times, e, Pongs(c));
    case ConnectionClosed(c) => PlainEvent(s, times, e, Closes(c));
    case TokenIssued(u) => RunOne(s, Touches(u)); IssueCalm(s, times, u);
    case ConnectionOpened(c, u) => OpenedCalm(s, times, c, u);
    case Traffic(c) => TrafficCalm(s, times, c);
    case IdleTick(c) => IdleTickCalm(s, times, c);
    case TokenChecked(u) => TokenCheckedCalm(s, times, u);
  }

  lemma PlainEvent(s: State, times: map<Uid, nat>, e: Event, a: Action)
    requires Calm(s, times) && Actions(s, e) == [a] && TouchOf(s, e).None?
    requires a.Ticks? || a.Configures? || a.Saves? || a.Deletes? || a.Pongs? || a.Closes?
    ensures Calm(Run(s, Actions(s, e)), Noted(times, s, e))
  {
    RunOne(s, a);
    PlainCalm(s, times, a);
  }

  lemma OpenedCalm(s: State, times: map<Uid, nat>, c: ConnId, u: Uid)
    requires Calm(s, times)
    ensures var e := ConnectionOpened(c, u); Calm(Run(s, Actions(s, e)), Noted(times, s, e))
  {
    if c !in s.conns && u in s.used {
      OpenedIs(s, c, u);
      ActivityCalm(s, times, s.conns[c := Conn(u, s.now, true, false)], c);
    }
  }

  lemma TrafficCalm(s: State, times: map<Uid, nat>, c: ConnId)
    requires Calm(s, times)
    ensures Calm(Run(s, Actions(s, Traffic(c))), Noted(times, s, Traffic(c)))
  {
    if c in s.conns && s.conns[c].open {
      TrafficIs(s, c);
      assert CalmConn(s, times, s.conns[c]);
      ActivityCalm(s, times, Marked(s, c).conns, c);
    }
  }

  lemma IdleTickCalm(s: State, times: map<Uid, nat>, c: ConnId)
    requires Calm(s, times)
    ensures Calm(Run(s, Actions(s, IdleTick(c))), Noted(times, s, IdleTick(c)))
  {
    if c in s.conns && s.conns[c].open && Idle(s, c) {
      var u := s.conns[c].user;
      IdleTickIs(s, c);
      if Recent(LastActivity(s.db, u), s.now, s.idle) {
        PlainCalm(s, times, Closes(c));
      } else {
        ClearCalm(s, times, u);
        PlainCalm(s.(db := SetLast(s.db, u, None)), times, ClosesAll(u));
      }
    }
  }

  lemma TokenCheckedCalm(s: State, times: map<Uid, nat>, u: Uid)
    requires Calm(s, times)
    ensures Calm(Run(s, Actions(s, TokenChecked(u))), Noted(times, s, TokenChecked(u)))
  {
    TokenCheckedIs(s, u);
    if Judge(s.db, u, s.now, s.idle) == Expired {
      ClearCalm(s, times, u);
    }
  }

  lemma {:induction false} EventRunCalm(s: State, times: map<Uid, nat>, events: seq<Event>)
    requires Calm(s, times)
    ensures Calm(EventRun(s, events), LastTouches(s, times, events)) && EventRun(s, events).idle == s.idle
    decreases |events|
  {
    if events != [] {
      EventCalm(s, times, events[0]);
      RunIdle(s, Actions(s, events[0]));
      EventRunCalm(Run(s, Actions(s, events[0])), Noted(times, s, events[0]), events[1..]);
    }
  }

  /** A user's tokens are accepted exactly while the user and its credentials exist and its last touch, a
      token issued, a connection opened or traffic on one, is no longer ago than the timeout.  Whatever
      idle checks and validations have cleared in between makes no difference. */
  lemma AcceptedIff(idle: nat, events: seq<Event>, u: Uid)
    ensures var (s, times) := (EventRun(Init(idle), events), LastTouches(Init(idle), map[], events));
            Judge(s.db, u, s.now, idle) == Accepted <==>
            (u in s.db.rows && u in s.db.creds && u in times && s.now - times[u] <= idle)
  {
    EventRunCalm(Init(idle), map[], events);
  }

  /** So no check ever ends the session of a user who has a connection with recent activity. */
  lemma ActiveConnectionKeepsSession(idle: nat, events: seq<Event>, c: ConnId)
    requires c in EventRun(Init(idle), events).conns
    ensures var s := EventRun(Init(idle), events);
            var x := s.conns[c];
            x.open && s.now - x.last <= idle && x.user in s.db.rows ==> Recent(s.db.rows[x.user].last, s.now, idle)
  {
    EventRunCalm(Init(idle), map[], events);
    var s := EventRun(Init(idle), events);
    assert CalmConn(s, LastTouches(Init(idle), map[], events), s.conns[c]);
  }
}
