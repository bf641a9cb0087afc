/** The hub of WebSocket clients: a set of clients for every user, a bounded queue for every client, and
    counters over all of them. */
module Hub {
  import opened Text

  type UserId = string

  /** The capacity of a client's send channel. */
  const QUEUE_SIZE := 32

  /** A client: the frames waiting in its channel, those its writer has taken, how many found the channel
      full, how often the channel was closed, and how long the log of publishes was when the client came
      and, once it has gone, when it went. */
  datatype Conn = Conn(user: UserId, queue: seq<string>, taken: seq<string>, drops: nat, closings: nat,
                       since: nat, until: Option<nat>)

  datatype Published = Published(user: UserId, payload: string)

  datatype State<C(==)> =
    State(byUser: map<UserId, set<C>>, conns: map<C, Conn>, total: int, sent: nat, dropped: nat, writeErrors: nat,
          log: seq<Published>)

  datatype Action<C> =
    | Connects(c: C, user: UserId)
    | Unregisters(c: C)
    | Publishes(user: UserId, payload: string)
    | Takes(c: C)
    | WriteFails

  // ----- the operations -----

  function Members<C>(s: State<C>, user: UserId): set<C> {
    if user in s.byUser then s.byUser[user] else {}
  }

  function NewConn(user: UserId, since: nat): Conn {
    Conn(user, [], [], 0, 0, since, None)
  }

  /** A client is registered where it is made, and so only once. */
  function Connect<C>(s: State<C>, c: C, user: UserId): State<C> {
    if c in s.conns then s
    else s.(byUser := s.byUser[user := Members(s, user) + {c}],
            conns := s.conns[c := NewConn(user, |s.log|)],
            total := s.total + 1)
  }

  function Closed(x: Conn, now: nat): Conn {
    x.(closings := x.closings + 1, until := Some(now))
  }

  function Without<C>(byUser: map<UserId, set<C>>, user: UserId, c: C): map<UserId, set<C>>
    requires user in byUser
  {
    if byUser[user] == {c} then byUser - {user} else byUser[user := byUser[user] - {c}]
  }

  /** A client that is not there is left alone. */
  function Remove<C>(s: State<C>, c: C): State<C> {
    if c !in s.conns || c !in Members(s, s.conns[c].user) then s
    else s.(byUser := Without(s.byUser, s.conns[c].user, c),
            conns := s.conns[c := Closed(s.conns[c], |s.log|)],
            total := s.total - 1)
  }

  predicate HasRoom(x: Conn) { |x.queue| < QUEUE_SIZE }

  function Offer(x: Conn, payload: string): Conn {
    if HasRoom(x) then x.(queue := x.queue + [payload]) else x.(drops := x.drops + 1)
  }

  function WithRoom<C>(conns: map<C, Conn>, to: set<C>): set<C> {
    set c | c in to && c in conns && HasRoom(conns[c])
  }

  function WithoutRoom<C>(conns: map<C, Conn>, to: set<C>): set<C> {
    set c | c in to && c in conns && !HasRoom(conns[c])
  }

  function OfferedTo<C>(conns: map<C, Conn>, to: set<C>, payload: string): map<C, Conn> {
    map c | c in conns :: if c in to then Offer(conns[c], payload) else conns[c]
  }

  /** A payload offered to some clients, each of which queues it or, when full, loses it. */
  function OfferAll<C>(s: State<C>, to: set<C>, payload: string): State<C> {
    s.(conns := OfferedTo(s.conns, to, payload),
       sent := s.sent + |WithRoom(s.conns, to)|,
       dropped := s.dropped + |WithoutRoom(s.conns, to)|)
  }

  function Publish<C>(s: State<C>, user: UserId, payload: string): State<C> {
    OfferAll(s.(log := s.log + [Published(user, payload)]), Members(s, user), payload)
  }

  function Advance(x: Conn): Conn {
    if x.queue == [] then x else x.(taken := x.taken + [x.queue[0]], queue := x.queue[1..])
  }

  /** The writer takes the oldest frame, also from a closed channel. */
  function Take<C>(s: State<C>, c: C): State<C> {
    if c in s.conns then s.(conns := s.conns[c := Advance(s.conns[c])]) else s
  }

  function FailedWrite<C>(s: State<C>): State<C> {
    s.(writeErrors := s.writeErrors + 1)
  }

  function Init<C>(): State<C> {
    State(map[], map[], 0, 0, 0, 0, [])
  }

  function Step<C>(s: State<C>, a: Action<C>): State<C> {
    match a
    case Connects(c, user) => Connect(s, c, user)
    case Unregisters(c) => Remove(s, c)
    case Publishes(user, payload) => Publish(s, user, payload)
    case Takes(c) => Take(s, c)
    case WriteFails => FailedWrite(s)
  }

  function Run<C>(s: State<C>, actions: seq<Action<C>>): State<C>
    decreases |actions|
  {
    if actions == [] then s else Run(Step(s, actions[0]), actions[1..])
  }

  // ----- sums over a map -----

  ghost function Sum<K>(m: map<K, nat>): nat {
    if m == map[] then 0
    else
      var k :| k in m;
      m[k] + Sum(m - {k})
  }

  lemma {:induction false} SumRemove<K>(m: map<K, nat>, k: K)
    requires k in m
    ensures Sum(m) == m[k] + Sum(m - {k})
    decreases |m|
  {
    var first :| first in m && Sum(m) == m[first] + Sum(m - {first});
    if first != k {
      SumRemove(m - {first}, k);
      SumRemove(m - {k}, first);
      assert m - {first} - {k} == m - {k} - {first};
    }
  }

  lemma SumUpdate<K>(m: map<K, nat>, k: K, v: nat)
    ensures Sum(m[k := v]) == Sum(m - {k}) + v
  {
    SumRemove(m[k := v], k);
    assert m[k := v] - {k} == m - {k};
  }

  lemma SumNew<K>(m: map<K, nat>, k: K, v: nat)
    requires k !in m
    ensures Sum(m[k := v]) == Sum(m) + v
  {
    SumUpdate(m, k, v);
    assert m - {k} == m;
  }

  function Bumped<K>(m: map<K, nat>, to: set<K>): map<K, nat> {
    map k | k in m :: if k in to then m[k] + 1 else m[k]
  }

  lemma {:induction false} SumBumped<K>(m: map<K, nat>, to: set<K>)
    requires to <= m.Keys
    ensures Sum(Bumped(m, to)) == Sum(m) + |to|
    decreases |to|
  {
    if to == {} {
      assert Bumped(m, to) == m;
    } else {
      var k :| k in to;
      var rest := Bumped(m, to - {k});
      SumBumped(m, to - {k});
      assert Bumped(m, to) == rest[k := m[k] + 1];
      SumUpdate(rest, k, m[k] + 1);
      SumRemove(rest, k);
    }
  }

  // ----- order -----

  /** a is b with some elements left out. */
  predicate Subsequence(a: seq<string>, b: seq<string>)
    decreases |b|
  {
    if a == [] then true
    else if b == [] then false
    else
      || Subsequence(a, b[..|b| - 1])
      || (a[|a| - 1] == b[|b| - 1] && Subsequence(a[..|a| - 1], b[..|b| - 1]))
  }

  lemma SubsequenceGrows(a: seq<string>, b: seq<string>, x: string)
    requires Subsequence(a, b)
    ensures Subsequence(a, b + [x]) && Subsequence(a + [x], b + [x])
  {
  }

  /** With nothing left out the two are equal. */
  lemma {:induction false} SubsequenceFull(a: seq<string>, b: seq<string>)
    requires Subsequence(a, b)
    ensures |a| <= |b|
    ensures |a| == |b| ==> a == b
    decreases |b|
  {
    if a != [] {
      var front, last := b[..|b| - 1], b[|b| - 1];
      if Subsequence(a, front) {
        SubsequenceFull(a, front);
      } else {
        SubsequenceFull(a[..|a| - 1], front);
        assert a == a[..|a| - 1] + [a[|a| - 1]] && b == front + [last];
      }
    }
  }

  /** The payloads published to one user, in order. */
  function PublishedTo(log: seq<Published>, user: UserId): seq<string> {
    if log == [] then []
    else
      var front, last := PublishedTo(log[..|log| - 1], user), log[|log| - 1];
      if last.user == user then front + [last.payload] else front
  }

  lemma PublishedToMore(log: seq<Published>, p: Published, user: UserId)
    ensures PublishedTo(log + [p], user) == PublishedTo(log, user) + (if p.user == user then [p.payload] else [])
  {
  }

  // ----- what every run keeps -----

  predicate InLog(log: seq<Published>, x: Conn) {
    x.since <= (if x.until.Some? then x.until.value else |log|) <= |log|
  }

  /** The payloads published to the client's own user while it was registered. */
  function Due(log: seq<Published>, x: Conn): seq<string>
    requires InLog(log, x)
  {
    PublishedTo(log[x.since..if x.until.Some? then x.until.value else |log|], x.user)
  }

  /** What was taken and what is queued are payloads due, in their order; all that is missing was
      dropped. */
  ghost predicate ClientSound(log: seq<Published>, x: Conn) {
    && InLog(log, x)
    && |x.queue| <= 32
    && Subsequence(x.taken + x.queue, Due(log, x))
    && |x.taken + x.queue| + x.drops == |Due(log, x)|
  }

  ghost predicate ClientsSound<C>(log: seq<Published>, conns: map<C, Conn>) {
    forall c :: c in conns ==> ClientSound(log, conns[c])
  }

  /** No stored set is empty, a client is stored under its own user and nowhere else, and its channel is
      closed, once, exactly when it is not stored. */
  ghost predicate MembersSound<C>(s: State<C>) {
    && (forall u :: u in s.byUser ==> s.byUser[u] != {})
    && (forall u, c :: u in s.byUser && c in s.byUser[u] ==> c in s.conns && s.conns[c].user == u)
    && (forall c :: c in s.conns ==>
          var x := s.conns[c];
          && x.closings == (if c in Members(s, x.user) then 0 else 1)
          && (x.until.None? <==> c in Members(s, x.user)))
  }

  function Sizes<C>(byUser: map<UserId, set<C>>): map<UserId, nat> {
    map u | u in byUser :: |byUser[u]|
  }

  function Received<C>(conns: map<C, Conn>): map<C, nat> {
    map c | c in conns :: |conns[c].taken + conns[c].queue|
  }

  function Lost<C>(conns: map<C, Conn>): map<C, nat> {
    map c | c in conns :: conns[c].drops
  }

  /** The counters are the sums they stand for. */
  ghost predicate CountsSound<C>(s: State<C>) {
    && s.total == Sum(Sizes(s.byUser))
    && s.sent == Sum(Received(s.conns))
    && s.dropped == Sum(Lost(s.conns))
  }

  ghost predicate Sound<C>(s: State<C>) {
    MembersSound(s) && CountsSound(s) && ClientsSound(s.log, s.conns)
  }

  // ----- one client comes, goes, or takes a frame -----

  lemma SizesAdd<C>(byUser: map<UserId, set<C>>, user: UserId, now: set<C>, c: C)
    requires now == (if user in byUser then byUser[user] else {}) + {c}
    requires user in byUser ==> c !in byUser[user]
    ensures Sum(Sizes(byUser[user := now])) == Sum(Sizes(byUser)) + 1
  {
    var sizes := Sizes(byUser);
    assert Sizes(byUser[user := now]) == sizes[user := |now|];
    SumUpdate(sizes, user, |now|);
    if user in byUser {
      SumRemove(sizes, user);
    } else {
      assert sizes - {user} == sizes;
    }
  }

  lemma SizesRemove<C>(byUser: map<UserId, set<C>>, user: UserId, c: C)
    requires user in byUser && c in byUser[user]
    ensures Sum(Sizes(Without(byUser, user, c))) == Sum(Sizes(byUser)) - 1
  {
    var sizes := Sizes(byUser);
    SumRemove(sizes, user);
    if byUser[user] == {c} {
      assert Sizes(Without(byUser, user, c)) == sizes - {user};
    } else {
      assert Sizes(Without(byUser, user, c)) == sizes[user := |byUser[user]| - 1];
      SumUpdate(sizes, user, |byUser[user]| - 1);
    }
  }

  lemma NewSums<C>(conns: map<C, Conn>, c: C, x: Conn)
    requires c !in conns && x.taken + x.queue == [] && x.drops == 0
    ensures Sum(Received(conns[c := x])) == Sum(Received(conns)) && Sum(Lost(conns[c := x])) == Sum(Lost(conns))
  {
    assert Received(conns[c := x]) == Received(conns)[c := 0];
    SumNew(Received(conns), c, 0);
    assert Lost(conns[c := x]) == Lost(conns)[c := 0];
    SumNew(Lost(conns), c, 0);
  }

  /** A client that changes without receiving or losing anything leaves the sums alone. */
  lemma SameSums<C>(conns: map<C, Conn>, c: C, x: Conn)
    requires c in conns && |x.taken + x.queue| == |conns[c].taken + conns[c].queue| && x.drops == conns[c].drops
    ensures Received(conns[c := x]) == Received(conns) && Lost(conns[c := x]) == Lost(conns)
  {
  }

  lemma OneClient<C>(log: seq<Published>, conns: map<C, Conn>, c: C, x: Conn)
    requires ClientsSound(log, conns) && ClientSound(log, x)
    ensures ClientsSound(log, conns[c := x])
  {
  }

  lemma NewClient(log: seq<Published>, user: UserId)
    ensures ClientSound(log, NewConn(user, |log|))
  {
  }

  lemma ClosedClient(log: seq<Published>, x: Conn)
    requires ClientSound(log, x) && x.until.None?
    ensures ClientSound(log, Closed(x, |log|))
  {
  }

  lemma AdvancedClient(log: seq<Published>, x: Conn)
    requires ClientSound(log, x)
    ensures ClientSound(log, Advance(x)) && Advance(x).taken + Advance(x).queue == x.taken + x.queue
  {
    assert Advance(x).taken + Advance(x).queue == x.taken + x.queue;
    assert Due(log, Advance(x)) == Due(log, x);
  }

  lemma ConnectMembers<C>(s: State<C>, c: C, user: UserId)
    requires MembersSound(s)
    ensures MembersSound(Connect(s, c, user))
  {
    assert c !in s.conns ==> c !in Members(s, user);
  }

  lemma ConnectCounts<C>(s: State<C>, c: C, user: UserId)
    requires CountsSound(s) && c !in s.conns && c !in Members(s, user)
    ensures CountsSound(Connect(s, c, user))
  {
    SizesAdd(s.byUser, user, Members(s, user) + {c}, c);
    NewSums(s.conns, c, NewConn(user, |s.log|));
  }

  lemma ConnectSound<C>(s: State<C>, c: C, user: UserId)
    requires Sound(s)
    ensures Sound(Connect(s, c, user))
  {
    ConnectMembers(s, c, user);
    if c !in s.conns {
      ConnectCounts(s, c, user);
      NewClient(s.log, user);
      OneClient(s.log, s.conns, c, NewConn(user, |s.log|));
    }
  }

  lemma RemoveMembers<C>(s: State<C>, c: C)
    requires MembersSound(s)
    ensures MembersSound(Remove(s, c))
  {
  }

  lemma RemoveSound<C>(s: State<C>, c: C)
    requires Sound(s)
    ensures Sound(Remove(s, c))
  {
    RemoveMembers(s, c);
    if c in s.conns && c in Members(s, s.conns[c].user) {
      var x := s.conns[c];
      SizesRemove(s.byUser, x.user, c);
      SameSums(s.conns, c, Closed(x, |s.log|));
      ClosedClient(s.log, x);
      OneClient(s.log, s.conns, c, Closed(x, |s.log|));
    }
  }

  lemma TakeMembers<C>(s: State<C>, c: C)
    requires MembersSound(s)
    ensures MembersSound(Take(s, c))
  {
  }

  lemma TakeSound<C>(s: State<C>, c: C)
    requires Sound(s)
    ensures Sound(Take(s, c))
  {
    TakeMembers(s, c);
    if c in s.conns {
      AdvancedClient(s.log, s.conns[c]);
      SameSums(s.conns, c, Advance(s.conns[c]));
      OneClient(s.log, s.conns, c, Advance(s.conns[c]));
    }
  }

  lemma FailedWriteSound<C>(s: State<C>)
    requires Sound(s)
    ensures Sound(FailedWrite(s))
  {
  }

  // ----- a payload is published -----

  /** One more payload is due, if it is for the client's user and the client is registered. */
  lemma DueMore(log: seq<Published>, x: Conn, p: Published)
    requires InLog(log, x)
    ensures InLog(log + [p], x)
    ensures Due(log + [p], x) == Due(log, x) + if x.until.None? && p.user == x.user then [p.payload] else []
  {
    if x.until.Some? {
      assert (log + [p])[x.since..x.until.value] == log[x.since..x.until.value];
    } else {
      assert (log + [p])[x.since..|log + [p]|] == log[x.since..|log|] + [p];
      PublishedToMore(log[x.since..|log|], p, x.user);
    }
  }

  /** For a client it is offered to. */
  lemma OfferedClient(log: seq<Published>, x: Conn, payload: string)
    requires ClientSound(log, x) && x.until.None?
    ensures ClientSound(log + [Published(x.user, payload)], Offer(x, payload))
  {
    var more := log + [Published(x.user, payload)];
    DueMore(log, x, Published(x.user, payload));
    assert Due(more, Offer(x, payload)) == Due(more, x) == Due(log, x) + [payload];
    SubsequenceGrows(x.taken + x.queue, Due(log, x), payload);
    assert x.taken + (x.queue + [payload]) == x.taken + x.queue + [payload];
  }

  /** For any other client. */
  lemma OtherClient(log: seq<Published>, x: Conn, p: Published)
    requires ClientSound(log, x) && (x.until.Some? || p.user != x.user)
    ensures ClientSound(log + [p], x)
  {
    DueMore(log, x, p);
    assert Due(log, x) + [] == Due(log, x);
  }

  lemma OfferedReceived<C>(conns: map<C, Conn>, to: set<C>, payload: string)
    ensures Sum(Received(OfferedTo(conns, to, payload))) == Sum(Received(conns)) + |WithRoom(conns, to)|
  {
    assert Received(OfferedTo(conns, to, payload)) == Bumped(Received(conns), WithRoom(conns, to));
    SumBumped(Received(conns), WithRoom(conns, to));
  }

  lemma OfferedLost<C>(conns: map<C, Conn>, to: set<C>, payload: string)
    ensures Sum(Lost(OfferedTo(conns, to, payload))) == Sum(Lost(conns)) + |WithoutRoom(conns, to)|
  {
    assert Lost(OfferedTo(conns, to, payload)) == Bumped(Lost(conns), WithoutRoom(conns, to));
    SumBumped(Lost(conns), WithoutRoom(conns, to));
  }

  lemma PublishMembers<C>(s: State<C>, user: UserId, payload: string)
    requires MembersSound(s)
    ensures MembersSound(Publish(s, user, payload))
  {
  }

  lemma PublishClients<C>(s: State<C>, user: UserId, payload: string)
    requires MembersSound(s) && ClientsSound(s.log, s.conns)
    ensures ClientsSound(s.log + [Published(user, payload)], OfferedTo(s.conns, Members(s, user), payload))
  {
    forall c | c in s.conns
      ensures ClientSound(s.log + [Published(user, payload)], OfferedTo(s.conns, Members(s, user), payload)[c])
    {
      var x := s.conns[c];
      assert ClientSound(s.log, x);
      if c in Members(s, user) {
        OfferedClient(s.log, x, payload);
      } else {
        OtherClient(s.log, x, Published(user, payload));
      }
    }
  }

  lemma PublishSound<C>(s: State<C>, user: UserId, payload: string)
    requires Sound(s)
    ensures Sound(Publish(s, user, payload))
  {
    PublishMembers(s, user, payload);
    PublishClients(s, user, payload);
    OfferedReceived(s.conns, Members(s, user), payload);
    OfferedLost(s.conns, Members(s, user), payload);
  }

  lemma StepSound<C>(s: State<C>, a: Action<C>)
    requires Sound(s)
    ensures Sound(Step(s, a))
  {
    match a
    case Connects(c, user) => ConnectSound(s, c, user);
    case Unregisters(c) => RemoveSound(s, c);
    case Publishes(user, payload) => PublishSound(s, user, payload);
    case Takes(c) => TakeSound(s, c);
    case WriteFails => FailedWriteSound(s);
  }

  lemma {:induction false} RunSound<C>(s: State<C>, actions: seq<Action<C>>)
    requires Sound(s)
    ensures Sound(Run(s, actions))
    decreases |actions|
  {
    if actions != [] {
      StepSound(s, actions[0]);
      RunSound(Step(s, actions[0]), actions[1..]);
    }
  }

  lemma InitSound<C>()
    ensures Sound<C>(Init())
  {
  }

  // ----- the main results -----

  /** In every run the connection counter is the number of stored clients, no stored set is empty, a
      client is stored under its own user, and its channel is closed exactly when it has been removed and
      never twice. */
  lemma ConnectionsInEveryRun<C>(actions: seq<Action<C>>)
    ensures var s := Run(Init(), actions); s.total == Sum(Sizes(s.byUser)) && MembersSound(s)
  {
    InitSound<C>();
    RunSound<C>(Init(), actions);
  }

  /** In every run what a client's writer has taken, followed by what is queued for it, are payloads
      published to its own user while it was registered, in their order and without a gap other than
      those counted as dropped. */
  lemma DeliveryInEveryRun<C>(actions: seq<Action<C>>, c: C)
    requires c in Run(Init(), actions).conns
    ensures var s := Run(Init(), actions);
            var x := s.conns[c];
            && InLog(s.log, x)
            && |x.queue| <= 32
            && Subsequence(x.taken + x.queue, Due(s.log, x))
            && |x.taken| + |x.queue| + x.drops == |Due(s.log, x)|
            && (x.drops == 0 ==> x.taken + x.queue == Due(s.log, x))
  {
    InitSound<C>();
    RunSound<C>(Init(), actions);
    var s := Run(Init(), actions);
    assert ClientSound(s.log, s.conns[c]);
    SubsequenceFull(s.conns[c].taken + s.conns[c].queue, Due(s.log, s.conns[c]));
  }

  ghost function AllDue<C>(log: seq<Published>, conns: map<C, Conn>): map<C, nat>
    requires forall c :: c in conns ==> InLog(log, conns[c])
  {
    map c | c in conns :: |Due(log, conns[c])|
  }

  /** Pointwise sums add up. */
  lemma {:induction false} SumOfSums<K>(a: map<K, nat>, b: map<K, nat>, c: map<K, nat>)
    requires a.Keys == b.Keys == c.Keys && forall k :: k in a ==> a[k] + b[k] == c[k]
    ensures Sum(a) + Sum(b) == Sum(c)
    decreases |a|
  {
    if a == map[] {
      assert b == map[] && c == map[];
    } else {
      var k :| k in a;
      SumOfSums(a - {k}, b - {k}, c - {k});
      SumRemove(a, k);
      SumRemove(b, k);
      SumRemove(c, k);
    }
  }

  /** In every run every payload published to a user's client, over all clients ever registered, is
      counted exactly once: as sent if that client has taken it or has it queued, otherwise as dropped. */
  lemma CountsInEveryRun<C>(actions: seq<Action<C>>)
    ensures var s := Run(Init(), actions);
            && (forall c :: c in s.conns ==> InLog(s.log, s.conns[c]))
            && s.sent == Sum(Received(s.conns)) && s.dropped == Sum(Lost(s.conns))
            && s.sent + s.dropped == Sum(AllDue(s.log, s.conns))
  {
    InitSound<C>();
    RunSound<C>(Init(), actions);
    var s := Run(Init(), actions);
    forall c | c in s.conns ensures InLog(s.log, s.conns[c]) {
      assert ClientSound(s.log, s.conns[c]);
    }
    forall c | c in s.conns ensures Received(s.conns)[c] + Lost(s.conns)[c] == AllDue(s.log, s.conns)[c] {
      assert ClientSound(s.log, s.conns[c]);
    }
    SumOfSums(Received(s.conns), Lost(s.conns), AllDue(s.log, s.conns));
  }

  /** Every client is stored under its owner, and nothing else is stored. */
  ghost predicate StoredBy<C>(byUser: map<UserId, set<C>>, owner: map<C, UserId>) {
    && (forall u, c :: u in byUser && c in byUser[u] ==> c in owner && owner[c] == u)
    && (forall c :: c in owner ==> owner[c] in byUser && c in byUser[owner[c]])
  }

  function NotOf<C>(owner: map<C, UserId>, u: UserId): map<C, UserId> {
    map c | c in owner && owner[c] != u :: owner[c]
  }

  lemma OtherOwners<C>(byUser: map<UserId, set<C>>, owner: map<C, UserId>, u: UserId)
    requires StoredBy(byUser, owner)
    ensures StoredBy(byUser - {u}, NotOf(owner, u))
  {
  }

  lemma OwnersCount<C>(byUser: map<UserId, set<C>>, owner: map<C, UserId>, u: UserId)
    requires StoredBy(byUser, owner) && u in byUser
    ensures |owner| == |byUser[u]| + |NotOf(owner, u)|
  {
    var clients, rest := byUser[u], NotOf(owner, u).Keys;
    assert clients == owner.Keys - rest by {
      forall c ensures c in clients <==> c in owner && c !in rest {
      }
    }
  }

  lemma {:induction false} SizesOfUnion<C>(byUser: map<UserId, set<C>>, owner: map<C, UserId>)
    requires StoredBy(byUser, owner)
    ensures Sum(Sizes(byUser)) == |owner|
    decreases |byUser|
  {
    if byUser == map[] {
      assert owner.Keys == {} && Sizes(byUser) == map[];
    } else {
      var u :| u in byUser;
      OtherOwners(byUser, owner, u);
      OwnersCount(byUser, owner, u);
      SizesOfUnion(byUser - {u}, NotOf(owner, u));
      SumRemove(Sizes(byUser), u);
      assert Sizes(byUser) - {u} == Sizes(byUser - {u});
    }
  }

  /** The clients with an open channel, and their users. */
  function OpenClients<C>(s: State<C>): map<C, UserId> {
    map c | c in s.conns && s.conns[c].closings == 0 :: s.conns[c].user
  }

  lemma OpenAreStored<C>(s: State<C>)
    requires MembersSound(s)
    ensures StoredBy(s.byUser, OpenClients(s))
  {
  }

  /** The reported totals: the open clients, and the users with at least one. */
  lemma TotalsMeaning<C>(s: State<C>)
    requires Sound(s)
    ensures s.total == |OpenClients(s)| && s.byUser.Keys == OpenClients(s).Values
  {
    var owner := OpenClients(s);
    OpenAreStored(s);
    SizesOfUnion(s.byUser, owner);
    OwnersAreUsers(s.byUser, owner);
  }

  lemma OwnersAreUsers<C>(byUser: map<UserId, set<C>>, owner: map<C, UserId>)
    requires StoredBy(byUser, owner) && forall u :: u in byUser ==> byUser[u] != {}
    ensures byUser.Keys == owner.Values
  {
    forall u | u in byUser ensures u in owner.Values {
      var c :| c in byUser[u];
      assert c in owner && owner[c] == u;
    }
    forall u | u in owner.Values ensures u in byUser {
      var c :| c in owner && owner[c] == u;
    }
  }

  // ----- the hub -----

  class WsClient {
    const userId: UserId
    var send: seq<string>
    var closed: bool
    ghost var taken: seq<string>
    ghost var drops: nat
    ghost var since: nat
    ghost var until: Option<nat>

    ghost function Value(): Conn
      reads this
    {
      Conn(userId, send, taken, drops, if closed then 1 else 0, since, until)
    }

    constructor (userId: UserId, ghost since: nat)
      ensures Value() == NewConn(userId, since) && this.userId == userId
    {
      this.userId := userId;
      this.send, this.closed := [], false;
      this.taken, this.drops, this.since, this.until := [], 0, since, None;
    }

    /** The channel send of a publish, which never waits.  Sending on a closed channel would panic. */
    method Push(payload: string) returns (ok: bool)
      requires !closed
      modifies this
      ensures Value() == Offer(old(Value()), payload) && ok == old(HasRoom(Value())) && !closed
    {
      ok := |send| < QUEUE_SIZE;
      if ok {
        send := send + [payload];
      } else {
        drops := drops + 1;
      }
    }

    /** Closing a channel twice would panic. */
    method Close(ghost now: nat)
      requires !closed
      modifies this
      ensures Value() == Closed(old(Value()), now)
    {
      closed, until := true, Some(now);
    }

    /** One turn of the writer: the oldest frame, if any. */
    method Receive() returns (frame: Option<string>)
      modifies this
      ensures Value() == Advance(old(Value()))
      ensures frame == if old(send) == [] then None else Some(old(send)[0])
    {
      if send == [] {
        return None;
      }
      frame := Some(send[0]);
      taken, send := taken + [send[0]], send[1..];
    }
  }

  /** One client served, and the outcome counted. */
  function Served<C>(s: State<C>, c: C, payload: string): State<C>
    requires c in s.conns
  {
    s.(conns := s.conns[c := Offer(s.conns[c], payload)],
       sent := s.sent + (if HasRoom(s.conns[c]) then 1 else 0),
       dropped := s.dropped + (if HasRoom(s.conns[c]) then 0 else 1))
  }

  lemma ServeOne<C>(s: State<C>, done: set<C>, c: C, payload: string)
    requires c !in done && c in s.conns
    ensures OfferAll(s, done + {c}, payload) == Served(OfferAll(s, done, payload), c, payload)
  {
    OneOffered(s.conns, done, c, payload);
    OneCounted(s.conns, done, c);
  }

  lemma OneOffered<C>(conns: map<C, Conn>, done: set<C>, c: C, payload: string)
    requires c !in done && c in conns
    ensures OfferedTo(conns, done, payload)[c] == conns[c]
    ensures OfferedTo(conns, done + {c}, payload) == OfferedTo(conns, done, payload)[c := Offer(conns[c], payload)]
  {
  }

  lemma OneCounted<C>(conns: map<C, Conn>, done: set<C>, c: C)
    requires c !in done && c in conns
    ensures |WithRoom(conns, done + {c})| == |WithRoom(conns, done)| + (if HasRoom(conns[c]) then 1 else 0)
    ensures |WithoutRoom(conns, done + {c})| == |WithoutRoom(conns, done)| + (if HasRoom(conns[c]) then 0 else 1)
  {
    if HasRoom(conns[c]) {
      assert WithRoom(conns, done + {c}) == WithRoom(conns, done) + {c};
      assert WithoutRoom(conns, done + {c}) == WithoutRoom(conns, done);
    } else {
      assert WithRoom(conns, done + {c}) == WithRoom(conns, done);
      assert WithoutRoom(conns, done + {c}) == WithoutRoom(conns, done) + {c};
    }
  }

  ghost function Conns(all: set<WsClient>): (r: map<WsClient, Conn>)
    reads all
    ensures r.Keys == all && forall c :: c in all ==> r[c] == c.Value()
  {
    map c | c in all :: c.Value()
  }

  /** Only one of the clients has changed. */
  twostate lemma OneChanged(all: set<WsClient>, new c: WsClient)
    requires c in all && forall d :: d in all && d != c ==> unchanged(d)
    ensures Conns(all) == old(Conns(all))[c := c.Value()]
  {
  }

  function Open<C>(s: State<C>, user: UserId): set<C> {
    set c | c in s.conns && s.conns[c].user == user && s.conns[c].closings == 0
  }

  lemma OpenOnes<C>(s: State<C>, user: UserId)
    requires MembersSound(s)
    ensures Open(s, user) == Members(s, user)
  {
  }

  /** A stored client's channel is open. */
  lemma StoredIsOpen<C>(s: State<C>, user: UserId, c: C)
    requires MembersSound(s) && c in Members(s, user)
    ensures c in s.conns && s.conns[c].user == user && s.conns[c].closings == 0
  {
  }

  class WsHub {
    var clientsByUser: map<UserId, set<WsClient>>
    var totalConnections: int
    var messagesSent: nat
    var droppedByBackpress: nat
    var writeErrors: nat
    ghost var all: set<WsClient>
    ghost var log: seq<Published>

    ghost function Value(): State<WsClient>
      reads this, all
    {
      State(clientsByUser, Conns(all), totalConnections, messagesSent, droppedByBackpress, writeErrors, log)
    }

    ghost predicate Valid()
      reads this, all
    {
      Sound(Value())
    }

    constructor ()
      ensures Valid() && Value() == Init()
    {
      clientsByUser, totalConnections, messagesSent, droppedByBackpress, writeErrors := map[], 0, 0, 0, 0;
      all, log := {}, [];
      InitSound<WsClient>();
    }

    /** An accepted connection gets a client of its own and is registered. */
    method HandleConnect(user: UserId) returns (c: WsClient)
      requires Valid()
      modifies this
      ensures Valid() && fresh(c) && Value() == Connect(old(Value()), c, user)
    {
      ghost var before := Value();
      c := new WsClient(user, |log|);
      ConnectSound(before, c, user);
      Register(c);
    }

    method Register(c: WsClient)
      requires c !in all && c.Value() == NewConn(c.userId, |log|)
      modifies this
      ensures Value() == Connect(old(Value()), c, c.userId)
    {
      ghost var before := Value();
      var clients := if c.userId in clientsByUser then clientsByUser[c.userId] else {};
      clientsByUser := clientsByUser[c.userId := clients + {c}];
      totalConnections := totalConnections + 1;
      all := all + {c};
      assert Value().conns == before.conns[c := NewConn(c.userId, |log|)];
    }

    /** Any number of times, in any state of the client. */
    method Unregister(c: WsClient)
      requires Valid() && c in all
      modifies this, c
      ensures Valid() && Value() == Remove(old(Value()), c) && all == old(all)
    {
      ghost var before := Value();
      if c in Members(before, c.userId) {
        StoredIsOpen(before, c.userId, c);
      }
      Detach(c);
      RemoveSound(before, c);
    }

    method Detach(c: WsClient)
      requires c in all && (c in Members(Value(), c.userId) ==> !c.closed)
      modifies this, c
      ensures Value() == Remove(old(Value()), c) && all == old(all)
    {
      if c.userId !in clientsByUser || c !in clientsByUser[c.userId] {
        return;
      }
      var left := clientsByUser[c.userId] - {c};
      clientsByUser := if left == {} then clientsByUser - {c.userId} else clientsByUser[c.userId := left];
      totalConnections := totalConnections - 1;
      c.Close(|log|);
      OneChanged(all, c);
    }

    /** Every registered client of the user is offered the payload once, in whatever order the set is
        iterated. */
    method PublishToUser(user: UserId, payload: string)
      requires Valid()
      modifies this, all
      ensures Valid() && Value() == Publish(old(Value()), user, payload) && all == old(all)
    {
      ghost var before := Value();
      var copied := if user in clientsByUser then clientsByUser[user] else {};
      AllOpen(user);
      Record(user, payload);
      SendAll(copied, payload);
      PublishSound(before, user, payload);
    }

    ghost method Record(user: UserId, payload: string)
      modifies `log
      ensures Value() == old(Value()).(log := old(log) + [Published(user, payload)])
      ensures forall c :: c in all ==> c.Value() == old(c.Value())
    {
      log := log + [Published(user, payload)];
    }

    lemma AllOpen(user: UserId)
      requires Valid()
      ensures Members(Value(), user) <= all && forall c :: c in Members(Value(), user) ==> !c.closed
    {
      forall c | c in Members(Value(), user) ensures c in all && !c.closed {
        StoredIsOpen(Value(), user, c);
      }
    }

    method SendAll(copied: set<WsClient>, payload: string)
      requires copied <= all && forall c :: c in copied ==> !c.closed
      modifies `messagesSent, `droppedByBackpress, copied
      ensures Value() == OfferAll(old(Value()), copied, payload)
    {
      ghost var start := Value();
      assert OfferedTo(start.conns, {}, payload) == start.conns;
      var left := copied;
      while left != {}
        invariant left <= copied && forall c :: c in copied ==> !c.closed
        invariant Value() == OfferAll(start, copied - left, payload)
        decreases left
      {
        var c :| c in left;
        ServeOne(start, copied - left, c, payload);
        assert copied - (left - {c}) == copied - left + {c};
        ghost var now := OfferAll(start, copied - left, payload);
        SendOne(c, payload);
        assert Value() == Served(now, c, payload);
        left := left - {c};
      }
      assert copied - left == copied;
    }

    method SendOne(c: WsClient, payload: string)
      requires c in all && !c.closed
      modifies `messagesSent, `droppedByBackpress, c
      ensures !c.closed && Value() == Served(old(Value()), c, payload)
    {
      ghost var conns := Conns(all);
      assert conns[c] == c.Value();
      var ok := c.Push(payload);
      OneChanged(all, c);
      assert Conns(all) == conns[c := Offer(conns[c], payload)];
      if ok {
        messagesSent := messagesSent + 1;
      } else {
        droppedByBackpress := droppedByBackpress + 1;
      }
      assert Conns(all) == conns[c := Offer(conns[c], payload)];
    }

    /** The number of the user's clients whose channel is open. */
    method ActiveConnections(user: UserId) returns (n: nat)
      requires Valid()
      ensures n == |set c | c in all && c.userId == user && !c.closed|
    {
      n := if user in clientsByUser then |clientsByUser[user]| else 0;
      OpenOnes(Value(), user);
      assert (set c | c in all && c.userId == user && !c.closed) == Open(Value(), user);
    }

    method IncrementWriteError()
      requires Valid()
      modifies `writeErrors
      ensures Valid() && Value() == FailedWrite(old(Value()))
    {
      ghost var s := Value();
      FailedWriteSound(s);
      writeErrors := writeErrors + 1;
      assert Value() == FailedWrite(s);
    }

    /** The reported totals: users with an open channel, open channels, the frames lost and received, and
        the failed writes. */
    method Stats() returns (activeUsers: nat, connections: int, dropped: nat, sent: nat, failed: nat)
      requires Valid()
      ensures activeUsers == |OpenClients(Value()).Values| && connections == |OpenClients(Value())|
      ensures dropped == Sum(Lost(Value().conns)) && sent == Sum(Received(Value().conns))
      ensures failed == Value().writeErrors
    {
      TotalsMeaning(Value());
      return |clientsByUser|, totalConnections, droppedByBackpress, messagesSent, writeErrors;
    }

    /** One turn of a client's writer. */
    method WriteNext(c: WsClient) returns (frame: Option<string>)
      requires Valid() && c in all
      modifies c
      ensures Valid() && Value() == Take(old(Value()), c)
      ensures frame == if old(c.send) == [] then None else Some(old(c.send)[0])
    {
      ghost var before := Value();
      frame := c.Receive();
      OneChanged(all, c);
      assert Value() == Take(before, c);
      TakeSound(before, c);
    }
  }
}
