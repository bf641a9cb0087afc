/** The last published connector statuses of every user, and the publisher that skips a payload when
    they have not changed. */
module StatusStore {
  import opened Text
  import opened Stations

  type UserId = string
  type StatusMap = map<string, string>

  // ----- the status map of a list -----

  /** One connector's status, in the order in which the list gives them. */
  datatype Reading = Reading(station: string, connector: int, status: string)

  function StationReadings(id: string, connectors: seq<Connector>): (r: seq<Reading>)
    ensures |r| == |connectors|
  {
    seq(|connectors|, j requires 0 <= j < |connectors| => Reading(id, connectors[j].connectorId, connectors[j].status))
  }

  function Readings(list: seq<ChargePoint>): seq<Reading> {
    if list == [] then []
    else
      var last := list[|list| - 1];
      Readings(list[..|list| - 1]) + StationReadings(last.info.chargeBoxId, last.connectors)
  }

  function ConnectorStatusKey(station: string, connector: int): string {
    station + ['#'] + Decimal(connector)
  }

  /** The map the service keeps: by text key, a later reading replacing an earlier one. */
  function KeyedBy(readings: seq<Reading>): StatusMap {
    if readings == [] then map[]
    else
      var r := readings[|readings| - 1];
      KeyedBy(readings[..|readings| - 1])[ConnectorStatusKey(r.station, r.connector) := r.status]
  }

  /** What it stands for: the status of each pair of station and connector. */
  function Relation(readings: seq<Reading>): map<(string, int), string> {
    if readings == [] then map[]
    else
      var r := readings[|readings| - 1];
      Relation(readings[..|readings| - 1])[(r.station, r.connector) := r.status]
  }

  function StatusesOf(list: seq<ChargePoint>): StatusMap {
    KeyedBy(Readings(list))
  }

  function RelationOf(list: seq<ChargePoint>): map<(string, int), string> {
    Relation(Readings(list))
  }

  // ----- which status a pair has -----

  predicate PairAt(list: seq<ChargePoint>, i: int, j: int, p: (string, int)) {
    && 0 <= i < |list| && 0 <= j < |list[i].connectors|
    && list[i].info.chargeBoxId == p.0 && list[i].connectors[j].connectorId == p.1
  }

  /** The pair's last place in the list. */
  ghost predicate LastPlace(list: seq<ChargePoint>, i: int, j: int, p: (string, int)) {
    PairAt(list, i, j, p) && forall k, l :: PairAt(list, k, l, p) ==> k < i || (k == i && l <= j)
  }

  lemma {:induction false} RelationSkips(a: seq<Reading>, b: seq<Reading>, p: (string, int))
    requires forall k :: 0 <= k < |b| ==> (b[k].station, b[k].connector) != p
    ensures p in Relation(a + b) <==> p in Relation(a)
    ensures p in Relation(a) ==> Relation(a + b)[p] == Relation(a)[p]
    decreases |b|
  {
    if b == [] {
      assert a + b == a;
    } else {
      assert (a + b)[..|a + b| - 1] == a + b[..|b| - 1];
      RelationSkips(a, b[..|b| - 1], p);
    }
  }

  lemma {:induction false} RelationEnds(readings: seq<Reading>, k: nat, p: (string, int))
    requires k < |readings| && (readings[k].station, readings[k].connector) == p
    requires forall m :: k < m < |readings| ==> (readings[m].station, readings[m].connector) != p
    ensures p in Relation(readings) && Relation(readings)[p] == readings[k].status
  {
    var a, b := readings[..k + 1], readings[k + 1..];
    assert readings == a + b && a[..k] == readings[..k];
    RelationSkips(a, b, p);
  }

  /** A pair of station id and connector id has a status exactly if it occurs in the list, and then the one
      at its last place. */
  lemma {:induction false} RelationMeaning(list: seq<ChargePoint>, p: (string, int))
    ensures p in RelationOf(list) <==> exists i, j :: PairAt(list, i, j, p)
    ensures forall i, j :: LastPlace(list, i, j, p) ==>
      p in RelationOf(list) && RelationOf(list)[p] == list[i].connectors[j].status
    decreases |list|
  {
    if list != [] {
      var n := |list| - 1;
      var front, last := list[..n], list[n];
      RelationMeaning(front, p);
      var a, b := Readings(front), StationReadings(last.info.chargeBoxId, last.connectors);
      forall i, j ensures PairAt(list, i, j, p) && i < n <==> PairAt(front, i, j, p) {
      }
      if j :| PairAt(list, n, j, p) {
        LastOf(list, p, j);
      } else {
        assert forall k :: 0 <= k < |b| ==> PairAt(list, n, k, p) || (b[k].station, b[k].connector) != p;
        RelationSkips(a, b, p);
        forall i, j | LastPlace(list, i, j, p) ensures LastPlace(front, i, j, p) {
        }
      }
    }
  }

  lemma LastOf(list: seq<ChargePoint>, p: (string, int), j: nat)
    requires list != [] && PairAt(list, |list| - 1, j, p)
    ensures p in RelationOf(list)
    ensures forall i, k :: LastPlace(list, i, k, p) ==> RelationOf(list)[p] == list[i].connectors[k].status
  {
    var n := |list| - 1;
    var last := list[n];
    var a, b := Readings(list[..n]), StationReadings(last.info.chargeBoxId, last.connectors);
    var k := LastMatch(list, n, p, j);
    forall m | |a| + k <= m < |a + b|
      ensures (a + b)[m] == b[m - |a|] && (PairAt(list, n, m - |a|, p) ==> m - |a| <= k)
    {
    }
    RelationEnds(a + b, |a| + k, p);
    assert forall i, l :: LastPlace(list, i, l, p) ==> i == n && l == k;
  }

  lemma {:induction false} LastMatch(list: seq<ChargePoint>, n: nat, p: (string, int), j: nat) returns (k: nat)
    requires n < |list| && PairAt(list, n, j, p)
    ensures PairAt(list, n, k, p) && forall m :: PairAt(list, n, m, p) ==> m <= k
    decreases |list[n].connectors| - j
  {
    if m :| j < m && PairAt(list, n, m, p) {
      k := LastMatch(list, n, p, m);
    } else {
      k := j;
    }
  }

  /** A key stands for one pair only, even when the station id contains '#'. */
  lemma KeyInjective(p: (string, int), q: (string, int))
    requires ConnectorStatusKey(p.0, p.1) == ConnectorStatusKey(q.0, q.1)
    ensures p == q
  {
    SeparatedKeyInjective(p.0, p.1, q.0, q.1, '#');
  }

  ghost predicate SameContent(keyed: StatusMap, relation: map<(string, int), string>) {
    && (forall p :: p in relation ==>
          ConnectorStatusKey(p.0, p.1) in keyed && keyed[ConnectorStatusKey(p.0, p.1)] == relation[p])
    && (forall k :: k in keyed ==> exists p :: p in relation && ConnectorStatusKey(p.0, p.1) == k)
  }

  lemma {:induction false} KeyedMeaning(readings: seq<Reading>)
    ensures SameContent(KeyedBy(readings), Relation(readings))
  {
    if readings != [] {
      var front, r := readings[..|readings| - 1], readings[|readings| - 1];
      KeyedMeaning(front);
      AddReading(KeyedBy(front), Relation(front), r);
    }
  }

  lemma AddReading(keyed: StatusMap, relation: map<(string, int), string>, r: Reading)
    requires SameContent(keyed, relation)
    ensures SameContent(keyed[ConnectorStatusKey(r.station, r.connector) := r.status],
                        relation[(r.station, r.connector) := r.status])
  {
    var key := ConnectorStatusKey(r.station, r.connector);
    var keyed', relation' := keyed[key := r.status], relation[(r.station, r.connector) := r.status];
    forall p | p in relation'
      ensures ConnectorStatusKey(p.0, p.1) in keyed' && keyed'[ConnectorStatusKey(p.0, p.1)] == relation'[p]
    {
      if ConnectorStatusKey(p.0, p.1) == key { KeyInjective(p, (r.station, r.connector)); }
    }
    forall k | k in keyed' ensures exists p :: p in relation' && ConnectorStatusKey(p.0, p.1) == k {
      if k == key {
        assert (r.station, r.connector) in relation';
      } else {
        var p :| p in relation && ConnectorStatusKey(p.0, p.1) == k;
        assert p in relation';
      }
    }
  }

  lemma SameContentDetermines(k1: StatusMap, r1: map<(string, int), string>,
                              k2: StatusMap, r2: map<(string, int), string>)
    requires SameContent(k1, r1) && SameContent(k2, r2)
    ensures k1 == k2 <==> r1 == r2
  {
    if k1 == k2 {
      SameRelation(k1, r1, r2);
      SameRelation(k1, r2, r1);
      assert r1.Keys == r2.Keys;
    }
    if r1 == r2 {
      assert k1.Keys == k2.Keys;
      assert k1 == k2;
    }
  }

  lemma SameRelation(keyed: StatusMap, r1: map<(string, int), string>, r2: map<(string, int), string>)
    requires SameContent(keyed, r1) && SameContent(keyed, r2)
    ensures forall p :: p in r1 ==> p in r2 && r2[p] == r1[p]
  {
    forall p | p in r1 ensures p in r2 && r2[p] == r1[p] {
      var q :| q in r2 && ConnectorStatusKey(q.0, q.1) == ConnectorStatusKey(p.0, p.1);
      KeyInjective(p, q);
    }
  }

  /** Two lists have the same status map exactly when they give every pair the same status. */
  lemma StatusesDetermineRelation(a: seq<ChargePoint>, b: seq<ChargePoint>)
    ensures StatusesOf(a) == StatusesOf(b) <==> RelationOf(a) == RelationOf(b)
  {
    KeyedMeaning(Readings(a));
    KeyedMeaning(Readings(b));
    SameContentDetermines(StatusesOf(a), RelationOf(a), StatusesOf(b), RelationOf(b));
  }

  // ----- the comparison of status maps -----

  /** Go's read of a missing key. */
  function Get(m: StatusMap, k: string): string {
    if k in m then m[k] else ""
  }

  predicate MapsEqual(a: StatusMap, b: StatusMap) {
    |a| == |b| && forall k :: k in a ==> Get(b, k) == a[k]
  }

  lemma SubsetOfSameSize(a: set<string>, b: set<string>)
    requires a <= b && |a| == |b|
    ensures a == b
  {
    if a != b {
      var x :| x in b && x !in a;
      var rest := b - {x};
      assert a <= rest;
      CardinalityMonotone(a, rest);
    }
  }

  lemma CardinalityMonotone(a: set<string>, b: set<string>)
    requires a <= b
    ensures |a| <= |b|
  {
    assert b == a + (b - a);
  }

  /** Without empty statuses in the first map the one-sided comparison is equality. */
  lemma MapsEqualIsEquality(a: StatusMap, b: StatusMap)
    requires "" !in a.Values
    ensures MapsEqual(a, b) <==> a == b
  {
    if MapsEqual(a, b) {
      forall k | k in a ensures k in b && b[k] == a[k] {
        assert a[k] in a.Values;
        assert Get(b, k) == a[k];
      }
      SubsetOfSameSize(a.Keys, b.Keys);
      assert a == b;
    }
  }

  /** With one, replacing its connector by any other goes unnoticed. */
  lemma EmptyStatusHides(a: StatusMap, k: string, other: string, status: string)
    requires k in a && a[k] == "" && other !in a
    ensures var b := (a - {k})[other := status]; MapsEqual(a, b) && a != b
  {
  }

  lemma {:induction false} LongerThanAll(keys: set<string>) returns (long: string)
    ensures forall k :: k in keys ==> |k| < |long|
    decreases keys
  {
    if keys == {} {
      long := "x";
    } else {
      var k :| k in keys;
      var rest := LongerThanAll(keys - {k});
      long := rest + k + "x";
    }
  }

  /** The comparison agrees with equality, whatever the second map, exactly when the first holds no
      empty status. */
  lemma MapsEqualIff(a: StatusMap)
    ensures (forall b :: MapsEqual(a, b) <==> a == b) <==> "" !in a.Values
  {
    if "" in a.Values {
      var k :| k in a && a[k] == "";
      var other := LongerThanAll(a.Keys);
      EmptyStatusHides(a, k, other, "Available");
    } else {
      forall b ensures MapsEqual(a, b) <==> a == b {
        MapsEqualIsEquality(a, b);
      }
    }
  }

  // ----- lists on which the comparison fails -----

  /** The readings as stations with one connector each. */
  function OneByOne(readings: seq<Reading>): seq<ChargePoint> {
    seq(|readings|, i requires 0 <= i < |readings| =>
      ChargePoint(StationInfo(readings[i].station, "", "", "", "", "", ""),
                  [Connector(readings[i].connector, 0, 0, "", "", "", readings[i].status)]))
  }

  lemma {:induction false} ReadingsOneByOne(readings: seq<Reading>)
    ensures Readings(OneByOne(readings)) == readings
  {
    if readings != [] {
      var front, r := readings[..|readings| - 1], readings[|readings| - 1];
      ReadingsOneByOne(front);
      var list := OneByOne(readings);
      assert list[..|list| - 1] == OneByOne(front);
      assert StationReadings(r.station, list[|list| - 1].connectors) == [r];
    }
  }

  /** The readings of all pairs but p. */
  function Without(readings: seq<Reading>, p: (string, int)): seq<Reading> {
    if readings == [] then []
    else
      var front, r := Without(readings[..|readings| - 1], p), readings[|readings| - 1];
      if (r.station, r.connector) == p then front else front + [r]
  }

  lemma {:induction false} KeyedWithout(readings: seq<Reading>, p: (string, int))
    ensures KeyedBy(Without(readings, p)) == KeyedBy(readings) - {ConnectorStatusKey(p.0, p.1)}
  {
    if readings != [] {
      var front, r := readings[..|readings| - 1], readings[|readings| - 1];
      KeyedWithout(front, p);
      var key, gone := ConnectorStatusKey(r.station, r.connector), ConnectorStatusKey(p.0, p.1);
      if (r.station, r.connector) != p {
        if key == gone { KeyInjective((r.station, r.connector), p); }
        assert (Without(front, p) + [r])[..|Without(front, p)|] == Without(front, p);
      }
    }
  }

  /** After a list with an empty status, some list with another relation is taken for the same. */
  lemma EmptyStatusGoesUnnoticed(before: seq<ChargePoint>) returns (list: seq<ChargePoint>)
    requires "" in StatusesOf(before).Values
    ensures MapsEqual(StatusesOf(before), StatusesOf(list)) && RelationOf(before) != RelationOf(list)
  {
    var a, readings := StatusesOf(before), Readings(before);
    var k :| k in a && a[k] == "";
    KeyedMeaning(readings);
    var p :| p in RelationOf(before) && ConnectorStatusKey(p.0, p.1) == k;
    var long := LongerThanAll(a.Keys);
    var other := ConnectorStatusKey(long, 0);
    assert |other| > |long| && other !in a;
    var rest := Without(readings, p);
    var next := rest + [Reading(long, 0, "Available")];
    list := OneByOne(next);
    ReadingsOneByOne(next);
    KeyedWithout(readings, p);
    assert next[..|next| - 1] == rest;
    assert StatusesOf(list) == (a - {k})[other := "Available"];
    EmptyStatusHides(a, k, other, "Available");
    StatusesDetermineRelation(before, list);
  }

  /** Against a given last list the comparison tells every other relation apart exactly when that list
      has no connector with an empty status. */
  lemma ComparisonExactIff(before: seq<ChargePoint>)
    ensures (forall list :: MapsEqual(StatusesOf(before), StatusesOf(list)) <==> RelationOf(before) == RelationOf(list))
        <==> "" !in StatusesOf(before).Values
  {
    if "" in StatusesOf(before).Values {
      var list := EmptyStatusGoesUnnoticed(before);
    } else {
      forall list ensures MapsEqual(StatusesOf(before), StatusesOf(list)) <==> RelationOf(before) == RelationOf(list) {
        MapsEqualIsEquality(StatusesOf(before), StatusesOf(list));
        StatusesDetermineRelation(before, list);
      }
    }
  }

  // ----- runs of the publisher -----

  datatype Published = Published(user: UserId, list: seq<ChargePoint>)

  datatype State = State(store: map<UserId, StatusMap>, log: seq<Published>)

  /** A failed fetch is None. */
  datatype Action =
    | IfChanged(user: UserId, fetched: Option<seq<ChargePoint>>)
    | OnConnected(user: UserId, fetched: Option<seq<ChargePoint>>)

  function Publish(s: State, user: UserId, list: seq<ChargePoint>): State {
    State(s.store[user := StatusesOf(list)], s.log + [Published(user, list)])
  }

  predicate Fires(s: State, user: UserId, list: seq<ChargePoint>) {
    user !in s.store || !MapsEqual(s.store[user], StatusesOf(list))
  }

  function Step(s: State, a: Action): State {
    match a
    case IfChanged(user, Some(list)) => if Fires(s, user, list) then Publish(s, user, list) else s
    case OnConnected(user, Some(list)) => Publish(s, user, list)
    case _ => s
  }

  function Run(s: State, actions: seq<Action>): State
    decreases |actions|
  {
    if actions == [] then s else Run(Step(s, actions[0]), actions[1..])
  }

  lemma {:induction false} RunSnoc(s: State, actions: seq<Action>, a: Action)
    ensures Run(s, actions + [a]) == Step(Run(s, actions), a)
    decreases |actions|
  {
    if actions == [] {
      assert [a][1..] == [] && actions + [a] == [a];
    } else {
      assert (actions + [a])[0] == actions[0] && (actions + [a])[1..] == actions[1..] + [a];
      RunSnoc(Step(s, actions[0]), actions[1..], a);
    }
  }

  /** In every run a new connection whose list could be fetched has it published, whatever the store holds;
      a conditional publish adds the list or nothing; a failed fetch adds nothing. */
  lemma PublishedInEveryRun(actions: seq<Action>, user: UserId, list: seq<ChargePoint>)
    ensures var s := Run(State(map[], []), actions);
            && Run(State(map[], []), actions + [OnConnected(user, Some(list))]).log == s.log + [Published(user, list)]
            && Run(State(map[], []), actions + [OnConnected(user, None)]) == s
            && Run(State(map[], []), actions + [IfChanged(user, None)]) == s
            && Run(State(map[], []), actions + [IfChanged(user, Some(list))]).log
                 == s.log + if Fires(s, user, list) then [Published(user, list)] else []
  {
    RunSnoc(State(map[], []), actions, OnConnected(user, Some(list)));
    RunSnoc(State(map[], []), actions, OnConnected(user, None));
    RunSnoc(State(map[], []), actions, IfChanged(user, None));
    RunSnoc(State(map[], []), actions, IfChanged(user, Some(list)));
  }

  function LastFor(log: seq<Published>, user: UserId): Option<seq<ChargePoint>> {
    if log == [] then None
    else if log[|log| - 1].user == user then Some(log[|log| - 1].list)
    else LastFor(log[..|log| - 1], user)
  }

  /** The store holds, for every user, the statuses of the list last published to that user. */
  ghost predicate StoreIsCurrent(s: State) {
    forall user :: match LastFor(s.log, user)
                   case None => user !in s.store
                   case Some(list) => user in s.store && s.store[user] == StatusesOf(list)
  }

  lemma PublishKeepsCurrent(s: State, user: UserId, list: seq<ChargePoint>)
    requires StoreIsCurrent(s)
    ensures StoreIsCurrent(Publish(s, user, list))
  {
  }

  lemma {:induction false} CurrentInEveryRun(s: State, actions: seq<Action>)
    requires StoreIsCurrent(s)
    ensures StoreIsCurrent(Run(s, actions))
    decreases |actions|
  {
    if actions != [] {
      if actions[0].fetched.Some? { PublishKeepsCurrent(s, actions[0].user, actions[0].fetched.value); }
      CurrentInEveryRun(Step(s, actions[0]), actions[1..]);
    }
  }

  /** In every run, the conditional publish of a user who has been published to fires exactly when the
      status of some pair of station and connector differs from the last published list, provided that
      list has no connector with an empty status. */
  lemma FiresIffRelationDiffers(actions: seq<Action>, user: UserId, before: seq<ChargePoint>, list: seq<ChargePoint>)
    ensures var s := Run(State(map[], []), actions);
            LastFor(s.log, user) == Some(before) && "" !in StatusesOf(before).Values ==>
              (Fires(s, user, list) <==> RelationOf(before) != RelationOf(list))
  {
    CurrentInEveryRun(State(map[], []), actions);
    if "" !in StatusesOf(before).Values { MapsEqualIsEquality(StatusesOf(before), StatusesOf(list)); }
    StatusesDetermineRelation(before, list);
  }

  /** A user who has not been published to is always published to. */
  lemma FirstAlwaysFires(actions: seq<Action>, user: UserId, list: seq<ChargePoint>)
    requires LastFor(Run(State(map[], []), actions).log, user) == None
    ensures Fires(Run(State(map[], []), actions), user, list)
  {
    CurrentInEveryRun(State(map[], []), actions);
  }
}
