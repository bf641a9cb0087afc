/** The status store and the publisher as objects: maps are references, so the store keeps copies. */
module PublisherObject {
  import opened Text
  import opened Stations
  import opened StationHeap
  import opened Payload
  import opened StatusStore

  class StringMap {
    var entries: StatusMap

    constructor ()
      ensures entries == map[]
    {
      entries := map[];
    }

    method Put(k: string, v: string)
      modifies this
      ensures entries == old(entries)[k := v]
    {
      entries := entries[k := v];
    }
  }

  method CloneStringMap(m: StringMap) returns (out: StringMap)
    ensures fresh(out) && out.entries == m.entries
  {
    out := new StringMap();
    var left := m.entries.Keys;
    while left != {}
      invariant left <= m.entries.Keys
      invariant out.entries == map k | k in m.entries && k !in left :: m.entries[k]
      decreases left
    {
      var k :| k in left;
      left := left - {k};
      out.Put(k, m.entries[k]);
    }
    assert out.entries == m.entries;
  }

  method ConnectorStatusMapsEqual(a: StringMap, b: StringMap) returns (equal: bool)
    ensures equal <==> MapsEqual(a.entries, b.entries)
  {
    if |a.entries| != |b.entries| {
      return false;
    }
    var left := a.entries.Keys;
    while left != {}
      invariant left <= a.entries.Keys
      invariant forall k :: k in a.entries && k !in left ==> Get(b.entries, k) == a.entries[k]
      decreases left
    {
      var k :| k in left;
      left := left - {k};
      if Get(b.entries, k) != a.entries[k] {
        return false;
      }
    }
    return true;
  }

  /** Fills the map in one pass over stations and connectors. */
  method ConnectorStatusMapFromFlattened(list: seq<StationRec>) returns (out: StringMap)
    ensures fresh(out) && out.entries == StatusesOf(View(list))
  {
    out := new StringMap();
    ghost var v := View(list);
    for i := 0 to |list|
      invariant out.entries == KeyedBy(Readings(v[..i]))
      invariant View(list) == v
    {
      assert list[i].connectors[..] == v[i].connectors;
      PutConnectors(out, list[i].info.chargeBoxId, list[i].connectors, Readings(v[..i]));
      OneMoreStation(v, i);
    }
    assert v[..|list|] == v;
  }

  /** The inner loop, over the connectors of one station. */
  method PutConnectors(out: StringMap, station: string, source: array<Connector>, ghost before: seq<Reading>)
    requires out.entries == KeyedBy(before)
    modifies out
    ensures out.entries == KeyedBy(before + StationReadings(station, source[..]))
  {
    ghost var cs, done := source[..], before;
    for j := 0 to source.Length
      invariant source[..] == cs && done == before + StationReadings(station, cs[..j])
      invariant out.entries == KeyedBy(done)
    {
      out.Put(ConnectorStatusKey(station, source[j].connectorId), source[j].status);
      ghost var r := Reading(station, cs[j].connectorId, cs[j].status);
      OneMoreReading(before, station, cs, j);
      KeyedSnoc(done, r);
      done := done + [r];
    }
    assert cs[..source.Length] == cs;
  }

  lemma OneMoreReading(before: seq<Reading>, station: string, connectors: seq<Connector>, j: nat)
    requires j < |connectors|
    ensures before + StationReadings(station, connectors[..j + 1])
         == before + StationReadings(station, connectors[..j])
            + [Reading(station, connectors[j].connectorId, connectors[j].status)]
  {
  }

  lemma KeyedSnoc(readings: seq<Reading>, r: Reading)
    ensures KeyedBy(readings + [r]) == KeyedBy(readings)[ConnectorStatusKey(r.station, r.connector) := r.status]
  {
  }

  lemma OneMoreStation(v: seq<ChargePoint>, i: nat)
    requires i < |v|
    ensures Readings(v[..i + 1]) == Readings(v[..i]) + StationReadings(v[i].info.chargeBoxId, v[i].connectors)
  {
    assert v[..i + 1][..i] == v[..i];
  }

  class InMemoryConnectorStatusStore {
    var byUser: map<UserId, StringMap>

    /** The stored maps as values. */
    ghost function Value(): map<UserId, StatusMap>
      reads this, byUser.Values
    {
      map u | u in byUser :: byUser[u].entries
    }

    constructor ()
      ensures Value() == map[]
    {
      byUser := map[];
    }

    /** The caller gets a copy. */
    method Lookup(user: UserId) returns (found: Option<StringMap>)
      ensures found.Some? <==> user in byUser
      ensures found.Some? ==> fresh(found.value) && found.value.entries == Value()[user]
      ensures Value() == old(Value())
    {
      if user !in byUser {
        return None;
      }
      var copy := CloneStringMap(byUser[user]);
      return Some(copy);
    }

    /** The store keeps a copy, so the caller's map is none of its own. */
    method Store(user: UserId, snapshot: StringMap)
      modifies this
      ensures Value() == old(Value())[user := old(snapshot.entries)]
      ensures user in byUser && fresh(byUser[user]) && byUser == old(byUser)[user := byUser[user]]
    {
      var copy := CloneStringMap(snapshot);
      byUser := byUser[user := copy];
    }
  }

  /** Changing a map after it was stored does not change what the store holds. */
  method StoredMapIsACopy(store: InMemoryConnectorStatusStore, user: UserId, snapshot: StringMap, k: string, v: string)
    requires snapshot !in store.byUser.Values
    modifies store, snapshot
    ensures store.Value() == old(store.Value())[user := old(snapshot.entries)]
  {
    store.Store(user, snapshot);
    assert snapshot !in store.byUser.Values;
    snapshot.Put(k, v);
  }

  /** A failed fetch is None. */
  ghost function FetchedView(fetched: Option<seq<StationRec>>): Option<seq<ChargePoint>>
    reads if fetched.Some? then Storage(fetched.value) else {}
  {
    if fetched.Some? then Some(View(fetched.value)) else None
  }

  class StationPublisher {
    const store: InMemoryConnectorStatusStore
    ghost var log: seq<Published>

    ghost function Value(): State
      reads this, store, store.byUser.Values
    {
      State(store.Value(), log)
    }

    constructor ()
      ensures Value() == State(map[], []) && fresh(store)
    {
      store := new InMemoryConnectorStatusStore();
      log := [];
    }

    /** Publishes the payload text, then overwrites the stored statuses. */
    method PublishPayloadAndPersistStatus(user: UserId, now: string, list: seq<StationRec>, status: StringMap)
      returns (body: string)
      requires status.entries == StatusesOf(View(list))
      modifies `log, store
      ensures Value() == Publish(old(Value()), user, old(View(list)))
      ensures Shows(body, user, now, old(View(list)))
    {
      ghost var value, state := View(list), Value();
      body := FrameText(user, now, list);
      assert Value() == state && status.entries == StatusesOf(value);
      Persist(user, status, value);
    }

    /** The payload is logged, and its statuses stored. */
    method Persist(user: UserId, status: StringMap, ghost value: seq<ChargePoint>)
      requires status.entries == StatusesOf(value)
      modifies `log, store
      ensures Value() == Publish(old(Value()), user, value)
    {
      ghost var held := store.Value();
      store.Store(user, status);
      assert store.Value() == held[user := StatusesOf(value)];
      log := log + [Published(user, value)];
    }

    /** A failed fetch publishes nothing; neither does an unchanged status map. */
    method PublishForUserIfStatusChanged(user: UserId, now: string, fetched: Option<seq<StationRec>>)
      returns (body: Option<string>)
      modifies `log, store
      ensures Value() == Step(old(Value()), IfChanged(user, old(FetchedView(fetched))))
      ensures body.Some? <==> fetched.Some? && Fires(old(Value()), user, old(View(fetched.value)))
      ensures body.Some? ==> Shows(body.value, user, now, old(View(fetched.value)))
    {
      if fetched.None? {
        return None;
      }
      var list := fetched.value;
      ghost var value, state := View(list), Value();
      var status := ConnectorStatusMapFromFlattened(list);
      ViewUnchanged(list);
      var previous := store.Lookup(user);
      ViewUnchanged(list);
      assert View(list) == value && Value() == state;
      if previous.Some? {
        var equal := ConnectorStatusMapsEqual(previous.value, status);
        if equal {
          return None;
        }
      }
      ViewUnchanged(list);
      assert View(list) == value && Value() == state && Fires(state, user, value);
      var text := PublishPayloadAndPersistStatus(user, now, list, status);
      return Some(text);
    }

    /** A new connection always gets the whole list. */
    method OnWebSocketConnected(user: UserId, now: string, fetched: Option<seq<StationRec>>)
      returns (body: Option<string>)
      modifies `log, store
      ensures Value() == Step(old(Value()), OnConnected(user, old(FetchedView(fetched))))
      ensures body.Some? <==> fetched.Some?
      ensures body.Some? ==> Shows(body.value, user, now, old(View(fetched.value)))
    {
      if fetched.None? {
        return None;
      }
      ghost var value, state := View(fetched.value), Value();
      var status := ConnectorStatusMapFromFlattened(fetched.value);
      ViewUnchanged(fetched.value);
      assert View(fetched.value) == value && Value() == state;
      var text := PublishPayloadAndPersistStatus(user, now, fetched.value, status);
      return Some(text);
    }
  }
}
