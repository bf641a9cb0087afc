/** The subscriber's critical sections as the service runs them: on a list whose connectors are
    overwritten in place, next to published lists that must not change any more. */
module SubscriberObject {
  import opened Text
  import opened Stations
  import opened Events
  import opened StationHeap
  import opened Payload
  import opened Subscriber

  class FingerprintCache {
    var m: map<string, string>

    constructor ()
      ensures m == map[]
    {
      m := map[];
    }

    method Duplicate(uuid: string, id: int, ev: StatusEvent) returns (duplicate: bool)
      ensures duplicate <==> IsDuplicate(m, ev.(chargeBoxUuid := uuid, connectorId := id))
    {
      var key := CacheKey(uuid, id);
      return key in m && m[key] == Fingerprint(ev);
    }

    method Remember(uuid: string, id: int, ev: StatusEvent)
      modifies this
      ensures m == Events.Remember(old(m), ev.(chargeBoxUuid := uuid, connectorId := id))
    {
      m := m[CacheKey(uuid, id) := Fingerprint(ev)];
    }
  }

  /** A list handed to a publisher, and its value at that moment. */
  datatype Issued = Issued(list: seq<StationRec>, value: seq<ChargePoint>)

  /** Every list handed out, and the storage that must not change any more. */
  datatype Ledger = Ledger(issued: seq<Issued>, frozen: set<object>)

  ghost predicate Inside(list: seq<StationRec>, objects: set<object>) {
    forall i :: 0 <= i < |list| ==> list[i].connectors in objects
  }

  ghost predicate Outside(list: seq<StationRec>, objects: set<object>) {
    forall i :: 0 <= i < |list| ==> list[i].connectors !in objects
  }

  /** The list handed out lies in frozen storage and still has the value it had then. */
  ghost predicate Kept(out: Issued, frozen: set<object>)
    reads frozen
  {
    Inside(out.list, frozen) && View(out.list) == out.value
  }

  ghost predicate AllKept(issued: seq<Issued>, frozen: set<object>)
    reads frozen
  {
    forall k :: 0 <= k < |issued| ==> Kept(issued[k], frozen)
  }

  twostate lemma StillKept(l: Ledger)
    requires old(AllKept(l.issued, l.frozen))
    requires forall o :: o in l.frozen ==> unchanged(o)
    ensures AllKept(l.issued, l.frozen)
  {
    forall k | 0 <= k < |l.issued| ensures Kept(l.issued[k], l.frozen) {
      assert old(Kept(l.issued[k], l.frozen));
      ViewUnchanged(l.issued[k].list);
    }
  }

  /** The inventory of a list in storage, compared with a stored one. */
  method Compare(prev: Option<seq<string>>, stations: seq<StationRec>) returns (uuids: seq<string>, changed: bool)
    ensures View(stations) == old(View(stations))
    ensures uuids == InventoryIn(View(stations)) && changed == InventoryChanged(prev, uuids)
  {
    ghost var value := View(stations);
    assert RecInfos(stations) == Infos(value);
    uuids := ChargeBoxUuidsFromStations(RecInfos(stations));
    assert uuids == InventoryIn(value);
    changed := ReportsChange(prev, uuids);
    ViewUnchanged(stations);
  }

  lemma HandleApplied(list: seq<ChargePoint>, cache: Cache, ev: StatusEvent)
    requires TrimSpace(ev.chargeBoxUuid) != "" && !IsDuplicate(cache, ev)
    ensures var (after, ok) := ApplyEvent(list, ev);
            HandleEvent(list, cache, ev)
              == Handled(after, if ok then Events.Remember(cache, ev) else cache, ok)
  {
  }

  class UserLoop {
    var prevInventory: Option<seq<string>>
    var live: seq<StationRec>
    const cache: FingerprintCache
    ghost var issued: seq<Issued>
    ghost var frozen: set<object>

    /** live owns its storage, and every list handed out still has the value it had then. */
    ghost predicate Valid()
      reads this, frozen
    {
      && this !in frozen && cache !in frozen
      && Separate(live) && Outside(live, frozen)
      && AllKept(issued, frozen)
    }

    /** The lock-protected state as a value. */
    ghost function Value(): Shared
      reads this, Storage(live)
    {
      Shared(prevInventory, View(live))
    }

    constructor ()
      ensures Valid() && Value() == Shared(None, []) && cache.m == map[] && fresh(cache) && issued == []
    {
      prevInventory := None;
      live := [];
      cache := new FingerprintCache();
      issued := [];
      frozen := {};
    }

    /** Takes a fetched list over: its inventory, and a copy of it in storage of its own. */
    method Replace(stations: seq<StationRec>, uuids: seq<string>)
      requires Valid()
      modifies this`prevInventory, this`live
      ensures Valid() && fresh(Storage(live)) && Outside(live, Storage(stations))
      ensures prevInventory == Baseline(uuids) && View(live) == View(stations) == old(View(stations))
    {
      var copy := CloneFlattenedStations(stations);
      assert View(copy) == View(stations) == old(View(stations));
      assert Outside(copy, frozen) && Outside(copy, Storage(stations)) by {
        assert forall i :: 0 <= i < |copy| ==> copy[i].connectors in Storage(copy);
      }
      label Copied:
      prevInventory, live := Baseline(uuids), copy;
      ViewUnchanged@Copied(stations);
      ViewUnchanged@Copied(copy);
      StillKept(Ledger(issued, frozen));
    }

    /** The loop's critical section: a change is shown to a watching user, and the fetched list is taken
        over in any case. */
    method LoopCommit(stations: seq<StationRec>, watched: bool) returns (shown: bool)
      requires Valid()
      modifies this
      ensures Valid() && fresh(Storage(live))
      ensures Value() == TakeOver(View(stations))
      ensures shown <==> Reports(old(Value()), old(View(stations))) && watched
      ensures issued == if shown then old(issued) + [Issued(stations, View(stations))] else old(issued)
    {
      ghost var value := View(stations);
      var uuids, changed := Inspect(stations);
      shown := changed && watched;
      Replace(stations, uuids);
      if shown {
        ShowReplaced(stations);
      }
      assert Value() == Shared(Baseline(uuids), value) == TakeOver(value);
    }

    /** Records, for the proof only, that a list is handed out. */
    ghost method ShowReplaced(stations: seq<StationRec>)
      requires Valid() && Outside(live, Storage(stations))
      modifies this`issued, this`frozen
      ensures Valid() && View(live) == old(View(live)) && View(stations) == old(View(stations))
      ensures issued == old(issued) + [Issued(stations, View(stations))]
    {
      ghost var more, wider := issued + [Issued(stations, View(stations))], frozen + Storage(stations);
      issued, frozen := more, wider;
      ViewUnchanged(live);
      ViewUnchanged(stations);
      StillKept(Ledger(more, wider));
    }

    /** A poller's critical section: only a change is taken over, and then shown. */
    method CommitPoll(stations: seq<StationRec>) returns (changed: bool)
      requires Valid()
      modifies this
      ensures Valid()
      ensures changed <==> Reports(old(Value()), old(View(stations)))
      ensures Value() == PollCommit(old(Value()), old(View(stations)))
      ensures if changed then fresh(Storage(live)) else live == old(live)
      ensures issued == if changed then old(issued) + [Issued(stations, View(stations))] else old(issued)
    {
      ghost var value := View(stations);
      var uuids: seq<string>;
      uuids, changed := Inspect(stations);
      if changed {
        Replace(stations, uuids);
        ShowReplaced(stations);
        assert Value() == Shared(Baseline(uuids), value) == TakeOver(value);
      }
    }

    /** The inventory of a fetched list, and whether it is a change. */
    method Inspect(stations: seq<StationRec>) returns (uuids: seq<string>, changed: bool)
      requires Valid()
      ensures Valid() && Value() == old(Value()) && View(stations) == old(View(stations))
      ensures uuids == InventoryIn(View(stations)) && changed == Reports(Value(), View(stations))
    {
      ghost var before := Value();
      uuids, changed := Compare(prevInventory, stations);
      ViewUnchanged(live);
      StillKept(Ledger(issued, frozen));
      assert Value() == before;
    }

    /** The event handler when no poller commits meanwhile: a duplicate is dropped, a match is written into
        live in place and a snapshot handed out.  Lists handed out before keep their value. */
    method OnEvent(ev: StatusEvent) returns (snapshot: Option<seq<StationRec>>)
      requires Valid()
      modifies this`issued, this`frozen, cache, Storage(live)
      ensures Valid()
      ensures Handled(View(live), cache.m, snapshot.Some?) == HandleEvent(old(View(live)), old(cache.m), ev)
      ensures issued == if snapshot.Some? then old(issued) + [Issued(snapshot.value, View(live))] else old(issued)
    {
      ghost var was, m := View(live), cache.m;
      var go := CheckEvent(ev);
      ViewUnchanged(live);
      if !go {
        return None;
      }
      HandleApplied(was, m, ev);
      snapshot := CommitEvent(ev);
      if snapshot.Some? {
        RememberEvent(ev);
      }
    }

    /** The handler's first part: blank and repeated events are dropped. */
    method CheckEvent(ev: StatusEvent) returns (go: bool)
      requires Valid()
      ensures Valid() && go == (TrimSpace(ev.chargeBoxUuid) != "" && !IsDuplicate(cache.m, ev))
    {
      if TrimSpace(ev.chargeBoxUuid) == "" {
        go := false;
      } else {
        var duplicate := cache.Duplicate(ev.chargeBoxUuid, ev.connectorId, ev);
        go := !duplicate;
      }
      StillKept(Ledger(issued, frozen));
    }

    /** Its second part, under the lock: live is changed in place and copied.  The copy of a matched list is
        handed out at that value, whatever happens before it is published. */
    method CommitEvent(ev: StatusEvent) returns (snapshot: Option<seq<StationRec>>)
      requires Valid()
      modifies this`issued, this`frozen, Storage(live)
      ensures Valid()
      ensures (View(live), snapshot.Some?) == ApplyEvent(old(View(live)), ev)
      ensures snapshot.Some? ==> fresh(Storage(snapshot.value)) && View(snapshot.value) == View(live)
      ensures issued == if snapshot.Some? then old(issued) + [Issued(snapshot.value, View(live))] else old(issued)
    {
      var ok := ApplyInPlace(ev);
      label Applied:
      var copy := CloneFlattenedStations(live);
      ViewUnchanged@Applied(live);
      StillKept@Applied(Ledger(issued, frozen));
      if !ok {
        return None;
      }
      ShowReplaced(copy);
      return Some(copy);
    }

    /** Its third part: the event is remembered. */
    method RememberEvent(ev: StatusEvent)
      requires Valid()
      modifies cache
      ensures Valid() && View(live) == old(View(live)) && cache.m == Events.Remember(old(cache.m), ev)
    {
      cache.Remember(ev.chargeBoxUuid, ev.connectorId, ev);
      ViewUnchanged(live);
      StillKept(Ledger(issued, frozen));
    }

    /** Writes an event into live; nothing handed out is touched. */
    method ApplyInPlace(ev: StatusEvent) returns (ok: bool)
      requires Valid()
      modifies Storage(live)
      ensures Valid()
      ensures (View(live), ok) == ApplyEvent(old(View(live)), ev)
    {
      ok := ApplyCsmsEventToFlattened(live, ev);
      StillKept(Ledger(issued, frozen));
    }

    /** Publishing happens outside the lock, after any number of further commits and events: what a
        client decodes is still the value the list had when it was handed out. */
    method PublishStationsSnapshot(list: seq<StationRec>, ghost k: nat, userId: string, now: string)
      returns (body: string)
      requires Valid() && k < |issued| && list == issued[k].list
      ensures Shows(body, userId, now, issued[k].value)
    {
      assert Kept(issued[k], frozen);
      body := FrameText(userId, now, list);
    }
  }
}
