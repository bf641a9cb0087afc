/** The station list of one user, and the inventory read off it: the sorted list of its UUIDs. */
module Stations {
  import opened Text

  /** The fields of a charge point that no status event touches. */
  datatype StationInfo = StationInfo(
    chargeBoxId: string,
    ocppProtocol: string,
    uuid: string,
    chargePointVendor: string,
    chargePointModel: string,
    fwVersion: string,
    description: string)

  datatype Connector = Connector(
    connectorId: int,
    connectorPk: int,
    powerMax: int,
    connectorType: string,
    errorCode: string,
    erroInfo: string,
    status: string)

  datatype ChargePoint = ChargePoint(info: StationInfo, connectors: seq<Connector>)

  /** A status message of the charging backend; a missing errorInfo is None. */
  datatype StatusEvent = StatusEvent(
    chargeBoxUuid: string,
    connectorId: int,
    status: string,
    errorCode: string,
    errorInfo: Option<string>)

  function Infos(list: seq<ChargePoint>): (r: seq<StationInfo>)
    ensures |r| == |list| && forall i :: 0 <= i < |r| ==> r[i] == list[i].info
  {
    seq(|list|, i requires 0 <= i < |list| => list[i].info)
  }

  // ----- the inventory -----

  /** The UUIDs of the list as a set: trimmed, blank ones left out. */
  ghost function UuidSet(infos: seq<StationInfo>): set<string> {
    set s | s in infos && TrimSpace(s.uuid) != "" :: TrimSpace(s.uuid)
  }

  /** The trimmed, non-blank UUIDs in the order of their first appearance. */
  function UniqueUuids(infos: seq<StationInfo>): seq<string> {
    if infos == [] then []
    else
      var before := UniqueUuids(infos[..|infos| - 1]);
      var u := TrimSpace(infos[|infos| - 1].uuid);
      if u == "" || u in before then before else before + [u]
  }

  function InventoryOf(infos: seq<StationInfo>): seq<string> {
    Sort(UniqueUuids(infos))
  }

  lemma {:induction false} UniqueUuidsMeaning(infos: seq<StationInfo>)
    ensures Distinct(UniqueUuids(infos))
    ensures forall u :: u in UniqueUuids(infos) <==> u in UuidSet(infos)
  {
    if infos != [] {
      var front, last := infos[..|infos| - 1], infos[|infos| - 1];
      UniqueUuidsMeaning(front);
      assert infos == front + [last];
      assert forall s :: s in infos <==> s in front || s == last;
    }
  }

  lemma InventoryMeaning(infos: seq<StationInfo>)
    ensures StrictlySorted(InventoryOf(infos))
    ensures forall u :: u in InventoryOf(infos) <==> u in UuidSet(infos)
  {
    UniqueUuidsMeaning(infos);
    SortIsStrict(UniqueUuids(infos));
  }

  /** The inventory is canonical: two lists have the same one exactly when they have the same set of
      UUIDs, whatever the order and the repetitions of their stations. */
  lemma InventoryCanonical(a: seq<StationInfo>, b: seq<StationInfo>)
    ensures InventoryOf(a) == InventoryOf(b) <==> UuidSet(a) == UuidSet(b)
  {
    InventoryMeaning(a);
    InventoryMeaning(b);
    if UuidSet(a) == UuidSet(b) {
      StrictlySortedUnique(InventoryOf(a), InventoryOf(b));
    }
  }

  /** Collects the UUIDs in one pass over the list, then sorts them. */
  method ChargeBoxUuidsFromStations(infos: seq<StationInfo>) returns (out: seq<string>)
    ensures out == InventoryOf(infos)
    ensures StrictlySorted(out)
    ensures forall u :: u in out <==> u in UuidSet(infos)
  {
    var seen: set<string> := {};
    out := [];
    for i := 0 to |infos|
      invariant out == UniqueUuids(infos[..i])
      invariant forall u :: u in seen <==> u in out
    {
      assert infos[..i + 1][..i] == infos[..i];
      var u := TrimSpace(infos[i].uuid);
      if u != "" && u !in seen {
        seen := seen + {u};
        out := out + [u];
      }
    }
    assert infos[..|infos|] == infos;
    InventoryMeaning(infos);
    out := Sort(out);
  }

  // ----- the baseline, and when a change is reported -----

  /** append([]string(nil), uuids...): copying an empty list gives nil, which is None here. */
  function Baseline(uuids: seq<string>): Option<seq<string>> {
    if uuids == [] then None else Some(uuids)
  }

  method StringSlicesEqual(a: seq<string>, b: seq<string>) returns (equal: bool)
    ensures equal <==> a == b
  {
    if |a| != |b| {
      return false;
    }
    for i := 0 to |a|
      invariant a[..i] == b[..i]
    {
      if a[i] != b[i] {
        return false;
      }
    }
    return true;
  }

  predicate InventoryChanged(prev: Option<seq<string>>, next: seq<string>) {
    prev.Some? && prev.value != next
  }

  method ReportsChange(prev: Option<seq<string>>, next: seq<string>) returns (changed: bool)
    ensures changed <==> InventoryChanged(prev, next)
  {
    if prev.None? {
      return false;
    }
    var equal := StringSlicesEqual(prev.value, next);
    return !equal;
  }

  /** Against the stored inventory of an earlier list, a change is reported exactly when the sets of
      UUIDs differ and the earlier list was not empty: the first station added to an empty inventory
      goes unreported. */
  lemma ChangeReportedIff(before: seq<StationInfo>, after: seq<StationInfo>)
    ensures InventoryChanged(Baseline(InventoryOf(before)), InventoryOf(after))
        <==> UuidSet(before) != UuidSet(after) && UuidSet(before) != {}
  {
    InventoryCanonical(before, after);
    InventoryMeaning(before);
    var inv := InventoryOf(before);
    if inv == [] {
      assert UuidSet(before) == {};
    } else {
      assert inv[0] in UuidSet(before);
    }
  }
}
