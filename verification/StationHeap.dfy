/** Station lists as the running service holds them: the connectors of a station live in a slice that
    events overwrite in place, so two lists can share storage.  View gives the value of such a list. */
module StationHeap {
  import opened Text
  import opened Stations
  import opened Events

  /** A station whose connectors are a reference to mutable storage. */
  datatype StationRec = StationRec(info: StationInfo, connectors: array<Connector>)

  /** The connector slices of a list. */
  ghost function Storage(list: seq<StationRec>): set<object> {
    set i | 0 <= i < |list| :: list[i].connectors as object
  }

  /** No two stations of the list share a slice. */
  ghost predicate Separate(list: seq<StationRec>) {
    forall i, j :: 0 <= i < j < |list| ==> list[i].connectors != list[j].connectors
  }

  ghost function View(list: seq<StationRec>): (v: seq<ChargePoint>)
    reads Storage(list)
    ensures |v| == |list|
    ensures forall i :: 0 <= i < |list| ==> v[i] == ChargePoint(list[i].info, list[i].connectors[..])
  {
    if list == [] then []
    else
      assert list[0].connectors in Storage(list);
      assert forall i :: 0 <= i < |list| - 1 ==> list[1..][i].connectors in Storage(list);
      [ChargePoint(list[0].info, list[0].connectors[..])] + View(list[1..])
  }

  /** A list whose slices are untouched has the value it had. */
  twostate lemma ViewUnchanged(list: seq<StationRec>)
    requires forall i :: 0 <= i < |list| ==> unchanged(list[i].connectors)
    ensures View(list) == old(View(list))
  {
    assert forall i :: 0 <= i < |list| ==> list[i].connectors[..] == old(list[i].connectors[..]);
  }

  function RecInfos(list: seq<StationRec>): (r: seq<StationInfo>)
    ensures |r| == |list| && forall i :: 0 <= i < |r| ==> r[i] == list[i].info
  {
    seq(|list|, i requires 0 <= i < |list| => list[i].info)
  }

  method CloneConnectors(source: array<Connector>) returns (copy: array<Connector>)
    ensures fresh(copy) && copy[..] == source[..]
  {
    copy := new Connector[source.Length](j requires 0 <= j < source.Length reads source => source[j]);
    assert forall k :: 0 <= k < copy.Length ==> copy[k] == source[k];
  }

  /** Copies the stations and their connectors into storage of its own. */
  method CloneFlattenedStations(list: seq<StationRec>) returns (out: seq<StationRec>)
    ensures View(out) == View(list)
    ensures Separate(out)
    ensures fresh(Storage(out))
  {
    out := [];
    for i := 0 to |list|
      invariant |out| == i
      invariant Separate(out)
      invariant forall k :: 0 <= k < i ==> fresh(out[k].connectors)
      invariant forall k :: 0 <= k < i ==>
        out[k].info == list[k].info && out[k].connectors[..] == list[k].connectors[..]
    {
      var copy := CloneConnectors(list[i].connectors);
      out := out + [StationRec(list[i].info, copy)];
    }
    assert View(out) == View(list);
  }

  /** Writes the event into the first connector it matches, in place. */
  method ApplyCsmsEventToFlattened(list: seq<StationRec>, ev: StatusEvent) returns (ok: bool)
    requires Separate(list)
    modifies Storage(list)
    ensures (View(list), ok) == ApplyEvent(old(View(list)), ev)
  {
    var target := TrimSpace(ev.chargeBoxUuid);
    if target == "" {
      return false;
    }
    ghost var was := View(list);
    for i := 0 to |list|
      invariant i <= StationIndex(was, target)
      invariant View(list) == was
    {
      assert list[i].info == was[i].info;
      if EqualFold(TrimSpace(list[i].info.uuid), target) {
        assert StationIndex(was, target) == i;
        var connectors := list[i].connectors;
        assert connectors in Storage(list);
        for j := 0 to connectors.Length
          invariant j <= ConnectorIndex(was[i].connectors, ev.connectorId)
          invariant View(list) == was
        {
          assert connectors[j] == was[i].connectors[j];
          if connectors[j].connectorId == ev.connectorId {
            assert ConnectorIndex(was[i].connectors, ev.connectorId) == j;
            connectors[j] := WithStatus(connectors[j], ev);
            assert connectors[..] == was[i].connectors[j := WithStatus(was[i].connectors[j], ev)];
            assert View(list) == SetConnector(was, i, j, WithStatus(was[i].connectors[j], ev));
            return true;
          }
        }
        return false;
      }
    }
    return false;
  }
}
