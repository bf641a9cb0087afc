/** Status events on the station list, and the cache of fingerprints that drops repeated ones. */
module Events {
  import opened Text
  import opened Stations

  // ----- one event on the list -----

  /** The first station whose trimmed UUID equals the target, ignoring case; the length if none. */
  function StationIndex(list: seq<ChargePoint>, target: string): (i: nat)
    ensures i <= |list|
    ensures forall k :: 0 <= k < i ==> !EqualFold(TrimSpace(list[k].info.uuid), target)
    ensures i < |list| ==> EqualFold(TrimSpace(list[i].info.uuid), target)
  {
    if list == [] || EqualFold(TrimSpace(list[0].info.uuid), target) then 0
    else 1 + StationIndex(list[1..], target)
  }

  /** The first connector with the given id; the length if none. */
  function ConnectorIndex(connectors: seq<Connector>, id: int): (j: nat)
    ensures j <= |connectors|
    ensures forall k :: 0 <= k < j ==> connectors[k].connectorId != id
    ensures j < |connectors| ==> connectors[j].connectorId == id
  {
    if connectors == [] || connectors[0].connectorId == id then 0
    else 1 + ConnectorIndex(connectors[1..], id)
  }

  /** The station and connector that a UUID and a connector id stand for. */
  function Resolve(list: seq<ChargePoint>, uuid: string, id: int): (r: Option<(nat, nat)>)
    ensures r.Some? ==> r.value.0 < |list| && r.value.1 < |list[r.value.0].connectors|
  {
    var target := TrimSpace(uuid);
    var i := StationIndex(list, target);
    if target == "" || i == |list| then None
    else
      var j := ConnectorIndex(list[i].connectors, id);
      if j == |list[i].connectors| then None else Some((i, j))
  }

  function InfoText(ev: StatusEvent): string {
    if ev.errorInfo.Some? then ev.errorInfo.value else ""
  }

  function WithStatus(c: Connector, ev: StatusEvent): Connector {
    c.(status := ev.status, errorCode := ev.errorCode, erroInfo := InfoText(ev))
  }

  function SetConnector(list: seq<ChargePoint>, i: nat, j: nat, c: Connector): seq<ChargePoint>
    requires i < |list| && j < |list[i].connectors|
  {
    list[i := list[i].(connectors := list[i].connectors[j := c])]
  }

  /** The list after the event, and whether the event matched a connector. */
  function ApplyEvent(list: seq<ChargePoint>, ev: StatusEvent): (seq<ChargePoint>, bool) {
    match Resolve(list, ev.chargeBoxUuid, ev.connectorId)
    case None => (list, false)
    case Some((i, j)) => (SetConnector(list, i, j, WithStatus(list[i].connectors[j], ev)), true)
  }

  /** Same stations with the same connector ids. */
  ghost predicate SameShape(a: seq<ChargePoint>, b: seq<ChargePoint>) {
    && |a| == |b|
    && forall i :: 0 <= i < |a| ==>
         && a[i].info == b[i].info
         && |a[i].connectors| == |b[i].connectors|
         && forall j :: 0 <= j < |a[i].connectors| ==>
              a[i].connectors[j].connectorId == b[i].connectors[j].connectorId
  }

  /** An event changes no station, adds and removes no connector, and so leaves the inventory alone. */
  lemma ApplyEventKeepsShape(list: seq<ChargePoint>, ev: StatusEvent)
    ensures SameShape(list, ApplyEvent(list, ev).0)
    ensures Infos(list) == Infos(ApplyEvent(list, ev).0)
  {
  }

  /** The connector an event means: the first of its id in the first station whose trimmed UUID is that of
      the event up to case. */
  ghost predicate Means(list: seq<ChargePoint>, ev: StatusEvent, i: int, j: int) {
    && TrimSpace(ev.chargeBoxUuid) != ""
    && 0 <= i < |list| && EqualFold(TrimSpace(list[i].info.uuid), TrimSpace(ev.chargeBoxUuid))
    && (forall k :: 0 <= k < i ==> !EqualFold(TrimSpace(list[k].info.uuid), TrimSpace(ev.chargeBoxUuid)))
    && 0 <= j < |list[i].connectors| && list[i].connectors[j].connectorId == ev.connectorId
    && (forall k :: 0 <= k < j ==> list[i].connectors[k].connectorId != ev.connectorId)
  }

  /** What an event does: it matches if it means some connector, and that connector, and no other, gets its
      status, error code and error text; nothing else changes. */
  lemma ApplyEventMeaning(list: seq<ChargePoint>, ev: StatusEvent)
    ensures var (after, matched) := ApplyEvent(list, ev);
            && (matched <==> exists i, j :: Means(list, ev, i, j))
            && |after| == |list|
            && (forall i :: 0 <= i < |list| ==>
                  after[i].info == list[i].info && |after[i].connectors| == |list[i].connectors|)
            && (forall i, j :: 0 <= i < |list| && 0 <= j < |list[i].connectors| ==>
                  after[i].connectors[j] ==
                    if Means(list, ev, i, j) then
                      list[i].connectors[j].(status := ev.status, errorCode := ev.errorCode,
                        erroInfo := match ev.errorInfo case Some(text) => text case None => "")
                    else list[i].connectors[j])
  {
    match Resolve(list, ev.chargeBoxUuid, ev.connectorId)
    case Some((i, j)) => assert Means(list, ev, i, j);
    case None =>
  }

  lemma {:induction false} StationIndexSameShape(a: seq<ChargePoint>, b: seq<ChargePoint>, target: string)
    requires SameShape(a, b)
    ensures StationIndex(a, target) == StationIndex(b, target)
  {
  }

  lemma {:induction false} ConnectorIndexSameIds(a: seq<Connector>, b: seq<Connector>, id: int)
    requires |a| == |b| && forall j :: 0 <= j < |a| ==> a[j].connectorId == b[j].connectorId
    ensures ConnectorIndex(a, id) == ConnectorIndex(b, id)
  {
  }

  lemma ResolveSameShape(a: seq<ChargePoint>, b: seq<ChargePoint>, uuid: string, id: int)
    requires SameShape(a, b)
    ensures Resolve(a, uuid, id) == Resolve(b, uuid, id)
  {
    StationIndexSameShape(a, b, TrimSpace(uuid));
    var i := StationIndex(a, TrimSpace(uuid));
    if i < |a| {
      ConnectorIndexSameIds(a[i].connectors, b[i].connectors, id);
    }
  }

  // ----- the cache -----

  type Cache = map<string, string>

  function CacheKey(uuid: string, id: int): string {
    ToLower(TrimSpace(uuid)) + ['|'] + Decimal(id)
  }

  function FingerprintOf(status: string, errorCode: string, info: string): string {
    status + ['\0'] + (errorCode + ['\0'] + info)
  }

  function Fingerprint(ev: StatusEvent): string {
    FingerprintOf(ev.status, ev.errorCode, InfoText(ev))
  }

  predicate IsDuplicate(cache: Cache, ev: StatusEvent) {
    var key := CacheKey(ev.chargeBoxUuid, ev.connectorId);
    key in cache && cache[key] == Fingerprint(ev)
  }

  function Remember(cache: Cache, ev: StatusEvent): Cache {
    cache[CacheKey(ev.chargeBoxUuid, ev.connectorId) := Fingerprint(ev)]
  }

  /** What the handler of an event leaves behind. */
  datatype Handled = Handled(list: seq<ChargePoint>, cache: Cache, shown: bool)

  /** The handler: blank and repeated events are dropped, unmatched ones are not remembered. */
  function HandleEvent(list: seq<ChargePoint>, cache: Cache, ev: StatusEvent): Handled {
    if TrimSpace(ev.chargeBoxUuid) == "" || IsDuplicate(cache, ev) then Handled(list, cache, false)
    else
      var (list', ok) := ApplyEvent(list, ev);
      if ok then Handled(list', Remember(cache, ev), true)
      else Handled(list', cache, false)
  }

  function RunPlain(list: seq<ChargePoint>, evs: seq<StatusEvent>): seq<ChargePoint>
    decreases |evs|
  {
    if evs == [] then list else RunPlain(ApplyEvent(list, evs[0]).0, evs[1..])
  }

  function RunCached(list: seq<ChargePoint>, cache: Cache, evs: seq<StatusEvent>): (seq<ChargePoint>, Cache)
    decreases |evs|
  {
    if evs == [] then (list, cache)
    else var h := HandleEvent(list, cache, evs[0]); RunCached(h.list, h.cache, evs[1..])
  }

  // ----- keys identify connectors, fingerprints identify triples -----

  predicate NulFree(s: string) { '\0' !in s }

  predicate CleanEvent(ev: StatusEvent) { NulFree(ev.status) && NulFree(ev.errorCode) }

  ghost predicate CleanEvents(evs: seq<StatusEvent>) { forall k :: 0 <= k < |evs| ==> CleanEvent(evs[k]) }

  ghost predicate CleanList(list: seq<ChargePoint>) {
    forall i, j :: 0 <= i < |list| && 0 <= j < |list[i].connectors| ==>
      NulFree(list[i].connectors[j].status) && NulFree(list[i].connectors[j].errorCode)
  }

  lemma KeyIdentifiesConnector(u: string, m: int, v: string, n: int)
    requires CacheKey(u, m) == CacheKey(v, n)
    ensures EqualFold(TrimSpace(u), TrimSpace(v)) && m == n
  {
    SeparatedKeyInjective(ToLower(TrimSpace(u)), m, ToLower(TrimSpace(v)), n, '|');
  }

  lemma CutAtNul(a: string, r: string, b: string, t: string)
    requires NulFree(a) && NulFree(b)
    requires a + ['\0'] + r == b + ['\0'] + t
    ensures a == b && r == t
  {
    var s := a + ['\0'] + r;
    assert s[|a|] == '\0' && s[|b|] == '\0';
    assert forall k :: 0 <= k < |a| ==> s[k] == a[k];
    assert forall k :: 0 <= k < |b| ==> s[k] == b[k];
    assert |a| == |b|;
    assert a == s[..|a|] == b && r == s[|a| + 1..] == t;
  }

  /** Whom a remembered event speaks for: afterwards an event is a duplicate if it means the same
      connector, up to case and surrounding white space, and carries the same status, error code and
      error text, a missing text counting as empty; for every other connector nothing has changed. */
  lemma DuplicateAfterRemember(cache: Cache, seen: StatusEvent, ev: StatusEvent)
    requires CleanEvent(seen) && CleanEvent(ev)
    ensures IsDuplicate(Remember(cache, seen), ev)
         == if EqualFold(TrimSpace(seen.chargeBoxUuid), TrimSpace(ev.chargeBoxUuid))
              && seen.connectorId == ev.connectorId
            then seen.status == ev.status && seen.errorCode == ev.errorCode && InfoText(seen) == InfoText(ev)
            else IsDuplicate(cache, ev)
  {
    if CacheKey(seen.chargeBoxUuid, seen.connectorId) == CacheKey(ev.chargeBoxUuid, ev.connectorId) {
      KeyIdentifiesConnector(seen.chargeBoxUuid, seen.connectorId, ev.chargeBoxUuid, ev.connectorId);
      if Fingerprint(seen) == Fingerprint(ev) {
        FingerprintInjective(seen.status, seen.errorCode, InfoText(seen), ev.status, ev.errorCode, InfoText(ev));
      }
    }
  }

  /** Nothing is a duplicate of nothing. */
  lemma NothingRemembered(ev: StatusEvent)
    ensures !IsDuplicate(map[], ev)
  {
  }

  /** What the handler shows: events that are not blank, not duplicates, and mean a connector; and it
      remembers exactly those. */
  lemma HandleShows(list: seq<ChargePoint>, cache: Cache, ev: StatusEvent)
    ensures var h := HandleEvent(list, cache, ev);
            && (h.shown <==> !IsDuplicate(cache, ev) && exists i, j :: Means(list, ev, i, j))
            && h.cache == (if h.shown then Remember(cache, ev) else cache)
            && h.list == (if h.shown then ApplyEvent(list, ev).0 else list)
  {
    ApplyEventMeaning(list, ev);
  }

  /** Without NUL in the status and the error code, a fingerprint determines the whole triple; the
      error information may hold any character. */
  lemma FingerprintInjective(s: string, e: string, i: string, s': string, e': string, i': string)
    requires NulFree(s) && NulFree(e) && NulFree(s') && NulFree(e')
    requires FingerprintOf(s, e, i) == FingerprintOf(s', e', i')
    ensures s == s' && e == e' && i == i'
  {
    CutAtNul(s, e + ['\0'] + i, s', e' + ['\0'] + i');
    CutAtNul(e, i, e', i');
  }

  // ----- when dropping duplicates is harmless -----

  function ConnectorFingerprint(c: Connector): string {
    FingerprintOf(c.status, c.errorCode, c.erroInfo)
  }

  /** Every remembered fingerprint whose key names a connector of the list is that connector's own. */
  ghost predicate Agrees(list: seq<ChargePoint>, cache: Cache) {
    forall i, j :: 0 <= i < |list| && 0 <= j < |list[i].connectors| ==> AgreesAt(list, cache, i, j)
  }

  predicate AgreesAt(list: seq<ChargePoint>, cache: Cache, i: nat, j: nat)
    requires i < |list| && j < |list[i].connectors|
  {
    var c := list[i].connectors[j];
    var key := CacheKey(list[i].info.uuid, c.connectorId);
    (Resolve(list, list[i].info.uuid, c.connectorId) == Some((i, j)) && key in cache) ==>
      cache[key] == ConnectorFingerprint(c)
  }

  /** The remembered values are fingerprints of events without NUL in status and error code. */
  ghost predicate Remembered(cache: Cache) {
    forall k :: k in cache ==> exists ev :: CleanEvent(ev) && cache[k] == Fingerprint(ev)
  }

  /** A connector an event resolves to is also the one its own station's UUID resolves to. */
  lemma ResolvedByOwnUuid(list: seq<ChargePoint>, uuid: string, id: int, i: nat, j: nat)
    requires Resolve(list, uuid, id) == Some((i, j))
    ensures i < |list| && j < |list[i].connectors|
    ensures Resolve(list, list[i].info.uuid, id) == Some((i, j))
    ensures list[i].connectors[j].connectorId == id
    ensures CacheKey(list[i].info.uuid, id) == CacheKey(uuid, id)
  {
  }

  /** With an agreeing cache one handled event leaves the list that applying it would leave. */
  lemma HandleRefinesApply(list: seq<ChargePoint>, cache: Cache, ev: StatusEvent)
    requires Agrees(list, cache) && CleanList(list) && CleanEvent(ev)
    ensures HandleEvent(list, cache, ev).list == ApplyEvent(list, ev).0
  {
    if IsDuplicate(cache, ev) {
      match Resolve(list, ev.chargeBoxUuid, ev.connectorId)
      case None =>
      case Some((i, j)) =>
        ResolvedByOwnUuid(list, ev.chargeBoxUuid, ev.connectorId, i, j);
        var c := list[i].connectors[j];
        assert AgreesAt(list, cache, i, j);
        FingerprintInjective(c.status, c.errorCode, c.erroInfo, ev.status, ev.errorCode, InfoText(ev));
        assert WithStatus(c, ev) == c;
        assert list[i].connectors[j := c] == list[i].connectors;
        assert SetConnector(list, i, j, c) == list;
    }
  }

  /** A connector with the same cache key as a resolved event is the one the event resolves to. */
  lemma SameKeySameConnector(list: seq<ChargePoint>, ev: StatusEvent, p: nat, q: nat)
    requires p < |list| && q < |list[p].connectors|
    requires var id := list[p].connectors[q].connectorId;
             && Resolve(list, list[p].info.uuid, id) == Some((p, q))
             && CacheKey(list[p].info.uuid, id) == CacheKey(ev.chargeBoxUuid, ev.connectorId)
    ensures Resolve(list, ev.chargeBoxUuid, ev.connectorId) == Some((p, q))
  {
    var id := list[p].connectors[q].connectorId;
    KeyIdentifiesConnector(list[p].info.uuid, id, ev.chargeBoxUuid, ev.connectorId);
  }

  /** After a shown event. */
  lemma ShownKeepsAgreement(list: seq<ChargePoint>, cache: Cache, ev: StatusEvent)
    requires Agrees(list, cache) && HandleEvent(list, cache, ev).shown
    ensures var h := HandleEvent(list, cache, ev); Agrees(h.list, h.cache)
  {
    var h := HandleEvent(list, cache, ev);
    ApplyEventKeepsShape(list, ev);
    forall p, q | 0 <= p < |h.list| && 0 <= q < |h.list[p].connectors| ensures AgreesAt(h.list, h.cache, p, q) {
      AgreementAt(list, cache, ev, p, q);
    }
  }

  /** Handling an event keeps the cache in agreement with the list. */
  lemma HandleKeepsAgreement(list: seq<ChargePoint>, cache: Cache, ev: StatusEvent)
    requires Agrees(list, cache) && CleanList(list) && CleanEvent(ev)
    ensures var h := HandleEvent(list, cache, ev); Agrees(h.list, h.cache) && CleanList(h.list)
  {
    if HandleEvent(list, cache, ev).shown {
      ShownKeepsAgreement(list, cache, ev);
    }
  }

  lemma AgreementAt(list: seq<ChargePoint>, cache: Cache, ev: StatusEvent, p: nat, q: nat)
    requires Agrees(list, cache) && HandleEvent(list, cache, ev).shown
    requires SameShape(list, HandleEvent(list, cache, ev).list)
    requires p < |list| && q < |list[p].connectors|
    ensures var h := HandleEvent(list, cache, ev);
            && p < |h.list| && q < |h.list[p].connectors| && AgreesAt(h.list, h.cache, p, q)
  {
    var h := HandleEvent(list, cache, ev);
    var uuid, id := list[p].info.uuid, list[p].connectors[q].connectorId;
    assert AgreesAt(list, cache, p, q);
    ResolveSameShape(list, h.list, uuid, id);
    if Resolve(list, uuid, id) == Some((p, q)) && CacheKey(uuid, id) == CacheKey(ev.chargeBoxUuid, ev.connectorId) {
      SameKeySameConnector(list, ev, p, q);
    } else if Resolve(list, ev.chargeBoxUuid, ev.connectorId) == Some((p, q)) {
      ResolvedByOwnUuid(list, ev.chargeBoxUuid, ev.connectorId, p, q);
    }
  }

  lemma {:induction false} RunsAgree(list: seq<ChargePoint>, cache: Cache, evs: seq<StatusEvent>)
    requires Agrees(list, cache) && CleanList(list) && CleanEvents(evs)
    ensures RunCached(list, cache, evs).0 == RunPlain(list, evs)
    ensures Agrees(RunCached(list, cache, evs).0, RunCached(list, cache, evs).1)
    decreases |evs|
  {
    if evs != [] {
      assert CleanEvent(evs[0]);
      HandleRefinesApply(list, cache, evs[0]);
      HandleKeepsAgreement(list, cache, evs[0]);
      var h := HandleEvent(list, cache, evs[0]);
      RunsAgree(h.list, h.cache, evs[1..]);
    }
  }

  /** Where the cache disagrees with the list, some single event is lost. */
  lemma DisagreementLosesAnEvent(list: seq<ChargePoint>, cache: Cache) returns (ev: StatusEvent)
    requires !Agrees(list, cache) && Remembered(cache)
    ensures CleanEvent(ev)
    ensures RunCached(list, cache, [ev]).0 == list != RunPlain(list, [ev])
  {
    var i: nat, j: nat :| i < |list| && j < |list[i].connectors| && !AgreesAt(list, cache, i, j);
    var c := list[i].connectors[j];
    var key := CacheKey(list[i].info.uuid, c.connectorId);
    var kept :| CleanEvent(kept) && cache[key] == Fingerprint(kept);
    ev := kept.(chargeBoxUuid := list[i].info.uuid, connectorId := c.connectorId);
    assert IsDuplicate(cache, ev);
    assert WithStatus(c, ev) != c;
    assert RunPlain(list, [ev]) == ApplyEvent(list, ev).0;
    assert RunPlain(list, [ev])[i].connectors[j] == WithStatus(c, ev);
    assert RunCached(list, cache, [ev]) == (list, cache);
  }

  /** Dropping duplicates leaves the same list as applying every event, for every stream of events,
      exactly when the cache agrees with the list at the start. */
  lemma CacheHarmlessIff(list: seq<ChargePoint>, cache: Cache)
    requires CleanList(list) && Remembered(cache)
    ensures (forall evs :: CleanEvents(evs) ==> RunCached(list, cache, evs).0 == RunPlain(list, evs))
        <==> Agrees(list, cache)
  {
    if Agrees(list, cache) {
      forall evs | CleanEvents(evs) ensures RunCached(list, cache, evs).0 == RunPlain(list, evs) {
        RunsAgree(list, cache, evs);
      }
    } else {
      var ev := DisagreementLosesAnEvent(list, cache);
      assert CleanEvents([ev]);
    }
  }

  /** A fresh cache agrees with every list. */
  lemma FreshCacheHarmless(list: seq<ChargePoint>, evs: seq<StatusEvent>)
    requires CleanList(list) && CleanEvents(evs)
    ensures RunCached(list, map[], evs).0 == RunPlain(list, evs)
  {
    RunsAgree(list, map[], evs);
  }

  /** The cache outlives a refetch.  Whenever an event changed the list and a refetch then brings the
      earlier list back, the same event sent again is dropped and the list stays behind. */
  lemma RefetchThenRepeatIsLost(list: seq<ChargePoint>, cache: Cache, ev: StatusEvent)
    requires !IsDuplicate(cache, ev) && ApplyEvent(list, ev).1 && ApplyEvent(list, ev).0 != list
    ensures var after := HandleEvent(list, cache, ev);
            HandleEvent(list, after.cache, ev).list == list != ApplyEvent(list, ev).0
  {
  }
}
