/** The JSON payload pushed to clients: its printer, which appends text piece by piece in a fixed
    field order, and the decoder that gets the payload back from the text. */
module Payload {
  import opened Text
  import opened Json
  import opened Stations
  import opened StationHeap

  datatype PushConnector = PushConnector(
    status: string,
    erroInfo: string,
    powerMax: int,
    errorCode: string,
    connectorId: int,
    connectorPk: int,
    connectorType: string)

  /** A nil connector slice is None; it prints as null. */
  datatype PushStation = PushStation(
    chargeBoxId: string,
    description: string,
    ocppProtocol: string,
    chargePointModel: string,
    chargePointVendor: string,
    uuid: string,
    fwVersion: string,
    connectors: Option<seq<PushConnector>>)

  datatype PushPayload = PushPayload(userId: string, timestamp: string, stations: seq<PushStation>)

  // ----- the payload as a JSON value -----

  function ConnectorJson(c: PushConnector): Json {
    JObject([
      Member("status", JString(c.status)),
      Member("erroInfo", JString(c.erroInfo)),
      Member("powerMax", JInt(c.powerMax)),
      Member("errorCode", JString(c.errorCode)),
      Member("connectorId", JInt(c.connectorId)),
      Member("connectorPk", JInt(c.connectorPk)),
      Member("connectorType", JString(c.connectorType))])
  }

  function ConnectorsJson(cs: Option<seq<PushConnector>>): Json {
    match cs
    case None => JNull
    case Some(list) => JArray(seq(|list|, i requires 0 <= i < |list| => ConnectorJson(list[i])))
  }

  /** The field names of a station, in the order in which they are written. */
  function StationName(k: nat): string {
    if k == 0 then "chargeBoxId"
    else if k == 1 then "description"
    else if k == 2 then "ocppProtocol"
    else if k == 3 then "chargePointModel"
    else if k == 4 then "chargePointVendor"
    else if k == 5 then "uuid"
    else if k == 6 then "fwVersion"
    else "connectors"
  }

  function StationMembers(s: PushStation): seq<Member> {
    [ Member(StationName(0), JString(s.chargeBoxId)),
      Member(StationName(1), JString(s.description)),
      Member(StationName(2), JString(s.ocppProtocol)),
      Member(StationName(3), JString(s.chargePointModel)),
      Member(StationName(4), JString(s.chargePointVendor)),
      Member(StationName(5), JString(s.uuid)),
      Member(StationName(6), JString(s.fwVersion)),
      Member(StationName(7), ConnectorsJson(s.connectors))]
  }

  function StationJson(s: PushStation): Json {
    JObject(StationMembers(s))
  }

  function StationsJson(list: seq<PushStation>): seq<Json> {
    seq(|list|, i requires 0 <= i < |list| => StationJson(list[i]))
  }

  function PayloadMembers(p: PushPayload): seq<Member> {
    [ Member("userId", JString(p.userId)),
      Member("stations", JArray(StationsJson(p.stations))),
      Member("timestamp", JString(p.timestamp))]
  }

  function PayloadJson(p: PushPayload): Json {
    JObject(PayloadMembers(p))
  }

  // ----- reading a payload from a JSON value; members may come in any order -----

  function Lookup(members: seq<Member>, name: string): Option<Json> {
    if members == [] then None
    else if members[0].name == name then Some(members[0].value)
    else Lookup(members[1..], name)
  }

  function StringField(members: seq<Member>, name: string): Option<string> {
    match Lookup(members, name)
    case Some(JString(s)) => Some(s)
    case _ => None
  }

  function IntField(members: seq<Member>, name: string): Option<int> {
    match Lookup(members, name)
    case Some(JInt(n)) => Some(n)
    case _ => None
  }

  function ReadConnector(j: Json): Option<PushConnector> {
    if !j.JObject? then None
    else
      var m := j.members;
      match (StringField(m, "status"), StringField(m, "erroInfo"), IntField(m, "powerMax"), StringField(m, "errorCode"))
      case (Some(status), Some(info), Some(power), Some(code)) =>
        (match (IntField(m, "connectorId"), IntField(m, "connectorPk"), StringField(m, "connectorType"))
         case (Some(id), Some(pk), Some(kind)) => Some(PushConnector(status, info, power, code, id, pk, kind))
         case _ => None)
      case _ => None
  }

  /** Reads every element of an array; one unreadable element makes the whole array unreadable. */
  function ReadAll<T>(items: seq<Json>, read: Json -> Option<T>): Option<seq<T>> {
    if items == [] then Some([])
    else
      match (read(items[0]), ReadAll(items[1..], read))
      case (Some(x), Some(xs)) => Some([x] + xs)
      case _ => None
  }

  /** null is read as a nil slice. */
  function ReadConnectors(j: Option<Json>): Option<Option<seq<PushConnector>>> {
    match j
    case Some(JNull) => Some(None)
    case Some(JArray(items)) =>
      (match ReadAll(items, ReadConnector)
       case Some(cs) => Some(Some(cs))
       case None => None)
    case _ => None
  }

  function ReadStation(j: Json): Option<PushStation> {
    if !j.JObject? then None
    else
      var m := j.members;
      match (StringField(m, "chargeBoxId"), StringField(m, "description"), StringField(m, "ocppProtocol"),
             StringField(m, "chargePointModel"))
      case (Some(id), Some(text), Some(ocpp), Some(model)) =>
        (match (StringField(m, "chargePointVendor"), StringField(m, "uuid"), StringField(m, "fwVersion"),
                ReadConnectors(Lookup(m, "connectors")))
         case (Some(vendor), Some(uuid), Some(fw), Some(cs)) =>
           Some(PushStation(id, text, ocpp, model, vendor, uuid, fw, cs))
         case _ => None)
      case _ => None
  }

  function ReadPayload(j: Json): Option<PushPayload> {
    if !j.JObject? then None
    else
      match (StringField(j.members, "userId"), StringField(j.members, "timestamp"), Lookup(j.members, "stations"))
      case (Some(user), Some(time), Some(JArray(items))) =>
        (match ReadAll(items, ReadStation)
         case Some(list) => Some(PushPayload(user, time, list))
         case None => None)
      case _ => None
  }

  function DecodePayload(text: string): Option<PushPayload> {
    match Decode(text)
    case Some(j) => ReadPayload(j)
    case None => None
  }

  // ----- the round trip -----

  lemma {:induction false} LookupAt(members: seq<Member>, k: nat)
    requires k < |members|
    requires forall i :: 0 <= i < k ==> members[i].name != members[k].name
    ensures Lookup(members, members[k].name) == Some(members[k].value)
  {
    if k > 0 {
      LookupAt(members[1..], k - 1);
    }
  }

  /** Every member of an object whose names are all different is found under its name. */
  lemma LookupEach(members: seq<Member>)
    requires forall i, k :: 0 <= i < k < |members| ==> members[i].name != members[k].name
    ensures forall k :: 0 <= k < |members| ==> Lookup(members, members[k].name) == Some(members[k].value)
  {
  }

  lemma ConnectorRoundTrip(c: PushConnector)
    ensures ReadConnector(ConnectorJson(c)) == Some(c)
  {
    LookupEach(ConnectorJson(c).members);
    var m := ConnectorJson(c).members;
    assert m[0].name == "status" && m[1].name == "erroInfo" && m[2].name == "powerMax" && m[3].name == "errorCode";
    assert m[4].name == "connectorId" && m[5].name == "connectorPk" && m[6].name == "connectorType";
  }

  lemma {:induction false} ReadAllInverse<T>(list: seq<T>, items: seq<Json>, read: Json -> Option<T>)
    requires |items| == |list|
    requires forall i :: 0 <= i < |list| ==> read(items[i]) == Some(list[i])
    ensures ReadAll(items, read) == Some(list)
  {
    if list != [] {
      ReadAllInverse<T>(list[1..], items[1..], read);
      assert list == [list[0]] + list[1..];
    }
  }

  lemma ConnectorsRoundTrip(cs: Option<seq<PushConnector>>)
    ensures ReadConnectors(Some(ConnectorsJson(cs))) == Some(cs)
  {
    if cs.Some? {
      var items := ConnectorsJson(cs).items;
      forall i | 0 <= i < |cs.value| ensures ReadConnector(items[i]) == Some(cs.value[i]) {
        ConnectorRoundTrip(cs.value[i]);
      }
      ReadAllInverse(cs.value, items, ReadConnector);
    }
  }

  lemma StationRoundTrip(s: PushStation)
    ensures ReadStation(StationJson(s)) == Some(s)
  {
    var m := StationMembers(s);
    LookupEach(m);
    ConnectorsRoundTrip(s.connectors);
    assert m[0].name == "chargeBoxId" && m[1].name == "description" && m[2].name == "ocppProtocol";
    assert m[3].name == "chargePointModel" && m[4].name == "chargePointVendor" && m[5].name == "uuid";
    assert m[6].name == "fwVersion" && m[7].name == "connectors";
  }

  /** The decoder gets exactly the payload back from its compact encoding: any number of stations and
      connectors, any Unicode text, empty and nil connector lists kept apart. */
  lemma PayloadRoundTrip(p: PushPayload)
    ensures DecodePayload(Encode(PayloadJson(p))) == Some(p)
  {
    RoundTrip(PayloadJson(p));
    var m := PayloadMembers(p);
    LookupEach(m);
    assert m[0].name == "userId" && m[1].name == "stations" && m[2].name == "timestamp";
    forall i | 0 <= i < |p.stations| ensures ReadStation(StationsJson(p.stations)[i]) == Some(p.stations[i]) {
      StationRoundTrip(p.stations[i]);
    }
    ReadAllInverse(p.stations, StationsJson(p.stations), ReadStation);
  }

  // ----- the printers -----

  /** Field names need no escaping. */
  predicate IsName(s: string) {
    forall i :: 0 <= i < |s| ==> 'a' <= s[i] <= 'z' || 'A' <= s[i] <= 'Z'
  }

  lemma {:induction false} QuoteName(s: string)
    requires IsName(s)
    ensures Quote(s) == "\"" + s + "\""
  {
    EscapeName(s);
  }

  lemma {:induction false} EscapeName(s: string)
    requires IsName(s)
    ensures EscapeAll(s) == s
  {
    EscapeStep(s);
    if s != "" {
      EscapeName(s[1..]);
      assert EscapeChar(s[0]) == [s[0]];
    }
  }

  lemma {:induction false} JoinSnoc(parts: seq<string>, part: string)
    ensures Join(parts + [part]) == if parts == [] then part else Join(parts) + "," + part
  {
    if parts == [] {
      assert parts + [part] == [part];
    } else {
      assert (parts + [part])[1..] == parts[1..] + [part];
      JoinSnoc(parts[1..], part);
      if |parts| > 1 {
        Assoc(parts[0], "," + Join(parts[1..]), "," + part);
        Assoc(",", Join(parts[1..]), "," + part);
        Assoc(Join(parts[1..]), ",", part);
        Assoc(Join(parts), ",", part);
      } else {
        Assoc(parts[0], ",", part);
      }
    }
  }

  /** A key as it stands in the text. */
  function Key(name: string): string {
    "\"" + name + "\":"
  }

  /** The text of an object of which the first k members are written. */
  ghost predicate Written(buf: string, members: seq<Member>, k: nat) {
    k <= |members| && buf == "{" + Join(EncodeMembers(members[..k]))
  }

  lemma AppendText(written: string, comma: string, key: string, value: string)
    ensures "{" + written + comma + key + value == "{" + (written + comma + (key + value))
  {
  }

  lemma MemberText(m: Member)
    requires IsName(m.name)
    ensures EncodeMember(m) == Key(m.name) + Encode(m.value)
  {
    QuoteName(m.name);
    Assoc("\"" + m.name + "\"", ":", Encode(m.value));
    Assoc("\"" + m.name, "\"", ":");
  }

  /** The next key and value, behind a comma unless they are the first, write one more member. */
  lemma WriteField(buf: string, members: seq<Member>, k: nat, value: string)
    requires Written(buf, members, k) && k < |members|
    requires IsName(members[k].name) && value == Encode(members[k].value)
    ensures Written(buf + (if k == 0 then "" else ",") + Key(members[k].name) + value, members, k + 1)
  {
    var parts, m := EncodeMembers(members[..k]), members[k];
    MemberText(m);
    assert EncodeMembers(members[..k + 1]) == parts + [EncodeMember(m)];
    JoinSnoc(parts, EncodeMember(m));
    AppendText(Join(parts), if k == 0 then "" else ",", Key(m.name), value);
    if k == 0 {
      assert parts == [] && Join(parts) + "" + EncodeMember(m) == EncodeMember(m);
    }
  }

  lemma StationNamesPlain(k: nat)
    ensures IsName(StationName(k))
  {
    if k < 4 { EarlyNamesPlain(k); } else { LateNamesPlain(k); }
  }

  lemma EarlyNamesPlain(k: nat)
    requires k < 4
    ensures IsName(StationName(k))
  {
  }

  lemma LateNamesPlain(k: nat)
    requires k >= 4
    ensures IsName(StationName(k))
  {
  }

  /** One field of a station: the text grows by exactly that member. */
  lemma StationField(s: PushStation, k: nat, buf: string, value: string)
    requires k < 8 && Written(buf, StationMembers(s), k) && value == Encode(StationMembers(s)[k].value)
    ensures Written(buf + (if k == 0 then "" else ",") + Key(StationName(k)) + value, StationMembers(s), k + 1)
  {
    StationNamesPlain(k);
    WriteField(buf, StationMembers(s), k, value);
  }

  /** The same behind a comma. */
  lemma NextField(s: PushStation, k: nat, buf: string, value: string)
    requires 0 < k < 8 && Written(buf, StationMembers(s), k) && value == Encode(StationMembers(s)[k].value)
    ensures Written(buf + "," + Key(StationName(k)) + value, StationMembers(s), k + 1)
  {
    StationField(s, k, buf, value);
  }

  /** The closing brace, once every member is written. */
  lemma Close(buf: string, members: seq<Member>)
    requires Written(buf, members, |members|)
    ensures buf + "}" == Encode(JObject(members))
  {
    assert members[..|members|] == members;
    Assoc("{", Join(EncodeMembers(members)), "}");
  }

  lemma FirstFields(s: PushStation)
    ensures Written("{" + "" + Key(StationName(0)) + Quote(s.chargeBoxId)
                    + "," + Key(StationName(1)) + Quote(s.description)
                    + "," + Key(StationName(2)) + Quote(s.ocppProtocol)
                    + "," + Key(StationName(3)) + Quote(s.chargePointModel), StationMembers(s), 4)
  {
    StationField(s, 0, "{", Quote(s.chargeBoxId));
    var b1 := "{" + "" + Key(StationName(0)) + Quote(s.chargeBoxId);
    NextField(s, 1, b1, Quote(s.description));
    var b2 := b1 + "," + Key(StationName(1)) + Quote(s.description);
    NextField(s, 2, b2, Quote(s.ocppProtocol));
    var b3 := b2 + "," + Key(StationName(2)) + Quote(s.ocppProtocol);
    NextField(s, 3, b3, Quote(s.chargePointModel));
  }

  lemma LastFields(s: PushStation, b4: string)
    requires Written(b4, StationMembers(s), 4)
    ensures b4 + "," + Key(StationName(4)) + Quote(s.chargePointVendor)
            + "," + Key(StationName(5)) + Quote(s.uuid)
            + "," + Key(StationName(6)) + Quote(s.fwVersion)
            + "," + Key(StationName(7)) + Encode(ConnectorsJson(s.connectors)) + "}" == Encode(StationJson(s))
  {
    NextField(s, 4, b4, Quote(s.chargePointVendor));
    var b5 := b4 + "," + Key(StationName(4)) + Quote(s.chargePointVendor);
    NextField(s, 5, b5, Quote(s.uuid));
    FinalFields(s, b5 + "," + Key(StationName(5)) + Quote(s.uuid));
  }

  lemma FinalFields(s: PushStation, b6: string)
    requires Written(b6, StationMembers(s), 6)
    ensures b6 + "," + Key(StationName(6)) + Quote(s.fwVersion)
            + "," + Key(StationName(7)) + Encode(ConnectorsJson(s.connectors)) + "}" == Encode(StationJson(s))
  {
    NextField(s, 6, b6, Quote(s.fwVersion));
    var b7 := b6 + "," + Key(StationName(6)) + Quote(s.fwVersion);
    NextField(s, 7, b7, Encode(ConnectorsJson(s.connectors)));
    Close(b7 + "," + Key(StationName(7)) + Encode(ConnectorsJson(s.connectors)), StationMembers(s));
  }

  /** The text of one station, field by field in the fixed order, connectors last. */
  method BuildStationsPushStationJson(s: PushStation) returns (buf: string)
    ensures buf == Encode(StationJson(s))
  {
    FirstFields(s);
    buf := "{" + "";
    buf := buf + Key(StationName(0)) + Quote(s.chargeBoxId);
    buf := buf + "," + Key(StationName(1)) + Quote(s.description);
    buf := buf + "," + Key(StationName(2)) + Quote(s.ocppProtocol);
    buf := buf + "," + Key(StationName(3)) + Quote(s.chargePointModel);
    LastFields(s, buf);
    buf := buf + "," + Key(StationName(4)) + Quote(s.chargePointVendor);
    buf := buf + "," + Key(StationName(5)) + Quote(s.uuid);
    buf := buf + "," + Key(StationName(6)) + Quote(s.fwVersion);
    buf := buf + "," + Key(StationName(7)) + Encode(ConnectorsJson(s.connectors));
    buf := buf + "}";
  }

  lemma PayloadNamePlain(p: PushPayload, k: nat)
    requires k < 3
    ensures IsName(PayloadMembers(p)[k].name)
  {
  }

  /** One field of the payload. */
  lemma PayloadField(p: PushPayload, k: nat, buf: string, value: string)
    requires k < 3 && Written(buf, PayloadMembers(p), k) && value == Encode(PayloadMembers(p)[k].value)
    ensures Written(buf + (if k == 0 then "" else ",") + Key(PayloadMembers(p)[k].name) + value,
                    PayloadMembers(p), k + 1)
  {
    PayloadNamePlain(p, k);
    WriteField(buf, PayloadMembers(p), k, value);
  }

  /** The text around the station list is that of the payload object. */
  lemma PayloadText(p: PushPayload)
    ensures "{" + "" + Key("userId") + Quote(p.userId)
            + "," + Key("stations") + Encode(JArray(StationsJson(p.stations)))
            + "," + Key("timestamp") + Quote(p.timestamp) + "}" == Encode(PayloadJson(p))
  {
    var m := PayloadMembers(p);
    PayloadField(p, 0, "{", Quote(p.userId));
    var b1 := "{" + "" + Key("userId") + Quote(p.userId);
    assert Written(b1, m, 1);
    PayloadField(p, 1, b1, Encode(JArray(StationsJson(p.stations))));
    LastPayloadField(p, b1 + "," + Key("stations") + Encode(JArray(StationsJson(p.stations))));
  }

  lemma LastPayloadField(p: PushPayload, b2: string)
    requires Written(b2, PayloadMembers(p), 2)
    ensures b2 + "," + Key("timestamp") + Quote(p.timestamp) + "}" == Encode(PayloadJson(p))
  {
    PayloadField(p, 2, b2, Quote(p.timestamp));
    Close(b2 + "," + Key("timestamp") + Quote(p.timestamp), PayloadMembers(p));
  }

  /** The payload text; decoding it gives the payload back. */
  method BuildStationsPushPayloadJson(p: PushPayload) returns (buf: string)
    ensures DecodePayload(buf) == Some(p)
    ensures buf == Encode(PayloadJson(p))
  {
    buf := "{" + "" + Key("userId") + Quote(p.userId);
    buf := buf + "," + Key("stations");
    ghost var head, parts := buf, [];
    ghost var list := "";
    buf := buf + "[";
    for i := 0 to |p.stations|
      invariant parts == EncodeItems(StationsJson(p.stations[..i]))
      invariant list == Join(parts) && buf == head + "[" + list
    {
      if i > 0 {
        buf := buf + ",";
      }
      var station := BuildStationsPushStationJson(p.stations[i]);
      buf := buf + station;
      StationsSnoc(p.stations, i);
      JoinSnoc(parts, station);
      ListGrows(head + "[", list, if i > 0 then "," else "", station);
      parts, list := parts + [station], Join(parts + [station]);
    }
    assert p.stations[..|p.stations|] == p.stations;
    Assoc(head + "[", list, "]");
    Assoc(head, "[", list + "]");
    buf := buf + "]";
    buf := buf + "," + Key("timestamp") + Quote(p.timestamp) + "}";
    PayloadText(p);
    PayloadRoundTrip(p);
  }

  lemma StationsSnoc(list: seq<PushStation>, i: nat)
    requires i < |list|
    ensures EncodeItems(StationsJson(list[..i + 1]))
         == EncodeItems(StationsJson(list[..i])) + [Encode(StationJson(list[i]))]
  {
  }

  lemma ListGrows(head: string, list: string, comma: string, station: string)
    ensures comma != "" ==> head + list + comma + station == head + (list + comma + station)
    ensures comma == "" && list == "" ==> head + list + station == head + station
    ensures comma == "" ==> head + list + station == head + (list + station)
  {
  }

  // ----- from station lists to payload stations -----

  function PushConnectorOf(c: Connector): PushConnector {
    PushConnector(c.status, c.erroInfo, c.powerMax, c.errorCode, c.connectorId, c.connectorPk, c.connectorType)
  }

  function PushConnectorsOf(cs: seq<Connector>): seq<PushConnector> {
    seq(|cs|, i requires 0 <= i < |cs| => PushConnectorOf(cs[i]))
  }

  function PushStationOf(cp: ChargePoint): PushStation {
    PushStation(cp.info.chargeBoxId, cp.info.description, cp.info.ocppProtocol, cp.info.chargePointModel,
                cp.info.chargePointVendor, cp.info.uuid, cp.info.fwVersion, Some(PushConnectorsOf(cp.connectors)))
  }

  function PushStationsOf(list: seq<ChargePoint>): seq<PushStation> {
    seq(|list|, i requires 0 <= i < |list| => PushStationOf(list[i]))
  }

  /** Each payload connector has the fields of its connector, name by name. */
  ghost predicate ConnectorFields(out: seq<PushConnector>, connectors: seq<Connector>) {
    && |out| == |connectors|
    && forall j :: 0 <= j < |out| ==>
         && out[j].status == connectors[j].status && out[j].erroInfo == connectors[j].erroInfo
         && out[j].powerMax == connectors[j].powerMax && out[j].errorCode == connectors[j].errorCode
         && out[j].connectorId == connectors[j].connectorId && out[j].connectorPk == connectors[j].connectorPk
         && out[j].connectorType == connectors[j].connectorType
  }

  /** Each payload station has the fields of its station, name by name, and its connectors, never nil. */
  ghost predicate StationFields(out: seq<PushStation>, list: seq<ChargePoint>) {
    && |out| == |list|
    && forall i :: 0 <= i < |out| ==>
         && out[i].chargeBoxId == list[i].info.chargeBoxId && out[i].description == list[i].info.description
         && out[i].ocppProtocol == list[i].info.ocppProtocol
         && out[i].chargePointModel == list[i].info.chargePointModel
         && out[i].chargePointVendor == list[i].info.chargePointVendor
         && out[i].uuid == list[i].info.uuid && out[i].fwVersion == list[i].info.fwVersion
         && out[i].connectors.Some? && ConnectorFields(out[i].connectors.value, list[i].connectors)
  }

  lemma ConnectorFieldsIff(out: seq<PushConnector>, connectors: seq<Connector>)
    ensures ConnectorFields(out, connectors) <==> out == PushConnectorsOf(connectors)
  {
    if ConnectorFields(out, connectors) {
      assert forall j :: 0 <= j < |out| ==> out[j] == PushConnectorOf(connectors[j]);
    }
  }

  lemma StationFieldsIff(out: seq<PushStation>, list: seq<ChargePoint>)
    ensures StationFields(out, list) <==> out == PushStationsOf(list)
  {
    if StationFields(out, list) {
      forall i | 0 <= i < |out| ensures out[i] == PushStationOf(list[i]) {
        ConnectorFieldsIff(out[i].connectors.value, list[i].connectors);
      }
    }
    if out == PushStationsOf(list) {
      forall i | 0 <= i < |out| ensures ConnectorFields(out[i].connectors.value, list[i].connectors) {
        ConnectorFieldsIff(out[i].connectors.value, list[i].connectors);
      }
    }
  }

  // ----- the JSON text, name by name -----

  ghost predicate IsConnectorObject(j: Json, c: Connector) {
    j == JObject([
      Member("status", JString(c.status)), Member("erroInfo", JString(c.erroInfo)),
      Member("powerMax", JInt(c.powerMax)), Member("errorCode", JString(c.errorCode)),
      Member("connectorId", JInt(c.connectorId)), Member("connectorPk", JInt(c.connectorPk)),
      Member("connectorType", JString(c.connectorType))])
  }

  ghost predicate IsConnectorArray(j: Json, connectors: seq<Connector>) {
    && j.JArray? && |j.items| == |connectors|
    && forall i :: 0 <= i < |connectors| ==> IsConnectorObject(j.items[i], connectors[i])
  }

  ghost predicate IsStationObject(j: Json, cp: ChargePoint) {
    && j.JObject? && |j.members| == 8
    && j.members[0] == Member("chargeBoxId", JString(cp.info.chargeBoxId))
    && j.members[1] == Member("description", JString(cp.info.description))
    && j.members[2] == Member("ocppProtocol", JString(cp.info.ocppProtocol))
    && j.members[3] == Member("chargePointModel", JString(cp.info.chargePointModel))
    && j.members[4] == Member("chargePointVendor", JString(cp.info.chargePointVendor))
    && j.members[5] == Member("uuid", JString(cp.info.uuid))
    && j.members[6] == Member("fwVersion", JString(cp.info.fwVersion))
    && j.members[7].name == "connectors" && IsConnectorArray(j.members[7].value, cp.connectors)
  }

  ghost predicate IsFrameObject(j: Json, user: string, time: string, list: seq<ChargePoint>) {
    && j.JObject? && |j.members| == 3
    && j.members[0] == Member("userId", JString(user))
    && j.members[1].name == "stations" && j.members[1].value.JArray? && |j.members[1].value.items| == |list|
    && (forall i :: 0 <= i < |list| ==> IsStationObject(j.members[1].value.items[i], list[i]))
    && j.members[2] == Member("timestamp", JString(time))
  }

  /** What a frame shows: read as JSON, an object with these members in this order; read as a payload, the
      user, the time, and every station and connector field by field. */
  ghost predicate Shows(body: string, user: string, time: string, list: seq<ChargePoint>) {
    && Decode(body).Some? && IsFrameObject(Decode(body).value, user, time, list)
    && DecodePayload(body).Some?
    && var p := DecodePayload(body).value;
       p.userId == user && p.timestamp == time && StationFields(p.stations, list)
  }

  lemma ConnectorArray(connectors: seq<Connector>)
    ensures IsConnectorArray(ConnectorsJson(Some(PushConnectorsOf(connectors))), connectors)
  {
  }

  lemma StationObject(cp: ChargePoint)
    ensures IsStationObject(StationJson(PushStationOf(cp)), cp)
  {
    ConnectorArray(cp.connectors);
  }

  lemma FrameObject(user: string, time: string, list: seq<ChargePoint>)
    ensures IsFrameObject(PayloadJson(PushPayload(user, time, PushStationsOf(list))), user, time, list)
  {
    forall i | 0 <= i < |list|
      ensures IsStationObject(StationsJson(PushStationsOf(list))[i], list[i])
    {
      StationObject(list[i]);
    }
  }

  lemma FrameShows(user: string, time: string, list: seq<ChargePoint>)
    ensures Shows(Encode(PayloadJson(PushPayload(user, time, PushStationsOf(list)))), user, time, list)
  {
    var p := PushPayload(user, time, PushStationsOf(list));
    RoundTrip(PayloadJson(p));
    PayloadRoundTrip(p);
    FrameObject(user, time, list);
    StationFieldsIff(p.stations, list);
  }

  /** Copies the list, read from its storage, into payload stations; no connector list is nil. */
  method FlattenToStationsPushStations(list: seq<StationRec>) returns (out: seq<PushStation>)
    ensures StationFields(out, View(list))
    ensures out == PushStationsOf(View(list))
  {
    out := [];
    ghost var v := View(list);
    for i := 0 to |list|
      invariant |out| == i
      invariant forall k :: 0 <= k < i ==> out[k] == PushStationOf(v[k])
    {
      var info, source := list[i].info, list[i].connectors;
      var conns := [];
      for j := 0 to source.Length
        invariant |conns| == j
        invariant forall k :: 0 <= k < j ==> conns[k] == PushConnectorOf(v[i].connectors[k])
      {
        conns := conns + [PushConnectorOf(source[j])];
      }
      assert conns == PushConnectorsOf(v[i].connectors);
      out := out + [PushStation(info.chargeBoxId, info.description, info.ocppProtocol, info.chargePointModel,
                                info.chargePointVendor, info.uuid, info.fwVersion, Some(conns))];
    }
    assert out == PushStationsOf(v);
    StationFieldsIff(out, v);
  }

  /** The payload text for a list. */
  method FrameText(userId: string, now: string, list: seq<StationRec>) returns (body: string)
    ensures Shows(body, userId, now, old(View(list)))
    ensures body == Encode(PayloadJson(PushPayload(userId, now, PushStationsOf(old(View(list))))))
  {
    ghost var value := View(list);
    var stations := FlattenToStationsPushStations(list);
    ViewUnchanged(list);
    assert stations == PushStationsOf(value);
    FrameShows(userId, now, value);
    body := BuildStationsPushPayloadJson(PushPayload(userId, now, stations));
  }

  lemma PushConnectorsInjective(a: seq<Connector>, b: seq<Connector>)
    requires PushConnectorsOf(a) == PushConnectorsOf(b)
    ensures a == b
  {
    var p, q := PushConnectorsOf(a), PushConnectorsOf(b);
    assert |a| == |p| == |q| == |b|;
    forall j | 0 <= j < |a| ensures a[j] == b[j] {
      assert p[j] == PushConnectorOf(a[j]) && q[j] == PushConnectorOf(b[j]);
    }
  }

  /** The payload stations determine the station list, in order and with every connector. */
  lemma PushStationsInjective(a: seq<ChargePoint>, b: seq<ChargePoint>)
    requires PushStationsOf(a) == PushStationsOf(b)
    ensures a == b
  {
    var p, q := PushStationsOf(a), PushStationsOf(b);
    assert |a| == |p| == |q| == |b|;
    forall i | 0 <= i < |a| ensures a[i] == b[i] {
      assert p[i] == PushStationOf(a[i]) && q[i] == PushStationOf(b[i]);
      PushConnectorsInjective(a[i].connectors, b[i].connectors);
    }
  }

  /** End to end: what a client decodes from a pushed frame names the user, the time and exactly the
      stations and connectors of the list the frame was made from. */
  lemma FrameShowsList(user: string, time: string, a: seq<ChargePoint>, b: seq<ChargePoint>)
    ensures DecodePayload(Encode(PayloadJson(PushPayload(user, time, PushStationsOf(a)))))
         == DecodePayload(Encode(PayloadJson(PushPayload(user, time, PushStationsOf(b)))))
        <==> a == b
  {
    PayloadRoundTrip(PushPayload(user, time, PushStationsOf(a)));
    PayloadRoundTrip(PushPayload(user, time, PushStationsOf(b)));
    if PushStationsOf(a) == PushStationsOf(b) {
      PushStationsInjective(a, b);
    }
  }
}
