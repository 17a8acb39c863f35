/**
 * How the scraper turns the Waze live-map answer for one quadrant into
 * event records (`map_type` and `process_waze_data`): each alert and each
 * jam gives at most one event, alerts first; its type, coordinates, comuna,
 * description and id are chosen from the item's fields with the quadrant's
 * centre and fresh random ids as fall-backs.
 */
module WazeRecords {
  import opened Optional
  import opened Strings
  import opened Comunas
  import opened Quadrants

  // ---- map_type ----

  const Accident := "accident"
  const TrafficJam := "traffic_jam"
  const Hazard := "hazard"
  const RoadClosed := "road_closed"
  const Police := "police"

  /** The categories events are filed under. */
  const Categories: set<string> := {Accident, TrafficJam, Hazard, RoadClosed, Police}

  /** `type_mapping`: the Waze alert types the scraper knows. */
  function TypeMapping(): map<string, string> {
    map[
      "ACCIDENT" := Accident,
      "JAM" := TrafficJam,
      "WEATHERHAZARD" := Hazard,
      "HAZARD" := Hazard,
      "ROAD_CLOSED" := RoadClosed,
      "CONSTRUCTION" := RoadClosed,
      "MISC" := Hazard,
      "POLICE" := Police
    ]
  }

  /**
   * `map_type(waze_type)`: the upper-cased type looked up in the table,
   * "hazard" when unknown; a type that is not a string (`None` here) is
   * looked up as "".
   */
  function MapType(wazeType: Option<string>): (category: string)
    ensures category in Categories
  {
    var normalized := if wazeType.Some? then Upper(wazeType.value) else "";
    if normalized in TypeMapping() then TypeMapping()[normalized] else Hazard
  }

  /** The lookup ignores case: spelling a type in any case gives its category. */
  lemma MapTypeIgnoresCase(s: string)
    ensures MapType(Some(s)) == MapType(Some(Upper(s)))
  {
    UpperIdempotent(s);
  }

  /** A string is an accident exactly when it spells "ACCIDENT" in some mix of cases. */
  lemma AccidentSpellings(s: string)
    ensures MapType(Some(s)) == Accident <==>
      |s| == 8 && forall i :: 0 <= i < 8 ==> s[i] == "ACCIDENT"[i] || s[i] as int == "ACCIDENT"[i] as int + 32
  {
    UpperMatchesWord(s, "ACCIDENT");
    var u := Upper(s);
    if u in TypeMapping() && TypeMapping()[u] == Accident {
      assert u == "ACCIDENT";
    }
  }

  /** Unknown and non-string types fall back to "hazard". */
  lemma UnknownIsHazard(s: string)
    requires Upper(s) !in TypeMapping()
    ensures MapType(Some(s)) == Hazard && MapType(None) == Hazard
  {
  }

  /** `str.title` of each category, as it appears in alert descriptions. */
  lemma CategoryTitles()
    ensures Title(Accident) == "Accident"
    ensures Title(TrafficJam) == "Traffic_Jam"
    ensures Title(RoadClosed) == "Road_Closed"
  {
    AccidentTitle();
    TrafficJamTitle();
    RoadClosedTitle();
  }

  lemma AccidentTitle()
    ensures Title(Accident) == "Accident"
  {
    forall i | 0 <= i < |Accident| { TitleFromAt(Accident, false, i); }
  }

  lemma TrafficJamTitle()
    ensures Title(TrafficJam) == "Traffic_Jam"
  {
    forall i | 0 <= i < |TrafficJam| { TitleFromAt(TrafficJam, false, i); }
  }

  lemma RoadClosedTitle()
    ensures Title(RoadClosed) == "Road_Closed"
  {
    forall i | 0 <= i < |RoadClosed| { TitleFromAt(RoadClosed, false, i); }
  }

  // ---- The Waze answer ----

  /** A JSON value used as an id: Waze sends strings, integers or null. */
  datatype IdValue = IdText(s: string) | IdNumber(n: int) | IdNull

  /** Python truthiness of an optional id (`None` for a missing key). */
  predicate Truthy(v: Option<IdValue>) {
    v.Some? && match v.value
      case IdText(s) => s != ""
      case IdNumber(n) => n != 0
      case IdNull => false
  }

  /** `f"{v}"` for a truthy id. */
  function IdString(v: IdValue): string {
    match v
    case IdText(s) => s
    case IdNumber(n) => if n < 0 then "-" + NatToString(-n) else NatToString(n)
    case IdNull => "None"
  }

  /** `alert["location"]`: missing, an object with optional `x`/`y`, or something else (which raises). */
  datatype Location = NoLocation | Location(x: Option<real>, y: Option<real>) | BadLocation

  /** One entry of `alerts`; anything that is not an object raises and is skipped. */
  datatype Alert =
    | Alert(wazeType: Option<string>, location: Location, reportDescription: Option<string>,
            street: Option<string>, id: Option<IdValue>, uuid: Option<IdValue>)
    | NotAnAlert

  /** One point of a jam's `line`. */
  datatype LinePoint = Point(x: Option<real>, y: Option<real>) | NotAPoint

  /** One entry of `jams`; `line` is `None` when missing or not a list. */
  datatype Jam =
    | Jam(line: Option<seq<LinePoint>>, street: Option<string>, uuid: Option<IdValue>, jamId: Option<IdValue>)
    | NotAJam

  /** The decoded answer; a list is `None` when its key is missing or not a list. */
  datatype WazeData = WazeData(alerts: Option<seq<Alert>>, jams: Option<seq<Jam>>)

  /** An event record as the scraper builds it (timestamp and source left out). */
  datatype Event = Event(uuid: string, kind: string, lat: real, lon: real, locationDesc: string,
                         description: string, wazeId: IdValue)

  /** A non-empty optional text (`"key" in d and d["key"]`). */
  predicate Present(s: Option<string>) {
    s.Some? && s.value != ""
  }

  const WazePrefix := "waze_"

  /**
   * The event id: the first truthy of two Waze ids with "waze_" in front,
   * or a fresh random id when neither is truthy.
   */
  function EventUuid(first: Option<IdValue>, second: Option<IdValue>, freshId: string): string {
    var chosen := if Truthy(first) then first else second;
    if Truthy(chosen) then WazePrefix + IdString(chosen.value) else freshId
  }

  /** The event an alert gives, if it does not raise. */
  function AlertEvent(a: Alert, centre: Quadrant, freshId: string): Option<Event> {
    if a.NotAnAlert? || a.location.BadLocation? then None
    else
      var kind := MapType(a.wazeType);
      var lat := if a.location.Location? then a.location.y.GetOr(centre.lat) else centre.lat;
      var lon := if a.location.Location? then a.location.x.GetOr(centre.lon) else centre.lon;
      var comuna := ComunaFromCoordinates(lat, lon);
      var description :=
        if Present(a.reportDescription) then a.reportDescription.value
        else if Present(a.street) then Title(kind) + " en " + a.street.value
        else Title(kind) + " en " + comuna;
      Some(Event(EventUuid(a.id, a.uuid, freshId), kind, lat, lon, comuna, description,
                 a.id.GetOr(IdText(""))))
  }

  /** The event a jam gives, if it does not raise. */
  function JamEvent(j: Jam, centre: Quadrant, freshId: string): Option<Event> {
    if j.NotAJam? || (j.line.Some? && |j.line.value| > 0 && j.line.value[0].NotAPoint?) then None
    else
      var first := if j.line.Some? && |j.line.value| > 0 then Some(j.line.value[0]) else None;
      var lat := if first.Some? then first.value.y.GetOr(centre.lat) else centre.lat;
      var lon := if first.Some? then first.value.x.GetOr(centre.lon) else centre.lon;
      var comuna := ComunaFromCoordinates(lat, lon);
      var description :=
        if Present(j.street) then "Congestión en " + j.street.value
        else "Congestión de tráfico en " + comuna;
      Some(Event(EventUuid(j.uuid, j.jamId, freshId), TrafficJam, lat, lon, comuna, description,
                 j.jamId.GetOr(IdText(""))))
  }

  function AsSeq(e: Option<Event>): seq<Event> {
    if e.Some? then [e.value] else []
  }

  /** The events of the first alerts, each with its fresh id. */
  function AlertEvents(alerts: seq<Alert>, centre: Quadrant, ids: seq<string>): seq<Event>
    requires |ids| == |alerts|
  {
    if alerts == [] then []
    else
      var n := |alerts| - 1;
      AlertEvents(alerts[..n], centre, ids[..n]) + AsSeq(AlertEvent(alerts[n], centre, ids[n]))
  }

  function JamEvents(jams: seq<Jam>, centre: Quadrant, ids: seq<string>): seq<Event>
    requires |ids| == |jams|
  {
    if jams == [] then []
    else
      var n := |jams| - 1;
      JamEvents(jams[..n], centre, ids[..n]) + AsSeq(JamEvent(jams[n], centre, ids[n]))
  }

  /** The alert events of one more alert. */
  lemma AlertEventsSnoc(alerts: seq<Alert>, centre: Quadrant, ids: seq<string>, k: nat)
    requires k < |alerts| && |ids| >= |alerts|
    ensures AlertEvents(alerts[..k + 1], centre, ids[..k + 1])
      == AlertEvents(alerts[..k], centre, ids[..k]) + AsSeq(AlertEvent(alerts[k], centre, ids[k]))
  {
    assert alerts[..k + 1][..k] == alerts[..k];
    assert ids[..k + 1][..k] == ids[..k];
  }

  /** The jam events of one more jam. */
  lemma JamEventsSnoc(jams: seq<Jam>, centre: Quadrant, ids: seq<string>, k: nat)
    requires k < |jams| && |ids| >= |jams|
    ensures JamEvents(jams[..k + 1], centre, ids[..k + 1])
      == JamEvents(jams[..k], centre, ids[..k]) + AsSeq(JamEvent(jams[k], centre, ids[k]))
  {
    assert jams[..k + 1][..k] == jams[..k];
    assert ids[..k + 1][..k] == ids[..k];
  }

  /**
   * `process_waze_data(data, quadrant)`: the events of the alerts, then
   * those of the jams. `freshIds` holds the `uuid4` each item would draw,
   * alerts first. The comuna summary it logs is not returned.
   */
  method ProcessWazeData(data: WazeData, quadrant: Quadrant, freshIds: seq<string>) returns (events: seq<Event>)
    requires |freshIds| == |data.alerts.GetOr([])| + |data.jams.GetOr([])|
    ensures var alerts := data.alerts.GetOr([]);
      events == AlertEvents(alerts, quadrant, freshIds[..|alerts|])
                + JamEvents(data.jams.GetOr([]), quadrant, freshIds[|alerts|..])
  {
    events := [];
    var alerts := data.alerts.GetOr([]);
    var k := 0;
    while k < |alerts|
      invariant 0 <= k <= |alerts|
      invariant events == AlertEvents(alerts[..k], quadrant, freshIds[..k])
    {
      var e := AlertEvent(alerts[k], quadrant, freshIds[k]);
      if e.Some? {
        events := events + [e.value];
      }
      AlertEventsSnoc(alerts, quadrant, freshIds, k);
      k := k + 1;
    }
    assert alerts[..k] == alerts;
    var alertEvents := events;
    var jams := data.jams.GetOr([]);
    var jamIds := freshIds[|alerts|..];
    k := 0;
    while k < |jams|
      invariant 0 <= k <= |jams|
      invariant events == alertEvents + JamEvents(jams[..k], quadrant, jamIds[..k])
    {
      var e := JamEvent(jams[k], quadrant, jamIds[k]);
      if e.Some? {
        events := events + [e.value];
      }
      JamEventsSnoc(jams, quadrant, jamIds, k);
      k := k + 1;
    }
    assert jams[..k] == jams;
    assert jamIds[..k] == jamIds;
  }

  // ---- Properties of the shaped events ----

  /**
   * An item with a truthy Waze id gets "waze_" and that id; one without
   * gets its fresh id unchanged. So, as long as fresh ids do not themselves
   * start with "waze_", the prefix marks exactly the events Waze named.
   */
  lemma EventUuidPrefix(first: Option<IdValue>, second: Option<IdValue>, freshId: string)
    ensures Truthy(first) ==> EventUuid(first, second, freshId) == WazePrefix + IdString(first.value)
    ensures !Truthy(first) && Truthy(second) ==> EventUuid(first, second, freshId) == WazePrefix + IdString(second.value)
    ensures !Truthy(first) && !Truthy(second) ==> EventUuid(first, second, freshId) == freshId
    ensures !StartsWith(freshId, WazePrefix) ==>
      (StartsWith(EventUuid(first, second, freshId), WazePrefix) <==> Truthy(first) || Truthy(second))
  {
    var u := EventUuid(first, second, freshId);
    if Truthy(first) || Truthy(second) {
      assert u[..|WazePrefix|] == WazePrefix;
    }
  }

  /**
   * An alert is kept unless it is not an object or its location is not one;
   * its type is mapped to a category, its comuna is the one of its
   * coordinates, each of which defaults to the quadrant's centre, its
   * description is the report text, else "<Type> en <street>", else
   * "<Type> en <comuna>", and `waze_id` keeps its `id`.
   */
  lemma AlertEventShape(a: Alert, centre: Quadrant, freshId: string)
    ensures AlertEvent(a, centre, freshId).None? <==> a.NotAnAlert? || a.location.BadLocation?
    ensures AlertEvent(a, centre, freshId).Some? ==>
      var e := AlertEvent(a, centre, freshId).value;
      && e.kind == MapType(a.wazeType) && e.kind in Categories
      && e.locationDesc == ComunaFromCoordinates(e.lat, e.lon) && e.locationDesc in ComunaNames
      && (a.location.NoLocation? ==> e.lat == centre.lat && e.lon == centre.lon)
      && (a.location.Location? && a.location.y.Some? ==> e.lat == a.location.y.value)
      && (a.location.Location? && a.location.y.None? ==> e.lat == centre.lat)
      && (a.location.Location? && a.location.x.Some? ==> e.lon == a.location.x.value)
      && (a.location.Location? && a.location.x.None? ==> e.lon == centre.lon)
      && (Present(a.reportDescription) ==> e.description == a.reportDescription.value)
      && (!Present(a.reportDescription) && Present(a.street) ==>
            e.description == Title(e.kind) + " en " + a.street.value)
      && (!Present(a.reportDescription) && !Present(a.street) ==>
            e.description == Title(e.kind) + " en " + e.locationDesc)
      && e.uuid == EventUuid(a.id, a.uuid, freshId)
      && e.wazeId == a.id.GetOr(IdText(""))
  {
  }

  /**
   * A jam is kept unless it is not an object or the first point of its line
   * is not one; it is always a "traffic_jam", each coordinate comes from the
   * first point of a non-empty line, else the quadrant's centre, its comuna
   * is the one of those coordinates, and its id
   * prefers `uuid` to `jamId` while `waze_id` keeps `jamId`.
   */
  lemma JamEventShape(j: Jam, centre: Quadrant, freshId: string)
    ensures JamEvent(j, centre, freshId).Some? ==>
      var e := JamEvent(j, centre, freshId).value;
      && e.kind == TrafficJam
      && e.locationDesc == ComunaFromCoordinates(e.lat, e.lon) && e.locationDesc in ComunaNames
      && ((j.line.None? || j.line.value == []) ==> e.lat == centre.lat && e.lon == centre.lon)
      && (j.line.Some? && j.line.value != [] ==>
            var first := j.line.value[0];
            && (first.y.Some? ==> e.lat == first.y.value)
            && (first.y.None? ==> e.lat == centre.lat)
            && (first.x.Some? ==> e.lon == first.x.value)
            && (first.x.None? ==> e.lon == centre.lon))
      && (Present(j.street) ==> e.description == "Congestión en " + j.street.value)
      && (!Present(j.street) ==> e.description == "Congestión de tráfico en " + e.locationDesc)
      && e.uuid == EventUuid(j.uuid, j.jamId, freshId)
      && e.wazeId == j.jamId.GetOr(IdText(""))
    ensures JamEvent(j, centre, freshId).None? <==>
      j.NotAJam? || (j.line.Some? && j.line.value != [] && j.line.value[0].NotAPoint?)
  {
  }

  /** Every alert gives at most one event, and every event's type is a category. */
  lemma {:induction false} AlertEventsBound(alerts: seq<Alert>, centre: Quadrant, ids: seq<string>)
    requires |ids| == |alerts|
    ensures |AlertEvents(alerts, centre, ids)| <= |alerts|
    ensures forall e :: e in AlertEvents(alerts, centre, ids) ==> e.kind in Categories && e.locationDesc in ComunaNames
  {
    if alerts != [] {
      var n := |alerts| - 1;
      AlertEventsBound(alerts[..n], centre, ids[..n]);
      AlertEventShape(alerts[n], centre, ids[n]);
    }
  }

  /** Every jam gives at most one event, and each of them is a traffic jam. */
  lemma {:induction false} JamEventsBound(jams: seq<Jam>, centre: Quadrant, ids: seq<string>)
    requires |ids| == |jams|
    ensures |JamEvents(jams, centre, ids)| <= |jams|
    ensures forall e :: e in JamEvents(jams, centre, ids) ==> e.kind == TrafficJam && e.locationDesc in ComunaNames
  {
    if jams != [] {
      var n := |jams| - 1;
      JamEventsBound(jams[..n], centre, ids[..n]);
      JamEventShape(jams[n], centre, ids[n]);
    }
  }

  /** Well-formed items are never dropped: one event per alert and per jam. */
  lemma {:induction false} WellFormedItemsAllKept(data: WazeData, centre: Quadrant, ids: seq<string>)
    requires |ids| == |data.alerts.GetOr([])| + |data.jams.GetOr([])|
    requires forall a :: a in data.alerts.GetOr([]) ==> a.Alert? && !a.location.BadLocation?
    requires forall j :: j in data.jams.GetOr([]) ==> j.Jam? && (j.line.Some? && j.line.value != [] ==> j.line.value[0].Point?)
    ensures var alerts := data.alerts.GetOr([]);
      |AlertEvents(alerts, centre, ids[..|alerts|]) + JamEvents(data.jams.GetOr([]), centre, ids[|alerts|..])|
        == |alerts| + |data.jams.GetOr([])|
  {
    var alerts := data.alerts.GetOr([]);
    AllAlertsKept(alerts, centre, ids[..|alerts|]);
    AllJamsKept(data.jams.GetOr([]), centre, ids[|alerts|..]);
  }

  lemma {:induction false} AllAlertsKept(alerts: seq<Alert>, centre: Quadrant, ids: seq<string>)
    requires |ids| == |alerts|
    requires forall a :: a in alerts ==> a.Alert? && !a.location.BadLocation?
    ensures |AlertEvents(alerts, centre, ids)| == |alerts|
  {
    if alerts != [] {
      var n := |alerts| - 1;
      assert alerts[n] in alerts;
      AllAlertsKept(alerts[..n], centre, ids[..n]);
    }
  }

  lemma {:induction false} AllJamsKept(jams: seq<Jam>, centre: Quadrant, ids: seq<string>)
    requires |ids| == |jams|
    requires forall j :: j in jams ==> j.Jam? && (j.line.Some? && j.line.value != [] ==> j.line.value[0].Point?)
    ensures |JamEvents(jams, centre, ids)| == |jams|
  {
    if jams != [] {
      var n := |jams| - 1;
      assert jams[n] in jams;
      AllJamsKept(jams[..n], centre, ids[..n]);
    }
  }
}
