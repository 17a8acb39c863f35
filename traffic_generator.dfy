/**
 * The traffic generator: it picks a random `waze_` event from the database,
 * asks the cache for it, keeps per-distribution statistics in a global
 * dictionary, and every ten minutes switches between its Poisson and
 * normal arrival patterns. The HTTP reply, its timing, the clock and the
 * random choice are parameters; the sleeps are left out.
 */
module TrafficGen {
  import opened Optional
  import opened Strings
  import opened Documents
  import EventIds

  /** The two arrival patterns; the source names them "poisson" and "normal". */
  datatype Distribution = Poisson | Normal

  function Alternate(d: Distribution): (o: Distribution)
    ensures o != d
  {
    if d == Poisson then Normal else Poisson
  }

  /** The statistics kept for one distribution. */
  datatype DistStats = DistStats(queries: nat, hits: nat, misses: nat, errors: nat, responseTimeSum: real)

  const NoStats := DistStats(0, 0, 0, 0, 0.0)

  /** The body of a reply: not JSON, JSON that is not an object, or an object with its `source` if a string. */
  datatype Body = NotJson | NotAnObject | JsonObject(source: Option<string>)

  /** The outcome of `requests.get`: it raised, or a reply came back. */
  datatype Reply = Raised | Response(status: int, body: Body)

  /** `send_query` returns True: a 200 reply whose body is a JSON object. */
  predicate Answered(reply: Reply) {
    reply.Response? && reply.status == 200 && reply.body.JsonObject?
  }

  /** The reply says the cache served it. */
  predicate FromCache(reply: Reply) {
    Answered(reply) && reply.body.source == Some("cache")
  }

  /** The statistics `send_query` leaves after one request with a non-empty id. */
  function Record(s: DistStats, reply: Reply, elapsed: real): DistStats {
    match reply
    case Raised => s.(errors := s.errors + 1)
    case Response(status, body) =>
      var counted := s.(queries := s.queries + 1, responseTimeSum := s.responseTimeSum + elapsed);
      if status != 200 || !body.JsonObject? then counted.(errors := counted.errors + 1)
      else if body.source == Some("cache") then counted.(hits := counted.hits + 1)
      else counted
  }

  /**
   * What one request does to the counters: a reply that came back is a
   * query, a cache-served answer is also a hit, anything but an answer is an
   * error, and misses are never counted. So hits never outnumber queries.
   */
  lemma RecordAccounting(s: DistStats, reply: Reply, elapsed: real)
    ensures var r := Record(s, reply, elapsed);
      && r.queries == s.queries + (if reply.Response? then 1 else 0)
      && r.hits == s.hits + (if FromCache(reply) then 1 else 0)
      && r.errors == s.errors + (if Answered(reply) then 0 else 1)
      && r.misses == s.misses
      && (s.hits <= s.queries ==> r.hits <= r.queries)
  {
  }

  /** A 200 reply whose body is not a JSON object counts as a query and as an error. */
  lemma BadBodyCountsTwice(s: DistStats, body: Body, elapsed: real)
    requires !body.JsonObject?
    ensures Record(s, Response(200, body), elapsed).queries == s.queries + 1
    ensures Record(s, Response(200, body), elapsed).errors == s.errors + 1
  {
  }

  /** `e.get('uuid', '')`: the text of the field, "" when missing, None when it holds a non-string (`startswith` raises). */
  function UuidText(d: Doc): Option<string> {
    if "uuid" !in d then Some("")
    else match d["uuid"]
      case Text(s) => Some(s)
      case _ => None
  }

  /** The uuids starting with `waze_`, in collection order; None when some document's uuid is not a string. */
  function WazeUuids(docs: seq<Doc>): Option<seq<string>> {
    if docs == [] then Some([])
    else
      var n := |docs| - 1;
      var before := WazeUuids(docs[..n]);
      var u := UuidText(docs[n]);
      if before.None? || u.None? then None
      else if StartsWith(u.value, EventIds.WazeIdPrefix) then Some(before.value + [u.value])
      else before
  }

  /** The candidates are exactly the documents' `waze_` uuids, and they exist unless some uuid is not a string. */
  lemma {:induction false} WazeUuidsAre(docs: seq<Doc>)
    ensures WazeUuids(docs).Some? <==> forall k :: 0 <= k < |docs| ==> UuidText(docs[k]).Some?
    ensures WazeUuids(docs).Some? ==> forall u ::
      u in WazeUuids(docs).value <==>
        StartsWith(u, EventIds.WazeIdPrefix) && exists k :: 0 <= k < |docs| && FieldOf(docs[k], "uuid") == Text(u)
  {
    if docs != [] {
      var n := |docs| - 1;
      WazeUuidsAre(docs[..n]);
      assert forall k :: 0 <= k < n ==> docs[..n][k] == docs[k];
      if WazeUuids(docs).Some? {
        forall u | StartsWith(u, EventIds.WazeIdPrefix) && exists k :: 0 <= k < |docs| && FieldOf(docs[k], "uuid") == Text(u)
          ensures u in WazeUuids(docs).value
        {
          var k :| 0 <= k < |docs| && FieldOf(docs[k], "uuid") == Text(u);
          if k < n {
            assert FieldOf(docs[..n][k], "uuid") == Text(u);
          }
        }
        forall u | u in WazeUuids(docs).value
          ensures exists k :: 0 <= k < |docs| && FieldOf(docs[k], "uuid") == Text(u)
        {
          if u !in WazeUuids(docs[..n]).value {
            assert FieldOf(docs[n], "uuid") == Text(u);
          } else {
            var k :| 0 <= k < n && FieldOf(docs[..n][k], "uuid") == Text(u);
            assert FieldOf(docs[k], "uuid") == Text(u);
          }
        }
      }
    }
  }

  /**
   * `get_random_event_id(collection)`: None for an empty collection, when
   * no uuid starts with `waze_`, or when reading a uuid raises; otherwise
   * the candidate `random.choice` draws, given as `pick`.
   */
  function GetRandomEventId(docs: seq<Doc>, pick: nat): (id: Option<string>)
    ensures id.Some? ==> StartsWith(id.value, EventIds.WazeIdPrefix)
    ensures id.Some? ==> exists k :: 0 <= k < |docs| && FieldOf(docs[k], "uuid") == Text(id.value)
    ensures id.None? <==> docs == [] || WazeUuids(docs).None? || WazeUuids(docs).value == []
  {
    WazeUuidsAre(docs);
    if docs == [] then None
    else
      var ids := WazeUuids(docs);
      if ids.None? || ids.value == [] then None
      else
        assert ids.value[pick % |ids.value|] in ids.value;
        Some(ids.value[pick % |ids.value|])
  }

  /** Every `waze_` event can be drawn. */
  lemma EveryWazeEventDrawable(docs: seq<Doc>, u: string)
    requires forall k :: 0 <= k < |docs| ==> UuidText(docs[k]).Some?
    requires StartsWith(u, EventIds.WazeIdPrefix)
    requires exists k :: 0 <= k < |docs| && FieldOf(docs[k], "uuid") == Text(u)
    ensures exists pick: nat :: GetRandomEventId(docs, pick) == Some(u)
  {
    WazeUuidsAre(docs);
    var ids := WazeUuids(docs).value;
    assert u in ids;
    var i :| 0 <= i < |ids| && ids[i] == u;
    assert i % |ids| == i;
    assert GetRandomEventId(docs, i) == Some(u);
  }

  /** The cache accepts every id the generator draws that has no newline in it. */
  lemma DrawnIdsPassValidation(docs: seq<Doc>, pick: nat)
    requires GetRandomEventId(docs, pick).Some?
    requires EventIds.NoNewline(GetRandomEventId(docs, pick).value)
    ensures EventIds.ValidEventId(GetRandomEventId(docs, pick))
  {
    EventIds.ValidWithoutNewline(GetRandomEventId(docs, pick).value);
  }

  /** The generator's mutable state: the global `stats` dictionary and the locals of `main`'s loop. */
  class Generator {
    var poisson: DistStats
    var normal: DistStats
    var totalQueries: nat
    var current: Distribution
    var switchTime: real
    var queryCount: nat

    /** The totals agree with the per-distribution counts; hits never exceed queries; misses stay 0. */
    ghost predicate Valid()
      reads this
    {
      && totalQueries == poisson.queries + normal.queries
      && poisson.hits <= poisson.queries && normal.hits <= normal.queries
      && poisson.misses == 0 && normal.misses == 0
    }

    function StatsOf(d: Distribution): DistStats
      reads this
    {
      if d == Poisson then poisson else normal
    }

    /** The statistics at start-up and `main`'s loop variables as set at time `now`. */
    constructor (now: real)
      ensures Valid()
      ensures poisson == NoStats && normal == NoStats && totalQueries == 0
      ensures current == Poisson && switchTime == now + 600.0 && queryCount == 0
    {
      poisson, normal, totalQueries := NoStats, NoStats, 0;
      current, switchTime, queryCount := Poisson, now + 600.0, 0;
    }

    method SetStats(d: Distribution, s: DistStats)
      modifies this`poisson, this`normal
      ensures StatsOf(d) == s && StatsOf(Alternate(d)) == old(StatsOf(Alternate(d)))
    {
      if d == Poisson {
        poisson := s;
      } else {
        normal := s;
      }
    }

    /** `send_query(event_id, distribution_type)`, given the reply and the time it took. */
    method SendQuery(eventId: Option<string>, dist: Distribution, reply: Reply, elapsed: real) returns (ok: bool)
      requires Valid()
      modifies this`poisson, this`normal, this`totalQueries
      ensures Valid()
      ensures ok <==> eventId.Some? && eventId.value != "" && Answered(reply)
      ensures eventId.None? || eventId.value == "" ==>
        poisson == old(poisson) && normal == old(normal) && totalQueries == old(totalQueries)
      ensures eventId.Some? && eventId.value != "" ==>
        && StatsOf(dist) == Record(old(StatsOf(dist)), reply, elapsed)
        && StatsOf(Alternate(dist)) == old(StatsOf(Alternate(dist)))
        && totalQueries == old(totalQueries) + (if reply.Response? then 1 else 0)
    {
      if eventId.None? || eventId.value == "" {
        return false;
      }
      RecordAccounting(StatsOf(dist), reply, elapsed);
      var s := StatsOf(dist);
      match reply {
        case Raised =>
          SetStats(dist, s.(errors := s.errors + 1));
          return false;
        case Response(status, body) =>
          s := s.(queries := s.queries + 1, responseTimeSum := s.responseTimeSum + elapsed);
          totalQueries := totalQueries + 1;
          if status == 200 && body.JsonObject? {
            if body.source == Some("cache") {
              s := s.(hits := s.hits + 1);
            }
            SetStats(dist, s);
            return true;
          }
          // a non-200 status, or a body `.json()` or `.get` raises on
          SetStats(dist, s.(errors := s.errors + 1));
          return false;
      }
    }

    /** The check at the top of `main`'s loop: at or after the switch time, flip and re-arm ten minutes ahead. */
    method SwitchIfDue(now: real)
      modifies this`current, this`switchTime
      ensures now < switchTime
      ensures old(switchTime) <= now ==> current == Alternate(old(current)) && switchTime == now + 600.0
      ensures now < old(switchTime) ==> current == old(current) && switchTime == old(switchTime)
    {
      if now >= switchTime {
        current := if current == Poisson then Normal else Poisson;
        switchTime := now + 600.0;
      }
    }

    /** `generate_traffic(distribution_type, collection)` after its sleep. */
    method GenerateTraffic(dist: Distribution, docs: seq<Doc>, pick: nat, reply: Reply, elapsed: real)
      returns (ok: bool)
      requires Valid()
      modifies this`poisson, this`normal, this`totalQueries
      ensures Valid()
      ensures ok <==> GetRandomEventId(docs, pick).Some? && GetRandomEventId(docs, pick).value != "" && Answered(reply)
      ensures var id := GetRandomEventId(docs, pick);
        && (id.Some? && id.value != "" ==>
              && StatsOf(dist) == Record(old(StatsOf(dist)), reply, elapsed)
              && StatsOf(Alternate(dist)) == old(StatsOf(Alternate(dist)))
              && totalQueries == old(totalQueries) + (if reply.Response? then 1 else 0))
        && (id.None? || id.value == "" ==>
              poisson == old(poisson) && normal == old(normal) && totalQueries == old(totalQueries))
    {
      var eventId := GetRandomEventId(docs, pick);
      if eventId.Some? && eventId.value != "" {
        ok := SendQuery(eventId, dist, reply, elapsed);
      } else {
        ok := false;
      }
    }

    /** One pass of `main`'s loop at time `now`: switch if due, send one query, count it if it succeeded. */
    method MainStep(now: real, docs: seq<Doc>, pick: nat, reply: Reply, elapsed: real)
      requires Valid()
      modifies this
      ensures Valid()
      ensures now < switchTime
      ensures current == (if old(switchTime) <= now then Alternate(old(current)) else old(current))
      ensures switchTime == (if old(switchTime) <= now then now + 600.0 else old(switchTime))
      ensures var id, d := GetRandomEventId(docs, pick), current;
        && (id.Some? && id.value != "" ==>
              && StatsOf(d) == Record(old(StatsOf(d)), reply, elapsed)
              && StatsOf(Alternate(d)) == old(StatsOf(Alternate(d)))
              && totalQueries == old(totalQueries) + (if reply.Response? then 1 else 0))
        && (id.None? || id.value == "" ==>
              poisson == old(poisson) && normal == old(normal) && totalQueries == old(totalQueries))
      ensures queryCount == old(queryCount) + (if GetRandomEventId(docs, pick).Some? && Answered(reply) then 1 else 0)
    {
      SwitchIfDue(now);
      var ok := GenerateTraffic(current, docs, pick, reply, elapsed);
      if ok {
        queryCount := queryCount + 1;
      }
    }
  }
}
