/**
 * What the scraper does to its event dictionaries before writing them out:
 * the clean-up loop of `main` gives an event without `uuid` a fresh one and
 * drops `subtype` and `report_count`; `save_to_file` fills a missing `uuid`
 * once more and writes the list as one JSON file. Fresh identifiers
 * (`uuid.uuid4()`, `get_unique_uuid()`) are parameters, and whether the file
 * could be written is a parameter too.
 */
module EventCleanup {
  import opened Optional
  import opened Documents

  /** The fields the clean-up loop deletes. */
  const DroppedFields: set<string> := {"subtype", "report_count"}

  /** `if "uuid" not in event: event["uuid"] = id`. */
  function FillUuid(d: Doc, id: string): Doc {
    if "uuid" in d then d else d["uuid" := Text(id)]
  }

  /** One pass of the clean-up loop of `main` over an event. */
  function CleanUp(d: Doc, id: string): Doc {
    FillUuid(d, id) - DroppedFields
  }

  /**
   * A cleaned event has a `uuid`, its own if it had one and `id` otherwise,
   * has neither dropped field, and keeps every other field as it was.
   */
  lemma CleanUpFields(d: Doc, id: string)
    ensures var r := CleanUp(d, id);
      && "uuid" in r
      && r["uuid"] == (if "uuid" in d then d["uuid"] else Text(id))
      && (forall k :: k in DroppedFields ==> k !in r)
      && (forall k :: k != "uuid" && k !in DroppedFields ==> (k in r <==> k in d))
      && (forall k :: k in d && k != "uuid" && k !in DroppedFields ==> r[k] == d[k])
  {
  }

  /** Cleaning twice changes nothing more, whatever fresh id the second pass holds. */
  lemma CleanUpIdempotent(d: Doc, id: string, id': string)
    ensures CleanUp(CleanUp(d, id), id') == CleanUp(d, id)
  {
    CleanUpFields(d, id);
    var r := CleanUp(d, id);
    assert FillUuid(r, id') == r;
    assert r - DroppedFields == r;
  }

  /** After the clean-up loop, `save_to_file`'s `uuid` fill never fires. */
  lemma FillAfterCleanUp(d: Doc, id: string, id': string)
    ensures FillUuid(CleanUp(d, id), id') == CleanUp(d, id)
  {
    CleanUpFields(d, id);
  }

  /** An event that already has a `uuid` and neither dropped field is left alone. */
  lemma CleanUpKeepsCleanEvent(d: Doc, id: string)
    requires "uuid" in d && "subtype" !in d && "report_count" !in d
    ensures CleanUp(d, id) == d
  {
    assert FillUuid(d, id) == d;
  }

  /** The clean-up loop of `main`; `ids[k]` is the `uuid4` event `k` would get. */
  method CleanUpEvents(events: array<Doc>, ids: seq<string>)
    requires |ids| == events.Length
    modifies events
    ensures forall k :: 0 <= k < events.Length ==> events[k] == CleanUp(old(events[k]), ids[k])
  {
    var k := 0;
    while k < events.Length
      invariant 0 <= k <= events.Length
      invariant forall m :: 0 <= m < k ==> events[m] == CleanUp(old(events[m]), ids[m])
      invariant forall m :: k <= m < events.Length ==> events[m] == old(events[m])
    {
      var event := events[k];
      if "uuid" !in event {
        event := event["uuid" := Text(ids[k])];
      }
      if "subtype" in event {
        event := event - {"subtype"};
      }
      if "report_count" in event {
        event := event - {"report_count"};
      }
      assert event == CleanUp(old(events[k]), ids[k]);
      events[k] := event;
      k := k + 1;
    }
  }

  /**
   * `save_to_file(events)`: an empty list is not written (None); otherwise
   * each event without `uuid` gets `ids[k]` in place, and the list is written
   * when the write succeeds (the content of the file), else nothing is.
   */
  method SaveToFile(events: array<Doc>, ids: seq<string>, writeOk: bool) returns (written: Option<seq<Doc>>)
    requires |ids| == events.Length
    modifies events
    ensures events.Length == 0 ==> written == None
    ensures forall k :: 0 <= k < events.Length ==> events[k] == FillUuid(old(events[k]), ids[k])
    ensures written == (if events.Length > 0 && writeOk then Some(events[..]) else None)
  {
    if events.Length == 0 {
      return None;
    }
    var k := 0;
    while k < events.Length
      invariant 0 <= k <= events.Length
      invariant forall m :: 0 <= m < k ==> events[m] == FillUuid(old(events[m]), ids[m])
      invariant forall m :: k <= m < events.Length ==> events[m] == old(events[m])
    {
      if "uuid" !in events[k] {
        events[k] := events[k]["uuid" := Text(ids[k])];
      }
      k := k + 1;
    }
    if writeOk {
      written := Some(events[..]);
    } else {
      written := None;
    }
  }

  /** Every document `save_to_file` writes has a `uuid`. */
  lemma FilledHaveUuid(docs: seq<Doc>, ids: seq<string>)
    requires |ids| == |docs|
    ensures forall k :: 0 <= k < |docs| ==> "uuid" in FillUuid(docs[k], ids[k])
  {
  }

  /**
   * One cycle of `main` after the quadrants were read: a non-empty list is
   * cleaned and saved, and the file holds exactly the cleaned events.
   */
  method CleanAndSave(events: array<Doc>, uuid4s: seq<string>, unique: seq<string>, writeOk: bool)
    returns (written: Option<seq<Doc>>)
    requires events.Length > 0 && |uuid4s| == |unique| == events.Length
    modifies events
    ensures forall k :: 0 <= k < events.Length ==> events[k] == CleanUp(old(events[k]), uuid4s[k])
    ensures written == (if writeOk then Some(events[..]) else None)
  {
    CleanUpEvents(events, uuid4s);
    ghost var cleaned := events[..];
    written := SaveToFile(events, unique, writeOk);
    forall k | 0 <= k < events.Length ensures events[k] == cleaned[k] {
      FillAfterCleanUp(old(events[k]), uuid4s[k], unique[k]);
    }
  }
}
