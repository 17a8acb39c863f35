/**
 * The storage loader (`storage/data_loader.py`): `process_file` reads one
 * JSON file of events, stamps each with `processed_at`, upserts them one by
 * one into the events collection keyed by `uuid`, moves the file into the
 * `processed` sub-directory and reports how many upserts went through; the
 * main loop picks the files to process from a directory listing.
 *
 * The file system, the clock and the database's failures are parameters:
 * the decoded content of the file, the timestamps `now()` returns, the
 * positions of the upserts that raise, and whether the move succeeds.
 */
module DataLoader {
  import opened Optional
  import opened Strings
  import opened Documents
  import opened PosixPath

  /** The field `process_file` adds to each event. */
  const ProcessedAt := "processed_at"

  /** A JSON list item: an object, or any other JSON value. */
  type Item = Option<Doc>

  /** `event['processed_at'] = at`. */
  function Stamp(d: Doc, at: string): Doc {
    d[ProcessedAt := Text(at)]
  }

  /**
   * The stamping loop: the stamped events when every item is an object;
   * None when some item is not (the assignment raises and the file is given up).
   */
  function Stamped(items: seq<Item>, stamps: seq<string>): (r: Option<seq<Doc>>)
    requires |stamps| == |items|
    ensures r.Some? <==> forall k :: 0 <= k < |items| ==> items[k].Some?
    ensures r.Some? ==> |r.value| == |items|
    ensures r.Some? ==> forall k :: 0 <= k < |items| ==> r.value[k] == Stamp(items[k].value, stamps[k])
  {
    if items == [] then Some([])
    else
      var n := |items| - 1;
      var before := Stamped(items[..n], stamps[..n]);
      if before.None? || items[n].None? then None
      else Some(before.value + [Stamp(items[n].value, stamps[n])])
  }

  /** The `k`-th upsert goes through: the event has a `uuid` (no `KeyError`) and the database does not raise. */
  predicate Upserts(e: Doc, k: nat, failing: set<nat>) {
    "uuid" in e && k !in failing
  }

  /** The collection after the upsert loop over `events`. */
  function Loaded(docs: seq<Doc>, events: seq<Doc>, failing: set<nat>): seq<Doc> {
    if events == [] then docs
    else
      var n := |events| - 1;
      var before := Loaded(docs, events[..n], failing);
      if Upserts(events[n], n, failing) then Upsert(before, events[n]) else before
  }

  /** `successful_events` after the upsert loop over `events`. */
  function Successes(events: seq<Doc>, failing: set<nat>): (c: nat)
    ensures c <= |events|
  {
    if events == [] then 0
    else
      var n := |events| - 1;
      Successes(events[..n], failing) + if Upserts(events[n], n, failing) then 1 else 0
  }

  /** The upsert loop keeps the unique index on `uuid`. */
  lemma {:induction false} LoadedUnique(docs: seq<Doc>, events: seq<Doc>, failing: set<nat>)
    requires UniqueUuids(docs)
    ensures UniqueUuids(Loaded(docs, events, failing))
  {
    if events != [] {
      var n := |events| - 1;
      LoadedUnique(docs, events[..n], failing);
      if Upserts(events[n], n, failing) {
        UpsertUnique(Loaded(docs, events[..n], failing), events[n]);
      }
    }
  }

  /** An upsert removes no uuid value from the collection. */
  lemma UpsertKeepsUuids(docs: seq<Doc>, e: Doc, u: Field)
    requires "uuid" in e && UniqueUuids(docs)
    requires exists i :: 0 <= i < |docs| && Matches(docs[i], "uuid", u)
    ensures exists i :: 0 <= i < |Upsert(docs, e)| && Matches(Upsert(docs, e)[i], "uuid", u)
  {
    var i :| 0 <= i < |docs| && Matches(docs[i], "uuid", u);
    var r := Upsert(docs, e);
    UpsertResult(docs, e);
    if Matches(docs[i], "uuid", e["uuid"]) {
      assert u == e["uuid"];
    } else {
      assert r[i] == docs[i];
    }
  }

  /**
   * After the loop, the uuid of every event whose upsert went through is in
   * the collection, so the cache can find the event by that uuid.
   */
  lemma {:induction false} LoadedFindable(docs: seq<Doc>, events: seq<Doc>, failing: set<nat>, k: nat)
    requires UniqueUuids(docs) && k < |events| && Upserts(events[k], k, failing)
    ensures var r := Loaded(docs, events, failing);
      exists i :: 0 <= i < |r| && Matches(r[i], "uuid", events[k]["uuid"])
  {
    var n := |events| - 1;
    var before := Loaded(docs, events[..n], failing);
    LoadedUnique(docs, events[..n], failing);
    var u := events[k]["uuid"];
    if k == n {
      var r := Upsert(before, events[n]);
      assert Loaded(docs, events, failing) == r;
      UpsertResult(before, events[n]);
      var i :| 0 <= i < |r| && Matches(r[i], "uuid", u);
    } else {
      assert events[..n][k] == events[k];
      LoadedFindable(docs, events[..n], failing, k);
      if Upserts(events[n], n, failing) {
        var r := Upsert(before, events[n]);
        assert Loaded(docs, events, failing) == r;
        UpsertKeepsUuids(before, events[n], u);
        var i :| 0 <= i < |r| && Matches(r[i], "uuid", u);
        assert 0 <= i < |Loaded(docs, events, failing)| && Matches(Loaded(docs, events, failing)[i], "uuid", events[k]["uuid"]);
      } else {
        assert Loaded(docs, events, failing) == before;
      }
    }
  }

  /** A file with no upsert going through (all failing, or none with a uuid) leaves the collection as it was. */
  lemma {:induction false} NothingLoaded(docs: seq<Doc>, events: seq<Doc>, failing: set<nat>)
    requires UniqueUuids(docs) && Successes(events, failing) == 0
    ensures Loaded(docs, events, failing) == docs
  {
    if events != [] {
      NothingLoaded(docs, events[..|events| - 1], failing);
    }
  }

  /** The outcome of `process_file`: the returned count and where the file ended up. */
  datatype Outcome = Outcome(count: nat, location: string)

  /**
   * `process_file(filepath, collection)`. `content` is the decoded file:
   * None when it is not JSON, cannot be read, or is not a list (a falsy
   * value is refused; iterating any other value raises when it is stamped).
   */
  method ProcessFile(filepath: string, content: Option<seq<Item>>, stamps: seq<string>,
                     failing: set<nat>, moveOk: bool, collection: Collection)
    returns (outcome: Outcome)
    requires collection.Valid()
    requires content.Some? ==> |stamps| == |content.value|
    modifies collection
    ensures collection.Valid()
    ensures content.None? || content.value == [] || Stamped(content.value, stamps).None? ==>
      outcome == Outcome(0, filepath) && collection.docs == old(collection.docs)
    ensures content.Some? && content.value != [] && Stamped(content.value, stamps).Some? ==>
      var events := Stamped(content.value, stamps).value;
      && collection.docs == Loaded(old(collection.docs), events, failing)
      && outcome == (if moveOk then Outcome(Successes(events, failing), ProcessedPath(filepath))
                     else Outcome(0, filepath))
  {
    if content.None? || content.value == [] {
      return Outcome(0, filepath);
    }
    var items := content.value;
    // stamp every event first
    var processed: seq<Doc> := [];
    var k := 0;
    while k < |items|
      invariant 0 <= k <= |items|
      invariant Stamped(items[..k], stamps[..k]) == Some(processed)
    {
      assert items[..k + 1][..k] == items[..k] && stamps[..k + 1][..k] == stamps[..k];
      if items[k].None? {
        StampedPrefix(items, stamps, k + 1);
        return Outcome(0, filepath);
      }
      processed := processed + [Stamp(items[k].value, stamps[k])];
      k := k + 1;
    }
    assert items[..k] == items && stamps[..k] == stamps;
    // then upsert them one by one
    var successful := 0;
    k := 0;
    while k < |processed|
      invariant 0 <= k <= |processed|
      invariant collection.Valid()
      invariant collection.docs == Loaded(old(collection.docs), processed[..k], failing)
      invariant successful == Successes(processed[..k], failing)
    {
      assert processed[..k + 1][..k] == processed[..k];
      var event := processed[k];
      if "uuid" in event && k !in failing {
        collection.UpsertByUuid(event);
        successful := successful + 1;
      }
      k := k + 1;
    }
    assert processed[..k] == processed;
    if !moveOk {
      // the exception of the move is caught: the upserts stay, the count is lost
      return Outcome(0, filepath);
    }
    outcome := Outcome(successful, ProcessedPath(filepath));
  }

  /** Once a prefix of the items holds a non-object, stamping the whole list fails. */
  lemma {:induction false} StampedPrefix(items: seq<Item>, stamps: seq<string>, m: nat)
    requires |stamps| == |items| && m <= |items|
    requires Stamped(items[..m], stamps[..m]).None?
    ensures Stamped(items, stamps).None?
  {
    var k :| 0 <= k < m && items[..m][k].None?;
    assert items[k].None?;
  }

  /** The number of events that carry a `uuid`. */
  function WithUuid(events: seq<Doc>): nat {
    if events == [] then 0
    else
      var n := |events| - 1;
      WithUuid(events[..n]) + if "uuid" in events[n] then 1 else 0
  }

  /**
   * The count `process_file` reports is at most the number of events with a
   * `uuid`, and equals it when no upsert raises.
   */
  lemma {:induction false} SuccessesCountUuids(events: seq<Doc>, failing: set<nat>)
    ensures Successes(events, failing) <= WithUuid(events)
    ensures failing == {} ==> Successes(events, failing) == WithUuid(events)
  {
    if events != [] {
      SuccessesCountUuids(events[..|events| - 1], failing);
    }
  }

  // ---- Picking the files to process ----

  /** The main loop's filter: a `.json` name, a regular file, not hidden. */
  predicate Selected(dataDir: string, name: string, regularFiles: set<string>) {
    EndsWith(name, ".json") && Join(dataDir, name) in regularFiles && !StartsWith(name, ".")
  }

  /** `[join(data_dir, f) for f in os.listdir(data_dir) if ...]`, for the listing `entries`. */
  function ScanFiles(dataDir: string, entries: seq<string>, regularFiles: set<string>): seq<string> {
    if entries == [] then []
    else
      var n := |entries| - 1;
      ScanFiles(dataDir, entries[..n], regularFiles)
        + if Selected(dataDir, entries[n], regularFiles) then [Join(dataDir, entries[n])] else []
  }

  /** The files picked are exactly the joined paths of the selected entries, no more than the listing holds. */
  lemma {:induction false} ScanFilesPicks(dataDir: string, entries: seq<string>, regularFiles: set<string>)
    ensures |ScanFiles(dataDir, entries, regularFiles)| <= |entries|
    ensures forall p :: p in ScanFiles(dataDir, entries, regularFiles) <==>
      exists k :: 0 <= k < |entries| && Selected(dataDir, entries[k], regularFiles) && p == Join(dataDir, entries[k])
  {
    if entries != [] {
      var n := |entries| - 1;
      ScanFilesPicks(dataDir, entries[..n], regularFiles);
      forall p | p in ScanFiles(dataDir, entries, regularFiles)
        ensures exists k :: 0 <= k < |entries| && Selected(dataDir, entries[k], regularFiles) && p == Join(dataDir, entries[k])
      {
        if p in ScanFiles(dataDir, entries[..n], regularFiles) {
          var k :| 0 <= k < n && Selected(dataDir, entries[..n][k], regularFiles) && p == Join(dataDir, entries[..n][k]);
          assert entries[..n][k] == entries[k];
        }
      }
      forall k | 0 <= k < |entries| && Selected(dataDir, entries[k], regularFiles)
        ensures Join(dataDir, entries[k]) in ScanFiles(dataDir, entries, regularFiles)
      {
        if k < n {
          assert entries[..n][k] == entries[k];
        }
      }
    }
  }

  /** The `processed` sub-directory the loader moves files into is never picked by the filter. */
  lemma ProcessedDirSkipped(dataDir: string, regularFiles: set<string>)
    ensures !Selected(dataDir, "processed", regularFiles)
  {
    assert "processed"[4..] != ".json" by {
      assert "processed"[4..][0] == 'e';
    }
  }

  /** The directory the main loop scans. */
  const DataDir := "/data"

  /** A picked file of `/data` is moved to `/data/processed/<name>`, out of the scanned directory. */
  lemma PickedFileDestination(name: string)
    requires !Contains(name, '/')
    ensures ProcessedPath(Join(DataDir, name)) == DataDir + "/processed/" + name
  {
    assert DataDir[|DataDir| - 1] == 'a';
    ProcessedPathOf(DataDir, name);
  }
}
