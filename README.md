# Traffic events pipeline: a Dafny model

This project models the four services of a traffic-event pipeline for the
Santiago Metropolitan Region:

- The **scraper** (`scraper/scraper.py`) cuts the region's bounding box into a
  grid of quadrants. It turns Waze alerts and jams into event records and names
  the comuna of each point with a decision list. It counts events per comuna,
  cleans the event dictionaries and writes them to a JSON file.
- The **loader** (`storage/data_loader.py`) picks up the JSON files. It stamps
  and upserts each event into the MongoDB collection by `uuid`, then moves the
  file into a `processed` sub-directory.
- The **cache service** (`cache/app.py`) answers `/query` cache-aside. It
  serves from Redis when the key is live. Otherwise it looks in MongoDB, evicts
  one key by LRU or LFU when Redis holds `MAX_CACHE_SIZE` keys, and writes the
  record back with a random TTL. It also keeps hit/miss counters, switches
  policy, clears the cache and reports statistics. It defines two id
  validators, but no endpoint calls them: `/query` looks up any non-empty id.
- The **traffic generator** (`traffic-generator/generator.py`) draws random
  `waze_` events from MongoDB and queries the cache. It keeps per-distribution
  statistics and switches between its two arrival patterns every ten minutes.

How each kind of code is modelled:

- Code that keeps state in place is modelled imperatively:
  - Redis plus the module globals of the cache service form the class
    `CacheApp.CacheService`.
  - The loader's collection is the class `Documents.Collection`.
  - The generator's `stats` dictionary and loop variables form the class
    `TrafficGen.Generator`.
  - The scraper's event list is an `array` of documents.
  - Loops become `while` loops proved against recursive specification
    functions.
- Pure code is written as functions, with lemmas stating what the source
  promises. This covers the decision list, the type table, the validators and
  the path arithmetic.
- A Python dictionary whose order matters (`min` tie-breaks, `sorted` on
  `items()`) is a sequence of key/value pairs in insertion order (`Dicts`).
- A MongoDB document is a map from field names to values; a missing field
  reads as null.
- The environment is passed in as parameters: clock readings, random draws,
  fresh UUIDs and HTTP replies. Failures are parameters only where the model
  has them:
  - in the cache service, Redis `GET`, `DBSIZE`, `DELETE`, `SETEX` and
    `FLUSHDB`, the MongoDB lookup of a miss, and a `policy` field that is
    not text;
  - in the loader, the failing upserts and the failed move of a file;
  - in the scraper, the failed write of the event file.

## Model

| member | source | states |
|---|---|---|
| CacheApp.GetRandomTtl | cache/app.py:54-59 | `randint(min, max)` yields a value in the inclusive range, and no value when the range is empty |
| CacheApp.EveryTtlIsDrawn | cache/app.py:54-59 | every TTL of the range is the outcome of some draw |
| CacheApp.DbSize | cache/app.py:219 | `DBSIZE` counts only keys whose expiry has not passed |
| CacheApp.WriteGrowsDbSize | cache/app.py:224 | `SETEX` of a key that was not live adds exactly one key to `DBSIZE` |
| CacheApp.DeleteShrinksDbSizeByAtMostOne | cache/app.py:336-337 | deleting a key lowers `DBSIZE` by at most one, and by exactly one when the key was live |
| CacheApp.FindRecord | cache/app.py:204-209 | the miss lookup searches by `uuid` first. Only when that fails and the id starts with `waze_` does it search by `waze_id` without the prefix. No record is returned exactly when neither search matches. |
| CacheApp.Victim | cache/app.py:330-345 | LRU evicts the first key with the minimal usage time, in insertion order; LFU does the same with the minimal hit count. There is no victim exactly when that policy's dictionary is empty. |
| CacheApp.VictimInDict | cache/app.py:334-345 | the victim is a key of the active policy's dictionary |
| CacheApp.LruEvictsOnlyHitKeys | cache/app.py:330-345 | in every state that satisfies the metadata invariant, a key that was never served as a hit is never the victim, under LRU or LFU |
| CacheApp.OldestUseEvicted | cache/app.py:333-336 | the key with the strictly oldest usage time is the LRU victim whether or not it is still live in Redis |
| CacheApp.WriteBackStore | cache/app.py:217-227 | after a write-back with no failure, the record is stored and expires between 300 and 900 s from now, so it stays live for at least 300 s. A failed `DBSIZE` changes nothing. The evicted key is gone from Redis and from the active policy's dictionary, the other dictionary is unchanged, and every other key keeps its entry. |
| CacheApp.WriteBackAtCapacity | cache/app.py:217-224 | at capacity, with a victim that is still live and no failure, a miss evicts exactly that victim and Redis stays at 100 live keys |
| CacheApp.HitRate | cache/app.py:241-244 | the hit rate is 0 with no queries, otherwise `100·hits/(hits+misses)`; it always lies in [0, 100] |
| CacheApp.HitRateMonotone | cache/app.py:241-244 | a hit never lowers the hit rate and a miss never raises it |
| CacheApp.AcceptedPolicyInputs | cache/app.py:276-279 | `set_policy` accepts exactly the three-letter case mixes of "lru" and "lfu" |
| CacheApp.RemoveKeepsMetadata | cache/app.py:336-344 | deleting the victim from either dictionary keeps the metadata invariant: distinct keys, only hit keys, counters at least 1 and summing to at most the hit count |
| CacheApp.HitKeepsMetadata | cache/app.py:188-193 | the writes made on a hit keep the same metadata invariant |
| CacheApp.CacheService.constructor | cache/app.py:33-52 | at start-up Redis and both metadata dictionaries are empty, both counters are 0 and the policy is LRU |
| CacheApp.CacheService.UpdateStats | cache/app.py:322-328 | "hit" and "miss" each add one to their counter; other result types and the traffic-class label change nothing |
| CacheApp.CacheService.Evict | cache/app.py:330-349 | removes the victim from Redis and from the active policy's dictionary only; the other dictionary is untouched. Nothing changes without a victim, or when its `DELETE` raises, because the handler skips the `del`. |
| CacheApp.CacheService.DropKey | cache/app.py:336 | `redis_client.delete` removes exactly that key |
| CacheApp.CacheService.Setex | cache/app.py:224 | `redis_client.setex` stores exactly the given entry under the key and changes no other key |
| CacheApp.CacheService.VictimInDictMaybe | cache/app.py:330-345 | every eviction victim is a key that was served as a cache hit |
| CacheApp.CacheService.ServeHit | cache/app.py:181-195 | a hit adds one hit and sets the key's usage time to now. It adds one to the key's counter, starting from 0, and answers the cached value from "cache" without writing to Redis. |
| CacheApp.CacheService.WriteBack | cache/app.py:217-227 | the new Redis store and both metadata dictionaries are exactly `WriteBackState` of the old ones, for every combination of `DBSIZE`, `DELETE` and `SETEX` failures; `WriteBackStore` and `WriteBackAtCapacity` state what that state holds |
| CacheApp.CacheService.ServeMiss | cache/app.py:197-235 | a miss adds one miss. A MongoDB failure gives 500 and no record gives 404, both with Redis and the metadata untouched. A found record is answered from "database" whether or not the Redis writes fail, and the new state is `WriteBackState` of the old one. |
| CacheApp.CacheService.Query | cache/app.py:170-235 | an absent or empty id, or a Redis `GET` that raises, gives 500 and changes nothing. Otherwise the request is a hit exactly when `event:<id>` is live, and exactly one of hits and misses grows by one. A hit updates the metadata only. A miss gives 500 exactly when MongoDB fails and 404 exactly when no record matches, and otherwise stores `WriteBackState`. |
| CacheApp.CacheService.SetPolicy | cache/app.py:273-285 | a `policy` field that is not text (null, a number) makes `.upper()` raise, giving 500 with the policy kept. Otherwise, with an absent field read as "", it answers 200 exactly when the upper-cased text is LRU or LFU and then sets that policy, and answers 400 and keeps the policy for any other text. |
| CacheApp.CacheService.ClearCache | cache/app.py:287-292 | `FLUSHDB` empties Redis and answers 200, and nothing else changes. A `FLUSHDB` that raises gives 500 and changes nothing. |
| CacheApp.CacheService.GetStats | cache/app.py:237-271 | reports the counters and their sum. The hit rate is `HitRate`: 0 with no queries, otherwise `100·hits/total`, within [0, 100]. It also reports the name of the policy in force and the live key count. It gives 500 exactly when the `DBSIZE` for `cache_size` raises. |
| CacheApp.OverflowWhenNoVictim | cache/app.py:217-224 | at capacity, with an empty policy dictionary, a miss still writes, and Redis ends up holding 101 keys |
| EventIds.ValidEventId | cache/app.py:297-315 | an absent or empty id is refused. Otherwise an id is valid exactly when it is a UUID (either case), a 24-digit lower-case hex ObjectId or a `waze_` id without inner newlines. Each form may carry one final newline. |
| EventIds.IsValidObjectId | cache/app.py:317-320 | valid exactly when the string is 24 lower-case hex digits, optionally followed by one newline |
| EventIds.AnchoredMatchesShapes | cache/app.py:303-313 | the anchored UUID and ObjectId patterns accept exactly their shapes, up to one final newline |
| EventIds.UuidPatternMatchesShape | cache/app.py:303-306 | the UUID pattern matches exactly 8-4-4-4-12 hex digits joined by dashes |
| EventIds.ValidWithoutNewline | cache/app.py:297-315 | for ids without newlines the validator accepts exactly UUIDs, ObjectIds and `waze_` ids |
| EventIds.ObjectIdIsEventId | cache/app.py:297-320 | every valid ObjectId is a valid event id |
| EventIds.FinalNewlineAccepted | cache/app.py:303-320 | a UUID or ObjectId followed by a newline passes both validators |
| EventIds.InnerNewlineRefused | cache/app.py:310 | every `waze_` id with a newline anywhere before its last character is refused |
| Comunas.ComunaFromCoordinates | scraper/scraper.py:86-106 | the result is always one of the seven comunas or the region's name |
| Comunas.FirstApplicableRule | scraper/scraper.py:86-106 | the result is the name of the first rule whose two strict comparisons hold, and the region's name exactly when none holds |
| Comunas.EveryComunaReachable | scraper/scraper.py:86-106 | each of the eight names is returned for some point |
| Comunas.EasternGap | scraper/scraper.py:91-106 | points east of -70.58 with latitude between -33.55 and -33.51 fall back to the region's name |
| Comunas.SantiagoCentroRegion | scraper/scraper.py:103-104 | "Santiago Centro" is only returned north of -33.45 and west of -70.68 |
| Quadrants.GenerateQuadrants | scraper/scraper.py:37-67 | a zero grid size fails (division by zero) and a negative one gives no quadrant. Otherwise the result is the row-major listing of the `g·g` quadrants. |
| Quadrants.GridListing | scraper/scraper.py:44-64 | the listing has `g²` quadrants, with row `i` and column `j` at position `i·g + j` |
| Quadrants.QuadrantGeometry | scraper/scraper.py:41-53 | each quadrant is a `1/g` slice of the box in each direction with its centre in the middle, and neighbours share edges |
| Quadrants.QuadrantAt | scraper/scraper.py:62 | the quadrant of row `i` and column `j` is named "RM Cuadrante i+1-j+1" |
| Quadrants.KeysDistinct | scraper/scraper.py:62 | different grid cells get different names |
| Quadrants.NameToKey | scraper/scraper.py:254 | removing "RM Cuadrante " from a generated name gives back its "i-j" key |
| Quadrants.TableRows | scraper/scraper.py:75-83 | the first two rows of the 3×3 grid take their comuna from `QUADRANT_TO_COMUNA` |
| Quadrants.ThirdRowByCoordinates | scraper/scraper.py:250-255 | the table has no row 3, so the third row falls back to the comuna of its centre: Santiago Centro, Santiago Centro, Las Condes |
| Quadrants.MappedComuna | scraper/scraper.py:251-255 | the comuna reported for a quadrant is the table entry for its key, else the comuna of its centre |
| WazeRecords.MapType | scraper/scraper.py:324-341 | every type maps to one of the five categories |
| WazeRecords.MapTypeIgnoresCase | scraper/scraper.py:338-341 | the lookup ignores case |
| WazeRecords.AccidentSpellings | scraper/scraper.py:326-341 | a type is an accident exactly when it spells ACCIDENT in some mix of ASCII cases |
| WazeRecords.UnknownIsHazard | scraper/scraper.py:338-341 | unknown and non-string types map to "hazard" |
| WazeRecords.CategoryTitles | scraper/scraper.py:171-174 | `str.title` turns the categories into "Accident", "Traffic_Jam" and "Road_Closed" in descriptions |
| WazeRecords.ProcessWazeData | scraper/scraper.py:150-270 | the events are those of the alerts in order, then those of the jams, each item using its own fresh id |
| WazeRecords.EventUuidPrefix | scraper/scraper.py:177-183 | a truthy Waze id gives "waze_" plus that id, with the first truthy id preferred; otherwise the fresh id is used. The prefix marks exactly the events Waze named. |
| WazeRecords.AlertEventShape | scraper/scraper.py:155-200 | an alert is dropped only when it or its location is not an object. Its category is `map_waze_type` of its type. Each coordinate is the location's own `y`/`x` when present, else the quadrant's centre, and its comuna is that of its coordinates. Its description is the report text, else "<Type> en <street>", else "<Type> en <comuna>". Its uuid is derived from `id`/`uuid`, and `waze_id` is its `id` or "". |
| WazeRecords.JamEventShape | scraper/scraper.py:203-248 | a jam is always a traffic jam. Each coordinate is the first line point's own `y`/`x` when present, else the quadrant's centre, and its comuna is that of those coordinates. Its id prefers `uuid` to `jamId`, `waze_id` is its `id` or "", and it is dropped only when malformed. |
| WazeRecords.AlertEventsBound | scraper/scraper.py:155-200 | at most one event per alert, each with a category and a known comuna |
| WazeRecords.JamEventsBound | scraper/scraper.py:203-248 | at most one event per jam, each a traffic jam with a known comuna |
| WazeRecords.WellFormedItemsAllKept | scraper/scraper.py:150-248 | well-formed input gives exactly one event per alert and per jam |
| ComunaStats.GetComunasDistribution | scraper/scraper.py:371-380 | the counting loop and sort compute the stable count-descending order of the per-label tally |
| ComunaStats.DistributionProperties | scraper/scraper.py:371-380 | each label appears once, with its number of events, and the counts sum to the number of events. Items are ordered by non-increasing count, and equal counts keep the order in which their labels first appear. |
| ComunaStats.TallyCounts | scraper/scraper.py:373-376 | the counting loop yields one item per distinct label, counted exactly, and lists labels in the order they first appear |
| ComunaStats.SortStable | scraper/scraper.py:379 | `sorted(..., reverse=True)` keeps the relative order of items with equal counts |
| ComunaStats.SortSorted | scraper/scraper.py:379 | the sorted items have non-increasing counts |
| ComunaStats.TopIsMostFrequent | scraper/scraper.py:371-380 | the "main comuna" logged is at least as frequent as every other label |
| EventCleanup.CleanUpFields | scraper/scraper.py:401-410 | a cleaned event has a `uuid`: its own, else the fresh one. It has no `subtype` or `report_count`, and every other field is unchanged. |
| EventCleanup.CleanUpIdempotent | scraper/scraper.py:401-410 | a second clean-up pass changes nothing |
| EventCleanup.FillAfterCleanUp | scraper/scraper.py:352-356 | after the clean-up loop, `save_to_file`'s uuid fill never fires |
| EventCleanup.CleanUpKeepsCleanEvent | scraper/scraper.py:401-410 | an event with a `uuid` and neither dropped field is left alone |
| EventCleanup.CleanUpEvents | scraper/scraper.py:401-410 | each event of the list becomes its cleaned version in place |
| EventCleanup.SaveToFile | scraper/scraper.py:343-369 | an empty list writes nothing. Otherwise missing uuids are filled in place, and the file holds the list when the write succeeds. |
| EventCleanup.CleanAndSave | scraper/scraper.py:401-413 | one cycle writes exactly the cleaned events |
| PosixPath.BasenameOfJoin | storage/data_loader.py:87-90 | joining a plain file name onto a directory gives back that name as the base name |
| PosixPath.ProcessedKeepsName | storage/data_loader.py:84-92 | a moved file keeps its name |
| PosixPath.DirnameOfJoin | storage/data_loader.py:84 | the directory of `join(d, n)` is `d` |
| PosixPath.ProcessedPathOf | storage/data_loader.py:84-92 | file `n` of directory `d` moves to `d/processed/n` |
| DataLoader.Stamped | storage/data_loader.py:62-65 | stamping succeeds exactly when every item is an object, and it sets `processed_at` on each |
| DataLoader.ProcessFile | storage/data_loader.py:51-103 | unreadable, empty or non-object content returns 0 with the collection unchanged. Otherwise every event with a `uuid` whose upsert does not raise is upserted. The count is returned and the file moves to `processed/`; a failed move returns 0 and keeps the upserts. |
| DataLoader.LoadedUnique | storage/data_loader.py:71-79 | the upsert loop keeps the unique index on `uuid` |
| DataLoader.LoadedFindable | storage/data_loader.py:71-79 | after the loop, the uuid of every successfully upserted event is in the collection |
| DataLoader.NothingLoaded | storage/data_loader.py:71-82 | a file none of whose upserts goes through leaves the collection as it was |
| DataLoader.SuccessesCountUuids | storage/data_loader.py:68-79 | the count is at most the number of events with a `uuid`, and equals it when no upsert raises |
| DataLoader.ScanFilesPicks | storage/data_loader.py:126-128 | the picked paths are exactly the joined paths of `.json`, regular, non-hidden entries, and there are no more of them than entries |
| DataLoader.ProcessedDirSkipped | storage/data_loader.py:126-128 | the `processed` sub-directory is never picked |
| DataLoader.PickedFileDestination | storage/data_loader.py:84-92 | a picked file of `/data` moves to `/data/processed/<name>` |
| Documents.UpsertResult | storage/data_loader.py:74-78 | after the upsert exactly one document has the event's uuid and carries all its fields. An existing document keeps its other fields. Every other document is unchanged. |
| Documents.UpsertUnique | storage/data_loader.py:74-78 | an upsert keeps uuids unique, adding a document only when none matched |
| Documents.UpsertIdempotent | storage/data_loader.py:74-78 | upserting the same event twice equals upserting it once |
| Documents.Collection.UpsertByUuid | storage/data_loader.py:74-78 | the collection becomes the upsert of the event and keeps its unique index |
| Retry.GetMongoClient | storage/data_loader.py:15-35 | connects on the first successful attempt among the first ten (the generator's copy at traffic-generator/generator.py is the same loop), sleeping 5, 10, … seconds after each failure; gives up exactly when all ten fail |
| Retry.BackoffTotal | storage/data_loader.py:15-35 | the first `n` sleeps add up to `5·n(n+1)/2` seconds |
| Retry.GiveUpAfter275Seconds | storage/data_loader.py:15-35 | giving up takes 275 seconds of sleeping |
| TrafficGen.RecordAccounting | traffic-generator/generator.py:104-139 | a reply that came back is a query and a cache-served answer is also a hit. Anything but a JSON answer with status 200 is an error. Misses are never counted, and hits never outnumber queries. |
| TrafficGen.BadBodyCountsTwice | traffic-generator/generator.py:104-139 | a 200 reply whose body is not a JSON object counts both as a query and as an error |
| TrafficGen.WazeUuidsAre | traffic-generator/generator.py:70-77 | the candidates are exactly the `waze_` uuids in the collection. They exist unless some uuid is not a string. |
| TrafficGen.GetRandomEventId | traffic-generator/generator.py:66-90 | the drawn id starts with `waze_` and belongs to a document. None exactly for an empty collection, no candidate, or a uuid that makes the filter raise. |
| TrafficGen.EveryWazeEventDrawable | traffic-generator/generator.py:77-87 | every `waze_` event can be drawn |
| TrafficGen.DrawnIdsPassValidation | traffic-generator/generator.py:66-90 | every drawn id without a newline is accepted by `valid_event_id`, the validator the cache defines but does not call |
| TrafficGen.Generator.constructor | traffic-generator/generator.py:36-41 | statistics start at zero, the pattern is Poisson and the first switch is 600 s ahead |
| TrafficGen.Generator.SendQuery | traffic-generator/generator.py:104-139 | an empty id changes nothing and returns False. Otherwise the distribution's statistics record the reply and the other distribution is unchanged. The total grows by one per reply that came back, and the result is True exactly for a JSON answer with status 200. |
| TrafficGen.Generator.SwitchIfDue | traffic-generator/generator.py:223-227 | at or after the switch time the pattern flips and the switch time becomes now + 600; the next switch always lies in the future |
| TrafficGen.Generator.GenerateTraffic | traffic-generator/generator.py:141-158 | succeeds exactly when an id was drawn and the cache answered with JSON and status 200. With an id, the distribution's statistics record the reply, the other one is unchanged, and the total grows per reply that came back. Without one, nothing changes. |
| TrafficGen.Generator.MainStep | traffic-generator/generator.py:221-231 | one loop pass flips the pattern and re-arms the switch 600 s ahead when due, and otherwise keeps both. The statistics of the pattern in use then change as in `GenerateTraffic`, and the query count grows exactly when the query succeeded. |

## Left out

- I/O, Flask, JSON encoding and HTTP are left out. The JSON (de)serialisation
  of records is the identity, and the HTTP reply is a parameter.
- Clocks, randomness and fresh UUIDs are parameters: `time.time()`,
  `random.randint`, `random.choice`, `uuid.uuid4()` and `get_unique_uuid`.
  Cache clock readings are integers. The generator's times are reals.
- The set of used UUIDs kept by `get_unique_uuid` is not modelled.
- The sleeps and the endless loops of every `main` are left out. The model
  covers one pass of each loop and the per-cycle clean-up and save.
- The generator's statistics thread, its every-100-queries log line and the
  interval draws (`poisson_distribution`, `normal_distribution`) are left out.
  They only log or sleep.
- The scraper's HTTP fetching (`get_traffic_data_for_quadrant`, the
  User-Agent rotation) and `get_nearest_comuna` are left out. That code
  computes no event that the other services read.
- The comuna summary that `process_waze_data` logs (scraper/scraper.py:250-268)
  returns nothing. Only its mapping (`Quadrants.MappedComuna`) and the
  distribution it logs are modelled.
- The `/health`, `/test-redis`, `/test-mongodb` and `/force-cache` endpoints
  and `initialize_db` are left out. They are diagnostics, except the unique
  `uuid` index, which is `Documents.UniqueUuids`.
- Event fields that no operation reads are left out: `timestamp` and
  `source` of scraper events, and a jam's length, speed, level and delay.
  The ObjectId-to-string conversion of `_id` on a miss is also left out.
- Coordinates are reals. Floating-point rounding is not modelled, and no
  comparison in the model depends on it. Non-numeric coordinates, which
  make the comparisons raise, are not modelled.
- WazeRecords.AlertEvent and WazeRecords.JamEvent: `reportDescription` and
  `street` are text or absent, and ids are text, integers or null. A truthy
  non-text `reportDescription` would become the description as it is
  (scraper/scraper.py:169-170), a non-text `street` would be formatted into
  the f-string (scraper/scraper.py:171-172, 217-218), and a float or boolean
  id would give `waze_1.5` or `waze_True` (scraper/scraper.py:177-183). These
  values are not modelled.
- Strings are sequences of characters. `str.upper` and `str.title` are
  modelled on ASCII letters only.
- CacheApp.CacheService.GetStats: the hit rate is a real number. The source
  reports it as a string rounded to two decimals with a `%` sign, and that
  rounding and formatting are not modelled. The `redis_info` diagnostics
  (memory use, the first ten keys) are not modelled either.
- CacheApp.CacheService.SetPolicy: a request whose body is not a JSON object
  is not modelled; only the `policy` field's value is a parameter.
- The id validators `valid_event_id` and `is_valid_object_id` are modelled as
  defined, but no endpoint calls them.
- A MongoDB failure other than in the lookup of a miss is not modelled.
  Neither is a failing `jsonify` of a record.
- The second `DBSIZE` of `query_event`, in its log line, has no fault of its
  own. When it raises, the outcome is the same as when the first one raises.
- Concurrency is left out. Flask handles requests in parallel without locks,
  and nothing coalesces concurrent misses on the same key.
- The cache's hit/miss counters are global: `update_stats` ignores the
  traffic-class label, so there are no per-class statistics.
- `clear_cache` leaves both eviction-metadata dictionaries as they were.
  Keys flushed from Redis can still be chosen as victims.
- Eviction metadata is written only on hits. A record stored on a miss has no
  metadata until its first hit, and LRU ties are broken by dictionary
  insertion order.
- `OverflowWhenNoVictim` shows that `MAX_CACHE_SIZE` is not an invariant of
  the code, so the model states no capacity bound.
- The validators use Python's `$`, which also matches before a final newline.
  The model keeps this: ids ending in one newline are accepted.
- The TTL range is 300 to 900 seconds, as `get_random_ttl` defines it.
- `Quadrants.GenerateQuadrants` returns None for a zero grid size, modelling
  the `ZeroDivisionError`.
- `DataLoader.ProcessFile` treats unreadable files, non-JSON files and
  decoded values that are not lists alike. All of them return 0 and change
  nothing, which is the code's behaviour for each.
- `TrafficGen.Generator.SendQuery` takes the distribution as one of the two
  patterns. A third label would raise `KeyError` out of the except handler,
  and `main` never passes one.
