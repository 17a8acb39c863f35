/**
 * The document store (a MongoDB collection) as the code uses it: a sequence
 * of documents in natural order, `find_one` by one field's value, and the
 * loader's `update_one({"uuid": u}, {"$set": event}, upsert=True)` under the
 * unique index on `uuid` (storage/data_loader.py:46).
 */
module Documents {
  import opened Optional

  /** A document's field value; JSON values other than strings, integers and null are opaque. */
  datatype Field = Text(s: string) | Number(n: int) | Null | Other(tag: nat)

  type Doc = map<string, Field>

  /** The value a query sees for `field`: a missing field reads as null, as in MongoDB. */
  function FieldOf(d: Doc, field: string): Field {
    if field in d then d[field] else Null
  }

  /** The document matches the equality filter `{field: v}`. */
  predicate Matches(d: Doc, field: string, v: Field) {
    FieldOf(d, field) == v
  }

  /** The position of the first document matching `{field: v}`. */
  function FirstMatch(docs: seq<Doc>, field: string, v: Field): (r: Option<nat>)
    ensures r.Some? ==> r.value < |docs| && Matches(docs[r.value], field, v)
    ensures r.Some? ==> forall j :: 0 <= j < r.value ==> !Matches(docs[j], field, v)
    ensures r.None? ==> forall j :: 0 <= j < |docs| ==> !Matches(docs[j], field, v)
  {
    if docs == [] then None
    else if Matches(docs[0], field, v) then Some(0)
    else
      var rest := FirstMatch(docs[1..], field, v);
      if rest.Some? then Some(rest.value + 1) else None
  }

  /** `collection.find_one({field: v})`. */
  function FindOne(docs: seq<Doc>, field: string, v: Field): (r: Option<Doc>)
    ensures r.Some? ==> r.value in docs && Matches(r.value, field, v)
    ensures r.None? <==> forall d :: d in docs ==> !Matches(d, field, v)
  {
    var i := FirstMatch(docs, field, v);
    if i.Some? then Some(docs[i.value]) else None
  }

  /** The unique index on `uuid`: no two documents share a value, a missing one counting as null. */
  predicate UniqueUuids(docs: seq<Doc>) {
    forall i, j :: 0 <= i < j < |docs| ==> FieldOf(docs[i], "uuid") != FieldOf(docs[j], "uuid")
  }

  /**
   * `update_one({"uuid": e["uuid"]}, {"$set": e}, upsert=True)`: the first
   * document with that uuid gets every field of `e` (old fields kept,
   * shared ones overwritten); without one, `e` is inserted.
   */
  function Upsert(docs: seq<Doc>, e: Doc): seq<Doc>
    requires "uuid" in e
  {
    var i := FirstMatch(docs, "uuid", e["uuid"]);
    if i.Some? then docs[i.value := docs[i.value] + e] else docs + [e]
  }

  /** Upserting keeps the unique index satisfied and the collection grows by at most one. */
  lemma UpsertUnique(docs: seq<Doc>, e: Doc)
    requires "uuid" in e && UniqueUuids(docs)
    ensures UniqueUuids(Upsert(docs, e))
    ensures FirstMatch(docs, "uuid", e["uuid"]).Some? ==> |Upsert(docs, e)| == |docs|
    ensures FirstMatch(docs, "uuid", e["uuid"]).None? ==> |Upsert(docs, e)| == |docs| + 1
  {
    var r := Upsert(docs, e);
    var u := e["uuid"];
    var m := FirstMatch(docs, "uuid", u);
    if m.Some? {
      var i := m.value;
      assert FieldOf(r[i], "uuid") == u;
      forall a, b | 0 <= a < b < |r| ensures FieldOf(r[a], "uuid") != FieldOf(r[b], "uuid") {
        assert FieldOf(r[a], "uuid") == FieldOf(docs[a], "uuid");
        assert FieldOf(r[b], "uuid") == FieldOf(docs[b], "uuid");
      }
    } else {
      forall a, b | 0 <= a < b < |r| ensures FieldOf(r[a], "uuid") != FieldOf(r[b], "uuid") {
        if b == |docs| { assert !Matches(docs[a], "uuid", u); }
        else { assert r[a] == docs[a] && r[b] == docs[b]; }
      }
    }
  }

  /**
   * After the upsert exactly one document carries the event's uuid, its
   * fields are the old document's overwritten or extended by the event's (or
   * the event's alone when it is new), and every other document is as it was.
   */
  lemma UpsertResult(docs: seq<Doc>, e: Doc)
    requires "uuid" in e && UniqueUuids(docs)
    ensures var r := Upsert(docs, e);
      && (exists i :: 0 <= i < |r| && Matches(r[i], "uuid", e["uuid"]))
      && (forall i, j ::
            (0 <= i < |r| && 0 <= j < |r| && Matches(r[i], "uuid", e["uuid"]) && Matches(r[j], "uuid", e["uuid"]))
            ==> i == j)
      && (forall i :: 0 <= i < |r| && Matches(r[i], "uuid", e["uuid"]) ==>
            (forall f :: f in e ==> f in r[i] && r[i][f] == e[f])
            && (i < |docs| ==> r[i] == docs[i] + e)
            && (i == |docs| ==> r[i] == e))
      && (forall i :: 0 <= i < |docs| && !Matches(docs[i], "uuid", e["uuid"]) ==> r[i] == docs[i])
  {
    var r := Upsert(docs, e);
    var u := e["uuid"];
    UpsertUnique(docs, e);
    var m := FirstMatch(docs, "uuid", u);
    if m.Some? {
      assert Matches(r[m.value], "uuid", u);
    } else {
      assert r[|docs|] == e && Matches(r[|docs|], "uuid", u);
    }
  }

  /** Upserting the same event twice is the same as upserting it once. */
  lemma UpsertIdempotent(docs: seq<Doc>, e: Doc)
    requires "uuid" in e && UniqueUuids(docs)
    ensures Upsert(Upsert(docs, e), e) == Upsert(docs, e)
  {
    var r := Upsert(docs, e);
    var u := e["uuid"];
    var m := FirstMatch(docs, "uuid", u);
    var i := if m.Some? then m.value else |docs|;
    assert r[i] == (if m.Some? then docs[i] + e else e);
    forall j | 0 <= j < i ensures !Matches(r[j], "uuid", u) {
      assert r[j] == docs[j];
    }
    assert FirstMatch(r, "uuid", u) == Some(i) by {
      var m' := FirstMatch(r, "uuid", u);
      assert m'.Some?;
    }
    assert r[i] + e == r[i];
  }

  /**
   * The collection the loader writes: its documents, kept under the unique
   * index on `uuid`.
   */
  class Collection {
    var docs: seq<Doc>

    ghost predicate Valid()
      reads this
    {
      UniqueUuids(docs)
    }

    constructor (initial: seq<Doc>)
      requires UniqueUuids(initial)
      ensures Valid() && docs == initial
    {
      docs := initial;
    }

    /** `update_one({"uuid": e["uuid"]}, {"$set": e}, upsert=True)`. */
    method UpsertByUuid(e: Doc)
      requires Valid() && "uuid" in e
      modifies this
      ensures Valid()
      ensures docs == Upsert(old(docs), e)
    {
      UpsertUnique(docs, e);
      docs := Upsert(docs, e);
    }
  }
}
