/**
 * A Python `dict` with string keys, as the sequence of its items in
 * insertion order. Order matters to the model: `min(d.items(), key=...)`
 * returns the FIRST minimal item in that order, assigning to an existing
 * key keeps its place, and a new key goes last.
 */
module Dicts {
  import opened Optional

  type Dict<V> = seq<(string, V)>

  function Keys<V>(d: Dict<V>): set<string> {
    set i | 0 <= i < |d| :: d[i].0
  }

  /** A real dictionary never holds a key twice. */
  predicate Distinct<V>(d: Dict<V>) {
    forall i, j :: 0 <= i < j < |d| ==> d[i].0 != d[j].0
  }

  /** The position of key `k`, if present. */
  function Find<V>(d: Dict<V>, k: string): (r: Option<nat>)
    ensures r.Some? ==> r.value < |d| && d[r.value].0 == k
    ensures r.Some? ==> forall j :: 0 <= j < r.value ==> d[j].0 != k
    ensures r.None? <==> k !in Keys(d)
  {
    if d == [] then None
    else if d[0].0 == k then Some(0)
    else match Find(d[1..], k)
      case None =>
        assert Keys(d) == {d[0].0} + Keys(d[1..]) by {
          forall x | x in Keys(d) ensures x in {d[0].0} + Keys(d[1..]) {
            var i :| 0 <= i < |d| && d[i].0 == x;
            if i > 0 { assert d[1..][i - 1].0 == x; }
          }
        }
        None
      case Some(i) => Some(i + 1)
  }

  /** `d.get(k)`. */
  function Get<V>(d: Dict<V>, k: string): Option<V> {
    match Find(d, k)
    case Some(i) => Some(d[i].1)
    case None => None
  }

  /** `d[k] = v`: an existing key keeps its place, a new one is appended. */
  function Put<V>(d: Dict<V>, k: string, v: V): Dict<V> {
    match Find(d, k)
    case Some(i) => d[i := (k, v)]
    case None => d + [(k, v)]
  }

  /** `del d[k]` (and a no-op when `k` is absent). */
  function Remove<V>(d: Dict<V>, k: string): Dict<V> {
    if d == [] then []
    else (if d[0].0 == k then [] else [d[0]]) + Remove(d[1..], k)
  }

  /** The sum of the values of an integer-valued dictionary. */
  function Sum(d: Dict<int>): int {
    if d == [] then 0 else d[0].1 + Sum(d[1..])
  }

  /**
   * The index of the item that `min(d.items(), key=lambda x: x[1])` returns:
   * a minimal value, and the first such in insertion order.
   */
  function FirstMinIndex(d: Dict<int>): (i: nat)
    requires |d| > 0
    ensures i < |d|
    ensures forall j :: 0 <= j < |d| ==> d[i].1 <= d[j].1
    ensures forall j :: 0 <= j < i ==> d[j].1 > d[i].1
  {
    if |d| == 1 then 0
    else
      var i := FirstMinIndex(d[..|d| - 1]);
      if d[|d| - 1].1 < d[i].1 then |d| - 1 else i
  }

  // ---------------------------------------------------------------------
  // Properties of the operations

  lemma KeysOfAppend<V>(d: Dict<V>, k: string, v: V)
    ensures Keys(d + [(k, v)]) == Keys(d) + {k}
  {
    var e := d + [(k, v)];
    assert e[|d|].0 == k;
    forall x | x in Keys(e) ensures x in Keys(d) + {k} {
      var i :| 0 <= i < |e| && e[i].0 == x;
      if i < |d| { assert d[i].0 == x; }
    }
    forall x | x in Keys(d) ensures x in Keys(e) {
      var i :| 0 <= i < |d| && d[i].0 == x;
      assert e[i].0 == x;
    }
  }

  /** `Find` returns the first position holding the key. */
  lemma FindIs<V>(d: Dict<V>, k: string, j: nat)
    requires j < |d| && d[j].0 == k
    requires forall i :: 0 <= i < j ==> d[i].0 != k
    ensures Find(d, k) == Some(j)
  {
    assert k in Keys(d);
  }

  /** In a dictionary with distinct keys, `d.get(k)` is the value paired with `k`. */
  lemma GetIs<V>(d: Dict<V>, k: string, v: V)
    requires Distinct(d) && (k, v) in d
    ensures Get(d, k) == Some(v)
  {
    var j :| 0 <= j < |d| && d[j] == (k, v);
    FindIs(d, k, j);
  }

  lemma GetAbsent<V>(d: Dict<V>, k: string)
    requires k !in Keys(d)
    ensures Get(d, k) == None
  {
  }

  lemma DistinctTail<V>(d: Dict<V>)
    requires Distinct(d) && d != []
    ensures Distinct(d[1..]) && d[0].0 !in Keys(d[1..])
  {
    forall i, j | 0 <= i < j < |d[1..]| ensures d[1..][i].0 != d[1..][j].0 {
      assert d[1..][i] == d[i + 1] && d[1..][j] == d[j + 1];
    }
    forall i | 0 <= i < |d[1..]| ensures d[1..][i].0 != d[0].0 {
      assert d[1..][i] == d[i + 1];
    }
  }

  /** After `d[k] = v` the key set has grown by `k`, `d[k]` is `v`, and other keys keep their values. */
  lemma PutGet<V>(d: Dict<V>, k: string, v: V)
    requires Distinct(d)
    ensures Keys(Put(d, k, v)) == Keys(d) + {k}
    ensures Distinct(Put(d, k, v))
    ensures Get(Put(d, k, v), k) == Some(v)
    ensures forall k' :: k' != k ==> Get(Put(d, k, v), k') == Get(d, k')
  {
    var r := Put(d, k, v);
    if Find(d, k).Some? {
      var i := Find(d, k).value;
      assert r == d[i := (k, v)];
      forall x | x in Keys(r) ensures x in Keys(d) {
        var j :| 0 <= j < |r| && r[j].0 == x;
        assert d[j].0 == x;
      }
      forall x | x in Keys(d) ensures x in Keys(r) {
        var j :| 0 <= j < |d| && d[j].0 == x;
        assert r[j].0 == x;
      }
      assert r[i] == (k, v);
      GetIs(r, k, v);
      forall k' | k' != k ensures Get(r, k') == Get(d, k') {
        if k' in Keys(d) {
          var j :| 0 <= j < |d| && d[j].0 == k';
          assert r[j] == d[j];
          GetIs(d, k', d[j].1);
          GetIs(r, k', d[j].1);
        }
      }
    } else {
      assert r == d + [(k, v)];
      KeysOfAppend(d, k, v);
      assert r[|d|] == (k, v);
      GetIs(r, k, v);
      forall k' | k' != k ensures Get(r, k') == Get(d, k') {
        if k' in Keys(d) {
          var j :| 0 <= j < |d| && d[j].0 == k';
          assert r[j] == d[j];
          GetIs(d, k', d[j].1);
          GetIs(r, k', d[j].1);
        }
      }
    }
  }

  /** Assigning to a key already present keeps every item in its place. */
  lemma PutKeepsPlace<V>(d: Dict<V>, k: string, v: V)
    requires k in Keys(d)
    ensures |Put(d, k, v)| == |d|
    ensures Find(Put(d, k, v), k) == Find(d, k)
    ensures forall j :: 0 <= j < |d| ==> Put(d, k, v)[j].0 == d[j].0
  {
    var i := Find(d, k).value;
    assert Put(d, k, v) == d[i := (k, v)];
    FindIs(Put(d, k, v), k, i);
  }

  /** Every item of `Remove(d, k)` is an item of `d` other than `k`'s. */
  lemma {:induction false} RemoveItems<V>(d: Dict<V>, k: string)
    ensures forall p :: p in Remove(d, k) <==> p in d && p.0 != k
  {
    if d != [] {
      RemoveItems(d[1..], k);
      assert d == [d[0]] + d[1..];
    }
  }

  lemma KeysOfRemove<V>(d: Dict<V>, k: string)
    ensures Keys(Remove(d, k)) == Keys(d) - {k}
  {
    var r := Remove(d, k);
    RemoveItems(d, k);
    forall x | x in Keys(r) ensures x in Keys(d) - {k} {
      var i :| 0 <= i < |r| && r[i].0 == x;
      assert r[i] in r;
      var j :| 0 <= j < |d| && d[j] == r[i];
    }
    forall x | x in Keys(d) - {k} ensures x in Keys(r) {
      var j :| 0 <= j < |d| && d[j].0 == x;
      assert d[j] in d;
      var i :| 0 <= i < |r| && r[i] == d[j];
    }
  }

  lemma {:induction false} RemoveDistinct<V>(d: Dict<V>, k: string)
    requires Distinct(d)
    ensures Distinct(Remove(d, k))
  {
    if d != [] {
      DistinctTail(d);
      RemoveDistinct(d[1..], k);
      var rest := Remove(d[1..], k);
      if d[0].0 != k {
        KeysOfRemove(d[1..], k);
        var r := [d[0]] + rest;
        assert Remove(d, k) == r;
        forall i, j | 0 <= i < j < |r| ensures r[i].0 != r[j].0 {
          assert r[j] == rest[j - 1];
          if i == 0 { assert r[j].0 in Keys(rest); } else { assert r[i] == rest[i - 1]; }
        }
      } else {
        assert Remove(d, k) == rest;
      }
    }
  }

  /** `del d[k]` removes exactly `k`, keeps the dictionary a dictionary, and leaves other values alone. */
  lemma RemoveGet<V>(d: Dict<V>, k: string)
    requires Distinct(d)
    ensures Keys(Remove(d, k)) == Keys(d) - {k}
    ensures Distinct(Remove(d, k))
    ensures Get(Remove(d, k), k) == None
    ensures forall k' :: k' != k ==> Get(Remove(d, k), k') == Get(d, k')
  {
    var r := Remove(d, k);
    KeysOfRemove(d, k);
    RemoveDistinct(d, k);
    RemoveItems(d, k);
    forall k' | k' != k ensures Get(r, k') == Get(d, k') {
      if k' in Keys(d) {
        var j :| 0 <= j < |d| && d[j].0 == k';
        assert d[j] in d;
        GetIs(d, k', d[j].1);
        GetIs(r, k', d[j].1);
      }
    }
  }

  /** Summing after `d[k] = v` trades the old value of `k` (0 if absent) for `v`. */
  lemma {:induction false} SumPut(d: Dict<int>, k: string, v: int)
    requires Distinct(d)
    ensures Sum(Put(d, k, v)) == Sum(d) - Get(d, k).GetOr(0) + v
  {
    match Find(d, k)
    case Some(i) => SumUpdate(d, i, v);
    case None => SumAppend(d, (k, v));
  }

  lemma {:induction false} SumUpdate(d: Dict<int>, i: nat, v: int)
    requires i < |d|
    ensures Sum(d[i := (d[i].0, v)]) == Sum(d) - d[i].1 + v
  {
    if i > 0 {
      SumUpdate(d[1..], i - 1, v);
      assert d[i := (d[i].0, v)][1..] == d[1..][i - 1 := (d[i].0, v)];
    }
  }

  lemma {:induction false} SumAppend(d: Dict<int>, p: (string, int))
    ensures Sum(d + [p]) == Sum(d) + p.1
  {
    if d != [] {
      SumAppend(d[1..], p);
      assert (d + [p])[1..] == d[1..] + [p];
    }
  }

  /** Deleting a key removes its value from the sum. */
  lemma {:induction false} SumRemove(d: Dict<int>, k: string)
    requires Distinct(d)
    ensures Sum(Remove(d, k)) == Sum(d) - Get(d, k).GetOr(0)
  {
    if d != [] {
      DistinctTail(d);
      SumRemove(d[1..], k);
      if d[0].0 == k {
        assert Get(d[1..], k) == None;
        GetIs(d, k, d[0].1);
        assert Remove(d, k) == Remove(d[1..], k);
      } else {
        assert Remove(d, k) == [d[0]] + Remove(d[1..], k);
        assert ([d[0]] + Remove(d[1..], k))[1..] == Remove(d[1..], k);
        if k in Keys(d[1..]) {
          var j :| 0 <= j < |d[1..]| && d[1..][j].0 == k;
          assert d[1..][j] in d[1..];
          GetIs(d[1..], k, d[1..][j].1);
          assert d[j + 1] == d[1..][j];
          GetIs(d, k, d[1..][j].1);
        } else {
          assert k !in Keys(d);
        }
      }
    }
  }

  /** With all values at least 1, a non-empty dictionary sums to at least its size. */
  lemma {:induction false} SumAtLeastSize(d: Dict<int>)
    requires forall i :: 0 <= i < |d| ==> d[i].1 >= 1
    ensures Sum(d) >= |d|
  {
    if d != [] {
      assert forall i :: 0 <= i < |d[1..]| ==> d[1..][i] == d[i + 1];
      SumAtLeastSize(d[1..]);
    }
  }
}
