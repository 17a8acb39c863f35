/**
 * `get_comunas_distribution`: count the events of each comuna label, then
 * list the (label, count) items by decreasing count. Python's `sorted` is
 * stable also with `reverse=True`, so labels with equal counts stay in the
 * order the dictionary holds them: the order of their first appearance.
 */
module ComunaStats {
  import opened Optional
  import opened Dicts

  type Item = (string, int)

  /** The label of an event without `location_desc`. */
  const Unknown := "Desconocido"

  /** `event.get("location_desc", "Desconocido")` for each event. */
  function Labels(locations: seq<Option<string>>): (l: seq<string>)
    ensures |l| == |locations|
  {
    if locations == [] then []
    else
      var n := |locations| - 1;
      Labels(locations[..n]) + [locations[n].GetOr(Unknown)]
  }

  /** The `comunas` dictionary after counting `labels` one by one. */
  function Tally(labels: seq<string>): Dict<int> {
    if labels == [] then []
    else
      var n := |labels| - 1;
      var t := Tally(labels[..n]);
      Put(t, labels[n], Get(t, labels[n]).GetOr(0) + 1)
  }

  /** The position of the first occurrence of `c`. */
  function FirstIndex(labels: seq<string>, c: string): (i: nat)
    requires c in labels
    ensures i < |labels| && labels[i] == c
    ensures forall j :: 0 <= j < i ==> labels[j] != c
  {
    if labels[0] == c then 0 else 1 + FirstIndex(labels[1..], c)
  }

  /** Counting keeps the dictionary's keys distinct, and its keys are exactly the labels seen. */
  lemma {:induction false} TallyKeys(labels: seq<string>)
    ensures Distinct(Tally(labels))
    ensures forall c :: c in Keys(Tally(labels)) <==> c in labels
  {
    if labels != [] {
      var n := |labels| - 1;
      var before := labels[..n];
      var t' := Tally(before);
      TallyKeys(before);
      assert labels == before + [labels[n]];
      PutGet(t', labels[n], Get(t', labels[n]).GetOr(0) + 1);
    }
  }

  /** Counting `labels` yields one item per distinct label, holding its number of occurrences. */
  lemma TallyGet(labels: seq<string>)
    ensures var t := Tally(labels);
      && Distinct(t)
      && (forall c :: c in Keys(t) <==> c in labels)
      && (forall c :: c in labels ==> Get(t, c) == Some(multiset(labels)[c]))
  {
    TallyKeys(labels);
    forall c | c in labels ensures Get(Tally(labels), c) == Some(multiset(labels)[c]) {
      TallyCountOf(labels, c);
    }
  }

  /** The count of a single label `c` after counting `labels` (0 when absent) is its number of occurrences. */
  lemma {:induction false} TallyCountOf(labels: seq<string>, c: string)
    ensures Get(Tally(labels), c).GetOr(0) == multiset(labels)[c]
  {
    if labels != [] {
      var n := |labels| - 1;
      var before := labels[..n];
      var x := labels[n];
      var t' := Tally(before);
      assert labels == before + [x];
      TallyCountOf(before, c);
      TallyKeys(before);
      TallySnoc(before, x);
      CountSnoc(before, x, c);
      PutGet(t', x, Get(t', x).GetOr(0) + 1);
    }
  }

  lemma TallySnoc(before: seq<string>, x: string)
    ensures Tally(before + [x]) == Put(Tally(before), x, Get(Tally(before), x).GetOr(0) + 1)
  {
    assert (before + [x])[..|before|] == before;
  }

  lemma CountSnoc(before: seq<string>, x: string, c: string)
    ensures multiset(before + [x])[c] == multiset(before)[c] + if c == x then 1 else 0
    ensures c in before + [x] && c != x ==> c in before
  {
    assert multiset(before + [x]) == multiset(before) + multiset{x};
  }

  /** The counts add up to the number of labels. */
  lemma {:induction false} TallySum(labels: seq<string>)
    ensures Sum(Tally(labels)) == |labels|
  {
    if labels != [] {
      var n := |labels| - 1;
      var before := labels[..n];
      var x := labels[n];
      var t' := Tally(before);
      TallySum(before);
      TallyGet(before);
      var count := Get(t', x).GetOr(0);
      SumPut(t', x, count + 1);
    }
  }

  /** Appending a label moves no earlier first appearance. */
  lemma FirstIndexAppend(before: seq<string>, x: string, c: string)
    requires c in before
    ensures c in before + [x] && FirstIndex(before + [x], c) == FirstIndex(before, c)
  {
    var i := FirstIndex(before, c);
    assert (before + [x])[i] == c;
  }

  /** A label seen for the first time at the end has its first appearance there. */
  lemma FirstIndexNew(before: seq<string>, x: string)
    requires x !in before
    ensures x in before + [x] && FirstIndex(before + [x], x) == |before|
  {
    assert (before + [x])[|before|] == x;
  }

  /** Labels are listed in the order of their first appearance. */
  lemma {:induction false} TallyOrder(labels: seq<string>)
    ensures var t := Tally(labels);
      forall i, j :: 0 <= i < j < |t| ==>
        t[i].0 in labels && t[j].0 in labels && FirstIndex(labels, t[i].0) < FirstIndex(labels, t[j].0)
  {
    if labels != [] {
      var n := |labels| - 1;
      var before := labels[..n];
      TallyOrder(before);
      TallyKeys(before);
      assert labels == before + [labels[n]];
      if labels[n] in before {
        TallyOrderOld(before, labels[n]);
      } else {
        TallyOrderNew(before, labels[n]);
      }
    }
  }

  lemma TallyOrderOld(before: seq<string>, x: string)
    requires x in before
    requires var t' := Tally(before);
      && (forall c :: c in Keys(t') <==> c in before)
      && forall i, j :: 0 <= i < j < |t'| ==>
        t'[i].0 in before && t'[j].0 in before && FirstIndex(before, t'[i].0) < FirstIndex(before, t'[j].0)
    ensures var l := before + [x]; var t := Tally(l);
      forall i, j :: 0 <= i < j < |t| ==>
        t[i].0 in l && t[j].0 in l && FirstIndex(l, t[i].0) < FirstIndex(l, t[j].0)
  {
    var l := before + [x];
    assert l[..|l| - 1] == before;
    var t' := Tally(before);
    var t := Tally(l);
    PutKeepsPlace(t', x, Get(t', x).GetOr(0) + 1);
    forall i, j | 0 <= i < j < |t|
      ensures t[i].0 in l && t[j].0 in l && FirstIndex(l, t[i].0) < FirstIndex(l, t[j].0)
    {
      assert t[i].0 == t'[i].0 && t[j].0 == t'[j].0;
      FirstIndexAppend(before, x, t'[i].0);
      FirstIndexAppend(before, x, t'[j].0);
    }
  }

  lemma TallyOrderNew(before: seq<string>, x: string)
    requires x !in before
    requires var t' := Tally(before);
      && (forall c :: c in Keys(t') <==> c in before)
      && forall i, j :: 0 <= i < j < |t'| ==>
        t'[i].0 in before && t'[j].0 in before && FirstIndex(before, t'[i].0) < FirstIndex(before, t'[j].0)
    ensures var l := before + [x]; var t := Tally(l);
      forall i, j :: 0 <= i < j < |t| ==>
        t[i].0 in l && t[j].0 in l && FirstIndex(l, t[i].0) < FirstIndex(l, t[j].0)
  {
    var l := before + [x];
    assert l[..|l| - 1] == before;
    var t' := Tally(before);
    var t := Tally(l);
    GetAbsent(t', x);
    assert t == t' + [(x, 1)];
    FirstIndexNew(before, x);
    forall i, j | 0 <= i < j < |t|
      ensures t[i].0 in l && t[j].0 in l && FirstIndex(l, t[i].0) < FirstIndex(l, t[j].0)
    {
      assert t[i] == t'[i];
      assert t'[i].0 in Keys(t');
      FirstIndexAppend(before, x, t'[i].0);
      if j < |t'| {
        assert t[j] == t'[j];
        FirstIndexAppend(before, x, t'[j].0);
      }
    }
  }

  /**
   * The counting loop yields one item per distinct label, holding the number
   * of its occurrences, with counts summing to the number of events, and the
   * labels in the order of their first appearance.
   */
  lemma TallyCounts(labels: seq<string>)
    ensures var t := Tally(labels);
      && Distinct(t)
      && (forall c :: c in Keys(t) <==> c in labels)
      && (forall i :: 0 <= i < |t| ==> t[i].1 == multiset(labels)[t[i].0])
      && Sum(t) == |labels|
      && (forall i, j :: 0 <= i < j < |t| ==>
            t[i].0 in labels && t[j].0 in labels && FirstIndex(labels, t[i].0) < FirstIndex(labels, t[j].0))
  {
    var t := Tally(labels);
    TallyGet(labels);
    TallySum(labels);
    TallyOrder(labels);
    forall i | 0 <= i < |t| ensures t[i].1 == multiset(labels)[t[i].0] {
      assert t[i] in t;
      GetIs(t, t[i].0, t[i].1);
      assert t[i].0 in Keys(t);
    }
  }

  // ---- sorted(items, key=lambda x: x[1], reverse=True) ----

  /** Place `p` before the first item whose count is not larger than its own. */
  function Insert(p: Item, sorted: seq<Item>): (r: seq<Item>)
    ensures |r| == |sorted| + 1
    ensures forall q :: q in r <==> q == p || q in sorted
  {
    if sorted == [] || sorted[0].1 <= p.1 then [p] + sorted
    else [sorted[0]] + Insert(p, sorted[1..])
  }

  /** A stable sort by decreasing count. */
  function SortByCountDesc(items: seq<Item>): (r: seq<Item>)
    ensures |r| == |items|
    ensures forall q :: q in r <==> q in items
  {
    if items == [] then [] else Insert(items[0], SortByCountDesc(items[1..]))
  }

  predicate NonIncreasing(s: seq<Item>) {
    forall i, j :: 0 <= i < j < |s| ==> s[i].1 >= s[j].1
  }

  /** The items with a given count, in order. */
  function WithCount(s: seq<Item>, c: int): seq<Item> {
    if s == [] then [] else (if s[0].1 == c then [s[0]] else []) + WithCount(s[1..], c)
  }

  lemma {:induction false} InsertSorted(p: Item, sorted: seq<Item>)
    requires NonIncreasing(sorted)
    ensures NonIncreasing(Insert(p, sorted))
  {
    if sorted != [] && sorted[0].1 > p.1 {
      InsertSorted(p, sorted[1..]);
      var r := Insert(p, sorted);
      var rest := Insert(p, sorted[1..]);
      assert r == [sorted[0]] + rest;
      forall q | q in rest ensures sorted[0].1 >= q.1 {
        if q != p {
          var k :| 0 <= k < |sorted[1..]| && sorted[1..][k] == q;
          assert sorted[k + 1] == q;
        }
      }
      forall i, j | 0 <= i < j < |r| ensures r[i].1 >= r[j].1 {
        assert r[j] == rest[j - 1] && r[j] in rest;
        if i > 0 {
          assert r[i] == rest[i - 1];
        }
      }
    }
  }

  /** Inserting `p` puts it first among the items of its count and moves no other item of any count. */
  lemma {:induction false} InsertStable(p: Item, sorted: seq<Item>, c: int)
    ensures WithCount(Insert(p, sorted), c) == (if p.1 == c then [p] else []) + WithCount(sorted, c)
  {
    var here := if p.1 == c then [p] else [];
    if sorted == [] || sorted[0].1 <= p.1 {
      var r := [p] + sorted;
      assert r[0] == p && r[1..] == sorted;
      assert WithCount(r, c) == here + WithCount(sorted, c);
    } else {
      var rest := Insert(p, sorted[1..]);
      var r := [sorted[0]] + rest;
      var first := if sorted[0].1 == c then [sorted[0]] else [];
      InsertStable(p, sorted[1..], c);
      assert r[0] == sorted[0] && r[1..] == rest;
      assert WithCount(r, c) == first + WithCount(rest, c);
      assert WithCount(sorted, c) == first + WithCount(sorted[1..], c);
      assert here == [] || first == [];
    }
  }

  lemma {:induction false} SortSorted(items: seq<Item>)
    ensures NonIncreasing(SortByCountDesc(items))
  {
    if items != [] {
      SortSorted(items[1..]);
      InsertSorted(items[0], SortByCountDesc(items[1..]));
    }
  }

  /** Stability: for every count, the items with that count keep their relative order. */
  lemma {:induction false} SortStable(items: seq<Item>, c: int)
    ensures WithCount(SortByCountDesc(items), c) == WithCount(items, c)
  {
    if items != [] {
      SortStable(items[1..], c);
      InsertStable(items[0], SortByCountDesc(items[1..]), c);
    }
  }

  lemma {:induction false} SortKeepsSum(items: seq<Item>)
    ensures Sum(SortByCountDesc(items)) == Sum(items)
  {
    if items != [] {
      SortKeepsSum(items[1..]);
      InsertSum(items[0], SortByCountDesc(items[1..]));
    }
  }

  lemma {:induction false} InsertSum(p: Item, sorted: seq<Item>)
    ensures Sum(Insert(p, sorted)) == p.1 + Sum(sorted)
  {
    if sorted != [] && sorted[0].1 > p.1 {
      InsertSum(p, sorted[1..]);
      assert ([sorted[0]] + Insert(p, sorted[1..]))[1..] == Insert(p, sorted[1..]);
    } else {
      assert ([p] + sorted)[1..] == sorted;
    }
  }

  lemma {:induction false} SortKeepsDistinct(items: seq<Item>)
    requires Distinct(items)
    ensures Distinct(SortByCountDesc(items)) && Keys(SortByCountDesc(items)) == Keys(items)
  {
    if items != [] {
      DistinctTail(items);
      SortKeepsDistinct(items[1..]);
      var rest := SortByCountDesc(items[1..]);
      var r := Insert(items[0], rest);
      forall k | k in Keys(r) ensures k in Keys(items) {
        var i :| 0 <= i < |r| && r[i].0 == k;
        assert r[i] in r;
        var j :| 0 <= j < |items| && items[j] == r[i];
      }
      forall k | k in Keys(items) ensures k in Keys(r) {
        var i :| 0 <= i < |items| && items[i].0 == k;
        assert items[i] in items && items[i] in r;
        var j :| 0 <= j < |r| && r[j] == items[i];
      }
      forall i, j | 0 <= i < j < |r| ensures r[i].0 != r[j].0 {
        assert r[i] in r && r[j] in r;
        if r[i] == items[0] && r[j] == items[0] {
          InsertOnce(items[0], rest, i, j);
        } else if r[i] == items[0] || r[j] == items[0] {
          var q := if r[i] == items[0] then r[j] else r[i];
          assert q in rest;
          var k :| 0 <= k < |rest| && rest[k] == q;
          assert q.0 in Keys(rest);
        } else {
          InsertOthers(items[0], rest, i, j);
        }
      }
    }
  }

  /** `p` occurs once in `Insert(p, t)` when it is not in `t`. */
  lemma {:induction false} InsertOnce(p: Item, t: seq<Item>, i: nat, j: nat)
    requires p !in t && i < j < |Insert(p, t)|
    requires Insert(p, t)[i] == p && Insert(p, t)[j] == p
    ensures false
  {
    if t != [] && t[0].1 > p.1 {
      assert i > 0;
      assert Insert(p, t)[i] == Insert(p, t[1..])[i - 1];
      assert Insert(p, t)[j] == Insert(p, t[1..])[j - 1];
      assert p !in t[1..];
      InsertOnce(p, t[1..], i - 1, j - 1);
    }
  }

  /** Two different positions of `Insert(p, t)` other than `p`'s come from two different positions of `t`. */
  lemma {:induction false} InsertOthers(p: Item, t: seq<Item>, i: nat, j: nat)
    requires Distinct(t) && i < j < |Insert(p, t)|
    requires Insert(p, t)[i] != p && Insert(p, t)[j] != p
    ensures Insert(p, t)[i].0 != Insert(p, t)[j].0
  {
    var r := Insert(p, t);
    if t != [] && t[0].1 > p.1 {
      DistinctTail(t);
      if i == 0 {
        assert r[j] == Insert(p, t[1..])[j - 1] && r[j] in Insert(p, t[1..]);
        assert r[j] in t[1..];
        var k :| 0 <= k < |t[1..]| && t[1..][k] == r[j];
        assert r[j].0 in Keys(t[1..]);
      } else {
        assert r[i] == Insert(p, t[1..])[i - 1] && r[j] == Insert(p, t[1..])[j - 1];
        InsertOthers(p, t[1..], i - 1, j - 1);
      }
    } else {
      assert r[i] == t[i - 1] && r[j] == t[j - 1];
    }
  }

  // ---- get_comunas_distribution ----

  /** `get_comunas_distribution(events)`, given each event's `location_desc` (None when missing). */
  method GetComunasDistribution(locations: seq<Option<string>>) returns (distribution: seq<Item>)
    ensures distribution == SortByCountDesc(Tally(Labels(locations)))
  {
    var comunas: Dict<int> := [];
    var k := 0;
    while k < |locations|
      invariant 0 <= k <= |locations|
      invariant comunas == Tally(Labels(locations[..k]))
    {
      var comuna := locations[k].GetOr(Unknown);
      comunas := Put(comunas, comuna, Get(comunas, comuna).GetOr(0) + 1);
      assert locations[..k + 1][..k] == locations[..k];
      assert Labels(locations[..k + 1])[..k] == Labels(locations[..k]);
      k := k + 1;
    }
    assert locations[..k] == locations;
    distribution := SortByCountDesc(comunas);
  }

  /**
   * What the distribution is: every label once with its number of events,
   * counts summing to the number of events, by decreasing count, and, among
   * equal counts, in the order the labels first appear.
   */
  lemma DistributionProperties(locations: seq<Option<string>>)
    ensures var labels := Labels(locations);
      var t := Tally(labels);
      var d := SortByCountDesc(t);
      && Distinct(d)
      && (forall c :: c in Keys(d) <==> c in labels)
      && (forall i :: 0 <= i < |d| ==> d[i].1 == multiset(labels)[d[i].0])
      && Sum(d) == |locations|
      && NonIncreasing(d)
      && (forall c :: WithCount(d, c) == WithCount(t, c))
  {
    var labels := Labels(locations);
    var t := Tally(labels);
    var d := SortByCountDesc(t);
    TallyCounts(labels);
    SortKeepsDistinct(t);
    SortKeepsSum(t);
    SortSorted(t);
    forall c ensures WithCount(d, c) == WithCount(t, c) {
      SortStable(t, c);
    }
    forall i | 0 <= i < |d| ensures d[i].1 == multiset(labels)[d[i].0] {
      assert d[i] in d && d[i] in t;
      var j :| 0 <= j < |t| && t[j] == d[i];
    }
  }

  /** The comuna the scraper logs as the main one occurs at least as often as any other label. */
  lemma TopIsMostFrequent(locations: seq<Option<string>>)
    requires locations != []
    ensures var labels := Labels(locations);
      var d := SortByCountDesc(Tally(labels));
      d != [] && forall c :: c in labels ==> multiset(labels)[c] <= d[0].1
  {
    var labels := Labels(locations);
    var d := SortByCountDesc(Tally(labels));
    DistributionProperties(locations);
    assert labels[0] in labels;
    assert labels[0] in Keys(d);
    forall c | c in labels ensures multiset(labels)[c] <= d[0].1 {
      assert c in Keys(d);
      var i :| 0 <= i < |d| && d[i].0 == c;
    }
  }
}
