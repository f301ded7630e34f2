/** JavaScript's `Map` as the catalog components use it for de-duplication:
    `Array.from(new Map(items.map(x => [key(x), x])).values())`.
    A `Map` remembers its keys in order of first insertion; setting a key that
    is already present replaces its value without moving it. */
module JsMap {

  import opened JsValue

  datatype OrderedMap<K(==), V> = OrderedMap(order: seq<K>, vals: map<K, V>)

  predicate Distinct<K(==)>(s: seq<K>) {
    forall i, j :: 0 <= i < j < |s| ==> s[i] != s[j]
  }

  /** The insertion order lists each key of the map exactly once. */
  predicate Valid<K(==), V(==)>(m: OrderedMap<K, V>) {
    Distinct(m.order) && m.vals.Keys == set k | k in m.order
  }

  function Empty<K(==), V(==)>(): (m: OrderedMap<K, V>)
    ensures Valid(m) && |m.order| == 0
  {
    OrderedMap([], map[])
  }

  /** `m.set(k, v)` */
  function Set<K(==), V(==)>(m: OrderedMap<K, V>, k: K, v: V): (r: OrderedMap<K, V>)
    requires Valid(m)
    ensures Valid(r)
    ensures r.vals == m.vals[k := v]
    ensures k in m.vals ==> r.order == m.order
    ensures k !in m.vals ==> r.order == m.order + [k]
  {
    if k in m.vals then OrderedMap(m.order, m.vals[k := v])
    else OrderedMap(m.order + [k], m.vals[k := v])
  }

  /** The de-duplication key of an item: the value of its property `field`
      (`undefined` when the item lacks it). */
  function KeyOf(x: Value, field: string): Value {
    Get(x, field)
  }

  /** `new Map(items.map(x => [x[field], x]))`: the entries are set left to right. */
  function FromItems(items: seq<Value>, field: string): (m: OrderedMap<Value, Value>)
    ensures Valid(m)
    decreases |items|
  {
    if |items| == 0 then Empty()
    else Set(FromItems(items[..|items| - 1], field), KeyOf(items[|items| - 1], field), items[|items| - 1])
  }

  /** `Array.from(m.values())`: the values in key-insertion order. */
  function Values(m: OrderedMap<Value, Value>): (r: seq<Value>)
    requires Valid(m)
    ensures |r| == |m.order|
    ensures forall i :: 0 <= i < |r| ==> r[i] == m.vals[m.order[i]]
  {
    seq(|m.order|, i requires 0 <= i < |m.order| => m.vals[m.order[i]])
  }

  /** The key of every item, in order. */
  function Keys(items: seq<Value>, field: string): (ks: seq<Value>)
    ensures |ks| == |items|
    ensures forall i :: 0 <= i < |items| ==> ks[i] == KeyOf(items[i], field)
  {
    if |items| == 0 then [] else Keys(items[..|items| - 1], field) + [KeyOf(items[|items| - 1], field)]
  }

  /** Position of the first occurrence of `k`. */
  function FirstIndex(ks: seq<Value>, k: Value): (i: nat)
    requires k in ks
    ensures i < |ks| && ks[i] == k
    ensures forall j :: 0 <= j < i ==> ks[j] != k
  {
    if ks[0] == k then 0 else 1 + FirstIndex(ks[1..], k)
  }

  /** Position of the last occurrence of `k`. */
  function LastIndex(ks: seq<Value>, k: Value): (i: nat)
    requires k in ks
    ensures i < |ks| && ks[i] == k
    ensures forall j :: i < j < |ks| ==> ks[j] != k
  {
    if ks[|ks| - 1] == k then |ks| - 1 else LastIndex(ks[..|ks| - 1], k)
  }

  /** Keys of `r` are ordered by where they first occur in `ks`. */
  predicate FirstOccurrenceOrder(ks: seq<Value>, order: seq<Value>) {
    && (forall i :: 0 <= i < |order| ==> order[i] in ks)
    && (forall i, j :: 0 <= i < j < |order| ==> FirstIndex(ks, order[i]) < FirstIndex(ks, order[j]))
  }

  /** What the de-duplicated list is, stated without reference to `Map`:
      keys pairwise distinct, exactly the keys of the input, ordered by the
      position of their first occurrence, each item being the last one with
      its key. */
  predicate IsKeyedDedup(items: seq<Value>, field: string, r: seq<Value>) {
    var ks := Keys(items, field);
    && Distinct(Keys(r, field))
    && (forall i :: 0 <= i < |items| ==> KeyOf(items[i], field) in Keys(r, field))
    && (forall j :: 0 <= j < |r| ==> KeyOf(r[j], field) in ks && r[j] == items[LastIndex(ks, KeyOf(r[j], field))])
    && FirstOccurrenceOrder(ks, Keys(r, field))
  }

  /** `Array.from(new Map(items.map(x => [x[field], x])).values())` */
  function DedupByKey(items: seq<Value>, field: string): (r: seq<Value>)
  {
    Values(FromItems(items, field))
  }

  lemma FirstIndexAppend(ks: seq<Value>, y: Value, k: Value)
    requires k in ks
    ensures FirstIndex(ks + [y], k) == FirstIndex(ks, k)
  {
    var i := FirstIndex(ks, k);
    assert (ks + [y])[i] == k;
  }

  lemma FirstIndexNew(ks: seq<Value>, k: Value)
    requires k !in ks
    ensures FirstIndex(ks + [k], k) == |ks|
  {
  }

  lemma LastIndexAppend(ks: seq<Value>, y: Value, k: Value)
    requires k in ks && k != y
    ensures LastIndex(ks + [y], k) == LastIndex(ks, k)
  {
    assert (ks + [y])[..|ks|] == ks;
  }

  /** The state of the map after the entries of `items`: the keys of the
      items, once each, in first-occurrence order, each holding the value of
      its last occurrence. */
  ghost predicate Summarises(m: OrderedMap<Value, Value>, items: seq<Value>, field: string) {
    var ks := Keys(items, field);
    && Valid(m)
    && (forall k :: k in m.order <==> k in ks)
    && (forall k :: k in m.vals && k in ks ==> m.vals[k] == items[LastIndex(ks, k)])
    && FirstOccurrenceOrder(ks, m.order)
  }

  lemma SummarisesValues(m0: OrderedMap<Value, Value>, items: seq<Value>, field: string)
    requires |items| > 0
    requires Summarises(m0, items[..|items| - 1], field)
    ensures var m := Set(m0, KeyOf(items[|items| - 1], field), items[|items| - 1]);
            forall k :: k in m.vals && k in Keys(items, field) ==> m.vals[k] == items[LastIndex(Keys(items, field), k)]
  {
    var n := |items| - 1;
    var front := items[..n];
    var kx := KeyOf(items[n], field);
    var m := Set(m0, kx, items[n]);
    var ks0 := Keys(front, field);
    var ks := Keys(items, field);
    assert ks == ks0 + [kx];
    SplitLast(items);
    forall k | k in m.vals && k in ks
      ensures m.vals[k] == items[LastIndex(ks, k)]
    {
      if k != kx {
        assert k in ks0 && k in m0.order;
      }
      LastValueStep(ks0, kx, front, items[n], m0.vals, k);
    }
  }

  /** Setting the last item's key: the key then holds the value of its last
      occurrence in the longer list. */
  lemma LastValueStep(ks0: seq<Value>, kx: Value, front: seq<Value>, x: Value, vals0: map<Value, Value>, k: Value)
    requires |ks0| == |front| && k in ks0 + [kx]
    requires k != kx ==> k in ks0 && k in vals0 && vals0[k] == front[LastIndex(ks0, k)]
    ensures vals0[kx := x][k] == (front + [x])[LastIndex(ks0 + [kx], k)]
  {
    if k == kx {
      assert LastIndex(ks0 + [kx], k) == |ks0|;
    } else {
      LastIndexAppend(ks0, kx, k);
    }
  }

  lemma OrderSurvivesAppend(ks: seq<Value>, y: Value, order: seq<Value>)
    requires FirstOccurrenceOrder(ks, order)
    ensures FirstOccurrenceOrder(ks + [y], order)
  {
    forall i, j | 0 <= i < j < |order|
      ensures FirstIndex(ks + [y], order[i]) < FirstIndex(ks + [y], order[j])
    {
      FirstIndexAppend(ks, y, order[i]);
      FirstIndexAppend(ks, y, order[j]);
    }
  }

  lemma OrderExtendsWithNewKey(ks: seq<Value>, k: Value, order: seq<Value>)
    requires FirstOccurrenceOrder(ks, order)
    requires forall x :: x in order ==> x in ks
    requires k !in ks
    ensures FirstOccurrenceOrder(ks + [k], order + [k])
  {
    OrderSurvivesAppend(ks, k, order);
    var o := order + [k];
    forall i, j | 0 <= i < j < |o|
      ensures FirstIndex(ks + [k], o[i]) < FirstIndex(ks + [k], o[j])
    {
      if j == |order| {
        assert o[i] == order[i] && order[i] in ks;
        FirstIndexAppend(ks, k, order[i]);
        FirstIndexNew(ks, k);
      } else {
        assert o[i] == order[i] && o[j] == order[j];
      }
    }
  }

  lemma SummarisesOrder(m0: OrderedMap<Value, Value>, items: seq<Value>, field: string)
    requires |items| > 0
    requires Summarises(m0, items[..|items| - 1], field)
    ensures FirstOccurrenceOrder(Keys(items, field), Set(m0, KeyOf(items[|items| - 1], field), items[|items| - 1]).order)
  {
    var n := |items| - 1;
    var kx := KeyOf(items[n], field);
    var ks0 := Keys(items[..n], field);
    assert Keys(items, field) == ks0 + [kx];
    if kx in m0.vals {
      OrderSurvivesAppend(ks0, kx, m0.order);
    } else {
      assert kx !in ks0;
      OrderExtendsWithNewKey(ks0, kx, m0.order);
    }
  }

  lemma ValuesAfterNewKey(m0: OrderedMap<Value, Value>, k: Value, v: Value)
    requires Valid(m0) && k !in m0.vals
    ensures Values(Set(m0, k, v)) == Values(m0) + [v]
  {
    var m := Set(m0, k, v);
    forall i | 0 <= i < |m0.order|
      ensures Values(m)[i] == Values(m0)[i]
    {
      assert m0.order[i] in m0.vals;
    }
  }

  lemma {:induction false} FromItemsSummarises(items: seq<Value>, field: string)
    ensures Summarises(FromItems(items, field), items, field)
    decreases |items|
  {
    if |items| > 0 {
      var n := |items| - 1;
      FromItemsSummarises(items[..n], field);
      var m0 := FromItems(items[..n], field);
      assert Keys(items, field) == Keys(items[..n], field) + [KeyOf(items[n], field)];
      SummarisesValues(m0, items, field);
      SummarisesOrder(m0, items, field);
    }
  }

  /** The values of a summarising map carry its keys, in insertion order. */
  lemma ValuesKeys(m: OrderedMap<Value, Value>, items: seq<Value>, field: string)
    requires Summarises(m, items, field)
    ensures Keys(Values(m), field) == m.order
  {
    var r := Values(m);
    var ks := Keys(items, field);
    forall j | 0 <= j < |r|
      ensures KeyOf(r[j], field) == m.order[j]
    {
      var k := m.order[j];
      assert k in m.vals && k in ks;
      assert ks[LastIndex(ks, k)] == k;
    }
  }

  /** The `Map` round trip produces exactly the keyed de-duplication. */
  lemma DedupByKeySpec(items: seq<Value>, field: string)
    ensures IsKeyedDedup(items, field, DedupByKey(items, field))
  {
    var m := FromItems(items, field);
    FromItemsSummarises(items, field);
    var r := Values(m);
    var ks := Keys(items, field);
    ValuesKeys(m, items, field);
    forall i | 0 <= i < |items|
      ensures KeyOf(items[i], field) in Keys(r, field)
    {
      assert ks[i] == KeyOf(items[i], field);
    }
    forall j | 0 <= j < |r|
      ensures KeyOf(r[j], field) in ks && r[j] == items[LastIndex(ks, KeyOf(r[j], field))]
    {
      assert Keys(r, field)[j] == m.order[j];
      assert m.order[j] in m.vals;
    }
  }

  /** Every de-duplicated item is one of the input items. */
  lemma DedupKeepsItems(items: seq<Value>, field: string)
    ensures forall x :: x in DedupByKey(items, field) ==> x in items
  {
    DedupByKeySpec(items, field);
    var r := DedupByKey(items, field);
    var ks := Keys(items, field);
    forall x | x in r ensures x in items {
      var j :| 0 <= j < |r| && r[j] == x;
      assert r[j] == items[LastIndex(ks, KeyOf(r[j], field))];
    }
  }

  lemma {:induction false} FromItemsDomain(items: seq<Value>, field: string)
    ensures forall k :: k in FromItems(items, field).vals ==> k in Keys(items, field)
    decreases |items|
  {
    if |items| > 0 {
      var n := |items| - 1;
      FromItemsDomain(items[..n], field);
      assert Keys(items, field) == Keys(items[..n], field) + [KeyOf(items[n], field)];
    }
  }

  lemma DistinctSplit(ks: seq<Value>)
    requires |ks| > 0 && Distinct(ks)
    ensures Distinct(ks[..|ks| - 1]) && ks[|ks| - 1] !in ks[..|ks| - 1]
  {
  }

  /** A list whose keys are already distinct comes back unchanged. */
  lemma {:induction false} DedupOfDistinct(items: seq<Value>, field: string)
    requires Distinct(Keys(items, field))
    ensures DedupByKey(items, field) == items
    decreases |items|
  {
    if |items| > 0 {
      var n := |items| - 1;
      var front := items[..n];
      KeysPrefix(items, field);
      DistinctSplit(Keys(items, field));
      DedupOfDistinct(front, field);
      FromItemsDomain(front, field);
      DedupStep(items, field);
      SplitLast(items);
    }
  }

  lemma SplitLast(items: seq<Value>)
    requires |items| > 0
    ensures items[..|items| - 1] + [items[|items| - 1]] == items
  {
  }

  /** The keys of all items but the last are the keys' prefix. */
  lemma KeysPrefix(items: seq<Value>, field: string)
    requires |items| > 0
    ensures Keys(items[..|items| - 1], field) == Keys(items, field)[..|items| - 1]
    ensures Keys(items, field)[|items| - 1] == KeyOf(items[|items| - 1], field)
  {
  }

  /** A last item with a new key is appended to the de-duplicated front. */
  lemma DedupStep(items: seq<Value>, field: string)
    requires |items| > 0
    requires KeyOf(items[|items| - 1], field) !in FromItems(items[..|items| - 1], field).vals
    ensures DedupByKey(items, field) == DedupByKey(items[..|items| - 1], field) + [items[|items| - 1]]
  {
    var n := |items| - 1;
    var m0 := FromItems(items[..n], field);
    assert FromItems(items, field) == Set(m0, KeyOf(items[n], field), items[n]);
    ValuesAfterNewKey(m0, KeyOf(items[n], field), items[n]);
  }
}
