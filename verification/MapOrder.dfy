/** Go visits the keys of a map in an arbitrary order, each key once. */
module MapOrder {

  ghost predicate IsOrder<K(!new)>(order: seq<K>, keys: set<K>) {
    && (forall i, j :: 0 <= i < j < |order| ==> order[i] != order[j])
    && (forall k :: k in order <==> k in keys)
  }

  /** `acc` after the entries of `m` have been stored into it one after the other. */
  function Merge<K, V>(acc: map<K, V>, m: map<K, V>, order: seq<K>): map<K, V>
    requires forall k :: k in order ==> k in m
    decreases |order|
  {
    if order == [] then acc else Merge(acc[order[0] := m[order[0]]], m, order[1..])
  }

  lemma {:induction false} MergeContent<K, V>(acc: map<K, V>, m: map<K, V>, order: seq<K>)
    requires forall k :: k in order ==> k in m
    ensures forall k :: k in Merge(acc, m, order) <==> k in acc || k in order
    ensures forall k :: k in order ==> Merge(acc, m, order)[k] == m[k]
    ensures forall k :: k in acc && k !in order ==> Merge(acc, m, order)[k] == acc[k]
    decreases |order|
  {
    if order != [] {
      MergeContent(acc[order[0] := m[order[0]]], m, order[1..]);
    }
  }

  /** Storing all entries into an empty map, in any order, gives the map back. */
  lemma MergeAll<K(!new), V>(m: map<K, V>, order: seq<K>)
    requires IsOrder(order, m.Keys)
    ensures Merge(map[], m, order) == m
  {
    MergeContent(map[], m, order);
  }

  lemma {:induction false} OrderLength<K(!new)>(order: seq<K>, keys: set<K>)
    requires IsOrder(order, keys)
    ensures |order| == |keys|
    decreases |order|
  {
    if order == [] {
      assert keys == {};
    } else {
      var k := order[0];
      assert k in order;
      assert forall x :: x in order <==> x == k || x in order[1..];
      OrderLength(order[1..], keys - {k});
    }
  }

  /** A map with one entry has only one order. */
  lemma SingleOrder<K(!new)>(order: seq<K>, k: K)
    requires IsOrder(order, {k})
    ensures order == [k]
  {
    OrderLength(order, {k});
    assert order[0] in order;
  }

  lemma EmptyOrder<K(!new)>(order: seq<K>)
    requires IsOrder(order, {})
    ensures order == []
  {
    OrderLength(order, {});
  }

  lemma OrderSnoc<K(!new)>(order: seq<K>, k: K, done: set<K>)
    requires IsOrder(order, done) && k !in done
    ensures IsOrder(order + [k], done + {k})
  {
  }

  lemma OrderExists<K(!new)>(keys: set<K>) returns (order: seq<K>)
    ensures IsOrder(order, keys)
  {
    order := [];
    var left := keys;
    while left != {}
      invariant left <= keys && IsOrder(order, keys - left)
    {
      var k :| k in left;
      OrderSnoc(order, k, keys - left);
      order, left := order + [k], left - {k};
      assert keys - left == (keys - (left + {k})) + {k};
    }
  }
}
