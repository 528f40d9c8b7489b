/**
 * A JavaScript `Map` iterates its entries in insertion order. The model keeps, beside each
 * `map` that the server iterates, the sequence of its keys in that order: `set` on a new key
 * appends it, `set` on an existing key keeps its place, `delete` takes it out.
 */
module InsertionOrder {

  predicate Distinct<K(==,!new)>(s: seq<K>) {
    forall i, j :: 0 <= i < j < |s| ==> s[i] != s[j]
  }

  /** `order` lists every key of `m` exactly once. */
  ghost predicate Orders<K(!new), V>(order: seq<K>, m: map<K, V>) {
    Distinct(order) && forall k :: k in order <==> k in m
  }

  /** The key order after `Map.prototype.set(k, …)`. */
  function Insert<K(==,!new)>(order: seq<K>, k: K): (r: seq<K>)
    ensures Distinct(order) ==> Distinct(r)
    ensures forall x :: x in r <==> x in order || x == k
    ensures k !in order ==> r == order + [k]
    ensures k in order ==> r == order
  {
    if k in order then order else order + [k]
  }

  /** The key order after `Map.prototype.delete(k)`: the other keys keep their relative order. */
  function Remove<K(==,!new)>(order: seq<K>, k: K): (r: seq<K>)
    ensures Distinct(order) ==> Distinct(r)
    ensures forall x :: x in r <==> x in order && x != k
    ensures |r| <= |order|
    ensures k !in order ==> r == order
  {
    if order == [] then []
    else
      var rest := Remove(order[1..], k);
      assert forall x :: x in order[1..] ==> x in order;
      if order[0] == k then rest
      else
        assert Distinct(order) ==> order[0] !in rest;
        assert k !in order ==> [order[0]] + rest == [order[0]] + order[1..] == order;
        [order[0]] + rest
  }

  /** `delete` keeps the other keys in their relative order: any two keys left appear in that order before. */
  lemma RemoveKeepsOrder<K(!new)>(order: seq<K>, k: K)
    ensures forall i, j :: 0 <= i < j < |Remove(order, k)| ==>
      exists a, b :: 0 <= a < b < |order| && order[a] == Remove(order, k)[i] && order[b] == Remove(order, k)[j]
  {
    var r := Remove(order, k);
    forall i, j | 0 <= i < j < |r|
      ensures exists a, b :: 0 <= a < b < |order| && order[a] == r[i] && order[b] == r[j]
    {
      RemoveKeepsPair(order, k, i, j);
    }
  }

  /** The keys at positions `i < j` after `delete` stood at two positions `a < b` before. */
  lemma {:induction false} RemoveKeepsPair<K(!new)>(order: seq<K>, k: K, i: int, j: int)
    requires 0 <= i < j < |Remove(order, k)|
    ensures exists a, b :: 0 <= a < b < |order| && order[a] == Remove(order, k)[i] && order[b] == Remove(order, k)[j]
  {
    var tail := order[1..];
    var rest := Remove(tail, k);
    var r := Remove(order, k);
    if order[0] == k {
      assert r == rest;
      RemoveKeepsPair(tail, k, i, j);
      var a, b :| 0 <= a < b < |tail| && tail[a] == rest[i] && tail[b] == rest[j];
      assert order[a + 1] == r[i] && order[b + 1] == r[j];
    } else if i == 0 {
      assert r == [order[0]] + rest && r[j] == rest[j - 1];
      assert rest[j - 1] in rest;
      var b :| 0 <= b < |tail| && tail[b] == rest[j - 1];
      assert order[0] == r[0] && order[b + 1] == r[j];
    } else {
      assert r == [order[0]] + rest && r[i] == rest[i - 1] && r[j] == rest[j - 1];
      RemoveKeepsPair(tail, k, i - 1, j - 1);
      var a, b :| 0 <= a < b < |tail| && tail[a] == rest[i - 1] && tail[b] == rest[j - 1];
      assert order[a + 1] == r[i] && order[b + 1] == r[j];
    }
  }

  /** `set` keeps the key order in step with the map. */
  lemma InsertOrders<K(!new), V>(order: seq<K>, m: map<K, V>, k: K, v: V)
    requires Orders(order, m)
    ensures Orders(Insert(order, k), m[k := v])
  {
  }

  /** `delete` keeps the key order in step with the map. */
  lemma RemoveOrders<K(!new), V>(order: seq<K>, m: map<K, V>, k: K)
    requires Orders(order, m)
    ensures Orders(Remove(order, k), m - {k})
  {
  }

  /** `Array.from(m.values())`: one value per key, in key order. */
  function ValuesInOrder<K(!new), V>(order: seq<K>, m: map<K, V>): (vs: seq<V>)
    requires forall i :: 0 <= i < |order| ==> order[i] in m
    ensures |vs| == |order|
    ensures forall i :: 0 <= i < |order| ==> vs[i] == m[order[i]]
  {
    seq(|order|, i requires 0 <= i < |order| => m[order[i]])
  }

  /** A key order has exactly as many elements as the map has entries. */
  lemma {:induction false} OrderSize<K(!new), V>(order: seq<K>, m: map<K, V>)
    requires Orders(order, m)
    ensures |order| == |m|
  {
    if order == [] {
      assert m.Keys == {};
    } else {
      var k := order[0];
      var rest := m - {k};
      forall x
        ensures x in order[1..] <==> x in rest
      {
        if x in order[1..] {
          var j :| 0 <= j < |order[1..]| && order[1..][j] == x;
          assert order[j + 1] == x;
        }
        if x in rest {
          var j :| 0 <= j < |order| && order[j] == x;
          assert j != 0;
          assert order[1..][j - 1] == x;
        }
      }
      OrderSize(order[1..], rest);
      assert rest.Keys == m.Keys - {k};
    }
  }

  /**
   * `Array.from(m.values())` has one element per entry of `m`, and each key's value stands at
   * the key's own position, so a value shared by two keys appears at two different positions.
   */
  lemma ValuesOnePerKey<K(!new), V>(order: seq<K>, m: map<K, V>)
    requires Orders(order, m)
    ensures |ValuesInOrder(order, m)| == |m|
    ensures forall k :: k in m ==> exists i :: 0 <= i < |order| && order[i] == k && ValuesInOrder(order, m)[i] == m[k]
    ensures forall a, b :: a in m && b in m && a != b && m[a] == m[b] ==>
      exists i, j :: 0 <= i < j < |order| && ValuesInOrder(order, m)[i] == m[a] && ValuesInOrder(order, m)[j] == m[a]
  {
    OrderSize(order, m);
    var vs := ValuesInOrder(order, m);
    forall a, b | a in m && b in m && a != b && m[a] == m[b]
      ensures exists i, j :: 0 <= i < j < |order| && vs[i] == m[a] && vs[j] == m[a]
    {
      var i :| 0 <= i < |order| && order[i] == a;
      var j :| 0 <= j < |order| && order[j] == b;
      if i < j {
        assert vs[i] == m[a] && vs[j] == m[a];
      } else {
        assert vs[j] == m[a] && vs[i] == m[a];
      }
    }
  }
}
