/** Orders in which a map's keys may be visited. */
module Orders {

  /** `order` lists `keys`, each once. */
  ghost predicate Lists(order: seq<string>, keys: set<string>) {
    (forall i, j :: 0 <= i < j < |order| ==> order[i] != order[j]) && (set x | x in order) == keys
  }

  lemma Listed(order: seq<string>, keys: set<string>)
    requires Lists(order, keys)
    ensures forall x :: x in order <==> x in keys
  {
    forall x ensures x in order <==> x in keys { assert x in order <==> x in (set y | y in order); }
  }

  lemma {:induction false} ListLength(order: seq<string>, keys: set<string>)
    requires Lists(order, keys)
    ensures |order| == |keys|
    decreases |order|
  {
    if order != [] {
      var n := |order| - 1;
      assert keys - {order[n]} == set x | x in order[..n];
      ListLength(order[..n], keys - {order[n]});
    }
  }

  lemma AppendLists(order: seq<string>, keys: set<string>, x: string)
    requires Lists(order, keys) && x !in keys
    ensures Lists(order + [x], keys + {x})
  {
    var after := order + [x];
    Listed(order, keys);
    forall i, j | 0 <= i < j < |after| ensures after[i] != after[j] { assert i < |order| && order[i] in order; }
    assert forall y :: y in after <==> y in order || y == x;
  }

  lemma PrependLists(x: string, order: seq<string>, keys: set<string>)
    requires Lists(order, keys) && x !in keys
    ensures Lists([x] + order, {x} + keys)
  {
    var after := [x] + order;
    Listed(order, keys);
    assert forall y :: y in after <==> y == x || y in order;
  }

  /** Every set of keys can be listed. */
  ghost function SomeOrder(keys: set<string>): (order: seq<string>)
    ensures Lists(order, keys)
    decreases |keys|
  {
    if keys == {} then []
    else
      var x :| x in keys;
      AppendLists(SomeOrder(keys - {x}), keys - {x}, x);
      assert keys - {x} + {x} == keys;
      SomeOrder(keys - {x}) + [x]
  }
}
