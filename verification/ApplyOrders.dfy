/**
 * One pass of the update trie over a tree, for every order in which the children
 * of its nodes may be visited. Two keys of an array node can name one element, such
 * as `1` and `01`; then the later write wins.
 */
module ApplyOrders {
  import opened Basics
  import opened Json
  import opened Updates
  import opened Orders

  ghost predicate IsOrder(o: (Path, set<string>) -> seq<string>) {
    forall p, keys :: Lists(o(p, keys), keys)
  }

  /** How the children of each node are visited. */
  type Order = o: (Path, set<string>) -> seq<string> | IsOrder(o) ghost witness AnyListing()

  ghost function AnyListing(): (o: (Path, set<string>) -> seq<string>)
    ensures IsOrder(o)
  {
    (p: Path, keys: set<string>) => SomeOrder(keys)
  }

  ghost function AnyOrder(): Order {
    AnyListing()
  }

  /** The key whose write to element `i` comes last. */
  function LastWriter(keys: seq<string>, items: seq<Json>, i: nat): (w: Option<string>)
    ensures w.Some? ==> w.value in keys && IndexIn(w.value, items) == Some(i)
    ensures w.None? ==> forall k :: k in keys ==> IndexIn(k, items) != Some(i)
  {
    if keys == [] then None
    else
      var n := |keys| - 1;
      assert forall k :: k in keys ==> k in keys[..n] || k == keys[n];
      if IndexIn(keys[n], items) == Some(i) then Some(keys[n]) else LastWriter(keys[..n], items, i)
  }

  /** The tree after one pass below node `prefix` with this order of visits. */
  function ApplyIn(nodes: Nodes, o: Order, prefix: Path, t: Json): Json
    decreases t
  {
    if prefix !in nodes then t
    else if nodes[prefix].Some? then nodes[prefix].value
    else
      match t
      case Obj(f) => Obj(map k | k in f :: ApplyIn(nodes, o, prefix + [k], f[k]))
      case Arr(items) =>
        var keys := o(prefix, Children(nodes, prefix));
        Arr(seq(|items|, i requires 0 <= i < |items| =>
          match LastWriter(keys, items, i)
          case None => items[i]
          case Some(k) => ApplyIn(nodes, o, prefix + [k], items[i])))
      case _ => t
  }

  // ----- When the order does not matter -----

  ghost function AnyResult(nodes: Nodes, prefix: Path, t: Json): Json {
    ApplyIn(nodes, AnyOrder(), prefix, t)
  }

  /** Children of one array node that name the same element make the same of it. */
  ghost predicate Twins(nodes: Nodes, prefix: Path, items: seq<Json>, j: string, k: string) {
    IndexIn(j, items).Some? && IndexIn(j, items) == IndexIn(k, items) ==>
      var item := items[IndexIn(j, items).value];
      AnyResult(nodes, prefix + [j], item) == AnyResult(nodes, prefix + [k], item)
  }

  /** Wherever two updates meet at one array element under different spellings, they make the same of it. */
  ghost predicate Clear(nodes: Nodes, prefix: Path, t: Json)
    decreases t
  {
    prefix in nodes && nodes[prefix].None? ==>
      match t
      case Obj(f) => forall k :: k in f ==> Clear(nodes, prefix + [k], f[k])
      case Arr(items) =>
        && (forall k :: k in Children(nodes, prefix) && IndexIn(k, items).Some? ==>
              Clear(nodes, prefix + [k], items[IndexIn(k, items).value]))
        && (forall j, k :: j in Children(nodes, prefix) && k in Children(nodes, prefix) ==> Twins(nodes, prefix, items, j, k))
      case _ => true
  }

  lemma WriterIsChild(nodes: Nodes, o: Order, prefix: Path, items: seq<Json>, i: nat)
    ensures var w := LastWriter(o(prefix, Children(nodes, prefix)), items, i);
            && (w.Some? ==> w.value in Children(nodes, prefix))
            && (w.None? <==> forall k :: k in Children(nodes, prefix) ==> IndexIn(k, items) != Some(i))
  {
    Listed(o(prefix, Children(nodes, prefix)), Children(nodes, prefix));
  }

  /** In a clear trie every order gives the same result. */
  lemma {:induction false} ClearAgrees(nodes: Nodes, o: Order, prefix: Path, t: Json)
    requires Clear(nodes, prefix, t)
    ensures ApplyIn(nodes, o, prefix, t) == AnyResult(nodes, prefix, t)
    decreases t
  {
    hide Children, IndexIn;
    if prefix in nodes && nodes[prefix].None? {
      match t {
        case Obj(f) =>
          forall k | k in f ensures ApplyIn(nodes, o, prefix + [k], f[k]) == AnyResult(nodes, prefix + [k], f[k]) {
            ClearAgrees(nodes, o, prefix + [k], f[k]);
          }
          assert ApplyIn(nodes, o, prefix, t).fields == AnyResult(nodes, prefix, t).fields;
        case Arr(items) =>
          forall i | 0 <= i < |items| ensures ApplyIn(nodes, o, prefix, t).items[i] == AnyResult(nodes, prefix, t).items[i] {
            WriterIsChild(nodes, o, prefix, items, i);
            WriterIsChild(nodes, AnyOrder(), prefix, items, i);
            var w := LastWriter(o(prefix, Children(nodes, prefix)), items, i);
            var v := LastWriter(AnyOrder()(prefix, Children(nodes, prefix)), items, i);
            if w.Some? {
              ClearAgrees(nodes, o, prefix + [w.value], items[i]);
              assert Twins(nodes, prefix, items, w.value, v.value);
            }
          }
          assert ApplyIn(nodes, o, prefix, t).items == AnyResult(nodes, prefix, t).items;
        case _ =>
      }
    }
  }

  /** The same order, but `k` comes last among the children of `p`. */
  ghost function PutLast(o: Order, p: Path, k: string): Order {
    var f := (q: Path, keys: set<string>) => if q == p && k in keys then SomeOrder(keys - {k}) + [k] else o(q, keys);
    assert IsOrder(f) by {
      forall q, keys ensures Lists(f(q, keys), keys) {
        if q == p && k in keys {
          AppendLists(SomeOrder(keys - {k}), keys - {k}, k);
          assert keys - {k} + {k} == keys;
        } else {
          assert Lists(o(q, keys), keys);
        }
      }
    }
    f
  }

  lemma LastWins(o: Order, nodes: Nodes, prefix: Path, items: seq<Json>, k: string)
    requires k in Children(nodes, prefix) && IndexIn(k, items).Some?
    ensures LastWriter(PutLast(o, prefix, k)(prefix, Children(nodes, prefix)), items, IndexIn(k, items).value) == Some(k)
  {
    hide Children, IndexIn;
  }

  /** What happens below a node does not depend on the order at other nodes. */
  lemma {:induction false} OrderIsLocal(nodes: Nodes, o1: Order, o2: Order, prefix: Path, t: Json)
    requires forall q, keys :: prefix <= q ==> o1(q, keys) == o2(q, keys)
    ensures ApplyIn(nodes, o1, prefix, t) == ApplyIn(nodes, o2, prefix, t)
    decreases t
  {
    hide Children, IndexIn;
    if prefix in nodes && nodes[prefix].None? {
      match t {
        case Obj(f) =>
          forall k | k in f ensures ApplyIn(nodes, o1, prefix + [k], f[k]) == ApplyIn(nodes, o2, prefix + [k], f[k]) {
            OrderIsLocal(nodes, o1, o2, prefix + [k], f[k]);
          }
          assert ApplyIn(nodes, o1, prefix, t).fields == ApplyIn(nodes, o2, prefix, t).fields;
        case Arr(items) =>
          assert prefix <= prefix;
          forall i | 0 <= i < |items| ensures ApplyIn(nodes, o1, prefix, t).items[i] == ApplyIn(nodes, o2, prefix, t).items[i] {
            var w := LastWriter(o1(prefix, Children(nodes, prefix)), items, i);
            if w.Some? { OrderIsLocal(nodes, o1, o2, prefix + [w.value], items[i]); }
          }
          assert ApplyIn(nodes, o1, prefix, t).items == ApplyIn(nodes, o2, prefix, t).items;
        case _ =>
      }
    }
  }

  /** Where `k` is visited last, its element is what the pass makes of it below `k`. */
  lemma ElementOfLast(nodes: Nodes, o: Order, prefix: Path, items: seq<Json>, k: string)
    requires prefix in nodes && nodes[prefix].None? && k in Children(nodes, prefix) && IndexIn(k, items).Some?
    ensures var i := IndexIn(k, items).value;
            ApplyIn(nodes, PutLast(o, prefix, k), prefix, Arr(items)).items[i] == ApplyIn(nodes, o, prefix + [k], items[i])
  {
    LastWins(o, nodes, prefix, items, k);
    OrderIsLocal(nodes, PutLast(o, prefix, k), o, prefix + [k], items[IndexIn(k, items).value]);
    hide Children, IndexIn, PutLast;
  }

  /** A trie that is not clear has two orders with different results. */
  lemma {:induction false} UnclearDiffers(nodes: Nodes, prefix: Path, t: Json) returns (o1: Order, o2: Order)
    requires !Clear(nodes, prefix, t)
    ensures ApplyIn(nodes, o1, prefix, t) != ApplyIn(nodes, o2, prefix, t)
    decreases t
  {
    hide Children, IndexIn, PutLast;
    match t {
      case Obj(f) =>
        var k :| k in f && !Clear(nodes, prefix + [k], f[k]);
        o1, o2 := UnclearDiffers(nodes, prefix + [k], f[k]);
        assert ApplyIn(nodes, o1, prefix, t).fields[k] != ApplyIn(nodes, o2, prefix, t).fields[k];
      case Arr(items) =>
        if k :| k in Children(nodes, prefix) && IndexIn(k, items).Some? &&
                !Clear(nodes, prefix + [k], items[IndexIn(k, items).value]) {
          o1, o2 := UnclearDiffers(nodes, prefix + [k], items[IndexIn(k, items).value]);
          ElementOfLast(nodes, o1, prefix, items, k);
          ElementOfLast(nodes, o2, prefix, items, k);
          o1, o2 := PutLast(o1, prefix, k), PutLast(o2, prefix, k);
        } else {
          var j, k :| j in Children(nodes, prefix) && k in Children(nodes, prefix) && !Twins(nodes, prefix, items, j, k);
          ElementOfLast(nodes, AnyOrder(), prefix, items, j);
          ElementOfLast(nodes, AnyOrder(), prefix, items, k);
          o1, o2 := PutLast(AnyOrder(), prefix, j), PutLast(AnyOrder(), prefix, k);
        }
    }
  }

  ghost predicate OrdersAgree(nodes: Nodes, prefix: Path, t: Json) {
    forall o1: Order, o2: Order :: ApplyIn(nodes, o1, prefix, t) == ApplyIn(nodes, o2, prefix, t)
  }

  /**
   * The result is independent of the order of visits if and only if updates that meet
   * at one array element under different spellings make the same of it.
   */
  lemma OrdersAgreeIffClear(nodes: Nodes, prefix: Path, t: Json)
    ensures OrdersAgree(nodes, prefix, t) <==> Clear(nodes, prefix, t)
  {
    hide ApplyIn, Clear;
    if Clear(nodes, prefix, t) {
      forall o1: Order, o2: Order ensures ApplyIn(nodes, o1, prefix, t) == ApplyIn(nodes, o2, prefix, t) {
        ClearAgrees(nodes, o1, prefix, t);
        ClearAgrees(nodes, o2, prefix, t);
      }
    } else {
      var o1, o2 := UnclearDiffers(nodes, prefix, t);
    }
  }

  // ----- What the result holds -----

  /** A clear trie puts the new value at each updated path, however its array indices are written. */
  lemma {:induction false} UpdatedPlaceHasNewValue(
    nodes: Nodes, updates: map<Path, Json>, o: Order, prefix: Path, t: Json, q: Path, rest: Path)
    requires TrieHolds(nodes, updates) && Fits(updates, prefix, t) && Clear(nodes, prefix, t)
    requires prefix + q in updates
    ensures GetPath(ApplyIn(nodes, o, prefix, t), q + rest) == GetPath(updates[prefix + q], rest)
    decreases |q|
  {
    hide Children, IndexIn, TrieHolds;
    InTrie(nodes, updates, prefix, q);
    TrieValue(nodes, updates, prefix);
    if q == [] {
      assert prefix + q == prefix && q + rest == rest;
    } else {
      assert prefix <= prefix + q;
      NothingOnTheWay(updates, prefix, t, q);
      var k := q[0];
      assert prefix + [k] + q[1..] == prefix + q;
      InTrie(nodes, updates, prefix + [k], q[1..]);
      FitsGoesDown(nodes, updates, prefix, t, k);
      var child := Sub(t, k).value;
      ChildIsClear(nodes, prefix, t, k);
      UpdatedPlaceHasNewValue(nodes, updates, o, prefix + [k], child, q[1..], rest);
      assert (q + rest)[1..] == q[1..] + rest;
      if t.Arr? {
        ElementOfChild(nodes, o, prefix, t.items, k);
        SameIndices(k, t.items, ApplyIn(nodes, o, prefix, t).items);
      }
    }
  }

  lemma InTrie(nodes: Nodes, updates: map<Path, Json>, prefix: Path, q: Path)
    requires TrieHolds(nodes, updates) && prefix + q in updates
    ensures prefix in nodes
  {
    assert prefix <= prefix + q;
  }

  lemma NothingOnTheWay(updates: map<Path, Json>, prefix: Path, t: Json, q: Path)
    requires Fits(updates, prefix, t) && prefix + q in updates && q != []
    ensures prefix !in updates
  {
    assert prefix <= prefix <= prefix + q;
  }

  lemma ChildIsClear(nodes: Nodes, prefix: Path, t: Json, k: string)
    requires prefix in nodes && nodes[prefix].None? && Clear(nodes, prefix, t) && prefix + [k] in nodes && Sub(t, k).Some?
    ensures Clear(nodes, prefix + [k], Sub(t, k).value)
  {
    ChildrenAre(nodes, prefix, k);
    hide Children, IndexIn;
  }

  /** In a clear trie the element a key names is what the pass makes of it below that key. */
  lemma ElementOfChild(nodes: Nodes, o: Order, prefix: Path, items: seq<Json>, k: string)
    requires prefix in nodes && nodes[prefix].None? && prefix + [k] in nodes && IndexIn(k, items).Some?
    requires Clear(nodes, prefix, Arr(items))
    ensures var i := IndexIn(k, items).value;
            ApplyIn(nodes, o, prefix, Arr(items)).items[i] == ApplyIn(nodes, o, prefix + [k], items[i])
  {
    hide Children, IndexIn;
    ChildrenAre(nodes, prefix, k);
    var i := IndexIn(k, items).value;
    WriterIsChild(nodes, o, prefix, items, i);
    var w := LastWriter(o(prefix, Children(nodes, prefix)), items, i).value;
    assert Twins(nodes, prefix, items, w, k);
    ClearAgrees(nodes, o, prefix + [w], items[i]);
    ClearAgrees(nodes, o, prefix + [k], items[i]);
  }

  /** The place of the tree a path names, with every index printed. */
  function Place(t: Json, p: Path): Path
    decreases |p|
  {
    if p == [] then []
    else
      match t
      case Obj(f) => if p[0] in f then [p[0]] + Place(f[p[0]], p[1..]) else p
      case Arr(items) =>
        var i := IndexIn(p[0], items);
        if i.Some? then [Itoa(i.value)] + Place(items[i.value], p[1..]) else p
      case _ => p
  }

  /** No update below `prefix` is at, above or below the place `q` names. */
  ghost predicate Apart(updates: map<Path, Json>, prefix: Path, t: Json, q: Path) {
    forall p :: p in updates && prefix <= p ==>
      !(Place(t, p[|prefix|..]) <= Place(t, q)) && !(Place(t, q) <= Place(t, p[|prefix|..]))
  }

  lemma NothingBelowIsKept(nodes: Nodes, updates: map<Path, Json>, o: Order, prefix: Path, t: Json)
    requires TrieHolds(nodes, updates) && forall p :: p in updates ==> !(prefix <= p)
    ensures ApplyIn(nodes, o, prefix, t) == t
  {
    hide Children, IndexIn;
    assert prefix in nodes ==> prefix == [];
    assert prefix == [] ==> forall p :: p in updates ==> prefix <= p;
    if prefix in nodes {
      assert nodes[prefix].None?;
      match t {
        case Obj(f) =>
          assert forall k :: prefix + [k] !in nodes;
          assert ApplyIn(nodes, o, prefix, t).fields == f;
        case Arr(items) =>
          forall k ensures k !in Children(nodes, prefix) { ChildrenAre(nodes, prefix, k); }
          forall i | 0 <= i < |items| ensures ApplyIn(nodes, o, prefix, t).items[i] == items[i] {
            WriterIsChild(nodes, o, prefix, items, i);
          }
          assert ApplyIn(nodes, o, prefix, t).items == items;
        case _ =>
      }
    }
  }

  /** Whatever the order, a place apart from all updates keeps its original value. */
  lemma {:induction false} PlaceApartIsKept(nodes: Nodes, updates: map<Path, Json>, o: Order, prefix: Path, t: Json, q: Path)
    requires TrieHolds(nodes, updates) && Apart(updates, prefix, t, q)
    ensures GetPath(ApplyIn(nodes, o, prefix, t), q) == GetPath(t, q)
    decreases |q|
  {
    hide Children, IndexIn, Itoa;
    if q == [] {
      assert forall p :: p in updates ==> !(prefix <= p);
      NothingBelowIsKept(nodes, updates, o, prefix, t);
    } else if prefix in nodes {
      PrefixIsApart(updates, prefix, t, q);
      TrieValue(nodes, updates, prefix);
      match t {
        case Obj(f) =>
          if q[0] in f {
            ApartGoesDown(updates, prefix, t, q, q[0]);
            PlaceApartIsKept(nodes, updates, o, prefix + [q[0]], f[q[0]], q[1..]);
          }
        case Arr(items) =>
          var i := IndexIn(q[0], items);
          if i.Some? {
            WriterIsChild(nodes, o, prefix, items, i.value);
            var w := LastWriter(o(prefix, Children(nodes, prefix)), items, i.value);
            if w.Some? {
              ApartGoesDown(updates, prefix, t, q, w.value);
              PlaceApartIsKept(nodes, updates, o, prefix + [w.value], items[i.value], q[1..]);
            }
          }
          SameIndices(q[0], items, ApplyIn(nodes, o, prefix, t).items);
        case _ =>
      }
    }
  }

  lemma SameIndices(k: string, a: seq<Json>, b: seq<Json>)
    requires |a| == |b|
    ensures IndexIn(k, a) == IndexIn(k, b)
  {
  }

  lemma PrefixIsApart(updates: map<Path, Json>, prefix: Path, t: Json, q: Path)
    requires Apart(updates, prefix, t, q)
    ensures prefix !in updates
  {
    hide IndexIn, Itoa;
    assert prefix <= prefix && prefix[|prefix|..] == [] && Place(t, []) == [] <= Place(t, q);
  }

  lemma ApartGoesDown(updates: map<Path, Json>, prefix: Path, t: Json, q: Path, k: string)
    requires Apart(updates, prefix, t, q) && q != [] && Sub(t, q[0]).Some? && Sub(t, k).Some?
    requires Place(t, [q[0]]) == Place(t, [k]) && Sub(t, q[0]) == Sub(t, k)
    ensures Apart(updates, prefix + [k], Sub(t, k).value, q[1..])
  {
    hide IndexIn, Itoa;
    PlaceStep(t, k, []);
    var first := Place(t, [k])[0];
    assert Place(t, [k]) == [first];
    PlaceStep(t, q[0], q[1..]);
    assert q == [q[0]] + q[1..];
    forall p | p in updates && prefix + [k] <= p
      ensures !(Place(Sub(t, k).value, p[|prefix + [k]|..]) <= Place(Sub(t, k).value, q[1..]))
      ensures !(Place(Sub(t, k).value, q[1..]) <= Place(Sub(t, k).value, p[|prefix + [k]|..]))
    {
      PrefixOfLonger(prefix, k, p);
      var rest := p[|prefix + [k]|..];
      assert p[|prefix|..] == [k] + rest;
      PlaceStep(t, k, rest);
      HeadPrefix(first, Place(Sub(t, k).value, rest), Place(Sub(t, k).value, q[1..]));
    }
  }

  lemma PlaceStep(t: Json, k: string, rest: Path)
    requires Sub(t, k).Some?
    ensures |Place(t, [k])| == 1 && Place(t, [k] + rest) == Place(t, [k]) + Place(Sub(t, k).value, rest)
  {
    assert ([k] + rest)[1..] == rest && [k][1..] == [];
  }

  lemma HeadPrefix(x: string, a: Path, b: Path)
    ensures [x] + a <= [x] + b <==> a <= b
    ensures [x] + b <= [x] + a <==> b <= a
  {
    assert ([x] + a)[1..] == a && ([x] + b)[1..] == b;
  }
}
