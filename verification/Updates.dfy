/**
 * The update trie of a step configuration: paths are added one by one, then one
 * pass copies only the branches that change. A trie node is named by its path.
 */
module Updates {
  import opened Basics
  import opened Json

  /** Reference: replace the value at every updated path. */
  function Updated(updates: map<Path, Json>, prefix: Path, t: Json): Json
    decreases t
  {
    if prefix in updates then updates[prefix]
    else
      match t
      case Obj(f) => Obj(map k | k in f :: Updated(updates, prefix + [k], f[k]))
      case Arr(items) => Arr(seq(|items|, i requires 0 <= i < |items| => Updated(updates, prefix + [Itoa(i)], items[i])))
      case _ => t
  }

  /** No updated path lies on the way to another. */
  ghost predicate PrefixFree(updates: map<Path, Json>) {
    forall p, q :: p in updates && q in updates && p <= q ==> p == q
  }

  /** Every updated path exists in the tree. */
  ghost predicate AllExist(updates: map<Path, Json>, t: Json) {
    forall p :: p in updates ==> GetPath(t, p).Some?
  }

  lemma PrefixOfLonger(prefix: Path, k: string, p: Path)
    ensures prefix + [k] <= p ==> prefix <= p
    ensures prefix + [k] <= p <==> prefix <= p && |prefix| < |p| && p[|prefix|] == k
  {
    if prefix <= p && |prefix| < |p| && p[|prefix|] == k {
      assert p[..|prefix| + 1] == prefix + [k];
    }
  }

  lemma ProperPrefix(p: Path, q: Path)
    requires p <= q && p != q
    ensures |p| < |q|
  {
  }

  lemma {:induction false} NoUpdateBelow(updates: map<Path, Json>, prefix: Path, t: Json)
    requires forall p :: p in updates ==> !(prefix <= p)
    ensures Updated(updates, prefix, t) == t
    decreases t
  {
    hide Itoa;
    assert prefix <= prefix;
    match t {
      case Obj(f) =>
        forall k | k in f ensures Updated(updates, prefix + [k], f[k]) == f[k] {
          forall p | p in updates ensures !(prefix + [k] <= p) { PrefixOfLonger(prefix, k, p); }
          NoUpdateBelow(updates, prefix + [k], f[k]);
        }
      case Arr(items) =>
        forall i | 0 <= i < |items| ensures Updated(updates, prefix + [Itoa(i)], items[i]) == items[i] {
          forall p | p in updates ensures !(prefix + [Itoa(i)] <= p) { PrefixOfLonger(prefix, Itoa(i), p); }
          NoUpdateBelow(updates, prefix + [Itoa(i)], items[i]);
        }
      case _ =>
    }
  }

  /** The result has the new value at each updated path, and below it. */
  lemma {:induction false} UpdatedPathHasNewValue(updates: map<Path, Json>, prefix: Path, t: Json, q: Path, rest: Path)
    requires prefix + q in updates && GetPath(t, q).Some? && CanonicalPath(t, q)
    requires forall n :: 0 <= n < |q| ==> prefix + q[..n] !in updates
    ensures GetPath(Updated(updates, prefix, t), q + rest) == GetPath(updates[prefix + q], rest)
    decreases |q|
  {
    if q == [] {
      assert prefix + q == prefix && q + rest == rest;
    } else {
      assert prefix + q[..0] == prefix;
      var deeper := prefix + [q[0]];
      assert deeper + q[1..] == prefix + q;
      assert (q + rest)[1..] == q[1..] + rest;
      forall n | 0 <= n < |q[1..]| ensures deeper + q[1..][..n] !in updates {
        assert deeper + q[1..][..n] == prefix + q[..n + 1];
      }
      match t {
        case Obj(f) => UpdatedPathHasNewValue(updates, deeper, f[q[0]], q[1..], rest);
        case Arr(items) => UpdatedPathHasNewValue(updates, deeper, items[IndexIn(q[0], items).value], q[1..], rest);
      }
    }
  }

  /** Every path unrelated to the updates keeps its original value. */
  lemma {:induction false} UnrelatedPathIsKept(updates: map<Path, Json>, prefix: Path, t: Json, q: Path)
    requires CanonicalPath(t, q)
    requires forall n :: 0 <= n <= |q| ==> prefix + q[..n] !in updates
    requires forall p :: p in updates ==> !(prefix + q <= p)
    ensures GetPath(Updated(updates, prefix, t), q) == GetPath(t, q)
    decreases |q|
  {
    assert prefix + q[..0] == prefix;
    if q == [] {
      assert prefix + q == prefix;
      NoUpdateBelow(updates, prefix, t);
    } else {
      var deeper := prefix + [q[0]];
      assert deeper + q[1..] == prefix + q;
      forall n | 0 <= n <= |q[1..]| ensures deeper + q[1..][..n] !in updates {
        assert deeper + q[1..][..n] == prefix + q[..n + 1];
      }
      match t {
        case Obj(f) => if q[0] in f { UnrelatedPathIsKept(updates, deeper, f[q[0]], q[1..]); }
        case Arr(items) =>
          var i := IndexIn(q[0], items);
          if i.Some? { UnrelatedPathIsKept(updates, deeper, items[i.value], q[1..]); }
        case _ =>
      }
    }
  }

  // ----- The trie -----

  type Nodes = map<Path, Option<Json>>

  /** The segments that lead from a node to its children. */
  function Children(nodes: Nodes, p: Path): set<string> {
    set q | q in nodes && |q| == |p| + 1 && q[..|p|] == p :: q[|p|]
  }

  lemma ChildrenAre(nodes: Nodes, p: Path, k: string)
    ensures k in Children(nodes, p) <==> p + [k] in nodes
  {
    if p + [k] in nodes { assert (p + [k])[..|p|] == p && (p + [k])[|p|] == k; }
    if k in Children(nodes, p) {
      var q :| q in nodes && |q| == |p| + 1 && q[..|p|] == p && q[|p|] == k;
      assert q == p + [k];
    }
  }

  /** The trie of a set of updates has a node for every prefix of an updated path. */
  ghost predicate TrieHolds(nodes: Nodes, updates: map<Path, Json>) {
    && (forall p :: p in nodes <==> p == [] || exists q :: q in updates && p <= q)
    && (forall p :: p in nodes ==> nodes[p] == if p in updates then Some(updates[p]) else None)
  }

  /** When one pass over the tree succeeds at a node. */
  predicate Applies(nodes: Nodes, prefix: Path, t: Json)
    requires prefix in nodes
    decreases t
  {
    if nodes[prefix].Some? then Children(nodes, prefix) == {}
    else
      match t
      case Obj(f) => forall k :: k in Children(nodes, prefix) ==> prefix + [k] in nodes && k in f && Applies(nodes, prefix + [k], f[k])
      case Arr(items) => forall k :: k in Children(nodes, prefix) ==>
        prefix + [k] in nodes && IndexIn(k, items).Some? && Applies(nodes, prefix + [k], items[IndexIn(k, items).value])
      case _ => false
  }

  /** The condition in terms of the updates alone: below `prefix` the paths exist and none lies on the way to another. */
  ghost predicate Fits(updates: map<Path, Json>, prefix: Path, t: Json) {
    && (forall q :: q in updates && prefix <= q ==> GetPath(t, q[|prefix|..]).Some?)
    && (forall p, q :: p in updates && q in updates && prefix <= p && p <= q ==> p == q)
  }

  /** The subtree of `t` that segment `k` leads to. */
  function Sub(t: Json, k: string): Option<Json> {
    match t
    case Obj(f) => if k in f then Some(f[k]) else None
    case Arr(items) =>
      var i := IndexIn(k, items);
      if i.Some? then Some(items[i.value]) else None
    case _ => None
  }

  lemma GetPathStep(t: Json, k: string, q: Path)
    ensures GetPath(t, [k] + q) == if Sub(t, k).Some? then GetPath(Sub(t, k).value, q) else None
  {
    assert ([k] + q)[1..] == q;
  }

  ghost predicate ChildFits(updates: map<Path, Json>, prefix: Path, t: Json, k: string) {
    Sub(t, k).Some? && Fits(updates, prefix + [k], Sub(t, k).value)
  }

  lemma FitsGoesDown(nodes: Nodes, updates: map<Path, Json>, prefix: Path, t: Json, k: string)
    requires TrieHolds(nodes, updates) && prefix + [k] in nodes && Fits(updates, prefix, t)
    ensures ChildFits(updates, prefix, t, k)
  {
    hide GetPath, Sub;
    var w :| w in updates && prefix + [k] <= w;
    FitsStep(updates, prefix, k, t, w);
    forall q | q in updates && prefix + [k] <= q
      ensures prefix <= q && GetPath(Sub(t, k).value, q[|prefix| + 1..]).Some?
    {
      FitsStep(updates, prefix, k, t, q);
    }
  }

  lemma FitsComesUp(nodes: Nodes, updates: map<Path, Json>, prefix: Path, t: Json)
    requires TrieHolds(nodes, updates) && prefix !in updates
    requires forall k :: prefix + [k] in nodes ==> ChildFits(updates, prefix, t, k)
    ensures Fits(updates, prefix, t)
  {
    hide GetPath, Sub;
    forall q | q in updates && prefix <= q
      ensures |prefix| < |q| && prefix + [q[|prefix|]] <= q && ChildFits(updates, prefix, t, q[|prefix|])
      ensures GetPath(t, q[|prefix|..]).Some?
    {
      ProperPrefix(prefix, q);
      var k := q[|prefix|];
      PrefixOfLonger(prefix, k, q);
      assert prefix + [k] in nodes;
      GetPathStep(t, k, q[|prefix| + 1..]);
      assert q[|prefix|..] == [k] + q[|prefix| + 1..];
      assert q[|prefix + [k]|..] == q[|prefix| + 1..];
    }
    forall p, q | p in updates && q in updates && prefix <= p && p <= q ensures p == q {
      assert ChildFits(updates, prefix, t, p[|prefix|]);
    }
  }

  /** Below a node that is not itself updated, the condition splits over its children. */
  lemma FitsSplits(nodes: Nodes, updates: map<Path, Json>, prefix: Path, t: Json)
    requires TrieHolds(nodes, updates) && prefix !in updates
    ensures Fits(updates, prefix, t) <==> forall k :: prefix + [k] in nodes ==> ChildFits(updates, prefix, t, k)
  {
    hide Fits, ChildFits, TrieHolds;
    if Fits(updates, prefix, t) {
      forall k | prefix + [k] in nodes ensures ChildFits(updates, prefix, t, k) { FitsGoesDown(nodes, updates, prefix, t, k); }
    }
    if forall k :: prefix + [k] in nodes ==> ChildFits(updates, prefix, t, k) {
      FitsComesUp(nodes, updates, prefix, t);
    }
  }

  lemma FitsStep(updates: map<Path, Json>, prefix: Path, k: string, t: Json, q: Path)
    requires Fits(updates, prefix, t) && q in updates && prefix + [k] <= q
    ensures prefix <= q && Sub(t, k).Some? && GetPath(Sub(t, k).value, q[|prefix| + 1..]).Some?
  {
    PrefixOfLonger(prefix, k, q);
    GetPathStep(t, k, q[|prefix| + 1..]);
    assert q[|prefix|..] == [k] + q[|prefix| + 1..];
  }

  /** At an updated node the condition says that nothing is updated below it. */
  lemma FitsAtUpdate(nodes: Nodes, updates: map<Path, Json>, prefix: Path, t: Json)
    requires TrieHolds(nodes, updates) && prefix in updates
    ensures Fits(updates, prefix, t) <==> Children(nodes, prefix) == {}
  {
    if Children(nodes, prefix) == {} {
      forall q | q in updates && prefix <= q ensures q == prefix {
        if |q| > |prefix| {
          PrefixOfLonger(prefix, q[|prefix|], q);
          ChildrenAre(nodes, prefix, q[|prefix|]);
        }
      }
    } else {
      var k :| k in Children(nodes, prefix);
      ChildrenAre(nodes, prefix, k);
      var q :| q in updates && prefix + [k] <= q;
      PrefixOfLonger(prefix, k, q);
      assert prefix <= prefix && prefix != q;
    }
  }

  /** Applying the trie succeeds exactly when the updates fit. */
  lemma {:induction false} AppliesIffFits(nodes: Nodes, updates: map<Path, Json>, prefix: Path, t: Json)
    requires TrieHolds(nodes, updates) && prefix in nodes && (prefix == [] ==> t.Obj?)
    ensures Applies(nodes, prefix, t) <==> Fits(updates, prefix, t)
    decreases t
  {
    hide Fits, TrieHolds, Children;
    TrieValue(nodes, updates, prefix);
    if prefix in updates {
      FitsAtUpdate(nodes, updates, prefix, t);
    } else {
      FitsSplits(nodes, updates, prefix, t);
      forall k ensures k in Children(nodes, prefix) <==> prefix + [k] in nodes { ChildrenAre(nodes, prefix, k); }
      match t {
        case Obj(f) =>
          forall k | prefix + [k] in nodes && k in f
            ensures Applies(nodes, prefix + [k], f[k]) <==> Fits(updates, prefix + [k], f[k])
          {
            AppliesIffFits(nodes, updates, prefix + [k], f[k]);
          }
        case Arr(items) =>
          forall k | prefix + [k] in nodes && IndexIn(k, items).Some?
            ensures Applies(nodes, prefix + [k], items[IndexIn(k, items).value]) <==>
                    Fits(updates, prefix + [k], items[IndexIn(k, items).value])
          {
            AppliesIffFits(nodes, updates, prefix + [k], items[IndexIn(k, items).value]);
          }
        case _ =>
          HasChild(nodes, updates, prefix);
      }
    }
  }

  lemma TrieValue(nodes: Nodes, updates: map<Path, Json>, p: Path)
    requires TrieHolds(nodes, updates) && p in nodes
    ensures nodes[p].Some? <==> p in updates
    ensures p in updates ==> nodes[p] == Some(updates[p])
  {
  }

  lemma HasChild(nodes: Nodes, updates: map<Path, Json>, prefix: Path)
    requires TrieHolds(nodes, updates) && prefix in nodes && prefix !in updates && prefix != []
    ensures exists k :: prefix + [k] in nodes
  {
    var q :| q in updates && prefix <= q;
    ProperPrefix(prefix, q);
    PrefixOfLonger(prefix, q[|prefix|], q);
    assert prefix + [q[|prefix|]] in nodes;
  }

  /** Stated for whole updates: the paths are prefix-free and all of them exist. */
  lemma AppliesExactly(nodes: Nodes, updates: map<Path, Json>, t: Json)
    requires TrieHolds(nodes, updates) && [] in nodes && t.Obj?
    ensures Applies(nodes, [], t) <==> PrefixFree(updates) && AllExist(updates, t)
  {
    AppliesIffFits(nodes, updates, [], t);
    assert forall p: Path :: p[0..] == p && [] <= p;
  }
}
