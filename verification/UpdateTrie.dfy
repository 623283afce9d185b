/** The update trie as the program builds and applies it. */
module UpdateTrie {
  import opened Basics
  import opened Json
  import opened Updates
  import opened Orders
  import opened ApplyOrders

  /** Below `prefix`, array elements are addressed by their printed index. */
  ghost predicate Aligned(updates: map<Path, Json>, prefix: Path, t: Json) {
    forall q :: q in updates && prefix <= q ==> CanonicalPath(t, q[|prefix|..])
  }

  lemma AlignedDown(updates: map<Path, Json>, prefix: Path, t: Json, k: string)
    requires Aligned(updates, prefix, t) && Sub(t, k).Some?
    ensures Aligned(updates, prefix + [k], Sub(t, k).value)
  {
    forall q | q in updates && prefix + [k] <= q ensures CanonicalPath(Sub(t, k).value, q[|prefix| + 1..]) {
      PrefixOfLonger(prefix, k, q);
      assert q[|prefix|..] == [k] + q[|prefix| + 1..];
      assert q[|prefix|..][1..] == q[|prefix| + 1..];
    }
  }

  /** The key of an array child is the printed index of the element it addresses. */
  lemma AlignedKey(nodes: Nodes, updates: map<Path, Json>, prefix: Path, items: seq<Json>, k: string)
    requires TrieHolds(nodes, updates) && prefix + [k] in nodes
    requires Aligned(updates, prefix, Arr(items)) && IndexIn(k, items).Some?
    ensures k == Itoa(IndexIn(k, items).value)
  {
    var q :| q in updates && prefix + [k] <= q;
    PrefixOfLonger(prefix, k, q);
    assert q[|prefix|..][0] == k;
  }

  lemma ChildlessIsKept(nodes: Nodes, updates: map<Path, Json>, prefix: Path, k: string, t: Json)
    requires TrieHolds(nodes, updates) && prefix + [k] !in nodes
    ensures Updated(updates, prefix + [k], t) == t
  {
    forall p | p in updates ensures !(prefix + [k] <= p) { }
    NoUpdateBelow(updates, prefix + [k], t);
  }

  predicate IsPrefix(p: Path, q: Path) {
    p <= q
  }

  lemma PrefixesOf(p: Path, k: string)
    ensures forall q :: IsPrefix(q, p + [k]) <==> IsPrefix(q, p) || q == p + [k]
  {
    forall q ensures IsPrefix(q, p + [k]) <==> IsPrefix(q, p) || q == p + [k] {
      if q <= p + [k] && |q| <= |p| { assert q == (p + [k])[..|q|] == p[..|q|]; }
    }
  }

  lemma AddKeepsTrie(before: Nodes, after: Nodes, updates: map<Path, Json>, parts: Path, value: Json)
    requires TrieHolds(before, updates)
    requires forall p :: p in after <==> p in before || IsPrefix(p, parts)
    requires forall p :: p in after ==> after[p] == if p == parts then Some(value) else if p in before then before[p] else None
    ensures TrieHolds(after, updates[parts := value])
  {
    var more := updates[parts := value];
    forall p ensures p in after <==> p == [] || exists q :: q in more && p <= q {
      if p in before && p != [] {
        var q :| q in updates && p <= q;
        assert q in more;
      }
      if IsPrefix(p, parts) { assert parts in more && p <= parts; }
      if exists q :: q in more && p <= q {
        var q :| q in more && p <= q;
        assert q in updates || IsPrefix(p, parts);
      }
    }
  }

  class Trie {
    var nodes: Nodes
    ghost var updates: map<Path, Json>

    ghost predicate Valid()
      reads this
    {
      TrieHolds(nodes, updates)
    }

    constructor ()
      ensures Valid() && updates == map[]
    {
      nodes, updates := map[[] := None], map[];
    }

    /** add: refuses a path with an empty segment; otherwise the path is updated and nothing else changes. */
    method Add(parts: Path, value: Json) returns (ok: bool)
      requires Valid()
      modifies this
      ensures ok <==> parts != [] && "" !in parts
      ensures ok ==> Valid() && updates == old(updates)[parts := value]
    {
      if parts == [] || parts[0] == "" { return false; }
      ghost var before := nodes;
      var current: Path := [];
      var i := 0;
      while i < |parts|
        invariant 0 <= i <= |parts| && current == parts[..i] && "" !in parts[..i]
        invariant forall p :: p in nodes <==> p in before || IsPrefix(p, current)
        invariant forall p :: p in nodes ==> nodes[p] == if p in before then before[p] else None
        invariant current in nodes && updates == old(updates)
      {
        if parts[i] == "" { return false; }
        var next := current + [parts[i]];
        assert next == parts[..i + 1];
        PrefixesOf(current, parts[i]);
        if next !in nodes { nodes := nodes[next := None]; }
        current := next;
        i := i + 1;
      }
      assert current == parts;
      nodes := nodes[current := Some(value)];
      AddKeepsTrie(before, nodes, updates, parts, value);
      updates := updates[parts := value];
      ok := true;
    }

    /**
     * apply, with the order in which the maps of children yield their keys. It
     * succeeds exactly when the trie applies, whatever the order.
     */
    method Apply(prefix: Path, current: Json, order: Order) returns (r: Result<Json>)
      requires Valid() && prefix in nodes
      ensures r.Ok? <==> Applies(nodes, prefix, current)
      ensures r.Ok? ==> r.value == ApplyIn(nodes, order, prefix, current)
      decreases current, 1
    {
      TrieValue(nodes, updates, prefix);
      if nodes[prefix].Some? {
        if Children(nodes, prefix) != {} { return Err; }
        return Ok(nodes[prefix].value);
      }
      match current {
        case Obj(_) => r := ApplyObject(prefix, current, order);
        case Arr(_) => r := ApplyArray(prefix, current, order);
        case _ => r := Err;
      }
    }

    method ApplyObject(prefix: Path, current: Json, order: Order) returns (r: Result<Json>)
      requires Valid() && prefix in nodes && nodes[prefix].None? && current.Obj?
      ensures r.Ok? <==> Applies(nodes, prefix, current)
      ensures r.Ok? ==> r.value == ApplyIn(nodes, order, prefix, current)
      decreases current, 0
    {
      hide TrieHolds, Children;
      var f := current.fields;
      var keys := order(prefix, Children(nodes, prefix));
      Listed(keys, Children(nodes, prefix));
      forall k ensures k in keys <==> prefix + [k] in nodes { ChildrenAre(nodes, prefix, k); }
      var cloned := f;
      var i := 0;
      while i < |keys|
        invariant 0 <= i <= |keys| && cloned.Keys == f.Keys
        invariant forall j :: 0 <= j < i ==> keys[j] in f && Applies(nodes, prefix + [keys[j]], f[keys[j]])
        invariant forall k :: k in f ==> cloned[k] == if k in keys[..i] then ApplyIn(nodes, order, prefix + [k], f[k]) else f[k]
      {
        var k := keys[i];
        if k !in f { return Err; }
        var child := Apply(prefix + [k], f[k], order);
        if child.Err? { return Err; }
        cloned := cloned[k := child.value];
        i := i + 1;
      }
      assert keys[..i] == keys;
      r := Ok(Obj(cloned));
      assert cloned == ApplyIn(nodes, order, prefix, current).fields;
    }

    method ApplyArray(prefix: Path, current: Json, order: Order) returns (r: Result<Json>)
      requires Valid() && prefix in nodes && nodes[prefix].None? && current.Arr?
      ensures r.Ok? <==> Applies(nodes, prefix, current)
      ensures r.Ok? ==> r.value == ApplyIn(nodes, order, prefix, current)
      decreases current, 0
    {
      hide TrieHolds, Children, Atoi, Itoa;
      var items := current.items;
      var keys := order(prefix, Children(nodes, prefix));
      Listed(keys, Children(nodes, prefix));
      forall k ensures k in keys <==> prefix + [k] in nodes { ChildrenAre(nodes, prefix, k); }
      var cloned := items;
      var i := 0;
      while i < |keys|
        invariant 0 <= i <= |keys| && |cloned| == |items|
        invariant forall j :: 0 <= j < i ==>
                    IndexIn(keys[j], items).Some? && Applies(nodes, prefix + [keys[j]], items[IndexIn(keys[j], items).value])
        invariant forall x :: 0 <= x < |items| ==> cloned[x] == Written(nodes, order, prefix, items, keys[..i], x)
      {
        var k := keys[i];
        var index := IndexIn(k, items);
        if index.None? { return Err; }
        var child := Apply(prefix + [k], items[index.value], order);
        if child.Err? { return Err; }
        cloned := cloned[index.value := child.value];
        assert keys[..i + 1][..i] == keys[..i] && keys[..i + 1][i] == k;
        i := i + 1;
      }
      assert keys[..i] == keys;
      r := Ok(Arr(cloned));
      assert cloned == ApplyIn(nodes, order, prefix, current).items;
    }
  }

  /** Element `x` once the children `keys` have been visited. */
  function Written(nodes: Nodes, o: Order, prefix: Path, items: seq<Json>, keys: seq<string>, x: nat): Json
    requires x < |items|
  {
    match LastWriter(keys, items, x)
    case None => items[x]
    case Some(k) => ApplyIn(nodes, o, prefix + [k], items[x])
  }

  // ----- Which tries do not depend on the order -----

  /** With printed indices every order gives the reference update. */
  lemma {:induction false} AlignedIsUpdated(nodes: Nodes, updates: map<Path, Json>, o: Order, prefix: Path, t: Json)
    requires TrieHolds(nodes, updates) && Aligned(updates, prefix, t)
    ensures ApplyIn(nodes, o, prefix, t) == Updated(updates, prefix, t)
    decreases t
  {
    hide TrieHolds, Aligned, Itoa, Atoi, Children;
    if prefix !in nodes {
      NotInTrie(nodes, updates, prefix);
      NoUpdateBelow(updates, prefix, t);
    } else {
      TrieValue(nodes, updates, prefix);
      if nodes[prefix].None? {
        match t {
          case Obj(f) =>
            forall k | k in f ensures ApplyIn(nodes, o, prefix + [k], f[k]) == Updated(updates, prefix + [k], f[k]) {
              AlignedDown(updates, prefix, t, k);
              AlignedIsUpdated(nodes, updates, o, prefix + [k], f[k]);
            }
            assert ApplyIn(nodes, o, prefix, t).fields == Updated(updates, prefix, t).fields;
          case Arr(items) =>
            forall i | 0 <= i < |items|
              ensures ApplyIn(nodes, o, prefix, t).items[i] == Updated(updates, prefix + [Itoa(i)], items[i])
            {
              AtoiItoa(i);
              WriterIsChild(nodes, o, prefix, items, i);
              var w := LastWriter(o(prefix, Children(nodes, prefix)), items, i);
              if w.Some? {
                ChildrenAre(nodes, prefix, w.value);
                AlignedKey(nodes, updates, prefix, items, w.value);
                AlignedDown(updates, prefix, t, w.value);
                AlignedIsUpdated(nodes, updates, o, prefix + [w.value], items[i]);
              } else {
                ChildrenAre(nodes, prefix, Itoa(i));
                ChildlessIsKept(nodes, updates, prefix, Itoa(i), items[i]);
              }
            }
            assert ApplyIn(nodes, o, prefix, t).items == Updated(updates, prefix, t).items;
          case _ =>
        }
      }
    }
  }

  lemma NotInTrie(nodes: Nodes, updates: map<Path, Json>, prefix: Path)
    requires TrieHolds(nodes, updates) && prefix !in nodes
    ensures forall p :: p in updates ==> !(prefix <= p)
  {
  }

  /** No two updates name one array element differently. */
  predicate Unaliased(nodes: Nodes, prefix: Path, t: Json)
    decreases t
  {
    prefix in nodes && nodes[prefix].None? ==>
      match t
      case Obj(f) => forall k :: k in f ==> Unaliased(nodes, prefix + [k], f[k])
      case Arr(items) =>
        && (forall k :: k in Children(nodes, prefix) && IndexIn(k, items).Some? ==>
              Unaliased(nodes, prefix + [k], items[IndexIn(k, items).value]))
        && (forall j, k :: j in Children(nodes, prefix) && k in Children(nodes, prefix) ==>
              IndexIn(j, items).None? || IndexIn(j, items) != IndexIn(k, items) || j == k)
      case _ => true
  }

  lemma {:induction false} UnaliasedIsClear(nodes: Nodes, prefix: Path, t: Json)
    requires Unaliased(nodes, prefix, t)
    ensures Clear(nodes, prefix, t)
    decreases t
  {
    hide Children, IndexIn, AnyResult;
    if prefix in nodes && nodes[prefix].None? {
      match t {
        case Obj(f) => forall k | k in f { UnaliasedIsClear(nodes, prefix + [k], f[k]); }
        case Arr(items) =>
          forall k | k in Children(nodes, prefix) && IndexIn(k, items).Some? {
            UnaliasedIsClear(nodes, prefix + [k], items[IndexIn(k, items).value]);
          }
        case _ =>
      }
    }
  }

  /** A single update does not depend on the order, however its path is written. */
  lemma {:induction false} SingleUpdateIsUnaliased(nodes: Nodes, p: Path, value: Json, prefix: Path, t: Json)
    requires TrieHolds(nodes, map[p := value])
    ensures Unaliased(nodes, prefix, t)
    decreases t
  {
    hide IndexIn;
    forall k | k in Children(nodes, prefix) ensures prefix + [k] <= p {
      ChildrenAre(nodes, prefix, k);
      assert prefix + [k] in nodes;
    }
    assert forall j, k :: j in Children(nodes, prefix) && k in Children(nodes, prefix) ==>
      (prefix + [j])[|prefix|] == p[|prefix|] == (prefix + [k])[|prefix|];
    hide TrieHolds, Children;
    match t {
      case Obj(f) => forall k | k in f { SingleUpdateIsUnaliased(nodes, p, value, prefix + [k], f[k]); }
      case Arr(items) =>
        forall k | k in Children(nodes, prefix) && IndexIn(k, items).Some? {
          SingleUpdateIsUnaliased(nodes, p, value, prefix + [k], items[IndexIn(k, items).value]);
        }
      case _ =>
    }
  }

  // ----- Two spellings of one index -----

  lemma SpellingsOfOne(items: seq<Json>)
    requires |items| == 2
    ensures IndexIn("1", items) == Some(1) && IndexIn("01", items) == Some(1)
  {
    assert "1"[..0] == "" && "01"[..1] == "0" && "0"[..0] == "";
    assert ValueOf("1") == 1 && ValueOf("0") == 0 && ValueOf("01") == 1;
  }

  /** An array under `items` of which two spellings of index 1 are updated does not have one result, unless they make the same of it. */
  lemma SpellingsAreTwins(nodes: Nodes, items: seq<Json>)
    requires [] in nodes && nodes[[]].None? && ["items"] in nodes && nodes[["items"]].None?
    requires ["items", "1"] in nodes && ["items", "01"] in nodes && |items| == 2
    requires AnyResult(nodes, ["items", "1"], items[1]) != AnyResult(nodes, ["items", "01"], items[1])
    ensures !OrdersAgree(nodes, [], Obj(map["items" := Arr(items)]))
  {
    hide AnyResult, Children, IndexIn;
    SpellingsOfOne(items);
    var p := ["items"];
    assert [] + ["items"] == p && p + ["1"] == ["items", "1"] && p + ["01"] == ["items", "01"];
    ChildrenAre(nodes, p, "1");
    ChildrenAre(nodes, p, "01");
    assert !Twins(nodes, p, items, "1", "01");
    assert !Clear(nodes, p, Arr(items));
    var f := map["items" := Arr(items)];
    assert "items" in f && !Clear(nodes, [] + ["items"], f["items"]);
    OrdersAgreeIffClear(nodes, [], Obj(f));
  }

  function SpellingUpdates(): map<Path, Json> {
    map[["items", "1"] := Bool(true), ["items", "01"] := Bool(false)]
  }

  function SpellingNodes(): Nodes {
    map[[] := None, ["items"] := None, ["items", "1"] := Some(Bool(true)), ["items", "01"] := Some(Bool(false))]
  }

  lemma SpellingTrie()
    ensures TrieHolds(SpellingNodes(), SpellingUpdates())
  {
    var nodes, updates := SpellingNodes(), SpellingUpdates();
    var a, b := ["items", "1"], ["items", "01"];
    assert a != b && a in updates && b in updates;
    forall p | p in nodes ensures p == [] || exists q :: q in updates && p <= q {
      assert p == [] || p <= a || p <= b;
    }
    forall p, q | q in updates && p <= q ensures p in nodes { PathPrefixes(q, p); }
  }

  /** `items.1` and `items.01` name one element; with different values the last one visited wins. */
  lemma UnprintedIndicesDependOnOrder()
    ensures TrieHolds(SpellingNodes(), SpellingUpdates())
    ensures !OrdersAgree(SpellingNodes(), [], Obj(map["items" := Arr([Null, Null])]))
  {
    hide TrieHolds, OrdersAgree, Children;
    SpellingTrie();
    SpellingsAreTwins(SpellingNodes(), [Null, Null]);
  }

  lemma PathPrefixes(q: Path, p: Path)
    requires |q| == 2
    ensures p <= q <==> p == [] || p == [q[0]] || p == q
  {
    if p <= q { assert p == q[..|p|]; }
  }

  function ClashNodes(): Nodes {
    map[[] := None, ["items"] := None, ["items", "1"] := None, ["items", "01"] := None,
        ["items", "1", "a"] := Some(Bool(true)), ["items", "01", "b"] := Some(Bool(true))]
  }

  /** Even updates of different places clash when they pass through one element under two spellings: one of them is lost. */
  lemma DifferentPlacesCanClash()
    ensures var item := Obj(map["a" := Null, "b" := Null]);
            !OrdersAgree(ClashNodes(), [], Obj(map["items" := Arr([Null, item])]))
  {
    var nodes := ClashNodes();
    var item := Obj(map["a" := Null, "b" := Null]);
    assert ["items", "1"] + ["a"] == ["items", "1", "a"] && ["items", "01"] + ["a"] == ["items", "01", "a"];
    assert AnyResult(nodes, ["items", "1"], item).fields["a"] == Bool(true);
    assert AnyResult(nodes, ["items", "01"], item).fields["a"] == Null;
    SpellingsAreTwins(nodes, [Null, item]);
  }
}
