/**
 * The compiled route table: scheme, then host labels from the last one, then a
 * path trie. A node is named by its address, the way it is reached from the root,
 * so `nodes` holds the records the program reaches through child pointers.
 */
module RouteTrie {
  import opened Basics
  import opened Strings
  import opened RouteSpec

  datatype NodeKey = NodeKey(scheme: string, host: HostKey, path: seq<Edge>)

  /** `minRef` is None only in a node that nothing has been inserted through. */
  datatype PathNode = PathNode(byMethod: map<string, seq<Ref>>, minRef: Option<Ref>)

  datatype HostAddress = HostAddress(scheme: string, suffix: seq<string>)

  function RefsOf(node: PathNode, verb: string): seq<Ref> {
    if verb in node.byMethod then node.byMethod[verb] else []
  }

  // ----- What the nodes must hold, as functions of the inserted patterns -----

  /** Inserting `e` passes through node `k`. */
  predicate Covers(e: Entry, k: NodeKey) {
    e.scheme == k.scheme && e.host == k.host && k.path <= Edges(e.tokens)
  }

  /** The pattern of `e` ends at node `k`. */
  predicate EndsAt(e: Entry, k: NodeKey) {
    e.scheme == k.scheme && e.host == k.host && k.path == Edges(e.tokens)
  }

  /** The least reference inserted at or below `k`. */
  function MinBelow(entries: seq<Entry>, k: NodeKey): Option<Ref> {
    if entries == [] then None
    else
      var e := entries[|entries| - 1];
      var m := MinBelow(entries[..|entries| - 1], k);
      if Covers(e, k) then Lesser(m, e.ref) else m
  }

  /** updateMinRef on a reference that may be nil. */
  function Lesser(m: Option<Ref>, r: Ref): Option<Ref> {
    if m.None? || Less(r, m.value) then Some(r) else m
  }

  /** The references registered for `verb` at `k`, in insertion order. */
  function RefsAt(entries: seq<Entry>, k: NodeKey, verb: string): seq<Ref> {
    if entries == [] then []
    else
      var e := entries[|entries| - 1];
      RefsAt(entries[..|entries| - 1], k, verb) + (if EndsAt(e, k) && verb in e.methods then [e.ref] else [])
  }

  lemma {:induction false} MinBelowIsLeast(entries: seq<Entry>, k: NodeKey)
    ensures MinBelow(entries, k).None? <==> forall e :: e in entries ==> !Covers(e, k)
    ensures MinBelow(entries, k).Some? ==>
              && (exists e :: e in entries && Covers(e, k) && e.ref == MinBelow(entries, k).value)
              && (forall e :: e in entries && Covers(e, k) ==> !Less(e.ref, MinBelow(entries, k).value))
    decreases |entries|
  {
    hide Covers;
    if entries != [] {
      var last, init := entries[|entries| - 1], entries[..|entries| - 1];
      MinBelowIsLeast(init, k);
      assert entries == init + [last];
      assert forall e :: e in entries <==> e in init || e == last;
    }
  }

  lemma {:induction false} RefsAtMember(entries: seq<Entry>, k: NodeKey, verb: string, r: Ref)
    ensures r in RefsAt(entries, k, verb) <==>
            exists e :: e in entries && EndsAt(e, k) && verb in e.methods && e.ref == r
    decreases |entries|
  {
    hide EndsAt;
    if entries != [] {
      var last, init := entries[|entries| - 1], entries[..|entries| - 1];
      RefsAtMember(init, k, verb, r);
      assert entries == init + [last];
      assert forall e :: e in entries <==> e in init || e == last;
    }
  }

  predicate Sorted(refs: seq<Ref>) {
    forall i, j :: 0 <= i < j < |refs| ==> Less(refs[i], refs[j])
  }

  /** When patterns arrive in declaration order, every method list is strictly ascending. */
  lemma {:induction false} RefsAtSorted(entries: seq<Entry>, k: NodeKey, verb: string)
    requires Ascending(entries)
    ensures Sorted(RefsAt(entries, k, verb))
    decreases |entries|
  {
    if entries != [] {
      var last, init := entries[|entries| - 1], entries[..|entries| - 1];
      RefsAtSorted(init, k, verb);
      forall r | r in RefsAt(init, k, verb) ensures Less(r, last.ref) {
        RefsAtMember(init, k, verb, r);
        var e :| e in init && e.ref == r;
        var i :| 0 <= i < |init| && init[i] == e;
        assert entries[i] == e;
      }
    }
  }

  lemma MinBelowAppend(entries: seq<Entry>, e: Entry, k: NodeKey)
    ensures MinBelow(entries + [e], k) == if Covers(e, k) then Lesser(MinBelow(entries, k), e.ref) else MinBelow(entries, k)
  {
    assert (entries + [e])[..|entries|] == entries;
  }

  lemma RefsAtAppend(entries: seq<Entry>, e: Entry, k: NodeKey, verb: string)
    ensures RefsAt(entries + [e], k, verb) ==
            RefsAt(entries, k, verb) + (if EndsAt(e, k) && verb in e.methods then [e.ref] else [])
  {
    assert (entries + [e])[..|entries|] == entries;
  }

  predicate Distinct(methods: seq<string>) {
    forall i, j :: 0 <= i < j < |methods| ==> methods[i] != methods[j]
  }

  /** The node record is what `entries` put there. */
  ghost predicate NodeHolds(node: PathNode, entries: seq<Entry>, k: NodeKey) {
    && node.minRef == MinBelow(entries, k)
    && forall verb :: RefsOf(node, verb) == RefsAt(entries, k, verb)
  }

  /** Node `k` exists exactly when something was inserted through it, and then holds what it should. */
  ghost predicate KeyHolds(nodes: map<NodeKey, PathNode>, entries: seq<Entry>, k: NodeKey) {
    && (k in nodes <==> MinBelow(entries, k).Some?)
    && (k in nodes ==> NodeHolds(nodes[k], entries, k))
  }

  ghost predicate NodesHold(nodes: map<NodeKey, PathNode>, entries: seq<Entry>) {
    forall k :: KeyHolds(nodes, entries, k)
  }

  /** Host nodes exist for every non-empty label suffix of an inserted host. */
  predicate NeedsHost(e: Entry, a: HostAddress) {
    && a.scheme == e.scheme
    && match e.host
       case AnyHost => false
       case ExactHost(l) => 0 < |a.suffix| <= |l| && l[|l| - |a.suffix|..] == a.suffix
       case UnderHost(s) => 0 < |a.suffix| <= |s| && s[|s| - |a.suffix|..] == a.suffix
  }

  ghost predicate HostsHold(hosts: set<HostAddress>, entries: seq<Entry>) {
    forall a :: a in hosts <==> exists e :: e in entries && NeedsHost(e, a)
  }

  const EMPTY := PathNode(map[], None)

  /** Node `k` while `e` is being inserted and its nodes down to depth `n` have been visited. */
  ghost predicate KeyWalked(nodes: map<NodeKey, PathNode>, entries: seq<Entry>, e: Entry, n: int, k: NodeKey) {
    var visited := Covers(e, k) && |k.path| <= n;
    && (k in nodes <==> MinBelow(entries, k).Some? || visited)
    && (k in nodes ==>
          && nodes[k].minRef == (if visited then Lesser(MinBelow(entries, k), e.ref) else MinBelow(entries, k))
          && forall verb :: RefsOf(nodes[k], verb) == RefsAt(entries, k, verb))
  }

  ghost predicate Walked(nodes: map<NodeKey, PathNode>, entries: seq<Entry>, e: Entry, n: int) {
    forall k :: KeyWalked(nodes, entries, e, n, k)
  }

  lemma NothingThere(entries: seq<Entry>, k: NodeKey)
    requires MinBelow(entries, k).None?
    ensures forall verb :: RefsAt(entries, k, verb) == []
  {
    MinBelowIsLeast(entries, k);
    forall verb ensures RefsAt(entries, k, verb) == [] {
      NoRefsThere(entries, k, verb);
    }
  }

  lemma {:induction false} NoRefsThere(entries: seq<Entry>, k: NodeKey, verb: string)
    requires forall x :: x in entries ==> !Covers(x, k)
    ensures RefsAt(entries, k, verb) == []
    decreases |entries|
  {
    if entries != [] {
      var last := entries[|entries| - 1];
      assert !Covers(last, k);
      NoRefsThere(entries[..|entries| - 1], k, verb);
    }
  }

  /** Visiting one more node of the pattern, whether it was there or has just been made. */
  lemma VisitKeepsWalked(before: map<NodeKey, PathNode>, entries: seq<Entry>, e: Entry, k: NodeKey)
    requires Covers(e, k) && Walked(before, entries, e, |k.path| - 1)
    ensures var node := if k in before then before[k] else EMPTY;
            Walked(before[k := node.(minRef := Lesser(node.minRef, e.ref))], entries, e, |k.path|)
  {
    var node := if k in before then before[k] else EMPTY;
    var after := before[k := node.(minRef := Lesser(node.minRef, e.ref))];
    assert KeyWalked(before, entries, e, |k.path| - 1, k);
    if k !in before { NothingThere(entries, k); }
    forall x ensures KeyWalked(after, entries, e, |k.path|, x) {
      hide MinBelow, RefsAt, Less, Lesser;
      if x != k {
        assert KeyWalked(before, entries, e, |k.path| - 1, x);
        assert Covers(e, x) ==> |x.path| != |k.path|;
      }
    }
  }

  lemma HoldsIsWalked(nodes: map<NodeKey, PathNode>, entries: seq<Entry>, e: Entry)
    requires NodesHold(nodes, entries)
    ensures Walked(nodes, entries, e, -1)
  {
    forall k ensures KeyWalked(nodes, entries, e, -1, k) {
      assert KeyHolds(nodes, entries, k);
    }
  }

  /** Once the whole pattern is walked and its references are registered at its last node, the insertion is complete. */
  lemma WalkedToHolds(before: map<NodeKey, PathNode>, entries: seq<Entry>, e: Entry, last: NodeKey, node: PathNode)
    requires EndsAt(e, last) && Walked(before, entries, e, |e.tokens|) && last in before
    requires node.minRef == before[last].minRef
    requires forall verb :: RefsOf(node, verb) == RefsOf(before[last], verb) + (if verb in e.methods then [e.ref] else [])
    ensures NodesHold(before[last := node], entries + [e])
  {
    var after := before[last := node];
    forall k ensures KeyHolds(after, entries + [e], k) {
      assert KeyWalked(before, entries, e, |e.tokens|, k);
      MinBelowAppend(entries, e, k);
      forall verb ensures RefsAt(entries + [e], k, verb) ==
                          RefsAt(entries, k, verb) + (if EndsAt(e, k) && verb in e.methods then [e.ref] else [])
      {
        RefsAtAppend(entries, e, k, verb);
      }
      hide MinBelow, RefsAt, Less;
      assert EndsAt(e, k) <==> k == last;
    }
  }

  class RouteTable {
    var schemes: set<string>
    var hosts: set<HostAddress>
    var nodes: map<NodeKey, PathNode>
    ghost var entries: seq<Entry>

    ghost predicate Valid()
      reads this
    {
      && (forall s :: s in schemes <==> exists e :: e in entries && e.scheme == s)
      && HostsHold(hosts, entries)
      && NodesHold(nodes, entries)
    }

    constructor ()
      ensures Valid() && entries == []
    {
      schemes, hosts, nodes, entries := {}, {}, map[], [];
    }

    method UpdateMinRef(k: NodeKey, r: Ref)
      requires k in nodes
      modifies this`nodes
      ensures nodes == old(nodes)[k := old(nodes)[k].(minRef := Lesser(old(nodes)[k].minRef, r))]
    {
      var node := nodes[k];
      if node.minRef.None? || Less(r, node.minRef.value) {
        nodes := nodes[k := node.(minRef := Some(r))];
      } else {
        assert nodes == nodes[k := node];
      }
    }

    /** Go to node `k`, making it when missing, and count `e` in its minimum. */
    method VisitNode(k: NodeKey, e: Entry)
      requires Covers(e, k) && Walked(nodes, entries, e, |k.path| - 1)
      modifies this`nodes
      ensures Walked(nodes, entries, e, |k.path|) && k in nodes
    {
      hide Walked, Covers;
      VisitKeepsWalked(nodes, entries, e, k);
      ghost var before := nodes;
      if k !in nodes { nodes := nodes[k := EMPTY]; }
      UpdateMinRef(k, e.ref);
      ghost var node := if k in before then before[k] else EMPTY;
      assert nodes == before[k := node.(minRef := Lesser(node.minRef, e.ref))];
    }

    /** insert: walk the pattern from the root of its host, then register its methods at the last node. */
    method InsertPath(e: Entry)
      requires NodesHold(nodes, entries) && Distinct(e.methods)
      modifies this`nodes
      ensures NodesHold(nodes, entries + [e])
    {
      HoldsIsWalked(nodes, entries, e);
      var key := NodeKey(e.scheme, e.host, []);
      VisitNode(key, e);
      var i := 0;
      while i < |e.tokens|
        invariant i <= |e.tokens| && key == NodeKey(e.scheme, e.host, Edges(e.tokens)[..i])
        invariant Walked(nodes, entries, e, i) && key in nodes
      {
        key := key.(path := key.path + [EdgeOf(e.tokens[i])]);
        assert Edges(e.tokens)[..i + 1] == Edges(e.tokens)[..i] + [Edges(e.tokens)[i]];
        i := i + 1;
        assert |key.path| == i;
        VisitNode(key, e);
      }
      Register(key, e);
    }

    method Register(key: NodeKey, e: Entry)
      requires EndsAt(e, key) && key in nodes && Walked(nodes, entries, e, |e.tokens|) && Distinct(e.methods)
      modifies this`nodes
      ensures NodesHold(nodes, entries + [e])
    {
      hide Walked, NodesHold, EndsAt;
      ghost var before := nodes;
      var j := 0;
      while j < |e.methods|
        invariant j <= |e.methods| && key in nodes && nodes == before[key := nodes[key]]
        invariant nodes[key].minRef == before[key].minRef
        invariant forall verb :: RefsOf(nodes[key], verb) ==
                    RefsOf(before[key], verb) + (if verb in e.methods[..j] then [e.ref] else [])
      {
        var verb := e.methods[j];
        assert verb !in e.methods[..j];
        assert e.methods[..j + 1] == e.methods[..j] + [verb];
        var node := nodes[key];
        nodes := nodes[key := node.(byMethod := node.byMethod[verb := RefsOf(node, verb) + [e.ref]])];
        j := j + 1;
      }
      assert e.methods[..j] == e.methods;
      WalkedToHolds(before, entries, e, key, nodes[key]);
    }

    /** pathForHost: make the host nodes from the last label inwards. */
    method MakeHostNodes(scheme: string, labels: seq<string>)
      modifies this`hosts
      ensures forall a :: a in hosts <==>
                a in old(hosts) || (a.scheme == scheme && 0 < |a.suffix| <= |labels| && labels[|labels| - |a.suffix|..] == a.suffix)
    {
      var index := |labels|;
      while index > 0
        invariant 0 <= index <= |labels|
        invariant forall a :: a in hosts <==>
                    a in old(hosts) || (a.scheme == scheme && 0 < |a.suffix| <= |labels| - index && labels[|labels| - |a.suffix|..] == a.suffix)
      {
        index := index - 1;
        hosts := hosts + {HostAddress(scheme, labels[index..])};
      }
    }

    /** Compile one URI pattern into the table. Any order of insertion keeps the table valid. */
    method Insert(e: Entry)
      requires Valid() && Distinct(e.methods)
      modifies this
      ensures Valid() && entries == old(entries) + [e]
    {
      ghost var before := entries;
      schemes := schemes + {e.scheme};
      match e.host {
        case AnyHost =>
        case ExactHost(labels) => MakeHostNodes(e.scheme, labels);
        case UnderHost(suffix) => MakeHostNodes(e.scheme, suffix);
      }
      InsertPath(e);
      entries := entries + [e];
      assert forall x :: x in entries <==> x in before || x == e;
      assert HostsHold(hosts, entries) by {
        assert forall a :: a in hosts <==> a in old(hosts) || NeedsHost(e, a);
        hide NodesHold;
      }
    }
  }
}
