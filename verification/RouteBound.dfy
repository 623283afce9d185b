/**
 * The backtracking search of the route trie with its branch-and-bound pruning,
 * and the proof that it finds what the linear scan finds.
 */
module RouteBound {
  import opened Basics
  import opened Strings
  import opened RouteSpec
  import opened RouteTrie

  /** A match found by the search: the reference, the captured segments and the text covered by `**`. */
  datatype Found = Found(ref: Ref, captures: seq<string>, wildcard: string)

  function FoundFor(e: Entry, q: Request): Found {
    Found(e.ref, Captures(Edges(e.tokens), q.parts), Covered(Edges(e.tokens), q.parts))
  }

  predicate Accepts(e: Entry, q: Request) {
    PathMatches(Edges(e.tokens), q.parts) && VerbMatches(e.methods, q.verb)
  }

  /** All matches at or below a node. */
  ghost function Below(entries: seq<Entry>, k: NodeKey, q: Request): set<Found> {
    set e | e in entries && Covers(e, k) && Accepts(e, q) :: FoundFor(e, q)
  }

  /** All matches whose pattern ends at a node. */
  ghost function Ending(entries: seq<Entry>, k: NodeKey, q: Request): set<Found> {
    set e | e in entries && EndsAt(e, k) && Accepts(e, q) :: FoundFor(e, q)
  }

  /** `**` stands only at the end of a pattern. */
  predicate RestLast(edges: seq<Edge>) {
    forall i :: 0 <= i < |edges| - 1 ==> edges[i] != Rest
  }

  ghost predicate WellCompiled(entries: seq<Entry>) {
    Ascending(entries) && forall e :: e in entries ==> RestLast(Edges(e.tokens))
  }

  /** The path walked so far agrees with the leading segments of the request. */
  predicate Along(path: seq<Edge>, parts: seq<string>) {
    |path| <= |parts| && forall i :: 0 <= i < |path| ==> EdgeMatches(path[i], parts[i])
  }

  function Child(k: NodeKey, e: Edge): NodeKey {
    k.(path := k.path + [e])
  }

  /** `after` is the better of `before` and the least of `found`, and changes only for something better. */
  ghost predicate BestOf(before: Option<Found>, found: set<Found>, after: Option<Found>) {
    && (after == before || (after.Some? && after.value in found))
    && (forall f :: f in found ==> after.Some? && !Less(f.ref, after.value.ref))
    && (before.Some? ==> after.Some? && !Less(before.value.ref, after.value.ref))
    && (before.Some? && after != before ==> Less(after.value.ref, before.value.ref))
  }

  lemma BestOfBoth(a: Option<Found>, s: set<Found>, b: Option<Found>, t: set<Found>, c: Option<Found>)
    requires BestOf(a, s, b) && BestOf(b, t, c)
    ensures BestOf(a, s + t, c)
  {
  }

  /** A pattern through a node goes on through one of the children that agree with the next segment, or ends in `**`. */
  lemma CoversSplits(e: Entry, k: NodeKey, q: Request)
    requires RestLast(Edges(e.tokens)) && PathMatches(Edges(e.tokens), q.parts)
    requires Along(k.path, q.parts) && |k.path| < |q.parts|
    ensures Covers(e, k) <==>
            || Covers(e, Child(k, Lit(q.parts[|k.path|]))) || Covers(e, Child(k, Param)) || Covers(e, Child(k, Wild))
            || EndsAt(e, Child(k, Rest))
  {
    hide Edges;
    var i := |k.path|;
    var edges := Edges(e.tokens);
    if Covers(e, k) {
      assert |edges| > i && k.path + [edges[i]] == edges[..i + 1];
      if edges[i] == Rest {
        assert i == |edges| - 1;
      } else {
        assert EdgeMatches(edges[i], q.parts[i]);
      }
    }
  }

  /** The matches below a node are those below its children and those of its own `**` child. */
  lemma BelowSplits(entries: seq<Entry>, k: NodeKey, q: Request)
    requires WellCompiled(entries) && Along(k.path, q.parts) && |k.path| < |q.parts|
    ensures Below(entries, k, q) ==
            Below(entries, Child(k, Lit(q.parts[|k.path|])), q) + Below(entries, Child(k, Param), q)
            + Below(entries, Child(k, Wild), q) + Ending(entries, Child(k, Rest), q)
  {
    hide Covers, EndsAt, PathMatches, FoundFor, RestLast, VerbMatches, Along;
    var lit := Child(k, Lit(q.parts[|k.path|]));
    forall e | e in entries && Accepts(e, q)
      ensures Covers(e, k) <==>
              Covers(e, lit) || Covers(e, Child(k, Param)) || Covers(e, Child(k, Wild)) || EndsAt(e, Child(k, Rest))
    {
      CoversSplits(e, k, q);
    }
    hide Accepts;
  }

  /** At the end of the request only patterns that end here, or in the `**` child, match. */
  lemma BelowAtEnd(entries: seq<Entry>, k: NodeKey, q: Request)
    requires WellCompiled(entries) && Along(k.path, q.parts) && |k.path| == |q.parts|
    ensures Below(entries, k, q) == Ending(entries, k, q) + Ending(entries, Child(k, Rest), q)
  {
    forall e | e in entries && Accepts(e, q)
      ensures Covers(e, k) <==> EndsAt(e, k) || EndsAt(e, Child(k, Rest))
    {
      var edges := Edges(e.tokens);
      if Covers(e, k) && edges != k.path {
        assert |edges| == |k.path| + 1 && edges == k.path + [edges[|k.path|]];
      }
    }
  }

  lemma NothingBelow(nodes: map<NodeKey, PathNode>, entries: seq<Entry>, k: NodeKey, q: Request)
    requires NodesHold(nodes, entries) && k !in nodes
    ensures Below(entries, k, q) == {} && Ending(entries, k, q) == {}
  {
    assert KeyHolds(nodes, entries, k);
    MinBelowIsLeast(entries, k);
    forall e | e in entries ensures !Covers(e, k) && !EndsAt(e, k) {
      assert EndsAt(e, k) ==> Covers(e, k);
    }
  }

  /** Pruning is safe: a subtree whose least reference is not below the best one holds nothing better. */
  lemma PruneIsSafe(nodes: map<NodeKey, PathNode>, entries: seq<Entry>, k: NodeKey, q: Request, best: Option<Found>)
    requires NodesHold(nodes, entries) && k in nodes
    requires best.Some? && !(nodes[k].minRef.Some? && Less(nodes[k].minRef.value, best.value.ref))
    ensures BestOf(best, Below(entries, k, q), best)
  {
    assert KeyHolds(nodes, entries, k);
    MinBelowIsLeast(entries, k);
    forall f | f in Below(entries, k, q) ensures !Less(f.ref, best.value.ref) {
      var e :| e in entries && Covers(e, k) && f == FoundFor(e, q);
    }
  }

  /** Every pattern that ends at `k` captures what the walk to `k` captured. */
  ghost predicate SameCaptures(entries: seq<Entry>, k: NodeKey, q: Request, captures: seq<string>, wildcard: string) {
    forall e :: e in entries && EndsAt(e, k) ==>
      PathMatches(Edges(e.tokens), q.parts) && FoundFor(e, q) == Found(e.ref, captures, wildcard)
  }

  lemma CapturesHere(entries: seq<Entry>, k: NodeKey, q: Request)
    requires Along(k.path, q.parts) && |k.path| == |q.parts|
    ensures SameCaptures(entries, k, q, Captures(k.path, q.parts), "")
  {
    forall e | e in entries && EndsAt(e, k)
      ensures PathMatches(Edges(e.tokens), q.parts) && FoundFor(e, q) == Found(e.ref, Captures(k.path, q.parts), "")
    {
      if k.path != [] { assert EdgeMatches(k.path[|k.path| - 1], q.parts[|k.path| - 1]); }
    }
  }

  lemma CapturesRest(entries: seq<Entry>, k: NodeKey, q: Request)
    requires Along(k.path, q.parts)
    ensures SameCaptures(entries, Child(k, Rest), q, Captures(k.path, q.parts), Join(q.parts[|k.path|..], '/'))
  {
    hide Join;
    var path := k.path + [Rest];
    assert path[..|k.path|] == k.path;
    assert PathMatches(path, q.parts) && Captures(path, q.parts) == Captures(k.path, q.parts);
    assert Covered(path, q.parts) == Join(q.parts[|k.path|..], '/');
    hide PathMatches, Captures, Covered;
  }

  function First(refs: seq<Ref>): Option<Ref> {
    if refs == [] then None else Some(refs[0])
  }

  /** The candidate selectMatch settles on: the first reference for the verb or for `*`. */
  function Candidate(node: PathNode, verb: string): Option<Ref> {
    var own := First(RefsOf(node, verb));
    var any := First(RefsOf(node, "*"));
    if verb != "*" && any.Some? && (own.None? || Less(any.value, own.value)) then any else own
  }

  predicate Registers(e: Entry, k: NodeKey, verb: string) {
    EndsAt(e, k) && verb in e.methods
  }

  /** Method lists ascend, so their heads are their least references. */
  lemma HeadIsLeast(entries: seq<Entry>, k: NodeKey, verb: string)
    requires Ascending(entries)
    ensures var head := First(RefsAt(entries, k, verb));
            && (head.Some? ==> exists e :: e in entries && Registers(e, k, verb) && e.ref == head.value)
            && (forall e :: e in entries && Registers(e, k, verb) ==> head.Some? && !Less(e.ref, head.value))
  {
    RefsAtSorted(entries, k, verb);
    var refs := RefsAt(entries, k, verb);
    if refs != [] {
      RefsAtMember(entries, k, verb, refs[0]);
      var e :| e in entries && EndsAt(e, k) && verb in e.methods && e.ref == refs[0];
      assert Registers(e, k, verb);
    }
    forall e | e in entries && Registers(e, k, verb) ensures refs != [] && !Less(e.ref, refs[0]) {
      RefsAtMember(entries, k, verb, e.ref);
    }
  }

  /** The candidate is the least reference whose methods admit the verb. */
  lemma CandidateIsLeast(nodes: map<NodeKey, PathNode>, entries: seq<Entry>, k: NodeKey, verb: string)
    requires NodesHold(nodes, entries) && Ascending(entries) && k in nodes
    ensures var c := Candidate(nodes[k], verb);
            && (c.Some? ==> exists e :: e in entries && EndsAt(e, k) && VerbMatches(e.methods, verb) && e.ref == c.value)
            && (forall e :: e in entries && EndsAt(e, k) && VerbMatches(e.methods, verb) ==> c.Some? && !Less(e.ref, c.value))
  {
    hide RefsAt, MinBelow, EndsAt, Ascending;
    assert KeyHolds(nodes, entries, k);
    HeadIsLeast(entries, k, verb);
    HeadIsLeast(entries, k, "*");
    forall e | e in entries && EndsAt(e, k) && VerbMatches(e.methods, verb)
      ensures Candidate(nodes[k], verb).Some? && !Less(e.ref, Candidate(nodes[k], verb).value)
    {
      assert Registers(e, k, verb) || Registers(e, k, "*");
    }
  }
}
