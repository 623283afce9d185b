/** The search itself, updating one shared best match, and the table-level results. */
module RouteSearch {
  import opened Basics
  import opened Strings
  import opened RouteSpec
  import opened RouteAnswers
  import opened RouteTrie
  import opened RouteBound

  /** Host patterns met once the walk from the last label has reached position `index`. */
  predicate HostSeen(h: HostKey, labels: seq<string>, index: nat) {
    && HostMatches(h, labels)
    && match h
       case AnyHost => true
       case ExactHost(_) => index == 0
       case UnderHost(s) => |s| <= |labels| - index
  }

  ghost function ForHosts(entries: seq<Entry>, scheme: string, q: Request, index: nat): set<Found> {
    set e | e in entries && e.scheme == scheme && HostSeen(e.host, q.labels, index) && Accepts(e, q) :: FoundFor(e, q)
  }

  function Root(scheme: string, h: HostKey): NodeKey {
    NodeKey(scheme, h, [])
  }

  /** The host pattern examined at position `index`. */
  function HostAt(labels: seq<string>, index: nat): HostKey
    requires index < |labels|
  {
    if index == 0 then ExactHost(labels) else UnderHost(labels[index..])
  }

  lemma HostStep(entries: seq<Entry>, scheme: string, q: Request, index: nat)
    requires index < |q.labels|
    ensures ForHosts(entries, scheme, q, index) ==
            ForHosts(entries, scheme, q, index + 1) + Below(entries, Root(scheme, HostAt(q.labels, index)), q)
  {
    forall h: HostKey
      ensures HostSeen(h, q.labels, index) <==> HostSeen(h, q.labels, index + 1) || h == HostAt(q.labels, index)
    {
      if h.UnderHost? && |h.suffix| < |q.labels| {
        assert |q.labels[index..]| == |q.labels| - index;
      }
    }
  }

  /** When no host node exists for a label suffix, no longer suffix of the request can match. */
  lemma HostDeadEnd(hosts: set<HostAddress>, entries: seq<Entry>, scheme: string, q: Request, index: nat)
    requires HostsHold(hosts, entries) && index < |q.labels|
    requires HostAddress(scheme, q.labels[index..]) !in hosts
    ensures ForHosts(entries, scheme, q, 0) == ForHosts(entries, scheme, q, index + 1)
  {
    var a := HostAddress(scheme, q.labels[index..]);
    forall e | e in entries && e.scheme == scheme
      ensures HostSeen(e.host, q.labels, 0) <==> HostSeen(e.host, q.labels, index + 1)
    {
      assert !NeedsHost(e, a);
    }
  }

  lemma HostStart(entries: seq<Entry>, scheme: string, q: Request)
    ensures ForHosts(entries, scheme, q, |q.labels|) == Below(entries, Root(scheme, AnyHost), q)
  {
  }

  /** All matches of the table. */
  ghost function AllMatches(entries: seq<Entry>, q: Request): set<Found> {
    set e | e in entries && Matches(e, q) :: FoundFor(e, q)
  }

  lemma AllMatchesSplit(entries: seq<Entry>, q: Request)
    ensures AllMatches(entries, q) == ForHosts(entries, q.scheme, q, 0) + ForHosts(entries, "*", q, 0)
  {
  }

  lemma NoSuchScheme(entries: seq<Entry>, scheme: string, q: Request)
    requires forall e :: e in entries ==> e.scheme != scheme
    ensures ForHosts(entries, scheme, q, 0) == {}
  {
  }

  class Search {
    var best: Option<Found>

    constructor ()
      ensures best.None?
    {
      best := None;
    }

    /** selectMatch: compare the head of the verb's list with the head of the `*` list, then with the best so far. */
    method SelectMatch(table: RouteTable, k: NodeKey, q: Request, captures: seq<string>, wildcard: string)
      requires table.Valid() && Ascending(table.entries) && k in table.nodes
      requires SameCaptures(table.entries, k, q, captures, wildcard)
      modifies this
      ensures BestOf(old(best), Ending(table.entries, k, q), best)
    {
      CandidateIsLeast(table.nodes, table.entries, k, q.verb);
      hide NodesHold, HostsHold, PathMatches, EndsAt, VerbMatches, Ascending;
      var node := table.nodes[k];
      var own := RefsOf(node, q.verb);
      var candidate := if own == [] then None else Some(own[0]);
      if q.verb != "*" {
        var any := RefsOf(node, "*");
        if any != [] && (candidate.None? || Less(any[0], candidate.value)) { candidate := Some(any[0]); }
      }
      if candidate.None? || (best.Some? && !Less(candidate.value, best.value.ref)) { return; }
      best := Some(Found(candidate.value, captures, wildcard));
    }

    /** match: try the literal, parameter and `*` children and the `**` child of a node, unless it cannot improve on the best. */
    method MatchNode(table: RouteTable, k: NodeKey, q: Request, captures: seq<string>)
      requires table.Valid() && WellCompiled(table.entries) && k in table.nodes
      requires Along(k.path, q.parts) && captures == Captures(k.path, q.parts)
      modifies this
      ensures BestOf(old(best), Below(table.entries, k, q), best)
      decreases |q.parts| - |k.path|
    {
      hide NodesHold, HostsHold, WellCompiled, Below, Ending, BestOf, SameCaptures;
      ghost var es := table.entries;
      var node := table.nodes[k];
      if best.Some? && !(node.minRef.Some? && Less(node.minRef.value, best.value.ref)) {
        PruneIsSafe(table.nodes, es, k, q, best);
        return;
      }
      ghost var b0 := best;
      if |k.path| == |q.parts| {
        CapturesHere(es, k, q);
        MatchTerminal(table, k, q, captures, "");
        ghost var b1 := best;
        MatchRest(table, k, q, captures);
        BestOfBoth(b0, Ending(es, k, q), b1, Ending(es, Child(k, Rest), q), best);
        BelowAtEnd(es, k, q);
        return;
      }
      var part := q.parts[|k.path|];
      MatchChild(table, k, Lit(part), q, captures);
      ghost var b1 := best;
      MatchChild(table, k, Param, q, captures + [part]);
      ghost var b2 := best;
      MatchChild(table, k, Wild, q, captures);
      ghost var b3 := best;
      MatchRest(table, k, q, captures);
      var sl, sp, sw := Below(es, Child(k, Lit(part)), q), Below(es, Child(k, Param), q), Below(es, Child(k, Wild), q);
      BestOfBoth(b0, sl, b1, sp, b2);
      BestOfBoth(b0, sl + sp, b2, sw, b3);
      BestOfBoth(b0, sl + sp + sw, b3, Ending(es, Child(k, Rest), q), best);
      BelowSplits(es, k, q);
    }

    /** Descend along one edge, if that child exists. */
    method MatchChild(table: RouteTable, k: NodeKey, edge: Edge, q: Request, captures: seq<string>)
      requires table.Valid() && WellCompiled(table.entries)
      requires Along(k.path, q.parts) && |k.path| < |q.parts| && EdgeMatches(edge, q.parts[|k.path|])
      requires captures == Captures(k.path, q.parts) + (if edge == Param then [q.parts[|k.path|]] else [])
      modifies this
      ensures BestOf(old(best), Below(table.entries, Child(k, edge), q), best)
      decreases |q.parts| - |k.path|, 0
    {
      hide NodesHold, HostsHold, WellCompiled, Below;
      var child := Child(k, edge);
      if child in table.nodes {
        assert child.path[..|k.path|] == k.path;
        MatchNode(table, child, q, captures);
      } else {
        NothingBelow(table.nodes, table.entries, child, q);
      }
    }

    method MatchTerminal(table: RouteTable, k: NodeKey, q: Request, captures: seq<string>, wildcard: string)
      requires table.Valid() && WellCompiled(table.entries)
      requires SameCaptures(table.entries, k, q, captures, wildcard)
      modifies this
      ensures BestOf(old(best), Ending(table.entries, k, q), best)
    {
      hide NodesHold, HostsHold, SameCaptures, Ending;
      if k in table.nodes {
        SelectMatch(table, k, q, captures, wildcard);
      } else {
        NothingBelow(table.nodes, table.entries, k, q);
      }
    }

    /** The `**` child takes all remaining segments. */
    method MatchRest(table: RouteTable, k: NodeKey, q: Request, captures: seq<string>)
      requires table.Valid() && WellCompiled(table.entries)
      requires Along(k.path, q.parts) && captures == Captures(k.path, q.parts)
      modifies this
      ensures BestOf(old(best), Ending(table.entries, Child(k, Rest), q), best)
    {
      CapturesRest(table.entries, k, q);
      MatchTerminal(table, Child(k, Rest), q, captures, Join(q.parts[|k.path|..], '/'));
    }

    method MatchRoot(table: RouteTable, scheme: string, h: HostKey, q: Request)
      requires table.Valid() && WellCompiled(table.entries)
      modifies this
      ensures BestOf(old(best), Below(table.entries, Root(scheme, h), q), best)
    {
      hide NodesHold, HostsHold, WellCompiled, Below;
      if Root(scheme, h) in table.nodes {
        MatchNode(table, Root(scheme, h), q, []);
      } else {
        NothingBelow(table.nodes, table.entries, Root(scheme, h), q);
      }
    }

    /** matchHost: the any-host root, then the host tree from the last label of the request. */
    method MatchHost(table: RouteTable, scheme: string, q: Request)
      requires table.Valid() && WellCompiled(table.entries)
      modifies this
      ensures BestOf(old(best), ForHosts(table.entries, scheme, q, 0), best)
    {
      hide NodesHold, HostsHold, WellCompiled, Below, ForHosts, BestOf;
      ghost var es := table.entries;
      MatchRoot(table, scheme, AnyHost, q);
      HostStart(es, scheme, q);
      var index := |q.labels|;
      while index > 0
        invariant 0 <= index <= |q.labels|
        invariant BestOf(old(best), ForHosts(es, scheme, q, index), best)
      {
        index := index - 1;
        if HostAddress(scheme, q.labels[index..]) !in table.hosts {
          HostDeadEnd(table.hosts, es, scheme, q, index);
          return;
        }
        ghost var before := best;
        MatchRoot(table, scheme, HostAt(q.labels, index), q);
        BestOfBoth(old(best), ForHosts(es, scheme, q, index + 1), before,
                   Below(es, Root(scheme, HostAt(q.labels, index)), q), best);
        HostStep(es, scheme, q, index);
      }
    }
  }

  lemma {:induction false} ScanIsLeast(entries: seq<Entry>, q: Request)
    requires Ascending(entries)
    ensures Scan(entries, q).None? <==> forall e :: e in entries ==> !Matches(e, q)
    ensures Scan(entries, q).Some? ==>
              && Scan(entries, q).value in entries && Matches(Scan(entries, q).value, q)
              && (forall e :: e in entries && Matches(e, q) && e != Scan(entries, q).value ==> Less(Scan(entries, q).value.ref, e.ref))
    decreases |entries|
  {
    hide Matches;
    if entries != [] {
      var tail := entries[1..];
      assert entries == [entries[0]] + tail;
      assert forall e :: e in entries <==> e == entries[0] || e in tail;
      forall e | e in tail ensures Less(entries[0].ref, e.ref) {
        var i :| 0 <= i < |tail| && tail[i] == e;
        assert entries[i + 1] == e;
      }
      ScanIsLeast(tail, q);
    }
  }

  /** The best of all matches is the scan's answer, with that pattern's own captures. */
  lemma BestIsScan(entries: seq<Entry>, q: Request, best: Option<Found>)
    requires Ascending(entries) && BestOf(None, AllMatches(entries, q), best)
    ensures match Scan(entries, q)
            case None => best.None?
            case Some(e) => best == Some(FoundFor(e, q))
  {
    ScanIsLeast(entries, q);
    hide Ascending, Scan, Matches, FoundFor;
    if Scan(entries, q).Some? {
      var e := Scan(entries, q).value;
      assert FoundFor(e, q) in AllMatches(entries, q);
      var w :| w in entries && Matches(w, q) && best.value == FoundFor(w, q);
      RefOfFound(w, q);
      RefOfFound(e, q);
    }
  }

  lemma RefOfFound(e: Entry, q: Request)
    ensures FoundFor(e, q).ref == e.ref
  {
  }

  /** The search over the request's own scheme and the any-scheme tree. */
  method FindBest(table: RouteTable, q: Request) returns (best: Option<Found>)
    requires table.Valid() && WellCompiled(table.entries)
    ensures match Scan(table.entries, q)
            case None => best.None?
            case Some(e) => e in table.entries && best == Some(FoundFor(e, q))
  {
    hide NodesHold, HostsHold, ForHosts, BestOf, AllMatches, Scan, FoundFor;
    ghost var es := table.entries;
    var search := new Search();
    if q.scheme in table.schemes {
      search.MatchHost(table, q.scheme, q);
    } else {
      NoSuchScheme(es, q.scheme, q);
      NothingFound(search.best);
    }
    ghost var b1 := search.best;
    if "*" in table.schemes {
      search.MatchHost(table, "*", q);
    } else {
      NoSuchScheme(es, "*", q);
      NothingFound(search.best);
    }
    BestOfBoth(None, ForHosts(es, q.scheme, q, 0), b1, ForHosts(es, "*", q, 0), search.best);
    AllMatchesSplit(es, q);
    BestIsScan(es, q, search.best);
    ScanIsLeast(es, q);
    best := search.best;
  }

  lemma {:induction false} ScanMatches(entries: seq<Entry>, q: Request)
    ensures Scan(entries, q).Some? ==> Explains(Scan(entries, q).value, q, MatchFor(Scan(entries, q).value, q))
    decreases |entries|
  {
    hide Matches, Explains, MatchFor;
    if entries != [] {
      if Matches(entries[0], q) { MatchBinds(entries[0], q); } else { ScanMatches(entries[1..], q); }
    }
  }

  lemma NothingFound(best: Option<Found>)
    ensures BestOf(best, {}, best)
  {
  }

  /**
   * The trie search and the linear scan agree on every request: the same pattern
   * wins, with that pattern's own parameters and wildcard, and there is no match
   * exactly when the scan finds none. `names` are the parameter names by reference.
   */
  method MatchRequest(table: RouteTable, names: map<Ref, seq<string>>, q: Request) returns (r: Option<RouteMatch>)
    requires table.Valid() && WellCompiled(table.entries)
    requires forall e :: e in table.entries ==> e.ref in names && names[e.ref] == ParamNames(e.tokens)
    ensures match Scan(table.entries, q)
            case None => r.None?
            case Some(e) => r == Some(MatchFor(e, q)) && Explains(e, q, r.value)
  {
    hide NodesHold, HostsHold, Scan, Captures, Covered, ParamNames, WellCompiled, Explains;
    var best := FindBest(table, q);
    ScanMatches(table.entries, q);
    if best.None? { return None; }
    var found := best.value;
    var params := map[];
    var i := 0;
    var own := names[found.ref];
    while i < |own|
      invariant 0 <= i <= |own| && params == Params(own[..i], found.captures)
    {
      if i < |found.captures| { params := params[own[i] := found.captures[i]]; }
      assert own[..i + 1][..i] == own[..i];
      i := i + 1;
    }
    assert own[..i] == own;
    return Some(RouteMatch(found.ref, params, found.wildcard));
  }
}
