/** Generation and resolution of step variables, as the program performs them. */
module StepVariables {
  import opened Basics
  import opened Json
  import opened Placeholders
  import opened Resolution
  import opened Updates
  import opened ApplyOrders
  import opened UpdateTrie
  import opened StepConfig
  import S = Strings

  /** The absolute paths of the leaves below `path`. */
  ghost function LeavesUnder(site: Site, t: Json, path: Path): iset<Path> {
    iset x: Path | path <= x && Leaf(site, t, path == [], x[|path|..])
  }

  function DeclaredKind(site: Site, p: Path): string {
    if Key(p) in site.declared then site.declared[Key(p)] else ""
  }

  function ScannedAt(root: Json, p: Path): seq<Placeholder> {
    if Parse(TextAt(root, p)).Ok? then Offsets(Parse(TextAt(root, p)).value, 0) else []
  }

  /** `vars` holds exactly one entry per path in `seen`, with the kind `kinds` says. */
  ghost predicate Records(vars: map<string, Variable>, root: Json, seen: iset<Path>, kinds: Path -> string) {
    && (forall p :: p in seen ==> p != [] && CleanPath(p) && Key(p) in vars && vars[Key(p)] == Variable(kinds(p), ScannedAt(root, p)))
    && (forall key :: key in vars ==> exists p :: p in seen && key == Key(p))
  }

  lemma RecordsOneMore(vars: map<string, Variable>, root: Json, seen: iset<Path>, kinds: Path -> string, p: Path)
    requires Records(vars, root, seen, kinds) && p != [] && CleanPath(p)
    ensures Records(vars[Key(p) := Variable(kinds(p), ScannedAt(root, p))], root, seen + iset{p}, kinds)
  {
    hide Key, ScannedAt, CleanPath;
    CleanKeySplits(p);
    forall q | q in seen ensures Key(q) == Key(p) ==> q == p { CleanKeySplits(q); }
    var more := vars[Key(p) := Variable(kinds(p), ScannedAt(root, p))];
    forall key | key in more ensures exists q :: q in seen + iset{p} && key == Key(q) {
      if key == Key(p) {
        assert p in seen + iset{p};
      } else {
        var q :| q in seen && key == Key(q);
        assert q in seen + iset{p};
      }
    }
  }

  /** The leaves below an object or array are those below its visited children. */
  lemma LeavesOfChild(site: Site, t: Json, path: Path, k: string, x: Path)
    requires path + [k] <= x
    ensures path <= x
    ensures x in LeavesUnder(site, t, path) <==>
            && Sub(t, k).Some?
            && (t.Obj? ==> !Skipped(site, path == [], k))
            && (t.Arr? ==> k == Itoa(IndexIn(k, t.items).value))
            && x in LeavesUnder(site, Sub(t, k).value, path + [k])
  {
    hide HasPlaceholders, Itoa, Atoi, Skipped;
    PrefixOfLonger(path, k, x);
    var q := x[|path|..];
    assert q[0] == k && q[1..] == x[|path| + 1..];
  }

  class Generator {
    const site: Site
    var generated: map<string, Variable>

    constructor (s: Site)
      ensures site == s && generated == map[]
    {
      site, generated := s, map[];
    }

    /** discoverVariables: visit every string below `path`; map entries are taken in any order. */
    method DiscoverVariables(t: Json, path: Path, ghost root: Json, ghost seen: iset<Path>) returns (ok: bool)
      requires CleanTree(site, t, path == []) && (CleanPath(path) || Quiet(t)) && (path == [] ==> t.Obj?) && GetPath(root, path) == Some(t)
      requires Records(generated, root, seen, p => DeclaredKind(site, p))
      modifies this
      ensures ok <==> Generates(site, t, path)
      ensures ok ==> Records(generated, root, seen + LeavesUnder(site, t, path), p => DeclaredKind(site, p))
      decreases t, 1
    {
      match t {
        case Obj(_) => ok := DiscoverObject(t, path, root, seen);
        case Arr(_) => ok := DiscoverArray(t, path, root, seen);
        case Str(s) => ok := DiscoverString(s, path, root, seen);
        case _ =>
          ok := true;
          assert LeavesUnder(site, t, path) == iset{} by { NoLeaves(site, t, path); }
          assert seen + iset{} == seen;
      }
    }

    method DiscoverString(s: string, path: Path, ghost root: Json, ghost seen: iset<Path>) returns (ok: bool)
      requires (CleanPath(path) || NoOpen(s)) && path != [] && GetPath(root, path) == Some(Str(s))
      requires Records(generated, root, seen, p => DeclaredKind(site, p))
      modifies this
      ensures ok <==> Generates(site, Str(s), path)
      ensures ok ==> Records(generated, root, seen + LeavesUnder(site, Str(s), path), p => DeclaredKind(site, p))
    {
      hide Records, Structural, Key, Parse;
      var scanned := Discover(s);
      if NoOpen(s) { PlainScan(s); }
      LeavesOfString(site, s, path);
      if scanned.Err? { return false; }
      if scanned.value == [] {
        assert seen + iset{} == seen;
        return true;
      }
      if Structural(path) { return false; }
      var previous := if Key(path) in site.declared then site.declared[Key(path)] else "";
      RecordsOneMore(generated, root, seen, p => DeclaredKind(site, p), path);
      generated := generated[Key(path) := Variable(previous, scanned.value)];
      return true;
    }

    method DiscoverObject(t: Json, path: Path, ghost root: Json, ghost seen: iset<Path>) returns (ok: bool)
      requires t.Obj? && CleanTree(site, t, path == []) && (CleanPath(path) || Quiet(t)) && GetPath(root, path) == Some(t)
      requires Records(generated, root, seen, p => DeclaredKind(site, p))
      modifies this
      ensures ok <==> Generates(site, t, path)
      ensures ok ==> Records(generated, root, seen + LeavesUnder(site, t, path), p => DeclaredKind(site, p))
      decreases t, 0
    {
      hide Records, LeavesUnder, Skipped;
      var f := t.fields;
      var remaining := f.Keys;
      ghost var done := seen;
      while remaining != {}
        invariant remaining <= f.Keys
        invariant forall k :: k in f.Keys - remaining && !Skipped(site, path == [], k) ==> Generates(site, f[k], path + [k])
        invariant Records(generated, root, done, p => DeclaredKind(site, p))
        invariant forall x :: x in done <==> x in seen || VisitedIn(site, t, path, f.Keys - remaining, x)
        decreases remaining
      {
        var k :| k in remaining;
        ghost var before := remaining;
        remaining := remaining - {k};
        if !Skipped(site, path == [], k) {
          GetPathAppend(root, path, [k]);
          GetPathStep(t, k, []);
          var fine := DiscoverVariables(f[k], path + [k], root, done);
          if !fine { return false; }
          ghost var more := done + LeavesUnder(site, f[k], path + [k]);
          VisitOne(site, t, path, f.Keys - before, k);
          done := more;
        } else {
          VisitSkipped(site, t, path, f.Keys - before, k);
        }
        assert f.Keys - remaining == (f.Keys - before) + {k};
      }
      ok := true;
      assert f.Keys - remaining == f.Keys;
      AllVisited(site, t, path, f.Keys);
      assert done == seen + LeavesUnder(site, t, path);
    }

    method DiscoverArray(t: Json, path: Path, ghost root: Json, ghost seen: iset<Path>) returns (ok: bool)
      requires t.Arr? && CleanTree(site, t, false) && (CleanPath(path) || Quiet(t)) && path != [] && GetPath(root, path) == Some(t)
      requires Records(generated, root, seen, p => DeclaredKind(site, p))
      modifies this
      ensures ok <==> Generates(site, t, path)
      ensures ok ==> Records(generated, root, seen + LeavesUnder(site, t, path), p => DeclaredKind(site, p))
      decreases t, 0
    {
      hide Records, LeavesUnder, Itoa, Atoi, Printed;
      PrintedStart();
      var items := t.items;
      var i := 0;
      ghost var done := seen;
      while i < |items|
        invariant 0 <= i <= |items|
        invariant forall j :: 0 <= j < i ==> Generates(site, items[j], path + [Itoa(j)])
        invariant Records(generated, root, done, p => DeclaredKind(site, p))
        invariant forall x :: x in done <==> x in seen || VisitedIn(site, t, path, Printed(i), x)
      {
        var k := Itoa(i);
        AtoiItoa(i);
        GetPathAppend(root, path, [k]);
        GetPathStep(t, k, []);
        var fine := DiscoverVariables(items[i], path + [k], root, done);
        if !fine { return false; }
        VisitOne(site, t, path, Printed(i), k);
        PrintedStep(i);
        done := done + LeavesUnder(site, items[i], path + [k]);
        i := i + 1;
      }
      ok := true;
      AllVisitedArray(site, t, path, Printed(i));
      assert done == seen + LeavesUnder(site, t, path);
    }
  }

  lemma PlainScan(s: string)
    requires NoOpen(s)
    ensures Parse(s) == Ok(Text(s)) && Offsets(Text(s), 0) == []
  {
    PlainText(s);
  }

  /** The printed indices below `n`. */
  ghost function Printed(n: nat): set<string> {
    set j | 0 <= j < n :: Itoa(j)
  }

  lemma PrintedStep(n: nat)
    ensures Printed(n + 1) == Printed(n) + {Itoa(n)}
  {
    hide Itoa;
  }

  lemma PrintedStart()
    ensures Printed(0) == {}
  {
  }

  lemma NoLeaves(site: Site, t: Json, path: Path)
    requires !t.Obj? && !t.Arr? && !t.Str?
    ensures LeavesUnder(site, t, path) == iset{}
  {
  }

  lemma LeavesOfString(site: Site, s: string, path: Path)
    ensures LeavesUnder(site, Str(s), path) == if HasPlaceholders(s) then iset{path} else iset{}
    ensures Parse(s).Ok? ==> (Offsets(Parse(s).value, 0) == [] <==> Parse(s).value.Text?)
  {
    hide Parse;
    forall x: Path ensures x in LeavesUnder(site, Str(s), path) <==> x == path && HasPlaceholders(s) {
      assert path <= x && x[|path|..] == [] ==> x == path;
    }
  }

  /** Leaves of `t` that lie below one of the children `keys`. */
  ghost predicate VisitedIn(site: Site, t: Json, path: Path, keys: set<string>, x: Path) {
    x in LeavesUnder(site, t, path) && |path| < |x| && x[|path|] in keys
  }

  lemma VisitOne(site: Site, t: Json, path: Path, keys: set<string>, k: string)
    requires Sub(t, k).Some? && (t.Obj? ==> !Skipped(site, path == [], k)) && (t.Arr? ==> k == Itoa(IndexIn(k, t.items).value))
    ensures forall x :: VisitedIn(site, t, path, keys + {k}, x) <==>
              VisitedIn(site, t, path, keys, x) || x in LeavesUnder(site, Sub(t, k).value, path + [k])
  {
    forall x ensures VisitedIn(site, t, path, keys + {k}, x) <==>
                     VisitedIn(site, t, path, keys, x) || x in LeavesUnder(site, Sub(t, k).value, path + [k])
    {
      PrefixOfLonger(path, k, x);
      if path + [k] <= x { LeavesOfChild(site, t, path, k, x); }
      hide Leaf;
    }
  }

  lemma VisitSkipped(site: Site, t: Json, path: Path, keys: set<string>, k: string)
    requires t.Obj? && Skipped(site, path == [], k)
    ensures forall x :: VisitedIn(site, t, path, keys + {k}, x) <==> VisitedIn(site, t, path, keys, x)
  {
    forall x ensures VisitedIn(site, t, path, keys + {k}, x) <==> VisitedIn(site, t, path, keys, x) {
      PrefixOfLonger(path, k, x);
      if path + [k] <= x { LeavesOfChild(site, t, path, k, x); }
    }
  }

  lemma AllVisited(site: Site, t: Json, path: Path, keys: set<string>)
    requires t.Obj? && keys == t.fields.Keys
    ensures forall x :: x in LeavesUnder(site, t, path) <==> VisitedIn(site, t, path, keys, x)
  {
    forall x | x in LeavesUnder(site, t, path) ensures |path| < |x| && x[|path|] in keys {
      assert x[|path|..] != [];
      assert x[|path|..][0] == x[|path|];
    }
  }

  lemma AllVisitedArray(site: Site, t: Json, path: Path, keys: set<string>)
    requires t.Arr? && keys == Printed(|t.items|)
    ensures forall x :: x in LeavesUnder(site, t, path) <==> VisitedIn(site, t, path, keys, x)
  {
    forall x | x in LeavesUnder(site, t, path) ensures |path| < |x| && x[|path|] in keys {
      assert x[|path|..] != [];
      assert x[|path|..][0] == x[|path|];
    }
  }

  /** isExactStepPlaceholder. */
  predicate ExactPlaceholder(source: string, v: Variable) {
    var ps := v.placeholders;
    |ps| == 1 && ps[0].start == 0 && ps[0].end == |source| && TokenText(ps[0].template) == source
  }

  lemma ExactIsOneToken(s: string, kind: string)
    requires Parse(s).Ok?
    ensures ExactPlaceholder(s, Variable(kind, Offsets(Parse(s).value, 0))) <==> OneToken(Parse(s).value)
  {
    hide Parse;
    PrintParse(s);
    var d := Parse(s).value;
    if d.Token? {
      hide TokenText;
      if OneToken(d) { assert Print(d) == TokenText(d.body); }
    }
  }

  function FinalKind(site: Site, root: Json, p: Path): string {
    if Parse(TextAt(root, p)).Ok? then KindAt(site, p, TextAt(root, p)) else ""
  }

  /** The kind a recorded variable ends up with. */
  function InferKind(site: Site, root: Json, key: string, v: Variable): string {
    if v.kind != "" then v.kind
    else if site.infer(key) != "" then site.infer(key)
    else if ExactPlaceholder(TextAt(root, S.Split(key, '.')), v) then "" else "string"
  }

  lemma InferredIsFinal(site: Site, root: Json, p: Path)
    requires p != [] && CleanPath(p) && HasPlaceholders(TextAt(root, p))
    ensures InferKind(site, root, Key(p), Variable(DeclaredKind(site, p), ScannedAt(root, p))) == FinalKind(site, root, p)
  {
    hide Parse, S.Split, CleanPath;
    CleanKeySplits(p);
    ExactIsOneToken(TextAt(root, p), DeclaredKind(site, p));
  }

  /** All leaves of a configuration. */
  ghost function Leaves(site: Site, root: Json): iset<Path> {
    LeavesUnder(site, root, [])
  }

  /** The `vars` of a prepared configuration. */
  ghost predicate Prepared(site: Site, root: Json, vars: map<string, Variable>) {
    Records(vars, root, Leaves(site, root), p => FinalKind(site, root, p))
  }

  /** GenerateStepVariables: discover, then give every untyped variable its type. */
  method GenerateVariables(site: Site, root: Json) returns (r: Result<map<string, Variable>>)
    requires root.Obj? && CleanTree(site, root, true)
    ensures r.Ok? <==> Generates(site, root, [])
    ensures r.Ok? ==> Prepared(site, root, r.value)
  {
    hide Generates, Leaf, TextAt, CleanTree;
    var g := new Generator(site);
    NothingRecorded(site, root);
    var ok := g.DiscoverVariables(root, [], root, iset{});
    if !ok { return Err; }
    var recorded := g.generated;
    ghost var leaves := Leaves(site, root);
    assert iset{} + LeavesUnder(site, root, []) == leaves;
    var vars := recorded;
    var remaining := vars.Keys;
    while remaining != {}
      invariant remaining <= recorded.Keys == vars.Keys
      invariant forall key :: key in recorded ==>
                  vars[key] == if key in remaining then recorded[key]
                               else Variable(InferKind(site, root, key, recorded[key]), recorded[key].placeholders)
      decreases remaining
    {
      hide *;
      var key :| key in remaining;
      var v := vars[key];
      var kind := InferKind(site, root, key, v);
      vars := vars[key := v.(kind := kind)];
      remaining := remaining - {key};
    }
    InferenceIsFinal(site, root, recorded, vars);
    r := Ok(vars);
  }

  lemma NothingRecorded(site: Site, root: Json)
    ensures Records(map[], root, iset{}, p => DeclaredKind(site, p)) && GetPath(root, []) == Some(root)
  {
  }

  lemma InferenceIsFinal(site: Site, root: Json, recorded: map<string, Variable>, vars: map<string, Variable>)
    requires Records(recorded, root, Leaves(site, root), p => DeclaredKind(site, p))
    requires vars.Keys == recorded.Keys
    requires forall key :: key in recorded ==>
               vars[key] == Variable(InferKind(site, root, key, recorded[key]), recorded[key].placeholders)
    ensures Prepared(site, root, vars)
  {
    hide InferKind, FinalKind, DeclaredKind, ScannedAt, Key, Leaf, CleanPath, HasPlaceholders;
    forall p | p in Leaves(site, root)
      ensures vars[Key(p)] == Variable(FinalKind(site, root, p), ScannedAt(root, p))
    {
      assert p[0..] == p;
      LeafIsString(site, root, true, p);
      LeafText(root, p);
      InferredIsFinal(site, root, p);
    }
  }

  lemma LeafText(root: Json, p: Path)
    requires GetPath(root, p).Some? && GetPath(root, p).value.Str?
    ensures TextAt(root, p) == GetPath(root, p).value.s
  {
  }

  /** The updates collected so far: the leaves whose key is no longer in `remaining`. */
  ghost predicate Collected(env: Env, site: Site, root: Json, remaining: set<string>, updates: map<Path, Json>) {
    && (forall p :: p in updates <==> p in Leaves(site, root) && Key(p) !in remaining)
    && (forall p :: p in updates ==> LeafResult(env, site, root, [], p) == Ok(updates[p]))
  }

  /** What resolving one recorded variable yields. */
  lemma VariableResolves(env: Env, site: Site, root: Json, p: Path)
    requires Generates(site, root, []) && p in Leaves(site, root)
    ensures ResolveSpec(env, TextAt(root, p), Variable(FinalKind(site, root, p), ScannedAt(root, p))) ==
            LeafResult(env, site, root, [], p)
    ensures Leaf(site, root, true, p)
  {
    hide ResolveSpec, LeafValue, KindAt, Parse, Itoa, Atoi;
    assert p[0..] == p && [] + p == p;
    LeafIsString(site, root, true, p);
    LeafIsPlaced(site, root, [], p);
    ScanThenResolve(env, TextAt(root, p), FinalKind(site, root, p));
  }

  lemma {:induction false} LeafIsPlaced(site: Site, t: Json, path: Path, q: Path)
    requires Generates(site, t, path) && Leaf(site, t, path == [], q)
    ensures !Structural(path + q)
    decreases |q|
  {
    hide Parse, Structural, Itoa, Atoi, Skipped;
    if q == [] {
      assert path + q == path;
    } else {
      assert path + q == path + [q[0]] + q[1..];
      LeafIsPlaced(site, Sub(t, q[0]).value, path + [q[0]], q[1..]);
    }
  }

  /** The leaves of a configuration are strings, so none lies on the way to another; all exist, by printed index. */
  lemma LeavesApply(env: Env, site: Site, root: Json, updates: map<Path, Json>)
    requires Collected(env, site, root, {}, updates)
    ensures PrefixFree(updates) && AllExist(updates, root) && Aligned(updates, [], root)
  {
    hide LeafResult, Leaf, CanonicalPath, Itoa, Atoi, HasPlaceholders;
    forall p | p in updates
      ensures GetPath(root, p).Some? && GetPath(root, p).value.Str? && CanonicalPath(root, p)
    {
      assert p[0..] == p;
      LeafIsString(site, root, true, p);
    }
    forall p, q | p in updates && q in updates && p <= q ensures p == q {
      assert q == p + q[|p|..];
      GetPathAppend(root, p, q[|p|..]);
      assert q[|p|..] == [];
    }
    assert forall p: Path :: p[0..] == p;
  }

  lemma CollectedMatches(env: Env, site: Site, root: Json, updates: map<Path, Json>)
    requires Collected(env, site, root, {}, updates)
    ensures UpdatesMatch(env, site, root, [], updates)
  {
    hide LeafResult, Leaf;
    forall q ensures UpdateMatches(env, site, root, [], updates, q) {
      assert [] + q == q && q[0..] == q;
      assert [] <= q;
    }
  }

  /**
   * ResolveStepConfig on a prepared configuration: the recorded variables are
   * resolved in any order and written back in one pass. The result is the
   * recursive substitution, and it fails exactly when that fails.
   */
  method ResolveConfig(env: Env, ghost site: Site, root: Json, vars: map<string, Variable>, order: Order) returns (r: Result<Json>)
    requires root.Obj? && Generates(site, root, []) && Prepared(site, root, vars)
    ensures r == Subst(env, site, root, [])
  {
    hide Subst, Generates, LeafResult, Leaf, ResolveSpec, TrieHolds, Key, TextAt, FinalKind, ScannedAt, CleanPath, Applies, Updated, ApplyIn;
    var trie := new Trie();
    var remaining := vars.Keys;
    NothingCollected(env, site, root, vars);
    while remaining != {}
      invariant remaining <= vars.Keys && fresh(trie) && trie.Valid()
      invariant Collected(env, site, root, remaining, trie.updates)
      decreases remaining
    {
      var key :| key in remaining;
      ghost var p :| p in Leaves(site, root) && key == Key(p);
      var parts := S.Split(key, '.');
      CleanKeySplits(p);
      VariableResolves(env, site, root, p);
      var value := ResolveVariable(env, TextAt(root, parts), vars[key]);
      if value.Err? {
        SubstNeedsLeaves(env, site, root, [], p);
        return Err;
      }
      CleanHasNoEmpty(p);
      var added := trie.Add(parts, value.value);
      remaining := remaining - {key};
      forall q | q in Leaves(site, root) ensures Key(q) == key ==> q == p { CleanKeySplits(q); }
    }
    LeavesApply(env, site, root, trie.updates);
    CollectedMatches(env, site, root, trie.updates);
    RootIsThere(trie.nodes, trie.updates);
    AppliesExactly(trie.nodes, trie.updates, root);
    UpdatedIsSubst(env, site, root, [], trie.updates);
    AlignedIsUpdated(trie.nodes, trie.updates, order, [], root);
    r := trie.Apply([], root, order);
  }

  lemma RootIsThere(nodes: Nodes, updates: map<Path, Json>)
    requires TrieHolds(nodes, updates)
    ensures [] in nodes
  {
  }

  lemma CleanHasNoEmpty(p: Path)
    requires CleanPath(p)
    ensures "" !in p
  {
  }

  lemma NothingCollected(env: Env, site: Site, root: Json, vars: map<string, Variable>)
    requires Prepared(site, root, vars)
    ensures Collected(env, site, root, vars.Keys, map[])
  {
  }

  /**
   * The two passes together: recording placeholders at save time and resolving the
   * records at run time is one recursive substitution over the configuration,
   * with the same failures, whatever order maps are visited in.
   */
  method PrepareThenResolve(env: Env, site: Site, root: Json, order: Order) returns (r: Result<Json>)
    requires root.Obj? && CleanTree(site, root, true)
    ensures r == Subst(env, site, root, [])
  {
    hide Subst, Generates, CleanTree, Prepared;
    var vars := GenerateVariables(site, root);
    if vars.Err? {
      SubstNeedsGeneration(env, site, root, []);
      return Err;
    }
    r := ResolveConfig(env, site, root, vars.value, order);
  }
}
