/**
 * A step configuration through its life: at save time the placeholders of every
 * string are recorded under dotted property paths; at run time the recorded
 * variables are resolved and written back through the update trie. Together the
 * two passes are one recursive substitution over the configuration tree.
 */
module StepConfig {
  import opened Basics
  import opened Json
  import opened Placeholders
  import opened Resolution
  import opened Updates
  import opened UpdateTrie
  import S = Strings

  /** What generation is given besides the tree: declared types, inferred types, and whether the step is composite. */
  datatype Site = Site(declared: map<string, string>, infer: string -> string, composite: bool)

  function Key(p: Path): string {
    S.Join(p, '.')
  }

  /** `vars` is skipped at any depth; the `steps` of a composite step only at the root. */
  predicate Skipped(site: Site, atRoot: bool, k: string) {
    k == "vars" || (site.composite && atRoot && k == "steps")
  }

  /** Positions that define journey structure and may not hold placeholders. */
  predicate Structural(p: Path) {
    && p != []
    && (|| p[0] == "outcome"
        || (exists i :: 0 < i < |p| && p[i] == "outcome" && p[i - 1] == "config")
        || (exists i :: 2 <= i < |p| && (p[i] == "step_type" || p[i] == "name") && p[i - 2] == "steps"))
  }

  predicate HasPlaceholders(s: string) {
    Parse(s).Ok? && Parse(s).value.Token?
  }

  /** A declared type wins, then the type of the step's field; text that is not one whole placeholder is a string. */
  function KindAt(site: Site, p: Path, s: string): string
    requires Parse(s).Ok?
  {
    var key := Key(p);
    if key in site.declared && site.declared[key] != "" then site.declared[key]
    else if site.infer(key) != "" then site.infer(key)
    else if OneToken(Parse(s).value) then ""
    else "string"
  }

  // ----- The reference -----

  /** Recursive substitution over the tree. */
  function Subst(env: Env, site: Site, t: Json, path: Path): Result<Json>
    decreases t
  {
    match t
    case Str(s) =>
      if Parse(s).Err? then Err
      else if Parse(s).value.Text? then Ok(t)
      else if Structural(path) then Err
      else LeafValue(env, Parse(s).value, KindAt(site, path, s))
    case Obj(f) =>
      if forall k :: k in f && !Skipped(site, path == [], k) ==> Subst(env, site, f[k], path + [k]).Ok?
      then Ok(Obj(map k | k in f :: if Skipped(site, path == [], k) then f[k] else Subst(env, site, f[k], path + [k]).value))
      else Err
    case Arr(items) =>
      if forall i :: 0 <= i < |items| ==> Subst(env, site, items[i], path + [Itoa(i)]).Ok?
      then Ok(Arr(seq(|items|, i requires 0 <= i < |items| && Subst(env, site, items[i], path + [Itoa(i)]).Ok? =>
                        Subst(env, site, items[i], path + [Itoa(i)]).value)))
      else Err
    case _ => Ok(t)
  }

  /** Generation succeeds: every string it visits is well formed and placeholders keep out of structural positions. */
  predicate Generates(site: Site, t: Json, path: Path)
    decreases t
  {
    match t
    case Str(s) => Parse(s).Ok? && (Parse(s).value.Token? ==> !Structural(path))
    case Obj(f) => forall k :: k in f && !Skipped(site, path == [], k) ==> Generates(site, f[k], path + [k])
    case Arr(items) => forall i :: 0 <= i < |items| ==> Generates(site, items[i], path + [Itoa(i)])
    case _ => true
  }

  /** `q` leads from `t` to a string with placeholders that generation visits. */
  predicate Leaf(site: Site, t: Json, atRoot: bool, q: Path)
    decreases |q|
  {
    if q == [] then t.Str? && HasPlaceholders(t.s)
    else
      match t
      case Obj(f) => q[0] in f && !Skipped(site, atRoot, q[0]) && Leaf(site, f[q[0]], false, q[1..])
      case Arr(items) =>
        var i := IndexIn(q[0], items);
        i.Some? && q[0] == Itoa(i.value) && Leaf(site, items[i.value], false, q[1..])
      case _ => false
  }

  lemma {:induction false} LeafIsString(site: Site, t: Json, atRoot: bool, q: Path)
    requires Leaf(site, t, atRoot, q)
    ensures GetPath(t, q).Some? && GetPath(t, q).value.Str? && HasPlaceholders(GetPath(t, q).value.s)
    ensures CanonicalPath(t, q)
    decreases |q|
  {
    hide HasPlaceholders, Itoa, Atoi, Skipped;
    if q != [] {
      match t {
        case Obj(f) => LeafIsString(site, f[q[0]], false, q[1..]);
        case Arr(items) => LeafIsString(site, items[IndexIn(q[0], items).value], false, q[1..]);
      }
    }
  }

  /** The text of a leaf. */
  function TextAt(t: Json, q: Path): string {
    var v := GetPath(t, q);
    if v.Some? && v.value.Str? then v.value.s else ""
  }

  /** The reference value of the leaf at `q` below `path`. */
  function LeafResult(env: Env, site: Site, t: Json, path: Path, q: Path): Result<Json> {
    var s := TextAt(t, q);
    if Parse(s).Err? || Structural(path + q) then Err else LeafValue(env, Parse(s).value, KindAt(site, path + q, s))
  }

  /** At `path + q` there is an update exactly when a leaf is there, and it holds the leaf's reference value. */
  ghost predicate UpdateMatches(env: Env, site: Site, t: Json, path: Path, updates: map<Path, Json>, q: Path) {
    && (path + q in updates <==> Leaf(site, t, path == [], q))
    && (path + q in updates ==> LeafResult(env, site, t, path, q) == Ok(updates[path + q]))
  }

  ghost predicate UpdatesMatch(env: Env, site: Site, t: Json, path: Path, updates: map<Path, Json>) {
    forall q :: UpdateMatches(env, site, t, path, updates, q)
  }

  lemma UpdatesMatchDown(env: Env, site: Site, t: Json, path: Path, updates: map<Path, Json>, k: string)
    requires UpdatesMatch(env, site, t, path, updates) && Sub(t, k).Some?
    requires t.Obj? ==> !Skipped(site, path == [], k)
    requires t.Arr? ==> k == Itoa(IndexIn(k, t.items).value)
    ensures UpdatesMatch(env, site, Sub(t, k).value, path + [k], updates)
  {
    hide Structural, HasPlaceholders, Parse, LeafValue, KindAt, Itoa, Atoi, Skipped;
    var sub := Sub(t, k).value;
    forall q ensures UpdateMatches(env, site, sub, path + [k], updates, q) {
      assert UpdateMatches(env, site, t, path, updates, [k] + q);
      assert path + [k] + q == path + ([k] + q);
      assert ([k] + q)[1..] == q;
      GetPathStep(t, k, q);
    }
  }

  /** Below a skipped key nothing is updated. */
  lemma SkippedIsKept(env: Env, site: Site, t: Json, path: Path, updates: map<Path, Json>, k: string)
    requires UpdatesMatch(env, site, t, path, updates) && t.Obj? && k in t.fields && Skipped(site, path == [], k)
    ensures Updated(updates, path + [k], t.fields[k]) == t.fields[k]
  {
    hide LeafResult, HasPlaceholders, Skipped;
    forall p | p in updates ensures !(path + [k] <= p) {
      var n := |path|;
      PrefixOfLonger(path, k, p);
      assert path <= p ==> path + p[n..] == p;
      assert path <= p ==> UpdateMatches(env, site, t, path, updates, p[n..]);
      assert path <= p && n < |p| ==> p[n..][0] == p[n];
    }
    NoUpdateBelow(updates, path + [k], t.fields[k]);
  }

  /** Writing the resolved leaves into the tree is the recursive substitution. */
  lemma {:induction false} UpdatedIsSubst(env: Env, site: Site, t: Json, path: Path, updates: map<Path, Json>)
    requires UpdatesMatch(env, site, t, path, updates) && Generates(site, t, path)
    ensures Subst(env, site, t, path) == Ok(Updated(updates, path, t))
    decreases t
  {
    hide Itoa, Atoi, Skipped, Structural, LeafValue, KindAt, Parse;
    assert path + [] == path;
    assert UpdateMatches(env, site, t, path, updates, []);
    match t {
      case Obj(f) =>
        forall k | k in f
          ensures Skipped(site, path == [], k) ==> Updated(updates, path + [k], f[k]) == f[k]
          ensures !Skipped(site, path == [], k) ==> Subst(env, site, f[k], path + [k]) == Ok(Updated(updates, path + [k], f[k]))
        {
          if Skipped(site, path == [], k) {
            SkippedIsKept(env, site, t, path, updates, k);
          } else {
            UpdatesMatchDown(env, site, t, path, updates, k);
            UpdatedIsSubst(env, site, f[k], path + [k], updates);
          }
        }
        assert Subst(env, site, t, path).value.fields == Updated(updates, path, t).fields;
      case Arr(items) =>
        forall i | 0 <= i < |items|
          ensures Subst(env, site, items[i], path + [Itoa(i)]) == Ok(Updated(updates, path + [Itoa(i)], items[i]))
        {
          AtoiItoa(i);
          UpdatesMatchDown(env, site, t, path, updates, Itoa(i));
          UpdatedIsSubst(env, site, items[i], path + [Itoa(i)], updates);
        }
        assert Subst(env, site, t, path).value.items == Updated(updates, path, t).items;
      case _ =>
    }
  }

  /** Substitution fails when generation does, and when any leaf does. */
  lemma {:induction false} SubstNeedsGeneration(env: Env, site: Site, t: Json, path: Path)
    requires !Generates(site, t, path)
    ensures Subst(env, site, t, path).Err?
    decreases t
  {
    hide Itoa, Skipped, Structural, LeafValue, KindAt, Parse;
    match t {
      case Obj(f) =>
        var k :| k in f && !Skipped(site, path == [], k) && !Generates(site, f[k], path + [k]);
        SubstNeedsGeneration(env, site, f[k], path + [k]);
      case Arr(items) =>
        var i :| 0 <= i < |items| && !Generates(site, items[i], path + [Itoa(i)]);
        SubstNeedsGeneration(env, site, items[i], path + [Itoa(i)]);
      case _ =>
    }
  }

  lemma {:induction false} SubstNeedsLeaves(env: Env, site: Site, t: Json, path: Path, q: Path)
    requires Leaf(site, t, path == [], q) && LeafResult(env, site, t, path, q).Err?
    ensures Subst(env, site, t, path).Err?
    decreases |q|
  {
    hide Itoa, Atoi, Skipped, Structural, LeafValue, KindAt, Parse;
    if q == [] {
      assert path + q == path;
    } else {
      var k := q[0];
      assert path + q == path + [k] + q[1..];
      assert q == [k] + q[1..];
      GetPathStep(t, k, q[1..]);
      SubstNeedsLeaves(env, site, Sub(t, k).value, path + [k], q[1..]);
    }
  }

  // ----- Dotted property paths -----

  predicate CleanSegment(k: string) {
    k != "" && '.' !in k
  }

  predicate CleanPath(p: Path) {
    forall k :: k in p ==> CleanSegment(k)
  }

  /** A value without `${` in any of its strings. */
  predicate Quiet(t: Json) {
    match t
    case Str(s) => NoOpen(s)
    case Obj(f) => forall k :: k in f ==> Quiet(f[k])
    case Arr(items) => forall i :: 0 <= i < |items| ==> Quiet(items[i])
    case _ => true
  }

  /** Keys on the way to a placeholder that generation visits are non-empty and free of dots. */
  predicate CleanTree(site: Site, t: Json, atRoot: bool) {
    match t
    case Obj(f) =>
      forall k :: k in f && !Skipped(site, atRoot, k) ==> (CleanSegment(k) || Quiet(f[k])) && CleanTree(site, f[k], false)
    case Arr(items) => forall i :: 0 <= i < |items| ==> CleanTree(site, items[i], false)
    case _ => true
  }

  lemma {:induction false} QuietIsClean(site: Site, t: Json, atRoot: bool)
    requires Quiet(t)
    ensures CleanTree(site, t, atRoot)
    decreases t
  {
    hide Skipped, CleanSegment, NoOpen;
    match t {
      case Obj(f) => forall k | k in f { QuietIsClean(site, f[k], false); }
      case Arr(items) => forall i | 0 <= i < |items| { QuietIsClean(site, items[i], false); }
      case _ =>
    }
  }

  /** A dotted property splits back into its path exactly when no key of the path has a dot. */
  lemma KeySplits(p: Path)
    requires p != []
    ensures S.Split(Key(p), '.') == p <==> forall k :: k in p ==> '.' !in k
  {
    if forall k :: k in p ==> '.' !in k { S.SplitJoin(p, '.'); }
  }

  /** So different clean paths have different keys. */
  lemma CleanKeySplits(p: Path)
    requires p != [] && CleanPath(p)
    ensures S.Split(Key(p), '.') == p
  {
    forall k | k in p ensures '.' !in k { assert CleanSegment(k); }
    KeySplits(p);
  }

  /** With a dot inside a key, two properties share one dotted path. */
  lemma DottedKeysCollide()
    ensures Key(["a.b"]) == Key(["a", "b"])
  {
    assert ["a", "b"][1..] == ["b"];
    assert Key(["a", "b"]) == "a" + "." + "b" == "a.b";
  }
}
