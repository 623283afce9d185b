/**
 * A whole step configuration compiled for run time: env placeholders are replaced
 * throughout the tree, variables are generated for what is left, and those are
 * resolved when the step runs.
 */
module RuntimeConfig {
  import opened Basics
  import opened Json
  import opened Placeholders
  import opened Resolution
  import opened StaticEnv
  import opened StepConfig
  import opened StepVariables
  import opened ApplyOrders

  type Getter = string -> Result<Json>

  function StaticLeaf(env: Env, get: Getter, s: string): Result<Json> {
    if WholeEnv(s) then get(EnvPath(MatchHere(s).value))
    else match ReplaceAll(env, get, s) case Err => Err case Ok(text) => Ok(Str(text))
  }

  function StaticTree(env: Env, get: Getter, t: Json): Result<Json>
    decreases t
  {
    match t
    case Str(s) => StaticLeaf(env, get, s)
    case Obj(f) =>
      if forall k :: k in f ==> StaticTree(env, get, f[k]).Ok?
      then Ok(Obj(map k | k in f :: StaticTree(env, get, f[k]).value))
      else Err
    case Arr(items) =>
      if forall i :: 0 <= i < |items| ==> StaticTree(env, get, items[i]).Ok?
      then Ok(Arr(seq(|items|, i requires 0 <= i < |items| && StaticTree(env, get, items[i]).Ok? => StaticTree(env, get, items[i]).value)))
      else Err
    case _ => Ok(t)
  }

  // ----- One string -----

  /** Some placeholder is left for run time. */
  predicate RemainsDynamic(d: Doc) {
    exists b :: b in Bodies(d) && !EnvBody(b)
  }

  lemma {:induction false} AbsorbLead(env: Env, get: Getter, before: string, d: Doc)
    requires Absorb(env, get, before, d).Ok?
    ensures match Absorb(env, get, before, d).value
            case Text(t) => before <= t
            case Token(lead, _, _) => before <= lead
    decreases d
  {
    hide EnvBody;
    if d.Token? && EnvBody(d.body) {
      AbsorbLead(env, get, before + d.lead + Shown(env, get(EnvPath(d.body)).value), d.rest);
    }
  }

  lemma {:induction false} AbsorbKeepsDynamic(env: Env, get: Getter, before: string, d: Doc)
    requires Absorb(env, get, before, d).Ok?
    ensures Absorb(env, get, before, d).value.Token? <==> RemainsDynamic(d)
    decreases d
  {
    hide EnvBody;
    if d.Token? {
      assert Bodies(d) == [d.body] + Bodies(d.rest);
      if EnvBody(d.body) {
        AbsorbKeepsDynamic(env, get, before + d.lead + Shown(env, get(EnvPath(d.body)).value), d.rest);
        assert RemainsDynamic(d) <==> RemainsDynamic(d.rest);
      } else {
        assert d.body in Bodies(d);
      }
    }
  }

  /** The replaced text becomes one placeholder that the string was not. */
  predicate BecomesWhole(env: Env, get: Getter, d: Doc) {
    Absorb(env, get, "", d).Ok? && OneToken(Absorb(env, get, "", d).value) && !OneToken(d)
  }

  /** A string that is one placeholder is untouched, unless it is an env placeholder. */
  lemma OneTokenStays(env: Env, get: Getter, d: Doc)
    requires OneToken(d) && RemainsDynamic(d)
    ensures Absorb(env, get, "", d) == Ok(d)
  {
    hide EnvBody;
    assert Bodies(d) == [d.body] + [];
    assert "" + d.lead == d.lead;
    assert Absorb(env, get, "", d.rest) == Ok(d.rest);
  }

  lemma NonEmptyLead(env: Env, get: Getter, d: Doc)
    requires d.Token? && EnvBody(d.body) && Absorb(env, get, "", d).Ok?
    requires get(EnvPath(d.body)).Ok? && Shown(env, get(EnvPath(d.body)).value) != ""
    ensures match Absorb(env, get, "", d).value
            case Text(t) => t != ""
            case Token(lead, _, _) => lead != ""
  {
    hide EnvBody, Shown;
    AbsorbLead(env, get, "" + d.lead + Shown(env, get(EnvPath(d.body)).value), d.rest);
  }

  /** Values that are not empty make no whole placeholder. */
  lemma SafeValuesMakeNoWhole(env: Env, get: Getter, d: Doc)
    requires SafeValues(env, get, d)
    ensures !BecomesWhole(env, get, d)
  {
    hide EnvBody, Shown;
    if d.Token? && Absorb(env, get, "", d).Ok? {
      assert Bodies(d) == [d.body] + Bodies(d.rest);
      assert d.body in Bodies(d);
      assert d.rest.Token? ==> Bodies(d.rest) == [d.rest.body] + Bodies(d.rest.rest);
      assert d.rest.Token? ==> d.rest.body in Bodies(d.rest);
      if EnvBody(d.body) {
        NonEmptyLead(env, get, d);
      } else if d.rest.Text? {
        assert "" + d.lead == d.lead && "" + d.rest.text == d.rest.text;
      } else if EnvBody(d.rest.body) {
        assert Absorb(env, get, "", d.rest).Ok?;
        NonEmptyLead(env, get, d.rest);
      }
    }
  }

  /** A mixed string whose replaced text is read as expected. */
  ghost predicate Reads(env: Env, get: Getter, s: string) {
    && Parse(s).Ok? && (forall b :: b in Bodies(Parse(s).value) ==> '{' !in b) && !WholeEnv(s)
    && (Absorb(env, get, "", Parse(s).value).Ok? ==> Canonical(Absorb(env, get, "", Parse(s).value).value))
  }

  /** One whole env placeholder. */
  lemma WholeEnvIsOneToken(s: string)
    requires Parse(s).Ok? && forall b :: b in Bodies(Parse(s).value) ==> '{' !in b
    ensures OneToken(Parse(s).value) && EnvBody(Parse(s).value.body) ==> WholeEnv(s)
  {
    hide Parse, MatchHere, EnvBody;
    var d := Parse(s).value;
    PrintParse(s);
    if OneToken(d) && EnvBody(d.body) {
      assert d.body in Bodies(d);
      assert Print(d) == TokenText(d.body) + "";
      MatchBody(d.body, "");
    }
  }

  /** The value both orders look up when the replaced text is one placeholder, and the type it has then and had before. */
  ghost predicate TurnsNative(env: Env, get: Getter, site: Site, path: Path, s: string)
    requires Reads(env, get, s)
  {
    var d := Parse(s).value;
    BecomesWhole(env, get, d) &&
    var body := Absorb(env, get, "", d).value.body;
    !StartsOpen(body) && env.lookup(body).Ok? && Native(WholeKind(site, path), env.lookup(body).value)
  }

  /** The type of a string that is one placeholder. */
  function WholeKind(site: Site, p: Path): string {
    var key := Key(p);
    if key in site.declared && site.declared[key] != "" then site.declared[key] else site.infer(key)
  }

  /** The type of a string that is not. */
  function MixedKind(site: Site, p: Path): string {
    if WholeKind(site, p) == "" then "string" else WholeKind(site, p)
  }

  lemma KindIs(site: Site, p: Path, s: string)
    requires Parse(s).Ok?
    ensures KindAt(site, p, s) == if OneToken(Parse(s).value) then WholeKind(site, p) else MixedKind(site, p)
    ensures forall env, text :: Convert(env, text, WholeKind(site, p)) == Convert(env, text, MixedKind(site, p))
  {
    hide Parse;
  }

  /** A string that is not one placeholder is substituted as text and converted. */
  lemma MixedSubst(env: Env, site: Site, path: Path, s: string)
    requires Parse(s).Ok? && Parse(s).value.Token? && !OneToken(Parse(s).value) && !Structural(path)
    ensures Subst(env, site, Str(s), path) ==
            match Substitute(env, Parse(s).value)
            case Err => Err
            case Ok(text) => Convert(env, text, MixedKind(site, path))
  {
    hide Parse, Structural, Substitute, Convert, KindAt, MixedKind;
    KindIs(site, path, s);
  }

  /** A string that is one placeholder keeps a native value where its type allows. */
  lemma WholeSubst(env: Env, site: Site, path: Path, s: string)
    requires Parse(s).Ok? && OneToken(Parse(s).value) && !Structural(path)
    ensures var d := Parse(s).value;
            Subst(env, site, Str(s), path) ==
              if !StartsOpen(d.body) && env.lookup(d.body).Ok? && Native(WholeKind(site, path), env.lookup(d.body).value)
              then env.lookup(d.body)
              else match Substitute(env, d)
                   case Err => Err
                   case Ok(text) => Convert(env, text, WholeKind(site, path))
  {
    hide Parse, Structural, Substitute, Convert, KindAt, WholeKind, StartsOpen, Native;
    KindIs(site, path, s);
  }

  lemma OneTokenText(env: Env, d: Doc)
    requires OneToken(d) && !StartsOpen(d.body) && '}' !in d.body && env.lookup(d.body).Ok?
    ensures Substitute(env, d) == Ok(Shown(env, env.lookup(d.body).value))
  {
    hide PathOf, StartsOpen;
    PathOfBody(d.body);
    assert Substitute(env, d.rest) == Ok("");
    assert "" + Shown(env, env.lookup(d.body).value) + "" == Shown(env, env.lookup(d.body).value);
  }

  /** The text that the native value of a new whole placeholder would have been converted from. */
  ghost function NativeAgrees(env: Env, get: Getter, site: Site, path: Path, s: string): bool
    requires Reads(env, get, s)
  {
    TurnsNative(env, get, site, path, s) ==>
      var v := env.lookup(Absorb(env, get, "", Parse(s).value).value.body).value;
      Convert(env, Shown(env, v), MixedKind(site, path)) == Ok(v)
  }

  /**
   * While a placeholder is left for run time, both orders fail together, and give the
   * same value if and only if no empty env value has left that placeholder alone in
   * the string with a native value that its own text does not convert back to.
   */
  lemma DynamicLeafAgreesIff(env: Env, get: Getter, site: Site, path: Path, s: string)
    requires Reads(env, get, s) && Consistent(env, get) && RemainsDynamic(Parse(s).value) && !Structural(path)
    ensures var text := ReplaceAll(env, get, s);
            && (text.Err? ==> Subst(env, site, Str(s), path).Err? && NativeAgrees(env, get, site, path, s))
            && (text.Ok? ==> (Subst(env, site, Str(text.value), path) == Subst(env, site, Str(s), path) <==>
                              NativeAgrees(env, get, site, path, s)))
  {
    hide Parse, ReplaceAll, Absorb, Substitute, Consistent, WholeEnv, Structural, StartsOpen, RemainsDynamic, Native, Subst,
         Convert, MixedKind, WholeKind, Canonical, Shown;
    var d := Parse(s).value;
    HasToken(d);
    EnvFirstIsTransparent(env, get, s);
    if OneToken(d) { OneTokenStays(env, get, d); } else { MixedSubst(env, site, path, s); }
    if ReplaceAll(env, get, s).Ok? && !OneToken(d) {
      var text := ReplaceAll(env, get, s).value;
      var e := Absorb(env, get, "", d).value;
      AbsorbKeepsDynamic(env, get, "", d);
      KindIs(site, path, s);
      if OneToken(e) {
        WholeSubst(env, site, path, text);
        ClosedBody(e);
        if !StartsOpen(e.body) && env.lookup(e.body).Ok? { OneTokenText(env, e); }
      } else {
        MixedSubst(env, site, path, text);
      }
    } else {
      PrintParse(s);
    }
  }

  lemma HasToken(d: Doc)
    requires RemainsDynamic(d)
    ensures d.Token?
  {
  }

  lemma ClosedBody(d: Doc)
    requires Canonical(d) && d.Token?
    ensures '}' !in d.body
  {
  }

  /** When only env placeholders occur, the text is final, and a declared type is no longer applied to it. */
  lemma StaticLeafIsText(env: Env, get: Getter, site: Site, path: Path, s: string)
    requires Reads(env, get, s) && Consistent(env, get) && !RemainsDynamic(Parse(s).value)
    requires Parse(s).value.Token? ==> !Structural(path)
    ensures var text := ReplaceAll(env, get, s);
            && (text.Err? ==> Subst(env, site, Str(s), path).Err?)
            && (text.Ok? ==>
                  && Subst(env, site, Str(text.value), path) == Ok(Str(text.value))
                  && Subst(env, site, Str(s), path) ==
                       if Parse(s).value.Text? then Ok(Str(text.value)) else Convert(env, text.value, MixedKind(site, path)))
  {
    hide Parse, ReplaceAll, Absorb, Consistent, WholeEnv, Structural, EnvBody, Convert, MixedKind, Canonical, StaticText, KindAt;
    var d := Parse(s).value;
    EnvFirstIsTransparent(env, get, s);
    PrintParse(s);
    WholeEnvIsOneToken(s);
    if d.Token? {
      assert d.body in Bodies(d);
      MixedSubst(env, site, path, s);
      if ReplaceAll(env, get, s).Ok? { AbsorbKeepsDynamic(env, get, "", d); }
    } else {
      PlainStays(env, get, d);
    }
  }

  lemma PlainStays(env: Env, get: Getter, d: Doc)
    requires d.Text?
    ensures Absorb(env, get, "", d) == Ok(d)
  {
    assert "" + d.text == d.text;
  }

  /** convertStepVariable yields a string for no type but the textual ones. */
  ghost predicate ConversionsAreTyped(env: Env) {
    forall text, kind :: kind != "" && kind != "string" && env.convert(text, kind).Ok? ==> !env.convert(text, kind).value.Str?
  }

  /** Such a string survives early replacement if and only if its type is textual. */
  lemma EarlyEnvSkipsConversion(env: Env, get: Getter, site: Site, path: Path, s: string)
    requires Reads(env, get, s) && Consistent(env, get) && !RemainsDynamic(Parse(s).value) && ReplaceAll(env, get, s).Ok?
    requires Parse(s).value.Token? && !Structural(path) && ConversionsAreTyped(env)
    ensures Subst(env, site, Str(ReplaceAll(env, get, s).value), path) == Subst(env, site, Str(s), path) <==>
            KindAt(site, path, s) == "" || KindAt(site, path, s) == "string"
  {
    hide Parse, ReplaceAll, KindAt, Subst, WholeEnv, Canonical, RemainsDynamic, Consistent, Structural, WholeKind;
    StaticLeafIsText(env, get, site, path, s);
    KindIs(site, path, s);
    MixedIsNotWhole(env, get, s);
  }

  lemma MixedIsNotWhole(env: Env, get: Getter, s: string)
    requires Reads(env, get, s) && !RemainsDynamic(Parse(s).value)
    ensures !OneToken(Parse(s).value)
  {
    hide Parse, WholeEnv, EnvBody, Canonical;
    var d := Parse(s).value;
    WholeEnvIsOneToken(s);
    if d.Token? { assert d.body in Bodies(d); }
  }

  lemma {:induction false} QuietIsKept(env: Env, site: Site, t: Json, path: Path)
    requires Quiet(t)
    ensures Subst(env, site, t, path) == Ok(t)
    decreases t
  {
    match t {
      case Str(s) => PlainText(s);
      case Obj(f) =>
        hide KindAt, LeafValue, Parse, Structural, Skipped;
        forall k | k in f ensures Subst(env, site, f[k], path + [k]) == Ok(f[k]) { QuietIsKept(env, site, f[k], path + [k]); }
        assert Subst(env, site, t, path).value.fields == f;
      case Arr(items) =>
        hide KindAt, LeafValue, Parse, Structural, Skipped;
        forall i | 0 <= i < |items| ensures Subst(env, site, items[i], path + [Itoa(i)]) == Ok(items[i]) {
          QuietIsKept(env, site, items[i], path + [Itoa(i)]);
        }
        assert Subst(env, site, t, path).value.items == items;
      case _ =>
    }
  }

  lemma WholeEnvParses(s: string)
    requires WholeEnv(s)
    ensures var body := MatchHere(s).value;
            s == TokenText(body) && Parse(s) == Ok(Token("", body, Text(""))) && '}' !in body && !StartsOpen(body) && PathOf(body) == body
  {
    var body := MatchHere(s).value;
    hide MatchHere, StartsOpen, PathOf, ValidBody, EnvBody, FirstToken;
    MatchHasNoBrace(s);
    assert s == "" + TokenText(body) + "";
    EnvBodyIsValid(body);
    EnvBodyIsClosed(body);
    EmptyOpensNothing();
    CutUnique("", body, "");
    PlainText("");
    PathOfBody(body);
  }

  lemma EnvBodyIsValid(body: string)
    requires EnvBody(body)
    ensures ValidBody(body)
  {
    var start := body[..4];
    assert body[0] == start[0] == 'e' && body[1] == start[1] == 'n' && body[2] == start[2] == 'v' && body[3] == start[3] == '.';
    assert IndexOf(body, '.') == 3;
  }

  lemma MatchHasNoBrace(s: string)
    requires MatchHere(s).Some? && |s| == |MatchHere(s).value| + 3
    ensures var body := MatchHere(s).value; '}' !in body && s == TokenText(body)
  {
    var after := s[2..];
    var n := IdentRun(after);
    var m := PathRun(after[n + 1..]);
    var body := after[..n + 1 + m];
    assert MatchHere(s) == Some(body);
    forall i | 0 <= i < |body| ensures body[i] != '}' {
      if i < n { assert IdentChar(after[i]); }
      if i > n { assert after[n + 1..][i - n - 1] == after[i]; }
    }
    assert s == s[..2] + body + [s[|body| + 2]];
  }

  // ----- The tree -----

  /** What the static pass leaves of the string will be read as expected. */
  ghost predicate LeafReads(env: Env, get: Getter, s: string) {
    if WholeEnv(s) then
      var v := get(EnvPath(MatchHere(s).value)); v.Ok? ==> Quiet(v.value)
    else Reads(env, get, s)
  }

  /** Whether type and native form of the value are the same in both orders. */
  ghost predicate LeafKeeps(env: Env, get: Getter, site: Site, path: Path, s: string)
    requires LeafReads(env, get, s)
  {
    if WholeEnv(s) then
      var v := get(EnvPath(MatchHere(s).value));
      v.Ok? ==> Native(WholeKind(site, path), v.value) || Convert(env, Shown(env, v.value), WholeKind(site, path)) == v
    else if RemainsDynamic(Parse(s).value) then NativeAgrees(env, get, site, path, s)
    else
      Parse(s).value.Text? || ReplaceAll(env, get, s).Err? || WholeKind(site, path) == "" || WholeKind(site, path) == "string"
  }

  /** The two orders of resolution give the same value of a string, or fail together. */
  ghost predicate LeafAgrees(env: Env, get: Getter, site: Site, path: Path, s: string) {
    match StaticLeaf(env, get, s)
    case Err => Subst(env, site, Str(s), path).Err?
    case Ok(v) => Subst(env, site, v, path) == Subst(env, site, Str(s), path)
  }

  /** One whole env placeholder: the native value when env comes first, the same or a converted one otherwise. */
  lemma WholeLeafAgreesIff(env: Env, get: Getter, site: Site, path: Path, s: string)
    requires WholeEnv(s) && LeafReads(env, get, s) && Consistent(env, get) && !Structural(path)
    ensures LeafAgrees(env, get, site, path, s) <==> LeafKeeps(env, get, site, path, s)
  {
    hide Parse, MatchHere, Quiet, Structural, StartsOpen, Native, Subst, Substitute, Convert, PathOf, WholeKind, Shown, Reads;
    WholeEnvParses(s);
    var body := MatchHere(s).value;
    var d := Token("", body, Text(""));
    EnvLookup(env, get, body);
    WholeSubst(env, site, path, s);
    if get(EnvPath(body)).Ok? {
      OneTokenText(env, d);
      QuietIsKept(env, site, get(EnvPath(body)).value, path);
    } else {
      MissingValue(env, body);
    }
  }

  lemma MissingValue(env: Env, body: string)
    requires env.lookup(PathOf(body)).Err?
    ensures Substitute(env, Token("", body, Text(""))).Err?
  {
  }

  /** For every string that is read as expected, both orders agree if and only if type and native form are kept. */
  lemma LeafAgreesIff(env: Env, get: Getter, site: Site, path: Path, s: string)
    requires LeafReads(env, get, s) && Parse(s).Ok? && (Parse(s).value.Token? ==> !Structural(path))
    requires Consistent(env, get) && ConversionsAreTyped(env)
    ensures LeafAgrees(env, get, site, path, s) <==> LeafKeeps(env, get, site, path, s)
  {
    hide Parse, MatchHere, WholeEnv, Quiet, Structural, Native, NativeAgrees, RemainsDynamic, ReplaceAll, Subst, Consistent,
         WholeKind, Reads, Shown;
    if WholeEnv(s) {
      WholeEnvHasToken(s);
      WholeLeafAgreesIff(env, get, site, path, s);
    } else if RemainsDynamic(Parse(s).value) {
      HasToken(Parse(s).value);
      DynamicLeafAgreesIff(env, get, site, path, s);
    } else {
      StaticLeafIsText(env, get, site, path, s);
    }
  }

  lemma WholeEnvHasToken(s: string)
    requires WholeEnv(s)
    ensures Parse(s).Ok? && Parse(s).value.Token?
  {
    WholeEnvParses(s);
  }

  /** Every string that generation visits satisfies `holds`, at its path. */
  ghost predicate Every(site: Site, t: Json, path: Path, holds: (Path, string) -> bool)
    decreases t
  {
    match t
    case Str(s) => holds(path, s)
    case Obj(f) => forall k :: k in f && !Skipped(site, path == [], k) ==> Every(site, f[k], path + [k], holds)
    case Arr(items) => forall i :: 0 <= i < |items| ==> Every(site, items[i], path + [Itoa(i)], holds)
    case _ => true
  }

  /** Below skipped keys there is no `${`. */
  ghost predicate SkippedAreQuiet(site: Site, t: Json, path: Path)
    decreases t
  {
    match t
    case Obj(f) => forall k :: k in f ==> if Skipped(site, path == [], k) then Quiet(f[k]) else SkippedAreQuiet(site, f[k], path + [k])
    case Arr(items) => forall i :: 0 <= i < |items| ==> SkippedAreQuiet(site, items[i], path + [Itoa(i)])
    case _ => true
  }

  /** The static pass, and then the substitution of what it left. */
  function EnvFirst(env: Env, get: Getter, site: Site, t: Json, path: Path): Result<Json> {
    match StaticTree(env, get, t)
    case Err => Err
    case Ok(c) => Subst(env, site, c, path)
  }

  ghost function AtOnceResolves(env: Env, site: Site): (Path, string) -> bool {
    (path: Path, s: string) => Subst(env, site, Str(s), path).Ok?
  }

  ghost function EnvFirstResolves(env: Env, get: Getter, site: Site): (Path, string) -> bool {
    (path: Path, s: string) => EnvFirst(env, get, site, Str(s), path).Ok?
  }

  ghost function Agrees(env: Env, get: Getter, site: Site): (Path, string) -> bool {
    (path: Path, s: string) => LeafAgrees(env, get, site, path, s)
  }

  /** The string is well formed, in a place where placeholders may stand, and read as expected. */
  ghost function Reading(env: Env, get: Getter, site: Site): (Path, string) -> bool {
    (path: Path, s: string) => Parse(s).Ok? && (Parse(s).value.Token? ==> !Structural(path)) && LeafReads(env, get, s)
  }

  ghost function Keeping(env: Env, get: Getter, site: Site): (Path, string) -> bool {
    (path: Path, s: string) => LeafReads(env, get, s) && LeafKeeps(env, get, site, path, s)
  }

  /** A configuration whose strings are all read as expected. */
  ghost predicate Readable(env: Env, get: Getter, site: Site, t: Json, path: Path) {
    SkippedAreQuiet(site, t, path) && Every(site, t, path, Reading(env, get, site))
  }

  lemma {:induction false} QuietIsStatic(env: Env, get: Getter, t: Json)
    requires Quiet(t)
    ensures StaticTree(env, get, t) == Ok(t)
    decreases t
  {
    match t {
      case Str(s) => QuietText(env, get, s);
      case Obj(f) =>
        hide StaticLeaf;
        forall k | k in f { QuietIsStatic(env, get, f[k]); }
        assert StaticTree(env, get, t).value.fields == f;
      case Arr(items) =>
        hide StaticLeaf;
        forall i | 0 <= i < |items| { QuietIsStatic(env, get, items[i]); }
        assert StaticTree(env, get, t).value.items == items;
      case _ =>
    }
  }

  lemma QuietText(env: Env, get: Getter, s: string)
    requires NoOpen(s)
    ensures StaticLeaf(env, get, s) == Ok(Str(s))
  {
    hide ReplaceAll;
    PlainText(s);
    ReplaceIsStatic(env, get, Text(s));
    TextMatchesNothing(s);
  }

  lemma StaticLeafIsClean(env: Env, get: Getter, site: Site, s: string)
    requires LeafReads(env, get, s) && StaticLeaf(env, get, s).Ok?
    ensures forall atRoot :: CleanTree(site, StaticLeaf(env, get, s).value, atRoot)
  {
    hide MatchHere, WholeEnv, Quiet, Reads, ReplaceAll;
    forall atRoot ensures CleanTree(site, StaticLeaf(env, get, s).value, atRoot) {
      if WholeEnv(s) { QuietIsClean(site, StaticLeaf(env, get, s).value, atRoot); }
    }
  }

  /** Like substitution, the static pass followed by substitution works field by field. */
  lemma EnvFirstFields(env: Env, get: Getter, site: Site, f: map<string, Json>, path: Path)
    requires forall k :: k in f && Skipped(site, path == [], k) ==> Quiet(f[k])
    ensures var r := EnvFirst(env, get, site, Obj(f), path);
            && (r.Ok? <==> forall k :: k in f && !Skipped(site, path == [], k) ==> EnvFirst(env, get, site, f[k], path + [k]).Ok?)
            && (r.Ok? ==> r.value.Obj? && r.value.fields.Keys == f.Keys && forall k :: k in f ==>
                  r.value.fields[k] == if Skipped(site, path == [], k) then f[k] else EnvFirst(env, get, site, f[k], path + [k]).value)
  {
    hide Parse, Structural, KindAt, LeafValue, Skipped, StaticLeaf, Quiet;
    forall k | k in f && Skipped(site, path == [], k) ensures StaticTree(env, get, f[k]) == Ok(f[k]) { QuietIsStatic(env, get, f[k]); }
    if StaticTree(env, get, Obj(f)).Ok? {
      var after := StaticTree(env, get, Obj(f)).value.fields;
      forall k | k in f && !Skipped(site, path == [], k)
        ensures Subst(env, site, after[k], path + [k]) == EnvFirst(env, get, site, f[k], path + [k]) { }
    }
  }

  lemma EnvFirstItems(env: Env, get: Getter, site: Site, items: seq<Json>, path: Path)
    ensures var r := EnvFirst(env, get, site, Arr(items), path);
            && (r.Ok? <==> forall i :: 0 <= i < |items| ==> EnvFirst(env, get, site, items[i], path + [Itoa(i)]).Ok?)
            && (r.Ok? ==> r.value.Arr? && |r.value.items| == |items| && forall i :: 0 <= i < |items| ==>
                  r.value.items[i] == EnvFirst(env, get, site, items[i], path + [Itoa(i)]).value)
  {
    hide Parse, Structural, KindAt, LeafValue, StaticLeaf;
    if StaticTree(env, get, Arr(items)).Ok? {
      var after := StaticTree(env, get, Arr(items)).value.items;
      forall i | 0 <= i < |items|
        ensures Subst(env, site, after[i], path + [Itoa(i)]) == EnvFirst(env, get, site, items[i], path + [Itoa(i)]) { }
    }
  }

  lemma SubstFields(env: Env, site: Site, f: map<string, Json>, path: Path)
    ensures var r := Subst(env, site, Obj(f), path);
            && (r.Ok? <==> forall k :: k in f && !Skipped(site, path == [], k) ==> Subst(env, site, f[k], path + [k]).Ok?)
            && (r.Ok? ==> r.value.Obj? && r.value.fields.Keys == f.Keys && forall k :: k in f ==>
                  r.value.fields[k] == if Skipped(site, path == [], k) then f[k] else Subst(env, site, f[k], path + [k]).value)
  {
    hide Skipped;
  }

  lemma SubstItems(env: Env, site: Site, items: seq<Json>, path: Path)
    ensures var r := Subst(env, site, Arr(items), path);
            && (r.Ok? <==> forall i :: 0 <= i < |items| ==> Subst(env, site, items[i], path + [Itoa(i)]).Ok?)
            && (r.Ok? ==> r.value.Arr? && |r.value.items| == |items| && forall i :: 0 <= i < |items| ==>
                  r.value.items[i] == Subst(env, site, items[i], path + [Itoa(i)]).value)
  {
  }

  /** Either order resolves a tree exactly when it resolves its strings, and they agree on a tree they resolve exactly when they agree on its strings. */
  ghost predicate ByStrings(env: Env, get: Getter, site: Site, t: Json, path: Path) {
    var a, b := EnvFirst(env, get, site, t, path), Subst(env, site, t, path);
    && (a.Ok? <==> Every(site, t, path, EnvFirstResolves(env, get, site)))
    && (b.Ok? <==> Every(site, t, path, AtOnceResolves(env, site)))
    && (Every(site, t, path, Agrees(env, get, site)) ==> a == b)
    && (a == b && b.Ok? ==> Every(site, t, path, Agrees(env, get, site)))
  }

  lemma FieldsByStrings(env: Env, get: Getter, site: Site, f: map<string, Json>, path: Path)
    requires forall k :: k in f ==> if Skipped(site, path == [], k) then Quiet(f[k]) else ByStrings(env, get, site, f[k], path + [k])
    ensures ByStrings(env, get, site, Obj(f), path)
  {
    hide Skipped, Subst, EnvFirst, Quiet, EnvFirstResolves, AtOnceResolves, Agrees;
    EnvFirstFields(env, get, site, f, path);
    SubstFields(env, site, f, path);
    var a, b := EnvFirst(env, get, site, Obj(f), path), Subst(env, site, Obj(f), path);
    if a.Ok? && b.Ok? && Every(site, Obj(f), path, Agrees(env, get, site)) { assert a.value.fields == b.value.fields; }
  }

  lemma ItemsByStrings(env: Env, get: Getter, site: Site, items: seq<Json>, path: Path)
    requires forall i :: 0 <= i < |items| ==> ByStrings(env, get, site, items[i], path + [Itoa(i)])
    ensures ByStrings(env, get, site, Arr(items), path)
  {
    hide Subst, EnvFirst, EnvFirstResolves, AtOnceResolves, Agrees, Itoa;
    EnvFirstItems(env, get, site, items, path);
    SubstItems(env, site, items, path);
    var a, b := EnvFirst(env, get, site, Arr(items), path), Subst(env, site, Arr(items), path);
    if a.Ok? && b.Ok? && Every(site, Arr(items), path, Agrees(env, get, site)) { assert a.value.items == b.value.items; }
  }

  lemma {:induction false} TreeByStrings(env: Env, get: Getter, site: Site, t: Json, path: Path)
    requires SkippedAreQuiet(site, t, path)
    ensures ByStrings(env, get, site, t, path)
    decreases t
  {
    match t {
      case Str(s) => StringByStrings(env, get, site, s, path);
      case Obj(f) =>
        hide ByStrings, Skipped, Quiet;
        forall k | k in f && !Skipped(site, path == [], k) { TreeByStrings(env, get, site, f[k], path + [k]); }
        FieldsByStrings(env, get, site, f, path);
      case Arr(items) =>
        hide ByStrings, Itoa;
        forall i | 0 <= i < |items| { TreeByStrings(env, get, site, items[i], path + [Itoa(i)]); }
        ItemsByStrings(env, get, site, items, path);
      case _ => hide Every;
    }
  }

  lemma StringByStrings(env: Env, get: Getter, site: Site, s: string, path: Path)
    ensures ByStrings(env, get, site, Str(s), path)
  {
    hide Subst, StaticLeaf;
  }

  /**
   * Replacing env placeholders first changes nothing about a configuration if and only
   * if the two orders agree on every string that generation visits, or both fail: some
   * visited string does not resolve at once, and one does not resolve with env first.
   */
  lemma TreeAgreesIff(env: Env, get: Getter, site: Site, t: Json, path: Path)
    requires SkippedAreQuiet(site, t, path)
    ensures EnvFirst(env, get, site, t, path) == Subst(env, site, t, path) <==>
            || Every(site, t, path, Agrees(env, get, site))
            || (!Every(site, t, path, AtOnceResolves(env, site)) && !Every(site, t, path, EnvFirstResolves(env, get, site)))
  {
    hide Every, EnvFirst, Subst, EnvFirstResolves, AtOnceResolves, Agrees, SkippedAreQuiet;
    TreeByStrings(env, get, site, t, path);
  }

  /** Where every string is read as expected, agreement on a string is that its type and native form are kept. */
  lemma {:induction false} AgreeingIsKeeping(env: Env, get: Getter, site: Site, t: Json, path: Path)
    requires Every(site, t, path, Reading(env, get, site)) && Consistent(env, get) && ConversionsAreTyped(env)
    ensures Every(site, t, path, Agrees(env, get, site)) <==> Every(site, t, path, Keeping(env, get, site))
    decreases t
  {
    hide Parse, Structural, LeafReads, LeafKeeps, LeafAgrees, Skipped, Itoa, Consistent, ConversionsAreTyped;
    match t {
      case Str(s) => LeafAgreesIff(env, get, site, path, s);
      case Obj(f) => forall k | k in f && !Skipped(site, path == [], k) { AgreeingIsKeeping(env, get, site, f[k], path + [k]); }
      case Arr(items) => forall i | 0 <= i < |items| { AgreeingIsKeeping(env, get, site, items[i], path + [Itoa(i)]); }
      case _ =>
    }
  }

  /** So a configuration that is read as expected is the same in both orders if and only if all its strings keep type and native form, or both orders fail. */
  lemma ReadableTreeAgreesIff(env: Env, get: Getter, site: Site, t: Json, path: Path)
    requires Readable(env, get, site, t, path) && Consistent(env, get) && ConversionsAreTyped(env)
    ensures EnvFirst(env, get, site, t, path) == Subst(env, site, t, path) <==>
            || Every(site, t, path, Keeping(env, get, site))
            || (!Every(site, t, path, AtOnceResolves(env, site)) && !Every(site, t, path, EnvFirstResolves(env, get, site)))
  {
    hide Every, EnvFirst, Subst, EnvFirstResolves, AtOnceResolves, Agrees, Keeping, Reading, SkippedAreQuiet, Consistent;
    TreeAgreesIff(env, get, site, t, path);
    AgreeingIsKeeping(env, get, site, t, path);
  }

  /** Keys on the way to placeholders stay clean. */
  lemma {:induction false} StaticTreeIsClean(env: Env, get: Getter, site: Site, t: Json, path: Path)
    requires Readable(env, get, site, t, path) && CleanTree(site, t, path == []) && StaticTree(env, get, t).Ok?
    ensures CleanTree(site, StaticTree(env, get, t).value, path == [])
    decreases t
  {
    hide LeafReads, LeafKeeps, StaticLeaf, Parse, Structural, Quiet, Skipped, CleanSegment;
    match t {
      case Str(s) => StaticLeafIsClean(env, get, site, s);
      case Obj(f) =>
        var after := StaticTree(env, get, t).value.fields;
        forall k | k in f && !Skipped(site, path == [], k)
          ensures (CleanSegment(k) || Quiet(after[k])) && CleanTree(site, after[k], false)
        {
          StaticTreeIsClean(env, get, site, f[k], path + [k]);
          if Quiet(f[k]) { QuietIsStatic(env, get, f[k]); }
        }
      case Arr(items) =>
        forall i | 0 <= i < |items| { StaticTreeIsClean(env, get, site, items[i], path + [Itoa(i)]); }
      case _ =>
    }
  }

  /** resolveStaticEnvironmentPlaceholders: every string of the tree, in any order. */
  method ResolveStaticTree(env: Env, get: Getter, t: Json) returns (r: Result<Json>)
    ensures r == StaticTree(env, get, t)
    decreases t, 1
  {
    hide StaticLeaf;
    match t {
      case Str(s) => r := ResolveLeaf(env, get, s);
      case Obj(f) => r := ResolveStaticObject(env, get, t);
      case Arr(items) => r := ResolveStaticArray(env, get, t);
      case _ => r := Ok(t);
    }
  }

  method ResolveLeaf(env: Env, get: Getter, s: string) returns (r: Result<Json>)
    ensures r == StaticLeaf(env, get, s)
  {
    hide MatchHere, ReplaceAll;
    r := ResolveStaticString(env, get, s);
  }

  method ResolveStaticObject(env: Env, get: Getter, t: Json) returns (r: Result<Json>)
    requires t.Obj?
    ensures r == StaticTree(env, get, t)
    decreases t, 0
  {
    hide StaticLeaf;
    var fields, rest := t.fields, t.fields.Keys;
    while rest != {}
      invariant rest <= t.fields.Keys && fields.Keys == t.fields.Keys
      invariant forall k :: k in t.fields && k !in rest ==> StaticTree(env, get, t.fields[k]) == Ok(fields[k])
      invariant forall k :: k in rest ==> fields[k] == t.fields[k]
      decreases |rest|
    {
      var k :| k in rest;
      var child := ResolveStaticTree(env, get, fields[k]);
      if child.Err? { return Err; }
      fields := fields[k := child.value];
      rest := rest - {k};
    }
    r := Ok(Obj(fields));
    assert StaticTree(env, get, t).value.fields == fields;
  }

  method ResolveStaticArray(env: Env, get: Getter, t: Json) returns (r: Result<Json>)
    requires t.Arr?
    ensures r == StaticTree(env, get, t)
    decreases t, 0
  {
    hide StaticLeaf;
    var items, n := t.items, 0;
    while n < |t.items|
      invariant n <= |items| == |t.items|
      invariant forall i :: 0 <= i < n ==> StaticTree(env, get, t.items[i]) == Ok(items[i])
      invariant items[n..] == t.items[n..]
    {
      var child := ResolveStaticTree(env, get, items[n]);
      if child.Err? { return Err; }
      items := items[n := child.value];
      n := n + 1;
    }
    r := Ok(Arr(items));
    assert StaticTree(env, get, t).value.items == items;
  }

  /**
   * The whole life of a configuration: env placeholders replaced once, variables
   * generated for the rest, and those resolved at run time. This gives what resolving
   * all placeholders of the raw configuration at once gives, failures included, if and
   * only if every string keeps its type and native form, or both fail.
   */
  method CompileThenResolve(env: Env, get: Getter, site: Site, raw: Json, order: Order) returns (r: Result<Json>)
    requires raw.Obj? && CleanTree(site, raw, true) && Readable(env, get, site, raw, [])
    requires Consistent(env, get) && ConversionsAreTyped(env)
    ensures r == EnvFirst(env, get, site, raw, [])
    ensures r == Subst(env, site, raw, []) <==>
            || Every(site, raw, [], Keeping(env, get, site))
            || (!Every(site, raw, [], AtOnceResolves(env, site)) && !Every(site, raw, [], EnvFirstResolves(env, get, site)))
  {
    hide StaticTree, Subst, Readable, Every, CleanTree, Consistent, ConversionsAreTyped, Keeping, AtOnceResolves, EnvFirstResolves;
    var compiled := ResolveStaticTree(env, get, raw);
    ReadableTreeAgreesIff(env, get, site, raw, []);
    if compiled.Err? { return Err; }
    StaticObject(env, get, raw);
    StaticTreeIsClean(env, get, site, raw, []);
    r := PrepareThenResolve(env, site, compiled.value, order);
  }

  lemma StaticObject(env: Env, get: Getter, t: Json)
    requires t.Obj? && StaticTree(env, get, t).Ok?
    ensures StaticTree(env, get, t).value.Obj?
  {
  }

  // ----- Inputs on which the two orders differ -----

  lemma EnvA()
    ensures ValidBody("env.a") && '}' !in "env.a" && EnvBody("env.a") && EnvPath("env.a") == "a" && NoOpen("")
  {
    assert IndexOf("env.a", '.') == 3;
  }

  lemma CtxB()
    ensures ValidBody("ctx.b") && '}' !in "ctx.b" && !EnvBody("ctx.b") && !StartsOpen("ctx.b")
  {
    assert IndexOf("ctx.b", '.') == 3;
    assert "ctx.b"[..4][0] == 'c';
  }

  lemma NumberText()
    ensures var d := Token("1", "env.a", Text(""));
            Print(d) == "1${env.a}" && Canonical(d) && Bodies(d) == ["env.a"] && EnvBody("env.a") && EnvPath("env.a") == "a"
  {
    hide ValidBody, EnvBody;
    EnvA();
    assert NoOpen("1");
    assert "1" + TokenText("env.a") + "" == "1${env.a}";
  }

  /** For instance, an integer `1${env.a}` with `a` set to 2 is the number 12 when resolved at once, and the text 12 when env comes first. */
  lemma NumberBecomesText(env: Env, get: Getter, site: Site, path: Path)
    requires get("a") == Ok(Num("2")) && env.render(Num("2")) == "2" && env.convert("12", "integer") == Ok(Num("12"))
    requires Consistent(env, get) && !Structural(path) && WholeKind(site, path) == "integer"
    ensures Subst(env, site, Str("1${env.a}"), path) == Ok(Num("12"))
    ensures ReplaceAll(env, get, "1${env.a}") == Ok("12") && Subst(env, site, Str("12"), path) == Ok(Str("12"))
  {
    hide Parse, Canonical, ReplaceAll, Consistent, Structural, Subst, EnvBody, WholeKind;
    var d := Token("1", "env.a", Text(""));
    NumberText();
    ParsePrint(d);
    ReplaceIsStatic(env, get, d);
    assert Shown(env, Num("2")) == "2";
    assert StaticText(env, get, d.rest) == Ok("");
    assert d.lead + "2" + "" == "12";
    assert StaticText(env, get, d) == Ok("12");
    assert MatchHere("1${env.a}").None?;
    NumberReads(env, get);
    StaticLeafIsText(env, get, site, path, "1${env.a}");
  }

  lemma NumberReads(env: Env, get: Getter)
    requires get("a") == Ok(Num("2")) && env.render(Num("2")) == "2"
    ensures var e := Absorb(env, get, "", Token("1", "env.a", Text(""))); e == Ok(Text("12")) && Canonical(e.value)
  {
    NumberText();
    assert "" + "1" + Shown(env, Num("2")) + "" == "12";
    assert NoOpen("12");
  }

  lemma UnsetText()
    ensures var rest := Token("", "ctx.b", Text(""));
            var d := Token("", "env.a", rest);
            && Print(d) == "${env.a}${ctx.b}" && Print(rest) == "${ctx.b}" && Canonical(d) && Canonical(rest)
            && Bodies(d) == ["env.a", "ctx.b"]
  {
    hide ValidBody, NoOpen;
    EnvA();
    CtxB();
    assert "" + TokenText("ctx.b") + "" == "${ctx.b}";
    assert "" + TokenText("env.a") + "${ctx.b}" == "${env.a}${ctx.b}";
  }

  /** With `a` unset, `${env.a}${ctx.b}` is the text of `b` when resolved at once, and `b` itself when env comes first. */
  lemma UnsetValueMakesWhole(env: Env, get: Getter, site: Site, path: Path)
    requires get("a") == Ok(Null) && env.lookup("ctx.b") == Ok(Num("7")) && env.render(Num("7")) == "7"
    requires Consistent(env, get) && !Structural(path) && WholeKind(site, path) == ""
    ensures Subst(env, site, Str("${env.a}${ctx.b}"), path) == Ok(Str("7"))
    ensures ReplaceAll(env, get, "${env.a}${ctx.b}") == Ok("${ctx.b}") && Subst(env, site, Str("${ctx.b}"), path) == Ok(Num("7"))
  {
    hide Parse, Canonical, ReplaceAll, Consistent, Structural, Subst, EnvBody, WholeKind, StartsOpen, TokenText, PathOf;
    var rest := Token("", "ctx.b", Text(""));
    var d := Token("", "env.a", rest);
    EnvA();
    CtxB();
    UnsetText();
    ParsePrint(d);
    ParsePrint(rest);
    ReplaceIsStatic(env, get, d);
    UnsetStatic(env, get);
    EnvLookup(env, get, "env.a");
    OneTokenText(env, rest);
    assert "" + Shown(env, Null) + "7" == "7";
    MixedSubst(env, site, path, "${env.a}${ctx.b}");
    WholeSubst(env, site, path, "${ctx.b}");
    KindIs(site, path, "${env.a}${ctx.b}");
  }

  lemma UnsetStatic(env: Env, get: Getter)
    requires get("a") == Ok(Null)
    ensures StaticText(env, get, Token("", "env.a", Token("", "ctx.b", Text("")))) == Ok("${ctx.b}")
  {
    hide EnvBody, TokenText;
    EnvA();
    CtxB();
    UnsetText();
    var rest := Token("", "ctx.b", Text(""));
    assert StaticText(env, get, Text("")) == Ok("");
    assert StaticText(env, get, rest) == Ok("" + TokenText("ctx.b") + "") == Ok(Print(rest));
    assert "" + Shown(env, Null) + "${ctx.b}" == "${ctx.b}";
  }
}
