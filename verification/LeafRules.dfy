/**
 * What a configured string becomes, said of the string itself: which type applies,
 * which values stay native, where placeholders may not stand, and what is left alone.
 */
module LeafRules {
  import opened Basics
  import opened Json
  import opened Placeholders
  import opened Resolution
  import opened StepConfig

  /** A body that can stand between `${` and `}`: a prefix, a dot, a path, and no brace that ends it early. */
  predicate GoodBody(body: string) {
    0 < IndexOf(body, '.') < |body| - 1 && '}' !in body && body[0] != '$'
  }

  /** The declared type of a property, or else the one inferred for it. */
  function TypeOf(site: Site, path: Path): string {
    var key := Key(path);
    if key in site.declared && site.declared[key] != "" then site.declared[key] else site.infer(key)
  }

  /** The text of a looked-up value. */
  function TextOf(env: Env, v: Json): string {
    if v.Null? then "" else env.render(v)
  }

  lemma WholeIsOneToken(body: string)
    requires GoodBody(body)
    ensures var s := "${" + body + "}"; Parse(s) == Ok(Token("", body, Text(""))) && !StartsOpen(body) && PathOf(body) == body
  {
    hide IndexOf;
    assert body[..2][0] == body[0];
    assert body[|body| - 1] in body;
    var d := Token("", body, Text(""));
    assert Print(d) == "" + TokenText(body) + "" == "${" + body + "}";
    ParsePrint(d);
  }

  /** A string that is one placeholder: its value as it is, or shown and converted, by declared or else inferred type. */
  lemma WholePlaceholder(env: Env, site: Site, path: Path, body: string)
    requires GoodBody(body) && !Structural(path)
    ensures var r := Subst(env, site, Str("${" + body + "}"), path);
            match env.lookup(body)
            case Err => r.Err?
            case Ok(v) => ByType(env, TypeOf(site, path), v, r)
  {
    hide Structural, Parse, StartsOpen, PathOf;
    WholeIsOneToken(body);
    assert Substitute(env, Text("")) == Ok("");
    if env.lookup(body).Ok? { assert "" + Shown(env, env.lookup(body).value) + "" == Shown(env, env.lookup(body).value); }
  }

  /** A placeholder with text around it: the text with the shown value, converted unless the type is textual or there is none. */
  lemma MixedText(env: Env, site: Site, path: Path, lead: string, body: string, tail: string)
    requires GoodBody(body) && !Structural(path) && NoOpen(lead) && NoOpen(tail) && (lead != "" || tail != "")
    ensures var r := Subst(env, site, Str(lead + "${" + body + "}" + tail), path);
            match env.lookup(body)
            case Err => r.Err?
            case Ok(v) =>
              var text := lead + TextOf(env, v) + tail;
              r == if TypeOf(site, path) in {"", "string"} then Ok(Str(text)) else env.convert(text, TypeOf(site, path))
  {
    hide Structural, Parse, PathOf, NoOpen;
    WholeIsOneToken(body);
    var d := Token(lead, body, Text(tail));
    assert Print(d) == lead + TokenText(body) + tail == lead + "${" + body + "}" + tail;
    ParsePrint(d);
    assert Substitute(env, Text(tail)) == Ok(tail);
  }

  /** Text without `${` is left alone wherever it stands. */
  lemma PlainTextStays(env: Env, site: Site, path: Path, s: string)
    requires NoOpen(s)
    ensures Subst(env, site, Str(s), path) == Ok(Str(s))
  {
    PlainText(s);
  }

  /** A placeholder may stand anywhere but in these positions. */
  lemma StructuralPositions(p: Path)
    ensures Structural(p) <==>
            || (exists rest :: p == ["outcome"] + rest)
            || (exists front, rest :: p == front + ["config", "outcome"] + rest)
            || (exists front, step, field, rest :: field in {"step_type", "name"} && p == front + ["steps", step, field] + rest)
  {
    if Structural(p) {
      if p[0] == "outcome" {
        assert p == ["outcome"] + p[1..];
      } else if i :| 0 < i < |p| && p[i] == "outcome" && p[i - 1] == "config" {
        assert p == p[..i - 1] + ["config", "outcome"] + p[i + 1..];
      } else {
        var i :| 2 <= i < |p| && (p[i] == "step_type" || p[i] == "name") && p[i - 2] == "steps";
        assert p == p[..i - 2] + ["steps", p[i - 1], p[i]] + p[i + 1..];
      }
    }
    if front, rest :| p == front + ["config", "outcome"] + rest { assert p[|front| + 1] == "outcome" && p[|front|] == "config"; }
    if front, step, field, rest :| field in {"step_type", "name"} && p == front + ["steps", step, field] + rest {
      assert p[|front| + 2] == field && p[|front|] == "steps";
    }
  }

  /** There every placeholder is refused. */
  lemma StructuralIsRefused(env: Env, site: Site, path: Path, s: string)
    requires Structural(path) && !NoOpen(s)
    ensures Subst(env, site, Str(s), path).Err?
  {
    hide Structural;
    assert FirstToken(s).Plain? ==> NoOpen(s);
  }

  /** `vars` stays as it is at any depth, and the `steps` of a composite step at the root. */
  lemma SkippedKeysStay(env: Env, site: Site, f: map<string, Json>, path: Path)
    requires Subst(env, site, Obj(f), path).Ok?
    ensures var r := Subst(env, site, Obj(f), path).value;
            && r.Obj? && r.fields.Keys == f.Keys
            && ("vars" in f ==> r.fields["vars"] == f["vars"])
            && ("steps" in f && site.composite && path == [] ==> r.fields["steps"] == f["steps"])
  {
    hide Structural, Parse, KindAt, LeafValue;
  }

  /** Every other key is substituted. */
  lemma OtherKeysAreSubstituted(env: Env, site: Site, f: map<string, Json>, path: Path, k: string)
    requires Subst(env, site, Obj(f), path).Ok? && k in f
    requires k != "vars" && !(k == "steps" && site.composite && path == [])
    ensures Subst(env, site, f[k], path + [k]) == Ok(Subst(env, site, Obj(f), path).value.fields[k])
  {
    hide Structural, Parse, KindAt, LeafValue;
  }


  /** A `${` without a closing brace, or with a body that is not a prefix, a dot and a path, is refused. */
  lemma BadPlaceholderIsRefused(env: Env, site: Site, path: Path, lead: string, rest: string)
    requires NoOpen(lead) && ('}' in rest ==> !(0 < IndexOf(rest[..IndexOf(rest, '}')], '.') < IndexOf(rest, '}') - 1))
    ensures Subst(env, site, Str(lead + "${" + rest), path).Err?
  {
    hide IndexOf;
    var s := lead + ("${" + rest);
    assert lead + "${" + rest == s;
    LeadEnds(lead, "${" + rest);
    assert s[|lead| + 2..] == rest;
  }
}
