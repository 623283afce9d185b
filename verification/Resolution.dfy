/** Resolving the recorded placeholders of one configured string. */
module Resolution {
  import opened Basics
  import opened Json
  import opened Placeholders

  /** Context and resolver lookups, fmt.Sprint, and conversion to a declared type, as opaque functions. */
  datatype Env = Env(
    lookup: string -> Result<Json>,
    render: Json -> string,
    convert: (string, string) -> Result<Json>)

  datatype Variable = Variable(kind: string, placeholders: seq<Placeholder>)

  /** A nil value leaves nothing behind. */
  function Shown(env: Env, v: Json): string {
    if v.Null? then "" else env.render(v)
  }

  /** convertStepVariable: untyped and string values stay text. */
  function Convert(env: Env, text: string, kind: string): Result<Json> {
    if kind == "" || kind == "string" then Ok(Str(text)) else env.convert(text, kind)
  }

  /** The reference: one left-to-right pass over the parsed string; inserted text is never read again. */
  function Substitute(env: Env, d: Doc): Result<string> {
    match d
    case Text(t) => Ok(t)
    case Token(lead, body, rest) =>
      match (env.lookup(PathOf(body)), Substitute(env, rest))
      case (Ok(v), Ok(tail)) => Ok(lead + Shown(env, v) + tail)
      case _ => Err
  }

  /** What the builder loop computes from recorded offsets, starting at `cursor`. */
  function Splice(env: Env, source: string, ps: seq<Placeholder>, cursor: nat): Result<string>
    requires cursor <= |source|
  {
    if ps == [] then Ok(source[cursor..])
    else if ps[0].start < cursor || ps[0].end < ps[0].start || ps[0].end > |source| then Err
    else
      match (env.lookup(PathOf(ps[0].template)), Splice(env, source, ps[1..], ps[0].end))
      case (Ok(v), Ok(tail)) => Ok(source[cursor..ps[0].start] + Shown(env, v) + tail)
      case _ => Err
  }

  /** On scanned offsets the loop performs the reference substitution. */
  lemma {:induction false} SpliceIsSubstitution(env: Env, d: Doc, before: string)
    ensures Splice(env, before + Print(d), Offsets(d, |before|), |before|) == Substitute(env, d)
  {
    var s := before + Print(d);
    match d {
      case Text(t) => assert s[|before|..] == t;
      case Token(lead, body, rest) =>
        hide TokenText, PathOf;
        var past := before + lead + TokenText(body);
        assert s == past + Print(rest);
        SpliceIsSubstitution(env, rest, past);
        assert Offsets(d, |before|)[1..] == Offsets(rest, |past|);
        assert s[|before|..|before| + |lead|] == lead;
    }
  }

  /** Values that keep their native form when the whole string is one placeholder. */
  predicate Native(kind: string, v: Json) {
    kind == "" || (kind == "object" && v.Obj?) || (kind == "array" && v.Arr?)
  }

  predicate WholeString(source: string, ps: seq<Placeholder>) {
    |ps| == 1 && ps[0].start == 0 && ps[0].end == |source| && TokenText(PathOf(ps[0].template)) == source
  }

  /** resolveStepVariable, for any recorded placeholders. */
  function ResolveSpec(env: Env, source: string, v: Variable): Result<Json> {
    if WholeString(source, v.placeholders) && env.lookup(PathOf(v.placeholders[0].template)).Err? then Err
    else if WholeString(source, v.placeholders) && Native(v.kind, env.lookup(PathOf(v.placeholders[0].template)).value)
    then env.lookup(PathOf(v.placeholders[0].template))
    else
      match Splice(env, source, SortByStart(v.placeholders), 0)
      case Err => Err
      case Ok(text) => Convert(env, text, v.kind)
  }

  /** `whole` is `front` followed by `tail`, or both fail. */
  predicate Extends(whole: Result<string>, front: string, tail: Result<string>) {
    match (whole, tail)
    case (Ok(a), Ok(b)) => a == front + b
    case (Err, Err) => true
    case _ => false
  }

  lemma ExtendsTwice(a: Result<string>, front: string, b: Result<string>, more: string, c: Result<string>)
    requires Extends(a, front, b) && Extends(b, more, c)
    ensures Extends(a, front + more, c)
  {
  }

  lemma NothingExtends(r: Result<string>)
    ensures Extends(r, "", r)
  {
  }

  lemma ErrExtends(r: Result<string>, front: string)
    ensures Extends(r, front, Err) ==> r.Err?
  {
  }

  lemma OkExtends(r: Result<string>, front: string, tail: string)
    ensures Extends(r, front, Ok(tail)) ==> r == Ok(front + tail)
  {
  }

  /** One turn of the builder loop, from recorded offsets. */
  lemma SpliceStep(env: Env, source: string, ps: seq<Placeholder>, i: nat, cursor: nat)
    requires i < |ps| && cursor <= |source|
    ensures var p := ps[i];
            if p.start < cursor || p.end < p.start || p.end > |source| then Splice(env, source, ps[i..], cursor).Err?
            else
              match env.lookup(PathOf(p.template))
              case Err => Splice(env, source, ps[i..], cursor).Err?
              case Ok(v) => Extends(Splice(env, source, ps[i..], cursor), source[cursor..p.start] + Shown(env, v), Splice(env, source, ps[i + 1..], p.end))
  {
    hide PathOf, Shown;
    assert ps[i..][0] == ps[i] && ps[i..][1..] == ps[i + 1..];
  }

  lemma SpliceEnd(env: Env, source: string, cursor: nat)
    requires cursor <= |source|
    ensures Splice(env, source, [], cursor) == Ok(source[cursor..])
  {
  }

  /** The source is `${body}`, and that is the one placeholder recorded for it. */
  predicate IsPlaceholder(source: string, v: Variable, body: string) {
    source == "${" + body + "}" && body != "" && body[0] != '$' && '}' !in body && v.placeholders == [Placeholder(body, 0, |source|)]
  }

  /** The value of such a string is returned as it is, or shown and converted, as its declared type says. */
  predicate ByType(env: Env, kind: string, value: Json, r: Result<Json>) {
    var text := if value.Null? then "" else env.render(value);
    match kind
    case "" => r == Ok(value)
    case "object" => r == if value.Obj? then Ok(value) else env.convert(text, "object")
    case "array" => r == if value.Arr? then Ok(value) else env.convert(text, "array")
    case "string" => r == Ok(Str(text))
    case _ => r == env.convert(text, kind)
  }

  lemma PlaceholderByType(env: Env, source: string, v: Variable, body: string)
    requires IsPlaceholder(source, v, body)
    ensures match env.lookup(body)
            case Err => ResolveSpec(env, source, v).Err?
            case Ok(value) => ByType(env, v.kind, value, ResolveSpec(env, source, v))
  {
    hide SortByStart, PathOf;
    assert |body| >= 2 ==> body[..2][0] == body[0];
    PathOfBody(body);
    OneIsSorted(v.placeholders[0]);
    var p := v.placeholders[0];
    assert TokenText(body) == source;
    assert v.placeholders[1..] == [];
    SpliceEnd(env, source, |source|);
    if env.lookup(body).Ok? {
      var text := Shown(env, env.lookup(body).value);
      assert source[0..0] + text + source[|source|..] == text;
      assert Splice(env, source, v.placeholders, 0) == Ok(source[0..0] + text + source[|source|..]);
    }
  }

  lemma OneIsSorted(p: Placeholder)
    ensures SortByStart([p]) == [p]
  {
  }

  method ResolveVariable(env: Env, source: string, v: Variable) returns (r: Result<Json>)
    ensures r == ResolveSpec(env, source, v)
    ensures forall body :: IsPlaceholder(source, v, body) ==>
              match env.lookup(body) case Err => r.Err? case Ok(value) => ByType(env, v.kind, value, r)
  {
    hide PathOf, TokenText, SortByStart, Splice, IsPlaceholder, ByType;
    forall body | IsPlaceholder(source, v, body)
      ensures match env.lookup(body)
              case Err => ResolveSpec(env, source, v).Err?
              case Ok(value) => ByType(env, v.kind, value, ResolveSpec(env, source, v))
    { PlaceholderByType(env, source, v, body); }
    var ps := v.placeholders;
    if |ps| == 1 && ps[0].start == 0 && ps[0].end == |source| && TokenText(PathOf(ps[0].template)) == source {
      var resolved := env.lookup(PathOf(ps[0].template));
      if resolved.Err? { return Err; }
      if v.kind == "" { return resolved; }
      if v.kind == "object" && resolved.value.Obj? { return resolved; }
      if v.kind == "array" && resolved.value.Arr? { return resolved; }
    }
    var text := BuildText(env, source, SortByStart(ps));
    if text.Err? { return Err; }
    r := Convert(env, text.value, v.kind);
  }

  /** The builder loop over sorted placeholders. */
  method BuildText(env: Env, source: string, ps: seq<Placeholder>) returns (r: Result<string>)
    ensures r == Splice(env, source, ps, 0)
  {
    hide PathOf, Splice, Extends, Shown;
    var builder := "";
    var cursor: nat := 0;
    var i := 0;
    ghost var whole := Splice(env, source, ps, 0);
    assert ps[0..] == ps;
    NothingExtends(whole);
    while i < |ps|
      invariant 0 <= i <= |ps| && cursor <= |source|
      invariant Extends(whole, builder, Splice(env, source, ps[i..], cursor))
    {
      var p := ps[i];
      SpliceStep(env, source, ps, i, cursor);
      ErrExtends(whole, builder);
      if p.start < cursor || p.end < p.start || p.end > |source| { return Err; }
      var resolved := env.lookup(PathOf(p.template));
      if resolved.Err? { return Err; }
      var text := ShowValue(env, resolved.value);
      ExtendsTwice(whole, builder, Splice(env, source, ps[i..], cursor), source[cursor..p.start] + text,
                   Splice(env, source, ps[i + 1..], p.end));
      builder := builder + (source[cursor..p.start] + text);
      cursor := p.end;
      i := i + 1;
    }
    assert ps[i..] == [];
    SpliceEnd(env, source, cursor);
    OkExtends(whole, builder, source[cursor..]);
    r := Ok(builder + source[cursor..]);
  }

  method ShowValue(env: Env, v: Json) returns (text: string)
    ensures text == Shown(env, v)
  {
    text := "";
    if !v.Null? { text := env.render(v); }
  }

  predicate OneToken(d: Doc) {
    d.Token? && d.lead == "" && d.rest == Text("")
  }

  /**
   * The reference value of a configured string: a string that is exactly one
   * placeholder keeps the native value where its type allows; anything else is
   * substituted as text and converted.
   */
  function LeafValue(env: Env, d: Doc, kind: string): Result<Json> {
    if OneToken(d) && !StartsOpen(d.body) && env.lookup(d.body).Ok? && Native(kind, env.lookup(d.body).value)
    then env.lookup(d.body)
    else
      match Substitute(env, d)
      case Err => Err
      case Ok(text) => Convert(env, text, kind)
  }

  lemma WholeStringIsOneToken(d: Doc)
    requires Canonical(d)
    ensures WholeString(Print(d), Offsets(d, 0)) <==> OneToken(d) && !StartsOpen(d.body)
  {
    hide StartsOpen, ValidBody, TokenText;
    if d.Token? {
      PathOfBody(d.body);
      if OneToken(d) { assert Print(d) == TokenText(d.body); }
    }
  }

  /** Scanning a string and then resolving what was recorded gives its reference value. */
  lemma ScanThenResolve(env: Env, s: string, kind: string)
    requires Parse(s).Ok?
    ensures ResolveSpec(env, s, Variable(kind, Offsets(Parse(s).value, 0))) == LeafValue(env, Parse(s).value, kind)
  {
    hide Parse, StartsOpen, SortByStart, Splice, TokenText, PathOf, Native;
    var d := Parse(s).value;
    PrintParse(s);
    WholeStringIsOneToken(d);
    OffsetsAreExact(d, "");
    assert "" + Print(d) == s;
    SortKeepsAscending(Offsets(d, 0));
    SpliceIsSubstitution(env, d, "");
    if OneToken(d) && !StartsOpen(d.body) { PathOfBody(d.body); }
  }
}
