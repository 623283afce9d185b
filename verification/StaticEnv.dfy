/**
 * The earlier, partial evaluation of `env` placeholders: a regular expression
 * replaces them in the configured text, and the rest is scanned again for run
 * time. For strings that mix text and placeholders this keeps their meaning
 * exactly when no new `${` appears at a seam.
 */
module StaticEnv {
  import opened Basics
  import opened Json
  import opened Placeholders
  import opened Resolution

  predicate EnvBody(body: string) {
    |body| > 4 && body[..4] == "env."
  }

  function EnvPath(body: string): string
    requires EnvBody(body)
  {
    body[4..]
  }

  /** The text after env placeholders have been replaced; every other placeholder is copied. */
  function StaticText(env: Env, get: string -> Result<Json>, d: Doc): Result<string> {
    match d
    case Text(t) => Ok(t)
    case Token(lead, body, rest) =>
      match StaticText(env, get, rest)
      case Err => Err
      case Ok(tail) =>
        if !EnvBody(body) then Ok(lead + TokenText(body) + tail)
        else
          match get(EnvPath(body))
          case Err => Err
          case Ok(v) => Ok(lead + Shown(env, v) + tail)
  }

  /** The doc one expects afterwards: replaced placeholders have joined the literal text around them. */
  function Absorb(env: Env, get: string -> Result<Json>, before: string, d: Doc): Result<Doc>
    decreases d
  {
    match d
    case Text(t) => Ok(Text(before + t))
    case Token(lead, body, rest) =>
      if EnvBody(body) then
        match get(EnvPath(body))
        case Err => Err
        case Ok(v) => Absorb(env, get, before + lead + Shown(env, v), rest)
      else
        match Absorb(env, get, "", rest)
        case Err => Err
        case Ok(r) => Ok(Token(before + lead, body, r))
  }

  lemma {:induction false} PrintAbsorb(env: Env, get: string -> Result<Json>, before: string, d: Doc)
    ensures match (Absorb(env, get, before, d), StaticText(env, get, d))
            case (Ok(e), Ok(text)) => Print(e) == before + text
            case (Err, Err) => true
            case _ => false
    decreases d
  {
    hide TokenText, EnvBody;
    if d.Token? {
      if EnvBody(d.body) {
        if get(EnvPath(d.body)).Ok? {
          var more := before + d.lead + Shown(env, get(EnvPath(d.body)).value);
          PrintAbsorb(env, get, more, d.rest);
        } else {
          PrintAbsorb(env, get, "", d.rest);
        }
      } else {
        PrintAbsorb(env, get, "", d.rest);
      }
    }
  }

  /** At run time every env placeholder that can be written resolves to what the static pass got for it. */
  ghost predicate Consistent(env: Env, get: string -> Result<Json>) {
    forall body: string :: EnvBody(body) && '}' !in body ==> env.lookup(body) == get(EnvPath(body))
  }

  /** The run-time environment that asks `get` for env paths and the contexts for everything else. */
  function WithEnv(contexts: Env, get: string -> Result<Json>): Env {
    contexts.(lookup := body => if EnvBody(body) then get(EnvPath(body)) else contexts.lookup(body))
  }

  /** Registering one resolver for both passes makes them consistent, whatever the resolver answers. */
  lemma OneResolverIsConsistent(contexts: Env, get: string -> Result<Json>)
    ensures Consistent(WithEnv(contexts, get), get)
    ensures forall body :: !EnvBody(body) ==> WithEnv(contexts, get).lookup(body) == contexts.lookup(body)
  {
  }

  lemma EnvBodyIsClosed(body: string)
    requires EnvBody(body)
    ensures !StartsOpen(body)
  {
    assert body[0] == body[..4][0] == 'e';
  }

  /** An env placeholder is looked up as it is written. */
  lemma EnvLookup(env: Env, get: string -> Result<Json>, body: string)
    requires Consistent(env, get) && EnvBody(body) && '}' !in body
    ensures env.lookup(PathOf(body)) == get(EnvPath(body))
  {
    hide PathOf, StartsOpen, EnvBody;
    EnvBodyIsClosed(body);
    PathOfBody(body);
  }

  lemma {:induction false} AbsorbKeepsMeaning(env: Env, get: string -> Result<Json>, before: string, d: Doc)
    requires Canonical(d) && Consistent(env, get) && Absorb(env, get, before, d).Ok?
    ensures match (Substitute(env, Absorb(env, get, before, d).value), Substitute(env, d))
            case (Ok(a), Ok(b)) => a == before + b
            case (Err, Err) => true
            case _ => false
    decreases d
  {
    hide PathOf, EnvBody, EnvPath, Consistent, ValidBody, NoOpen;
    if d.Token? {
      if EnvBody(d.body) {
        EnvLookup(env, get, d.body);
        AbsorbKeepsMeaning(env, get, before + d.lead + Shown(env, get(EnvPath(d.body)).value), d.rest);
      } else {
        AbsorbKeepsMeaning(env, get, "", d.rest);
      }
    }
  }

  /** When an env value cannot be had, nothing can be substituted at run time either. */
  lemma {:induction false} MissingValueFailsBoth(env: Env, get: string -> Result<Json>, d: Doc)
    requires Canonical(d) && Consistent(env, get) && StaticText(env, get, d).Err?
    ensures Substitute(env, d).Err?
  {
    hide PathOf, EnvBody, EnvPath, Consistent, ValidBody, NoOpen;
    if d.Token? && StaticText(env, get, d.rest).Ok? {
      EnvLookup(env, get, d.body);
    } else if d.Token? {
      MissingValueFailsBoth(env, get, d.rest);
    }
  }

  /**
   * Static replacement followed by scanning and run-time substitution. The replaced
   * text is read as expected if and only if no literal run of it contains `${`, and
   * then both orders of resolution give the same text.
   */
  lemma StaticThenDynamic(env: Env, get: string -> Result<Json>, s: string)
    requires Parse(s).Ok? && StaticText(env, get, Parse(s).value).Ok?
    ensures var d := Parse(s).value;
            var expected := Absorb(env, get, "", d);
            && expected.Ok?
            && (Parse(StaticText(env, get, d).value) == expected <==> Canonical(expected.value))
            && (Canonical(expected.value) && Consistent(env, get) ==>
                  Substitute(env, Parse(StaticText(env, get, d).value).value) == Substitute(env, d))
  {
    hide Parse, Canonical, Consistent, Print, StaticText, Absorb;
    var d := Parse(s).value;
    PrintAbsorb(env, get, "", d);
    PrintParse(s);
    var e := Absorb(env, get, "", d).value;
    assert "" + StaticText(env, get, d).value == StaticText(env, get, d).value;
    ParsePrint(e);
    if Canonical(e) && Consistent(env, get) {
      AbsorbKeepsMeaning(env, get, "", d);
      if Substitute(env, d).Ok? { assert "" + Substitute(env, d).value == Substitute(env, d).value; }
    }
  }

  /** Values that can be spliced into text without opening a placeholder. */
  predicate SafeValue(text: string) {
    text != "" && '$' !in text && '{' !in text
  }

  ghost predicate SafeValues(env: Env, get: string -> Result<Json>, d: Doc) {
    forall b :: b in Bodies(d) && EnvBody(b) ==> get(EnvPath(b)).Ok? && SafeValue(Shown(env, get(EnvPath(b)).value))
  }

  predicate EndsInDollar(s: string) {
    s != "" && s[|s| - 1] == '$'
  }

  lemma NoOpenConcat(a: string, b: string)
    requires NoOpen(a) && NoOpen(b) && !(EndsInDollar(a) && b != "" && b[0] == '{')
    ensures NoOpen(a + b)
  {
    forall i | 0 <= i < |a + b| ensures !OpensAt(a + b, i) {
      if i < |a| { assert !OpensAt(a, i); } else { assert !OpensAt(b, i - |a|); }
    }
  }

  /** Non-empty env values without `$` and `{` are always safe. */
  lemma {:induction false} SafeValuesAreStable(env: Env, get: string -> Result<Json>, before: string, d: Doc)
    requires Canonical(d) && SafeValues(env, get, d) && NoOpen(before) && !EndsInDollar(before)
    ensures Absorb(env, get, before, d).Ok? && Canonical(Absorb(env, get, before, d).value)
    decreases d
  {
    hide ValidBody, EnvBody;
    match d {
      case Text(t) => NoOpenConcat(before, t);
      case Token(lead, body, rest) =>
        NoOpenConcat(before, lead);
        assert body in Bodies(d);
        assert forall b :: b in Bodies(rest) ==> b in Bodies(d);
        if EnvBody(body) {
          var text := Shown(env, get(EnvPath(body)).value);
          SafeIsNoOpen(text);
          NoOpenConcat(before + lead, text);
          SafeValuesAreStable(env, get, before + lead + text, rest);
        } else {
          SafeValuesAreStable(env, get, "", rest);
        }
    }
  }

  lemma SafeIsNoOpen(text: string)
    requires SafeValue(text)
    ensures NoOpen(text) && !EndsInDollar(text) && text[0] != '{'
  {
    assert text[0] in text && text[|text| - 1] in text;
  }

  /** An empty env value between `$` and `{` makes a placeholder out of plain text. */
  lemma EmptyValueCanOpen(env: Env, get: string -> Result<Json>)
    requires get("a") == Ok(Null)
    ensures var d := Token("$", "env.a", Text("{ctx.b}"));
            && Canonical(d) && Print(d) == "$${env.a}{ctx.b}"
            && StaticText(env, get, d) == Ok("${ctx.b}")
            && Absorb(env, get, "", d).Ok? && !Canonical(Absorb(env, get, "", d).value)
  {
    hide IndexOf, TokenText;
    var d := Token("$", "env.a", Text("{ctx.b}"));
    SeamIsCanonical();
    assert StaticText(env, get, Text("{ctx.b}")) == Ok("{ctx.b}");
    assert "$" + Shown(env, Null) + "{ctx.b}" == "${ctx.b}";
    var seam := "" + "$" + Shown(env, Null);
    assert Absorb(env, get, "", d) == Absorb(env, get, seam, Text("{ctx.b}")) == Ok(Text(seam + "{ctx.b}"));
    assert OpensAt(seam + "{ctx.b}", 0);
  }

  lemma SeamIsCanonical()
    ensures var d := Token("$", "env.a", Text("{ctx.b}"));
            Canonical(d) && Print(d) == "$${env.a}{ctx.b}" && EnvBody("env.a") && EnvPath("env.a") == "a"
  {
    hide ValidBody, NoOpen;
    SeamBody();
    SeamLiterals();
    assert "$" + TokenText("env.a") + "{ctx.b}" == "$${env.a}{ctx.b}";
  }

  lemma SeamBody()
    ensures ValidBody("env.a") && '}' !in "env.a"
  {
    assert "env.a"[3] == '.';
  }

  lemma SeamLiterals()
    ensures NoOpen("$") && NoOpen("{ctx.b}")
  {
    assert forall i :: 0 <= i < 7 ==> "{ctx.b}"[i] != '$';
  }

  // ----- The regular expression -----

  predicate IdentStart(c: char) {
    'A' <= c <= 'Z' || 'a' <= c <= 'z' || c == '_'
  }

  predicate IdentChar(c: char) {
    IdentStart(c) || '0' <= c <= '9' || c == '-'
  }

  /** Length of the longest prefix without `.`-ending: identifier characters only. */
  function IdentRun(s: string): (n: nat)
    ensures n <= |s| && (forall i :: 0 <= i < n ==> IdentChar(s[i])) && (n < |s| ==> !IdentChar(s[n]))
  {
    if s == "" || !IdentChar(s[0]) then 0 else 1 + IdentRun(s[1..])
  }

  /** Length of the longest prefix without braces. */
  function PathRun(s: string): (n: nat)
    ensures n <= |s| && (forall i :: 0 <= i < n ==> s[i] != '{' && s[i] != '}') && (n < |s| ==> s[n] == '{' || s[n] == '}')
  {
    if s == "" || s[0] == '{' || s[0] == '}' then 0 else 1 + PathRun(s[1..])
  }

  /** The body matched after `${`: identifier, dot, non-empty path, closing brace. */
  function MatchAfter(after: string): (r: Option<string>)
    ensures r.Some? ==> |r.value| < |after| && after[..|r.value|] == r.value
  {
    var n := IdentRun(after);
    if n == 0 || !IdentStart(after[0]) || n == |after| || after[n] != '.' then None
    else
      var m := PathRun(after[n + 1..]);
      if m == 0 || n + 1 + m == |after| || after[n + 1 + m] != '}' then None else Some(after[..n + 1 + m])
  }

  /** The body matched by the placeholder expression at the start of `s`, if it matches there. */
  function MatchHere(s: string): (r: Option<string>)
    ensures r.Some? ==> |s| >= |r.value| + 3
  {
    if !OpensAt(s, 0) then None else MatchAfter(s[2..])
  }

  /** What one turn of the replacement writes, and how much it consumes. */
  datatype Piece = Piece(text: string, size: nat)

  function NextPiece(env: Env, get: string -> Result<Json>, s: string): (r: Result<Piece>)
    requires s != ""
    ensures r.Ok? ==> 0 < r.value.size <= |s|
  {
    match MatchHere(s)
    case None => Ok(Piece([s[0]], 1))
    case Some(body) =>
      if !EnvBody(body) then Ok(Piece(TokenText(body), |body| + 3))
      else
        match get(EnvPath(body))
        case Err => Err
        case Ok(v) => Ok(Piece(Shown(env, v), |body| + 3))
  }

  /** Replace all matches, left to right, without overlap. */
  function ReplaceAll(env: Env, get: string -> Result<Json>, s: string): Result<string>
    decreases |s|
  {
    if s == "" then Ok("")
    else
      match NextPiece(env, get, s)
      case Err => Err
      case Ok(piece) =>
        match ReplaceAll(env, get, s[piece.size..])
        case Err => Err
        case Ok(tail) => Ok(piece.text + tail)
  }

  lemma ReplaceStep(env: Env, get: string -> Result<Json>, s: string)
    requires s != "" && NextPiece(env, get, s).Ok?
    ensures var piece := NextPiece(env, get, s).value;
            Extends(ReplaceAll(env, get, s), piece.text, ReplaceAll(env, get, s[piece.size..]))
  {
    hide NextPiece;
  }

  lemma PlainPiece(env: Env, get: string -> Result<Json>, s: string)
    requires s != "" && MatchHere(s).None?
    ensures NextPiece(env, get, s) == Ok(Piece([s[0]], 1))
  {
  }

  lemma TextMatchesNothing(s: string)
    requires !OpensAt(s, 0)
    ensures MatchHere(s).None?
  {
  }

  /** Text in front that opens nothing is copied. */
  lemma {:induction false} ReplaceSkipsText(env: Env, get: string -> Result<Json>, lead: string, tail: string)
    requires forall i :: 0 <= i < |lead| ==> !OpensAt(lead + tail, i)
    ensures Extends(ReplaceAll(env, get, lead + tail), lead, ReplaceAll(env, get, tail))
    decreases |lead|
  {
    hide NextPiece, ReplaceAll, MatchHere;
    if lead == "" {
      assert lead + tail == tail;
      NothingExtends(ReplaceAll(env, get, tail));
    } else {
      hide Extends;
      var s := lead + tail;
      assert s[1..] == lead[1..] + tail;
      assert !OpensAt(s, 0);
      forall i | 0 <= i < |lead[1..]| ensures !OpensAt(lead[1..] + tail, i) { assert !OpensAt(s, i + 1); }
      ReplaceSkipsText(env, get, lead[1..], tail);
      TextMatchesNothing(s);
      PlainPiece(env, get, s);
      ReplaceStep(env, get, s);
      ExtendsTwice(ReplaceAll(env, get, s), [s[0]], ReplaceAll(env, get, s[1..]), lead[1..], ReplaceAll(env, get, tail));
      assert [s[0]] + lead[1..] == lead;
    }
  }

  lemma EnvRun(body: string, rest: string)
    requires EnvBody(body)
    ensures IdentRun(body + rest) == 3
  {
    var s := body + rest;
    assert forall i :: 0 <= i < 4 ==> s[i] == body[..4][i];
    assert s[0] == 'e' && s[1] == 'n' && s[2] == 'v' && s[3] == '.';
  }

  lemma RunsInBody(body: string, tail: string, n: nat)
    requires '{' !in body && '}' !in body && n <= |body|
    ensures PathRun(body[n..] + ("}" + tail)) == |body| - n
  {
    var rest := body[n..] + ("}" + tail);
    assert rest[|body| - n] == '}';
    assert forall i :: 0 <= i < |body| - n ==> rest[i] == body[i + n] && body[i + n] in body;
  }

  lemma MatchAfterBody(body: string, tail: string)
    requires '{' !in body && '}' !in body
    ensures MatchAfter(body + ("}" + tail)) == None || MatchAfter(body + ("}" + tail)) == Some(body)
    ensures EnvBody(body) ==> MatchAfter(body + ("}" + tail)) == Some(body)
  {
    hide PathRun, EnvBody, IdentChar, IdentStart;
    var after := body + ("}" + tail);
    var n := IdentRun(after);
    BraceIsNoIdent();
    assert after[|body|] == '}';
    if EnvBody(body) { EnvRun(body, "}" + tail); EnvStarts(body); }
    if n < |body| && after[n] == '.' {
      assert after[n + 1..] == body[n + 1..] + ("}" + tail);
      RunsInBody(body, tail, n + 1);
      assert after[..|body|] == body;
    }
  }

  lemma BraceIsNoIdent()
    ensures !IdentChar('}')
  {
  }

  lemma EnvStarts(body: string)
    requires EnvBody(body)
    ensures |body| > 4 && IdentStart(body[0]) && body[3] == '.'
  {
    assert body[..4][0] == 'e' && body[..4][3] == '.';
  }

  /** On a placeholder whose body has no braces, the expression matches the whole body or not at all. */
  lemma MatchBody(body: string, tail: string)
    requires '{' !in body && '}' !in body
    ensures MatchHere(TokenText(body) + tail) == None || MatchHere(TokenText(body) + tail) == Some(body)
    ensures EnvBody(body) ==> MatchHere(TokenText(body) + tail) == Some(body)
  {
    hide MatchAfter, EnvBody;
    assert (TokenText(body) + tail)[2..] == body + ("}" + tail);
    MatchAfterBody(body, tail);
  }

  /** The text a placeholder is replaced by. */
  function Replacement(env: Env, get: string -> Result<Json>, body: string): Result<string> {
    if !EnvBody(body) then Ok(TokenText(body))
    else match get(EnvPath(body)) case Err => Err case Ok(v) => Ok(Shown(env, v))
  }

  lemma StaticTextOfToken(env: Env, get: string -> Result<Json>, d: Doc)
    requires d.Token?
    ensures match Replacement(env, get, d.body)
            case Err => StaticText(env, get, d).Err?
            case Ok(text) => Extends(StaticText(env, get, d), d.lead + text, StaticText(env, get, d.rest))
  {
    hide EnvBody, TokenText;
  }

  /**
   * The regular expression pass computes the static text of the parsed string, for
   * every string whose placeholder bodies contain no `{`.
   */
  lemma {:induction false} ReplaceIsStatic(env: Env, get: string -> Result<Json>, d: Doc)
    requires Canonical(d) && forall b :: b in Bodies(d) ==> '{' !in b
    ensures ReplaceAll(env, get, Print(d)) == StaticText(env, get, d)
  {
    hide ValidBody, EnvBody, MatchHere, ReplaceAll, TokenText, Replacement;
    match d {
      case Text(t) =>
        NoOpenAhead(t, "");
        ReplaceSkipsText(env, get, t, "");
        ReplaceEmpty(env, get);
        assert t + "" == t;
      case Token(lead, body, rest) =>
        assert body in Bodies(d);
        assert forall b :: b in Bodies(rest) ==> b in Bodies(d);
        ReplaceIsStatic(env, get, rest);
        var tail := Print(rest);
        var token := TokenText(body) + tail;
        assert lead + TokenText(body) + tail == lead + token;
        TokenOpens(body, tail);
        NoOpenAhead(lead, token);
        ReplaceSkipsText(env, get, lead, token);
        ReplaceToken(env, get, body, tail);
        StaticTextOfToken(env, get, d);
        if Replacement(env, get, body).Ok? {
          ExtendsTwice(ReplaceAll(env, get, Print(d)), lead, ReplaceAll(env, get, token),
                       Replacement(env, get, body).value, ReplaceAll(env, get, tail));
        }
    }
  }

  lemma ReplaceEmpty(env: Env, get: string -> Result<Json>)
    ensures ReplaceAll(env, get, "") == Ok("")
  {
  }

  lemma TokenOpens(body: string, tail: string)
    ensures (TokenText(body) + tail)[0] == '$'
  {
  }

  lemma NoOpenAhead(lead: string, tail: string)
    requires NoOpen(lead) && (tail == "" || tail[0] != '{')
    ensures forall i :: 0 <= i < |lead| ==> !OpensAt(lead + tail, i)
  {
    forall i | 0 <= i < |lead| ensures !OpensAt(lead + tail, i) { assert !OpensAt(lead, i); }
  }

  lemma PieceOfToken(env: Env, get: string -> Result<Json>, body: string, s: string)
    requires s != "" && MatchHere(s) == Some(body)
    ensures NextPiece(env, get, s) ==
            match Replacement(env, get, body) case Err => Err case Ok(text) => Ok(Piece(text, |body| + 3))
  {
    hide EnvBody, TokenText;
  }

  lemma ReplaceToken(env: Env, get: string -> Result<Json>, body: string, tail: string)
    requires '{' !in body && '}' !in body
    ensures var whole := ReplaceAll(env, get, TokenText(body) + tail);
            match Replacement(env, get, body)
            case Err => whole.Err?
            case Ok(text) => Extends(whole, text, ReplaceAll(env, get, tail))
  {
    hide EnvBody, MatchHere, TokenText, NextPiece, Extends;
    var s := TokenText(body) + tail;
    MatchBody(body, tail);
    assert s[|body| + 3..] == tail;
    if MatchHere(s).None? {
      ReplaceCopiesToken(env, get, body, tail);
    } else {
      PieceOfToken(env, get, body, s);
      if NextPiece(env, get, s).Ok? { ReplaceStep(env, get, s); }
    }
  }

  lemma ReplaceCopiesToken(env: Env, get: string -> Result<Json>, body: string, tail: string)
    requires '{' !in body && MatchHere(TokenText(body) + tail).None?
    ensures Extends(ReplaceAll(env, get, TokenText(body) + tail), TokenText(body), ReplaceAll(env, get, tail))
  {
    hide MatchHere, ReplaceAll, NextPiece, Extends;
    var s := TokenText(body) + tail;
    var inner := "{" + body + "}";
    assert s == "$" + (inner + tail);
    assert s[1..] == inner + tail;
    PlainPiece(env, get, s);
    ReplaceStep(env, get, s);
    InnerOpensNothing(body, tail);
    ReplaceSkipsText(env, get, inner, tail);
    ExtendsTwice(ReplaceAll(env, get, s), ['$'], ReplaceAll(env, get, s[1..]), inner, ReplaceAll(env, get, tail));
    assert ['$'] + inner == TokenText(body);
  }

  lemma InnerOpensNothing(body: string, tail: string)
    requires '{' !in body
    ensures var inner := "{" + body + "}"; forall i :: 0 <= i < |inner| ==> !OpensAt(inner + tail, i)
  {
    var inner := "{" + body + "}";
    forall i | 0 <= i < |inner| ensures !OpensAt(inner + tail, i) {
      assert i + 1 < |inner| ==> inner[i + 1] == '}' || inner[i + 1] in body;
      assert i + 1 == |inner| ==> inner[i] == '}';
    }
  }

  /**
   * For strings that mix text and placeholders: the replaced text is read as
   * expected if and only if no seam opens a placeholder, and then resolving env
   * first and the contexts at run time gives the text that resolving everything at
   * once gives. A missing env value fails both ways.
   */
  lemma EnvFirstIsTransparent(env: Env, get: string -> Result<Json>, s: string)
    requires Parse(s).Ok? && (forall b :: b in Bodies(Parse(s).value) ==> '{' !in b) && Consistent(env, get)
    ensures var d := Parse(s).value;
            var text := ReplaceAll(env, get, s);
            var expected := Absorb(env, get, "", d);
            && (text.Err? ==> Substitute(env, d).Err?) && (text.Ok? <==> expected.Ok?)
            && (text.Ok? ==>
                  && Print(expected.value) == text.value
                  && (Parse(text.value) == expected <==> Canonical(expected.value))
                  && (Canonical(expected.value) ==> Substitute(env, expected.value) == Substitute(env, d)))
  {
    hide Parse, Canonical, Consistent, Absorb, StaticText, ReplaceAll, Bodies, Substitute, Print;
    var d := Parse(s).value;
    PrintParse(s);
    ReplaceIsStatic(env, get, d);
    PrintAbsorb(env, get, "", d);
    if ReplaceAll(env, get, s).Ok? {
      assert "" + ReplaceAll(env, get, s).value == ReplaceAll(env, get, s).value;
      StaticThenDynamic(env, get, s);
    } else {
      MissingValueFailsBoth(env, get, d);
    }
  }

  lemma EmptyOpensNothing()
    ensures NoOpen("") && !EndsInDollar("")
  {
  }

  /** The whole string is one env placeholder. */
  predicate WholeEnv(s: string) {
    MatchHere(s).Some? && |s| == |MatchHere(s).value| + 3 && EnvBody(MatchHere(s).value)
  }

  /** One match of the placeholder expression: its extent and what stands between the braces. */
  datatype Match = Match(start: nat, end: nat, body: string)

  /** FindAllStringSubmatchIndex: the leftmost matches from `at` on, without overlap. */
  function Matches(s: string, at: nat): seq<Match>
    requires at <= |s|
    decreases |s| - at
  {
    if at == |s| then []
    else
      match MatchHere(s[at..])
      case None => Matches(s, at + 1)
      case Some(body) => [Match(at, at + |body| + 3, body)] + Matches(s, at + |body| + 3)
  }

  /** Matches come in order, from `offset` on and within the string. */
  predicate InOrder(s: string, ms: seq<Match>, offset: nat) {
    if ms == [] then offset <= |s|
    else offset <= ms[0].start <= ms[0].end <= |s| && InOrder(s, ms[1..], ms[0].end)
  }

  lemma {:induction false} MatchesInOrder(s: string, at: nat, offset: nat)
    requires offset <= at <= |s|
    ensures InOrder(s, Matches(s, at), offset)
    decreases |s| - at
  {
    hide MatchHere;
    if at < |s| {
      match MatchHere(s[at..]) {
        case None => MatchesInOrder(s, at + 1, offset);
        case Some(body) => MatchesInOrder(s, at + |body| + 3, at + |body| + 3);
      }
    }
  }

  /** What a match leaves in the text: the shown value of an env placeholder, or the placeholder itself. */
  function Written(env: Env, get: string -> Result<Json>, s: string, m: Match): Result<string>
    requires m.start <= m.end <= |s|
  {
    if !EnvBody(m.body) then Ok(s[m.start..m.end])
    else match get(EnvPath(m.body)) case Err => Err case Ok(v) => Ok(Shown(env, v))
  }

  /** Text between matches and what the matches leave, from `offset` to the end. */
  function Weave(env: Env, get: string -> Result<Json>, s: string, ms: seq<Match>, offset: nat): Result<string>
    requires InOrder(s, ms, offset)
  {
    if ms == [] then Ok(s[offset..])
    else
      match (Written(env, get, s, ms[0]), Weave(env, get, s, ms[1..], ms[0].end))
      case (Ok(text), Ok(tail)) => Ok(s[offset..ms[0].start] + text + tail)
      case _ => Err
  }

  /** What is written for the match at `at` is what one turn of the replacement writes there. */
  predicate SamePiece(env: Env, get: string -> Result<Json>, s: string, at: nat, body: string)
    requires at < |s| && at + |body| + 3 <= |s|
  {
    match Written(env, get, s, Match(at, at + |body| + 3, body))
    case Err => NextPiece(env, get, s[at..]).Err?
    case Ok(text) => NextPiece(env, get, s[at..]) == Ok(Piece(text, |body| + 3))
  }

  lemma WrittenIsPiece(env: Env, get: string -> Result<Json>, s: string, at: nat, body: string)
    requires at < |s| && MatchHere(s[at..]) == Some(body)
    ensures at + |body| + 3 <= |s| && SamePiece(env, get, s, at, body)
  {
    hide EnvBody, MatchHere, TokenText, Shown;
    var here := s[at..];
    MatchIsToken(here, body);
    assert s[at..at + |body| + 3] == here[..|body| + 3];
  }

  lemma MatchIsToken(s: string, body: string)
    requires MatchHere(s) == Some(body)
    ensures |body| + 3 <= |s| && s[..|body| + 3] == TokenText(body)
  {
    var after := s[2..];
    var n := IdentRun(after);
    var m := PathRun(after[n + 1..]);
    assert after[n + 1..][m] == after[n + 1 + m];
    assert s[..|body| + 3] == s[..2] + after[..|body|] + [after[|body|]];
  }

  /** Weaving over the matches is the left-to-right replacement. */
  lemma {:induction false} WeaveIsReplace(env: Env, get: string -> Result<Json>, s: string, at: nat, offset: nat)
    requires offset <= at <= |s| && InOrder(s, Matches(s, at), offset)
    ensures Extends(Weave(env, get, s, Matches(s, at), offset), s[offset..at], ReplaceAll(env, get, s[at..]))
    decreases |s| - at
  {
    hide MatchHere, Weave, ReplaceAll, Extends, InOrder;
    if at == |s| {
      WeaveEnd(env, get, s, offset);
      ReplaceEmpty(env, get);
      EndExtends(s, offset);
    } else if MatchHere(s[at..]).None? {
      WeaveIsReplace(env, get, s, at + 1, offset);
      SkipOne(env, get, s, at, offset);
    } else {
      var body := MatchHere(s[at..]).value;
      var end := at + |body| + 3;
      WrittenIsPiece(env, get, s, at, body);
      MatchesInOrder(s, end, end);
      WeaveIsReplace(env, get, s, end, end);
      WeaveMatch(env, get, s, at, offset, body);
    }
  }

  lemma EndExtends(s: string, offset: nat)
    requires offset <= |s|
    ensures Extends(Ok(s[offset..]), s[offset..|s|], Ok("")) && s[|s|..] == ""
  {
    assert s[offset..|s|] + "" == s[offset..];
  }

  lemma SkipOne(env: Env, get: string -> Result<Json>, s: string, at: nat, offset: nat)
    requires offset <= at < |s| && MatchHere(s[at..]).None? && InOrder(s, Matches(s, at + 1), offset)
    requires Extends(Weave(env, get, s, Matches(s, at + 1), offset), s[offset..at + 1], ReplaceAll(env, get, s[at + 1..]))
    ensures Extends(Weave(env, get, s, Matches(s, at + 1), offset), s[offset..at], ReplaceAll(env, get, s[at..]))
  {
    hide MatchHere, Weave, InOrder, Matches;
    PlainPiece(env, get, s[at..]);
    assert s[at..][1..] == s[at + 1..];
    assert s[offset..at + 1] == s[offset..at] + [s[at..][0]];
  }

  lemma WeaveMatch(env: Env, get: string -> Result<Json>, s: string, at: nat, offset: nat, body: string)
    requires offset <= at < |s| && MatchHere(s[at..]) == Some(body) && at + |body| + 3 <= |s|
    requires var end := at + |body| + 3;
             && InOrder(s, Matches(s, at), offset) && InOrder(s, Matches(s, end), end)
             && Extends(Weave(env, get, s, Matches(s, end), end), s[end..end], ReplaceAll(env, get, s[end..]))
    requires SamePiece(env, get, s, at, body)
    ensures Extends(Weave(env, get, s, Matches(s, at), offset), s[offset..at], ReplaceAll(env, get, s[at..]))
  {
    hide MatchHere, Written, NextPiece, InOrder;
    var end := at + |body| + 3;
    assert s[at..][|body| + 3..] == s[end..] && s[end..end] == "";
    assert Matches(s, at) == [Match(at, end, body)] + Matches(s, end);
    assert Matches(s, at)[1..] == Matches(s, end);
  }

  lemma WholeMatch(value: string)
    ensures WholeEnv(value) <==>
            var ms := Matches(value, 0);
            |ms| == 1 && ms[0].start == 0 && ms[0].end == |value| && EnvBody(ms[0].body)
  {
    hide MatchHere, EnvBody;
    assert value[0..] == value;
    if value == "" {
      NothingMatchesEmpty();
    } else if MatchHere(value).None? {
      MatchesInOrder(value, 1, 1);
    }
  }

  lemma NothingMatchesEmpty()
    ensures MatchHere("").None?
  {
  }

  /** resolveStaticEnvironmentString: one whole env placeholder keeps its native value, anything else becomes text. */
  method ResolveStaticString(env: Env, get: string -> Result<Json>, value: string) returns (r: Result<Json>)
    ensures r == if WholeEnv(value) then get(EnvPath(MatchHere(value).value))
                 else match ReplaceAll(env, get, value) case Err => Err case Ok(text) => Ok(Str(text))
  {
    hide MatchHere, WholeEnv, ReplaceAll, Weave;
    var matches := Matches(value, 0);
    WholeMatch(value);
    MatchesInOrder(value, 0, 0);
    WeaveWhole(env, get, value);
    if matches == [] { return Ok(Str(value)); }
    if |matches| == 1 && matches[0].start == 0 && matches[0].end == |value| && EnvBody(matches[0].body) {
      WholeMatchBody(value);
      return get(EnvPath(matches[0].body));
    }
    r := BuildStatic(env, get, value, matches);
  }

  lemma WholeMatchBody(value: string)
    requires WholeEnv(value)
    ensures |Matches(value, 0)| > 0 && Matches(value, 0)[0].body == MatchHere(value).value
  {
    hide EnvBody;
    assert value[0..] == value;
  }

  lemma WeaveWhole(env: Env, get: string -> Result<Json>, value: string)
    requires InOrder(value, Matches(value, 0), 0)
    ensures Weave(env, get, value, Matches(value, 0), 0) == ReplaceAll(env, get, value)
    ensures Matches(value, 0) == [] ==> ReplaceAll(env, get, value) == Ok(value)
  {
    hide Matches, ReplaceAll;
    WeaveIsReplace(env, get, value, 0, 0);
    assert value[0..] == value && value[0..0] == "";
    NothingExtends(ReplaceAll(env, get, value));
  }

  /** The builder loop over the matches. */
  method BuildStatic(env: Env, get: string -> Result<Json>, value: string, matches: seq<Match>) returns (r: Result<Json>)
    requires InOrder(value, matches, 0)
    ensures r == match Weave(env, get, value, matches, 0) case Err => Err case Ok(text) => Ok(Str(text))
  {
    hide InOrder, Weave, Extends, Written;
    var builder := "";
    var offset: nat, i := 0, 0;
    ghost var whole := Weave(env, get, value, matches, 0);
    NothingExtends(whole);
    assert matches[0..] == matches;
    while i < |matches|
      invariant i <= |matches| && InOrder(value, matches[i..], offset)
      invariant Extends(whole, builder, Weave(env, get, value, matches[i..], offset))
    {
      var m := matches[i];
      WeaveStep(env, get, value, matches, i, offset);
      var text := WriteMatch(env, get, value, m);
      if text.Err? {
        ErrExtends(whole, builder);
        return Err;
      }
      ExtendsTwice(whole, builder, Weave(env, get, value, matches[i..], offset), value[offset..m.start] + text.value,
                   Weave(env, get, value, matches[i + 1..], m.end));
      builder := builder + (value[offset..m.start] + text.value);
      offset := m.end;
      i := i + 1;
    }
    assert matches[i..] == [];
    WeaveEnd(env, get, value, offset);
    OkExtends(whole, builder, value[offset..]);
    r := Ok(Str(builder + value[offset..]));
  }

  method WriteMatch(env: Env, get: string -> Result<Json>, value: string, m: Match) returns (r: Result<string>)
    requires m.start <= m.end <= |value|
    ensures r == Written(env, get, value, m)
  {
    if !EnvBody(m.body) { return Ok(value[m.start..m.end]); }
    var resolved := get(EnvPath(m.body));
    if resolved.Err? { return Err; }
    return Ok(if resolved.value.Null? then "" else env.render(resolved.value));
  }

  lemma WeaveStep(env: Env, get: string -> Result<Json>, s: string, ms: seq<Match>, i: nat, offset: nat)
    requires i < |ms| && InOrder(s, ms[i..], offset)
    ensures var m := ms[i];
            && offset <= m.start <= m.end <= |s| && InOrder(s, ms[i + 1..], m.end)
            && match Written(env, get, s, m)
               case Err => Weave(env, get, s, ms[i..], offset).Err?
               case Ok(text) =>
                 Extends(Weave(env, get, s, ms[i..], offset), s[offset..m.start] + text, Weave(env, get, s, ms[i + 1..], m.end))
  {
    hide Written;
    assert ms[i..][0] == ms[i] && ms[i..][1..] == ms[i + 1..];
  }

  lemma WeaveEnd(env: Env, get: string -> Result<Json>, s: string, offset: nat)
    requires InOrder(s, [], offset)
    ensures offset <= |s| && Weave(env, get, s, [], offset) == Ok(s[offset..])
  {
  }
}
