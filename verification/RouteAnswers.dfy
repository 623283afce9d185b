/**
 * The answer of the route table in terms of the declared strings and the request:
 * which patterns take which requests, and what each parameter name is bound to.
 */
module RouteAnswers {
  import opened Basics
  import opened Strings
  import opened RouteSpec

  // ----- Parameters -----

  /** A request's outcome: the winning reference, its parameters and its wildcard text. */
  datatype RouteMatch = RouteMatch(ref: Ref, params: map<string, string>, wildcard: string)

  /** Names paired with captured segments; a repeated name keeps its last segment. */
  function Params(names: seq<string>, captures: seq<string>): map<string, string> {
    if names == [] then map[]
    else
      var n := |names| - 1;
      var init := Params(names[..n], captures);
      if n < |captures| then init[names[n] := captures[n]] else init
  }

  function MatchFor(e: Entry, q: Request): RouteMatch {
    RouteMatch(e.ref, Params(ParamNames(e.tokens), Captures(Edges(e.tokens), q.parts)), Covered(Edges(e.tokens), q.parts))
  }

  predicate Named(tokens: seq<Token>, j: nat, name: string) {
    j < |tokens| && tokens[j] == Parameter(name)
  }

  /** The last parameter of that name. */
  predicate LastNamed(tokens: seq<Token>, j: nat, name: string) {
    Named(tokens, j, name) && forall i :: j < i < |tokens| ==> !Named(tokens, i, name)
  }

  /** Each parameter name of the pattern, and no other name, is bound to the segment at its last position. */
  ghost predicate BindsNames(tokens: seq<Token>, parts: seq<string>, params: map<string, string>) {
    && (forall name :: name in params <==> exists j: nat :: Named(tokens, j, name))
    && (forall j: nat, name :: LastNamed(tokens, j, name) ==> name in params && j < |parts| && params[name] == parts[j])
  }

  /** The text of a final `**` is made of the segments it covers; without one there is no such text. */
  ghost predicate CoversRest(tokens: seq<Token>, parts: seq<string>, wildcard: string) {
    if tokens == [] || tokens[|tokens| - 1] != Remainder || |parts| < |tokens| then wildcard == ""
    else (forall p :: p in parts ==> '/' !in p) ==> Split(wildcard, '/') == parts[|tokens| - 1..]
  }

  ghost predicate Explains(e: Entry, q: Request, m: RouteMatch) {
    m.ref == e.ref && BindsNames(e.tokens, q.parts, m.params) && CoversRest(e.tokens, q.parts, m.wildcard)
  }

  lemma {:induction false} ParamsIgnoreMore(names: seq<string>, captures: seq<string>, more: seq<string>)
    requires |names| <= |captures|
    ensures Params(names, captures + more) == Params(names, captures)
    decreases |names|
  {
    if names != [] { ParamsIgnoreMore(names[..|names| - 1], captures, more); }
  }

  function Bound(tokens: seq<Token>, parts: seq<string>): map<string, string> {
    Params(ParamNames(tokens), Captures(Edges(tokens), parts))
  }

  lemma BoundStep(tokens: seq<Token>, parts: seq<string>)
    requires tokens != [] && forall j :: 0 <= j < |tokens| && tokens[j].Parameter? ==> j < |parts|
    ensures var n := |tokens| - 1;
            Bound(tokens, parts) == if tokens[n].Parameter? then Bound(tokens[..n], parts)[tokens[n].name := parts[n]] else Bound(tokens[..n], parts)
  {
    hide ParamNames, Captures, Edges;
    var n := |tokens| - 1;
    CapturesLast(tokens, parts);
    OneCaptureEach(tokens[..n], parts);
    var names, captures := ParamNames(tokens[..n]), Captures(Edges(tokens[..n]), parts);
    if tokens[n].Parameter? {
      ParamsIgnoreMore(names, captures, [parts[n]]);
      assert (names + [tokens[n].name])[..|names|] == names;
    } else {
      assert names + [] == names && captures + [] == captures;
    }
  }

  lemma NamedStep(tokens: seq<Token>, j: nat, name: string)
    requires tokens != []
    ensures var n := |tokens| - 1;
            && (Named(tokens, j, name) <==> Named(tokens[..n], j, name) || (j == n && tokens[n] == Parameter(name)))
            && (LastNamed(tokens, j, name) && j < n ==> LastNamed(tokens[..n], j, name) && tokens[n] != Parameter(name))
  {
    var n := |tokens| - 1;
    if LastNamed(tokens, j, name) && j < n {
      forall i | j < i < n ensures !Named(tokens[..n], i, name) { assert !Named(tokens, i, name); }
      assert !Named(tokens, n, name);
    }
  }

  lemma {:induction false} BoundBindsNames(tokens: seq<Token>, parts: seq<string>)
    requires forall j :: 0 <= j < |tokens| && tokens[j].Parameter? ==> j < |parts|
    ensures BindsNames(tokens, parts, Bound(tokens, parts))
    decreases |tokens|
  {
    hide Named, LastNamed;
    if tokens == [] {
      NoNames();
    } else {
      hide Bound;
      var n := |tokens| - 1;
      BoundBindsNames(tokens[..n], parts);
      BoundStep(tokens, parts);
      forall name ensures name in Bound(tokens, parts) <==> exists j: nat :: Named(tokens, j, name) {
        NamedStep(tokens, n, name);
        if j: nat :| Named(tokens[..n], j, name) { NamedStep(tokens, j, name); }
        if j: nat :| Named(tokens, j, name) { NamedStep(tokens, j, name); }
      }
      forall j: nat, name | LastNamed(tokens, j, name)
        ensures name in Bound(tokens, parts) && j < |parts| && Bound(tokens, parts)[name] == parts[j]
      {
        NamedStep(tokens, j, name);
        LastIsThere(tokens, j, name);
      }
    }
  }

  lemma NoNames()
    ensures forall j: nat, name :: !Named([], j, name) && !LastNamed([], j, name)
    ensures forall parts :: Bound([], parts) == map[]
  {
  }

  lemma LastIsThere(tokens: seq<Token>, j: nat, name: string)
    requires LastNamed(tokens, j, name)
    ensures j < |tokens| && tokens[j] == Parameter(name) && Named(tokens, j, name)
  {
  }

  lemma MatchBinds(e: Entry, q: Request)
    requires Matches(e, q)
    ensures Explains(e, q, MatchFor(e, q))
  {
    hide HostMatches, Params, Captures, ParamNames;
    assert Edges(e.tokens) != [] ==> Edges(e.tokens)[|e.tokens| - 1] == EdgeOf(e.tokens[|e.tokens| - 1]);
    BoundBindsNames(e.tokens, q.parts);
    CoveredCovers(e.tokens, q.parts);
  }

  lemma CoveredCovers(tokens: seq<Token>, parts: seq<string>)
    ensures CoversRest(tokens, parts, Covered(Edges(tokens), parts))
  {
    hide Join, Split;
    if tokens != [] {
      assert Edges(tokens)[|tokens| - 1] == EdgeOf(tokens[|tokens| - 1]);
      assert |parts| == |tokens| - 1 ==> parts[|tokens| - 1..] == [];
    }
    if tokens != [] && tokens[|tokens| - 1] == Remainder && |tokens| <= |parts| {
      var rest := parts[|tokens| - 1..];
      if forall p :: p in parts ==> '/' !in p {
        assert forall p :: p in rest ==> p in parts;
        SplitJoin(rest, '/');
      }
    }
    NothingToJoin();
  }

  lemma NothingToJoin()
    ensures Join([], '/') == ""
  {
  }

  // ----- Patterns as they are declared -----

  /** One declared segment takes one segment of a request: `*` and `{name}` take any, others only themselves. */
  ghost predicate Takes(part: string, segment: string) {
    part == "*" || part == segment || exists name :: name != "" && part == "{" + name + "}"
  }

  /** A declared path takes a request's segments one by one; a final `**` takes what is left, if anything. */
  ghost predicate PathTakes(pattern: seq<string>, parts: seq<string>) {
    if pattern != [] && pattern[|pattern| - 1] == "**"
    then |pattern| - 1 <= |parts| && forall i :: 0 <= i < |pattern| - 1 ==> Takes(pattern[i], parts[i])
    else |pattern| == |parts| && forall i :: 0 <= i < |pattern| ==> Takes(pattern[i], parts[i])
  }

  /** `*`, `*.suffix` or a plain host. */
  function HostKeyOf(host: string): HostKey {
    if host == "*" then AnyHost
    else if |host| >= 2 && host[..2] == "*." then UnderHost(Segments(host[2..], '.'))
    else ExactHost(Segments(host, '.'))
  }

  function TokenOf(part: string): Token {
    if part == "**" then Remainder
    else if part == "*" then Wildcard
    else if |part| > 2 && part[0] == '{' && part[|part| - 1] == '}' then Parameter(part[1..|part| - 1])
    else Literal(part)
  }

  function TokensOf(parts: seq<string>): (r: seq<Token>)
    ensures |r| == |parts| && forall i :: 0 <= i < |r| ==> r[i] == TokenOf(parts[i])
  {
    seq(|parts|, i requires 0 <= i < |parts| => TokenOf(parts[i]))
  }

  predicate GoodPath(parts: seq<string>) {
    forall i :: 0 <= i < |parts| - 1 ==> parts[i] != "**"
  }

  /** The names of a pattern are what stands between its braces. */
  lemma ParameterIsBraced(part: string, name: string)
    ensures TokenOf(part) == Parameter(name) <==> name != "" && part == "{" + name + "}"
  {
    if TokenOf(part).Parameter? { assert part == "{" + part[1..|part| - 1] + "}"; }
    if name != "" && part == "{" + name + "}" { assert part[1..|part| - 1] == name && part[0] == '{'; }
  }

  lemma SegmentTakes(part: string, segment: string)
    requires part != "**"
    ensures EdgeMatches(EdgeOf(TokenOf(part)), segment) <==> Takes(part, segment)
    ensures EdgeOf(TokenOf(part)) != Rest
  {
    if TokenOf(part).Parameter? { ParameterIsBraced(part, TokenOf(part).name); }
    if name :| name != "" && part == "{" + name + "}" { ParameterIsBraced(part, name); }
  }

  /** A compiled path matches what its declaration takes. */
  lemma PathTakesIff(pattern: seq<string>, parts: seq<string>)
    requires GoodPath(pattern)
    ensures PathMatches(Edges(TokensOf(pattern)), parts) <==> PathTakes(pattern, parts)
  {
    hide Takes, EdgeMatches, TokenOf;
    var edges := Edges(TokensOf(pattern));
    forall i, segment | 0 <= i < |pattern| && pattern[i] != "**" ensures edges[i] != Rest && (EdgeMatches(edges[i], segment) <==> Takes(pattern[i], segment)) {
      SegmentTakes(pattern[i], segment);
    }
    RestIsRemainder();
    if pattern != [] {
      var n := |pattern| - 1;
      assert pattern[n] == "**" ==> edges[n] == Rest;
      if pattern[n] != "**" { SegmentTakes(pattern[n], ""); }
    }
  }

  lemma RestIsRemainder()
    ensures EdgeOf(TokenOf("**")) == Rest
  {
  }

  /** Non-empty pieces without the separator. */
  predicate Pieces(parts: seq<string>, c: char) {
    forall p :: p in parts ==> p != "" && c !in p
  }

  lemma {:induction false} JoinedEnds(parts: seq<string>, c: char)
    requires parts != [] && Pieces(parts, c)
    ensures Join(parts, c) != "" && Join(parts, c)[0] != c && Join(parts, c)[|Join(parts, c)| - 1] != c
    decreases |parts|
  {
    assert parts[0] in parts && parts[0][0] in parts[0] && parts[0][|parts[0]| - 1] in parts[0];
    assert forall p :: p in parts[1..] ==> p in parts;
    if |parts| > 1 { JoinedEnds(parts[1..], c); }
  }

  /** Labels and segments are read back as they were put together, with separators around them or without. */
  lemma SegmentsOfJoined(parts: seq<string>, c: char)
    requires Pieces(parts, c)
    ensures Segments(Join(parts, c), c) == parts
    ensures Segments([c] + Join(parts, c), c) == parts
  {
    hide Join, Split;
    if parts == [] {
      EmptySegments(c);
    } else {
      JoinedEnds(parts, c);
      SplitJoin(parts, c);
      var s := Join(parts, c);
      assert ([c] + s)[1..] == s;
    }
  }

  lemma EmptySegments(c: char)
    ensures Join([], c) == "" && Segments("", c) == [] && Segments([c] + "", c) == []
  {
    assert ([c] + "")[1..] == "";
  }

  /** Declared hosts: `*` takes every host, a plain one only itself, `*.suffix` every host with labels before the suffix. */
  lemma HostTakesIff(own: seq<string>, labels: seq<string>)
    requires own != [] && Pieces(own, '.')
    ensures HostMatches(HostKeyOf("*"), labels)
    ensures own[0] != "*" ==> (HostMatches(HostKeyOf(Join(own, '.')), labels) <==> labels == own)
    ensures HostMatches(HostKeyOf("*." + Join(own, '.')), labels) <==> exists front :: front != [] && labels == front + own
  {
    SegmentsOfJoined(own, '.');
    hide Segments, Pieces;
    var s := Join(own, '.');
    assert ("*." + s)[2..] == s && ("*." + s)[..2] == "*.";
    if own[0] != "*" { PlainHost(own); }
    var key := HostKeyOf("*." + s);
    assert key == UnderHost(own);
    if HostMatches(key, labels) {
      var n := |labels| - |own|;
      assert labels == labels[..n] + own && labels[..n] != [];
    }
    if front :| front != [] && labels == front + own { assert labels[|labels| - |own|..] == own; }
  }

  /** A host of labels of which the first is not `*` is a plain one. */
  lemma PlainHost(own: seq<string>)
    requires own != [] && Pieces(own, '.') && own[0] != "*"
    ensures var s := Join(own, '.'); s != "*" && !(|s| >= 2 && s[..2] == "*.")
  {
    var s := Join(own, '.');
    assert own[0] in own;
    assert |s| >= |own[0]| && forall i :: 0 <= i < |own[0]| ==> s[i] == own[0][i];
    assert |s| >= 2 ==> s[..2][0] == s[0] && s[..2][1] == s[1];
    assert |own[0]| == 1 ==> own[0] == [own[0][0]];
    if own[0][0] == '*' { assert own[0][1] in own[0]; }
  }


  /** Separators around a string do not matter, however many there are. */
  lemma {:induction false} TrimForgetsEnds(s: string, c: char)
    ensures Trim([c] + s, c) == Trim(s, c) && Trim(s + [c], c) == Trim(s, c)
    ensures s != "" && s[0] != c && s[|s| - 1] != c ==> Trim(s, c) == s
    decreases |s|
  {
    assert ([c] + s)[1..] == s && (s + [c])[..|s|] == s;
    if s == "" {
      assert [c] + s == [c] && s + [c] == [c] && [c][1..] == "";
    } else if s[0] == c {
      assert (s + [c])[1..] == s[1..] + [c];
      TrimForgetsEnds(s[1..], c);
    }
  }
}
