/**
 * Route patterns and the meaning of a route table: a linear scan over the declared
 * URI patterns, in declaration order.
 */
module RouteSpec {
  import opened Basics
  import opened Strings

  datatype Token = Literal(value: string) | Parameter(name: string) | Wildcard | Remainder

  /** A step from a path node to a child; parameters share one child whatever their names. */
  datatype Edge = Lit(value: string) | Param | Wild | Rest

  datatype HostKey = AnyHost | ExactHost(labels: seq<string>) | UnderHost(suffix: seq<string>)

  /** Declaration order: position of the route, then of the URI within it. */
  datatype Ref = Ref(order: nat, uriOrder: nat)

  /** One compiled URI pattern. */
  datatype Entry = Entry(scheme: string, host: HostKey, tokens: seq<Token>, methods: seq<string>, ref: Ref)

  datatype Request = Request(scheme: string, labels: seq<string>, verb: string, parts: seq<string>)

  predicate Less(a: Ref, b: Ref) {
    if a.order != b.order then a.order < b.order else a.uriOrder < b.uriOrder
  }

  function EdgeOf(t: Token): Edge {
    match t
    case Literal(v) => Lit(v)
    case Parameter(_) => Param
    case Wildcard => Wild
    case Remainder => Rest
  }

  function Edges(tokens: seq<Token>): (r: seq<Edge>)
    ensures |r| == |tokens| && forall i :: 0 <= i < |r| ==> r[i] == EdgeOf(tokens[i])
  {
    seq(|tokens|, i requires 0 <= i < |tokens| => EdgeOf(tokens[i]))
  }

  predicate EdgeMatches(e: Edge, part: string) {
    match e
    case Lit(v) => v == part
    case Param => true
    case Wild => true
    case Rest => false
  }

  /** `**` covers any number of trailing segments, none included. */
  predicate PathMatches(edges: seq<Edge>, parts: seq<string>) {
    if edges != [] && edges[|edges| - 1] == Rest
    then |edges| - 1 <= |parts| && forall i :: 0 <= i < |edges| - 1 ==> EdgeMatches(edges[i], parts[i])
    else |edges| == |parts| && forall i :: 0 <= i < |edges| ==> EdgeMatches(edges[i], parts[i])
  }

  /** Exact hosts need a label; `*.suffix` needs a suffix and at least one label before it. */
  predicate HostMatches(h: HostKey, labels: seq<string>) {
    match h
    case AnyHost => true
    case ExactHost(l) => l != [] && l == labels
    case UnderHost(s) => s != [] && |s| < |labels| && labels[|labels| - |s|..] == s
  }

  predicate VerbMatches(methods: seq<string>, verb: string) {
    verb in methods || "*" in methods
  }

  predicate SchemeMatches(scheme: string, requested: string) {
    scheme == "*" || scheme == requested
  }

  predicate Matches(e: Entry, q: Request) {
    && SchemeMatches(e.scheme, q.scheme)
    && HostMatches(e.host, q.labels)
    && PathMatches(Edges(e.tokens), q.parts)
    && VerbMatches(e.methods, q.verb)
  }

  /** The reference: the first declared pattern that matches. */
  function Scan(entries: seq<Entry>, q: Request): Option<Entry> {
    if entries == [] then None
    else if Matches(entries[0], q) then Some(entries[0])
    else Scan(entries[1..], q)
  }

  /** Patterns in strictly ascending declaration order, as compilation produces them. */
  predicate Ascending(entries: seq<Entry>) {
    forall i, j :: 0 <= i < j < |entries| ==> Less(entries[i].ref, entries[j].ref)
  }

  /** The segments captured by the parameters of a pattern, left to right. */
  function Captures(edges: seq<Edge>, parts: seq<string>): seq<string> {
    if edges == [] then []
    else
      var n := |edges| - 1;
      Captures(edges[..n], parts) + (if edges[n] == Param && n < |parts| then [parts[n]] else [])
  }

  /** The parameter names of a pattern, left to right. */
  function ParamNames(tokens: seq<Token>): seq<string> {
    if tokens == [] then []
    else
      var n := |tokens| - 1;
      ParamNames(tokens[..n]) + (if tokens[n].Parameter? then [tokens[n].name] else [])
  }

  /** The text covered by `**`. */
  function Covered(edges: seq<Edge>, parts: seq<string>): string {
    if edges != [] && edges[|edges| - 1] == Rest && |edges| - 1 <= |parts| then Join(parts[|edges| - 1..], '/') else ""
  }

  /** There is one capture per parameter, and the capture of the parameter at position `i` is the segment at `i`. */
  lemma {:induction false} CaptureOfParameter(tokens: seq<Token>, parts: seq<string>, i: nat)
    requires PathMatches(Edges(tokens), parts)
    requires i < |tokens| && tokens[i].Parameter?
    ensures var r := |ParamNames(tokens[..i])|;
            && r < |ParamNames(tokens)| == |Captures(Edges(tokens), parts)|
            && ParamNames(tokens)[r] == tokens[i].name
            && Captures(Edges(tokens), parts)[r] == parts[i]
  {
    CapturesPrefix(tokens, parts, i);
  }

  lemma CapturesLast(tokens: seq<Token>, parts: seq<string>)
    requires tokens != []
    ensures var n := |tokens| - 1;
            && ParamNames(tokens) == ParamNames(tokens[..n]) + (if tokens[n].Parameter? then [tokens[n].name] else [])
            && Captures(Edges(tokens), parts) ==
               Captures(Edges(tokens[..n]), parts) + (if tokens[n].Parameter? && n < |parts| then [parts[n]] else [])
  {
    assert Edges(tokens)[..|tokens| - 1] == Edges(tokens[..|tokens| - 1]);
  }

  lemma {:induction false} CapturesPrefix(tokens: seq<Token>, parts: seq<string>, i: nat)
    requires i < |tokens| && tokens[i].Parameter?
    requires forall j :: 0 <= j < |tokens| && tokens[j].Parameter? ==> j < |parts|
    ensures var r := |ParamNames(tokens[..i])|;
            && r < |ParamNames(tokens)| == |Captures(Edges(tokens), parts)|
            && ParamNames(tokens)[r] == tokens[i].name
            && Captures(Edges(tokens), parts)[r] == parts[i]
    decreases |tokens|
  {
    hide ParamNames, Captures, Edges;
    var n := |tokens| - 1;
    CapturesLast(tokens, parts);
    OneCaptureEach(tokens[..n], parts);
    if i < n {
      assert tokens[..n][..i] == tokens[..i];
      CapturesPrefix(tokens[..n], parts, i);
    }
  }

  lemma {:induction false} OneCaptureEach(tokens: seq<Token>, parts: seq<string>)
    requires forall j :: 0 <= j < |tokens| && tokens[j].Parameter? ==> j < |parts|
    ensures |ParamNames(tokens)| == |Captures(Edges(tokens), parts)|
    decreases |tokens|
  {
    if tokens != [] {
      CapturesLast(tokens, parts);
      OneCaptureEach(tokens[..|tokens| - 1], parts);
    }
  }
}
