/**
 * `${prefix.path}` placeholders inside one string: the scanner that records their
 * byte offsets, the validator of recorded offsets, and the substitution that uses
 * them. A parsed string is a `Doc`: literal text and placeholder bodies in turn.
 */
module Placeholders {
  import opened Basics

  datatype Doc = Text(text: string) | Token(lead: string, body: string, rest: Doc)

  /** A recorded placeholder, as stored in a step's `vars`. */
  datatype Placeholder = Placeholder(template: string, start: nat, end: nat)

  predicate OpensAt(s: string, i: nat) {
    i + 1 < |s| && s[i] == '$' && s[i + 1] == '{'
  }

  /** Position of the first `${`, or the length of the string. */
  function IndexOfOpen(s: string): (i: nat)
    ensures i <= |s|
    ensures i < |s| ==> OpensAt(s, i)
    ensures forall j :: 0 <= j < i ==> !OpensAt(s, j)
  {
    if s == [] then 0
    else if OpensAt(s, 0) then 0
    else
      var k := IndexOfOpen(s[1..]);
      assert forall j :: 0 < j < |s| ==> (OpensAt(s, j) <==> OpensAt(s[1..], j - 1));
      k + 1
  }

  /** A body has a non-empty prefix, a dot, and a non-empty path. */
  predicate ValidBody(body: string) {
    0 < IndexOf(body, '.') < |body| - 1
  }

  function TokenText(body: string): (t: string)
    ensures |t| == |body| + 3
  {
    "${" + body + "}"
  }

  predicate NoOpen(s: string) {
    forall i :: 0 <= i < |s| ==> !OpensAt(s, i)
  }

  /** The text before the first placeholder, its body, and the text after it. */
  datatype Cut = Plain | Broken | Cut(lead: string, body: string, tail: string)

  function FirstToken(s: string): (c: Cut)
    ensures c.Plain? ==> NoOpen(s)
    ensures c.Cut? ==> s == c.lead + TokenText(c.body) + c.tail
    ensures c.Cut? ==> NoOpen(c.lead) && '}' !in c.body && ValidBody(c.body)
  {
    var i := IndexOfOpen(s);
    if i == |s| then Plain
    else
      var after := s[i + 2..];
      var j := IndexOf(after, '}');
      if j == |after| || !ValidBody(after[..j]) then Broken
      else
        CutParts(s, i, j);
        Cut(s[..i], after[..j], after[j + 1..])
  }

  lemma CutParts(s: string, i: nat, j: nat)
    requires i == IndexOfOpen(s) < |s| && j == IndexOf(s[i + 2..], '}') < |s| - i - 2
    ensures var after := s[i + 2..];
            s == s[..i] + TokenText(after[..j]) + after[j + 1..] && NoOpen(s[..i]) && '}' !in after[..j]
  {
    hide IndexOfOpen, IndexOf;
    Reassemble(s, i, j);
    forall k | 0 <= k < i ensures !OpensAt(s[..i], k) {
      assert !OpensAt(s, k);
    }
  }

  lemma Reassemble(s: string, i: nat, j: nat)
    requires i + 2 + j < |s| && s[i] == '$' && s[i + 1] == '{' && s[i + 2 + j] == '}'
    ensures s == s[..i] + TokenText(s[i + 2..][..j]) + s[i + 2..][j + 1..]
  {
    var after := s[i + 2..];
    assert after == after[..j] + "}" + after[j + 1..];
    assert s == s[..i] + "${" + after;
  }

  /** The cut of a string put together from good parts gives those parts back. */
  lemma CutUnique(lead: string, body: string, tail: string)
    requires NoOpen(lead) && '}' !in body && ValidBody(body)
    ensures FirstToken(lead + TokenText(body) + tail) == Cut(lead, body, tail)
  {
    hide ValidBody;
    var s := lead + TokenText(body) + tail;
    var n := |lead|;
    assert s == lead + (TokenText(body) + tail);
    LeadEnds(lead, TokenText(body) + tail);
    var after := s[n + 2..];
    assert after == body + ("}" + tail);
    assert after[|body|] == '}' && forall k :: 0 <= k < |body| ==> after[k] == body[k];
    assert IndexOf(after, '}') == |body|;
    assert after[..|body|] == body && after[|body| + 1..] == tail && s[..n] == lead;
  }

  /** A literal without `${` in front of an opening `${` does not move it. */
  lemma LeadEnds(lead: string, tail: string)
    requires NoOpen(lead) && OpensAt(tail, 0)
    ensures IndexOfOpen(lead + tail) == |lead|
  {
    var s := lead + tail;
    assert OpensAt(s, |lead|);
    forall j | 0 <= j < |lead| ensures !OpensAt(s, j) {
      assert !OpensAt(lead, j);
    }
  }

  lemma PlainText(s: string)
    requires NoOpen(s)
    ensures FirstToken(s) == Plain
  {
  }

  /** The reference reading of a string, defined on the text alone. */
  function Parse(s: string): Result<Doc>
    decreases |s|
  {
    match FirstToken(s)
    case Plain => Ok(Text(s))
    case Broken => Err
    case Cut(lead, body, tail) =>
      match Parse(tail)
      case Err => Err
      case Ok(rest) => Ok(Token(lead, body, rest))
  }

  function Print(d: Doc): string {
    match d
    case Text(t) => t
    case Token(lead, body, rest) => lead + TokenText(body) + Print(rest)
  }

  /** Docs that reading produces: literals without `${`, bodies well formed and closed by their own brace. */
  predicate Canonical(d: Doc) {
    match d
    case Text(t) => NoOpen(t)
    case Token(lead, body, rest) => NoOpen(lead) && '}' !in body && ValidBody(body) && Canonical(rest)
  }

  /** Printing undoes reading. */
  lemma {:induction false} PrintParse(s: string)
    ensures Parse(s).Ok? ==> Print(Parse(s).value) == s && Canonical(Parse(s).value)
    decreases |s|
  {
    hide FirstToken, TokenText, NoOpen, ValidBody;
    var c := FirstToken(s);
    if c.Cut? { PrintParse(c.tail); }
  }

  lemma {:induction false} ParsePrintCanonical(d: Doc)
    requires Canonical(d)
    ensures Parse(Print(d)) == Ok(d)
  {
    hide FirstToken, TokenText, NoOpen, ValidBody;
    match d {
      case Text(t) => PlainText(t);
      case Token(lead, body, rest) =>
        CutUnique(lead, body, Print(rest));
        ParsePrintCanonical(rest);
    }
  }

  /** Reading undoes printing, exactly on the docs that reading produces. */
  lemma ParsePrint(d: Doc)
    ensures Parse(Print(d)) == Ok(d) <==> Canonical(d)
  {
    PrintParse(Print(d));
    if Canonical(d) { ParsePrintCanonical(d); }
  }

  // ----- Offsets -----

  /** The descriptors of a doc that starts at byte `base`. */
  function Offsets(d: Doc, base: nat): seq<Placeholder> {
    match d
    case Text(_) => []
    case Token(lead, body, rest) =>
      var start := base + |lead|;
      var end := start + |TokenText(body)|;
      [Placeholder(body, start, end)] + Offsets(rest, end)
  }

  /** What remains to be read after `done` placeholders, in terms of the whole. */
  ghost predicate ReadSoFar(value: string, done: seq<Placeholder>, cursor: nat)
    requires cursor <= |value|
  {
    match Parse(value[cursor..])
    case Err => Parse(value).Err?
    case Ok(d) => Parse(value).Ok? && Offsets(Parse(value).value, 0) == done + Offsets(d, cursor)
  }

  lemma ReadNext(value: string, done: seq<Placeholder>, cursor: nat)
    requires cursor <= |value| && ReadSoFar(value, done, cursor)
    ensures var c := FirstToken(value[cursor..]);
            && (c.Plain? ==> Parse(value).Ok? && Offsets(Parse(value).value, 0) == done)
            && (c.Broken? ==> Parse(value).Err?)
            && (c.Cut? ==>
                  var start := cursor + |c.lead|;
                  var end := start + |TokenText(c.body)|;
                  && end <= |value| && value[end..] == c.tail
                  && ReadSoFar(value, done + [Placeholder(c.body, start, end)], end))
  {
    hide FirstToken, TokenText, NoOpen, ValidBody;
    var s := value[cursor..];
    var c := FirstToken(s);
    if c.Cut? {
      var start := cursor + |c.lead|;
      var end := start + |TokenText(c.body)|;
      assert value[end..] == s[end - cursor..] == c.tail;
      if Parse(c.tail).Ok? {
        var rest := Parse(c.tail).value;
        var p := Placeholder(c.body, start, end);
        assert done + ([p] + Offsets(rest, end)) == done + [p] + Offsets(rest, end);
      }
    }
  }

  /** One turn of the scanner: find the next `${`, its closing brace, and check the body. */
  method NextToken(s: string) returns (c: Cut)
    ensures c == FirstToken(s)
  {
    var i := IndexOfOpen(s);
    if i == |s| { return Plain; }
    var after := s[i + 2..];
    var j := IndexOf(after, '}');
    if j == |after| { return Broken; }
    var path := after[..j];
    if !ValidBody(path) { return Broken; }
    return Cut(s[..i], path, after[j + 1..]);
  }

  /** discoverPlaceholders. */
  method Discover(value: string) returns (r: Result<seq<Placeholder>>)
    ensures r == match Parse(value) case Err => Err case Ok(d) => Ok(Offsets(d, 0))
  {
    hide Parse, Offsets, NoOpen, FirstToken, ReadSoFar, ValidBody;
    var result: seq<Placeholder> := [];
    var cursor := 0;
    ReadStart(value);
    while cursor < |value|
      invariant 0 <= cursor <= |value|
      invariant ReadSoFar(value, result, cursor)
    {
      ReadNext(value, result, cursor);
      var c := NextToken(value[cursor..]);
      if c.Plain? { return Ok(result); }
      if c.Broken? { return Err; }
      var start := cursor + |c.lead|;
      var end := start + |c.body| + 3;
      result := result + [Placeholder(c.body, start, end)];
      cursor := end;
    }
    ReadNext(value, result, cursor);
    EmptyIsPlain();
    assert value[cursor..] == "";
    r := Ok(result);
  }

  lemma EmptyIsPlain()
    ensures FirstToken("") == Plain
  {
  }

  lemma ReadStart(value: string)
    ensures ReadSoFar(value, [], 0)
  {
    assert value[0..] == value;
  }

  /** Offsets ascend, do not overlap, stay inside the string, and each names exactly its own token. */
  ghost predicate Exact(s: string, ps: seq<Placeholder>, base: nat) {
    && (forall i :: 0 <= i < |ps| ==>
          base <= ps[i].start < ps[i].end <= |s| && s[ps[i].start..ps[i].end] == TokenText(ps[i].template))
    && (forall i, j :: 0 <= i < j < |ps| ==> ps[i].end <= ps[j].start)
  }

  lemma {:induction false} OffsetsAreExact(d: Doc, before: string)
    ensures Exact(before + Print(d), Offsets(d, |before|), |before|)
  {
    if d.Token? {
      hide TokenText;
      var s := before + Print(d);
      var past := before + d.lead + TokenText(d.body);
      var start := |before| + |d.lead|;
      assert s == past + Print(d.rest);
      OffsetsAreExact(d.rest, past);
      assert s[start..|past|] == TokenText(d.body);
      var rest := Offsets(d.rest, |past|);
      ExactCons(s, Placeholder(d.body, start, |past|), rest, |before|);
    }
  }

  lemma ExactCons(s: string, p: Placeholder, rest: seq<Placeholder>, base: nat)
    requires base <= p.start < p.end <= |s| && s[p.start..p.end] == TokenText(p.template)
    requires Exact(s, rest, p.end)
    ensures Exact(s, [p] + rest, base)
  {
    hide TokenText;
  }

  // ----- The validator -----

  /** placeholderPath: the template without a leading `${` and a trailing `}`. */
  function PathOf(template: string): string {
    var t := if |template| >= 2 && template[..2] == "${" then template[2..] else template;
    if t != "" && t[|t| - 1] == '}' then t[..|t| - 1] else t
  }

  predicate StartsOpen(template: string) {
    |template| >= 2 && template[..2] == "${"
  }

  /** Checking sorted descriptors against the source, left to right. */
  predicate Checks(source: string, ps: seq<Placeholder>, previousEnd: nat) {
    ps == [] ||
    (&& previousEnd <= ps[0].start <= ps[0].end <= |source|
     && source[ps[0].start..ps[0].end] == TokenText(PathOf(ps[0].template))
     && ValidBody(PathOf(ps[0].template))
     && Checks(source, ps[1..], ps[0].end))
  }

  /** Insertion into a list sorted by start. */
  function InsertByStart(p: Placeholder, ps: seq<Placeholder>): seq<Placeholder> {
    if ps == [] || p.start <= ps[0].start then [p] + ps else [ps[0]] + InsertByStart(p, ps[1..])
  }

  function SortByStart(ps: seq<Placeholder>): seq<Placeholder> {
    if ps == [] then [] else InsertByStart(ps[0], SortByStart(ps[1..]))
  }

  predicate Ascending(ps: seq<Placeholder>) {
    forall i, j :: 0 <= i < j < |ps| ==> ps[i].start <= ps[j].start
  }

  lemma {:induction false} SortKeepsAscending(ps: seq<Placeholder>)
    requires Ascending(ps)
    ensures SortByStart(ps) == ps
  {
    if ps != [] {
      SortKeepsAscending(ps[1..]);
      assert [ps[0]] + ps[1..] == ps;
    }
  }

  lemma {:induction false} InsertHasAll(p: Placeholder, ps: seq<Placeholder>)
    ensures multiset(InsertByStart(p, ps)) == multiset([p] + ps)
    decreases |ps|
  {
    assert multiset([p] + ps) == multiset{p} + multiset(ps);
    if ps != [] && p.start > ps[0].start {
      InsertHasAll(p, ps[1..]);
      assert ps == [ps[0]] + ps[1..];
    }
  }

  lemma {:induction false} InsertIsSorted(p: Placeholder, ps: seq<Placeholder>)
    requires Ascending(ps)
    ensures Ascending(InsertByStart(p, ps))
    decreases |ps|
  {
    if ps != [] && p.start > ps[0].start {
      var rest := InsertByStart(p, ps[1..]);
      InsertIsSorted(p, ps[1..]);
      InsertHasAll(p, ps[1..]);
      hide InsertByStart;
      forall i | 0 <= i < |rest| ensures ps[0].start <= rest[i].start {
        assert rest[i] in multiset(rest);
        assert rest[i] == p || rest[i] in ps[1..];
      }
      FirstIsLeast(ps[0], rest);
    }
  }

  lemma FirstIsLeast(p: Placeholder, rest: seq<Placeholder>)
    requires Ascending(rest) && forall i :: 0 <= i < |rest| ==> p.start <= rest[i].start
    ensures Ascending([p] + rest)
  {
  }

  lemma {:induction false} SortIsSorted(ps: seq<Placeholder>)
    ensures Ascending(SortByStart(ps)) && multiset(SortByStart(ps)) == multiset(ps)
    decreases |ps|
  {
    if ps != [] {
      SortIsSorted(ps[1..]);
      InsertIsSorted(ps[0], SortByStart(ps[1..]));
      InsertHasAll(ps[0], SortByStart(ps[1..]));
      assert ps == [ps[0]] + ps[1..];
    }
  }

  /** The descriptor names exactly a well-formed token of the source. */
  predicate Describes(source: string, p: Placeholder) {
    && p.start <= p.end <= |source| && source[p.start..p.end] == TokenText(PathOf(p.template))
    && ValidBody(PathOf(p.template))
  }

  predicate Disjoint(p: Placeholder, q: Placeholder) {
    p.end <= q.start || q.end <= p.start
  }

  /** Every descriptor is up to date, none occurs twice, and no two overlap; their order does not matter. */
  ghost predicate UpToDate(source: string, ps: multiset<Placeholder>) {
    && (forall p :: p in ps ==> Describes(source, p) && ps[p] == 1)
    && (forall p, q :: p in ps && q in ps && p != q ==> Disjoint(p, q))
  }

  lemma TokensAreNotEmpty(source: string, p: Placeholder)
    requires Describes(source, p)
    ensures p.start < p.end
  {
  }

  /** On sorted descriptors the left-to-right check decides that. */
  lemma {:induction false} ChecksDecides(source: string, ps: seq<Placeholder>, previousEnd: nat)
    requires Ascending(ps)
    ensures Checks(source, ps, previousEnd) <==> UpToDate(source, multiset(ps)) && forall p :: p in ps ==> previousEnd <= p.start
    decreases |ps|
  {
    if ps != [] {
      var p, rest := ps[0], ps[1..];
      assert ps == [p] + rest;
      ChecksDecides(source, rest, p.end);
      hide ValidBody, TokenText, PathOf;
      if Checks(source, ps, previousEnd) { FirstJoins(source, p, rest); }
      if UpToDate(source, multiset(ps)) { FirstLeaves(source, p, rest); }
    }
  }

  lemma FirstJoins(source: string, p: Placeholder, rest: seq<Placeholder>)
    requires Describes(source, p) && UpToDate(source, multiset(rest)) && forall q :: q in rest ==> p.end <= q.start
    ensures UpToDate(source, multiset([p] + rest))
    ensures forall q :: q in [p] + rest ==> p.start <= q.start
  {
    hide Describes;
    TokensAreNotEmpty(source, p);
    var all := multiset([p] + rest);
    assert all == multiset{p} + multiset(rest);
    assert p !in multiset(rest);
    forall q | q in all ensures Describes(source, q) && all[q] == 1 && (q == p || p.end <= q.start) {
      if q != p { assert q in multiset(rest); }
    }
    forall q, x | q in all && x in all && q != x ensures Disjoint(q, x) {
      if q != p && x != p { assert q in multiset(rest) && x in multiset(rest); }
    }
    assert forall q :: q in [p] + rest ==> q in all;
  }

  lemma FirstLeaves(source: string, p: Placeholder, rest: seq<Placeholder>)
    requires Ascending([p] + rest) && UpToDate(source, multiset([p] + rest))
    ensures Describes(source, p) && UpToDate(source, multiset(rest)) && forall q :: q in rest ==> p.end <= q.start
  {
    var all := multiset([p] + rest);
    assert all == multiset{p} + multiset(rest);
    assert p in all;
    forall q | q in rest ensures p.end <= q.start {
      assert q in multiset(rest) && q in all && all[q] == 1;
      TokensAreNotEmpty(source, q);
      var i :| 0 <= i < |rest| && rest[i] == q;
      assert ([p] + rest)[i + 1] == q;
      assert Disjoint(p, q);
    }
  }

  /** Whatever sorting is used, equal starts included, the verdict is the same. */
  lemma AnySortingDecides(source: string, ps: seq<Placeholder>, sorted: seq<Placeholder>)
    requires Ascending(sorted) && multiset(sorted) == multiset(ps)
    ensures Checks(source, sorted, 0) <==> UpToDate(source, multiset(ps))
  {
    hide Checks, UpToDate;
    ChecksDecides(source, sorted, 0);
  }

  /** One turn of the validator. */
  lemma ChecksStep(source: string, ps: seq<Placeholder>, i: nat, previousEnd: nat)
    requires i < |ps|
    ensures var p := ps[i];
            Checks(source, ps[i..], previousEnd) <==>
            && previousEnd <= p.start <= p.end <= |source| && source[p.start..p.end] == TokenText(PathOf(p.template))
            && ValidBody(PathOf(p.template)) && Checks(source, ps[i + 1..], p.end)
  {
    hide PathOf, TokenText, ValidBody;
    assert ps[i..][0] == ps[i] && ps[i..][1..] == ps[i + 1..];
  }

  /** validateStepVariables for one property. */
  method ValidateVariable(source: string, placeholders: seq<Placeholder>) returns (ok: bool)
    ensures ok == Checks(source, SortByStart(placeholders), 0)
    ensures ok <==> UpToDate(source, multiset(placeholders))
  {
    hide UpToDate, Checks, SortByStart, Ascending, PathOf, TokenText, ValidBody;
    SortIsSorted(placeholders);
    AnySortingDecides(source, placeholders, SortByStart(placeholders));
    var ps := SortByStart(placeholders);
    var previousEnd := 0;
    assert ps[0..] == ps;
    var i := 0;
    while i < |ps|
      invariant 0 <= i <= |ps|
      invariant Checks(source, ps, 0) == Checks(source, ps[i..], previousEnd)
    {
      var p := ps[i];
      ChecksStep(source, ps, i, previousEnd);
      if p.start < previousEnd || p.end < p.start || p.end > |source| { return false; }
      if source[p.start..p.end] != TokenText(PathOf(p.template)) { return false; }
      if !ValidBody(PathOf(p.template)) { return false; }
      previousEnd := p.end;
      i := i + 1;
    }
    assert ps[i..] == [];
    NothingToCheck(source, previousEnd);
    ok := true;
  }

  lemma NothingToCheck(source: string, previousEnd: nat)
    ensures Checks(source, [], previousEnd)
  {
  }

  /** All bodies of a doc, left to right. */
  function Bodies(d: Doc): seq<string> {
    match d
    case Text(_) => []
    case Token(_, body, rest) => [body] + Bodies(rest)
  }

  lemma PathOfBody(body: string)
    requires '}' !in body
    ensures TokenText(PathOf(body)) == TokenText(body) <==> !StartsOpen(body)
    ensures !StartsOpen(body) ==> PathOf(body) == body
  {
    if StartsOpen(body) {
      assert |TokenText(PathOf(body))| < |TokenText(body)|;
    }
  }

  lemma {:induction false} ChecksOffsets(d: Doc, before: string, previousEnd: nat)
    requires Canonical(d) && previousEnd <= |before|
    ensures Checks(before + Print(d), Offsets(d, |before|), previousEnd) <==>
            forall b :: b in Bodies(d) ==> !StartsOpen(b)
  {
    hide TokenText, NoOpen, StartsOpen, PathOf, ValidBody;
    if d.Token? {
      var s := before + Print(d);
      var past := before + d.lead + TokenText(d.body);
      assert s == past + Print(d.rest);
      assert s[|before| + |d.lead|..|past|] == TokenText(d.body);
      PathOfBody(d.body);
      ChecksOffsets(d.rest, past, |past|);
      assert Offsets(d, |before|)[1..] == Offsets(d.rest, |past|);
    }
  }

  /**
   * What the scanner records, the validator accepts, exactly when no placeholder
   * body itself starts with `${`.
   */
  lemma ScannedIsValid(value: string)
    requires Parse(value).Ok?
    ensures var d := Parse(value).value;
            Checks(value, SortByStart(Offsets(d, 0)), 0) <==> forall b :: b in Bodies(d) ==> !StartsOpen(b)
  {
    hide Parse, Print, Canonical, Offsets, Checks, SortByStart, StartsOpen, TokenText;
    var d := Parse(value).value;
    PrintParse(value);
    OffsetsAreExact(d, "");
    assert "" + Print(d) == value;
    SortKeepsAscending(Offsets(d, 0));
    ChecksOffsets(d, "", 0);
  }

  /** The scanner accepts a string whose descriptor the validator refuses. */
  lemma ScannerValidatorDisagree()
    ensures Parse("${${a.b}") == Ok(Token("", "${a.b", Text("")))
    ensures !Checks("${${a.b}", SortByStart(Offsets(Token("", "${a.b", Text("")), 0)), 0)
  {
    hide Parse, Checks, SortByStart, Offsets, Print, Canonical, StartsOpen;
    NestedOpenIsCanonical();
    ParsePrintCanonical(Token("", "${a.b", Text("")));
    ScannedIsValid("${${a.b}");
  }

  lemma NestedOpenIsCanonical()
    ensures var d := Token("", "${a.b", Text(""));
            Canonical(d) && Print(d) == "${${a.b}" && Bodies(d) == ["${a.b"] && StartsOpen("${a.b")
  {
    assert "${a.b"[3] == '.';
    assert IndexOf("${a.b", '.') == 3;
  }


  /** A template may be recorded with its braces or without. */
  lemma TemplateIsStripped(body: string)
    requires body != "" && body[0] != '$' && body[|body| - 1] != '}'
    ensures PathOf(body) == body && PathOf("${" + body + "}") == body
  {
    var t := "${" + body + "}";
    assert t[..2] == "${" && t[2..] == body + "}";
    assert |body| >= 2 ==> body[..2][0] == body[0];
  }
}
