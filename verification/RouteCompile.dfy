/** From declared routes to a compiled table. */
module RouteCompile {
  import opened Basics
  import opened Strings
  import opened RouteSpec
  import opened RouteTrie
  import opened RouteBound
  import opened RouteSearch
  import opened RouteAnswers

  datatype Uri = Uri(scheme: string, host: string, path: string)

  datatype Route = Route(uris: seq<Uri>, methods: seq<string>)

  /** compileHTTPRoutePath: refuses a `**` that is not the last segment. */
  method CompilePath(parts: seq<string>) returns (r: Result<seq<Token>>)
    ensures r == if GoodPath(parts) then Ok(TokensOf(parts)) else Err
    ensures r.Ok? ==> RestLast(Edges(r.value))
  {
    var tokens: seq<Token> := [];
    var i := 0;
    while i < |parts|
      invariant 0 <= i <= |parts| && tokens == TokensOf(parts)[..i]
      invariant forall j :: 0 <= j < i && j < |parts| - 1 ==> parts[j] != "**"
    {
      if parts[i] == "**" && i != |parts| - 1 { return Err; }
      tokens := tokens + [TokenOf(parts[i])];
      i := i + 1;
    }
    assert TokensOf(parts)[..i] == TokensOf(parts);
    r := Ok(tokens);
  }

  /** The methods a route accepts: `*` alone, or distinct normalised names. `norm` upper-cases and trims. */
  ghost predicate Normalized(methods: seq<string>, norm: string -> string, r: seq<string>) {
    && r != [] && Distinct(r)
    && ("*" in r ==> r == ["*"])
    && (r == ["*"] <==> ("*" in NormAll(methods, norm) || forall m :: m in methods ==> norm(m) == ""))
    && (r != ["*"] ==> forall v :: v in r <==> v != "" && v in NormAll(methods, norm))
  }

  function NormAll(methods: seq<string>, norm: string -> string): (r: seq<string>)
    ensures |r| == |methods| && forall i :: 0 <= i < |r| ==> r[i] == norm(methods[i])
  {
    seq(|methods|, i requires 0 <= i < |methods| => norm(methods[i]))
  }

  method NormalizeMethods(methods: seq<string>, norm: string -> string) returns (r: seq<string>)
    ensures Normalized(methods, norm, r)
  {
    ghost var all := NormAll(methods, norm);
    r := [];
    var i := 0;
    while i < |methods|
      invariant 0 <= i <= |methods| && Distinct(r) && "*" !in all[..i]
      invariant forall v :: v in r <==> v != "" && v in all[..i]
    {
      var m := norm(methods[i]);
      assert all[..i + 1] == all[..i] + [m];
      if m == "*" {
        assert all[i] in all;
        return ["*"];
      }
      if m != "" && m !in r { r := r + [m]; }
      i := i + 1;
    }
    assert all[..i] == all;
    if r == [] {
      forall m | m in methods ensures norm(m) == "" {
        var j :| 0 <= j < |methods| && methods[j] == m;
        assert all[j] in all;
      }
      return ["*"];
    }
    assert r[0] in r;
    ghost var j :| 0 <= j < |all| && all[j] == r[0];
    assert methods[j] in methods;
  }

  function EntryOf(uri: Uri, methods: seq<string>, order: nat, uriOrder: nat): Entry {
    Entry(uri.scheme, HostKeyOf(uri.host), TokensOf(Segments(uri.path, '/')), methods, Ref(order, uriOrder))
  }

  function UriEntries(uris: seq<Uri>, methods: seq<string>, order: nat): (r: seq<Entry>)
    ensures |r| == |uris| && forall i :: 0 <= i < |r| ==> r[i] == EntryOf(uris[i], methods, order, i)
  {
    seq(|uris|, i requires 0 <= i < |uris| => EntryOf(uris[i], methods, order, i))
  }

  /** The patterns of a route list in declaration order; `methods[i]` are the normalised methods of route `i`. */
  function Declared(routes: seq<Route>, methods: seq<seq<string>>): seq<Entry>
    requires |methods| == |routes|
  {
    if routes == [] then []
    else
      var n := |routes| - 1;
      Declared(routes[..n], methods[..n]) + UriEntries(routes[n].uris, methods[n], n)
  }

  predicate GoodRoute(r: Route) {
    forall u :: u in r.uris ==> GoodPath(Segments(u.path, '/'))
  }

  lemma {:induction false} DeclaredBounded(routes: seq<Route>, methods: seq<seq<string>>)
    requires |methods| == |routes|
    ensures Ascending(Declared(routes, methods))
    ensures forall e :: e in Declared(routes, methods) ==> e.ref.order < |routes|
  {
    if routes != [] {
      var n := |routes| - 1;
      DeclaredBounded(routes[..n], methods[..n]);
    }
  }

  lemma DeclaredNone(routes: seq<Route>)
    ensures Declared(routes[..0], []) == []
  {
  }

  /** One more route declares its patterns after all others. */
  lemma DeclaredStep(routes: seq<Route>, methods: seq<seq<string>>, own: seq<string>, order: nat)
    requires order < |routes| && |methods| == order
    ensures Declared(routes[..order + 1], methods + [own]) == Declared(routes[..order], methods) + UriEntries(routes[order].uris, own, order)
  {
    hide UriEntries;
    assert routes[..order + 1][..order] == routes[..order];
    assert (methods + [own])[..order] == methods;
  }

  /** Nested loops over routes and their URIs; nothing is compiled past the first bad pattern. */
  method NewTable(routes: seq<Route>, norm: string -> string)
    returns (ok: bool, table: RouteTable, names: map<Ref, seq<string>>, ghost methods: seq<seq<string>>)
    ensures ok <==> forall r :: r in routes ==> GoodRoute(r)
    ensures ok ==> |methods| == |routes| && forall i :: 0 <= i < |routes| ==> Normalized(routes[i].methods, norm, methods[i])
    ensures ok ==> table.Valid() && table.entries == Declared(routes, methods) && WellCompiled(table.entries)
    ensures ok ==> forall e :: e in table.entries ==> e.ref in names && names[e.ref] == ParamNames(e.tokens)
  {
    hide Declared, Normalized, GoodRoute, RestLast, Edges, ParamNames, Ascending, UriEntries;
    table := new RouteTable();
    names, methods := map[], [];
    DeclaredNone(routes);
    var order := 0;
    while order < |routes|
      invariant 0 <= order <= |routes| && |methods| == order
      invariant forall i :: 0 <= i < order ==> GoodRoute(routes[i]) && Normalized(routes[i].methods, norm, methods[i])
      invariant fresh(table) && table.Valid() && table.entries == Declared(routes[..order], methods)
      invariant forall e :: e in table.entries ==> RestLast(Edges(e.tokens)) && e.ref in names && names[e.ref] == ParamNames(e.tokens)
    {
      var own := NormalizeMethods(routes[order].methods, norm);
      ghost var before := table.entries;
      DeclaredBounded(routes[..order], methods);
      var more;
      more, names := CompileRoute(table, names, routes[order], own, order);
      if !more {
        assert routes[order] in routes;
        ok := false;
        return;
      }
      DeclaredStep(routes, methods, own, order);
      methods := methods + [own];
      order := order + 1;
    }
    assert routes[..order] == routes;
    DeclaredBounded(routes, methods);
    ok := true;
  }

  method CompileRoute(table: RouteTable, names0: map<Ref, seq<string>>, route: Route, own: seq<string>, order: nat)
    returns (ok: bool, names: map<Ref, seq<string>>)
    requires table.Valid() && Distinct(own)
    requires forall e :: e in table.entries ==>
               RestLast(Edges(e.tokens)) && e.ref.order < order && e.ref in names0 && names0[e.ref] == ParamNames(e.tokens)
    modifies table
    ensures ok <==> GoodRoute(route)
    ensures ok ==> table.Valid() && table.entries == old(table.entries) + UriEntries(route.uris, own, order)
    ensures ok ==> forall e :: e in table.entries ==>
              RestLast(Edges(e.tokens)) && e.ref in names && names[e.ref] == ParamNames(e.tokens)
  {
    hide Segments, ParamNames;
    names := names0;
    ghost var before := table.entries;
    ghost var all := UriEntries(route.uris, own, order);
    var i := 0;
    while i < |route.uris|
      invariant 0 <= i <= |route.uris|
      invariant forall j :: 0 <= j < i ==> GoodPath(Segments(route.uris[j].path, '/'))
      invariant table.Valid() && table.entries == before + all[..i]
      invariant forall e :: e in before ==> e.ref in names && names[e.ref] == ParamNames(e.tokens)
      invariant forall j :: 0 <= j < i ==>
                  RestLast(Edges(all[j].tokens)) && all[j].ref in names && names[all[j].ref] == ParamNames(all[j].tokens)
    {
      var uri := route.uris[i];
      assert uri in route.uris;
      var tokens := CompilePath(Segments(uri.path, '/'));
      if tokens.Err? { return false, names; }
      var e := Entry(uri.scheme, HostKeyOf(uri.host), tokens.value, own, Ref(order, i));
      assert e == all[i];
      names := names[e.ref := ParamNames(e.tokens)];
      table.Insert(e);
      i := i + 1;
    }
    ok := true;
  }

  /**
   * A declared route list and a request: compiling the list into the trie and
   * searching it gives the answer of the scan over the declarations.
   */
  method RouteRequest(routes: seq<Route>, norm: string -> string, q: Request)
    returns (ok: bool, r: Option<RouteMatch>, ghost methods: seq<seq<string>>)
    ensures ok <==> forall route :: route in routes ==> GoodRoute(route)
    ensures ok ==> |methods| == |routes| && forall i :: 0 <= i < |routes| ==> Normalized(routes[i].methods, norm, methods[i])
    ensures ok ==> match Scan(Declared(routes, methods), q)
                   case None => r.None?
                   case Some(e) => r == Some(MatchFor(e, q)) && Explains(e, q, r.value)
  {
    hide Normalized, Declared, WellCompiled, Scan, MatchFor, Explains;
    var table, names;
    ok, table, names, methods := NewTable(routes, norm);
    r := None;
    if ok { r := MatchRequest(table, names, q); }
  }


  /** A request is taken by its own method, or any if the route declares `*` or no method at all. */
  lemma VerbTakesIff(methods: seq<string>, norm: string -> string, r: seq<string>, verb: string)
    requires Normalized(methods, norm, r) && verb != "" && verb != "*"
    ensures VerbMatches(r, verb) <==>
            || (exists m :: m in methods && (norm(m) == verb || norm(m) == "*"))
            || (forall m :: m in methods ==> norm(m) == "")
  {
    var all := NormAll(methods, norm);
    forall v ensures v in all <==> exists m :: m in methods && norm(m) == v {
      if v in all {
        var i :| 0 <= i < |all| && all[i] == v;
        assert methods[i] in methods;
      }
      if m :| m in methods && norm(m) == v {
        var i :| 0 <= i < |methods| && methods[i] == m;
        assert all[i] == v;
      }
    }
  }


  /**
   * One declared pattern against one request, in the strings of the declaration: the
   * scheme is the same or `*`, the host and the path take theirs, and so does the method.
   */
  lemma UriTakesIff(uri: Uri, pattern: seq<string>, methods: seq<string>, order: nat, uriOrder: nat, q: Request)
    requires uri.path == "/" + Join(pattern, '/') && Pieces(pattern, '/') && GoodPath(pattern)
    ensures var e := EntryOf(uri, methods, order, uriOrder);
            && e.ref.order == order && e.ref.uriOrder == uriOrder
            && (Matches(e, q) <==>
                  && (uri.scheme == "*" || uri.scheme == q.scheme) && HostMatches(HostKeyOf(uri.host), q.labels)
                  && PathTakes(pattern, q.parts) && (q.verb in methods || "*" in methods))
  {
    hide PathMatches, HostMatches, PathTakes, Pieces, Segments, HostKeyOf;
    SegmentsOfJoined(pattern, '/');
    PathTakesIff(pattern, q.parts);
  }

  /** The declared patterns are those of the routes, each with its own methods and its own position. */
  lemma {:induction false} DeclaredAre(routes: seq<Route>, methods: seq<seq<string>>, e: Entry)
    requires |methods| == |routes|
    ensures e in Declared(routes, methods) <==>
            exists i, j :: 0 <= i < |routes| && 0 <= j < |routes[i].uris| && e == EntryOf(routes[i].uris[j], methods[i], i, j)
    decreases |routes|
  {
    hide EntryOf;
    if routes != [] {
      var n := |routes| - 1;
      DeclaredAre(routes[..n], methods[..n], e);
      if e in UriEntries(routes[n].uris, methods[n], n) {
        var j :| 0 <= j < |routes[n].uris| && UriEntries(routes[n].uris, methods[n], n)[j] == e;
        assert e == EntryOf(routes[n].uris[j], methods[n], n, j);
      }
      if i, j :| 0 <= i < |routes| && 0 <= j < |routes[i].uris| && e == EntryOf(routes[i].uris[j], methods[i], i, j) {
        if i < n {
          assert routes[..n][i] == routes[i] && methods[..n][i] == methods[i];
        } else {
          assert UriEntries(routes[n].uris, methods[n], n)[j] == e;
        }
      }
    }
  }
}
