/** Reading back the printed registry yields exactly the routes of the document. */
module RegistryProofs {
  import opened Options
  import opened Registry

  // ------------------------------------------------------------------ scanning, piece by piece

  ghost predicate Plain(s: string) {
    '"' !in s
  }

  // What the printer's own fixed texts are made of: no quote and no carriage return.
  ghost predicate Fixed(s: string) {
    '"' !in s && '\r' !in s
  }

  // Text without quotes holds no match.
  lemma {:induction false} SkipPlain(s: string, rest: string)
    requires Plain(s)
    ensures FindAll(s + rest) == FindAll(rest)
    decreases |s|
  {
    if s == "" {
      assert s + rest == rest;
    } else {
      NoQuoteNoMatch(s + rest, VERBS);
      assert (s + rest)[1..] == s[1..] + rest;
      SkipPlain(s[1..], rest);
    }
  }

  lemma {:induction false} NoQuoteNoMatch(s: string, verbs: seq<string>)
    requires s != "" && s[0] != '"'
    ensures MatchAny(s, verbs).None?
  {
    if verbs != [] {
      NoQuoteNoMatch(s, verbs[1..]);
    }
  }

  lemma {:induction false} IndexOfLocal(a: string, rest: string)
    ensures IndexOf(a + "\"" + rest, '"') == IndexOf(a, '"') && (Plain(a) <==> IndexOf(a, '"') == |a|)
  {
    var t := a + "\"" + rest;
    if a != "" {
      assert t[1..] == a[1..] + "\"" + rest;
      IndexOfLocal(a[1..], rest);
    }
  }

  ghost predicate IsVerb(verb: string) {
    Plain(verb) && verb != "" && verb[0] != ','
  }

  // What a value is read as never depends on what is printed after its closing quote and comma.
  lemma MatchVerbLocal(u: string, rest: string, verb: string)
    requires IsVerb(verb)
    ensures MatchVerb(u + "\"," + rest, verb) == MatchVerb(u + "\",", verb)
    ensures MatchVerb(u + "\",", verb).Some? ==> MatchVerb(u + "\",", verb).value.1 <= |u|
  {
    hide IndexOf, Plain;
    var s, t, open := u + "\"," + rest, u + "\",", "\"" + verb + " /";
    OpenLocal(u, ",", verb);
    OpenLocal(u, "," + rest, verb);
    assert s == u + "\"" + ("," + rest) && t == u + "\"" + ",";
    if open <= u {
      var v := u[|verb| + 2..];
      assert s[|verb| + 2..] == v + "\"" + ("," + rest) && t[|verb| + 2..] == v + "\"" + ",";
      IndexOfLocal(v, ",");
      IndexOfLocal(v, "," + rest);
      var end := IndexOf(v, '"');
      KeyEndLocal(v, ",", end);
      KeyEndLocal(v, "," + rest, end);
    }
  }

  // The head of a key lies inside the value or nowhere.
  lemma OpenLocal(u: string, tail: string, verb: string)
    requires IsVerb(verb) && tail != "" && tail[0] == ','
    ensures "\"" + verb + " /" <= u + "\"" + tail <==> "\"" + verb + " /" <= u
  {
    var s, open := u + "\"" + tail, "\"" + verb + " /";
    assert open[1] == verb[0] && forall i | 0 < i < |open| :: open[i] == (verb + " /")[i - 1];
    assert s[|u|] == '"' && (u == "" ==> s[1] == ',');
    if open <= u {
      assert open <= s;
    }
  }

  lemma KeyEndLocal(v: string, tail: string, end: nat)
    requires end <= |v| && tail != "" && tail[0] == ','
    ensures KEY_END <= (v + "\"" + tail)[end..] <==> KEY_END <= v[end..]
    ensures (v + "\"" + tail)[..end] == v[..end]
  {
    var s := (v + "\"" + tail)[end..];
    assert s == v[end..] + "\"" + tail;
    assert s[|v| - end] == '"' && s[|v| - end + 1] == ',';
    if KEY_END <= v[end..] {
      assert KEY_END <= s;
    }
  }

  lemma {:induction false} MatchAnyLocal(u: string, rest: string, verbs: seq<string>)
    requires forall verb <- verbs :: IsVerb(verb)
    ensures MatchAny(u + "\"," + rest, verbs) == MatchAny(u + "\",", verbs)
    ensures MatchAny(u + "\",", verbs).Some? ==> MatchAny(u + "\",", verbs).value.1 <= |u|
  {
    if verbs != [] {
      MatchVerbLocal(u, rest, verbs[0]);
      MatchAnyLocal(u, rest, verbs[1..]);
    }
  }

  lemma VerbsAreVerbs()
    ensures forall verb <- VERBS :: IsVerb(verb) && ' ' !in verb
  {}

  lemma FindAllTakes(s: string)
    requires s != ""
    ensures FindAll(s) ==
            if MatchAny(s, VERBS).Some?
            then [MatchAny(s, VERBS).value.0] + FindAll(s[MatchAny(s, VERBS).value.1..])
            else FindAll(s[1..])
  {}

  lemma {:induction false} ScanValue(u: string, rest: string)
    ensures FindAll(u + "\"," + rest) == FindAll(u + "\",") + FindAll(rest)
    decreases |u|
  {
    hide FindAll, MatchAny, VERBS;
    var s, t := u + "\"," + rest, u + "\",";
    VerbsAreVerbs();
    MatchAnyLocal(u, rest, VERBS);
    FindAllTakes(s);
    FindAllTakes(t);
    if MatchAny(t, VERBS).Some? {
      var n := MatchAny(t, VERBS).value.1;
      assert s[n..] == u[n..] + "\"," + rest && t[n..] == u[n..] + "\",";
      ScanValue(u[n..], rest);
    } else if u == "" {
      assert s[1..] == "," + rest && t[1..] == "," + "";
      SkipPlain(",", rest);
      SkipPlain(",", "");
      EmptyText();
    } else {
      assert s[1..] == u[1..] + "\"," + rest && t[1..] == u[1..] + "\",";
      ScanValue(u[1..], rest);
    }
  }

  lemma EmptyText()
    ensures FindAll("") == []
  {}

  // The routes that reading finds inside a printed text value.
  function RoutesInText(v: string): seq<Route> {
    FindAll("\"" + v + "\",")
  }

  lemma PlainTextHoldsNoRoute(v: string)
    requires Plain(v)
    ensures RoutesInText(v) == []
  {
    var s := "\"" + v + "\",";
    forall verb <- VERBS
      ensures MatchVerb(s, verb).None?
    {
      var open := "\"" + verb + " /";
      VerbsAreVerbs();
      if open <= s {
        assert s == ("\"" + v) + "\"" + ",";
        OpenLocal("\"" + v, ",", verb);
        var value := ("\"" + v)[|verb| + 2..];
        assert s[|verb| + 2..] == value + "\"" + ",";
        assert Plain(value);
        IndexOfLocal(value, ",");
      }
    }
    NoneMatch(s, VERBS);
    assert s[1..] == v + "\",";
    SkipPlain(v, "\",");
    ClosingQuote();
  }

  lemma {:induction false} NoneMatch(s: string, verbs: seq<string>)
    requires forall verb <- verbs :: MatchVerb(s, verb).None?
    ensures MatchAny(s, verbs).None?
  {
    if verbs != [] {
      NoneMatch(s, verbs[1..]);
    }
  }

  lemma ClosingQuote()
    ensures FindAll("\",") == []
  {}

  // ------------------------------------------------------------------ a key is read back as printed

  // A verb can only match a text that starts with that very verb.
  lemma VerbIsUnique(verb: string, other: string, rest: string)
    requires ' ' !in verb && ' ' !in other && "\"" + other + " /" <= "\"" + verb + " " + rest
    ensures other == verb
  {
    var s, open := "\"" + verb + " " + rest, "\"" + other + " /";
    assert s[|verb| + 1] == ' ' && open[|other| + 1] == ' ' && forall i | 0 <= i < |open| :: s[i] == open[i];
    assert forall i | 0 <= i < |verb| :: s[i + 1] == verb[i];
    assert forall i | 0 <= i < |other| :: open[i + 1] == other[i];
  }

  lemma MatchOwnVerb(verb: string, path: string, rest: string)
    requires path != "" && path[0] == '/' && Plain(path)
    ensures MatchVerb("\"" + verb + " " + path + KEY_END + rest, verb) ==
            Some((Route(verb, path), |verb| + 2 + |path| + |KEY_END|))
  {
    var s := "\"" + verb + " " + path + KEY_END + rest;
    var open := "\"" + verb + " /";
    assert s[..|open|] == open;
    var tail := s[|verb| + 2..];
    assert tail == path + "\"" + (": {" + rest);
    IndexOfLocal(path, ": {" + rest);
    assert tail[|path|..] == KEY_END + rest;
    assert tail[..|path|] == path;
  }

  lemma {:induction false} MatchKey(verb: string, path: string, rest: string, verbs: seq<string>)
    requires verb in verbs && (forall v <- verbs :: ' ' !in v) && path != "" && path[0] == '/' && Plain(path)
    ensures MatchAny("\"" + verb + " " + path + KEY_END + rest, verbs) ==
            Some((Route(verb, path), |verb| + 2 + |path| + |KEY_END|))
  {
    var s := "\"" + verb + " " + path + KEY_END + rest;
    MatchOwnVerb(verb, path, rest);
    if verbs[0] != verb {
      if "\"" + verbs[0] + " /" <= s {
        assert s == "\"" + verb + " " + (path + KEY_END + rest);
        VerbIsUnique(verb, verbs[0], path + KEY_END + rest);
      }
      MatchKey(verb, path, rest, verbs[1..]);
    }
  }

  lemma TakeKey(verb: string, path: string, rest: string)
    requires verb in VERBS && path != "" && path[0] == '/' && Plain(path)
    ensures FindAll(KeyLine(verb, path) + rest) == [Route(verb, path)] + FindAll(rest)
  {
    hide FindAll, MatchAny;
    var s := "\"" + verb + " " + path + KEY_END + rest;
    assert KeyLine(verb, path) + rest == "    " + s;
    SkipPlain("    ", s);
    MatchKey(verb, path, rest, VERBS);
    FindAllTakes(s);
    assert s[|verb| + 2 + |path| + |KEY_END|..] == rest;
  }

  // ------------------------------------------------------------------ whole lines

  // Whatever follows it, the text contributes exactly these routes.
  ghost predicate Yields(text: string, routes: seq<Route>) {
    forall rest: string :: FindAll(text + rest) == routes + FindAll(rest)
  }

  lemma YieldsAppend(a: string, ra: seq<Route>, b: string, rb: seq<Route>)
    requires Yields(a, ra) && Yields(b, rb)
    ensures Yields(a + b, ra + rb)
  {
    hide FindAll;
    forall rest: string
      ensures FindAll(a + b + rest) == ra + rb + FindAll(rest)
    {
      assert a + b + rest == a + (b + rest);
      assert ra + rb + FindAll(rest) == ra + (rb + FindAll(rest));
    }
  }

  lemma PlainYields(s: string)
    requires Plain(s)
    ensures Yields(s, [])
  {
    hide FindAll;
    forall rest: string
      ensures FindAll(s + rest) == [] + FindAll(rest)
    {
      SkipPlain(s, rest);
    }
  }

  lemma QuotedYields(name: string, v: string)
    requires Plain(name)
    ensures Yields(Quoted(name, v), RoutesInText(v))
  {
    hide FindAll;
    forall rest: string
      ensures FindAll(Quoted(name, v) + rest) == RoutesInText(v) + FindAll(rest)
    {
      var prefix := "        " + name + ": ";
      assert Quoted(name, v) + rest == prefix + ("\"" + v + "\"," + rest);
      SkipPlain(prefix, "\"" + v + "\"," + rest);
      ScanValue("\"" + v, rest);
    }
  }

  lemma KeyYields(verb: string, path: string)
    requires verb in VERBS && path != "" && path[0] == '/' && Plain(path)
    ensures Yields(KeyLine(verb, path), [Route(verb, path)])
  {
    hide FindAll;
    forall rest: string
      ensures FindAll(KeyLine(verb, path) + rest) == [Route(verb, path)] + FindAll(rest)
    {
      TakeKey(verb, path, rest);
    }
  }

  ghost predicate LinesYield(lines: seq<string>, routes: seq<Route>) {
    Yields(Join("\n", lines), routes)
  }

  lemma {:induction false} JoinAppend(a: seq<string>, b: seq<string>)
    requires a != [] && b != []
    ensures Join("\n", a + b) == Join("\n", a) + "\n" + Join("\n", b)
  {
    if |a| == 1 {
      assert (a + b)[1..] == b;
    } else {
      assert (a + b)[1..] == a[1..] + b;
      JoinAppend(a[1..], b);
      calc {
        Join("\n", a + b);
        a[0] + "\n" + (Join("\n", a[1..]) + "\n" + Join("\n", b));
        (a[0] + "\n" + Join("\n", a[1..])) + "\n" + Join("\n", b);
      }
    }
  }

  lemma LinesAppend(a: seq<string>, ra: seq<Route>, b: seq<string>, rb: seq<Route>)
    requires LinesYield(a, ra) && LinesYield(b, rb)
    ensures LinesYield(a + b, ra + rb)
  {
    hide FindAll;
    if a == [] {
      assert a + b == b;
      EmptyYields(ra);
      assert ra + rb == rb;
    } else if b == [] {
      assert a + b == a;
      EmptyYields(rb);
      assert ra + rb == ra;
    } else {
      JoinAppend(a, b);
      PlainYields("\n");
      YieldsAppend(Join("\n", a), ra, "\n", []);
      YieldsAppend(Join("\n", a) + "\n", ra + [], Join("\n", b), rb);
      assert ra + [] + rb == ra + rb;
    }
  }

  lemma EmptyYields(routes: seq<Route>)
    requires LinesYield([], routes)
    ensures routes == []
  {
    hide FindAll;
    EmptyText();
    assert Join("\n", []) + "" == "";
    assert FindAll(Join("\n", []) + "") == routes + FindAll("");
  }

  lemma LineYields(line: string, routes: seq<Route>)
    requires Yields(line, routes)
    ensures LinesYield([line], routes)
  {}

  lemma NoLinesYield()
    ensures LinesYield([], [])
  {
    PlainYields("");
  }

  lemma {:induction false} JoinFixed(separator: string, parts: seq<string>)
    requires Fixed(separator) && forall i | 0 <= i < |parts| :: Fixed(parts[i])
    ensures Fixed(Join(separator, parts))
  {
    if |parts| > 1 {
      JoinFixed(separator, parts[1..]);
    }
  }

  // ------------------------------------------------------------------ policies

  ghost predicate Readable(p: Policy) {
    Printable(p) && Plain(p.path) && p.path != "" && p.path[0] == '/'
  }

  function AuthzTextRoutes(p: Policy): seq<Route> {
    if p.source == "generated" then RoutesInText(p.version) + RoutesInText(p.resource) + RoutesInText(p.action) else []
  }

  // The routes found in the texts that a policy carries; only its path has to be free of quotes.
  function TextRoutes(p: Policy): seq<Route> {
    RoutesInText(p.operationId) + AuthzTextRoutes(p)
  }

  lemma PlainLine(line: string)
    requires Plain(line)
    ensures LinesYield([line], [])
  {
    PlainYields(line);
  }

  lemma QuotedLine(name: string, v: string)
    requires Plain(name)
    ensures LinesYield([Quoted(name, v)], RoutesInText(v))
  {
    QuotedYields(name, v);
  }

  function Head(p: Policy): seq<string> {
    [KeyLine(p.verb, p.path)] + ["        Source: " + GoSource(p.source) + ","]
    + [Quoted("OperationID", p.operationId)] + [Quoted("Method", p.verb)] + [Quoted("PathTemplate", p.path)]
  }

  function SecurityPart(p: Policy): seq<string> {
    if p.security == [] then []
    else [SECURITY_OPEN + Join(", ", SecurityItems(p.security)) + "},"]
  }

  function GeneratedPart(p: Policy): seq<string> {
    if p.source != "generated" then []
    else [Quoted("Version", p.version)] + [Quoted("Resource", p.resource)] + [Quoted("Action", p.action)]
         + ["        Boundary: " + GoBoundary(p.boundary) + ","]
         + [KINDS_OPEN + Join(", ", KindItems(p.kinds)) + "},"]
  }

  lemma HeadYields(p: Policy)
    requires Readable(p)
    ensures LinesYield(Head(p), [Route(p.verb, p.path)] + RoutesInText(p.operationId))
  {
    hide FindAll, Yields, LinesYield, RoutesInText, KeyLine, Quoted, GoSource, Plain, Fixed;
    var route, found, none: seq<Route> := [Route(p.verb, p.path)], RoutesInText(p.operationId), [];
    var key, source, id, verb, path := [KeyLine(p.verb, p.path)], ["        Source: " + GoSource(p.source) + ","],
        [Quoted("OperationID", p.operationId)], [Quoted("Method", p.verb)], [Quoted("PathTemplate", p.path)];
    KeyYields(p.verb, p.path);
    LineYields(KeyLine(p.verb, p.path), route);
    SourceYields(p.source);
    NamesArePlain(p.verb);
    QuotedLine("OperationID", p.operationId);
    PlainQuoted("Method", p.verb);
    PlainQuoted("PathTemplate", p.path);
    LinesAppend(key, route, source, none);
    LinesAppend(key + source, route + none, id, found);
    LinesAppend(key + source + id, route + none + found, verb, none);
    LinesAppend(key + source + id + verb, route + none + found + none, path, none);
    assert route + none + found + none + none == route + found;
  }

  lemma NamesArePlain(verb: string)
    requires verb in VERBS
    ensures Plain("OperationID") && Plain("Method") && Plain("PathTemplate") && Plain(verb)
  {
    hide VERBS;
    VerbsAreVerbs();
  }

  lemma SourceNameFixed(source: string)
    ensures Fixed(GoSource(source)) && Fixed("        Source: ")
  {}

  lemma SourceFixed(source: string)
    ensures Fixed("        Source: " + GoSource(source) + ",")
  {
    hide Fixed;
    SourceNameFixed(source);
    Literals();
    WrapFixed("        Source: ", GoSource(source), ",");
  }

  lemma SourceYields(source: string)
    ensures LinesYield(["        Source: " + GoSource(source) + ","], [])
  {
    hide Fixed, LinesYield;
    SourceFixed(source);
    FixedLine("        Source: " + GoSource(source) + ",");
  }

  lemma PlainQuoted(name: string, v: string)
    requires Plain(name) && Plain(v)
    ensures LinesYield([Quoted(name, v)], [])
  {
    QuotedLine(name, v);
    PlainTextHoldsNoRoute(v);
  }

  lemma WrapFixed(a: string, b: string, c: string)
    requires Fixed(a) && Fixed(b) && Fixed(c)
    ensures Fixed(a + b + c)
  {}

  lemma SchemeNameFixed(scheme: string)
    ensures Fixed(GoScheme(scheme))
  {}

  lemma SchemeOpenFixed()
    ensures Fixed(SCHEME_OPEN) && Fixed("}}")
  {
    BothFixed("{AllOf: []", "OpenAPISecurityScheme{");
  }

  lemma SchemeItemsFixed(security: seq<string>)
    ensures |SecurityItems(security)| == |security|
    ensures forall i | 0 <= i < |SecurityItems(security)| :: Fixed(SecurityItems(security)[i])
  {
    hide Fixed, GoScheme, SCHEME_OPEN;
    SchemeOpenFixed();
    forall i | 0 <= i < |security|
      ensures Fixed(SecurityItems(security)[i])
    {
      SchemeNameFixed(security[i]);
      WrapFixed(SCHEME_OPEN, GoScheme(security[i]), "}}");
    }
  }

  lemma SecurityFixed(security: seq<string>)
    ensures Fixed(SECURITY_OPEN + Join(", ", SecurityItems(security)) + "},")
  {
    hide SecurityItems, Fixed;
    SchemeItemsFixed(security);
    Literals();
    SecurityOpenFixed();
    JoinFixed(", ", SecurityItems(security));
    WrapFixed(SECURITY_OPEN, Join(", ", SecurityItems(security)), "},");
  }

  lemma FixedLine(line: string)
    requires Fixed(line)
    ensures LinesYield([line], [])
  {
    PlainLine(line);
  }

  lemma SecurityYields(p: Policy)
    ensures LinesYield(SecurityPart(p), [])
  {
    hide FindAll, Yields, LinesYield, SecurityItems, Fixed;
    if p.security == [] {
      NoLinesYield();
    } else {
      SecurityFixed(p.security);
      FixedLine(SECURITY_OPEN + Join(", ", SecurityItems(p.security)) + "},");
    }
  }

  lemma BothFixed(a: string, b: string)
    requires Fixed(a) && Fixed(b)
    ensures Fixed(a + b)
  {}

  lemma Literals()
    ensures Fixed(", ") && Fixed("},") && Fixed(",") && Fixed("        Boundary: ")
  {}

  lemma KindsOpenFixed()
    ensures Fixed(KINDS_OPEN)
  {
    BothFixed("        PrincipalKinds: []", "PrincipalKind{");
  }

  lemma SecurityOpenFixed()
    ensures Fixed(SECURITY_OPEN)
  {
    hide Fixed;
    SecurityStart();
    SecurityEnd();
    BothFixed("        SecurityAlternatives: ", "[]SecurityRequirement{");
  }

  lemma SecurityStart()
    ensures Fixed("        SecurityAlternatives: ")
  {}

  lemma SecurityEnd()
    ensures Fixed("[]SecurityRequirement{")
  {}

  lemma KindItemsFixed(kinds: seq<string>)
    ensures forall i | 0 <= i < |KindItems(kinds)| :: Fixed(KindItems(kinds)[i])
  {}

  lemma KindsFixed(kinds: seq<string>)
    ensures Fixed(KINDS_OPEN + Join(", ", KindItems(kinds)) + "},")
  {
    hide KindItems, Fixed;
    KindItemsFixed(kinds);
    Literals();
    KindsOpenFixed();
    JoinFixed(", ", KindItems(kinds));
    WrapFixed(KINDS_OPEN, Join(", ", KindItems(kinds)), "},");
  }

  lemma BoundaryFixed(boundary: string)
    ensures Fixed("        Boundary: " + GoBoundary(boundary) + ",")
  {
    Literals();
    WrapFixed("        Boundary: ", GoBoundary(boundary), ",");
  }

  lemma KindsYield(kinds: seq<string>)
    ensures LinesYield([KINDS_OPEN + Join(", ", KindItems(kinds)) + "},"], [])
  {
    hide FindAll, Yields, LinesYield, KindItems, Fixed;
    KindsFixed(kinds);
    FixedLine(KINDS_OPEN + Join(", ", KindItems(kinds)) + "},");
  }

  lemma BoundaryYields(boundary: string)
    ensures LinesYield(["        Boundary: " + GoBoundary(boundary) + ","], [])
  {
    hide FindAll, Yields, LinesYield, Fixed;
    BoundaryFixed(boundary);
    FixedLine("        Boundary: " + GoBoundary(boundary) + ",");
  }

  lemma GeneratedYields(p: Policy)
    requires Readable(p)
    ensures LinesYield(GeneratedPart(p), AuthzTextRoutes(p))
  {
    hide FindAll, Yields, LinesYield, Join, KindItems, GoBoundary, RoutesInText;
    if p.source != "generated" {
      NoLinesYield();
    } else {
      var version, resource, action := [Quoted("Version", p.version)], [Quoted("Resource", p.resource)],
          [Quoted("Action", p.action)];
      var boundary := ["        Boundary: " + GoBoundary(p.boundary) + ","];
      var kinds := [KINDS_OPEN + Join(", ", KindItems(p.kinds)) + "},"];
      QuotedLine("Version", p.version);
      QuotedLine("Resource", p.resource);
      QuotedLine("Action", p.action);
      BoundaryYields(p.boundary);
      KindsYield(p.kinds);
      var v, r, a, none: seq<Route> := RoutesInText(p.version), RoutesInText(p.resource), RoutesInText(p.action), [];
      LinesAppend(version, v, resource, r);
      LinesAppend(version + resource, v + r, action, a);
      LinesAppend(version + resource + action, v + r + a, boundary, none);
      LinesAppend(version + resource + action + boundary, v + r + a + none, kinds, none);
      assert v + r + a + none + none == AuthzTextRoutes(p);
    }
  }

  function RoutesOf(p: Policy): seq<Route> {
    [Route(p.verb, p.path)] + TextRoutes(p)
  }

  lemma PolicyParts(p: Policy)
    ensures RenderPolicyLines(p) == Head(p) + SecurityPart(p) + GeneratedPart(p) + ["    },"]
  {
    hide KeyLine, Quoted, GoSource, GoBoundary, Join;
  }

  lemma PolicyYields(p: Policy)
    requires Readable(p)
    ensures LinesYield(RenderPolicyLines(p), RoutesOf(p))
  {
    hide FindAll, Yields, LinesYield, RoutesInText, AuthzTextRoutes, RenderPolicyLines, Head, SecurityPart,
         GeneratedPart;
    var route, none: seq<Route> := [Route(p.verb, p.path)] + RoutesInText(p.operationId), [];
    var rest := AuthzTextRoutes(p);
    HeadYields(p);
    SecurityYields(p);
    GeneratedYields(p);
    PlainLine("    },");
    LinesAppend(Head(p), route, SecurityPart(p), none);
    LinesAppend(Head(p) + SecurityPart(p), route + none, GeneratedPart(p), rest);
    LinesAppend(Head(p) + SecurityPart(p) + GeneratedPart(p), route + none + rest, ["    },"], none);
    assert route + none + rest + none == [Route(p.verb, p.path)] + (RoutesInText(p.operationId) + rest);
    PolicyParts(p);
  }

  function AllRoutes(policies: seq<Policy>): seq<Route> {
    if policies == [] then [] else RoutesOf(policies[0]) + AllRoutes(policies[1..])
  }

  lemma {:induction false} PoliciesYield(policies: seq<Policy>)
    requires forall i | 0 <= i < |policies| :: Readable(policies[i])
    ensures LinesYield(RenderPolicies(policies), AllRoutes(policies))
  {
    hide FindAll, Yields, LinesYield, RoutesOf;
    if policies == [] {
      NoLinesYield();
    } else {
      PolicyYields(policies[0]);
      PoliciesYield(policies[1..]);
      LinesAppend(RenderPolicyLines(policies[0]), RoutesOf(policies[0]), RenderPolicies(policies[1..]),
                  AllRoutes(policies[1..]));
    }
  }

  lemma HeaderCommentFixed()
    ensures Fixed(HEADER_COMMENT)
  {
    hide Fixed;
    CommentStart();
    CommentEnd();
    BothFixed("// Code generated by ", "scripts/");
    BothFixed("// Code generated by " + "scripts/", "generate_gateway_authz.py");
    BothFixed("// Code generated by " + "scripts/" + "generate_gateway_authz.py", "; DO NOT EDIT.");
  }

  lemma CommentStart()
    ensures Fixed("// Code generated by ") && Fixed("scripts/")
  {}

  lemma CommentEnd()
    ensures Fixed("generate_gateway_authz.py") && Fixed("; DO NOT EDIT.")
  {}

  lemma HeaderOpenFixed()
    ensures Fixed(HEADER_OPEN)
  {
    hide Fixed;
    HeaderStart();
    HeaderEnd();
    BothFixed("var generatedCorePolicies", " = map[string]Policy{");
  }

  lemma HeaderStart()
    ensures Fixed("var generatedCorePolicies")
  {}

  lemma HeaderEnd()
    ensures Fixed(" = map[string]Policy{")
  {}

  lemma HeaderYields()
    ensures LinesYield(HEADER, []) && LinesYield(["}", ""], [])
  {
    hide Join, FindAll, Yields, HEADER_COMMENT, HEADER_OPEN;
    HeaderCommentFixed();
    HeaderOpenFixed();
    JoinFixed("\n", HEADER);
    PlainYields(Join("\n", HEADER));
    JoinFixed("\n", ["}", ""]);
    PlainYields(Join("\n", ["}", ""]));
  }

  // Reading the printed registry yields one route per policy, in order, and whatever keys the policy's
  // own texts spell out.
  lemma PrintedRegistryReadsBack(policies: seq<Policy>)
    requires forall i | 0 <= i < |policies| :: Readable(policies[i])
    ensures FindAll(RenderGo(policies)) == AllRoutes(policies)
  {
    hide FindAll, HEADER, RenderPolicies, AllRoutes, Join;
    var none: seq<Route> := [];
    HeaderYields();
    PoliciesYield(policies);
    LinesAppend(HEADER, none, RenderPolicies(policies), AllRoutes(policies));
    LinesAppend(HEADER + RenderPolicies(policies), none + AllRoutes(policies), ["}", ""], none);
    EmptyText();
    assert RenderGo(policies) + "" == RenderGo(policies);
    assert none + AllRoutes(policies) + none + none == AllRoutes(policies);
  }
}
