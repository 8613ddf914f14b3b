/** The round trip of the registry: collected from the document, printed to a file, read back as text. */
module RegistryRoundTrip {
  import opened Options
  import opened Registry
  import opened RegistryProofs
  import opened RegistryNewlines
  import opened RegistryCollector

  // What a registry freshly generated from the document is reported as missing.
  function MissingRoutes(spec: Spec, policies: seq<Policy>): set<Route> {
    OpenapiRoutes(spec) - GeneratedRoutes(RenderGo(policies))
  }

  // Every path that declares an operation is free of quotes and carriage returns.
  ghost predicate PathsAreClean(spec: Spec) {
    forall item: Item | Declares(spec, item) :: Fixed(item.0)
  }

  ghost predicate Generated(spec: Spec, order: seq<string>, policies: seq<Policy>) {
    Enumerates(order, spec) && Collected(spec, ItemsOf(spec, order, |order|), policies)
  }

  // ------------------------------------------------------------------ the routes of the document

  lemma RouteOfItem(spec: Spec, route: Route)
    ensures route in OpenapiRoutes(spec) <==>
            exists item: Item :: Declares(spec, item) && spec.paths[item.0].value[item.1].Some?
                                 && route == Route(Verb(item.1), GatewayPath(item.0))
  {
    hide HTTP_METHODS, Verb, GatewayPath;
    if route in OpenapiRoutes(spec) {
      var path, m :| path in spec.paths && spec.paths[path].Some? && m in HTTP_METHODS && m in spec.paths[path].value
                     && spec.paths[path].value[m].Some? && route == Route(Verb(m), GatewayPath(path));
      assert Declares(spec, (path, m));
    }
  }

  lemma ItemOfRoute(spec: Spec, route: Route) returns (item: Item)
    requires route in OpenapiRoutes(spec)
    ensures Declares(spec, item) && route == Route(Verb(item.1), GatewayPath(item.0))
  {
    hide OpenapiRoutes, HTTP_METHODS, Verb, GatewayPath;
    RouteOfItem(spec, route);
    item :| Declares(spec, item) && spec.paths[item.0].value[item.1].Some?
        && route == Route(Verb(item.1), GatewayPath(item.0));
  }

  lemma PolicyOfItem(spec: Spec, order: seq<string>, policies: seq<Policy>, item: Item) returns (p: Policy)
    requires Generated(spec, order, policies) && Declares(spec, item)
    ensures p in policies && ClassifyItem(spec, item) == Ok(p)
  {
    hide ItemsOf, ClassifyItem, HTTP_METHODS;
    var items := ItemsOf(spec, order, |order|);
    ItemsAreTheDeclared(spec, order, |order|);
    assert order[..|order|] == order;
    assert item in items;
    var k :| 0 <= k < |items| && items[k] == item;
    p := policies[k];
  }

  lemma ItemOfPolicy(spec: Spec, order: seq<string>, policies: seq<Policy>, p: Policy) returns (item: Item)
    requires Generated(spec, order, policies) && p in policies
    ensures Declares(spec, item) && ClassifyItem(spec, item) == Ok(p)
  {
    hide ItemsOf, ClassifyItem, Declares, HTTP_METHODS;
    var k :| 0 <= k < |policies| && policies[k] == p;
    item := ItemsOf(spec, order, |order|)[k];
  }

  lemma ClassifiedRoute(spec: Spec, item: Item, p: Policy)
    requires Declares(spec, item) && ClassifyItem(spec, item) == Ok(p)
    ensures Route(p.verb, p.path) == Route(Verb(item.1), GatewayPath(item.0))
            && Route(p.verb, p.path) in OpenapiRoutes(spec)
    ensures Printable(p) && p.path != "" && p.path[0] == '/' && (Fixed(p.path) <==> Fixed(item.0))
            && (Plain(p.path) <==> Plain(item.0))
  {
    hide HTTP_METHODS, Verb, OpenapiRoutes;
    RouteOfItem(spec, Route(Verb(item.1), GatewayPath(item.0)));
    GatewayPathKeeps(item.0);
  }

  lemma GatewayPathKeeps(path: string)
    ensures (Plain(path) <==> Plain(GatewayPath(path))) && (Fixed(path) <==> Fixed(GatewayPath(path)))
    ensures GatewayPath(path) != "" && GatewayPath(path)[0] == '/'
  {
    assert path in ROOT_INFRASTRUCTURE_PATHS ==> Fixed(path);
    assert Fixed("/api/v1");
  }

  // The collected policies are the routes of the document.
  lemma PoliciesAreTheRoutes(spec: Spec, order: seq<string>, policies: seq<Policy>, route: Route)
    requires Generated(spec, order, policies)
    ensures route in OpenapiRoutes(spec) <==> exists p <- policies :: route == Route(p.verb, p.path)
  {
    hide Generated, OpenapiRoutes, ClassifyItem, Declares;
    if route in OpenapiRoutes(spec) {
      var item := ItemOfRoute(spec, route);
      var p := PolicyOfItem(spec, order, policies, item);
      ClassifiedRoute(spec, item, p);
    }
    if p :| p in policies && route == Route(p.verb, p.path) {
      var item := ItemOfPolicy(spec, order, policies, p);
      ClassifiedRoute(spec, item, p);
    }
  }

  // ------------------------------------------------------------------ what reading can find

  // No path that is read holds a quote, nor a carriage return unless the text does.
  lemma {:induction false} ReadPathsAreClean(s: string)
    ensures forall route <- FindAll(s) :: Plain(route.path) && ('\r' !in s ==> Fixed(route.path))
    decreases |s|
  {
    hide MatchAny, VERBS, FindAll;
    EmptyText();
    if s != "" {
      FindAllTakes(s);
      if MatchAny(s, VERBS).Some? {
        MatchedPathIsClean(s, VERBS);
        ReadPathsAreClean(s[MatchAny(s, VERBS).value.1..]);
      } else {
        ReadPathsAreClean(s[1..]);
      }
    }
  }

  lemma {:induction false} MatchedPathIsClean(s: string, verbs: seq<string>)
    ensures MatchAny(s, verbs).Some? ==> Plain(MatchAny(s, verbs).value.0.path)
    ensures MatchAny(s, verbs).Some? && '\r' !in s ==> Fixed(MatchAny(s, verbs).value.0.path)
  {
    if verbs != [] {
      MatchedPathIsClean(s, verbs[1..]);
    }
  }

  lemma GeneratedRoutesAreClean(file: string)
    ensures forall route <- GeneratedRoutes(file) :: Fixed(route.path)
  {
    hide FindAll, ReadText;
    ReadTextClean(file);
    ReadPathsAreClean(ReadText(file));
  }

  // ------------------------------------------------------------------ the round trip

  lemma {:induction false} InAllRoutes(policies: seq<Policy>, route: Route)
    ensures route in AllRoutes(policies) <==> exists p <- policies :: route in RoutesOf(p)
  {
    hide RoutesOf;
    if policies != [] {
      InAllRoutes(policies[1..], route);
      assert policies == [policies[0]] + policies[1..];
    }
  }

  // The routes that the texts of a policy spell out, as they are read.
  function TextsRead(p: Policy): seq<Route> {
    TextRoutes(Translated(p))
  }

  // A fresh registry is read back as the translated routes of its policies and what their texts spell out.
  lemma FreshRegistryReads(spec: Spec, order: seq<string>, policies: seq<Policy>, route: Route)
    requires Generated(spec, order, policies) && forall item: Item | Declares(spec, item) :: Plain(item.0)
    ensures route in GeneratedRoutes(RenderGo(policies)) <==>
            exists p <- policies :: route == Route(p.verb, ReadText(p.path)) || route in TextsRead(p)
  {
    hide FindAll, RenderGo, TextRoutes, AllRoutes, ReadText, Generated, ClassifyItem, Declares, TranslatedAll,
         Printable;
    var read := TranslatedAll(policies);
    TranslatedEach(policies);
    forall i | 0 <= i < |policies|
      ensures policies[i].verb in VERBS && Readable(read[i])
    {
      var item := ItemOfPolicy(spec, order, policies, policies[i]);
      ClassifiedRoute(spec, item, policies[i]);
      TranslatedIsReadable(policies[i]);
    }
    ReadRegistry(policies);
    PrintedRegistryReadsBack(read);
    InAllRoutes(read, route);
    if p :| p in read && route in RoutesOf(p) {
      var i :| 0 <= i < |read| && read[i] == p;
      assert policies[i] in policies;
    }
    if p :| p in policies && (route == Route(p.verb, ReadText(p.path)) || route in TextsRead(p)) {
      var i :| 0 <= i < |policies| && policies[i] == p;
      assert read[i] in read && route in RoutesOf(read[i]);
    }
  }

  lemma TranslatedEach(policies: seq<Policy>)
    ensures |TranslatedAll(policies)| == |policies|
    ensures forall i | 0 <= i < |policies| :: TranslatedAll(policies)[i] == Translated(policies[i])
  {}

  lemma TranslatedIsReadable(p: Policy)
    requires Printable(p) && Plain(p.path) && p.path != "" && p.path[0] == '/'
    ensures p.verb in VERBS && Readable(Translated(p))
  {
    ReadTextClean(p.path);
    ReadStep(p.path);
  }

  // With clean paths: exactly the routes of the document and those spelled out in policy texts.
  lemma FreshRegistryReadsBack(spec: Spec, order: seq<string>, policies: seq<Policy>)
    requires Generated(spec, order, policies) && PathsAreClean(spec)
    ensures GeneratedRoutes(RenderGo(policies)) == OpenapiRoutes(spec) + (set p <- policies, r <- TextsRead(p) :: r)
  {
    hide GeneratedRoutes, RenderGo, TextsRead, Generated, OpenapiRoutes, ClassifyItem, Declares, ReadText;
    forall p <- policies
      ensures ReadText(p.path) == p.path
    {
      var item := ItemOfPolicy(spec, order, policies, p);
      ClassifiedRoute(spec, item, p);
      ReadTextClean(p.path);
    }
    forall route
      ensures route in GeneratedRoutes(RenderGo(policies)) <==>
              route in OpenapiRoutes(spec) || exists p <- policies :: route in TextsRead(p)
    {
      FreshRegistryReads(spec, order, policies, route);
      PoliciesAreTheRoutes(spec, order, policies, route);
    }
  }

  // A declared path with a quote or a carriage return is always reported as missing.
  lemma UncleanPathIsMissing(spec: Spec, order: seq<string>, policies: seq<Policy>, item: Item)
    requires Generated(spec, order, policies) && Declares(spec, item) && !Fixed(item.0)
    ensures Route(Verb(item.1), GatewayPath(item.0)) in MissingRoutes(spec, policies)
  {
    hide GeneratedRoutes, RenderGo, Generated, OpenapiRoutes, ClassifyItem, Fixed;
    var p := PolicyOfItem(spec, order, policies, item);
    ClassifiedRoute(spec, item, p);
    GeneratedRoutesAreClean(RenderGo(policies));
  }

  // The "route missing" error is reported of a fresh registry exactly when some declared path holds a quote or
  // a carriage return.
  lemma FreshRegistryMissesNothing(spec: Spec, order: seq<string>, policies: seq<Policy>)
    requires Generated(spec, order, policies)
    ensures MissingRoutes(spec, policies) == {} <==> PathsAreClean(spec)
  {
    hide GeneratedRoutes, RenderGo, TextsRead, Generated, OpenapiRoutes, Declares, Fixed;
    if PathsAreClean(spec) {
      FreshRegistryReadsBack(spec, order, policies);
    } else {
      var item: Item :| Declares(spec, item) && !Fixed(item.0);
      UncleanPathIsMissing(spec, order, policies, item);
    }
  }

  // The round trip, exactly: declared paths are clean and no policy text, as it is read, spells out a key the
  // document does not declare.
  lemma RoundTripExactly(spec: Spec, order: seq<string>, policies: seq<Policy>)
    requires Generated(spec, order, policies)
    ensures GeneratedRoutes(RenderGo(policies)) == OpenapiRoutes(spec) <==>
            PathsAreClean(spec) && forall p <- policies, r <- TextsRead(p) :: r in OpenapiRoutes(spec)
  {
    hide GeneratedRoutes, RenderGo, TextsRead, Generated, OpenapiRoutes, PathsAreClean;
    if PathsAreClean(spec) {
      FreshRegistryReadsBack(spec, order, policies);
    } else {
      FreshRegistryMissesNothing(spec, order, policies);
    }
  }

  // In particular every document with clean paths and texts without quotes makes the round trip.
  lemma QuoteFreeRoundTrip(spec: Spec, order: seq<string>, policies: seq<Policy>)
    requires Generated(spec, order, policies) && PathsAreClean(spec)
    requires forall p <- policies :: Plain(p.operationId) && Plain(p.version) && Plain(p.resource) && Plain(p.action)
    ensures GeneratedRoutes(RenderGo(policies)) == OpenapiRoutes(spec)
  {
    hide RoutesInText, RenderGo, GeneratedRoutes, Generated, ReadText, OpenapiRoutes, Plain;
    forall p <- policies
      ensures TextsRead(p) == []
    {
      ReadTextIsPlain(p.operationId);
      ReadTextIsPlain(p.version);
      ReadTextIsPlain(p.resource);
      ReadTextIsPlain(p.action);
    }
    RoundTripExactly(spec, order, policies);
  }

  lemma ReadTextIsPlain(v: string)
    requires Plain(v)
    ensures RoutesInText(ReadText(v)) == []
  {
    ReadTextClean(v);
    PlainTextHoldsNoRoute(ReadText(v));
  }

  // ------------------------------------------------------------------ small documents

  // One public operation under the given path.
  function OnePath(path: string): Spec {
    Spec(Requirements([]), map[path := Some(map["get" := Some(Operation(Some("a"), None, None))])])
  }

  lemma OnePathIsGenerated(path: string)
    ensures Generated(OnePath(path), [path], [Policy("public", "a", "GET", GatewayPath(path), [], "", "", "", "", [])])
    ensures forall item: Item :: Declares(OnePath(path), item) <==> item == (path, "get")
  {
    var spec, item := OnePath(path), (path, "get");
    assert "get" in HTTP_METHODS;
    var items := ItemsOf(spec, [path], 1);
    ItemsAreTheDeclared(spec, [path], 1);
    assert [path][..1] == [path];
    OnlyOnce(items, item);
  }

  lemma OnlyOnce(items: seq<Item>, item: Item)
    requires item in items && (forall i | 0 <= i < |items| :: items[i] == item)
    requires forall i, j | 0 <= i < j < |items| :: items[i] != items[j]
    ensures items == [item]
  {
    if |items| > 1 {
      Differ(items, 0, 1);
    }
  }

  lemma Differ(items: seq<Item>, i: nat, j: nat)
    requires i < j < |items| && forall k, l | 0 <= k < l < |items| :: items[k] != items[l]
    ensures items[i] != items[j]
  {}

  // Its route is read back exactly when the path is clean; a carriage return and a quote both lose it.
  lemma OnePathRoundTrip(path: string)
    ensures MissingRoutes(OnePath(path), [Policy("public", "a", "GET", GatewayPath(path), [], "", "", "", "", [])])
            == {}
            <==> Fixed(path)
  {
    hide MissingRoutes, Generated, Declares, Fixed;
    OnePathIsGenerated(path);
    var policies := [Policy("public", "a", "GET", GatewayPath(path), [], "", "", "", "", [])];
    FreshRegistryMissesNothing(OnePath(path), [path], policies);
    assert Declares(OnePath(path), (path, "get"));
  }

  lemma CarriageReturnPathIsMissing()
    ensures !Fixed("/a\rb") && !Fixed("/a\"b")
    ensures MissingRoutes(OnePath("/a\rb"),
            [Policy("public", "a", "GET", GatewayPath("/a\rb"), [], "", "", "", "", [])]) != {}
    ensures MissingRoutes(OnePath("/a\"b"),
            [Policy("public", "a", "GET", GatewayPath("/a\"b"), [], "", "", "", "", [])]) != {}
  {
    hide MissingRoutes, GatewayPath;
    assert "/a\rb"[2] == '\r' && "/a\"b"[2] == '"';
    OnePathRoundTrip("/a\rb");
    OnePathRoundTrip("/a\"b");
  }

  // Quotes in a text do matter: this operation id is read back as a route.
  lemma QuotedIdIsReadAsRoute()
    ensures RoutesInText("GET /a\": {") == [Route("GET", "/a")]
  {
    hide FindAll;
    var s := "\"" + "GET /a\": {" + "\",";
    assert KeyLine("GET", "/a") + "\"," == "    " + s;
    TakeKey("GET", "/a", "\",");
    SkipPlain("    ", s);
    ClosingQuote();
  }
}
