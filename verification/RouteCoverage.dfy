/** The route coverage gate: registered gateway routes against the registry, and the registry against the
    document. */
module RouteCoverage {
  import opened Registry
  import opened RegistryCollector
  import opened RegistryRoundTrip

  const CORE_PREFIX := "/api/v1/"
  const OUT_OF_SCOPE_PREFIXES := ["/api/v1/svc/", "/v1/", "/api/v1/demo/"]
  const ROOT_INFRASTRUCTURE := {"/healthz", "/readyz", "/health", "/ready"}

  datatype Scope = CorePolicy | InfrastructureExempt | OutOfScope | Unclassified

  function ClassifyFullPath(path: string): Scope {
    if path in ROOT_INFRASTRUCTURE then if path in ROOT_INFRASTRUCTURE_PATHS then CorePolicy else InfrastructureExempt
    else if exists i | 0 <= i < |OUT_OF_SCOPE_PREFIXES| :: OUT_OF_SCOPE_PREFIXES[i] <= path then OutOfScope
    else if CORE_PREFIX <= path then CorePolicy
    else Unclassified
  }

  // Which paths have which scope.
  lemma ScopeExactly(path: string)
    ensures ClassifyFullPath(path) == InfrastructureExempt <==> path == "/health" || path == "/ready"
    ensures ClassifyFullPath(path) == OutOfScope <==>
            "/api/v1/svc/" <= path || "/api/v1/demo/" <= path || "/v1/" <= path
    ensures ClassifyFullPath(path) == CorePolicy <==>
            || path == "/healthz" || path == "/readyz"
            || ("/api/v1/" <= path && !("/api/v1/svc/" <= path) && !("/api/v1/demo/" <= path))
  {
    OutOfScopeExactly(path);
    if path in ROOT_INFRASTRUCTURE {
      RootsHaveNoPrefix(path);
    }
    if CORE_PREFIX <= path {
      CoreIsNoRoot(path);
    }
  }

  lemma OutOfScopeExactly(path: string)
    ensures (exists i | 0 <= i < |OUT_OF_SCOPE_PREFIXES| :: OUT_OF_SCOPE_PREFIXES[i] <= path) <==>
            "/api/v1/svc/" <= path || "/api/v1/demo/" <= path || "/v1/" <= path
  {
    assert OUT_OF_SCOPE_PREFIXES[0] == "/api/v1/svc/";
    assert OUT_OF_SCOPE_PREFIXES[1] == "/v1/";
    assert OUT_OF_SCOPE_PREFIXES[2] == "/api/v1/demo/";
  }

  lemma RootsHaveNoPrefix(path: string)
    requires path in ROOT_INFRASTRUCTURE
    ensures !("/api/v1/svc/" <= path) && !("/api/v1/demo/" <= path) && !("/v1/" <= path) && !("/api/v1/" <= path)
  {
    assert path[1] == 'h' || path[1] == 'r';
  }

  lemma CoreIsNoRoot(path: string)
    requires "/api/v1/" <= path
    ensures path !in ROOT_INFRASTRUCTURE && !("/v1/" <= path)
  {
    assert path[1] == 'a';
  }

  // A declared path is in scope at the gateway unless it belongs to a service or the demo.
  lemma DeclaredPathScope(path: string)
    requires path != "" && path[0] == '/'
    ensures ClassifyFullPath(GatewayPath(path)) ==
            if "/svc/" <= path || "/demo/" <= path then OutOfScope else CorePolicy
  {
    hide ClassifyFullPath;
    ScopeExactly(GatewayPath(path));
    if path == "/healthz" || path == "/readyz" {
      assert path[1] == 'h' || path[1] == 'r';
      RootsHaveNoPrefix(path);
    } else {
      var full := "/api/v1" + path;
      assert full[1] == 'a' && full[..7] == "/api/v1" && full[7..] == path && full[7] == '/';
      CoreIsNoRoot(full);
      AfterPrefix(path, "/svc/", "/api/v1/svc/");
      AfterPrefix(path, "/demo/", "/api/v1/demo/");
    }
  }

  lemma AfterPrefix(path: string, part: string, whole: string)
    requires whole == "/api/v1" + part
    ensures whole <= "/api/v1" + path <==> part <= path
  {
    assert ("/api/v1" + path)[7..] == path && whole[7..] == part;
    assert |part| <= |path| ==> ("/api/v1" + path)[..|whole|] == "/api/v1" + path[..|part|];
  }

  datatype RouteError = NotClassified(route: Route) | NotInRegistry(route: Route) | MissingFromRegistry(route: Route)

  // A registered route is in order when it is out of scope or exempt, or a core route that the registry knows.
  predicate InOrder(route: Route, generated: set<Route>) {
    match ClassifyFullPath(route.path)
    case Unclassified => false
    case CorePolicy => route in generated
    case _ => true
  }

  ghost predicate Describes(error: RouteError, registered: set<Route>, generated: set<Route>, declared: set<Route>) {
    match error
    case NotClassified(route) => route in registered && ClassifyFullPath(route.path) == Unclassified
    case NotInRegistry(route) => route in registered && ClassifyFullPath(route.path) == CorePolicy
        && route !in generated
    case MissingFromRegistry(route) => route in declared && route !in generated
  }

  // Reports exactly the routes that are out of order, each once.
  method Validate(registered: set<Route>, generated: set<Route>, declared: set<Route>) returns (errors: set<RouteError>)
    ensures forall e :: e in errors <==> Describes(e, registered, generated, declared)
  {
    errors := {};
    var left := registered;
    while left != {}
      invariant left <= registered
      invariant forall e :: e in errors <==>
                  !e.MissingFromRegistry? && Describes(e, registered, generated, declared) && e.route !in left
    {
      var route :| route in left;
      var scope := ClassifyFullPath(route.path);
      left := left - {route};
      if scope == Unclassified {
        errors := errors + {NotClassified(route)};
        continue;
      }
      if scope == CorePolicy && route !in generated {
        errors := errors + {NotInRegistry(route)};
      }
    }
    left := declared - generated;
    while left != {}
      invariant left <= declared - generated
      invariant forall e :: e in errors <==>
                  Describes(e, registered, generated, declared) && (e.MissingFromRegistry? ==> e.route !in left)
    {
      var route :| route in left;
      left := left - {route};
      errors := errors + {MissingFromRegistry(route)};
    }
  }

  method OpenapiRegistryRoutes(spec: Spec) returns (routes: set<Route>)
    ensures routes == OpenapiRoutes(spec)
  {
    hide OpenapiRoutes, HTTP_METHODS, Verb, GatewayPath;
    routes := {};
    var left := spec.paths.Keys;
    while left != {}
      invariant left <= spec.paths.Keys
      invariant forall r :: r in routes <==> exists item: Item :: Routes(spec, item, r) && item.0 !in left
    {
      var path :| path in left;
      left := left - {path};
      if spec.paths[path].None? {
        continue;
      }
      var item := spec.paths[path].value;
      for j := 0 to |HTTP_METHODS|
        invariant forall r :: r in routes <==>
                    exists it: Item ::
                        Routes(spec, it, r) && it.0 !in left && (it.0 == path ==> it.1 in HTTP_METHODS[..j])
      {
        var m := HTTP_METHODS[j];
        assert HTTP_METHODS[..j + 1] == HTTP_METHODS[..j] + [m];
        if m in item && item[m].Some? {
          var route := Route(Verb(m), GatewayPath(path));
          assert Routes(spec, (path, m), route);
          routes := routes + {route};
        }
      }
      assert HTTP_METHODS[..|HTTP_METHODS|] == HTTP_METHODS;
    }
    forall r
      ensures r in routes <==> r in OpenapiRoutes(spec)
    {
      RouteOfItem(spec, r);
      if r in OpenapiRoutes(spec) {
        var item: Item :| Declares(spec, item) && spec.paths[item.0].value[item.1].Some?
                          && r == Route(Verb(item.1), GatewayPath(item.0));
        assert Routes(spec, item, r);
      }
    }
  }

  ghost predicate Routes(spec: Spec, item: Item, r: Route) {
    Declares(spec, item) && spec.paths[item.0].value[item.1].Some? && r == Route(Verb(item.1), GatewayPath(item.0))
  }

  // With a fresh registry whose round trip holds, the gate reports nothing exactly when every registered
  // route is in order against the document itself.
  lemma FreshRegistryValidates(spec: Spec, order: seq<string>, policies: seq<Policy>, registered: set<Route>)
    requires Generated(spec, order, policies) && PathsAreClean(spec)
    requires forall p <- policies, r <- TextsRead(p) :: r in OpenapiRoutes(spec)
    ensures var generated := GeneratedRoutes(RenderGo(policies));
            (forall e :: !Describes(e, registered, generated, OpenapiRoutes(spec))) <==>
            forall route <- registered :: InOrder(route, OpenapiRoutes(spec))
  {
    hide RenderGo, GeneratedRoutes, OpenapiRoutes, TextsRead, Generated, ClassifyFullPath;
    RoundTripExactly(spec, order, policies);
    var generated := GeneratedRoutes(RenderGo(policies));
    if forall e :: !Describes(e, registered, generated, OpenapiRoutes(spec)) {
      forall route <- registered
        ensures InOrder(route, OpenapiRoutes(spec))
      {
        assert !Describes(NotClassified(route), registered, generated, OpenapiRoutes(spec));
        assert !Describes(NotInRegistry(route), registered, generated, OpenapiRoutes(spec));
      }
    }
  }
}
