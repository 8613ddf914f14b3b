/** The gateway authz registry: policies collected from the OpenAPI document, printed as Go source, and
    read back from that text by the route coverage gate. */
module Registry {
  import opened Options
  import opened PythonText

  // In the order in which they are collected.
  const HTTP_METHODS := ["delete", "get", "head", "options", "patch", "post", "put"]
  // In the order in which the reading pattern tries them.
  const VERBS := ["GET", "POST", "PUT", "PATCH", "DELETE", "HEAD", "OPTIONS"]
  const VALID_BOUNDARIES := {"own", "tenant", "platform"}
  const VALID_PRINCIPAL_KINDS := {"user", "service", "api_key", "sandbox"}
  const VALID_SECURITY_SCHEMES := {"BearerAuth", "ApiKeyAuth"}
  const ROOT_INFRASTRUCTURE_PATHS := {"/healthz", "/readyz"}
  const AUTHZ_FIELDS := {"version", "resource", "action", "boundary", "principal_kinds"}

  function DerivedOperationId(verb: string, path: string): Option<string> {
    if (verb, path) == ("POST", "/auth/refresh") then Some("refreshToken")
    else if (verb, path) == ("GET", "/branding") then Some("getBranding")
    else if (verb, path) == ("GET", "/tasks/{task_id}") then Some("getTask")
    else None
  }

  function Verb(m: string): string
    requires m in HTTP_METHODS
  {
    if m == "delete" then "DELETE"
    else if m == "get" then "GET"
    else if m == "head" then "HEAD"
    else if m == "options" then "OPTIONS"
    else if m == "patch" then "PATCH"
    else if m == "post" then "POST"
    else "PUT"
  }

  // ------------------------------------------------------------------ the document

  datatype Requirement = NotAnObject | Schemes(names: set<string>)

  datatype Security = NotAnArray | Requirements(items: seq<Requirement>)

  datatype Field = Text(s: string) | Texts(items: seq<Option<string>>) | OtherField

  datatype Extension = NotAMap | Fields(fields: map<string, Field>)

  datatype Operation = Operation(operationId: Option<string>, security: Option<Security>, authz: Option<Extension>)

  // None stands for an entry that is not an object.
  type PathItem = map<string, Option<Operation>>

  datatype Spec = Spec(security: Security, paths: map<string, Option<PathItem>>)

  // ------------------------------------------------------------------ policies

  datatype Policy = Policy(source: string, operationId: string, verb: string, path: string, security: seq<string>,
                           version: string, resource: string, action: string, boundary: string, kinds: seq<string>)

  datatype Error =
    | MissingOperationId
    | PublicWithAuthz
    | BadSecurity
    | BadAuthz
    | NotAnOperation
    | DuplicateRoute
    | DuplicateOperation

  datatype Result<+T> = Ok(value: T) | Err(error: Error)

  function EffectiveSecurity(spec: Spec, op: Operation): Security {
    if op.security.Some? then op.security.value else spec.security
  }

  predicate SingleScheme(requirement: Requirement) {
    requirement == Schemes({"BearerAuth"}) || requirement == Schemes({"ApiKeyAuth"})
  }

  // One credential per alternative: a requirement naming several schemes is refused.
  function ParseSecurity(items: seq<Requirement>): (r: Result<seq<string>>)
    ensures r.Ok? ==> |r.value| == |items| && forall i | 0 <= i < |items| ::
                        items[i] == Schemes({r.value[i]}) && r.value[i] in VALID_SECURITY_SCHEMES
    ensures r.Ok? <==> forall i | 0 <= i < |items| :: SingleScheme(items[i])
    ensures r.Err? ==> r.error == BadSecurity
  {
    if items == [] then Ok([])
    else if items[0].NotAnObject? || items[0].names == {} then Err(BadSecurity)
    else
      var rest := ParseSecurity(items[1..]);
      if rest.Err? then rest
      else if items[0].names == {"BearerAuth"} then Ok(["BearerAuth"] + rest.value)
      else if items[0].names == {"ApiKeyAuth"} then Ok(["ApiKeyAuth"] + rest.value)
      else Err(BadSecurity)
  }

  predicate IsText(fields: map<string, Field>, name: string) {
    name in fields && fields[name].Text?
  }

  predicate KindsOk(items: seq<Option<string>>) {
    && items != []
    && (forall i | 0 <= i < |items| :: items[i].Some? && items[i].value in VALID_PRINCIPAL_KINDS)
    && (forall i, j | 0 <= i < j < |items| :: items[i] != items[j])
  }

  predicate AllBlank(s: string) {
    forall i | 0 <= i < |s| :: IsBlank(s[i])
  }

  predicate AuthzOk(extension: Extension) {
    && extension.Fields? && extension.fields.Keys == AUTHZ_FIELDS
    && extension.fields["version"] == Text("v1")
    && IsText(extension.fields, "boundary") && extension.fields["boundary"].s in VALID_BOUNDARIES
    && extension.fields["principal_kinds"].Texts? && KindsOk(extension.fields["principal_kinds"].items)
    && IsText(extension.fields, "resource") && !AllBlank(extension.fields["resource"].s)
    && IsText(extension.fields, "action") && !AllBlank(extension.fields["action"].s)
  }

  function GatewayPath(path: string): string {
    if path in ROOT_INFRASTRUCTURE_PATHS then path else "/api/v1" + path
  }

  function OperationIdOf(op: Operation, verb: string, path: string): Option<string> {
    if op.operationId.Some? && op.operationId.value != "" then op.operationId else DerivedOperationId(verb, path)
  }

  function Classify(spec: Spec, path: string, m: string, op: Operation): (r: Result<Policy>)
    requires m in HTTP_METHODS
    ensures r.Ok? ==> r.value.verb == Verb(m) && r.value.path == GatewayPath(path) && Printable(r.value)
    ensures var security := if op.security.Some? then op.security.value else spec.security;
            r.Ok? ==> security.Requirements? && (r.value.source == "public" <==> security.items == [])
    ensures r != Err(DuplicateRoute)
  {
    var id := OperationIdOf(op, Verb(m), path);
    var security := EffectiveSecurity(spec, op);
    if id.None? then Err(MissingOperationId)
    else if security.NotAnArray? then Err(BadSecurity)
    else if security.items == [] then
      if op.authz.Some? then Err(PublicWithAuthz)
      else Ok(Policy("public", id.value, Verb(m), GatewayPath(path), [], "", "", "", "", []))
    else
      var schemes := ParseSecurity(security.items);
      if schemes.Err? then Err(schemes.error)
      else if op.authz.None? then
        Ok(Policy("legacy", id.value, Verb(m), GatewayPath(path), schemes.value, "", "", "", "", []))
      else if !AuthzOk(op.authz.value) then Err(BadAuthz)
      else
        var f := op.authz.value.fields;
        var items := f["principal_kinds"].items;
        Ok(Policy("generated", id.value, Verb(m), GatewayPath(path), schemes.value, "v1", f["resource"].s,
                  f["action"].s, f["boundary"].s, seq(|items|, i requires 0 <= i < |items| => items[i].value)))
  }

  // ------------------------------------------------------------------ printing

  // What the printer's constant tables cover.
  predicate Printable(p: Policy) {
    && p.source in {"public", "generated", "legacy"} && p.verb in VERBS
    && (forall s <- p.security :: s in VALID_SECURITY_SCHEMES)
    && (p.source == "generated" ==> p.boundary in VALID_BOUNDARIES && forall k <- p.kinds :: k in VALID_PRINCIPAL_KINDS)
  }

  function GoSource(s: string): string {
    if s == "public" then "PolicySourcePublic"
    else if s == "generated" then "PolicySourceGenerated"
    else "PolicySourceLegacy"
  }

  function GoScheme(s: string): string {
    if s == "BearerAuth" then "OpenAPISecurityBearer" else "OpenAPISecurityAPIKey"
  }

  function GoBoundary(s: string): string {
    if s == "own" then "BoundaryOwn" else if s == "tenant" then "BoundaryTenant" else "BoundaryPlatform"
  }

  function GoKind(s: string): string {
    if s == "user" then "PrincipalUser"
    else if s == "service" then "PrincipalService"
    else if s == "api_key" then "PrincipalAPIKey"
    else "PrincipalSandbox"
  }

  function Join(separator: string, parts: seq<string>): string {
    if parts == [] then ""
    else if |parts| == 1 then parts[0]
    else parts[0] + separator + Join(separator, parts[1..])
  }

  const SCHEME_OPEN := "{AllOf: []" + "OpenAPISecurityScheme{"

  function SecurityItems(security: seq<string>): seq<string> {
    seq(|security|, i requires 0 <= i < |security| => SCHEME_OPEN + GoScheme(security[i]) + "}}")
  }

  function KindItems(kinds: seq<string>): seq<string> {
    seq(|kinds|, i requires 0 <= i < |kinds| => GoKind(kinds[i]))
  }

  function Quoted(name: string, value: string): string {
    "        " + name + ": \"" + value + "\","
  }

  function KeyLine(verb: string, path: string): string {
    "    \"" + verb + " " + path + "\": {"
  }

  const KINDS_OPEN := "        PrincipalKinds: []" + "PrincipalKind{"
  const SECURITY_OPEN := "        SecurityAlternatives: " + "[]SecurityRequirement{"

  function RenderPolicyLines(p: Policy): seq<string> {
    [KeyLine(p.verb, p.path),
     "        Source: " + GoSource(p.source) + ",",
     Quoted("OperationID", p.operationId),
     Quoted("Method", p.verb),
     Quoted("PathTemplate", p.path)]
    + (if p.security == [] then []
       else [SECURITY_OPEN + Join(", ", SecurityItems(p.security)) + "},"])
    + (if p.source != "generated" then []
       else [Quoted("Version", p.version), Quoted("Resource", p.resource), Quoted("Action", p.action),
             "        Boundary: " + GoBoundary(p.boundary) + ",",
             KINDS_OPEN + Join(", ", KindItems(p.kinds)) + "},"])
    + ["    },"]
  }

  function RenderPolicies(policies: seq<Policy>): seq<string> {
    if policies == [] then [] else RenderPolicyLines(policies[0]) + RenderPolicies(policies[1..])
  }

  const HEADER_COMMENT := "// Code generated by " + "scripts/" + "generate_gateway_authz.py" + "; DO NOT EDIT."
  const HEADER_OPEN := "var generatedCorePolicies" + " = map[string]Policy{"
  const HEADER := [HEADER_COMMENT, "package authz", "", HEADER_OPEN]

  function RenderGo(policies: seq<Policy>): string {
    Join("\n", HEADER + RenderPolicies(policies) + ["}", ""])
  }

  // ------------------------------------------------------------------ reading back

  datatype Route = Route(verb: string, path: string)

  // The first position of c in s, or its length.
  function IndexOf(s: string, c: char): (i: nat)
    ensures i <= |s| && c !in s[..i] && (i < |s| ==> s[i] == c)
  {
    if s == "" || s[0] == c then 0 else 1 + IndexOf(s[1..], c)
  }

  const KEY_END := "\": {"

  // A match of "VERB (/[^"]*)": { at the head of s, with the number of characters it takes.
  function MatchVerb(s: string, verb: string): (r: Option<(Route, nat)>)
    ensures r.Some? ==> 0 < r.value.1 <= |s|
  {
    if !("\"" + verb + " /" <= s) then None
    else
      var tail := s[|verb| + 2..];
      var end := IndexOf(tail, '"');
      if KEY_END <= tail[end..] then Some((Route(verb, tail[..end]), |verb| + 2 + end + |KEY_END|)) else None
  }

  function MatchAny(s: string, verbs: seq<string>): (r: Option<(Route, nat)>)
    ensures r.Some? ==> 0 < r.value.1 <= |s|
  {
    if verbs == [] then None
    else if MatchVerb(s, verbs[0]).Some? then MatchVerb(s, verbs[0])
    else MatchAny(s, verbs[1..])
  }

  // Every non-overlapping match, left to right.
  function FindAll(s: string): seq<Route>
    decreases |s|
  {
    if s == "" then []
    else
      var found := MatchAny(s, VERBS);
      if found.Some? then [found.value.0] + FindAll(s[found.value.1..]) else FindAll(s[1..])
  }

  // How many characters of the file make the next character of its text.
  function Step(s: string): (n: nat)
    requires s != ""
    ensures 0 < n <= |s|
  {
    if s[0] == '\r' && |s| > 1 && s[1] == '\n' then 2 else 1
  }

  // Reading a file as text: each carriage return, alone or before a line feed, is read as one line feed.
  function ReadText(s: string): string
    decreases |s|
  {
    if s == "" then "" else [if s[0] == '\r' then '\n' else s[0]] + ReadText(s[Step(s)..])
  }

  function GeneratedRoutes(file: string): set<Route> {
    set r <- FindAll(ReadText(file))
  }

  // The reference: the routes the document declares.
  function OpenapiRoutes(spec: Spec): set<Route> {
    set path, m | path in spec.paths && spec.paths[path].Some? && m in HTTP_METHODS
                  && m in spec.paths[path].value && spec.paths[path].value[m].Some? :: Route(Verb(m), GatewayPath(path))
  }
}
