/** Which policy an operation gets, read off the document alone. */
module RegistryFields {
  import opened Options
  import opened PythonText
  import opened Registry

  // ------------------------------------------------------------------ the document

  // The operation's own security wins, an empty list included; the document's stands in for a missing one.
  ghost predicate SecuredBy(spec: Spec, op: Operation, items: seq<Requirement>) {
    op.security == Some(Requirements(items)) || (op.security == None && spec.security == Requirements(items))
  }

  const DERIVED: map<(string, string), string> := map[
    ("POST", "/auth/refresh") := "refreshToken",
    ("GET", "/branding") := "getBranding",
    ("GET", "/tasks/{task_id}") := "getTask"
  ]

  // Its own id, or the derived one of the three operations that have none.
  ghost predicate GoesById(op: Operation, verb: string, path: string, id: string) {
    if op.operationId.Some? && op.operationId.value != "" then id == op.operationId.value
    else (verb, path) in DERIVED && id == DERIVED[(verb, path)]
  }

  // The five fields and nothing else.
  function AuthzOf(resource: string, action: string, boundary: string, kinds: seq<string>): Extension {
    Fields(map["version" := Text("v1"), "resource" := Text(resource), "action" := Text(action),
               "boundary" := Text(boundary),
               "principal_kinds" := Texts(seq(|kinds|, i requires 0 <= i < |kinds| => Some(kinds[i])))])
  }

  predicate IsKind(k: string) {
    k == "user" || k == "service" || k == "api_key" || k == "sandbox"
  }

  predicate Says(s: string) {
    exists i | 0 <= i < |s| :: !IsBlank(s[i])
  }

  ghost predicate ValidAuthz(e: Extension, resource: string, action: string, boundary: string, kinds: seq<string>) {
    && e == AuthzOf(resource, action, boundary, kinds) && Says(resource) && Says(action)
    && (boundary == "own" || boundary == "tenant" || boundary == "platform")
    && kinds != [] && (forall i | 0 <= i < |kinds| :: IsKind(kinds[i]))
    && forall i, j | 0 <= i < j < |kinds| :: kinds[i] != kinds[j]
  }

  lemma AuthzOkExactly(e: Extension)
    ensures AuthzOk(e) <==> exists resource, action, boundary, kinds :: ValidAuthz(e, resource, action, boundary, kinds)
  {
    if AuthzOk(e) {
      var f := e.fields;
      var items := f["principal_kinds"].items;
      var kinds := seq(|items|, i requires 0 <= i < |items| => items[i].value);
      SameItems(items, kinds);
      assert f == AuthzOf(f["resource"].s, f["action"].s, f["boundary"].s, kinds).fields;
      assert ValidAuthz(e, f["resource"].s, f["action"].s, f["boundary"].s, kinds);
    }
    forall resource, action, boundary, kinds | ValidAuthz(e, resource, action, boundary, kinds)
      ensures AuthzOk(e)
    {
      ValidIsOk(e, resource, action, boundary, kinds);
    }
  }

  lemma SameItems(items: seq<Option<string>>, kinds: seq<string>)
    requires |items| == |kinds| && forall i | 0 <= i < |items| :: items[i] == Some(kinds[i])
    ensures items == seq(|kinds|, i requires 0 <= i < |kinds| => Some(kinds[i]))
  {}

  lemma ValidIsOk(e: Extension, resource: string, action: string, boundary: string, kinds: seq<string>)
    requires ValidAuthz(e, resource, action, boundary, kinds)
    ensures AuthzOk(e)
  {
    assert e.fields.Keys == {"version", "resource", "action", "boundary", "principal_kinds"};
    var items := e.fields["principal_kinds"].items;
    assert |items| == |kinds| && forall i | 0 <= i < |items| :: items[i] == Some(kinds[i]);
  }

  predicate OneScheme(requirement: Requirement, scheme: string) {
    requirement == Schemes({scheme}) && (scheme == "BearerAuth" || scheme == "ApiKeyAuth")
  }

  // An operation that is secured by a list is accepted exactly when it goes by an id and, with an empty list,
  // has no authorization entry, or else names one known scheme per alternative and has a valid entry, if any.
  lemma AcceptedExactly(spec: Spec, path: string, m: string, op: Operation, items: seq<Requirement>)
    requires m in HTTP_METHODS && SecuredBy(spec, op, items)
    ensures Classify(spec, path, m, op).Ok? <==>
            && (exists id :: GoesById(op, Verb(m), path, id))
            && (if items == [] then op.authz.None?
                else
                  && (forall i | 0 <= i < |items| ::
                        OneScheme(items[i], "BearerAuth") || OneScheme(items[i], "ApiKeyAuth"))
                  && (op.authz.Some? ==> exists resource, action, boundary, kinds ::
                        ValidAuthz(op.authz.value, resource, action, boundary, kinds)))
  {
    hide Verb, AuthzOk, ValidAuthz, GatewayPath;
    if op.authz.Some? {
      AuthzOkExactly(op.authz.value);
    }
    IdExactly(op, Verb(m), path);
    if OperationIdOf(op, Verb(m), path).Some? {
      assert GoesById(op, Verb(m), path, OperationIdOf(op, Verb(m), path).value);
    }
  }

  lemma IdExactly(op: Operation, verb: string, path: string)
    ensures forall id :: GoesById(op, verb, path, id) <==> OperationIdOf(op, verb, path) == Some(id)
  {}

  // Security that is no list is refused, the operation's own even where the document has one.
  lemma NoListIsRefused(spec: Spec, path: string, m: string, op: Operation)
    requires m in HTTP_METHODS
    requires op.security == Some(NotAnArray) || (op.security == None && spec.security == NotAnArray)
    ensures Classify(spec, path, m, op).Err?
  {}

  predicate UpperCaseOf(s: string, lower: string) {
    |s| == |lower| && forall i | 0 <= i < |s| :: 'a' <= lower[i] <= 'z' && s[i] as int == lower[i] as int - 32
  }

  lemma VerbIsUpperCase(m: string)
    requires m in HTTP_METHODS
    ensures UpperCaseOf(Verb(m), m)
  {}

  // The policy of an accepted operation, whatever the document says beside a list of its own: it carries
  // exactly the items of the list that secures the operation, and is public exactly when there are none.
  lemma PolicyExactly(spec: Spec, path: string, m: string, op: Operation, items: seq<Requirement>)
    requires m in HTTP_METHODS && SecuredBy(spec, op, items) && Classify(spec, path, m, op).Ok?
    ensures var p := Classify(spec, path, m, op).value;
            && GoesById(op, p.verb, path, p.operationId) && UpperCaseOf(p.verb, m)
            && p.path == (if path == "/healthz" || path == "/readyz" then path else "/api/v1" + path)
            && |p.security| == |items| && (forall i | 0 <= i < |items| :: OneScheme(items[i], p.security[i]))
            && p.source == (if items == [] then "public" else if op.authz.None? then "legacy" else "generated")
            && (op.authz.None? ==> p.version == p.resource == p.action == p.boundary == "" && p.kinds == [])
            && (op.authz.Some? ==>
                  p.version == "v1" && ValidAuthz(op.authz.value, p.resource, p.action, p.boundary, p.kinds))
  {
    hide AuthzOk, ValidAuthz, Verb, UpperCaseOf, GoesById;
    IdExactly(op, Verb(m), path);
    VerbIsUpperCase(m);
    if op.authz.Some? {
      AuthzOkExactly(op.authz.value);
      var resource, action, boundary, kinds :| ValidAuthz(op.authz.value, resource, action, boundary, kinds);
      CarriesEntry(spec, path, m, op, items, resource, action, boundary, kinds);
    }
  }

  lemma CarriesEntry(spec: Spec, path: string, m: string, op: Operation, items: seq<Requirement>, resource: string,
                     action: string, boundary: string, kinds: seq<string>)
    requires m in HTTP_METHODS && SecuredBy(spec, op, items) && Classify(spec, path, m, op).Ok?
    requires op.authz.Some? && ValidAuthz(op.authz.value, resource, action, boundary, kinds)
    ensures var p := Classify(spec, path, m, op).value;
            && p.version == "v1" && p.resource == resource && p.action == action && p.boundary == boundary
            && p.kinds == kinds
  {
    hide Verb, GatewayPath, AuthzOk;
    var f := op.authz.value.fields;
    var read := f["principal_kinds"].items;
    assert |read| == |kinds| && forall i | 0 <= i < |read| :: read[i] == Some(kinds[i]);
    assert seq(|read|, i requires 0 <= i < |read| => read[i].value) == kinds;
  }
}
