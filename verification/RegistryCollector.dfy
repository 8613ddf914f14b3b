/** Collecting the registry from the document, and printing it. */
module RegistryCollector {
  import opened Options
  import opened Registry

  type Item = (string, string)

  predicate Declares(spec: Spec, item: Item) {
    && item.0 in spec.paths && spec.paths[item.0].Some?
    && item.1 in HTTP_METHODS && item.1 in spec.paths[item.0].value
  }

  function ClassifyItem(spec: Spec, item: Item): Result<Policy>
    requires Declares(spec, item)
  {
    var operation := spec.paths[item.0].value[item.1];
    if operation.None? then Err(NotAnOperation) else Classify(spec, item.0, item.1, operation.value)
  }

  // An operation is accepted exactly when it has or is given an id and its security and authorization
  // entries fit each other.
  lemma ClassifyAccepts(spec: Spec, path: string, m: string, op: Operation)
    requires m in HTTP_METHODS
    ensures var security := if op.security.Some? then op.security.value else spec.security;
            Classify(spec, path, m, op).Ok? <==>
            && OperationIdOf(op, Verb(m), path).Some? && security.Requirements?
            && (security.items == [] ==> op.authz.None?)
            && (security.items != [] ==>
                  && (forall i | 0 <= i < |security.items| :: SingleScheme(security.items[i]))
                  && (op.authz.Some? ==> AuthzOk(op.authz.value)))
  {}

  // What the policy then says: public without security, legacy without an authorization entry, and
  // otherwise the entry's own fields; the schemes are those of the alternatives, in order.
  lemma ClassifyKeeps(spec: Spec, path: string, m: string, op: Operation)
    requires m in HTTP_METHODS && Classify(spec, path, m, op).Ok?
    ensures var p := Classify(spec, path, m, op).value;
            var effective := if op.security.Some? then op.security.value else spec.security;
            var security := effective.items;
            && Some(p.operationId) == OperationIdOf(op, Verb(m), path)
            && (p.source == "public" <==> security == [])
            && (p.source == "legacy" <==> security != [] && op.authz.None?)
            && |p.security| == |security| && (forall i | 0 <= i < |security| :: security[i] == Schemes({p.security[i]}))
            && (op.authz.Some? ==>
                  var f := op.authz.value.fields;
                  && p.source == "generated" && p.version == "v1" && f["version"] == Text("v1")
                  && f["resource"] == Text(p.resource) && f["action"] == Text(p.action)
                  && f["boundary"] == Text(p.boundary)
                  && f["principal_kinds"].Texts? && |p.kinds| == |f["principal_kinds"].items|
                  && forall i | 0 <= i < |p.kinds| :: f["principal_kinds"].items[i] == Some(p.kinds[i]))
  {}

  // The document is accepted: every declared operation can be classified and no two share an id.
  ghost predicate Acceptable(spec: Spec) {
    && (forall item: Item | Declares(spec, item) :: ClassifyItem(spec, item).Ok?)
    && (forall a: Item, b: Item | Declares(spec, a) && Declares(spec, b) && a != b ::
          ClassifyItem(spec, a).value.operationId != ClassifyItem(spec, b).value.operationId)
  }

  // Some enumeration of the declared paths: sorted order is one.
  ghost predicate Enumerates(order: seq<string>, spec: Spec) {
    && (forall i | 0 <= i < |order| :: order[i] in spec.paths)
    && (forall path <- spec.paths :: path in order)
    && (forall i, j | 0 <= i < j < |order| :: order[i] != order[j])
  }

  // The declared operations among the first n methods of a path, in collecting order.
  function MethodsAt(spec: Spec, path: string, n: nat): (items: seq<Item>)
    requires n <= |HTTP_METHODS|
    ensures forall item <- items :: Declares(spec, item) && item.0 == path && item.1 in HTTP_METHODS[..n]
    ensures forall i, j | 0 <= i < j < |items| :: items[i] != items[j]
    ensures forall m <- HTTP_METHODS[..n] :: Declares(spec, (path, m)) ==> (path, m) in items
  {
    if n == 0 then []
    else
      var m := HTTP_METHODS[n - 1];
      assert HTTP_METHODS[..n] == HTTP_METHODS[..n - 1] + [m] && m !in HTTP_METHODS[..n - 1];
      MethodsAt(spec, path, n - 1) + if Declares(spec, (path, m)) then [(path, m)] else []
  }

  function ItemsOf(spec: Spec, order: seq<string>, n: nat): seq<Item>
    requires n <= |order|
  {
    if n == 0 then [] else ItemsOf(spec, order, n - 1) + MethodsAt(spec, order[n - 1], |HTTP_METHODS|)
  }

  lemma {:induction false} ItemsAreTheDeclared(spec: Spec, order: seq<string>, n: nat)
    requires n <= |order| && forall i, j | 0 <= i < j < |order| :: order[i] != order[j]
    ensures forall item <- ItemsOf(spec, order, n) :: Declares(spec, item) && item.0 in order[..n]
    ensures forall item: Item | Declares(spec, item) && item.0 in order[..n] :: item in ItemsOf(spec, order, n)
    ensures forall i, j | 0 <= i < j < |ItemsOf(spec, order, n)| ::
            ItemsOf(spec, order, n)[i] != ItemsOf(spec, order, n)[j]
  {
    hide MethodsAt;
    if n > 0 {
      ItemsAreTheDeclared(spec, order, n - 1);
      assert order[..n] == order[..n - 1] + [order[n - 1]];
      assert HTTP_METHODS[..|HTTP_METHODS|] == HTTP_METHODS;
      assert order[n - 1] !in order[..n - 1];
    }
  }

  lemma GatewayPathInjective(a: string, b: string)
    requires GatewayPath(a) == GatewayPath(b)
    ensures a == b
  {
    var prefix := "/api/v1";
    assert (prefix + a)[1] == 'a' && (prefix + b)[1] == 'a' && "/healthz"[1] == 'h' && "/readyz"[1] == 'r';
    assert (prefix + a)[|prefix|..] == a && (prefix + b)[|prefix|..] == b;
  }

  lemma VerbInjective(a: string, b: string)
    requires a in HTTP_METHODS && b in HTTP_METHODS && Verb(a) == Verb(b)
    ensures a == b
  {}

  // Exactly one policy per declared operation, in order.
  ghost predicate Collected(spec: Spec, items: seq<Item>, policies: seq<Policy>) {
    && |items| == |policies|
    && (forall k | 0 <= k < |items| :: Declares(spec, items[k]) && ClassifyItem(spec, items[k]) == Ok(policies[k]))
    && (forall j, k | 0 <= j < k < |items| :: policies[j].operationId != policies[k].operationId)
  }

  lemma RoutesAreDistinct(spec: Spec, item: Item, policy: Policy, items: seq<Item>, policies: seq<Policy>)
    requires Collected(spec, items, policies) && item !in items
    requires Declares(spec, item) && ClassifyItem(spec, item) == Ok(policy)
    ensures forall k | 0 <= k < |policies| :: (policies[k].verb, policies[k].path) != (policy.verb, policy.path)
  {
    forall k | 0 <= k < |policies|
      ensures (policies[k].verb, policies[k].path) != (policy.verb, policy.path)
    {
      assert items[k] in items;
      if (policies[k].verb, policies[k].path) == (policy.verb, policy.path) {
        VerbInjective(items[k].1, item.1);
        GatewayPathInjective(items[k].0, item.0);
      }
    }
  }

  ghost predicate Seen(policies: seq<Policy>, routes: set<(string, string)>, operations: set<string>) {
    && routes == (set k | 0 <= k < |policies| :: (policies[k].verb, policies[k].path))
    && operations == (set k | 0 <= k < |policies| :: policies[k].operationId)
  }

  lemma CollectStep(spec: Spec, items: seq<Item>, policies: seq<Policy>, routes: set<(string, string)>,
                    operations: set<string>, item: Item, policy: Policy)
    requires Collected(spec, items, policies) && Seen(policies, routes, operations) && item !in items
    requires Declares(spec, item) && ClassifyItem(spec, item) == Ok(policy)
    ensures (policy.verb, policy.path) !in routes
    ensures policy.operationId in operations ==> !Acceptable(spec)
    ensures policy.operationId !in operations ==>
              && Collected(spec, items + [item], policies + [policy])
              && Seen(policies + [policy], routes + {(policy.verb, policy.path)}, operations + {policy.operationId})
  {
    hide ClassifyItem, Declares;
    RoutesAreDistinct(spec, item, policy, items, policies);
    if policy.operationId in operations {
      var k :| 0 <= k < |policies| && policies[k].operationId == policy.operationId;
      assert items[k] in items;
    } else {
      var after := policies + [policy];
      assert forall k | 0 <= k < |policies| :: after[k] == policies[k];
      assert after[|policies|] == policy;
      assert (set k | 0 <= k < |after| :: after[k].operationId) == operations + {policy.operationId};
      assert (set k | 0 <= k < |after| :: (after[k].verb, after[k].path)) == routes + {(policy.verb, policy.path)};
    }
  }

  // The operation about to be visited was not collected before.
  lemma NextItemIsNew(spec: Spec, order: seq<string>, i: nat, j: nat)
    requires Enumerates(order, spec) && i < |order| && j < |HTTP_METHODS|
    ensures (order[i], HTTP_METHODS[j]) !in Progress(spec, order, i, j)
  {
    hide MethodsAt;
    ItemsAreTheDeclared(spec, order, i);
    assert order[i] !in order[..i];
    assert HTTP_METHODS[j] !in HTTP_METHODS[..j];
  }

  lemma DeclaredIsOrdered(spec: Spec, order: seq<string>, item: Item)
    requires Enumerates(order, spec) && Declares(spec, item)
    ensures item.0 in order
  {}

  lemma CollectedAll(spec: Spec, order: seq<string>, policies: seq<Policy>)
    requires Enumerates(order, spec) && Collected(spec, ItemsOf(spec, order, |order|), policies)
    ensures Acceptable(spec)
  {
    hide ClassifyItem, ItemsOf, Declares, HTTP_METHODS;
    var items := ItemsOf(spec, order, |order|);
    ItemsAreTheDeclared(spec, order, |order|);
    assert order[..|order|] == order;
    forall item: Item | Declares(spec, item)
      ensures item in items
    {
      DeclaredIsOrdered(spec, order, item);
    }
  }

  lemma {:induction false} NotAnItem(spec: Spec, path: string, n: nat)
    requires n <= |HTTP_METHODS| && path in spec.paths && spec.paths[path].None?
    ensures MethodsAt(spec, path, n) == []
  {
    if n > 0 {
      NotAnItem(spec, path, n - 1);
    }
  }

  lemma Nothing(spec: Spec, order: seq<string>)
    ensures Collected(spec, ItemsOf(spec, order, 0), []) && Seen([], {}, {})
  {}

  lemma RefusedItem(spec: Spec, item: Item)
    requires Declares(spec, item) && ClassifyItem(spec, item).Err?
    ensures !Acceptable(spec)
  {}

  // The operations collected when the loops stand before method j of path i.
  ghost function Progress(spec: Spec, order: seq<string>, i: nat, j: nat): seq<Item>
    requires i < |order| && j <= |HTTP_METHODS|
  {
    ItemsOf(spec, order, i) + MethodsAt(spec, order[i], j)
  }

  lemma NextPath(spec: Spec, order: seq<string>, i: nat)
    requires Enumerates(order, spec) && i < |order|
    ensures order[i] in spec.paths && |HTTP_METHODS| == 7
    ensures Progress(spec, order, i, 0) == ItemsOf(spec, order, i)
    ensures Progress(spec, order, i, |HTTP_METHODS|) == ItemsOf(spec, order, i + 1)
    ensures spec.paths[order[i]].None? ==> ItemsOf(spec, order, i + 1) == ItemsOf(spec, order, i)
  {
    assert MethodsAt(spec, order[i], 0) == [];
    hide MethodsAt;
    if spec.paths[order[i]].None? {
      NotAnItem(spec, order[i], |HTTP_METHODS|);
    }
  }

  lemma NextMethod(spec: Spec, order: seq<string>, i: nat, j: nat)
    requires Enumerates(order, spec) && i < |order| && j < |HTTP_METHODS|
    ensures Progress(spec, order, i, j + 1) == Progress(spec, order, i, j)
            + if Declares(spec, (order[i], HTTP_METHODS[j])) then [(order[i], HTTP_METHODS[j])] else []
  {}

  // Everything about one visited operation.
  lemma Visit(spec: Spec, order: seq<string>, i: nat, j: nat, policies: seq<Policy>, routes: set<(string, string)>,
              operations: set<string>)
    requires Enumerates(order, spec) && i < |order| && j < |HTTP_METHODS| && order[i] in spec.paths
    requires Collected(spec, Progress(spec, order, i, j), policies) && Seen(policies, routes, operations)
    requires spec.paths[order[i]].Some?
    ensures HTTP_METHODS[j] !in spec.paths[order[i]].value ==>
              Collected(spec, Progress(spec, order, i, j + 1), policies)
    ensures HTTP_METHODS[j] in spec.paths[order[i]].value ==>
              var operation := spec.paths[order[i]].value[HTTP_METHODS[j]];
              if operation.None? || Classify(spec, order[i], HTTP_METHODS[j], operation.value).Err?
              then !Acceptable(spec)
              else
                var policy := Classify(spec, order[i], HTTP_METHODS[j], operation.value).value;
                && (policy.verb, policy.path) !in routes
                && if policy.operationId in operations then !Acceptable(spec)
                   else Collected(spec, Progress(spec, order, i, j + 1), policies + [policy])
                        && Seen(policies + [policy], routes + {(policy.verb, policy.path)},
                                operations + {policy.operationId})
  {
    hide Classify, Collected, Seen, Acceptable, Progress, HTTP_METHODS;
    var item := (order[i], HTTP_METHODS[j]);
    var items := Progress(spec, order, i, j);
    NextMethod(spec, order, i, j);
    if Declares(spec, item) {
      if ClassifyItem(spec, item).Err? {
        RefusedItem(spec, item);
      } else {
        NextItemIsNew(spec, order, i, j);
        CollectStep(spec, items, policies, routes, operations, item, ClassifyItem(spec, item).value);
      }
    } else {
      assert items + [] == items;
    }
  }

  // Accepts exactly the acceptable documents, whatever the order; the duplicate-route error never occurs.
  method CollectPolicies(spec: Spec, order: seq<string>) returns (r: Result<seq<Policy>>)
    requires Enumerates(order, spec)
    ensures r.Ok? <==> Acceptable(spec)
    ensures r.Ok? ==> Collected(spec, ItemsOf(spec, order, |order|), r.value)
    ensures r != Err(DuplicateRoute)
  {
    hide Enumerates, Classify, Collected, Seen, Acceptable, ItemsOf, Progress, HTTP_METHODS;
    var policies: seq<Policy> := [];
    var seenRoutes: set<(string, string)> := {};
    var seenOperations: set<string> := {};
    Nothing(spec, order);
    for i := 0 to |order|
      invariant Collected(spec, ItemsOf(spec, order, i), policies)
      invariant Seen(policies, seenRoutes, seenOperations)
    {
      NextPath(spec, order, i);
      var path := order[i];
      var pathItem := spec.paths[path];
      if pathItem.Some? {
        for j := 0 to |HTTP_METHODS|
          invariant Collected(spec, Progress(spec, order, i, j), policies)
          invariant Seen(policies, seenRoutes, seenOperations)
        {
          Visit(spec, order, i, j, policies, seenRoutes, seenOperations);
          var m := HTTP_METHODS[j];
          if m in pathItem.value {
            var operation := pathItem.value[m];
            if operation.None? {
              return Err(NotAnOperation);
            }
            var classified := Classify(spec, path, m, operation.value);
            if classified.Err? {
              return Err(classified.error);
            }
            var policy := classified.value;
            if (policy.verb, policy.path) in seenRoutes {
              return Err(DuplicateRoute);
            }
            if policy.operationId in seenOperations {
              return Err(DuplicateOperation);
            }
            seenRoutes := seenRoutes + {(policy.verb, policy.path)};
            seenOperations := seenOperations + {policy.operationId};
            policies := policies + [policy];
          }
        }
      }
    }
    CollectedAll(spec, order, policies);
    r := Ok(policies);
  }

  lemma {:induction false} RenderOneMore(policies: seq<Policy>, i: nat)
    requires i < |policies|
    ensures RenderPolicies(policies[..i + 1]) == RenderPolicies(policies[..i]) + RenderPolicyLines(policies[i])
  {
    hide RenderPolicyLines;
    if i == 0 {
      assert policies[..1][1..] == [];
    } else {
      var rest := policies[1..];
      assert policies[..i + 1][1..] == rest[..i] && policies[..i][1..] == rest[..i - 1];
      RenderOneMore(rest, i - 1);
    }
  }

  method Render(policies: seq<Policy>) returns (text: string)
    ensures text == RenderGo(policies)
  {
    hide RenderPolicies, RenderPolicyLines, Join, HEADER;
    var lines := HEADER;
    NoPolicies();
    assert policies[..0] == [] && HEADER + [] == HEADER;
    for i := 0 to |policies|
      invariant lines == HEADER + RenderPolicies(policies[..i])
    {
      RenderOneMore(policies, i);
      lines := lines + RenderPolicyLines(policies[i]);
    }
    assert policies[..|policies|] == policies;
    lines := lines + ["}", ""];
    text := Join("\n", lines);
  }

  lemma NoPolicies()
    ensures RenderPolicies([]) == []
  {}
}
