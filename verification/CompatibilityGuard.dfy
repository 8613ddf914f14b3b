/** What the guard guards: acceptance against the baseline of a specification, said about the two
    specifications alone. */
module CompatibilityGuard {
  import opened Options
  import opened Compatibility
  import opened CompatibilityProofs

  // ------------------------------------------------------------------ schemas that agree

  predicate Recorded(k: string) {
    || k == "$ref" || k == "type" || k == "format" || k == "nullable" || k == "minimum" || k == "maximum"
    || k == "minLength" || k == "maxLength" || k == "pattern"
  }

  predicate Nesting(k: string) {
    k == "items" || k == "additionalProperties"
  }

  predicate Composing(k: string) {
    k == "allOf" || k == "anyOf" || k == "oneOf"
  }

  // The recorded keywords agree, at every depth; what is no object has to be the same.
  ghost predicate Agree(a: Value, b: Value) {
    if !a.Obj? || !b.Obj? then a == b
    else
      && (forall k | Recorded(k) || Nesting(k) || Composing(k) :: k in a.fields <==> k in b.fields)
      && (forall k | k in a.fields && k in b.fields && Recorded(k) :: a.fields[k] == b.fields[k])
      && (forall k | k in a.fields && k in b.fields && Nesting(k) :: Agree(a.fields[k], b.fields[k]))
      && (forall k | k in a.fields && k in b.fields && Composing(k) :: AgreeItems(a.fields[k], b.fields[k]))
  }

  ghost predicate AgreeItems(a: Value, b: Value) {
    if !a.List? || !b.List? then a == b
    else |a.items| == |b.items| && forall i | 0 <= i < |a.items| && i < |b.items| :: Agree(a.items[i], b.items[i])
  }

  predicate Kept(k: string) {
    Recorded(k) || Nesting(k) || Composing(k)
  }

  // The recorded fields of an object.
  lemma NormalizedFields(a: Value)
    requires a.Obj?
    ensures Normalize(a).Obj?
    ensures forall k :: k in Normalize(a).fields <==> k in a.fields && Kept(k)
    ensures forall k <- Normalize(a).fields ::
              Normalize(a).fields[k] == if Recorded(k) then a.fields[k] else if Nesting(k) then Normalize(a.fields[k])
                                        else NormalizeItems(a.fields[k])
  {
    KeptKeywords();
  }

  lemma {:induction false} AgreeExactly(a: Value, b: Value)
    ensures Normalize(a) == Normalize(b) <==> Agree(a, b)
  {
    if a.Obj? && b.Obj? {
      NormalizedFields(a);
      NormalizedFields(b);
      forall k | k in a.fields && k in b.fields && Kept(k)
        ensures Normalize(a).fields[k] == Normalize(b).fields[k] <==> AgreeAt(a, b, k)
      {
        if Nesting(k) {
          AgreeExactly(a.fields[k], b.fields[k]);
        } else if Composing(k) {
          AgreeItemsExactly(a.fields[k], b.fields[k]);
        }
      }
      AgreePerField(a, b);
    } else {
      NotAnObject(a, b);
    }
  }

  lemma NotAnObject(a: Value, b: Value)
    requires !a.Obj? || !b.Obj?
    ensures Normalize(a) == Normalize(b) <==> a == b
  {}

  ghost predicate AgreeAt(a: Value, b: Value, k: string)
    requires a.Obj? && b.Obj? && k in a.fields && k in b.fields
  {
    && (Recorded(k) ==> a.fields[k] == b.fields[k])
    && (Nesting(k) ==> Agree(a.fields[k], b.fields[k]))
    && (Composing(k) ==> AgreeItems(a.fields[k], b.fields[k]))
  }

  lemma AgreePerField(a: Value, b: Value)
    requires a.Obj? && b.Obj? && Normalize(a).Obj? && Normalize(b).Obj?
    requires forall k :: k in Normalize(a).fields <==> k in a.fields && Kept(k)
    requires forall k :: k in Normalize(b).fields <==> k in b.fields && Kept(k)
    requires forall k | k in a.fields && k in b.fields && Kept(k) ::
               Normalize(a).fields[k] == Normalize(b).fields[k] <==> AgreeAt(a, b, k)
    ensures Normalize(a) == Normalize(b) <==> Agree(a, b)
  {
    hide Normalize;
    var x, y := Normalize(a).fields, Normalize(b).fields;
    if Agree(a, b) {
      assert x == y;
    }
    if x == y {
      forall k | Kept(k)
        ensures k in a.fields <==> k in b.fields
        ensures k in a.fields && k in b.fields ==> AgreeAt(a, b, k)
      {
        assert k in x <==> k in y;
      }
    }
  }

  lemma KeptKeywords()
    ensures forall k :: Recorded(k) <==> k in SCALARS
    ensures forall k :: Nesting(k) <==> k in NESTED
    ensures forall k :: Composing(k) <==> k in COMPOSED
    ensures forall k :: !(Recorded(k) && Nesting(k)) && !(Nesting(k) && Composing(k)) && !(Recorded(k) && Composing(k))
  {}

  lemma {:induction false} AgreeItemsExactly(a: Value, b: Value)
    ensures NormalizeItems(a) == NormalizeItems(b) <==> AgreeItems(a, b)
  {
    if a.List? && b.List? {
      var x, y := NormalizeItems(a).items, NormalizeItems(b).items;
      assert |x| == |a.items| && |y| == |b.items|;
      forall i | 0 <= i < |a.items| && i < |b.items|
        ensures x[i] == y[i] <==> Agree(a.items[i], b.items[i])
      {
        AgreeExactly(a.items[i], b.items[i]);
      }
      if AgreeItems(a, b) {
        assert x == y;
      }
    }
  }

  // ------------------------------------------------------------------ names of schemas

  // name is what follows the last slash of the schema's reference.
  predicate RefersTo(v: Value, name: string) {
    && v.Obj? && "$ref" in v.fields && v.fields["$ref"].Text?
    && var s := v.fields["$ref"].s;
       && name != "" && '/' !in name && |name| <= |s| && s[|s| - |name|..] == name
       && (|name| < |s| ==> s[|s| - |name| - 1] == '/')
  }

  // A reference goes by the name it refers to, an inline schema by the text of what is recorded of it.
  ghost predicate GoesBy(v: Value, text: string, dump: Dump) {
    if !v.Obj? then text == ""
    else if exists name :: RefersTo(v, name) then RefersTo(v, text)
    else text == dump(Normalize(v))
  }

  lemma GoesByExactly(v: Value, text: string, dump: Dump)
    ensures GoesBy(v, text, dump) <==> text == SchemaName(v, dump)
  {
    hide Normalize, RefersTo, SchemaRef;
    var r := SchemaRef(v);
    forall name
      ensures RefersTo(v, name) <==> r != "" && name == r
    {
      RefersToExactly(v, name);
    }
    if r != "" {
      assert RefersTo(v, r);
      NamedByRef(v, dump);
    }
  }

  lemma NamedByRef(v: Value, dump: Dump)
    requires SchemaRef(v) != ""
    ensures v.Obj? && SchemaName(v, dump) == SchemaRef(v)
  {}

  lemma RefersToExactly(v: Value, name: string)
    ensures RefersTo(v, name) <==> SchemaRef(v) != "" && name == SchemaRef(v)
  {
    if RefersTo(v, name) {
      SameLastSegment(v.fields["$ref"].s, name, SchemaRef(v));
    }
  }

  lemma SameLastSegment(s: string, a: string, b: string)
    requires |a| <= |s| && s[|s| - |a|..] == a && '/' !in a && (|a| < |s| ==> s[|s| - |a| - 1] == '/')
    requires |b| <= |s| && s[|s| - |b|..] == b && '/' !in b && (|b| < |s| ==> s[|s| - |b| - 1] == '/')
    ensures a == b
  {
    if |a| < |b| {
      SlashInside(s, a, b);
    } else if |b| < |a| {
      SlashInside(s, b, a);
    }
  }

  lemma SlashInside(s: string, a: string, b: string)
    requires |a| < |b| <= |s| && s[|s| - |b|..] == b && s[|s| - |a| - 1] == '/'
    ensures '/' in b
  {
    assert b[|b| - |a| - 1] == s[|s| - |a| - 1];
  }

  ghost predicate NamedAlike(v: Value, v': Value, dump: Dump) {
    exists text :: GoesBy(v, text, dump) && GoesBy(v', text, dump)
  }

  lemma NamedAlikeExactly(v: Value, v': Value, dump: Dump)
    ensures NamedAlike(v, v', dump) <==> SchemaName(v, dump) == SchemaName(v', dump)
  {
    hide GoesBy, SchemaName;
    GoesByExactly(v, SchemaName(v, dump), dump);
    GoesByExactly(v', SchemaName(v, dump), dump);
    forall text | GoesBy(v, text, dump) && GoesBy(v', text, dump)
      ensures SchemaName(v, dump) == SchemaName(v', dump)
    {
      GoesByExactly(v, text, dump);
      GoesByExactly(v', text, dump);
    }
  }

  // If different schemas dump differently, inline schemas are named alike exactly when they agree.
  lemma InlineAlikeExactly(v: Value, v': Value, dump: Dump)
    requires v.Obj? && v'.Obj? && forall name :: !RefersTo(v, name) && !RefersTo(v', name)
    requires forall a, b :: dump(a) == dump(b) ==> a == b
    ensures NamedAlike(v, v', dump) <==> Agree(v, v')
  {
    hide Normalize, Agree;
    AgreeExactly(v, v');
    assert GoesBy(v, dump(Normalize(v)), dump);
  }

  // ------------------------------------------------------------------ operations

  // Python can look it up in a dictionary or a set.
  predicate Scalar(v: Value) {
    v.Null? || v.Bool? || v.Num? || v.Text?
  }

  ghost predicate SameParameter(p: Parameter, q: Parameter) {
    q.location == p.location && q.name == p.name && q.required == p.required && Agree(p.schema, q.schema)
  }

  // Parameter p is still there: the last one under its key has its flag and a schema that agrees.
  ghost predicate ParameterStays(p: Parameter, ps: seq<Parameter>) {
    exists j :: 0 <= j < |ps| && SameParameter(p, ps[j]) && LastUnderKey(ps, j)
  }

  ghost predicate ScalarKeys(ps: seq<Parameter>) {
    forall i | 0 <= i < |ps| :: Scalar(ps[i].location) && Scalar(ps[i].name)
  }

  // The response stays under its quoted code. One under an unquoted code has been recorded without its schema.
  ghost predicate ResponseStays(op: Operation, op': Operation, code: Code, dump: Dump)
    requires code in op.responses && op.responses[code].Some?
  {
    var key := Code(code.text, true);
    && key in op'.responses && op'.responses[key].Some?
    && NamedAlike(if code.quoted then op.responses[code].value else Obj(map[]), op'.responses[key].value, dump)
  }

  ghost predicate OperationStays(op: Operation, op': Operation, dump: Dump) {
    && op'.operationId == op.operationId && op'.rbacScope == op.rbacScope
    && ScalarKeys(op.parameters) && ScalarKeys(op'.parameters)
    && (forall i | 0 <= i < |op.parameters| :: ParameterStays(op.parameters[i], op'.parameters))
    && (op.bodyRequired ==> op'.bodyRequired)
    && NamedAlike(op.requestSchema, op'.requestSchema, dump)
    && (forall code | code in op.responses && op.responses[code].Some? :: ResponseStays(op, op', code, dump))
  }

  lemma ParameterStaysExactly(op: Operation, p: Parameter)
    ensures ParameterKept(op, Signature(p)) <==> ParameterStays(p, op.parameters)
  {
    hide Normalize, Current, Agree;
    var ps, key := op.parameters, (p.location, p.name);
    if ParameterKept(op, Signature(p)) {
      var j := CurrentComesFrom(ps, key);
      AgreeExactly(p.schema, ps[j].schema);
      assert SameParameter(p, ps[j]);
    }
    if j :| 0 <= j < |ps| && SameParameter(p, ps[j]) && LastUnderKey(ps, j) {
      CurrentHoldsLast(ps, j);
      AgreeExactly(p.schema, ps[j].schema);
    }
  }

  lemma ScalarKeysExactly(ps: seq<Parameter>)
    ensures ScalarKeys(ps) <==> HashableKeys(ps)
  {
    if ScalarKeys(ps) {
      forall p | p in ps
        ensures Hashable(p.location) && Hashable(p.name)
      {
        var i :| 0 <= i < |ps| && ps[i] == p;
      }
    }
    if HashableKeys(ps) {
      assert forall i | 0 <= i < |ps| :: ps[i] in ps;
    }
  }

  lemma ParametersStayExactly(op: Operation, op': Operation, dump: Dump)
    ensures var base := OperationBaseline(op, dump).parameters;
            && (HashableKeys(base) <==> ScalarKeys(op.parameters))
            && ((forall p <- base :: ParameterKept(op', p)) <==>
                forall i | 0 <= i < |op.parameters| :: ParameterStays(op.parameters[i], op'.parameters))
  {
    hide Normalize, ParameterKept, ParameterStays, SchemaName;
    SameKeys(op, dump);
    ScalarKeysExactly(op.parameters);
    var base := OperationBaseline(op, dump).parameters;
    forall i | 0 <= i < |op.parameters|
      ensures base[i] in base && (ParameterKept(op', base[i]) <==> ParameterStays(op.parameters[i], op'.parameters))
    {
      ParameterStaysExactly(op', op.parameters[i]);
    }
    forall p | p in base
      ensures exists i :: 0 <= i < |op.parameters| && base[i] == p
    {}
  }

  lemma ResponsesStayExactly(op: Operation, op': Operation, dump: Dump)
    requires SortableCodes(op)
    ensures var base := OperationBaseline(op, dump);
            (forall text <- base.responses :: ResponseKept(op', base, text, dump)) <==>
            forall code | code in op.responses && op.responses[code].Some? :: ResponseStays(op, op', code, dump)
  {
    hide SchemaName, NamedAlike;
    var base := OperationBaseline(op, dump);
    forall code | code in op.responses && op.responses[code].Some?
      ensures code.text in base.responses
      ensures ResponseKept(op', base, code.text, dump) <==> ResponseStays(op, op', code, dump)
    {
      var key := Code(code.text, true);
      assert code.quoted ==> key == code;
      assert !code.quoted ==> key !in op.responses;
      if key in op'.responses && op'.responses[key].Some? {
        NamedAlikeExactly(if code.quoted then op.responses[code].value else Obj(map[]), op'.responses[key].value, dump);
      }
    }
  }

  lemma OperationStaysExactly(op: Operation, op': Operation, dump: Dump)
    requires SortableCodes(op)
    ensures OperationOk(op', OperationBaseline(op, dump), dump) <==> OperationStays(op, op', dump)
  {
    hide SchemaName, NamedAlike, ParameterKept, ParameterStays, ResponseKept, ResponseStays, HashableKeys, ScalarKeys;
    ParametersStayExactly(op, op', dump);
    ScalarKeysExactly(op'.parameters);
    ResponsesStayExactly(op, op', dump);
    NamedAlikeExactly(op.requestSchema, op'.requestSchema, dump);
  }

  // ------------------------------------------------------------------ schemas

  predicate Enumerates(v: Value, x: Value) {
    v.Obj? && "enum" in v.fields && v.fields["enum"].List? && x in v.fields["enum"].items
  }

  // An object property is still there, agrees, and keeps its enumerated values; what is enumerated is scalar.
  ghost predicate PropertyStays(v: Value, properties: map<string, Value>, name: string) {
    && name in properties && properties[name].Obj? && Agree(v, properties[name])
    && (forall x :: Enumerates(v, x) ==> Scalar(x) && Enumerates(properties[name], x))
    && (forall x :: Enumerates(properties[name], x) ==> Scalar(x))
  }

  ghost predicate SchemaStays(s: Schema, s': Schema, isProtected: bool) {
    && s'.typ == s.typ
    && (forall f <- s.required :: f in s'.required)
    && (isProtected ==> forall f <- s'.required :: f in s.required)
    && (forall name | name in s.properties && s.properties[name].Obj? ::
          PropertyStays(s.properties[name], s'.properties, name))
  }

  lemma PropertyStaysExactly(s: Schema, s': Schema, name: string)
    requires name in s.properties && s.properties[name].Obj?
    ensures name in SchemaBaseline(s).properties
    ensures PropertyOk(s'.properties, SchemaBaseline(s).properties, name) <==>
            PropertyStays(s.properties[name], s'.properties, name)
  {
    hide Normalize, Agree;
    var v := s.properties[name];
    forall x
      ensures x in EnumOf(v) <==> Enumerates(v, x)
      ensures Hashable(x) <==> Scalar(x)
    {}
    if name in s'.properties && s'.properties[name].Obj? {
      AgreeExactly(v, s'.properties[name]);
      assert forall x :: x in EnumOf(s'.properties[name]) <==> Enumerates(s'.properties[name], x);
    }
  }

  lemma SchemaStaysExactly(s: Schema, s': Schema, isProtected: bool)
    ensures SchemaOk(s', SchemaBaseline(s), isProtected) <==> SchemaStays(s, s', isProtected)
  {
    hide Normalize, PropertyOk, PropertyStays;
    var base := SchemaBaseline(s).properties;
    forall name
      ensures name in base <==> name in s.properties && s.properties[name].Obj?
      ensures name in base ==> (PropertyOk(s'.properties, base, name) <==>
                                PropertyStays(s.properties[name], s'.properties, name))
    {
      if name in s.properties && s.properties[name].Obj? {
        PropertyStaysExactly(s, s', name);
      }
    }
  }

  // ------------------------------------------------------------------ specifications

  predicate IsMethod(m: string) {
    m == "get" || m == "post" || m == "put" || m == "patch" || m == "delete"
  }

  ghost predicate HasOperation(s: Spec, path: string, m: string) {
    && path in s.paths && s.paths[path].Some? && m in s.paths[path].value && s.paths[path].value[m].Some?
    && IsMethod(m)
  }

  function OperationAt(s: Spec, path: string, m: string): Operation
    requires HasOperation(s, path, m)
  {
    s.paths[path].value[m].value
  }

  // The request body of some operation goes by this name, and the name is no inline text.
  ghost predicate IsRequestName(s: Spec, name: string, dump: Dump) {
    && name != "" && '\n' !in name && name != "{}"
    && exists path, m :: HasOperation(s, path, m) && GoesBy(OperationAt(s, path, m).requestSchema, name, dump)
  }

  ghost predicate Guarded(s: Spec, s': Spec, dump: Dump) {
    && (forall path | path in s.paths && s.paths[path].Some? :: path in s'.paths && s'.paths[path].Some?)
    && (forall path, m | HasOperation(s, path, m) ::
          HasOperation(s', path, m) && OperationStays(OperationAt(s, path, m), OperationAt(s', path, m), dump))
    && (forall name | name in s.schemas && s.schemas[name].Some? ::
          && name in s'.schemas && s'.schemas[name].Some?
          && SchemaStays(s.schemas[name].value, s'.schemas[name].value, IsRequestName(s, name, dump)))
  }

  lemma BaselineOperations(s: Spec, dump: Dump, path: string, m: string)
    ensures var base := BaselineOf(s, dump);
            && (path in base.paths <==> path in s.paths && s.paths[path].Some?)
            && (path in base.paths && m in base.paths[path] <==> HasOperation(s, path, m))
            && (HasOperation(s, path, m) ==> base.paths[path][m] == OperationBaseline(OperationAt(s, path, m), dump))
  {
    hide OperationBaseline, SchemaBaseline;
    assert m in METHODS <==> IsMethod(m);
  }

  lemma ProtectedExactly(s: Spec, dump: Dump, name: string)
    ensures ProtectedName(BaselineOf(s, dump), name) <==> IsRequestName(s, name, dump)
  {
    hide BaselineOf, SchemaName, GoesBy;
    var base := BaselineOf(s, dump);
    forall path, m
      ensures path in base.paths && m in base.paths[path] <==> HasOperation(s, path, m)
      ensures HasOperation(s, path, m) ==>
                (base.paths[path][m].requestSchema == name <==>
                 GoesBy(OperationAt(s, path, m).requestSchema, name, dump))
    {
      BaselineOperations(s, dump, path, m);
      if HasOperation(s, path, m) {
        GoesByExactly(OperationAt(s, path, m).requestSchema, name, dump);
      }
    }
  }

  lemma OperationsGuarded(s: Spec, s': Spec, dump: Dump)
    requires Generable(s)
    ensures OperationsOk(s', BaselineOf(s, dump), dump) <==>
            && (forall path | path in s.paths && s.paths[path].Some? :: path in s'.paths && s'.paths[path].Some?)
            && (forall path, m | HasOperation(s, path, m) ::
                  HasOperation(s', path, m) && OperationStays(OperationAt(s, path, m), OperationAt(s', path, m), dump))
  {
    hide BaselineOf, OperationOk, OperationStays, OperationBaseline, SortableCodes;
    var base := BaselineOf(s, dump);
    forall path, m
      ensures path in base.paths <==> path in s.paths && s.paths[path].Some?
      ensures path in base.paths && m in base.paths[path] <==> HasOperation(s, path, m)
      ensures HasOperation(s, path, m) && HasOperation(s', path, m) ==>
                (OperationOk(OperationAt(s', path, m), base.paths[path][m], dump) <==>
                 OperationStays(OperationAt(s, path, m), OperationAt(s', path, m), dump))
    {
      BaselineOperations(s, dump, path, m);
      if HasOperation(s, path, m) && HasOperation(s', path, m) {
        assert m in METHODS;
        OperationStaysExactly(OperationAt(s, path, m), OperationAt(s', path, m), dump);
      }
    }
    forall path
      ensures path in base.paths <==> path in s.paths && s.paths[path].Some?
    {
      BaselineOperations(s, dump, path, "get");
    }
    PathsOkExactly(s, s', base, dump);
  }

  lemma PathsOkExactly(s: Spec, s': Spec, base: Baseline, dump: Dump)
    requires forall path :: path in base.paths <==> path in s.paths && s.paths[path].Some?
    requires forall path, m :: path in base.paths && m in base.paths[path] <==> HasOperation(s, path, m)
    ensures OperationsOk(s', base, dump) <==>
            && (forall path | path in s.paths && s.paths[path].Some? :: path in s'.paths && s'.paths[path].Some?)
            && (forall path, m | HasOperation(s, path, m) ::
                  HasOperation(s', path, m) && OperationOk(OperationAt(s', path, m), base.paths[path][m], dump))
  {
    hide OperationOk;
    if OperationsOk(s', base, dump) {
      forall path, m | HasOperation(s, path, m)
        ensures HasOperation(s', path, m) && OperationOk(OperationAt(s', path, m), base.paths[path][m], dump)
      {
        assert PathOk(s', base, path, dump);
        assert MethodOk(s'.paths[path].value, base.paths[path], m, dump);
      }
    }
    if (forall path | path in s.paths && s.paths[path].Some? :: path in s'.paths && s'.paths[path].Some?)
       && forall path, m | HasOperation(s, path, m) ::
            HasOperation(s', path, m) && OperationOk(OperationAt(s', path, m), base.paths[path][m], dump) {
      forall path | path in base.paths
        ensures PathOk(s', base, path, dump)
      {
        forall m | m in base.paths[path]
          ensures MethodOk(s'.paths[path].value, base.paths[path], m, dump)
        {
          assert HasOperation(s, path, m);
        }
      }
    }
  }

  lemma SchemasGuarded(s: Spec, s': Spec, dump: Dump)
    ensures SchemasOk(s', BaselineOf(s, dump)) <==>
            forall name | name in s.schemas && s.schemas[name].Some? ::
              && name in s'.schemas && s'.schemas[name].Some?
              && SchemaStays(s.schemas[name].value, s'.schemas[name].value, IsRequestName(s, name, dump))
  {
    hide SchemaOk, SchemaStays, SchemaBaseline, ProtectedName, IsRequestName, OperationBaseline;
    var base := BaselineOf(s, dump);
    forall name
      ensures name in base.schemas <==> name in s.schemas && s.schemas[name].Some?
      ensures name in base.schemas && name in s'.schemas && s'.schemas[name].Some? ==>
                (SchemaOk(s'.schemas[name].value, base.schemas[name], ProtectedName(base, name)) <==>
                 SchemaStays(s.schemas[name].value, s'.schemas[name].value, IsRequestName(s, name, dump)))
    {
      if name in s.schemas && s.schemas[name].Some? && name in s'.schemas && s'.schemas[name].Some? {
        ProtectedExactly(s, dump, name);
        SchemaStaysExactly(s.schemas[name].value, s'.schemas[name].value, IsRequestName(s, name, dump));
      }
    }
  }

  // The guard accepts a specification against the baseline of another exactly when everything the other
  // declares stays: operations with their ids, scopes, parameters, required bodies, request and response
  // schemas, and schemas with their type, required fields and properties at every depth.
  lemma AcceptsExactly(s: Spec, s': Spec, dump: Dump)
    requires Generate(s, dump).Some?
    ensures Accepts(s', Generate(s, dump).value, dump) <==> Guarded(s, s', dump)
  {
    hide OperationsOk, SchemasOk, BaselineOf, OperationStays, SchemaStays;
    OperationsGuarded(s, s', dump);
    SchemasGuarded(s, s', dump);
  }
}
