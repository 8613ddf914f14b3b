/** The compatibility check is a preorder on specifications, closed under additive change. */
module CompatibilityProofs {
  import opened Options
  import opened Compatibility

  // ------------------------------------------------------------------ signatures

  lemma {:induction false} NormalizeIdempotent(v: Value)
    ensures Normalize(Normalize(v)) == Normalize(v)
  {
    if v.Obj? {
      var once := Normalize(v).fields;
      forall k | k in once
        ensures Normalize(Normalize(v)).fields[k] == once[k]
      {
        if k in NESTED {
          NormalizeIdempotent(v.fields[k]);
        } else if k in COMPOSED {
          NormalizeItemsIdempotent(v.fields[k]);
        }
      }
      assert Normalize(Normalize(v)).fields == once;
    }
  }

  lemma {:induction false} NormalizeItemsIdempotent(v: Value)
    ensures NormalizeItems(NormalizeItems(v)) == NormalizeItems(v)
  {
    if v.List? {
      forall i | 0 <= i < |v.items|
        ensures Normalize(Normalize(v.items[i])) == Normalize(v.items[i])
      {
        NormalizeIdempotent(v.items[i]);
      }
    }
  }

  ghost predicate LastUnderKey(ps: seq<Parameter>, i: nat)
    requires i < |ps|
  {
    forall j | i < j < |ps| :: (ps[j].location, ps[j].name) != (ps[i].location, ps[i].name)
  }

  // The dictionary holds, under each key, the signature of the last parameter with that key.
  lemma {:induction false} CurrentHoldsLast(ps: seq<Parameter>, i: nat)
    requires i < |ps|
    ensures (ps[i].location, ps[i].name) in Current(ps)
    ensures LastUnderKey(ps, i) ==> Current(ps)[(ps[i].location, ps[i].name)] == Signature(ps[i])
  {
    var n := |ps| - 1;
    if i < n {
      CurrentHoldsLast(ps[..n], i);
      if LastUnderKey(ps, i) {
        assert LastUnderKey(ps[..n], i);
        assert (ps[n].location, ps[n].name) != (ps[i].location, ps[i].name);
      }
    }
  }

  // Every entry of the dictionary is the signature of some parameter under that key.
  lemma {:induction false} CurrentComesFrom(ps: seq<Parameter>, key: (Value, Value)) returns (i: nat)
    requires key in Current(ps)
    ensures i < |ps| && (ps[i].location, ps[i].name) == key && Current(ps)[key] == Signature(ps[i])
            && LastUnderKey(ps, i)
  {
    var n := |ps| - 1;
    if (ps[n].location, ps[n].name) == key {
      i := n;
    } else {
      i := CurrentComesFrom(ps[..n], key);
      assert forall j | i < j < n :: ps[j] == ps[..n][j];
    }
  }

  // ------------------------------------------------------------------ reflexivity, exactly

  // Parameters under one (location, name) agree.
  ghost predicate ConsistentParameters(op: Operation) {
    forall i, j | 0 <= i < j < |op.parameters| &&
                  (op.parameters[i].location, op.parameters[i].name)
                      == (op.parameters[j].location, op.parameters[j].name) ::
      Signature(op.parameters[i]) == Signature(op.parameters[j])
  }

  // Every response that is an object has a quoted status code.
  ghost predicate QuotedCodes(op: Operation) {
    forall code | code in op.responses && op.responses[code].Some? :: code.quoted
  }

  ghost predicate SelfConsistent(spec: Spec) {
    forall path, m | path in spec.paths && spec.paths[path].Some? && m in spec.paths[path].value && m in METHODS
                     && spec.paths[path].value[m].Some? ::
      ConsistentOperation(spec.paths[path].value[m].value)
  }

  ghost predicate ConsistentOperation(op: Operation) {
    HashableKeys(op.parameters) && ConsistentParameters(op) && SortableCodes(op) && QuotedCodes(op)
  }

  // No enumeration lists a list or an object.
  ghost predicate HashableEnums(spec: Spec) {
    forall name, property | name in spec.schemas && spec.schemas[name].Some?
        && property in spec.schemas[name].value.properties ::
      HashableItems(EnumOf(spec.schemas[name].value.properties[property]))
  }

  lemma ParametersKeptIffConsistent(op: Operation)
    ensures (forall i | 0 <= i < |op.parameters| :: ParameterKept(op, Signature(op.parameters[i])))
            <==> ConsistentParameters(op)
  {
    var ps := op.parameters;
    if ConsistentParameters(op) {
      forall i | 0 <= i < |ps|
        ensures ParameterKept(op, Signature(ps[i]))
      {
        CurrentHoldsLast(ps, i);
        var j := CurrentComesFrom(ps, (ps[i].location, ps[i].name));
        assert i <= j;
      }
    }
    if forall i | 0 <= i < |ps| :: ParameterKept(op, Signature(ps[i])) {
      forall i, j | 0 <= i < j < |ps| && (ps[i].location, ps[i].name) == (ps[j].location, ps[j].name)
        ensures Signature(ps[i]) == Signature(ps[j])
      {
        assert ParameterKept(op, Signature(ps[i])) && ParameterKept(op, Signature(ps[j]));
      }
    }
  }

  lemma ResponsesKeptIffQuoted(op: Operation, dump: Dump)
    requires SortableCodes(op)
    ensures var base := OperationBaseline(op, dump);
            (forall text <- base.responses :: ResponseKept(op, base, text, dump)) <==> QuotedCodes(op)
  {
    var base := OperationBaseline(op, dump);
    if forall text <- base.responses :: ResponseKept(op, base, text, dump) {
      forall code | code in op.responses && op.responses[code].Some?
        ensures code.quoted
      {
        assert code.text in base.responses;
        assert ResponseKept(op, base, code.text, dump);
      }
    }
  }

  lemma OperationSelfOk(op: Operation, dump: Dump)
    requires SortableCodes(op)
    ensures OperationOk(op, OperationBaseline(op, dump), dump) <==> ConsistentOperation(op)
  {
    var base := OperationBaseline(op, dump);
    SameKeys(op, dump);
    ParametersKeptIffConsistent(op);
    ResponsesKeptIffQuoted(op, dump);
    if forall p <- base.parameters :: ParameterKept(op, p) {
      forall i | 0 <= i < |op.parameters|
        ensures ParameterKept(op, Signature(op.parameters[i]))
      {
        assert base.parameters[i] in base.parameters;
      }
    }
  }

  lemma SameKeys(op: Operation, dump: Dump)
    ensures HashableKeys(OperationBaseline(op, dump).parameters) <==> HashableKeys(op.parameters)
  {
    var base := OperationBaseline(op, dump).parameters;
    forall i | 0 <= i < |op.parameters|
      ensures base[i] in base && base[i].location == op.parameters[i].location && base[i].name == op.parameters[i].name
    {}
  }

  lemma SchemaSelfOk(schema: Schema, isProtected: bool)
    ensures SchemaOk(schema, SchemaBaseline(schema), isProtected) <==>
            forall property <- schema.properties :: HashableItems(EnumOf(schema.properties[property]))
  {
    hide Normalize;
    var base := SchemaBaseline(schema).properties;
    forall name <- schema.properties
      ensures if schema.properties[name].Obj?
              then name in base
                  && (PropertyOk(schema.properties, base, name) <==> HashableItems(EnumOf(schema.properties[name])))
              else name !in base && HashableItems(EnumOf(schema.properties[name]))
    {}
  }

  lemma SchemasSelfOk(spec: Spec, dump: Dump)
    ensures SchemasOk(spec, BaselineOf(spec, dump)) <==> HashableEnums(spec)
  {
    hide SchemaOk, SchemaBaseline, ProtectedName, EnumOf;
    var base := BaselineOf(spec, dump);
    forall name <- base.schemas
      ensures SchemaAtOk(spec, base, name) <==> forall property <- spec.schemas[name].value.properties ::
                HashableItems(EnumOf(spec.schemas[name].value.properties[property]))
    {
      SchemaSelfOk(spec.schemas[name].value, ProtectedName(base, name));
    }
    forall name | name in spec.schemas && spec.schemas[name].Some?
      ensures name in base.schemas
    {}
  }

  ghost predicate AcceptsOwnBaseline(spec: Spec, dump: Dump) {
    Generate(spec, dump).Some? && Accepts(spec, Generate(spec, dump).value, dump)
  }

  // A specification has a baseline and validates against it exactly when no operation mixes quoted and
  // unquoted response codes, the codes of its response objects are quoted, parameters under one key agree,
  // and no parameter key or enumeration holds a list or an object.
  lemma ReflexiveExactly(spec: Spec, dump: Dump)
    ensures AcceptsOwnBaseline(spec, dump) <==> SelfConsistent(spec) && HashableEnums(spec)
  {
    if Generable(spec) {
      SelfAcceptedExactly(spec, dump);
    }
  }

  lemma SelfAcceptedExactly(spec: Spec, dump: Dump)
    requires Generable(spec)
    ensures Accepts(spec, BaselineOf(spec, dump), dump) <==> SelfConsistent(spec) && HashableEnums(spec)
  {
    hide OperationOk, SchemasOk, HashableEnums, ConsistentOperation, OperationBaseline;
    var base := BaselineOf(spec, dump);
    SchemasSelfOk(spec, dump);
    forall path, m | path in base.paths && m in base.paths[path]
      ensures MethodOk(spec.paths[path].value, base.paths[path], m, dump) <==>
              ConsistentOperation(spec.paths[path].value[m].value)
    {
      OperationSelfOk(spec.paths[path].value[m].value, dump);
    }
    if OperationsOk(spec, base, dump) {
      forall path, m | path in spec.paths && spec.paths[path].Some? && m in spec.paths[path].value && m in METHODS
                       && spec.paths[path].value[m].Some?
        ensures ConsistentOperation(spec.paths[path].value[m].value)
      {
        assert path in base.paths && m in base.paths[path];
        assert PathOk(spec, base, path, dump);
      }
    }
  }

  // An enumeration of objects is enough to make the checker reject a specification it was generated from.
  lemma ObjectEnumIsRejected(dump: Dump)
    ensures var property := Obj(map["enum" := List([Obj(map["k" := Num(1)])])]);
            var spec := Spec(map[], map["A" := Some(Schema(Text("object"), [], map["p" := property]))]);
            SelfConsistent(spec) && Generate(spec, dump).Some? && !AcceptsOwnBaseline(spec, dump)
  {
    var item := Obj(map["k" := Num(1)]);
    var property := Obj(map["enum" := List([item])]);
    var spec := Spec(map[], map["A" := Some(Schema(Text("object"), [], map["p" := property]))]);
    ReflexiveExactly(spec, dump);
    assert EnumOf(spec.schemas["A"].value.properties["p"]) == [item] && item in [item];
  }

  function WithResponses(responses: map<Code, Option<Value>>): Operation {
    Operation(Null, Null, [], false, Null, responses)
  }

  function OneOperation(op: Operation): Spec {
    Spec(map["/a" := Some(map["get" := Some(op)])], map[])
  }

  lemma OneOperationSelfOk(op: Operation, dump: Dump)
    ensures Generate(OneOperation(op), dump).Some? <==> SortableCodes(op)
    ensures AcceptsOwnBaseline(OneOperation(op), dump) <==> ConsistentOperation(op)
  {
    hide SortableCodes, HashableKeys, ConsistentParameters, QuotedCodes, BaselineOf, Accepts;
    var spec := OneOperation(op);
    assert spec.paths["/a"].value["get"].value == op && "get" in METHODS;
    ReflexiveExactly(spec, dump);
  }

  // Adding a response under an unquoted code to one under a quoted code: the checker accepts the change,
  // but the generator then raises.
  lemma MixedCodesHaveNoBaseline(dump: Dump)
    ensures var before := WithResponses(map[Code("200", true) := Some(Obj(map[]))]);
            var after := WithResponses(map[Code("200", true) := Some(Obj(map[])), Code("404", false) := None]);
            var (s, s') := (OneOperation(before), OneOperation(after));
            && AcceptsOwnBaseline(s, dump) && Accepts(s', BaselineOf(s, dump), dump)
            && Generate(s', dump).None? && !AcceptsOwnBaseline(s', dump)
  {
    hide BaselineOf, Accepts, Generate, AcceptsOwnBaseline;
    var before := WithResponses(map[Code("200", true) := Some(Obj(map[]))]);
    var after := WithResponses(map[Code("200", true) := Some(Obj(map[])), Code("404", false) := None]);
    OneOperationSelfOk(before, dump);
    OneOperationSelfOk(after, dump);
    assert Code("200", true) in after.responses && Code("404", false) in after.responses;
    var s, s' := OneOperation(before), OneOperation(after);
    assert ExtendsPath(s.paths["/a"].value, s'.paths["/a"].value);
    BaselineIsGenerated(s, dump);
    AdditiveChangeStaysValid(s, s', BaselineOf(s, dump), dump);
  }

  lemma BaselineIsGenerated(spec: Spec, dump: Dump)
    requires AcceptsOwnBaseline(spec, dump)
    ensures Accepts(spec, BaselineOf(spec, dump), dump)
  {}

  // ------------------------------------------------------------------ transitivity

  lemma OperationTransitive(op2: Operation, op3: Operation, base: BaseOperation, dump: Dump)
    requires OperationOk(op2, base, dump) && OperationOk(op3, OperationBaseline(op2, dump), dump)
    ensures OperationOk(op3, base, dump)
  {
    var base2 := OperationBaseline(op2, dump);
    forall p | p in base.parameters
      ensures ParameterKept(op3, p)
    {
      assert ParameterKept(op2, p);
      var i := CurrentComesFrom(op2.parameters, (p.location, p.name));
      assert base2.parameters[i] == p && base2.parameters[i] in base2.parameters;
    }
    forall text | text in base.responses
      ensures ResponseKept(op3, base, text, dump)
    {
      assert ResponseKept(op2, base, text, dump);
      assert text in ResponseTexts(op2.responses) by {
        assert Code(text, true) in op2.responses;
      }
      assert ResponseKept(op3, base2, text, dump);
    }
  }

  lemma SchemaTransitive(s2: Schema, s3: Schema, base: BaseSchema, protectedBefore: bool, protectedAfter: bool)
    requires SchemaOk(s2, base, protectedBefore) && SchemaOk(s3, SchemaBaseline(s2), protectedAfter)
    requires protectedBefore ==> protectedAfter
    ensures SchemaOk(s3, base, protectedBefore)
  {
    var base2 := SchemaBaseline(s2);
    forall name | name in base.properties
      ensures PropertyOk(s3.properties, base.properties, name)
    {
      assert PropertyOk(s2.properties, base.properties, name);
      assert PropertyOk(s3.properties, base2.properties, name);
    }
  }

  // Protection is inherited: a request schema protected by the old baseline is protected by the new one.
  lemma ProtectionInherited(s2: Spec, base: Baseline, dump: Dump, name: string)
    requires OperationsOk(s2, base, dump) && ProtectedName(base, name)
    requires forall path, m | path in base.paths && m in base.paths[path] :: m in METHODS
    ensures ProtectedName(BaselineOf(s2, dump), name)
  {
    var path, m :| path in base.paths && m in base.paths[path] && base.paths[path][m].requestSchema == name;
    assert PathOk(s2, base, path, dump);
    assert MethodOk(s2.paths[path].value, base.paths[path], m, dump);
    var base2 := BaselineOf(s2, dump);
    assert base2.paths[path][m].requestSchema == name;
  }

  // If s2 is compatible with s1 and s3 with s2 then s3 is compatible with s1.
  lemma Transitive(s1: Spec, s2: Spec, s3: Spec, dump: Dump)
    requires Accepts(s2, BaselineOf(s1, dump), dump) && Accepts(s3, BaselineOf(s2, dump), dump)
    ensures Accepts(s3, BaselineOf(s1, dump), dump)
  {
    OperationsTransitive(s1, s2, s3, dump);
    var b1, b2 := BaselineOf(s1, dump), BaselineOf(s2, dump);
    forall name | name in b1.schemas
      ensures SchemaAtOk(s3, b1, name)
    {
      assert SchemaAtOk(s2, b1, name);
      assert name in b2.schemas;
      assert SchemaAtOk(s3, b2, name);
      if ProtectedName(b1, name) {
        ProtectionInherited(s2, b1, dump, name);
      }
      SchemaTransitive(s2.schemas[name].value, s3.schemas[name].value, b1.schemas[name],
                       ProtectedName(b1, name), ProtectedName(b2, name));
    }
  }

  lemma OperationsTransitive(s1: Spec, s2: Spec, s3: Spec, dump: Dump)
    requires OperationsOk(s2, BaselineOf(s1, dump), dump) && OperationsOk(s3, BaselineOf(s2, dump), dump)
    ensures OperationsOk(s3, BaselineOf(s1, dump), dump)
  {
    var b1, b2 := BaselineOf(s1, dump), BaselineOf(s2, dump);
    forall path | path in b1.paths
      ensures PathOk(s3, b1, path, dump)
    {
      assert PathOk(s2, b1, path, dump);
      assert path in b2.paths;
      assert PathOk(s3, b2, path, dump);
      forall m | m in b1.paths[path]
        ensures MethodOk(s3.paths[path].value, b1.paths[path], m, dump)
      {
        assert MethodOk(s2.paths[path].value, b1.paths[path], m, dump);
        assert MethodOk(s3.paths[path].value, b2.paths[path], m, dump);
        OperationTransitive(s2.paths[path].value[m].value, s3.paths[path].value[m].value, b1.paths[path][m], dump);
      }
    }
  }

  // The required fields of a protected request schema are frozen along any compatible change.
  lemma ProtectedRequiredIsFrozen(s1: Spec, s2: Spec, dump: Dump, name: string)
    requires Accepts(s2, BaselineOf(s1, dump), dump)
    requires name in s1.schemas && s1.schemas[name].Some? && ProtectedName(BaselineOf(s1, dump), name)
    ensures name in s2.schemas && s2.schemas[name].Some?
    ensures forall f :: f in s1.schemas[name].value.required <==> f in s2.schemas[name].value.required
  {
    var b1 := BaselineOf(s1, dump);
    assert SchemaAtOk(s2, b1, name);
  }

  // ------------------------------------------------------------------ additive change

  // The signatures of the parameters under one key, in order.
  function Declared(ps: seq<Parameter>, key: (Value, Value)): seq<Parameter> {
    if ps == [] then []
    else
      var p := ps[|ps| - 1];
      Declared(ps[..|ps| - 1], key) + if (p.location, p.name) == key then [Signature(p)] else []
  }

  // The dictionary holds the last signature declared under each key.
  lemma {:induction false} CurrentIsLastDeclared(ps: seq<Parameter>, key: (Value, Value))
    ensures key in Current(ps) <==> Declared(ps, key) != []
    ensures var declared := Declared(ps, key);
            key in Current(ps) ==> Current(ps)[key] == declared[|declared| - 1]
  {
    if ps != [] {
      CurrentIsLastDeclared(ps[..|ps| - 1], key);
    }
  }

  // op' adds parameters under new keys, in any place, and responses under new codes; parameters under
  // different keys may change places, and schemas may change in keywords that no signature records.
  ghost predicate ExtendsOperation(op: Operation, op': Operation) {
    && op'.operationId == op.operationId && op'.rbacScope == op.rbacScope
    && (op.bodyRequired ==> op'.bodyRequired) && Normalize(op'.requestSchema) == Normalize(op.requestSchema)
    && (forall p <- op.parameters ::
          Declared(op'.parameters, (p.location, p.name)) == Declared(op.parameters, (p.location, p.name)))
    && (forall p <- op'.parameters :: (Hashable(p.location) && Hashable(p.name)) || HasKeyOf(op.parameters, p))
    && (forall code <- op.responses | op.responses[code].Some? ::
          && code in op'.responses && op'.responses[code].Some?
          && Normalize(op'.responses[code].value) == Normalize(op.responses[code].value))
  }

  ghost predicate HasKeyOf(ps: seq<Parameter>, p: Parameter) {
    exists q <- ps :: (q.location, q.name) == (p.location, p.name)
  }

  // Properties keep their signature and only gain enum values; new ones are never required.
  ghost predicate ExtendsSchema(s: Schema, s': Schema) {
    && s'.typ == s.typ && (forall f :: f in s.required <==> f in s'.required)
    && (forall name <- s.properties | s.properties[name].Obj? ::
          && name in s'.properties && s'.properties[name].Obj?
          && Normalize(s'.properties[name]) == Normalize(s.properties[name])
          && (forall v <- EnumOf(s.properties[name]) :: v in EnumOf(s'.properties[name]))
          && (forall v <- EnumOf(s'.properties[name]) :: v in EnumOf(s.properties[name]) || Hashable(v)))
  }

  ghost predicate ExtendsPath(item: PathItem, item': PathItem) {
    forall m <- item | item[m].Some? :: m in item' && item'[m].Some? && ExtendsOperation(item[m].value, item'[m].value)
  }

  ghost predicate Additive(s: Spec, s': Spec) {
    && (forall path <- s.paths | s.paths[path].Some? ::
          path in s'.paths && s'.paths[path].Some? && ExtendsPath(s.paths[path].value, s'.paths[path].value))
    && (forall name <- s.schemas | s.schemas[name].Some? ::
          name in s'.schemas && s'.schemas[name].Some? && ExtendsSchema(s.schemas[name].value, s'.schemas[name].value))
  }

  lemma SameNormalizedName(v: Value, v': Value, dump: Dump)
    requires Normalize(v) == Normalize(v')
    ensures SchemaName(v, dump) == SchemaName(v', dump)
  {
    if v.Obj? && v'.Obj? {
      assert "$ref" in SCALARS;
      assert "$ref" in v.fields <==> "$ref" in Normalize(v).fields;
      assert "$ref" in v'.fields <==> "$ref" in Normalize(v').fields;
    }
  }

  lemma ExtendedOperationOk(op: Operation, op': Operation, base: BaseOperation, dump: Dump)
    requires OperationOk(op, base, dump) && ExtendsOperation(op, op')
    ensures OperationOk(op', base, dump)
  {
    hide SchemaName, Normalize, Declared, Current;
    SameNormalizedName(op.requestSchema, op'.requestSchema, dump);
    forall p | p in base.parameters
      ensures ParameterKept(op', p)
    {
      assert ParameterKept(op, p);
      var key := (p.location, p.name);
      var i := CurrentComesFrom(op.parameters, key);
      assert op.parameters[i] in op.parameters;
      CurrentIsLastDeclared(op.parameters, key);
      CurrentIsLastDeclared(op'.parameters, key);
    }
    forall text | text in base.responses
      ensures ResponseKept(op', base, text, dump)
    {
      assert ResponseKept(op, base, text, dump);
      var code := Code(text, true);
      SameNormalizedName(op.responses[code].value, op'.responses[code].value, dump);
    }
  }

  lemma ExtendedSchemaOk(s: Schema, s': Schema, base: BaseSchema, isProtected: bool)
    requires SchemaOk(s, base, isProtected) && ExtendsSchema(s, s')
    ensures SchemaOk(s', base, isProtected)
  {}

  // Additive change never breaks validity, whatever baseline the specification is held to.
  lemma AdditiveChangeStaysValid(s: Spec, s': Spec, base: Baseline, dump: Dump)
    requires Accepts(s, base, dump) && Additive(s, s')
    ensures Accepts(s', base, dump)
  {
    forall path | path in base.paths
      ensures PathOk(s', base, path, dump)
    {
      assert PathOk(s, base, path, dump);
      forall m | m in base.paths[path]
        ensures MethodOk(s'.paths[path].value, base.paths[path], m, dump)
      {
        assert MethodOk(s.paths[path].value, base.paths[path], m, dump);
        ExtendedOperationOk(s.paths[path].value[m].value, s'.paths[path].value[m].value, base.paths[path][m], dump);
      }
    }
    forall name | name in base.schemas
      ensures SchemaAtOk(s', base, name)
    {
      assert SchemaAtOk(s, base, name);
      ExtendedSchemaOk(s.schemas[name].value, s'.schemas[name].value, base.schemas[name], ProtectedName(base, name));
    }
  }
}
