/** The loop in which the generator records responses, and the checker's loops, which stop at the first
    violation, against the declarative rules. */
module CompatibilityChecker {
  import opened Options
  import opened Compatibility

  // None: sorting the entries raises.
  method ResponseBaselines(op: Operation, dump: Dump) returns (responses: Option<map<string, string>>)
    ensures responses == if SortableCodes(op) then Some(OperationBaseline(op, dump).responses) else None
  {
    hide SchemaName;
    if exists code, code' :: code in op.responses && code' in op.responses && code.quoted != code'.quoted {
      return None;
    }
    var filled: map<string, string> := map[];
    var left := op.responses.Keys;
    while left != {}
      invariant left <= op.responses.Keys
      invariant forall text :: text in filled <==>
                exists quoted :: RecordedCode(op, Code(text, quoted)) && Code(text, quoted) !in left
      invariant forall text <- filled :: filled[text] == ResponseName(op.responses, text, dump)
    {
      var code :| code in left;
      left := left - {code};
      if op.responses[code].Some? {
        filled := filled[code.text := ResponseName(op.responses, code.text, dump)];
        assert RecordedCode(op, Code(code.text, code.quoted));
      }
    }
    responses := Some(filled);
    assert forall text :: text in ResponseTexts(op.responses) <==> text in filled by {
      forall text | text in ResponseTexts(op.responses)
        ensures text in filled
      {
        var code :| code in op.responses && op.responses[code].Some? && code.text == text;
        assert RecordedCode(op, Code(text, code.quoted));
      }
    }
    assert filled == OperationBaseline(op, dump).responses;
  }

  predicate RecordedCode(op: Operation, code: Code) {
    code in op.responses && op.responses[code].Some?
  }

  // None: a parameter whose key cannot be a dictionary key.
  method CurrentParameters(ps: seq<Parameter>) returns (current: Option<map<(Value, Value), Parameter>>)
    ensures current == if HashableKeys(ps) then Some(Current(ps)) else None
  {
    var filled: map<(Value, Value), Parameter> := map[];
    for i := 0 to |ps|
      invariant filled == Current(ps[..i]) && HashableKeys(ps[..i])
    {
      if !Hashable(ps[i].location) || !Hashable(ps[i].name) {
        assert ps[i] in ps;
        return None;
      }
      filled := filled[(ps[i].location, ps[i].name) := Signature(ps[i])];
      assert ps[..i + 1][..i] == ps[..i];
    }
    assert ps[..|ps|] == ps;
    current := Some(filled);
  }

  method ValidateOperation(op: Operation, base: BaseOperation, dump: Dump) returns (ok: bool)
    ensures ok <==> OperationOk(op, base, dump)
  {
    hide SchemaName, Current;
    if op.operationId != base.operationId || op.rbacScope != base.rbacScope {
      return false;
    }
    var filled := CurrentParameters(op.parameters);
    if filled.None? {
      return false;
    }
    var current := filled.value;
    for i := 0 to |base.parameters|
      invariant forall j | 0 <= j < i :: ParameterKept(op, base.parameters[j])
      invariant forall j | 0 <= j < i :: Hashable(base.parameters[j].location) && Hashable(base.parameters[j].name)
    {
      var p := base.parameters[i];
      var key := (p.location, p.name);
      if !Hashable(p.location) || !Hashable(p.name) {
        assert p in base.parameters;
        return false;
      }
      if key !in current || current[key] != p {
        assert p in base.parameters && !ParameterKept(op, p);
        return false;
      }
    }
    if base.bodyRequired && !op.bodyRequired {
      return false;
    }
    if SchemaName(op.requestSchema, dump) != base.requestSchema {
      return false;
    }
    var left := base.responses.Keys;
    while left != {}
      invariant left <= base.responses.Keys
      invariant forall text | text in base.responses && text !in left :: ResponseKept(op, base, text, dump)
    {
      var text :| text in left;
      var code := Code(text, true);
      if code !in op.responses || op.responses[code].None?
         || SchemaName(op.responses[code].value, dump) != base.responses[text] {
        assert !ResponseKept(op, base, text, dump);
        return false;
      }
      left := left - {text};
    }
    return true;
  }

  method ValidateOperations(spec: Spec, base: Baseline, dump: Dump) returns (ok: bool)
    ensures ok <==> OperationsOk(spec, base, dump)
  {
    var paths := base.paths.Keys;
    while paths != {}
      invariant paths <= base.paths.Keys
      invariant forall path | path in base.paths && path !in paths :: PathOk(spec, base, path, dump)
    {
      var path :| path in paths;
      if path !in spec.paths || spec.paths[path].None? {
        assert !PathOk(spec, base, path, dump);
        return false;
      }
      var item := spec.paths[path].value;
      var methods := base.paths[path].Keys;
      while methods != {}
        invariant methods <= base.paths[path].Keys
        invariant forall m | m in base.paths[path] && m !in methods :: MethodOk(item, base.paths[path], m, dump)
      {
        var m :| m in methods;
        if m !in item || item[m].None? {
          assert !MethodOk(item, base.paths[path], m, dump);
          assert !PathOk(spec, base, path, dump);
          return false;
        }
        var kept := ValidateOperation(item[m].value, base.paths[path][m], dump);
        if !kept {
          assert !MethodOk(item, base.paths[path], m, dump);
          assert !PathOk(spec, base, path, dump);
          return false;
        }
        methods := methods - {m};
      }
      paths := paths - {path};
    }
    return true;
  }

  method RequestSchemaNames(base: Baseline) returns (names: set<string>)
    ensures forall name :: name in names <==> ProtectedName(base, name)
  {
    names := {};
    var paths := base.paths.Keys;
    while paths != {}
      invariant paths <= base.paths.Keys
      invariant forall name <- names :: ProtectedName(base, name)
      invariant forall path, m | path in base.paths && path !in paths && m in base.paths[path] ::
                  Named(base, path, m) ==> base.paths[path][m].requestSchema in names
    {
      var path :| path in paths;
      var methods := base.paths[path].Keys;
      while methods != {}
        invariant methods <= base.paths[path].Keys
        invariant forall name <- names :: ProtectedName(base, name)
        invariant forall p, m | p in base.paths && p !in paths && m in base.paths[p] ::
                    Named(base, p, m) ==> base.paths[p][m].requestSchema in names
        invariant forall m | m in base.paths[path] && m !in methods ::
                    Named(base, path, m) ==> base.paths[path][m].requestSchema in names
      {
        var m :| m in methods;
        if Named(base, path, m) {
          names := names + {base.paths[path][m].requestSchema};
        }
        methods := methods - {m};
      }
      paths := paths - {path};
    }
  }

  // An operation whose request schema is a plain name rather than an inline dump.
  predicate Named(base: Baseline, path: string, m: string)
    requires path in base.paths && m in base.paths[path]
  {
    var name := base.paths[path][m].requestSchema;
    name != "" && '\n' !in name && name != "{}"
  }

  method ValidateSchema(schema: Schema, base: BaseSchema, isProtected: bool) returns (ok: bool)
    ensures ok <==> SchemaOk(schema, base, isProtected)
  {
    if schema.typ != base.typ {
      return false;
    }
    var required, before := set f <- schema.required, set f <- base.required;
    for i := 0 to |base.required|
      invariant forall j | 0 <= j < i :: base.required[j] in schema.required
    {
      if base.required[i] !in required {
        assert base.required[i] in base.required;
        return false;
      }
    }
    if isProtected && required - before != {} {
      var f :| f in required - before;
      assert f in schema.required && f !in base.required;
      return false;
    }
    assert isProtected ==> forall f <- schema.required :: f in required - before || f in base.required;
    var left := base.properties.Keys;
    while left != {}
      invariant left <= base.properties.Keys
      invariant forall name | name in base.properties && name !in left ::
                PropertyOk(schema.properties, base.properties, name)
    {
      var name :| name in left;
      if name !in schema.properties || !schema.properties[name].Obj? {
        assert !PropertyOk(schema.properties, base.properties, name);
        return false;
      }
      var property := schema.properties[name];
      if Normalize(property) != base.properties[name].signature {
        assert !PropertyOk(schema.properties, base.properties, name);
        return false;
      }
      var allowed, current := base.properties[name].allowed, EnumOf(property);
      if !HashableItems(allowed) || !HashableItems(current) {
        assert !PropertyOk(schema.properties, base.properties, name);
        return false;
      }
      if exists v <- allowed :: v !in current {
        assert !PropertyOk(schema.properties, base.properties, name);
        return false;
      }
      left := left - {name};
    }
    return true;
  }

  method ValidateSchemas(spec: Spec, base: Baseline) returns (ok: bool)
    ensures ok <==> SchemasOk(spec, base)
  {
    var protectedNames := RequestSchemaNames(base);
    var left := base.schemas.Keys;
    while left != {}
      invariant left <= base.schemas.Keys
      invariant forall name | name in base.schemas && name !in left :: SchemaAtOk(spec, base, name)
    {
      var name :| name in left;
      if name !in spec.schemas || spec.schemas[name].None? {
        assert !SchemaAtOk(spec, base, name);
        return false;
      }
      var kept := ValidateSchema(spec.schemas[name].value, base.schemas[name], name in protectedNames);
      if !kept {
        assert !SchemaAtOk(spec, base, name);
        return false;
      }
      left := left - {name};
    }
    return true;
  }

  method Validate(spec: Spec, base: Baseline, dump: Dump) returns (ok: bool)
    ensures ok <==> Accepts(spec, base, dump)
  {
    var operations := ValidateOperations(spec, base, dump);
    var schemas := ValidateSchemas(spec, base);
    return operations && schemas;
  }
}
