/** The Core API compatibility guard: a generator turns a specification into a baseline, and a checker
    compares a later specification with it. */
module Compatibility {
  import opened Options

  datatype Value =
    | Null
    | Bool(b: bool)
    | Num(n: int)
    | Text(s: string)
    | List(items: seq<Value>)
    | Obj(fields: map<string, Value>)

  const METHODS := {"get", "post", "put", "patch", "delete"}
  const SCALARS := {"$ref", "type", "format", "nullable", "minimum", "maximum", "minLength", "maxLength", "pattern"}
  const NESTED := {"items", "additionalProperties"}
  const COMPOSED := {"allOf", "anyOf", "oneOf"}

  // ------------------------------------------------------------------ specifications and baselines

  datatype Parameter = Parameter(location: Value, name: Value, required: bool, schema: Value)

  // A response key: YAML reads a quoted status code as a string, an unquoted one as a number.
  datatype Code = Code(text: string, quoted: bool)

  // None stands for an entry that is not an object.
  datatype Operation = Operation(operationId: Value, rbacScope: Value, parameters: seq<Parameter>, bodyRequired: bool,
                                 requestSchema: Value, responses: map<Code, Option<Value>>)

  datatype Schema = Schema(typ: Value, required: seq<string>, properties: map<string, Value>)

  type PathItem = map<string, Option<Operation>>

  datatype Spec = Spec(paths: map<string, Option<PathItem>>, schemas: map<string, Option<Schema>>)

  datatype BaseOperation = BaseOperation(operationId: Value, rbacScope: Value, parameters: seq<Parameter>,
                                         bodyRequired: bool,
                                         requestSchema: string, responses: map<string, string>)

  datatype BaseProperty = BaseProperty(signature: Value, allowed: seq<Value>)

  datatype BaseSchema = BaseSchema(typ: Value, required: seq<string>, properties: map<string, BaseProperty>)

  datatype Baseline = Baseline(paths: map<string, map<string, BaseOperation>>, schemas: map<string, BaseSchema>)

  // The YAML text of a value; nothing below depends on which text it is.
  type Dump = Value -> string

  // ------------------------------------------------------------------ signatures

  function Normalize(schema: Value): Value {
    match schema
    case Obj(fields) =>
      Obj(map k | k in fields && (k in SCALARS || k in NESTED || k in COMPOSED) ::
            if k in SCALARS then fields[k] else if k in NESTED then Normalize(fields[k]) else NormalizeItems(fields[k]))
    case _ => schema
  }

  function NormalizeItems(schemas: Value): Value {
    match schemas
    case List(items) => List(seq(|items|, i requires 0 <= i < |items| => Normalize(items[i])))
    case _ => schemas
  }

  function AfterLastSlash(s: string): (r: string)
    ensures |r| <= |s| && r == s[|s| - |r|..] && '/' !in r && (|r| < |s| ==> s[|s| - |r| - 1] == '/')
  {
    if s == "" || s[|s| - 1] == '/' then ""
    else
      var before := AfterLastSlash(s[..|s| - 1]);
      assert s == s[..|s| - 1] + [s[|s| - 1]];
      before + [s[|s| - 1]]
  }

  function SchemaRef(schema: Value): string {
    if schema.Obj? && "$ref" in schema.fields && schema.fields["$ref"].Text?
    then AfterLastSlash(schema.fields["$ref"].s)
    else ""
  }

  function SchemaName(schema: Value, dump: Dump): string {
    if !schema.Obj? then ""
    else if SchemaRef(schema) != "" then SchemaRef(schema)
    else dump(Normalize(schema))
  }

  function Signature(p: Parameter): Parameter {
    p.(schema := Normalize(p.schema))
  }

  // The checker's dictionary of parameters: the last one under a (location, name) wins.
  function Current(ps: seq<Parameter>): map<(Value, Value), Parameter> {
    if ps == [] then map[]
    else
      var last := ps[|ps| - 1];
      Current(ps[..|ps| - 1])[(last.location, last.name) := Signature(last)]
  }

  function EnumOf(property: Value): seq<Value> {
    if property.Obj? && "enum" in property.fields && property.fields["enum"].List?
    then property.fields["enum"].items
    else []
  }

  // ------------------------------------------------------------------ the generator

  function ResponseName(responses: map<Code, Option<Value>>, text: string, dump: Dump): string {
    var code := Code(text, true);
    SchemaName(if code in responses && responses[code].Some? then responses[code].value else Obj(map[]), dump)
  }

  function ResponseTexts(responses: map<Code, Option<Value>>): set<string> {
    set code | code in responses && responses[code].Some? :: code.text
  }

  function OperationBaseline(op: Operation, dump: Dump): BaseOperation {
    BaseOperation(op.operationId, op.rbacScope,
                  seq(|op.parameters|, i requires 0 <= i < |op.parameters| => Signature(op.parameters[i])),
                  op.bodyRequired, SchemaName(op.requestSchema, dump),
                  map text | text in ResponseTexts(op.responses) :: ResponseName(op.responses, text, dump))
  }

  // Entries are sorted before any is looked at, and Python cannot order a number and a string.
  predicate SortableCodes(op: Operation) {
    forall code, code' | code in op.responses && code' in op.responses :: code.quoted == code'.quoted
  }

  function SchemaBaseline(schema: Schema): BaseSchema {
    BaseSchema(schema.typ, schema.required,
               map name | name in schema.properties && schema.properties[name].Obj? ::
                 BaseProperty(Normalize(schema.properties[name]), EnumOf(schema.properties[name])))
  }

  function PathBaseline(item: PathItem, dump: Dump): map<string, BaseOperation> {
    map m | m in item && m in METHODS && item[m].Some? :: OperationBaseline(item[m].value, dump)
  }

  function BaselineOf(spec: Spec, dump: Dump): Baseline {
    Baseline(map path | path in spec.paths && spec.paths[path].Some? :: PathBaseline(spec.paths[path].value, dump),
             map name | name in spec.schemas && spec.schemas[name].Some? :: SchemaBaseline(spec.schemas[name].value))
  }

  ghost predicate Generable(spec: Spec) {
    forall path, m | path in spec.paths && spec.paths[path].Some? && m in spec.paths[path].value && m in METHODS
                     && spec.paths[path].value[m].Some? ::
      SortableCodes(spec.paths[path].value[m].value)
  }

  // None: the generator raises.
  ghost function Generate(spec: Spec, dump: Dump): Option<Baseline> {
    if Generable(spec) then Some(BaselineOf(spec, dump)) else None
  }

  // ------------------------------------------------------------------ the checker

  // Lists and objects can be neither set members nor dictionary keys: building one with them raises.
  predicate Hashable(v: Value) {
    !v.List? && !v.Obj?
  }

  predicate HashableKeys(ps: seq<Parameter>) {
    forall p <- ps :: Hashable(p.location) && Hashable(p.name)
  }

  predicate HashableItems(items: seq<Value>) {
    forall v <- items :: Hashable(v)
  }

  predicate ParameterKept(op: Operation, p: Parameter) {
    (p.location, p.name) in Current(op.parameters) && Current(op.parameters)[(p.location, p.name)] == p
  }

  predicate ResponseKept(op: Operation, base: BaseOperation, text: string, dump: Dump)
    requires text in base.responses
  {
    var code := Code(text, true);
    code in op.responses && op.responses[code].Some?
        && SchemaName(op.responses[code].value, dump) == base.responses[text]
  }

  predicate OperationOk(op: Operation, base: BaseOperation, dump: Dump) {
    && op.operationId == base.operationId && op.rbacScope == base.rbacScope
    && HashableKeys(op.parameters) && HashableKeys(base.parameters)
    && (forall p <- base.parameters :: ParameterKept(op, p))
    && (base.bodyRequired ==> op.bodyRequired)
    && SchemaName(op.requestSchema, dump) == base.requestSchema
    && (forall text <- base.responses :: ResponseKept(op, base, text, dump))
  }

  predicate MethodOk(item: PathItem, base: map<string, BaseOperation>, m: string, dump: Dump)
    requires m in base
  {
    m in item && item[m].Some? && OperationOk(item[m].value, base[m], dump)
  }

  predicate PathOk(spec: Spec, base: Baseline, path: string, dump: Dump)
    requires path in base.paths
  {
    && path in spec.paths && spec.paths[path].Some?
    && forall m <- base.paths[path] :: MethodOk(spec.paths[path].value, base.paths[path], m, dump)
  }

  predicate OperationsOk(spec: Spec, base: Baseline, dump: Dump) {
    forall path <- base.paths :: PathOk(spec, base, path, dump)
  }

  // Names under which a request body is protected against new required fields.
  predicate ProtectedName(base: Baseline, name: string) {
    name != "" && '\n' !in name && name != "{}"
    && exists path, m :: path in base.paths && m in base.paths[path] && base.paths[path][m].requestSchema == name
  }

  predicate PropertyOk(properties: map<string, Value>, base: map<string, BaseProperty>, name: string)
    requires name in base
  {
    && name in properties && properties[name].Obj?
    && Normalize(properties[name]) == base[name].signature
    && HashableItems(base[name].allowed) && HashableItems(EnumOf(properties[name]))
    && (forall v <- base[name].allowed :: v in EnumOf(properties[name]))
  }

  predicate SchemaOk(schema: Schema, base: BaseSchema, isProtected: bool) {
    && schema.typ == base.typ
    && (forall f <- base.required :: f in schema.required)
    && (isProtected ==> forall f <- schema.required :: f in base.required)
    && (forall name <- base.properties :: PropertyOk(schema.properties, base.properties, name))
  }

  predicate SchemaAtOk(spec: Spec, base: Baseline, name: string)
    requires name in base.schemas
  {
    name in spec.schemas && spec.schemas[name].Some?
        && SchemaOk(spec.schemas[name].value, base.schemas[name], ProtectedName(base, name))
  }

  predicate SchemasOk(spec: Spec, base: Baseline) {
    forall name <- base.schemas :: SchemaAtOk(spec, base, name)
  }

  predicate Accepts(spec: Spec, base: Baseline, dump: Dump) {
    OperationsOk(spec, base, dump) && SchemasOk(spec, base)
  }
}
