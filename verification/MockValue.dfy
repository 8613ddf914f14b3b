/** Mock responses: a value generated from a schema, and what it means for a value to have a schema's shape. */
module MockValue {
  import opened Options

  datatype Json =
    | Null
    | Bool(b: bool)
    | Int(n: int)
    | Number(r: real)
    | Text(s: string)
    | Array(items: seq<Json>)
    | Object(fields: map<string, Json>)

  // Blank is the empty schema; a reference carries nothing else.
  datatype Schema =
    | Blank
    | Ref(target: string)
    | Node(example: Option<Json>, enum: seq<Json>, oneOf: Branches, anyOf: Branches, allOf: Branches,
           types: Option<seq<string>>, properties: Members, items: Schema, format: string, required: set<string>)

  datatype Branches = Absent | Branches(list: seq<Schema>)

  datatype Members = NoMembers | Members(of: map<string, Schema>)

  // The referable schemas; the rank of each is above that of every schema it refers to.
  datatype Document = Document(schemas: map<string, Schema>, rank: map<string, nat>)

  // Every reference inside the schema stays below rank n.
  ghost predicate Ranked(doc: Document, n: nat, schema: Schema)
    decreases schema
  {
    match schema
    case Blank => true
    case Ref(target) => target in doc.rank ==> doc.rank[target] < n
    case Node(_, _, oneOf, anyOf, allOf, _, properties, items, _, _) =>
      && (oneOf.Branches? ==> forall i | 0 <= i < |oneOf.list| :: Ranked(doc, n, oneOf.list[i]))
      && (anyOf.Branches? ==> forall i | 0 <= i < |anyOf.list| :: Ranked(doc, n, anyOf.list[i]))
      && (allOf.Branches? ==> forall i | 0 <= i < |allOf.list| :: Ranked(doc, n, allOf.list[i]))
      && (properties.Members? ==> forall name <- properties.of :: Ranked(doc, n, properties.of[name]))
      && Ranked(doc, n, items)
  }

  ghost predicate Acyclic(doc: Document) {
    doc.rank.Keys == doc.schemas.Keys && forall t <- doc.schemas :: Ranked(doc, doc.rank[t], doc.schemas[t])
  }

  // ------------------------------------------------------------------ the generator

  // The first type that is not "null", if there is one.
  function PickType(types: seq<string>): string
    requires types != []
  {
    if types[0] != "null" then types[0]
    else if |types| == 1 then types[0]
    else
      var rest := PickType(types[1..]);
      if rest == "null" then types[0] else rest
  }

  function ChosenType(types: Option<seq<string>>): string {
    if types.None? || types.value == [] then "" else PickType(types.value)
  }

  function BlankValue(id: string): Json {
    Object(map["operation_id" := Text(id), "mock" := Bool(true)])
  }

  function Scalar(typ: string, format: string): Json {
    if typ == "integer" then Int(1)
    else if typ == "number" then Number(1.0)
    else if typ == "boolean" then Bool(true)
    else if format == "uuid" then Text("00000000-0000-4000-8000-000000000001")
    else if format == "date-time" then Text("2026-05-20T00:00:00Z")
    else Text("mock")
  }

  // None stands for an exception: a reference to nothing, or an empty list where one is indexed.
  function Mock(doc: Document, n: nat, schema: Schema, id: string): Option<Json>
    requires Acyclic(doc) && Ranked(doc, n, schema)
    decreases n, schema, if schema.Node? && schema.allOf.Branches? then |schema.allOf.list| + 1 else 0
  {
    match schema
    case Blank => Some(BlankValue(id))
    case Ref(target) =>
      if target !in doc.schemas then None
      else if doc.schemas[target].Ref? then Some(Text("mock"))
      else Mock(doc, doc.rank[target], doc.schemas[target], id)
    case Node(example, enum, oneOf, anyOf, allOf, types, properties, items, format, _) =>
      if example.Some? then example
      else if enum != [] then Some(enum[0])
      else if oneOf.Branches? then if oneOf.list == [] then None else Mock(doc, n, oneOf.list[0], id)
      else if anyOf.Branches? then if anyOf.list == [] then None else Mock(doc, n, anyOf.list[0], id)
      else if allOf.Branches? then
        var merged := Merged(doc, n, schema, |allOf.list|, id);
        if merged.None? then None else Some(Object(merged.value))
      else if types == Some([]) then None
      else if ChosenType(types) == "object" || properties.Members? then
        if properties.NoMembers? then Some(Object(map[]))
        else if exists name <- properties.of :: Mock(doc, n, properties.of[name], id).None? then None
        else Some(Object(map name | name in properties.of :: Mock(doc, n, properties.of[name], id).value))
      else if ChosenType(types) == "array" then
        var item := Mock(doc, n, items, id);
        if item.None? then None else Some(Array([item.value]))
      else Some(Scalar(ChosenType(types), format))
  }

  // The objects among the first k branches, later ones winning.
  function Merged(doc: Document, n: nat, schema: Schema, k: nat, id: string): Option<map<string, Json>>
    requires Acyclic(doc) && Ranked(doc, n, schema)
    requires schema.Node? && schema.allOf.Branches? && k <= |schema.allOf.list|
    decreases n, schema, k
  {
    if k == 0 then Some(map[])
    else
      var before := Merged(doc, n, schema, k - 1, id);
      var value := Mock(doc, n, schema.allOf.list[k - 1], id);
      if before.None? || value.None? then None
      else if value.value.Object? then Some(before.value + value.value.fields)
      else before
  }

  // ------------------------------------------------------------------ the shape a schema describes

  predicate HasType(typ: string, v: Json) {
    match v
    case Null => typ == "null"
    case Bool(_) => typ == "boolean"
    case Int(_) => typ == "integer" || typ == "number"
    case Number(_) => typ == "number"
    case Text(_) => typ == "string"
    case Array(_) => typ == "array"
    case Object(_) => typ == "object"
  }

  // At every depth, following references and branches. Required members may also be among those given by
  // the schemas that the value is merged from.
  ghost predicate Conforms(doc: Document, n: nat, schema: Schema, v: Json, given: set<string>)
    requires Acyclic(doc) && Ranked(doc, n, schema)
    decreases n, schema
  {
    match schema
    case Blank => true
    case Ref(target) => target in doc.schemas && Conforms(doc, doc.rank[target], doc.schemas[target], v, given)
    case Node(_, enum, oneOf, anyOf, allOf, types, properties, items, _, required) =>
      && (enum != [] ==> v in enum)
      && (oneOf.Branches? ==> exists i | 0 <= i < |oneOf.list| :: Conforms(doc, n, oneOf.list[i], v, given))
      && (anyOf.Branches? ==> exists i | 0 <= i < |anyOf.list| :: Conforms(doc, n, anyOf.list[i], v, given))
      && (allOf.Branches? ==> forall i | 0 <= i < |allOf.list| :: Conforms(doc, n, allOf.list[i], v, given))
      && (types.Some? ==> exists i | 0 <= i < |types.value| :: HasType(types.value[i], v))
      && (v.Object? ==> required <= v.fields.Keys + given)
      && (v.Object? && properties.Members? ==>
            forall name <- properties.of ::
                name in v.fields ==> Conforms(doc, n, properties.of[name], v.fields[name], {}))
      && (v.Array? ==> forall i | 0 <= i < |v.items| :: Conforms(doc, n, items, v.items[i], {}))
  }

  // ------------------------------------------------------------------ which schemas are sound

  // The members that a schema describes at its own level.
  function Names(doc: Document, n: nat, schema: Schema): set<string>
    requires Acyclic(doc) && Ranked(doc, n, schema)
    decreases n, schema
  {
    match schema
    case Blank => {}
    case Ref(target) => if target in doc.schemas then Names(doc, doc.rank[target], doc.schemas[target]) else {}
    case Node(_, _, oneOf, anyOf, allOf, _, properties, _, _, _) =>
      (if properties.Members? then properties.of.Keys else {})
      + (if oneOf.Branches? then set i, f | 0 <= i < |oneOf.list| && f in Names(doc, n, oneOf.list[i]) :: f else {})
      + (if anyOf.Branches? then set i, f | 0 <= i < |anyOf.list| && f in Names(doc, n, anyOf.list[i]) :: f else {})
      + (if allOf.Branches? then set i, f | 0 <= i < |allOf.list| && f in Names(doc, n, allOf.list[i]) :: f else {})
  }

  // No enumeration of whole objects, so that further members do no harm.
  ghost predicate Extensible(doc: Document, n: nat, schema: Schema)
    requires Acyclic(doc) && Ranked(doc, n, schema)
    decreases n, schema
  {
    match schema
    case Blank => true
    case Ref(target) => target in doc.schemas ==> Extensible(doc, doc.rank[target], doc.schemas[target])
    case Node(_, enum, oneOf, anyOf, allOf, _, _, _, _, _) =>
      && enum == []
      && (oneOf.Branches? ==> forall i | 0 <= i < |oneOf.list| :: Extensible(doc, n, oneOf.list[i]))
      && (anyOf.Branches? ==> forall i | 0 <= i < |anyOf.list| :: Extensible(doc, n, anyOf.list[i]))
      && (allOf.Branches? ==> forall i | 0 <= i < |allOf.list| :: Extensible(doc, n, allOf.list[i]))
  }

  // ------------------------------------------------------------------ what a value looks like from outside

  datatype Kind = NullKind | BoolKind | IntKind | NumberKind | TextKind | ArrayKind | ObjectKind

  // The kind of a value, and the names of its members if it is an object.
  datatype Outline = Outline(kind: Kind, names: set<string>)

  function OutlineOf(v: Json): Outline {
    match v
    case Null => Outline(NullKind, {})
    case Bool(_) => Outline(BoolKind, {})
    case Int(_) => Outline(IntKind, {})
    case Number(_) => Outline(NumberKind, {})
    case Text(_) => Outline(TextKind, {})
    case Array(_) => Outline(ArrayKind, {})
    case Object(fields) => Outline(ObjectKind, fields.Keys)
  }

  predicate Matches(typ: string, kind: Kind) {
    match kind
    case NullKind => typ == "null"
    case BoolKind => typ == "boolean"
    case IntKind => typ == "integer" || typ == "number"
    case NumberKind => typ == "number"
    case TextKind => typ == "string"
    case ArrayKind => typ == "array"
    case ObjectKind => typ == "object"
  }

  // The outline of the generated value, read off the schema alone.
  function Sketch(doc: Document, n: nat, schema: Schema): Outline
    requires Acyclic(doc) && Ranked(doc, n, schema)
    decreases n, schema, if schema.Node? && schema.allOf.Branches? then |schema.allOf.list| + 1 else 0
  {
    match schema
    case Blank => Outline(ObjectKind, {"operation_id", "mock"})
    case Ref(target) =>
      if target !in doc.schemas || doc.schemas[target].Ref? then Outline(TextKind, {})
      else Sketch(doc, doc.rank[target], doc.schemas[target])
    case Node(example, enum, oneOf, anyOf, allOf, types, properties, _, _, _) =>
      if example.Some? then OutlineOf(example.value)
      else if enum != [] then OutlineOf(enum[0])
      else if oneOf.Branches? then if oneOf.list == [] then Outline(NullKind, {}) else Sketch(doc, n, oneOf.list[0])
      else if anyOf.Branches? then if anyOf.list == [] then Outline(NullKind, {}) else Sketch(doc, n, anyOf.list[0])
      else if allOf.Branches? then Outline(ObjectKind, BranchNames(doc, n, schema, |allOf.list|))
      else if ChosenType(types) == "object" || properties.Members? then
        Outline(ObjectKind, if properties.Members? then properties.of.Keys else {})
      else if ChosenType(types) == "array" then Outline(ArrayKind, {})
      else OutlineOf(Scalar(ChosenType(types), ""))
  }

  // The members of the objects among the first k branches.
  function BranchNames(doc: Document, n: nat, schema: Schema, k: nat): set<string>
    requires Acyclic(doc) && Ranked(doc, n, schema) && schema.Node? && schema.allOf.Branches?
             && k <= |schema.allOf.list|
    decreases n, schema, k
  {
    if k == 0 then {}
    else
      var last := Sketch(doc, n, schema.allOf.list[k - 1]);
      BranchNames(doc, n, schema, k - 1) + if last.kind == ObjectKind then last.names else {}
  }

  const KNOWN_TYPES := {"", "object", "array", "integer", "number", "boolean", "string"}

  // Branches that are objects with separate members.
  ghost predicate SeparateBranches(doc: Document, n: nat, branches: seq<Schema>)
    requires Acyclic(doc) && forall i | 0 <= i < |branches| :: Ranked(doc, n, branches[i])
  {
    && (forall i | 0 <= i < |branches| ::
         Extensible(doc, n, branches[i]) && Sketch(doc, n, branches[i]).kind == ObjectKind)
    && (forall i, j | 0 <= i < |branches| && 0 <= j < |branches| && i != j ::
          Sketch(doc, n, branches[j]).names !! Names(doc, n, branches[i]))
  }

  // The keywords beside a composition keyword are met by every value of the given outline.
  ghost predicate SiblingsFit(schema: Schema, outline: Outline, given: set<string>)
    requires schema.Node?
  {
    && (schema.types.Some? ==> exists i | 0 <= i < |schema.types.value| :: Matches(schema.types.value[i], outline.kind))
    && (outline.kind == ObjectKind ==> schema.required <= outline.names + given)
    && NothingShared(schema, outline)
  }

  // They describe no member and no item that such a value has.
  predicate NothingShared(schema: Schema, outline: Outline)
    requires schema.Node?
  {
    && (outline.kind == ObjectKind && schema.properties.Members? ==> schema.properties.of.Keys !! outline.names)
    && (outline.kind == ArrayKind ==> schema.items.Blank?)
  }

  ghost predicate Sound(doc: Document, n: nat, schema: Schema, given: set<string>)
    requires Acyclic(doc) && Ranked(doc, n, schema)
    decreases n, schema
  {
    match schema
    case Blank => true
    case Ref(target) =>
      target in doc.schemas && !doc.schemas[target].Ref? && Sound(doc, doc.rank[target], doc.schemas[target], given)
    case Node(example, enum, oneOf, anyOf, allOf, types, properties, items, _, required) =>
      if example.Some? then Conforms(doc, n, schema, example.value, given)
      else if enum != [] then Conforms(doc, n, schema, enum[0], given)
      else if oneOf.Branches? then
        && oneOf.list != [] && Sound(doc, n, oneOf.list[0], given)
        && anyOf.Absent? && allOf.Absent? && SiblingsFit(schema, Sketch(doc, n, schema), given)
      else if anyOf.Branches? then
        && anyOf.list != [] && Sound(doc, n, anyOf.list[0], given)
        && allOf.Absent? && SiblingsFit(schema, Sketch(doc, n, schema), given)
      else if allOf.Branches? then
        && SeparateBranches(doc, n, allOf.list) && SiblingsFit(schema, Sketch(doc, n, schema), given)
        && forall i | 0 <= i < |allOf.list| :: Sound(doc, n, allOf.list[i], given + Sketch(doc, n, schema).names)
      else
        && types != Some([]) && ChosenType(types) in KNOWN_TYPES && (types.Some? ==> ChosenType(types) != "")
        && (properties.Members? ==>
              && (types.Some? ==> "object" in types.value) && required <= properties.of.Keys + given
              && forall name <- properties.of :: Sound(doc, n, properties.of[name], {}))
        && (ChosenType(types) == "object" && properties.NoMembers? ==> required <= given)
        && (ChosenType(types) == "array" && properties.NoMembers? ==> Sound(doc, n, items, {}))
  }
}
