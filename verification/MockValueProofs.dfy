/** The generated value has the shape its schema describes. */
module MockValueProofs {
  import opened Options
  import opened MockValue

  lemma {:induction false} PickedTypeIsListed(types: seq<string>)
    requires types != []
    ensures PickType(types) in types
    ensures PickType(types) == "null" <==> forall i | 0 <= i < |types| :: types[i] == "null"
  {
    if types[0] == "null" && |types| > 1 {
      PickedTypeIsListed(types[1..]);
    }
  }

  // The value chosen for a type has one of the types listed.
  lemma TypeIsRight(schema: Schema, v: Json)
    requires schema.Node? && schema.types != Some([]) && ChosenType(schema.types) in KNOWN_TYPES
    requires schema.types.Some? ==> ChosenType(schema.types) != ""
    requires schema.properties.Members? && schema.types.Some? ==> "object" in schema.types.value
    requires if ChosenType(schema.types) == "object" || schema.properties.Members? then v.Object?
             else if ChosenType(schema.types) == "array" then v.Array?
             else v == Scalar(ChosenType(schema.types), schema.format)
    ensures schema.types.Some? ==> exists i | 0 <= i < |schema.types.value| :: HasType(schema.types.value[i], v)
  {
    if schema.types.Some? {
      var types := schema.types.value;
      PickedTypeIsListed(types);
      var i :| 0 <= i < |types| && types[i] == if v.Object? then "object" else PickType(types);
      assert HasType(types[i], v);
    }
  }

  ghost predicate Agree(v: map<string, Json>, w: map<string, Json>, names: set<string>) {
    forall f <- names :: (f in v <==> f in w) && (f in v ==> v[f] == w[f])
  }

  // Members that a schema does not speak about do not matter to it.
  lemma {:induction false} OtherMembersDoNotMatter(doc: Document, n: nat, schema: Schema, v: map<string, Json>,
                                                   w: map<string, Json>,
                                                    more: set<string>, given: set<string>)
    requires Acyclic(doc) && Ranked(doc, n, schema) && Extensible(doc, n, schema)
    requires Agree(v, w, Names(doc, n, schema)) && v.Keys + more <= w.Keys + given
    requires Conforms(doc, n, schema, Object(v), more)
    ensures Conforms(doc, n, schema, Object(w), given)
    decreases n, schema, 1
  {
    match schema
    case Blank =>
    case Ref(target) => OtherMembersDoNotMatter(doc, doc.rank[target], doc.schemas[target], v, w, more, given);
    case Node(_, _, oneOf, anyOf, allOf, types, properties, _, _, required) =>
      BranchesDoNotMatter(doc, n, schema, oneOf, v, w, more, given);
      BranchesDoNotMatter(doc, n, schema, anyOf, v, w, more, given);
      BranchesDoNotMatter(doc, n, schema, allOf, v, w, more, given);
  }

  lemma {:induction false} BranchesDoNotMatter(doc: Document, n: nat, schema: Schema, branches: Branches,
                                               v: map<string, Json>,
                                               w: map<string, Json>, more: set<string>, given: set<string>)
    requires Acyclic(doc) && Ranked(doc, n, schema) && Extensible(doc, n, schema)
    requires Agree(v, w, Names(doc, n, schema)) && v.Keys + more <= w.Keys + given
    requires schema.Node? && (branches == schema.oneOf || branches == schema.anyOf || branches == schema.allOf)
    ensures branches.Branches? ==> forall i | 0 <= i < |branches.list| ::
              Conforms(doc, n, branches.list[i], Object(v), more) ==>
                Conforms(doc, n, branches.list[i], Object(w), given)
    decreases n, schema, 0
  {
    hide Conforms;
    if branches.Branches? {
      forall i | 0 <= i < |branches.list| && Conforms(doc, n, branches.list[i], Object(v), more)
        ensures Conforms(doc, n, branches.list[i], Object(w), given)
      {
        OtherMembersDoNotMatter(doc, n, branches.list[i], v, w, more, given);
      }
    }
  }

  // ------------------------------------------------------------------ the outline

  lemma HasTypeIsMatch(typ: string, v: Json)
    ensures HasType(typ, v) <==> Matches(typ, OutlineOf(v).kind)
  {}

  // The outline read off the schema is that of the value.
  lemma {:induction false} SketchIsRight(doc: Document, n: nat, schema: Schema, id: string)
    requires Acyclic(doc) && Ranked(doc, n, schema) && Mock(doc, n, schema, id).Some?
    ensures OutlineOf(Mock(doc, n, schema, id).value) == Sketch(doc, n, schema)
    decreases n, schema, 1
  {
    match schema
    case Blank =>
    case Ref(target) =>
      if !doc.schemas[target].Ref? {
        SketchIsRight(doc, doc.rank[target], doc.schemas[target], id);
      }
    case Node(example, enum, oneOf, anyOf, allOf, types, properties, items, _, _) =>
      if example.Some? || enum != [] {
      } else if oneOf.Branches? {
        SketchIsRight(doc, n, oneOf.list[0], id);
      } else if anyOf.Branches? {
        SketchIsRight(doc, n, anyOf.list[0], id);
      } else if allOf.Branches? {
        MergedNames(doc, n, schema, |allOf.list|, id);
      }
  }

  lemma {:induction false} MergedNames(doc: Document, n: nat, schema: Schema, k: nat, id: string)
    requires Acyclic(doc) && Ranked(doc, n, schema) && schema.Node? && schema.allOf.Branches?
             && k <= |schema.allOf.list|
    requires Merged(doc, n, schema, k, id).Some?
    ensures forall i | 0 <= i < k :: Mock(doc, n, schema.allOf.list[i], id).Some?
    ensures Merged(doc, n, schema, k, id).value.Keys == BranchNames(doc, n, schema, k)
    decreases n, schema, 0, k
  {
    if k > 0 {
      MergedNames(doc, n, schema, k - 1, id);
      SketchIsRight(doc, n, schema.allOf.list[k - 1], id);
    }
  }

  // ------------------------------------------------------------------ merged objects

  // Each branch finds its own members in the merged object.
  lemma {:induction false} MergeKeepsBranches(doc: Document, n: nat, schema: Schema, k: nat, id: string)
    requires Acyclic(doc) && Ranked(doc, n, schema) && schema.Node? && schema.allOf.Branches?
             && k <= |schema.allOf.list|
    requires SeparateBranches(doc, n, schema.allOf.list)
    requires forall i | 0 <= i < |schema.allOf.list| :: Mock(doc, n, schema.allOf.list[i], id).Some?
    ensures forall i | 0 <= i < |schema.allOf.list| :: Mock(doc, n, schema.allOf.list[i], id).value.Object?
    ensures var merged := Merged(doc, n, schema, k, id);
            && merged.Some?
            && (forall i | 0 <= i < k :: Mock(doc, n, schema.allOf.list[i], id).value.fields.Keys <= merged.value.Keys)
            && (forall i | 0 <= i < k ::
                  Agree(Mock(doc, n, schema.allOf.list[i], id).value.fields, merged.value,
                        Names(doc, n, schema.allOf.list[i])))
            && (forall i | k <= i < |schema.allOf.list| :: merged.value.Keys !! Names(doc, n, schema.allOf.list[i]))
  {
    hide Mock, Names, Sketch, Extensible;
    forall i | 0 <= i < |schema.allOf.list|
      ensures OutlineOf(Mock(doc, n, schema.allOf.list[i], id).value) == Sketch(doc, n, schema.allOf.list[i])
    {
      SketchIsRight(doc, n, schema.allOf.list[i], id);
    }
    if k > 0 {
      MergeKeepsBranches(doc, n, schema, k - 1, id);
    }
  }

  lemma MergeConforms(doc: Document, n: nat, schema: Schema, id: string, given: set<string>)
    requires Acyclic(doc) && Ranked(doc, n, schema) && schema.Node? && schema.allOf.Branches?
    requires schema.example.None? && schema.enum == [] && schema.oneOf.Absent? && schema.anyOf.Absent?
    requires SeparateBranches(doc, n, schema.allOf.list)
    requires forall i | 0 <= i < |schema.allOf.list| ::
               && Mock(doc, n, schema.allOf.list[i], id).Some?
               && Conforms(doc, n, schema.allOf.list[i], Mock(doc, n, schema.allOf.list[i], id).value,
                           given + Sketch(doc, n, schema).names)
    ensures var merged := Merged(doc, n, schema, |schema.allOf.list|, id);
            && merged.Some?
            && forall i | 0 <= i < |schema.allOf.list| ::
                 Conforms(doc, n, schema.allOf.list[i], Object(merged.value), given)
  {
    hide Conforms, Mock, Merged, Names;
    var branches := schema.allOf.list;
    MergeKeepsBranches(doc, n, schema, |branches|, id);
    var merged := Merged(doc, n, schema, |branches|, id).value;
    MergedNames(doc, n, schema, |branches|, id);
    forall i | 0 <= i < |branches|
      ensures Conforms(doc, n, branches[i], Object(merged), given)
    {
      OtherMembersDoNotMatter(doc, n, branches[i], Mock(doc, n, branches[i], id).value.fields, merged,
                              given + Sketch(doc, n, schema).names, given);
    }
  }

  // ------------------------------------------------------------------ keywords beside a composition keyword

  // The same schema without them.
  function Bare(schema: Schema): Schema
    requires schema.Node?
  {
    schema.(types := None, properties := NoMembers, items := Blank, required := {})
  }

  // What they ask of a value.
  ghost predicate SiblingsHold(doc: Document, n: nat, schema: Schema, v: Json, given: set<string>)
    requires Acyclic(doc) && Ranked(doc, n, schema) && schema.Node?
  {
    && (schema.types.Some? ==> exists i | 0 <= i < |schema.types.value| :: HasType(schema.types.value[i], v))
    && (v.Object? ==> schema.required <= v.fields.Keys + given)
    && (v.Object? && schema.properties.Members? ==>
          forall name <- schema.properties.of ::
              name in v.fields ==> Conforms(doc, n, schema.properties.of[name], v.fields[name], {}))
    && (v.Array? ==> forall i | 0 <= i < |v.items| :: Conforms(doc, n, schema.items, v.items[i], {}))
  }

  lemma BareIsRanked(doc: Document, n: nat, schema: Schema)
    requires Ranked(doc, n, schema) && schema.Node?
    ensures Ranked(doc, n, Bare(schema))
  {}

  // What the composition keywords and an enumeration ask of a value.
  ghost predicate CompositionHolds(doc: Document, n: nat, schema: Schema, v: Json, given: set<string>)
    requires Acyclic(doc) && Ranked(doc, n, schema) && schema.Node?
  {
    && (schema.enum != [] ==> v in schema.enum)
    && (schema.oneOf.Branches? ==>
          exists i | 0 <= i < |schema.oneOf.list| :: Conforms(doc, n, schema.oneOf.list[i], v, given))
    && (schema.anyOf.Branches? ==>
          exists i | 0 <= i < |schema.anyOf.list| :: Conforms(doc, n, schema.anyOf.list[i], v, given))
    && (schema.allOf.Branches? ==>
          forall i | 0 <= i < |schema.allOf.list| :: Conforms(doc, n, schema.allOf.list[i], v, given))
  }

  lemma ConformsInParts(doc: Document, n: nat, schema: Schema, v: Json, given: set<string>)
    requires Acyclic(doc) && Ranked(doc, n, schema) && schema.Node?
    ensures Conforms(doc, n, schema, v, given) <==>
            CompositionHolds(doc, n, schema, v, given) && SiblingsHold(doc, n, schema, v, given)
  {}

  lemma BareHolds(doc: Document, n: nat, schema: Schema, v: Json, given: set<string>)
    requires Acyclic(doc) && Ranked(doc, n, schema) && schema.Node? && Ranked(doc, n, Bare(schema))
    ensures SiblingsHold(doc, n, Bare(schema), v, given)
    ensures CompositionHolds(doc, n, Bare(schema), v, given) <==> CompositionHolds(doc, n, schema, v, given)
  {
    hide Ranked, Acyclic;
  }

  lemma BareConforms(doc: Document, n: nat, schema: Schema, v: Json, given: set<string>)
    requires Acyclic(doc) && Ranked(doc, n, schema) && schema.Node?
    ensures Ranked(doc, n, Bare(schema))
    ensures Conforms(doc, n, schema, v, given) <==>
            Conforms(doc, n, Bare(schema), v, given) && SiblingsHold(doc, n, schema, v, given)
  {
    hide Conforms, CompositionHolds, SiblingsHold, Ranked;
    BareIsRanked(doc, n, schema);
    ConformsInParts(doc, n, schema, v, given);
    ConformsInParts(doc, n, Bare(schema), v, given);
    BareHolds(doc, n, schema, v, given);
  }

  // Where they describe nothing the value has, only its kind and the names of its members count.
  lemma SiblingsByOutline(doc: Document, n: nat, schema: Schema, v: Json, given: set<string>)
    requires Acyclic(doc) && Ranked(doc, n, schema) && schema.Node? && NothingShared(schema, OutlineOf(v))
    ensures SiblingsHold(doc, n, schema, v, given) <==> SiblingsFit(schema, OutlineOf(v), given)
  {
    if schema.types.Some? {
      forall i | 0 <= i < |schema.types.value|
        ensures HasType(schema.types.value[i], v) <==> Matches(schema.types.value[i], OutlineOf(v).kind)
      {
        HasTypeIsMatch(schema.types.value[i], v);
      }
    }
  }

  ghost predicate Composed(schema: Schema) {
    && schema.Node? && schema.example.None? && schema.enum == []
    && (schema.oneOf.Branches? || schema.anyOf.Branches? || schema.allOf.Branches?)
  }

  // The generator looks no further than the first composition keyword.
  lemma SiblingsAreIgnored(doc: Document, n: nat, schema: Schema, id: string)
    requires Acyclic(doc) && Ranked(doc, n, schema) && Composed(schema)
    ensures Ranked(doc, n, Bare(schema)) && Mock(doc, n, Bare(schema), id) == Mock(doc, n, schema, id)
    ensures Sketch(doc, n, Bare(schema)) == Sketch(doc, n, schema)
  {
    BareConforms(doc, n, schema, Null, {});
    if schema.oneOf.Absent? && schema.anyOf.Absent? {
      MergedBare(doc, n, schema, |schema.allOf.list|, id);
    }
  }

  lemma {:induction false} MergedBare(doc: Document, n: nat, schema: Schema, k: nat, id: string)
    requires Acyclic(doc) && Ranked(doc, n, schema) && schema.Node? && Ranked(doc, n, Bare(schema))
    requires schema.allOf.Branches? && k <= |schema.allOf.list|
    ensures Merged(doc, n, Bare(schema), k, id) == Merged(doc, n, schema, k, id)
    ensures BranchNames(doc, n, Bare(schema), k) == BranchNames(doc, n, schema, k)
  {
    if k > 0 {
      MergedBare(doc, n, schema, k - 1, id);
    }
  }

  // ------------------------------------------------------------------ the result

  // A sound schema never makes the generator raise, and the value has the shape described at every depth.
  lemma {:induction false} MockConforms(doc: Document, n: nat, schema: Schema, id: string, given: set<string>)
    requires Acyclic(doc) && Ranked(doc, n, schema) && Sound(doc, n, schema, given)
    ensures Mock(doc, n, schema, id).Some? && Conforms(doc, n, schema, Mock(doc, n, schema, id).value, given)
    decreases n, schema, 1
  {
    match schema
    case Blank =>
    case Ref(target) => MockConforms(doc, doc.rank[target], doc.schemas[target], id, given);
    case Node(example, enum, _, _, _, _, _, _, _, _) =>
      if example.Some? || enum != [] {
      } else if Composed(schema) {
        ComposedConforms(doc, n, schema, id, given);
      } else {
        TypedConforms(doc, n, schema, id, given);
      }
  }

  lemma {:induction false} ComposedConforms(doc: Document, n: nat, schema: Schema, id: string, given: set<string>)
    requires Acyclic(doc) && Ranked(doc, n, schema) && Sound(doc, n, schema, given) && Composed(schema)
    ensures Mock(doc, n, schema, id).Some? && Conforms(doc, n, schema, Mock(doc, n, schema, id).value, given)
    decreases n, schema, 0
  {
    hide HasType, Matches, OutlineOf;
    if schema.oneOf.Branches? {
      MockConforms(doc, n, schema.oneOf.list[0], id, given);
    } else if schema.anyOf.Branches? {
      MockConforms(doc, n, schema.anyOf.list[0], id, given);
    } else {
      var branches := schema.allOf.list;
      forall i | 0 <= i < |branches|
        ensures Mock(doc, n, branches[i], id).Some?
        ensures Conforms(doc, n, branches[i], Mock(doc, n, branches[i], id).value, given + Sketch(doc, n, schema).names)
      {
        MockConforms(doc, n, branches[i], id, given + Sketch(doc, n, schema).names);
      }
      MergeConforms(doc, n, schema, id, given);
    }
    var v := Mock(doc, n, schema, id).value;
    SketchIsRight(doc, n, schema, id);
    SiblingsByOutline(doc, n, schema, v, given);
    BareConforms(doc, n, schema, v, given);
  }

  lemma {:induction false} TypedConforms(doc: Document, n: nat, schema: Schema, id: string, given: set<string>)
    requires Acyclic(doc) && Ranked(doc, n, schema) && Sound(doc, n, schema, given)
    requires schema.Node? && schema.example.None? && schema.enum == [] && !Composed(schema)
    ensures Mock(doc, n, schema, id).Some? && Conforms(doc, n, schema, Mock(doc, n, schema, id).value, given)
    decreases n, schema, 0
  {
    if schema.properties.Members? {
      forall name <- schema.properties.of
        ensures Mock(doc, n, schema.properties.of[name], id).Some?
        ensures Conforms(doc, n, schema.properties.of[name], Mock(doc, n, schema.properties.of[name], id).value, {})
      {
        MockConforms(doc, n, schema.properties.of[name], id, {});
      }
    } else if ChosenType(schema.types) == "array" {
      MockConforms(doc, n, schema.items, id, {});
    }
    TypeIsRight(schema, Mock(doc, n, schema, id).value);
  }

  // When keywords stand beside a composition keyword that is itself sound: the value conforms exactly when it
  // meets them; and if they describe nothing that the value has, exactly when its kind is one of the listed
  // types and its members include the required ones.
  lemma SiblingsExactly(doc: Document, n: nat, schema: Schema, id: string, given: set<string>)
    requires Acyclic(doc) && Ranked(doc, n, schema) && Composed(schema)
    requires Ranked(doc, n, Bare(schema)) && Sound(doc, n, Bare(schema), given)
    ensures Mock(doc, n, schema, id).Some?
    ensures var v := Mock(doc, n, schema, id).value;
            && (Conforms(doc, n, schema, v, given) <==> SiblingsHold(doc, n, schema, v, given))
            && (NothingShared(schema, Sketch(doc, n, schema)) ==>
                  (Conforms(doc, n, schema, v, given) <==> SiblingsFit(schema, Sketch(doc, n, schema), given)))
  {
    hide Sound, Conforms, Sketch, Mock;
    SiblingsAreIgnored(doc, n, schema, id);
    MockConforms(doc, n, Bare(schema), id, given);
    var v := Mock(doc, n, schema, id).value;
    BareConforms(doc, n, schema, v, given);
    SketchIsRight(doc, n, schema, id);
    if NothingShared(schema, Sketch(doc, n, schema)) {
      SiblingsByOutline(doc, n, schema, v, given);
    }
  }

  // ------------------------------------------------------------------ plain branches

  // Directly or through one reference, an object schema without examples, enumerations or compositions.
  ghost predicate PlainObject(doc: Document, schema: Schema) {
    match schema
    case Blank => false
    case Ref(target) => target in doc.schemas && doc.schemas[target].Node? && PlainNode(doc.schemas[target])
    case Node(_, _, _, _, _, _, _, _, _, _) => PlainNode(schema)
  }

  ghost predicate PlainNode(schema: Schema)
    requires schema.Node?
  {
    && schema.example.None? && schema.enum == [] && schema.oneOf.Absent? && schema.anyOf.Absent? && schema.allOf.Absent?
    && (schema.properties.Members? || ChosenType(schema.types) == "object")
  }

  lemma PlainObjectIsExtensible(doc: Document, n: nat, schema: Schema)
    requires Acyclic(doc) && Ranked(doc, n, schema) && PlainObject(doc, schema)
    ensures Extensible(doc, n, schema) && Sketch(doc, n, schema) == Outline(ObjectKind, Names(doc, n, schema))
  {}

  // Plain object branches are separate as soon as no two of them describe the same member.
  lemma PlainBranchesAreSeparate(doc: Document, n: nat, branches: seq<Schema>)
    requires Acyclic(doc) && forall i | 0 <= i < |branches| ::
             Ranked(doc, n, branches[i]) && PlainObject(doc, branches[i])
    requires forall i, j | 0 <= i < |branches| && 0 <= j < |branches| && i != j ::
               Names(doc, n, branches[j]) !! Names(doc, n, branches[i])
    ensures SeparateBranches(doc, n, branches)
  {
    hide Extensible, Sketch, Names, PlainObject;
    forall i | 0 <= i < |branches|
      ensures Extensible(doc, n, branches[i])
              && Sketch(doc, n, branches[i]) == Outline(ObjectKind, Names(doc, n, branches[i]))
    {
      PlainObjectIsExtensible(doc, n, branches[i]);
    }
  }

  const PLAIN := Node(None, [], Absent, Absent, Absent, None, NoMembers, Blank, "", {})

  // Composition beside properties is where the shape is lost: an object schema whose first alternative
  // only requires members is answered with a text, whatever its properties are.
  lemma AlternativesHideProperties(doc: Document, n: nat, schema: Schema, id: string, required: set<string>)
    requires Acyclic(doc) && Ranked(doc, n, schema)
    requires schema.Node? && schema.example.None? && schema.enum == [] && schema.types == Some(["object"])
    requires schema.oneOf.Branches? && schema.oneOf.list != [] && schema.oneOf.list[0] == PLAIN.(required := required)
    ensures Mock(doc, n, schema, id) == Some(Text("mock")) && !Conforms(doc, n, schema, Text("mock"), {})
  {}

  // ------------------------------------------------------------------ chains of references

  // Where a chain of references ends: None if it leads to nothing.
  function ChainEnd(doc: Document, target: string): (end: Option<string>)
    requires Acyclic(doc)
    ensures end.Some? ==> end.value in doc.schemas && !doc.schemas[end.value].Ref?
    decreases if target in doc.rank then doc.rank[target] + 1 else 0
  {
    if target !in doc.schemas then None
    else if !doc.schemas[target].Ref? then Some(target)
    else
      assert Ranked(doc, doc.rank[target], doc.schemas[target]);
      ChainEnd(doc, doc.schemas[target].target)
  }

  lemma {:induction false} ChainConforms(doc: Document, n: nat, target: string, v: Json, given: set<string>)
    requires Acyclic(doc) && Ranked(doc, n, Ref(target))
    ensures var end := ChainEnd(doc, target);
            Conforms(doc, n, Ref(target), v, given) <==>
            end.Some? && Conforms(doc, doc.rank[end.value], doc.schemas[end.value], v, given)
    decreases if target in doc.rank then doc.rank[target] + 1 else 0
  {
    if target in doc.schemas && doc.schemas[target].Ref? {
      ChainConforms(doc, doc.rank[target], doc.schemas[target].target, v, given);
    }
  }

  // What the text that stands for a lost reference meets: no type or the string type, and any enumeration
  // that lists it.
  predicate MockTextFits(last: Schema)
    requires last.Node?
  {
    && (last.enum == [] || Text("mock") in last.enum)
    && (last.types.None? || "string" in last.types.value)
  }

  // A reference that lands on a reference is not followed further: the value is a text, which conforms exactly
  // when the chain leads to a schema that this text meets. For a last schema without composition keywords
  // that is read off its types and enumeration.
  lemma ReferenceChainExactly(doc: Document, n: nat, target: string, id: string, given: set<string>)
    requires Acyclic(doc) && Ranked(doc, n, Ref(target)) && target in doc.schemas && doc.schemas[target].Ref?
    ensures Mock(doc, n, Ref(target), id) == Some(Text("mock"))
    ensures var end := ChainEnd(doc, target);
            if end.None? then !Conforms(doc, n, Ref(target), Text("mock"), given)
            else
              var last := doc.schemas[end.value];
              && (last.Blank? ==> Conforms(doc, n, Ref(target), Text("mock"), given))
              && (last.Node? && last.oneOf.Absent? && last.anyOf.Absent? && last.allOf.Absent? ==>
                    (Conforms(doc, n, Ref(target), Text("mock"), given) <==> MockTextFits(last)))
              && (Conforms(doc, n, Ref(target), Text("mock"), given) <==>
                  Conforms(doc, doc.rank[end.value], last, Text("mock"), given))
  {
    ChainConforms(doc, n, target, Text("mock"), given);
    var end := ChainEnd(doc, target);
    if end.Some? && doc.schemas[end.value].Node? {
      var last := doc.schemas[end.value];
      assert last.types.Some? ==>
          ("string" in last.types.value <==>
           exists i | 0 <= i < |last.types.value| :: HasType(last.types.value[i], Text("mock")));
    }
  }

  lemma TwoHopsAreLost(id: string)
    ensures var doc :=
            Document(map["A" := Ref("B"), "B" := PLAIN.(types := Some(["integer"]))], map["A" := 1, "B" := 0]);
            && Acyclic(doc) && Ranked(doc, 2, Ref("A"))
            && Mock(doc, 2, Ref("A"), id) == Some(Text("mock")) && !Conforms(doc, 2, Ref("A"), Text("mock"), {})
  {}
}
