/** Which of several possible values the mock generator picks. */
module MockChoices {
  import opened Options
  import opened MockValue

  // ------------------------------------------------------------------ types and formats

  // The first type that is not "null"; "null" if there is no other.
  lemma {:induction false} PickedTypeExactly(types: seq<string>, i: nat)
    requires i < |types| && (forall j | 0 <= j < i :: types[j] == "null")
    ensures types[i] != "null" ==> PickType(types) == types[i]
    ensures i == |types| - 1 ==> PickType(types) == types[i]
  {
    if i > 0 {
      PickedTypeExactly(types[1..], i - 1);
      assert types[0] == "null";
    }
  }

  predicate IsHex(c: char) {
    '0' <= c <= '9' || 'a' <= c <= 'f'
  }

  // Eight, four, four, four and twelve digits with hyphens between them.
  predicate IsUuid(s: string) {
    |s| == 36 && forall i | 0 <= i < 36 :: if i in {8, 13, 18, 23} then s[i] == '-' else IsHex(s[i])
  }

  predicate IsDigit(c: char) {
    '0' <= c <= '9'
  }

  // Year, month, day, hour, minute and second in universal time.
  predicate IsDateTime(s: string) {
    && |s| == 20 && (forall i | 0 <= i < 19 && i !in {4, 7, 10, 13, 16} :: IsDigit(s[i]))
    && s[4] == s[7] == '-' && s[10] == 'T' && s[13] == s[16] == ':' && s[19] == 'Z'
  }

  // A string of a known format is well formed; the format matters for strings only.
  lemma FormatsAreWellFormed()
    ensures Scalar("string", "uuid").Text? && IsUuid(Scalar("string", "uuid").s)
    ensures Scalar("string", "date-time").Text? && IsDateTime(Scalar("string", "date-time").s)
    ensures forall format :: Scalar("integer", format) == Int(1) && Scalar("number", format) == Number(1.0)
                             && Scalar("boolean", format) == Bool(true)
    ensures forall typ, format | typ !in {"integer", "number", "boolean"} && format !in {"uuid", "date-time"} ::
              Scalar(typ, format) == Text("mock")
  {
    hide IsUuid, IsDateTime;
    UuidIsWellFormed("00000000-0000-4000-8000-000000000001");
    DateTimeIsWellFormed("2026-05-20T00:00:00Z");
  }

  lemma UuidIsWellFormed(s: string)
    requires s == "00000000-0000-4000-8000-000000000001"
    ensures IsUuid(s)
  {
    var a, b, c, d := "00000000-", "0000-4000-", "8000-", "000000000001";
    assert s == a + b + c + d;
    forall i | 0 <= i < 36
      ensures if i in {8, 13, 18, 23} then s[i] == '-' else IsHex(s[i])
    {
      assert s[i] == if i < 9 then a[i] else if i < 19 then b[i - 9] else if i < 24 then c[i - 19] else d[i - 24];
    }
  }

  lemma DateTimeIsWellFormed(s: string)
    requires s == "2026-05-20T00:00:00Z"
    ensures IsDateTime(s)
  {
    assert |s| == 20;
  }

  // An empty schema is answered with an object that names the operation and says that it is a mock.
  lemma BlankIsMarked(doc: Document, n: nat, id: string)
    requires Acyclic(doc)
    ensures var v := Mock(doc, n, Blank, id);
            && v.Some? && v.value.Object? && v.value.fields.Keys == {"operation_id", "mock"}
            && v.value.fields["operation_id"] == Text(id) && v.value.fields["mock"] == Bool(true)
  {}

  // ------------------------------------------------------------------ keywords

  // An example comes before everything else, an enumeration's first value before composition and type, and
  // the first alternative of oneOf before anyOf.
  lemma FirstKeywordWins(doc: Document, n: nat, schema: Schema, id: string)
    requires Acyclic(doc) && Ranked(doc, n, schema) && schema.Node?
    ensures schema.example.Some? ==> Mock(doc, n, schema, id) == schema.example
    ensures schema.example.None? && schema.enum != [] ==> Mock(doc, n, schema, id) == Some(schema.enum[0])
    ensures schema.example.None? && schema.enum == [] && schema.oneOf.Branches? ==>
              Mock(doc, n, schema, id) ==
              if schema.oneOf.list == [] then None else Mock(doc, n, schema.oneOf.list[0], id)
    ensures schema.example.None? && schema.enum == [] && schema.oneOf.Absent? && schema.anyOf.Branches? ==>
              Mock(doc, n, schema, id) ==
              if schema.anyOf.list == [] then None else Mock(doc, n, schema.anyOf.list[0], id)
  {}

  ghost predicate Typed(schema: Schema) {
    && schema.Node? && schema.example.None? && schema.enum == []
    && schema.oneOf.Absent? && schema.anyOf.Absent? && schema.allOf.Absent? && schema.types != Some([])
  }

  // An array has exactly one item, generated from the item schema; an object has exactly the described
  // members, each generated from its own schema. Either fails exactly when one of these does.
  lemma ContentsExactly(doc: Document, n: nat, schema: Schema, id: string)
    requires Acyclic(doc) && Ranked(doc, n, schema) && Typed(schema)
    ensures schema.properties.NoMembers? && ChosenType(schema.types) == "array" ==>
              (forall item :: Mock(doc, n, schema.items, id) == Some(item) <==>
                              Mock(doc, n, schema, id) == Some(Array([item])))
              && (Mock(doc, n, schema.items, id).None? <==> Mock(doc, n, schema, id).None?)
    ensures schema.properties.Members? ==>
              && (Mock(doc, n, schema, id).None? <==>
                  exists name <- schema.properties.of :: Mock(doc, n, schema.properties.of[name], id).None?)
              && (forall v | Mock(doc, n, schema, id) == Some(v) ::
                    && v.Object? && v.fields.Keys == schema.properties.of.Keys
                    && forall name <- v.fields ::
                         Mock(doc, n, schema.properties.of[name], id) == Some(v.fields[name]))
  {
    if schema.properties.Members? && Mock(doc, n, schema, id).Some? {
      assert !exists name <- schema.properties.of :: Mock(doc, n, schema.properties.of[name], id).None?;
    }
  }

  // ------------------------------------------------------------------ merging

  // The value of branch i is an object with this member.
  ghost predicate Gives(doc: Document, n: nat, schema: Schema, i: nat, name: string, id: string)
    requires Acyclic(doc) && Ranked(doc, n, schema) && schema.Node? && schema.allOf.Branches?
             && i < |schema.allOf.list|
  {
    var v := Mock(doc, n, schema.allOf.list[i], id);
    v.Some? && v.value.Object? && name in v.value.fields
  }

  // The merge fails exactly when a branch does.
  lemma {:induction false} MergeFailsExactly(doc: Document, n: nat, schema: Schema, k: nat, id: string)
    requires Acyclic(doc) && Ranked(doc, n, schema) && schema.Node? && schema.allOf.Branches?
             && k <= |schema.allOf.list|
    ensures Merged(doc, n, schema, k, id).None? <==>
            exists i | 0 <= i < k :: Mock(doc, n, schema.allOf.list[i], id).None?
  {
    hide Mock;
    if k > 0 {
      MergeFailsExactly(doc, n, schema, k - 1, id);
    }
  }

  // A merged object has exactly the members that some branch gives, and each as the last of these gives it.
  lemma {:induction false} LastBranchWins(doc: Document, n: nat, schema: Schema, k: nat, id: string, name: string)
    returns (i: int)
    requires Acyclic(doc) && Ranked(doc, n, schema) && schema.Node? && schema.allOf.Branches?
             && k <= |schema.allOf.list| && Merged(doc, n, schema, k, id).Some?
    ensures -1 <= i < k
    ensures i >= 0 <==> name in Merged(doc, n, schema, k, id).value
    ensures i >= 0 ==>
              && Gives(doc, n, schema, i, name, id)
              && Merged(doc, n, schema, k, id).value[name] == Mock(doc, n, schema.allOf.list[i], id).value.fields[name]
    ensures forall j | i < j < k && 0 <= j :: !Gives(doc, n, schema, j, name, id)
  {
    hide Mock;
    i := -1;
    if k > 0 {
      var v := Mock(doc, n, schema.allOf.list[k - 1], id);
      if v.value.Object? && name in v.value.fields {
        i := k - 1;
      } else {
        i := LastBranchWins(doc, n, schema, k - 1, id, name);
      }
    }
  }
}
