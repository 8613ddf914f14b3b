/** What the printed fields of a policy say. */
module RegistryPrinting {
  import opened Options
  import opened Registry

  // ------------------------------------------------------------------ the printed fields

  // What the constants of the Go package stand for.
  const GO_SOURCES: map<string, string> := map[
    "PolicySourcePublic" := "public", "PolicySourceGenerated" := "generated", "PolicySourceLegacy" := "legacy"
  ]
  const GO_SCHEMES: map<string, string> := map[
    "OpenAPISecurityBearer" := "BearerAuth", "OpenAPISecurityAPIKey" := "ApiKeyAuth"
  ]
  const GO_BOUNDARIES: map<string, string> := map[
    "BoundaryOwn" := "own", "BoundaryTenant" := "tenant", "BoundaryPlatform" := "platform"
  ]
  const GO_KINDS: map<string, string> := map[
    "PrincipalUser" := "user", "PrincipalService" := "service", "PrincipalAPIKey" := "api_key",
    "PrincipalSandbox" := "sandbox"
  ]

  predicate StandsFor(text: string, table: map<string, string>, value: string) {
    text in table && table[text] == value
  }

  function Opening(name: string): string {
    "        " + name + ": "
  }

  // The text of the first field with this name, without the comma after it.
  function Field(lines: seq<string>, name: string): Option<string> {
    if lines == [] then None
    else
      var line := lines[0];
      if Opening(name) <= line && |line| > |Opening(name)| && line[|line| - 1] == ','
      then Some(line[|Opening(name)|..|line| - 1])
      else Field(lines[1..], name)
  }

  // Fields as pairs of name and text, and their lines.
  function FieldLines(fields: seq<(string, string)>): seq<string> {
    seq(|fields|, i requires 0 <= i < |fields| => Opening(fields[i].0) + fields[i].1 + ",")
  }

  function Lookup(fields: seq<(string, string)>, name: string): Option<string> {
    if fields == [] then None else if fields[0].0 == name then Some(fields[0].1) else Lookup(fields[1..], name)
  }

  predicate NoColon(s: string) {
    ':' !in s
  }

  // A line opens one field only.
  lemma OpensOne(name: string, other: string, text: string)
    requires NoColon(name) && NoColon(other) && Opening(name) <= Opening(other) + text
    ensures name == other
  {
    hide NoColon;
    var line := Opening(other) + text;
    assert line[8 + |other|] == ':';
    assert Opening(name)[8 + |name|] == ':' && line[8 + |name|] == ':';
    if |name| < |other| {
      ColonInside(other, line, |name|);
    } else if |other| < |name| {
      ColonInside(name, Opening(name), |other|);
    }
    assert name == Opening(name)[8..8 + |name|] && other == line[8..8 + |other|];
  }

  lemma ColonInside(name: string, line: string, at: nat)
    requires at < |name| && 8 + |name| <= |line| && line[8..8 + |name|] == name && line[8 + at] == ':'
    ensures !NoColon(name)
  {
    assert line[8 + at] == name[at];
  }

  lemma {:induction false} FieldOfLines(fields: seq<(string, string)>, tail: seq<string>, name: string)
    requires NoColon(name) && (forall i | 0 <= i < |fields| :: NoColon(fields[i].0)) && Field(tail, name) == None
    ensures Field(FieldLines(fields) + tail, name) == Lookup(fields, name)
  {
    hide Opening;
    var lines := FieldLines(fields) + tail;
    if fields == [] {
      assert lines == tail;
    } else {
      FieldOfLines(fields[1..], tail, name);
      assert lines[1..] == FieldLines(fields[1..]) + tail;
      assert lines[0] == Opening(fields[0].0) + (fields[0].1 + ",");
      if fields[0].0 != name && Opening(name) <= lines[0] {
        OpensOne(name, fields[0].0, fields[0].1 + ",");
      }
    }
  }

  // ------------------------------------------------------------------ the lines of a policy

  function HeadFields(p: Policy): seq<(string, string)> {
    [("Source", GoSource(p.source)), ("OperationID", "\"" + p.operationId + "\""), ("Method", "\"" + p.verb + "\""),
     ("PathTemplate", "\"" + p.path + "\"")]
  }

  function SecurityFields(p: Policy): seq<(string, string)> {
    if p.security == [] then []
    else [("SecurityAlternatives", "[]SecurityRequirement{" + Join(", ", SecurityItems(p.security)) + "}")]
  }

  function GeneratedFields(p: Policy): seq<(string, string)> {
    if p.source != "generated" then []
    else [("Version", "\"" + p.version + "\""), ("Resource", "\"" + p.resource + "\""),
          ("Action", "\"" + p.action + "\""), ("Boundary", GoBoundary(p.boundary)),
          ("PrincipalKinds", "[]PrincipalKind{" + Join(", ", KindItems(p.kinds)) + "}")]
  }

  function PolicyFields(p: Policy): seq<(string, string)> {
    HeadFields(p) + SecurityFields(p) + GeneratedFields(p)
  }

  lemma QuotedIsField(name: string, text: string)
    ensures Quoted(name, text) == Opening(name) + ("\"" + text + "\"") + ","
  {
    assert Opening(name) + "\"" == "        " + name + ": \"";
    assert Opening(name) + ("\"" + text + "\"") + "," == Opening(name) + "\"" + text + ("\"" + ",");
    assert "\"" + "," == "\",";
  }

  lemma LongIsField(name: string, open: string, text: string)
    ensures Opening(name) + open + text + "}," == Opening(name) + (open + text + "}") + ","
  {
    assert "}," == "}" + ",";
  }

  lemma FieldLinesAppend(a: seq<(string, string)>, b: seq<(string, string)>)
    ensures FieldLines(a + b) == FieldLines(a) + FieldLines(b)
  {}

  lemma Openings()
    ensures Opening("Source") == "        Source: " && Opening("Boundary") == "        Boundary: "
    ensures SECURITY_OPEN == Opening("SecurityAlternatives") + "[]SecurityRequirement{"
    ensures KINDS_OPEN == Opening("PrincipalKinds") + "[]PrincipalKind{"
  {
    hide Opening;
    OpenSource();
    OpenBoundary();
    OpenSecurity();
    OpenKinds();
  }

  lemma OpenSource()
    ensures Opening("Source") == "        Source: "
  {}

  lemma OpenBoundary()
    ensures Opening("Boundary") == "        Boundary: "
  {}

  lemma OpenSecurity()
    ensures Opening("SecurityAlternatives") == "        SecurityAlternatives: "
  {}

  lemma OpenKinds()
    ensures Opening("PrincipalKinds") == "        PrincipalKinds: "
  {}

  lemma HeadLines(p: Policy)
    ensures FieldLines(HeadFields(p)) ==
            ["        Source: " + GoSource(p.source) + ",", Quoted("OperationID", p.operationId),
             Quoted("Method", p.verb), Quoted("PathTemplate", p.path)]
  {
    hide GoSource, Quoted, Opening;
    Openings();
    QuotedIsField("OperationID", p.operationId);
    QuotedIsField("Method", p.verb);
    QuotedIsField("PathTemplate", p.path);
  }

  lemma SecurityLines(p: Policy)
    ensures FieldLines(SecurityFields(p)) ==
            if p.security == [] then [] else [SECURITY_OPEN + Join(", ", SecurityItems(p.security)) + "},"]
  {
    hide Join, SecurityItems, Opening, SECURITY_OPEN;
    if p.security != [] {
      var text := Join(", ", SecurityItems(p.security));
      Openings();
      LongIsField("SecurityAlternatives", "[]SecurityRequirement{", text);
    }
  }

  lemma GeneratedLines(p: Policy)
    ensures FieldLines(GeneratedFields(p)) ==
            if p.source != "generated" then []
            else [Quoted("Version", p.version), Quoted("Resource", p.resource), Quoted("Action", p.action),
                  "        Boundary: " + GoBoundary(p.boundary) + ",",
                  KINDS_OPEN + Join(", ", KindItems(p.kinds)) + "},"]
  {
    hide Join, KindItems, GoBoundary, Quoted, Opening, KINDS_OPEN;
    if p.source == "generated" {
      var text := Join(", ", KindItems(p.kinds));
      Openings();
      LongIsField("PrincipalKinds", "[]PrincipalKind{", text);
      QuotedIsField("Version", p.version);
      QuotedIsField("Resource", p.resource);
      QuotedIsField("Action", p.action);
    }
  }

  lemma LinesAreFields(p: Policy)
    ensures RenderPolicyLines(p) == [KeyLine(p.verb, p.path)] + (FieldLines(PolicyFields(p)) + ["    },"])
  {
    hide GoSource, GoBoundary, Join, SecurityItems, KindItems, KeyLine, Quoted, FieldLines, HeadFields, SecurityFields,
         GeneratedFields;
    HeadLines(p);
    SecurityLines(p);
    GeneratedLines(p);
    FieldLinesAppend(HeadFields(p) + SecurityFields(p), GeneratedFields(p));
    FieldLinesAppend(HeadFields(p), SecurityFields(p));
  }

  lemma NamesHaveNoColon(p: Policy)
    ensures forall i | 0 <= i < |PolicyFields(p)| :: NoColon(PolicyFields(p)[i].0)
  {
    hide HeadFields, SecurityFields, GeneratedFields;
    HeadNames(p);
    SecurityNames(p);
    GeneratedNames(p);
  }

  lemma HeadNames(p: Policy)
    ensures forall i | 0 <= i < |HeadFields(p)| :: NoColon(HeadFields(p)[i].0)
  {}

  lemma SecurityNames(p: Policy)
    ensures forall i | 0 <= i < |SecurityFields(p)| :: NoColon(SecurityFields(p)[i].0)
  {
    hide Join;
  }

  lemma GeneratedNames(p: Policy)
    ensures forall i | 0 <= i < |GeneratedFields(p)| :: NoColon(GeneratedFields(p)[i].0)
  {
    hide Join;
  }

  // The key line and the closing line hold no field.
  lemma OuterLines(verb: string, path: string, name: string, lines: seq<string>)
    ensures Field([KeyLine(verb, path)] + lines, name) == Field(lines, name)
    ensures Field(["    },"], name) == None
  {
    var key := KeyLine(verb, path);
    assert key[4] == '"' && "    },"[4] == '}' && Opening(name)[4] == ' ';
    assert ([key] + lines)[1..] == lines && ["    },"][1..] == [];
  }

  lemma FieldOfPolicy(p: Policy, name: string)
    requires NoColon(name)
    ensures Field(RenderPolicyLines(p), name) == Lookup(PolicyFields(p), name)
  {
    hide RenderPolicyLines, PolicyFields, Field, FieldLines, KeyLine, Lookup;
    LinesAreFields(p);
    NamesHaveNoColon(p);
    OuterLines(p.verb, p.path, name, FieldLines(PolicyFields(p)) + ["    },"]);
    FieldOfLines(PolicyFields(p), ["    },"], name);
  }

  lemma {:induction false} LookupAt(fields: seq<(string, string)>, i: nat)
    requires i < |fields| && forall j | 0 <= j < i :: fields[j].0 != fields[i].0
    ensures Lookup(fields, fields[i].0) == Some(fields[i].1)
  {
    if i > 0 {
      LookupAt(fields[1..], i - 1);
    }
  }

  lemma {:induction false} LookupNothing(fields: seq<(string, string)>, name: string)
    requires forall j | 0 <= j < |fields| :: fields[j].0 != name
    ensures Lookup(fields, name) == None
  {
    if fields != [] {
      LookupNothing(fields[1..], name);
    }
  }

  // The names of a policy's fields, in order.
  function FieldNames(p: Policy): seq<string> {
    ["Source", "OperationID", "Method", "PathTemplate"]
    + (if p.security == [] then [] else ["SecurityAlternatives"])
    + (if p.source != "generated" then [] else ["Version", "Resource", "Action", "Boundary", "PrincipalKinds"])
  }

  lemma NamesAre(p: Policy)
    ensures |PolicyFields(p)| == |FieldNames(p)|
    ensures forall i | 0 <= i < |PolicyFields(p)| :: PolicyFields(p)[i].0 == FieldNames(p)[i]
  {
    hide GoSource, GoBoundary, Join, SecurityItems, KindItems;
  }

  lemma NamesDiffer(p: Policy)
    ensures forall i, j | 0 <= i < j < |FieldNames(p)| :: FieldNames(p)[i] != FieldNames(p)[j]
  {}

  // The field at position i is what its name reads as.
  lemma FieldAt(p: Policy, i: nat)
    requires i < |PolicyFields(p)|
    ensures Field(RenderPolicyLines(p), PolicyFields(p)[i].0) == Some(PolicyFields(p)[i].1)
  {
    hide RenderPolicyLines, PolicyFields, Field, FieldNames;
    NamesAre(p);
    NamesDiffer(p);
    NamesHaveNoColon(p);
    FieldOfPolicy(p, PolicyFields(p)[i].0);
    LookupAt(PolicyFields(p), i);
  }

  lemma NoSuchField(p: Policy, name: string)
    requires NoColon(name) && forall i | 0 <= i < |FieldNames(p)| :: FieldNames(p)[i] != name
    ensures Field(RenderPolicyLines(p), name) == None
  {
    hide RenderPolicyLines, PolicyFields, Field, FieldNames;
    NamesAre(p);
    FieldOfPolicy(p, name);
    LookupNothing(PolicyFields(p), name);
  }

  // The printed head: its constant stands for the source, and id, method and path are quoted.
  lemma HeadIsPrinted(p: Policy)
    requires Printable(p)
    ensures var lines := RenderPolicyLines(p);
            && Field(lines, "Source").Some? && StandsFor(Field(lines, "Source").value, GO_SOURCES, p.source)
            && Field(lines, "OperationID") == Some("\"" + p.operationId + "\"")
            && Field(lines, "Method") == Some("\"" + p.verb + "\"")
            && Field(lines, "PathTemplate") == Some("\"" + p.path + "\"")
  {
    hide RenderPolicyLines, Field, SecurityFields, GeneratedFields;
    FieldAt(p, 0);
    FieldAt(p, 1);
    FieldAt(p, 2);
    FieldAt(p, 3);
  }

  function Alternatives(schemes: seq<string>): seq<string> {
    seq(|schemes|, i requires 0 <= i < |schemes| => "{AllOf: []OpenAPISecurityScheme{" + schemes[i] + "}}")
  }

  // The alternatives are printed in order, each as a constant for its scheme, and only where there are some.
  lemma SecurityIsPrinted(p: Policy) returns (schemes: seq<string>)
    requires Printable(p)
    ensures |schemes| == |p.security|
    ensures forall i | 0 <= i < |schemes| :: StandsFor(schemes[i], GO_SCHEMES, p.security[i])
    ensures Field(RenderPolicyLines(p), "SecurityAlternatives") ==
            if p.security == [] then None else Some("[]SecurityRequirement{" + Join(", ", Alternatives(schemes)) + "}")
  {
    hide RenderPolicyLines, Field, Join, GeneratedFields, HeadFields, Alternatives, SecurityItems;
    schemes := SchemesStand(p);
    if p.security == [] {
      NoAlternatives(p);
    } else {
      HeadSize(p);
      FieldAt(p, 4);
    }
  }

  lemma HeadSize(p: Policy)
    ensures |HeadFields(p)| == 4
  {}

  lemma NoAlternatives(p: Policy)
    requires p.security == []
    ensures Field(RenderPolicyLines(p), "SecurityAlternatives") == None
  {
    hide RenderPolicyLines, Field;
    NoSuchField(p, "SecurityAlternatives");
  }

  lemma SchemesStand(p: Policy) returns (schemes: seq<string>)
    requires Printable(p)
    ensures |schemes| == |p.security| && Alternatives(schemes) == SecurityItems(p.security)
    ensures forall i | 0 <= i < |schemes| :: StandsFor(schemes[i], GO_SCHEMES, p.security[i])
  {
    hide SCHEME_OPEN;
    schemes := seq(|p.security|, i requires 0 <= i < |p.security| => GoScheme(p.security[i]));
    SchemeOpens();
    forall i | 0 <= i < |schemes|
      ensures StandsFor(schemes[i], GO_SCHEMES, p.security[i])
    {
      assert p.security[i] in p.security;
      SchemeStands(p.security[i]);
    }
  }

  lemma SchemeOpens()
    ensures SCHEME_OPEN == "{AllOf: []OpenAPISecurityScheme{"
  {}

  lemma SchemeStands(s: string)
    requires s in VALID_SECURITY_SCHEMES
    ensures StandsFor(GoScheme(s), GO_SCHEMES, s)
  {}

  lemma KindStands(k: string)
    requires k in VALID_PRINCIPAL_KINDS
    ensures StandsFor(GoKind(k), GO_KINDS, k)
  {}

  // The fields of an authorization entry are printed for a generated policy, its boundary and its principal
  // kinds as the constants for them.
  lemma EntryIsPrinted(p: Policy) returns (boundary: string, kinds: seq<string>)
    requires Printable(p) && p.source == "generated"
    ensures var lines := RenderPolicyLines(p);
            && Field(lines, "Version") == Some("\"" + p.version + "\"")
            && Field(lines, "Resource") == Some("\"" + p.resource + "\"")
            && Field(lines, "Action") == Some("\"" + p.action + "\"")
            && Field(lines, "Boundary") == Some(boundary) && StandsFor(boundary, GO_BOUNDARIES, p.boundary)
            && |kinds| == |p.kinds| && (forall i | 0 <= i < |kinds| :: StandsFor(kinds[i], GO_KINDS, p.kinds[i]))
            && Field(lines, "PrincipalKinds") == Some("[]PrincipalKind{" + Join(", ", kinds) + "}")
  {
    hide RenderPolicyLines, Field, Join, KindItems, SecurityItems, HeadFields;
    boundary, kinds := GoBoundary(p.boundary), KindItems(p.kinds);
    KindsStand(p);
    HeadSize(p);
    var at := if p.security == [] then 4 else 5;
    FieldAt(p, at);
    FieldAt(p, at + 1);
    FieldAt(p, at + 2);
    FieldAt(p, at + 3);
    FieldAt(p, at + 4);
  }

  lemma KindsStand(p: Policy)
    requires Printable(p)
    ensures |KindItems(p.kinds)| == |p.kinds|
    ensures p.source == "generated" ==>
              forall i | 0 <= i < |p.kinds| :: StandsFor(KindItems(p.kinds)[i], GO_KINDS, p.kinds[i])
  {
    hide GoKind, GO_KINDS, VALID_PRINCIPAL_KINDS;
    if p.source == "generated" {
      forall i | 0 <= i < |p.kinds|
        ensures StandsFor(KindItems(p.kinds)[i], GO_KINDS, p.kinds[i])
      {
        assert p.kinds[i] in p.kinds;
        KindStands(p.kinds[i]);
      }
    }
  }

  // No other policy has any of them.
  lemma NoEntryIsPrinted(p: Policy, name: string)
    requires p.source != "generated" && name in {"Version", "Resource", "Action", "Boundary", "PrincipalKinds"}
    ensures Field(RenderPolicyLines(p), name) == None
  {
    hide RenderPolicyLines, Field;
    NoSuchField(p, name);
  }
}
