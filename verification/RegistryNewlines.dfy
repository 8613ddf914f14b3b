/** Reading the registry file as text turns every carriage return into a line feed; what that does to the
    printed registry. */
module RegistryNewlines {
  import opened Registry
  import opened RegistryProofs

  lemma {:induction false} ReadTextAppend(a: string, b: string)
    requires a == "" || b == "" || a[|a| - 1] != '\r' || b[0] != '\n'
    ensures ReadText(a + b) == ReadText(a) + ReadText(b)
    decreases |a|
  {
    hide ReadText;
    ReadNothing();
    if a == "" {
      assert a + b == b;
    } else if b == "" {
      assert a + b == a;
    } else {
      var n := Step(a);
      SameStep(a, b);
      ReadStep(a);
      ReadStep(a + b);
      assert (a + b)[n..] == a[n..] + b;
      ReadTextAppend(a[n..], b);
    }
  }

  lemma SameStep(a: string, b: string)
    requires a != "" && b != "" && (a[|a| - 1] != '\r' || b[0] != '\n')
    ensures Step(a + b) == Step(a) && (a + b)[0] == a[0]
  {
    assert |a| > 1 ==> (a + b)[1] == a[1];
    assert |a| == 1 ==> (a + b)[1] == b[0];
  }

  lemma ReadStep(s: string)
    requires s != ""
    ensures ReadText(s) == [if s[0] == '\r' then '\n' else s[0]] + ReadText(s[Step(s)..])
  {}

  lemma ReadNothing()
    ensures ReadText("") == ""
  {}

  // Nothing changes in text without carriage returns, and none is left in any text; quotes stay quotes.
  lemma {:induction false} ReadTextClean(s: string)
    ensures '\r' !in ReadText(s)
    ensures '\r' !in s <==> ReadText(s) == s
    ensures Plain(s) <==> Plain(ReadText(s))
    decreases |s|
  {
    if s != "" {
      ReadTextClean(s[Step(s)..]);
      assert s == s[..Step(s)] + s[Step(s)..];
      assert ReadText(s)[0] == '\r' ==> false;
      assert ReadText(s)[1..] == ReadText(s[Step(s)..]);
    }
  }

  function Translated(p: Policy): Policy {
    p.(operationId := ReadText(p.operationId), path := ReadText(p.path), version := ReadText(p.version),
       resource := ReadText(p.resource), action := ReadText(p.action))
  }

  function ReadLines(lines: seq<string>): seq<string> {
    seq(|lines|, i requires 0 <= i < |lines| => ReadText(lines[i]))
  }

  ghost predicate Closed(line: string) {
    line == "" || line[|line| - 1] != '\r'
  }

  lemma {:induction false} ReadJoin(lines: seq<string>)
    requires forall i | 0 <= i < |lines| :: Closed(lines[i])
    ensures ReadText(Join("\n", lines)) == Join("\n", ReadLines(lines))
  {
    hide ReadText;
    if lines == [] {
      ReadTextClean("");
    } else if |lines| > 1 {
      ReadJoin(lines[1..]);
      var rest := Join("\n", lines[1..]);
      assert lines[0] + "\n" + rest == lines[0] + ("\n" + rest);
      NewlineStays();
      ReadTextAppend("\n", rest);
      ReadTextAppend(lines[0], "\n" + rest);
      assert ReadLines(lines)[1..] == ReadLines(lines[1..]);
    }
  }

  lemma NewlineStays()
    ensures ReadText("\n") == "\n"
  {
    ReadTextClean("\n");
  }

  // A text value between fixed texts is translated by itself.
  lemma ReadValue(before: string, v: string, after: string)
    requires Fixed(before) && Fixed(after) && after != "" && after[0] != '\n'
    ensures ReadText(before + v + after) == before + ReadText(v) + after
    ensures before != "" ==> Closed(before + v + after)
  {
    hide ReadText;
    ReadTextClean(before);
    ReadTextClean(after);
    ReadTextAppend(before + v, after);
    ReadTextAppendFixed(before, v);
    assert (before + v + after)[|before + v + after| - 1] == after[|after| - 1];
  }

  lemma ReadTextAppendFixed(before: string, v: string)
    requires Fixed(before)
    ensures ReadText(before + v) == before + ReadText(v)
  {
    ReadTextClean(before);
    ReadTextAppend(before, v);
  }

  lemma ReadFixed(line: string)
    requires Fixed(line)
    ensures ReadText(line) == line && Closed(line)
  {
    ReadTextClean(line);
  }

  lemma ReadQuoted(name: string, v: string)
    requires Fixed(name)
    ensures ReadText(Quoted(name, v)) == Quoted(name, ReadText(v)) && Closed(Quoted(name, v))
  {
    hide ReadText;
    var before, after := "        " + name + ": \"", "\",";
    assert Quoted(name, v) == before + v + after;
    AfterQuote(before, v, after);
  }

  // The same where the fixed text around the value ends and begins with a quote.
  lemma AfterQuote(before: string, v: string, after: string)
    requires '\r' !in before && '\r' !in after && after != "" && after[0] != '\n' && before != ""
    ensures ReadText(before + v + after) == before + ReadText(v) + after && Closed(before + v + after)
  {
    hide ReadText;
    ReadTextClean(before);
    ReadTextClean(after);
    ReadTextAppend(before + v, after);
    ReadTextAppend(before, v);
    assert (before + v + after)[|before + v + after| - 1] == after[|after| - 1];
  }

  lemma ReadKey(verb: string, path: string)
    requires verb in VERBS
    ensures ReadText(KeyLine(verb, path)) == KeyLine(verb, ReadText(path)) && Closed(KeyLine(verb, path))
  {
    hide ReadText;
    var before, after := "    \"" + verb + " ", "\": {";
    assert KeyLine(verb, path) == before + path + after;
    AfterQuote(before, path, after);
  }

  lemma VerbStays(verb: string)
    requires verb in VERBS
    ensures ReadText(verb) == verb
  {
    hide ReadText;
    VerbsAreClean();
    ReadTextClean(verb);
  }

  lemma VerbsAreClean()
    ensures forall verb <- VERBS :: '\r' !in verb
  {}

  ghost predicate ReadsAs(lines: seq<string>, read: seq<string>) {
    ReadLines(lines) == read && forall i | 0 <= i < |lines| :: Closed(lines[i])
  }

  lemma ReadsAsAppend(a: seq<string>, ra: seq<string>, b: seq<string>, rb: seq<string>)
    requires ReadsAs(a, ra) && ReadsAs(b, rb)
    ensures ReadsAs(a + b, ra + rb)
  {
    hide ReadText;
  }

  lemma ReadsOneLine(line: string, read: string)
    requires ReadText(line) == read && Closed(line)
    ensures ReadsAs([line], [read])
  {}

  lemma ReadsFixedLine(line: string)
    requires Fixed(line)
    ensures ReadsAs([line], [line])
  {
    ReadFixed(line);
  }

  lemma ReadsQuotedLine(name: string, v: string)
    requires Fixed(name)
    ensures ReadsAs([Quoted(name, v)], [Quoted(name, ReadText(v))])
  {
    ReadQuoted(name, v);
  }

  lemma HeadReads(p: Policy)
    requires p.verb in VERBS
    ensures ReadsAs(Head(p), Head(Translated(p)))
  {
    hide ReadsAs, ReadText, KeyLine, Quoted;
    var q := Translated(p);
    ReadKey(p.verb, p.path);
    ReadsOneLine(KeyLine(p.verb, p.path), KeyLine(q.verb, q.path));
    SourceReads(p.source);
    ReadsQuotedLine("OperationID", p.operationId);
    ReadsQuotedLine("Method", p.verb);
    VerbStays(p.verb);
    ReadsQuotedLine("PathTemplate", p.path);
    var key, source, id := [KeyLine(p.verb, p.path)], ["        Source: " + GoSource(p.source) + ","],
        [Quoted("OperationID", p.operationId)];
    var key', id' := [KeyLine(q.verb, q.path)], [Quoted("OperationID", q.operationId)];
    var verb, path, path' := [Quoted("Method", p.verb)], [Quoted("PathTemplate", p.path)],
        [Quoted("PathTemplate", q.path)];
    ReadsAsAppend(key, key', source, source);
    ReadsAsAppend(key + source, key' + source, id, id');
    ReadsAsAppend(key + source + id, key' + source + id', verb, verb);
    ReadsAsAppend(key + source + id + verb, key' + source + id' + verb, path, path');
  }

  lemma SourceReads(source: string)
    ensures ReadsAs(["        Source: " + GoSource(source) + ","], ["        Source: " + GoSource(source) + ","])
  {
    hide ReadsAs, Fixed;
    SourceFixed(source);
    ReadsFixedLine("        Source: " + GoSource(source) + ",");
  }

  lemma NothingReads()
    ensures ReadsAs([], [])
  {}

  lemma SecurityReads(p: Policy)
    ensures ReadsAs(SecurityPart(p), SecurityPart(Translated(p)))
  {
    hide ReadsAs, Fixed, ReadText;
    NothingReads();
    SecurityFixed(p.security);
    ReadsFixedLine(SECURITY_OPEN + Join(", ", SecurityItems(p.security)) + "},");
  }

  lemma GeneratedReads(p: Policy)
    ensures ReadsAs(GeneratedPart(p), GeneratedPart(Translated(p)))
  {
    hide ReadsAs, ReadText, Quoted, Fixed, KindItems, GoBoundary, Join, KINDS_OPEN;
    if p.source != "generated" {
      NothingReads();
    } else {
      var q := Translated(p);
      AuthzTextsRead(p);
      var boundary := ["        Boundary: " + GoBoundary(p.boundary) + ","];
      var kinds := [KINDS_OPEN + Join(", ", KindItems(p.kinds)) + "},"];
      BoundaryFixed(p.boundary);
      ReadsFixedLine("        Boundary: " + GoBoundary(p.boundary) + ",");
      KindsFixed(p.kinds);
      ReadsFixedLine(KINDS_OPEN + Join(", ", KindItems(p.kinds)) + "},");
      var texts := [Quoted("Version", p.version)] + [Quoted("Resource", p.resource)] + [Quoted("Action", p.action)];
      var texts' := [Quoted("Version", q.version)] + [Quoted("Resource", q.resource)] + [Quoted("Action", q.action)];
      ReadsAsAppend(texts, texts', boundary, boundary);
      ReadsAsAppend(texts + boundary, texts' + boundary, kinds, kinds);
    }
  }

  lemma AuthzTextsRead(p: Policy)
    ensures ReadsAs([Quoted("Version", p.version)] + [Quoted("Resource", p.resource)] + [Quoted("Action", p.action)],
                    [Quoted("Version", ReadText(p.version))] + [Quoted("Resource", ReadText(p.resource))]
                    + [Quoted("Action", ReadText(p.action))])
  {
    hide ReadsAs, ReadText, Quoted;
    ReadsQuotedLine("Version", p.version);
    ReadsQuotedLine("Resource", p.resource);
    ReadsQuotedLine("Action", p.action);
    ReadsAsAppend([Quoted("Version", p.version)], [Quoted("Version", ReadText(p.version))],
                  [Quoted("Resource", p.resource)], [Quoted("Resource", ReadText(p.resource))]);
    ReadsAsAppend([Quoted("Version", p.version)] + [Quoted("Resource", p.resource)],
                  [Quoted("Version", ReadText(p.version))] + [Quoted("Resource", ReadText(p.resource))],
                  [Quoted("Action", p.action)], [Quoted("Action", ReadText(p.action))]);
  }

  lemma PolicyReads(p: Policy)
    requires p.verb in VERBS
    ensures ReadsAs(RenderPolicyLines(p), RenderPolicyLines(Translated(p)))
  {
    hide ReadsAs, ReadText, Head, SecurityPart, GeneratedPart, RenderPolicyLines;
    var q := Translated(p);
    HeadReads(p);
    SecurityReads(p);
    GeneratedReads(p);
    CloserReads();
    PolicyParts(p);
    PolicyParts(q);
    ReadsAsAppend(Head(p), Head(q), SecurityPart(p), SecurityPart(q));
    ReadsAsAppend(Head(p) + SecurityPart(p), Head(q) + SecurityPart(q), GeneratedPart(p), GeneratedPart(q));
    ReadsAsAppend(Head(p) + SecurityPart(p) + GeneratedPart(p), Head(q) + SecurityPart(q) + GeneratedPart(q),
                  ["    },"], ["    },"]);
  }

  lemma CloserReads()
    ensures ReadsAs(["    },"], ["    },"])
  {
    ReadsFixedLine("    },");
  }

  function TranslatedAll(policies: seq<Policy>): seq<Policy> {
    seq(|policies|, i requires 0 <= i < |policies| => Translated(policies[i]))
  }

  lemma {:induction false} PoliciesRead(policies: seq<Policy>)
    requires forall i | 0 <= i < |policies| :: policies[i].verb in VERBS
    ensures ReadsAs(RenderPolicies(policies), RenderPolicies(TranslatedAll(policies)))
  {
    hide ReadsAs, RenderPolicyLines, Translated;
    if policies == [] {
      NothingReads();
    } else {
      PolicyReads(policies[0]);
      PoliciesRead(policies[1..]);
      assert TranslatedAll(policies)[1..] == TranslatedAll(policies[1..]);
      ReadsAsAppend(RenderPolicyLines(policies[0]), RenderPolicyLines(Translated(policies[0])),
                    RenderPolicies(policies[1..]), RenderPolicies(TranslatedAll(policies[1..])));
    }
  }

  lemma FrameReads()
    ensures ReadsAs(HEADER, HEADER) && ReadsAs(["}", ""], ["}", ""])
  {
    hide HEADER_COMMENT, HEADER_OPEN, ReadText;
    HeaderCommentFixed();
    HeaderOpenFixed();
    ReadFixed(HEADER_COMMENT);
    ReadFixed("package authz");
    ReadFixed("");
    ReadFixed(HEADER_OPEN);
    ReadFixed("}");
  }

  // Reading the file of a registry is printing the registry of the translated policies.
  lemma ReadRegistry(policies: seq<Policy>)
    requires forall i | 0 <= i < |policies| :: policies[i].verb in VERBS
    ensures ReadText(RenderGo(policies)) == RenderGo(TranslatedAll(policies))
  {
    hide ReadText, RenderPolicies, HEADER, Join;
    FrameReads();
    PoliciesRead(policies);
    var lines, lines' := RenderPolicies(policies), RenderPolicies(TranslatedAll(policies));
    ReadsAsAppend(HEADER, HEADER, lines, lines');
    ReadsAsAppend(HEADER + lines, HEADER + lines', ["}", ""], ["}", ""]);
    ReadJoin(HEADER + lines + ["}", ""]);
  }
}
