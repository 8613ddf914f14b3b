/** Merging public keys into the text of an authorized_keys file. */
module AuthorizedKeys {
  import opened PythonText

  function Lead(s: string): string {
    if s != "" && IsBlank(s[0]) then Lead(s[1..]) else s
  }

  function Trail(s: string): string {
    if s != "" && IsBlank(s[|s| - 1]) then Trail(s[..|s| - 1]) else s
  }

  function Strip(s: string): string {
    Trail(Lead(s))
  }

  // The text before the first break, and what follows that break.
  function Line(s: string): string {
    if s == "" || IsBreak(s[0]) then "" else [s[0]] + Line(s[1..])
  }

  lemma {:induction false} LineIsPrefix(s: string)
    ensures Line(s) <= s && (forall i | 0 <= i < |Line(s)| :: !IsBreak(s[i]))
            && (|Line(s)| < |s| ==> IsBreak(s[|Line(s)|]))
  {
    if s != "" && !IsBreak(s[0]) {
      LineIsPrefix(s[1..]);
    }
  }

  function Lines(s: string): seq<string>
    decreases |s|
  {
    LineIsPrefix(s);
    if |Line(s)| == |s| then [s] else [Line(s)] + Lines(s[|Line(s)| + 1..])
  }

  // Stripped, without the empty ones.
  function Entries(lines: seq<string>): seq<string> {
    if lines == [] then []
    else
      var last := Strip(lines[|lines| - 1]);
      Entries(lines[..|lines| - 1]) + if last == "" then [] else [last]
  }

  // The first occurrence of each, in order.
  function Distinct(entries: seq<string>): seq<string> {
    if entries == [] then []
    else
      var before := Distinct(entries[..|entries| - 1]);
      if entries[|entries| - 1] in before then before else before + [entries[|entries| - 1]]
  }

  function Merged(existing: string, keys: seq<string>): seq<string> {
    Distinct(Entries(Lines(existing) + keys))
  }

  function Text(lines: seq<string>): string {
    if lines == [] then "\n" else Join(lines) + "\n"
  }

  function Join(lines: seq<string>): string {
    if lines == [] then "" else if |lines| == 1 then lines[0] else lines[0] + "\n" + Join(lines[1..])
  }

  method RenderAuthorizedKeys(existing: string, publicKeys: seq<string>) returns (text: string)
    ensures text == Text(Merged(existing, publicKeys))
  {
    hide Lines, Strip, Text, Entries, Distinct;
    NothingYet();
    var seen: set<string> := {};
    var lines: seq<string> := [];
    var all := Lines(existing) + publicKeys;
    assert all[..0] == [];
    for i := 0 to |all|
      invariant lines == Distinct(Entries(all[..i]))
      invariant seen == set line <- lines
    {
      EntriesStep(all, i);
      var normalized := Strip(all[i]);
      if normalized == "" || normalized in seen {
        continue;
      }
      seen := seen + {normalized};
      lines := lines + [normalized];
    }
    assert all[..|all|] == all;
    text := Text(lines);
  }

  lemma NothingYet()
    ensures Distinct(Entries([])) == []
  {}

  lemma EntriesStep(all: seq<string>, i: nat)
    requires i < |all|
    ensures var (before, entry) := (Distinct(Entries(all[..i])), Strip(all[i]));
            Distinct(Entries(all[..i + 1])) == if entry == "" || entry in before then before else before + [entry]
  {
    var entries, entry := Entries(all[..i]), Strip(all[i]);
    assert all[..i + 1][..i] == all[..i] && all[..i + 1][i] == all[i];
    assert (entries + [entry])[..|entries|] == entries;
    assert entries + [] == entries;
  }

  // ------------------------------------------------------------------ what is kept

  // No line occurs twice, exactly the entries are kept, and every part of the input yields a prefix of the
  // result: the order is that of first occurrence.
  lemma {:induction false} DistinctKeeps(entries: seq<string>)
    ensures forall i, j | 0 <= i < j < |Distinct(entries)| :: Distinct(entries)[i] != Distinct(entries)[j]
    ensures forall e :: e in Distinct(entries) <==> e in entries
    ensures forall n | 0 <= n <= |entries| :: Distinct(entries[..n]) <= Distinct(entries)
  {
    assert entries[..|entries|] == entries;
    if entries != [] {
      var n := |entries| - 1;
      DistinctKeeps(entries[..n]);
      assert entries == entries[..n] + [entries[n]];
      assert forall m | 0 <= m <= n :: entries[..n][..m] == entries[..m];
    }
  }

  lemma {:induction false} EntriesAppend(a: seq<string>, b: seq<string>)
    ensures Entries(a + b) == Entries(a) + Entries(b)
  {
    if b == [] {
      assert a + b == a;
    } else {
      assert (a + b)[..|a + b| - 1] == a + b[..|b| - 1];
      EntriesAppend(a, b[..|b| - 1]);
    }
  }

  // The lines of the file come first, in their order; keys are only appended.
  lemma ExistingLinesStayFirst(existing: string, keys: seq<string>)
    ensures Merged(existing, []) <= Merged(existing, keys)
    ensures forall key <- keys :: Strip(key) != "" ==> Strip(key) in Merged(existing, keys)
  {
    hide Lines, Entries, Strip, Distinct;
    var lines := Lines(existing);
    assert lines + [] == lines;
    EntriesAppend(lines, keys);
    DistinctKeeps(Entries(lines + keys));
    assert Entries(lines + keys)[..|Entries(lines)|] == Entries(lines);
    forall key <- keys
      ensures Strip(key) != "" ==> Strip(key) in Entries(keys)
    {
      if Strip(key) != "" {
        InEntries(keys, key);
      }
    }
  }

  lemma {:induction false} InEntries(lines: seq<string>, line: string)
    requires line in lines && Strip(line) != ""
    ensures Strip(line) in Entries(lines)
  {
    var n := |lines| - 1;
    if lines[n] != line {
      InEntries(lines[..n], line);
    }
  }

  predicate AllBlank(s: string) {
    forall i | 0 <= i < |s| :: IsBlank(s[i])
  }

  // Stripping keeps everything between the outer blanks.
  lemma StripKeepsMiddle(s: string) returns (i: nat, j: nat)
    ensures i <= j <= |s| && Strip(s) == s[i..j] && AllBlank(s[..i]) && AllBlank(s[j..])
    ensures Strip(s) != "" ==> !IsBlank(s[i]) && !IsBlank(s[j - 1])
  {
    i := LeadingBlanks(s);
    var m := TrailingBlanks(Lead(s));
    j := i + m;
    assert Lead(s) == s[i..] && Strip(s) == Lead(s)[..m];
    forall k | 0 <= k < |s[j..]|
      ensures IsBlank(s[j..][k])
    {
      assert s[j..][k] == Lead(s)[m..][k];
    }
  }

  lemma {:induction false} LeadingBlanks(s: string) returns (i: nat)
    ensures i <= |s| && Lead(s) == s[i..] && AllBlank(s[..i]) && (i < |s| ==> !IsBlank(s[i]))
  {
    i := 0;
    if s != "" && IsBlank(s[0]) {
      var n := LeadingBlanks(s[1..]);
      i := n + 1;
      assert s[..i] == [s[0]] + s[1..][..n];
    }
  }

  lemma {:induction false} TrailingBlanks(s: string) returns (m: nat)
    ensures m <= |s| && Trail(s) == s[..m] && AllBlank(s[m..]) && (m > 0 ==> !IsBlank(s[m - 1]))
  {
    m := |s|;
    if s != "" && IsBlank(s[|s| - 1]) {
      m := TrailingBlanks(s[..|s| - 1]);
      assert s[m..] == s[..|s| - 1][m..] + [s[|s| - 1]];
    }
  }

  // Lines and breaks in turn.
  function Weave(lines: seq<string>, breaks: string): string
    requires |lines| == |breaks| + 1
  {
    if breaks == "" then lines[0] else lines[0] + [breaks[0]] + Weave(lines[1..], breaks[1..])
  }

  // The lines of a text are what stands between its breaks, nothing more and nothing less.
  lemma {:induction false} LinesRebuild(s: string) returns (breaks: string)
    ensures |Lines(s)| == |breaks| + 1 && (forall i | 0 <= i < |breaks| :: IsBreak(breaks[i]))
    ensures Weave(Lines(s), breaks) == s
    ensures forall line <- Lines(s) :: forall i | 0 <= i < |line| :: !IsBreak(line[i])
    decreases |s|
  {
    hide Line, Lines;
    LineIsPrefix(s);
    FirstLine(s);
    var n := |Line(s)|;
    if n == |s| {
      breaks := "";
    } else {
      var rest := LinesRebuild(s[n + 1..]);
      breaks := [s[n]] + rest;
      assert breaks[1..] == rest && Lines(s)[1..] == Lines(s[n + 1..]);
    }
  }

  lemma FirstLine(s: string)
    ensures |Line(s)| <= |s|
    ensures if |Line(s)| == |s| then Lines(s) == [s] && Line(s) == s
            else
              && Lines(s) == [Line(s)] + Lines(s[|Line(s)| + 1..])
              && s == Line(s) + [s[|Line(s)|]] + s[|Line(s)| + 1..]
  {
    hide Line;
    LineIsPrefix(s);
  }

  // The text has a line feed after every line, and one where there is none.
  lemma {:induction false} TextExactly(lines: seq<string>) returns (feeds: string)
    ensures |feeds| == (if lines == [] then 0 else |lines| - 1) && forall i | 0 <= i < |feeds| :: feeds[i] == '\n'
    ensures Text(lines) == Weave(if lines == [] then [""] else lines, feeds) + "\n"
  {
    feeds := "";
    if |lines| > 1 {
      var rest := TextExactly(lines[1..]);
      feeds := "\n" + rest;
      assert feeds[1..] == rest && feeds[0] == '\n' && "\n" == ['\n'];
      assert Text(lines) == lines[0] + "\n" + Text(lines[1..]);
    }
  }

  // The result holds exactly the stripped lines and keys that are not blank.
  lemma MergedHoldsExactly(existing: string, keys: seq<string>, entry: string)
    ensures entry in Merged(existing, keys) <==>
            entry != "" && exists line :: (line in Lines(existing) || line in keys) && Strip(line) == entry
  {
    hide Lines, Strip, Entries, Distinct;
    var all := Lines(existing) + keys;
    DistinctKeeps(Entries(all));
    EntriesExactly(all, entry);
    assert forall line :: line in all <==> line in Lines(existing) || line in keys;
  }

  lemma {:induction false} EntriesExactly(lines: seq<string>, entry: string)
    ensures entry in Entries(lines) <==> entry != "" && exists line <- lines :: Strip(line) == entry
  {
    hide Strip;
    if lines != [] {
      var n := |lines| - 1;
      EntriesExactly(lines[..n], entry);
      assert lines == lines[..n] + [lines[n]];
    }
  }

  // ------------------------------------------------------------------ running it again

  predicate Unbroken(s: string) {
    forall i | 0 <= i < |s| :: !IsBreak(s[i])
  }

  ghost predicate Tight(s: string) {
    s != "" && !IsBlank(s[0]) && !IsBlank(s[|s| - 1])
  }

  lemma {:induction false} LeadIsSuffix(s: string)
    ensures |Lead(s)| <= |s| && Lead(s) == s[|s| - |Lead(s)|..] && (Lead(s) != "" ==> !IsBlank(Lead(s)[0]))
  {
    if s != "" && IsBlank(s[0]) {
      LeadIsSuffix(s[1..]);
    }
  }

  lemma {:induction false} TrailIsPrefix(s: string)
    ensures Trail(s) <= s && (Trail(s) != "" ==> !IsBlank(Trail(s)[|Trail(s)| - 1]))
  {
    if s != "" && IsBlank(s[|s| - 1]) {
      TrailIsPrefix(s[..|s| - 1]);
    }
  }

  lemma StripIsTight(s: string)
    ensures Strip(s) != "" ==> Tight(Strip(s))
    ensures Unbroken(s) ==> Unbroken(Strip(s))
  {
    LeadIsSuffix(s);
    TrailIsPrefix(Lead(s));
  }

  lemma TightIsStripped(s: string)
    requires Tight(s)
    ensures Strip(s) == s
  {}

  lemma {:induction false} EntriesAreTight(lines: seq<string>)
    ensures forall e <- Entries(lines) :: Tight(e)
    ensures (forall line <- lines :: Unbroken(Strip(line))) ==> forall e <- Entries(lines) :: Unbroken(e)
  {
    if lines != [] {
      var n := |lines| - 1;
      EntriesAreTight(lines[..n]);
      StripIsTight(lines[n]);
    }
  }

  lemma {:induction false} LinesAreUnbroken(s: string)
    ensures forall line <- Lines(s) :: Unbroken(line)
    decreases |s|
  {
    LineIsPrefix(s);
    if |Line(s)| < |s| {
      LinesAreUnbroken(s[|Line(s)| + 1..]);
    }
  }

  lemma {:induction false} LineOfAppend(a: string, rest: string)
    requires Unbroken(a)
    ensures Line(a + "\n" + rest) == a
  {
    var s := a + "\n" + rest;
    if a != "" {
      assert s[1..] == a[1..] + "\n" + rest;
      LineOfAppend(a[1..], rest);
    }
  }

  // The text of a list of lines is split into those lines and one empty line.
  lemma {:induction false} LinesOfJoin(lines: seq<string>)
    requires lines != [] && forall line <- lines :: Unbroken(line)
    ensures Lines(Join(lines) + "\n") == lines + [""]
  {
    var first := lines[0];
    if |lines| == 1 {
      assert first + "\n" + "" == first + "\n";
      LineOfAppend(first, "");
      assert (first + "\n")[|first| + 1..] == "";
      assert lines == [first];
    } else {
      var rest := Join(lines[1..]) + "\n";
      assert Join(lines) + "\n" == first + "\n" + rest;
      LineOfAppend(first, rest);
      assert (first + "\n" + rest)[|first| + 1..] == rest;
      LinesOfJoin(lines[1..]);
      assert lines + [""] == [first] + (lines[1..] + [""]);
    }
  }

  lemma {:induction false} TightEntries(lines: seq<string>)
    requires forall line <- lines :: Tight(line)
    ensures Entries(lines) == lines
  {
    if lines != [] {
      var n := |lines| - 1;
      TightEntries(lines[..n]);
      TightIsStripped(lines[n]);
      assert lines == lines[..n] + [lines[n]];
    }
  }

  lemma ReadBack(lines: seq<string>)
    requires forall line <- lines :: Tight(line) && Unbroken(line)
    ensures Entries(Lines(Text(lines))) == lines
  {
    if lines == [] {
      assert Lines("\n") == ["", ""];
      assert Entries(["", ""]) == Entries([""]) && Entries([""]) == Entries([]);
    } else {
      LinesOfJoin(lines);
      EntriesAppend(lines, [""]);
      TightEntries(lines);
      assert [""][..0] == [];
      assert Entries([""]) == [];
    }
  }

  lemma {:induction false} NothingNew(lines: seq<string>, more: seq<string>)
    requires (forall i, j | 0 <= i < j < |lines| :: lines[i] != lines[j]) && forall e <- more :: e in lines
    ensures Distinct(lines + more) == lines
    decreases |lines| + |more|
  {
    if more != [] {
      assert (lines + more)[..|lines + more| - 1] == lines + more[..|more| - 1];
      NothingNew(lines, more[..|more| - 1]);
    } else if lines != [] {
      var n := |lines| - 1;
      assert lines + more == lines && lines[..n] + [] == lines[..n];
      NothingNew(lines[..n], []);
      assert lines == lines[..n] + [lines[n]];
    }
  }

  // Merging the same keys into the result again changes nothing, as long as no key has a line break inside;
  // blanks and breaks around a key do no harm.
  lemma MergeIsIdempotent(existing: string, keys: seq<string>)
    requires forall key <- keys :: Unbroken(Strip(key))
    ensures Text(Merged(Text(Merged(existing, keys)), keys)) == Text(Merged(existing, keys))
  {
    hide Lines, Entries, Strip, Unbroken, Tight, Distinct, Text;
    var lines, all := Merged(existing, keys), Lines(existing) + keys;
    LinesAreUnbroken(existing);
    forall line <- Lines(existing)
      ensures Unbroken(Strip(line))
    {
      StripIsTight(line);
    }
    EntriesAreTight(all);
    DistinctKeeps(Entries(all));
    ReadBack(lines);
    EntriesAppend(Lines(Text(lines)), keys);
    EntriesAppend(Lines(existing), keys);
    NothingNew(lines, Entries(keys));
  }

  // ------------------------------------------------------------------ keys with breaks inside

  // The entries that the given lines are read as, one line after the other.
  function Pieces(lines: seq<string>): seq<string> {
    if lines == [] then [] else Entries(Lines(lines[0])) + Pieces(lines[1..])
  }

  lemma {:induction false} PiecesAppend(a: seq<string>, b: seq<string>)
    ensures Pieces(a + b) == Pieces(a) + Pieces(b)
  {
    if a == [] {
      assert a + b == b;
    } else {
      assert (a + b)[1..] == a[1..] + b;
      PiecesAppend(a[1..], b);
    }
  }

  lemma {:induction false} LineBeforeBreak(a: string, rest: string)
    ensures Line(a + "\n" + rest) == Line(a)
  {
    var s := a + "\n" + rest;
    if a != "" {
      assert s[0] == a[0] && s[1..] == a[1..] + "\n" + rest;
      LineBeforeBreak(a[1..], rest);
    }
  }

  lemma {:induction false} LinesAppend(a: string, rest: string)
    ensures Lines(a + "\n" + rest) == Lines(a) + Lines(rest)
    decreases |a|
  {
    hide Line;
    var s, n := a + "\n" + rest, |Line(a)|;
    LineBeforeBreak(a, rest);
    LineIsPrefix(a);
    if n == |a| {
      assert s[n + 1..] == rest && Line(a) == a;
    } else {
      assert s[n + 1..] == a[n + 1..] + "\n" + rest;
      LinesAppend(a[n + 1..], rest);
      assert [Line(a)] + (Lines(a[n + 1..]) + Lines(rest)) == [Line(a)] + Lines(a[n + 1..]) + Lines(rest);
    }
  }

  // Reading the text of a list of lines yields their pieces.
  lemma TextYieldsPieces(lines: seq<string>)
    ensures Entries(Lines(Text(lines))) == Pieces(lines)
  {
    hide Lines, Entries;
    NoEntry();
    EmptyText();
    if lines == [] {
      assert "\n" == "" + "\n" + "";
      LinesAppend("", "");
      EntriesAppend([""], [""]);
    } else {
      assert Join(lines) + "\n" == Join(lines) + "\n" + "";
      LinesAppend(Join(lines), "");
      EntriesAppend(Lines(Join(lines)), [""]);
      JoinYieldsPieces(lines);
      assert Pieces(lines) + [] == Pieces(lines);
    }
  }

  lemma {:induction false} JoinYieldsPieces(lines: seq<string>)
    requires lines != []
    ensures Entries(Lines(Join(lines))) == Pieces(lines)
  {
    hide Lines, Entries;
    if |lines| == 1 {
      assert lines[1..] == [];
    } else {
      LinesAppend(lines[0], Join(lines[1..]));
      EntriesAppend(Lines(lines[0]), Lines(Join(lines[1..])));
      JoinYieldsPieces(lines[1..]);
    }
  }

  lemma {:induction false} InPieces(lines: seq<string>, piece: string)
    ensures piece in Pieces(lines) <==> exists i :: 0 <= i < |lines| && piece in Entries(Lines(lines[i]))
  {
    hide Lines, Entries;
    if lines != [] {
      InPieces(lines[1..], piece);
      if piece in Entries(Lines(lines[0])) {
        assert piece in Entries(Lines(lines[0]));
      } else if i :| 0 <= i < |lines[1..]| && piece in Entries(Lines(lines[1..][i])) {
        assert piece in Entries(Lines(lines[i + 1]));
      }
      if i :| 0 <= i < |lines| && piece in Entries(Lines(lines[i])) {
        assert i > 0 ==> lines[i] == lines[1..][i - 1];
      }
    }
  }

  lemma {:induction false} PiecesAreUnbroken(lines: seq<string>)
    ensures forall piece <- Pieces(lines) :: Tight(piece) && Unbroken(piece)
  {
    hide Lines, Entries, Unbroken, Tight;
    if lines != [] {
      PiecesAreUnbroken(lines[1..]);
      LinesAreUnbroken(lines[0]);
      forall line <- Lines(lines[0])
        ensures Unbroken(Strip(line))
      {
        StripIsTight(line);
      }
      EntriesAreTight(Lines(lines[0]));
    }
  }

  lemma WholePiece(line: string)
    requires Tight(line) && Unbroken(line)
    ensures Entries(Lines(line)) == [line]
  {
    hide Lines, Entries;
    LinesOfJoin([line]);
    assert Join([line]) + "\n" == line + "\n" + "";
    LinesAppend(line, "");
    EmptyText();
    assert Lines(line) + [""] == [line] + [""];
    assert (Lines(line) + [""])[..|Lines(line)|] == Lines(line) && |Lines(line)| == 1;
    TightEntries([line]);
  }

  lemma {:induction false} WholePieces(lines: seq<string>)
    requires forall line <- lines :: Tight(line) && Unbroken(line)
    ensures Pieces(lines) == lines
  {
    hide Lines, Entries;
    if lines != [] {
      WholePiece(lines[0]);
      WholePieces(lines[1..]);
    }
  }

  // The keys that a line cannot hold.
  function Broken(entries: seq<string>): seq<string> {
    if entries == [] then []
    else
      var n := |entries| - 1;
      Broken(entries[..n]) + if Unbroken(entries[n]) then [] else [entries[n]]
  }

  // Appended to lines that hold exactly the unbroken ones of them, entries add their broken ones.
  lemma {:induction false} DistinctAddsBroken(lines: seq<string>, entries: seq<string>)
    requires forall e <- entries :: e in lines <==> Unbroken(e)
    ensures Distinct(lines + entries) == Distinct(lines) + Distinct(Broken(entries))
    ensures forall e :: e in Broken(entries) <==> e in entries && !Unbroken(e)
  {
    hide Distinct;
    if entries == [] {
      NothingDistinct();
      assert lines + entries == lines && Distinct(lines) + [] == Distinct(lines);
    } else {
      var n := |entries| - 1;
      var before, last := entries[..n], entries[n];
      assert entries == before + [last] && lines + entries == lines + before + [last];
      DistinctAddsBroken(lines, before);
      DistinctKeeps(lines);
      DistinctKeeps(Broken(before));
      OneMoreDistinct(lines + before, last);
      if Unbroken(last) {
        assert Broken(before) + [] == Broken(before);
      } else {
        OneMoreDistinct(Broken(before), last);
      }
    }
  }

  lemma NothingDistinct()
    ensures Distinct([]) == []
  {}

  lemma OneMoreDistinct(entries: seq<string>, last: string)
    ensures Distinct(entries + [last]) == Distinct(entries) + if last in Distinct(entries) then [] else [last]
  {
    assert (entries + [last])[..|entries|] == entries;
  }

  // What any run with these keys makes of lines that contain them all.
  lemma NextRun(lines: seq<string>, keys: seq<string>)
    requires forall key <- Entries(keys) :: key in lines
    ensures Merged(Text(lines), keys) == Distinct(Pieces(lines)) + Distinct(Broken(Entries(keys)))
    ensures forall e :: e in Broken(Entries(keys)) <==> e in Entries(keys) && !Unbroken(e)
  {
    hide Lines, Entries, Distinct, Broken, Pieces, Unbroken, Tight, Text;
    TextYieldsPieces(lines);
    EntriesAppend(Lines(Text(lines)), keys);
    PiecesAreUnbroken(lines);
    EntriesAreTight(keys);
    forall e <- Entries(keys)
      ensures e in Pieces(lines) <==> Unbroken(e)
    {
      if Unbroken(e) {
        WholePiece(e);
        InPieces(lines, e);
      }
    }
    DistinctAddsBroken(Pieces(lines), Entries(keys));
  }

  // The second run reads every line apart and appends the keys with breaks once more; from then on nothing
  // changes any more, whatever the keys are.
  lemma SecondRunIsStable(existing: string, keys: seq<string>)
    ensures var once := Merged(existing, keys);
            var twice := Merged(Text(once), keys);
            && twice == Distinct(Pieces(once)) + Distinct(Broken(Entries(keys)))
            && Merged(Text(twice), keys) == twice
  {
    hide Lines, Entries, Distinct, Broken, Pieces, Unbroken, Tight, Text;
    var once, added := Merged(existing, keys), Distinct(Broken(Entries(keys)));
    var pieces := Distinct(Pieces(once));
    var twice := pieces + added;
    EntriesAppend(Lines(existing), keys);
    DistinctKeeps(Entries(Lines(existing) + keys));
    NextRun(once, keys);
    DistinctKeeps(Pieces(once));
    DistinctKeeps(Broken(Entries(keys)));
    PiecesAreUnbroken(once);
    EntriesAreTight(keys);
    forall key <- Entries(keys)
      ensures key in twice
    {
      if Unbroken(key) {
        WholePiece(key);
        InPieces(once, key);
      }
    }
    NextRun(twice, keys);
    PiecesAppend(pieces, added);
    WholePieces(pieces);
    forall piece <- Pieces(added)
      ensures piece in pieces
    {
      InPieces(added, piece);
      var i :| 0 <= i < |added| && piece in Entries(Lines(added[i]));
      assert added[i] in added && added[i] in once;
      var j :| 0 <= j < |once| && once[j] == added[i];
      InPieces(once, piece);
    }
    NothingNew(pieces, Pieces(added));
  }

  // ------------------------------------------------------------------ when the second run changes nothing

  lemma {:induction false} BrokenAppend(a: seq<string>, b: seq<string>)
    ensures Broken(a + b) == Broken(a) + Broken(b)
  {
    if b == [] {
      assert a + b == a;
    } else {
      assert (a + b)[..|a + b| - 1] == a + b[..|b| - 1];
      BrokenAppend(a, b[..|b| - 1]);
    }
  }

  // Taking out the unbroken entries and taking first occurrences commute.
  lemma {:induction false} BrokenOfDistinct(entries: seq<string>)
    ensures Broken(Distinct(entries)) == Distinct(Broken(entries))
  {
    hide Unbroken, Distinct, Broken;
    NothingDistinct();
    BrokenIsFilter([]);
    if entries != [] {
      var before, last := entries[..|entries| - 1], entries[|entries| - 1];
      BrokenOfDistinct(before);
      assert entries == before + [last];
      OneMoreDistinct(before, last);
      OneMoreDistinct(Broken(before), last);
      BrokenAppend(before, [last]);
      BrokenAppend(Distinct(before), [last]);
      BrokenOne(last);
      BrokenIsFilter(Distinct(before));
      assert Broken(before) + [] == Broken(before) && Distinct(before) + [] == Distinct(before);
      assert Broken(Distinct(before)) + [] == Broken(Distinct(before));
    }
  }

  lemma BrokenOne(entry: string)
    ensures Broken([entry]) == if Unbroken(entry) then [] else [entry]
  {
    assert [entry][..0] == [] && Broken([]) == [];
    assert [] + [entry] == [entry];
  }

  lemma {:induction false} BrokenIsFilter(entries: seq<string>)
    ensures forall e :: e in Broken(entries) <==> e in entries && !Unbroken(e)
    ensures (forall e <- entries :: Unbroken(e)) ==> Broken(entries) == []
    ensures (forall e <- entries :: !Unbroken(e)) ==> Broken(entries) == entries
  {
    hide Unbroken;
    if entries != [] {
      var n := |entries| - 1;
      var before := entries[..n];
      BrokenIsFilter(before);
      assert entries == before + [entries[n]];
      assert Broken(entries) == Broken(before) + if Unbroken(entries[n]) then [] else [entries[n]];
    }
  }

  ghost predicate UnbrokenFirst(lines: seq<string>) {
    forall i, j | 0 <= i < j < |lines| :: Unbroken(lines[j]) ==> Unbroken(lines[i])
  }

  lemma {:induction false} UnbrokenPart(lines: seq<string>) returns (k: nat)
    requires UnbrokenFirst(lines)
    ensures k <= |lines| && (forall e <- lines[..k] :: Unbroken(e)) && forall e <- lines[k..] :: !Unbroken(e)
  {
    hide Unbroken;
    if lines == [] || !Unbroken(lines[0]) {
      k := 0;
    } else {
      var rest := lines[1..];
      assert forall i | 0 <= i < |rest| :: rest[i] == lines[i + 1];
      var m := UnbrokenPart(rest);
      k := m + 1;
      assert lines[..k] == [lines[0]] + rest[..m] && lines[k..] == rest[m..];
    }
  }

  // The broken lines of a merge are the broken keys, once each: the file has none.
  lemma BrokenLines(existing: string, keys: seq<string>)
    ensures Broken(Merged(existing, keys)) == Distinct(Broken(Entries(keys)))
  {
    hide Lines, Entries, Distinct, Broken, Strip, Unbroken, Tight;
    var lines := Lines(existing);
    LinesAreUnbroken(existing);
    forall line <- lines
      ensures Unbroken(Strip(line))
    {
      StripIsTight(line);
    }
    EntriesAreTight(lines);
    EntriesAppend(lines, keys);
    BrokenOfDistinct(Entries(lines + keys));
    BrokenAppend(Entries(lines), Entries(keys));
    BrokenIsFilter(Entries(lines));
    assert [] + Broken(Entries(keys)) == Broken(Entries(keys));
  }

  // Where the lines with breaks come last and are read as lines already there, reading the lines apart
  // gives the others back.
  lemma SplitAtBreaks(lines: seq<string>)
    requires UnbrokenFirst(lines) && (forall piece <- Pieces(lines) :: piece in lines)
    requires (forall line <- lines :: Tight(line)) && forall i, j | 0 <= i < j < |lines| :: lines[i] != lines[j]
    ensures lines == Distinct(Pieces(lines)) + Broken(lines)
  {
    hide Distinct, Broken, Pieces, Unbroken, Tight, UnbrokenFirst;
    var k := UnbrokenPart(lines);
    var whole, rest := lines[..k], lines[k..];
    assert lines == whole + rest;
    BrokenAppend(whole, rest);
    BrokenIsFilter(whole);
    BrokenIsFilter(rest);
    assert [] + rest == rest;
    PiecesAppend(whole, rest);
    WholePieces(whole);
    PiecesAreUnbroken(lines);
    forall piece | piece in Pieces(rest)
      ensures piece in whole
    {
      assert piece in Pieces(lines) && piece in lines && Unbroken(piece);
    }
    NothingNew(whole, Pieces(rest));
  }

  lemma KeptLines(existing: string, keys: seq<string>)
    requires var once := Merged(existing, keys); UnbrokenFirst(once) && forall piece <- Pieces(once) :: piece in once
    ensures var once := Merged(existing, keys);
            once == Distinct(Pieces(once)) + Distinct(Broken(Entries(keys)))
  {
    hide Lines, Entries, Distinct, Broken, Pieces, Unbroken, Tight, Text, UnbrokenFirst;
    BrokenLines(existing, keys);
    DistinctKeeps(Entries(Lines(existing) + keys));
    EntriesAreTight(Lines(existing) + keys);
    SplitAtBreaks(Merged(existing, keys));
  }

  // A second run keeps every line exactly when the lines with breaks come last and all that they are read as
  // are lines already.
  lemma SecondRunKeepsExactly(existing: string, keys: seq<string>)
    ensures var once := Merged(existing, keys);
            Merged(Text(once), keys) == once <==>
            UnbrokenFirst(once) && forall piece <- Pieces(once) :: piece in once
  {
    hide Lines, Entries, Distinct, Broken, Pieces, Unbroken, Tight, Text, Merged, UnbrokenFirst;
    var once, added := Merged(existing, keys), Distinct(Broken(Entries(keys)));
    var pieces := Distinct(Pieces(once));
    HoldsKeys(existing, keys);
    NextRun(once, keys);
    if UnbrokenFirst(once) && forall piece <- Pieces(once) :: piece in once {
      KeptLines(existing, keys);
    }
    if once == pieces + added {
      DistinctKeeps(Pieces(once));
      DistinctKeeps(Broken(Entries(keys)));
      PiecesAreUnbroken(once);
      assert UnbrokenFirst(pieces + added) by {
        UnbrokenThenBroken(pieces, added);
      }
    }
  }

  lemma HoldsKeys(existing: string, keys: seq<string>)
    ensures forall key <- Entries(keys) :: key in Merged(existing, keys)
  {
    EntriesAppend(Lines(existing), keys);
    DistinctKeeps(Entries(Lines(existing) + keys));
  }

  lemma UnbrokenThenBroken(a: seq<string>, b: seq<string>)
    requires (forall e <- a :: Unbroken(e)) && forall e <- b :: !Unbroken(e)
    ensures UnbrokenFirst(a + b)
  {
    hide Unbroken;
    forall i, j | 0 <= i < j < |a + b| && Unbroken((a + b)[j])
      ensures Unbroken((a + b)[i])
    {
      assert (a + b)[j] !in b;
      assert (a + b)[i] == a[i] && a[i] in a;
    }
  }

  // A key with a break inside is taken apart on the second run and then added again.
  lemma BrokenKeyIsAddedAgain()
    ensures var once := Merged("", ["a\nb"]);
            once == ["a\nb"] && Merged(Text(once), ["a\nb"]) == ["a", "b", "a\nb"]
  {
    hide Lines, Entries, Distinct, Strip, Text;
    var key, one, two := "a\nb", [""], ["a", "b"];
    assert Entries(one) == [] && Text([key]) == Text(two) by {
      NoEntry();
      SameText();
    }
    TightEntries([key]);
    TightEntries(two);
    assert Lines("") == one by {
      EmptyText();
    }
    EntriesAppend(one, [key]);
    assert [] + [key] == [key] && [key] + [] == [key] && (two + [key]) + [] == two + [key];
    NothingNew([key], []);
    NothingNew(two + [key], []);
    assert Lines(Text(two)) == two + one by {
      SameText();
      LinesOfJoin(two);
    }
    EntriesAppend(two + one, [key]);
    EntriesAppend(two, one);
    assert two + [] == two;
    assert Entries(two + one + [key]) == two + [key];
  }

  lemma NoEntry()
    ensures Entries([""]) == []
  {}

  lemma EmptyText()
    ensures Lines("") == [""]
  {}

  lemma SameText()
    ensures Text(["a\nb"]) == Text(["a", "b"]) == Join(["a", "b"]) + "\n"
  {}
}
