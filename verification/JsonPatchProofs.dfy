/** What the compiled patch means for a reader of the variables, and when the restoring patch undoes it. */
module JsonPatchProofs {
  import opened Options
  import opened JsonPatch

  // ------------------------------------------------------------------ the value of one name

  function EntryOf(env: seq<Entry>, name: string): Option<Entry> {
    if env == [] then None else if env[0].name == name then Some(env[0]) else EntryOf(env[1..], name)
  }

  lemma {:induction false} EntryOfAppend(a: seq<Entry>, b: seq<Entry>, name: string)
    ensures EntryOf(a + b, name) == if EntryOf(a, name).Some? then EntryOf(a, name) else EntryOf(b, name)
  {
    if a == [] {
      assert a + b == b;
    } else {
      assert (a + b)[1..] == a[1..] + b;
      EntryOfAppend(a[1..], b, name);
    }
  }

  lemma {:induction false} EntryOfFirst(env: seq<Entry>, name: string)
    ensures EntryOf(env, name) == if Occurs(env, name) then Some(env[FirstIndex(env, name)]) else None
  {
    if env != [] {
      EntryOfFirst(env[1..], name);
      assert env == [env[0]] + env[1..];
      assert Occurs(env, name) <==> env[0].name == name || Occurs(env[1..], name);
    }
  }

  lemma {:induction false} EntryOfSurvivors(env: seq<Entry>, extra: Variables, drop: seq<string>, name: string)
    ensures EntryOf(Survivors(env, extra, drop), name) == if Dropped(extra, drop, name) then None
            else EntryOf(env, name)
  {
    if env != [] {
      EntryOfSurvivors(env[1..], extra, drop, name);
      EntryOfAppend(if Dropped(extra, drop, env[0].name) then [] else [env[0]], Survivors(env[1..], extra, drop), name);
    }
  }

  // The first occurrence is determined by the names alone.
  lemma SameFirst(a: seq<Entry>, b: seq<Entry>, name: string)
    requires |a| == |b| && forall i | 0 <= i < |a| :: a[i].name == b[i].name
    ensures Occurs(a, name) <==> Occurs(b, name)
    ensures Occurs(a, name) ==> FirstIndex(a, name) == FirstIndex(b, name)
  {}

  lemma EntryOfReplaced(env: seq<Entry>, extra: Variables, name: string)
    ensures EntryOf(Replaced(env, extra), name) ==
            if Occurs(env, name) && Defines(extra, name) then Some(Literal(name, ValueOf(extra, name)))
            else EntryOf(env, name)
  {
    SameFirst(env, Replaced(env, extra), name);
    EntryOfFirst(env, name);
    EntryOfFirst(Replaced(env, extra), name);
  }

  lemma {:induction false} EntryOfAdditions(env: seq<Entry>, extra: Variables, name: string)
    requires Distinct(extra)
    ensures EntryOf(Additions(env, extra), name) ==
            if Defines(extra, name) && !Occurs(env, name) then Some(Literal(name, ValueOf(extra, name))) else None
  {
    if extra != [] {
      var n := |extra| - 1;
      var before, last := extra[..n], extra[n];
      EntryOfAdditions(env, before, name);
      EntryOfAppend(Additions(env, before), if Occurs(env, last.0) then [] else [Literal(last.0, last.1)], name);
      assert extra == before + [(last.0, last.1)];
      assert !Defines(before, last.0);
      ValueOfMore(before, last.0, last.1, name);
    }
  }

  // New names carry their values, dropped names are gone, every other name reads as before.
  lemma LookupAfterUpdate(env: seq<Entry>, extra: Variables, drop: seq<string>, name: string)
    requires Distinct(extra)
    ensures EntryOf(UpdatedEnv(env, extra, drop), name) ==
            if Defines(extra, name) then Some(Literal(name, ValueOf(extra, name)))
            else if name in drop then None
            else EntryOf(env, name)
  {
    hide EntryOf;
    var r := Replaced(env, extra);
    EntryOfAppend(Survivors(r, extra, drop), Additions(env, extra), name);
    EntryOfSurvivors(r, extra, drop, name);
    EntryOfReplaced(env, extra, name);
    EntryOfAdditions(env, extra, name);
    EntryOfFirst(env, name);
  }

  // ------------------------------------------------------------------ order

  function NamesOf(env: seq<Entry>): seq<string> {
    seq(|env|, i requires 0 <= i < |env| => env[i].name)
  }

  function KeptNames(names: seq<string>, extra: Variables, drop: seq<string>): seq<string> {
    if names == [] then []
    else (if Dropped(extra, drop, names[0]) then [] else [names[0]]) + KeptNames(names[1..], extra, drop)
  }

  // The entries that the update does not speak about, in order.
  function Others(env: seq<Entry>, extra: Variables, drop: seq<string>): seq<Entry> {
    if env == [] then []
    else (if env[0].name in drop || Defines(extra, env[0].name) then [] else [env[0]]) + Others(env[1..], extra, drop)
  }

  lemma {:induction false} OthersAppend(a: seq<Entry>, b: seq<Entry>, extra: Variables, drop: seq<string>)
    ensures Others(a + b, extra, drop) == Others(a, extra, drop) + Others(b, extra, drop)
  {
    if a == [] {
      assert a + b == b;
    } else {
      assert (a + b)[1..] == a[1..] + b;
      OthersAppend(a[1..], b, extra, drop);
    }
  }

  lemma {:induction false} OthersSurvive(env: seq<Entry>, r: seq<Entry>, extra: Variables, drop: seq<string>)
    requires |r| == |env|
    requires forall i | 0 <= i < |env| :: r[i].name == env[i].name && (Defines(extra, env[i].name) || r[i] == env[i])
    ensures Others(Survivors(r, extra, drop), extra, []) == Others(env, extra, drop)
  {
    hide Defines;
    if env != [] {
      OthersSurvive(env[1..], r[1..], extra, drop);
      OthersAppend(if Dropped(extra, drop, r[0].name) then [] else [r[0]], Survivors(r[1..], extra, drop), extra, []);
    }
  }

  lemma {:induction false} NamesSurvive(env: seq<Entry>, r: seq<Entry>, extra: Variables, drop: seq<string>)
    requires |r| == |env| && forall i | 0 <= i < |env| :: r[i].name == env[i].name
    ensures NamesOf(Survivors(r, extra, drop)) == KeptNames(NamesOf(env), extra, drop)
  {
    hide Dropped;
    if env != [] {
      NamesSurvive(env[1..], r[1..], extra, drop);
      var head := if Dropped(extra, drop, r[0].name) then [] else [r[0]];
      assert NamesOf(head + Survivors(r[1..], extra, drop)) == NamesOf(head) + NamesOf(Survivors(r[1..], extra, drop));
      assert NamesOf(env)[1..] == NamesOf(env[1..]);
    }
  }

  lemma {:induction false} AdditionsAreDefined(env: seq<Entry>, extra: Variables, all: Variables)
    requires forall k | 0 <= k < |extra| :: Defines(all, extra[k].0)
    ensures Others(Additions(env, extra), all, []) == []
    ensures forall e <- Additions(env, extra) :: Defines(all, e.name)
  {
    if extra != [] {
      var n := |extra| - 1;
      AdditionsAreDefined(env, extra[..n], all);
      OthersAppend(Additions(env, extra[..n]), if Occurs(env, extra[n].0) then []
                   else [Literal(extra[n].0, extra[n].1)], all, []);
    }
  }

  // Survivors keep their order and new names come last; untouched entries keep name, value and order.
  lemma OrderAfterUpdate(env: seq<Entry>, extra: Variables, drop: seq<string>)
    ensures Others(UpdatedEnv(env, extra, drop), extra, []) == Others(env, extra, drop)
    ensures NamesOf(UpdatedEnv(env, extra, drop))
            == KeptNames(NamesOf(env), extra, drop) + NamesOf(Additions(env, extra))
    ensures forall e <- Additions(env, extra) :: Defines(extra, e.name)
  {
    hide Survivors, Additions, Others, KeptNames, Replaced;
    var r := Replaced(env, extra);
    ReplacedAt(env, extra);
    OthersSurvive(env, r, extra, drop);
    NamesSurvive(env, r, extra, drop);
    AdditionsAreDefined(env, extra, extra);
    OthersAppend(Survivors(r, extra, drop), Additions(env, extra), extra, []);
  }

  // New names come in the order in which they were given.
  lemma {:induction false} AdditionsInOrder(env: seq<Entry>, extra: Variables)
    requires extra != []
    ensures Additions(env, extra) ==
            (if Occurs(env, extra[0].0) then [] else [Literal(extra[0].0, extra[0].1)]) + Additions(env, extra[1..])
  {
    if |extra| == 1 {
      assert extra[..0] == [] && extra[1..] == [];
    } else {
      var n := |extra| - 1;
      assert extra[..n][1..] == extra[1..][..n - 1];
      AdditionsInOrder(env, extra[..n]);
    }
  }

  // ------------------------------------------------------------------ the whole deployment

  // The patch is refused exactly when the image or the variables it is to change are not there. Otherwise the
  // first container has the new image, if one was given, and the updated variables, if it has any, and
  // everything else stays.
  lemma UpdateExactly(doc: Deployment, image: string, extra: Variables, drop: seq<string>)
    ensures var updated := Update(doc, image, extra, drop);
            && (updated.None? <==>
                  || (image != "" && (doc.containers == [] || doc.containers[0].image.None?))
                  || (extra != [] && (doc.containers == [] || doc.containers[0].env.None?)))
            && (updated.Some? ==>
                  && |updated.value.containers| == |doc.containers|
                  && (forall i | 0 < i < |doc.containers| :: updated.value.containers[i] == doc.containers[i])
                  && (doc.containers != [] ==>
                        var before, after := doc.containers[0], updated.value.containers[0];
                        && after.image == (if image != "" then Some(image) else before.image)
                        && (before.env.None? ==> after.env.None?)
                        && (before.env.Some? ==> after.env == Some(UpdatedEnv(before.env.value, extra, drop)))))
  {
    hide UpdatedEnv;
  }

  // ------------------------------------------------------------------ repeated names

  // Only the first entry of a name is rewritten, so the new value stands alone exactly when every later
  // entry of that name already carried it.
  lemma NewValueStandsAlone(env: seq<Entry>, extra: Variables, drop: seq<string>, name: string)
    requires Distinct(extra) && Defines(extra, name)
    ensures var wanted := Literal(name, ValueOf(extra, name));
            (forall e <- UpdatedEnv(env, extra, drop) :: e.name == name ==> e == wanted) <==>
            (forall i | 0 <= i < |env| :: env[i].name == name && !IsFirst(env, i) ==> env[i] == wanted)
  {
    hide Replaced, Additions;
    var r, added, wanted := Replaced(env, extra), Additions(env, extra), Literal(name, ValueOf(extra, name));
    forall e: Entry | e.name == name
      ensures e in UpdatedEnv(env, extra, drop) <==> e in r || e in added
    {
      InSurvivors(r, extra, drop, e);
    }
    forall e <- added | e.name == name
      ensures e == wanted
    {
      AdditionsCarry(env, extra, e);
    }
    ReplacedAt(env, extra);
  }

  lemma ReplacedAt(env: seq<Entry>, extra: Variables)
    ensures forall i | 0 <= i < |env| :: Replaced(env, extra)[i] ==
              if IsFirst(env, i) && Defines(extra, env[i].name) then Literal(env[i].name, ValueOf(extra, env[i].name))
              else env[i]
  {}

  lemma {:induction false} InSurvivors(env: seq<Entry>, extra: Variables, drop: seq<string>, e: Entry)
    ensures e in Survivors(env, extra, drop) <==> e in env && !Dropped(extra, drop, e.name)
  {
    if env != [] {
      InSurvivors(env[1..], extra, drop, e);
      assert env == [env[0]] + env[1..];
    }
  }

  lemma {:induction false} AdditionsCarry(env: seq<Entry>, extra: Variables, e: Entry)
    requires Distinct(extra) && e in Additions(env, extra)
    ensures Defines(extra, e.name) && e == Literal(e.name, ValueOf(extra, e.name))
  {
    var n := |extra| - 1;
    var before, last := extra[..n], extra[n];
    assert extra == before + [(last.0, last.1)];
    assert !Defines(before, last.0);
    ValueOfMore(before, last.0, last.1, e.name);
    if e in Additions(env, before) {
      AdditionsCarry(env, before, e);
    }
  }

  // ------------------------------------------------------------------ rolling out and back

  function Keys(extra: Variables): (names: seq<string>)
    ensures forall name :: name in names <==> Defines(extra, name)
  {
    if extra == [] then []
    else
      assert extra == [extra[0]] + extra[1..];
      [extra[0].0] + Keys(extra[1..])
  }

  lemma {:induction false} SurvivorsAppend(a: seq<Entry>, b: seq<Entry>, extra: Variables, drop: seq<string>)
    ensures Survivors(a + b, extra, drop) == Survivors(a, extra, drop) + Survivors(b, extra, drop)
  {
    if a == [] {
      assert a + b == b;
    } else {
      assert (a + b)[1..] == a[1..] + b;
      SurvivorsAppend(a[1..], b, extra, drop);
    }
  }

  lemma {:induction false} AllOrNoneSurvive(env: seq<Entry>, extra: Variables, drop: seq<string>)
    ensures (forall e <- env :: !Dropped(extra, drop, e.name)) ==> Survivors(env, extra, drop) == env
    ensures (forall e <- env :: Dropped(extra, drop, e.name)) ==> Survivors(env, extra, drop) == []
  {
    if env != [] {
      AllOrNoneSurvive(env[1..], extra, drop);
    }
  }

  lemma RestoredEnv(env: seq<Entry>, extra: Variables)
    ensures UpdatedEnv(UpdatedEnv(env, extra, []), [], Keys(extra)) == env <==> forall e <- env ::
            !Defines(extra, e.name)
  {
    hide Survivors, Replaced, Additions;
    var rolled := UpdatedEnv(env, extra, []);
    var r, added, drop := Replaced(env, extra), Additions(env, extra), Keys(extra);
    AllOrNoneSurvive(r, extra, []);
    AllOrNoneSurvive(rolled, [], []);
    ReplacedAt(rolled, []);
    ReplacedAt(env, extra);
    assert Replaced(rolled, []) == rolled;
    NoAdditions(rolled);
    var back := Survivors(rolled, [], drop);
    assert UpdatedEnv(rolled, [], drop) == back;
    if forall e <- env :: !Defines(extra, e.name) {
      assert r == env;
      AdditionsAreDefined(env, extra, extra);
      SurvivorsAppend(env, added, [], drop);
      AllOrNoneSurvive(env, [], drop);
      AllOrNoneSurvive(added, [], drop);
    }
    forall e <- env | Defines(extra, e.name)
      ensures e !in back
    {
      InSurvivors(rolled, [], drop, e);
    }
  }

  lemma NoAdditions(env: seq<Entry>)
    ensures Additions(env, []) == []
  {}

  // Rolling out a variable set and restoring by dropping its names gives back the deployment exactly when
  // none of those names was set before.
  lemma RestoreUndoesRollout(doc: Deployment, image: string, extra: Variables)
    requires HasImage(doc) && HasEnv(doc) && doc.containers[0].image.value != "" && image != ""
    ensures var rolled := Update(doc, image, extra, []);
            && rolled.Some?
            && (Update(rolled.value, doc.containers[0].image.value, [], Keys(extra)) == Some(doc) <==>
                forall e <- EnvOf(doc) :: !Defines(extra, e.name))
  {
    hide UpdatedEnv;
    var env := EnvOf(doc);
    var prior := doc.containers[0];
    var rolled := Update(doc, image, extra, []).value;
    RestoredEnv(env, extra);
    var again := UpdatedEnv(UpdatedEnv(env, extra, []), [], Keys(extra));
    var back := Update(rolled, prior.image.value, [], Keys(extra));
    assert EnvOf(rolled) == UpdatedEnv(env, extra, []);
    assert back == Some(Deployment(rolled.containers[0 := Container(prior.image, Some(again))]));
    assert rolled.containers[0 := Container(prior.image, Some(again))]
        == doc.containers[0 := Container(prior.image, Some(again))];
    assert doc.containers[0 := prior] == doc.containers;
    assert again != env ==> back.value.containers[0] != doc.containers[0];
  }
}
