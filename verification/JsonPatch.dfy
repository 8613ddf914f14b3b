/** Compiling an environment update into index-based JSON Patch operations (RFC 6902, sections 4.1 to 4.3). */
module JsonPatch {
  import opened Options

  datatype Entry = Literal(name: string, value: string) | Reference(name: string, source: string)

  datatype Container = Container(image: Option<string>, env: Option<seq<Entry>>)

  datatype Deployment = Deployment(containers: seq<Container>)

  datatype Op =
    | ReplaceImage(image: string)
    | ReplaceEnv(index: nat, entry: Entry)
    | AddEnv(entry: Entry)
    | RemoveEnv(index: nat)

  // Key order is insertion order and keys are distinct.
  type Variables = seq<(string, string)>

  // ------------------------------------------------------------------ the interpreter

  // An operation on a place that does not exist refuses the whole patch.
  function ApplyOp(doc: Deployment, op: Op): Option<Deployment> {
    if doc.containers == [] then None
    else
      var c := doc.containers[0];
      match op
      case ReplaceImage(image) =>
        if c.image.None? then None else Some(WithFirst(doc, c.(image := Some(image))))
      case ReplaceEnv(index, entry) =>
        if c.env.None? || index >= |c.env.value| then None
        else Some(WithFirst(doc, c.(env := Some(c.env.value[index := entry]))))
      case AddEnv(entry) =>
        if c.env.None? then None else Some(WithFirst(doc, c.(env := Some(c.env.value + [entry]))))
      case RemoveEnv(index) =>
        if c.env.None? || index >= |c.env.value| then None
        else Some(WithFirst(doc, c.(env := Some(c.env.value[..index] + c.env.value[index + 1..]))))
  }

  function WithFirst(doc: Deployment, c: Container): Deployment
    requires doc.containers != []
  {
    Deployment(doc.containers[0 := c])
  }

  function Exec(doc: Deployment, ops: seq<Op>): Option<Deployment> {
    if ops == [] then Some(doc)
    else
      var before := Exec(doc, ops[..|ops| - 1]);
      if before.None? then None else ApplyOp(before.value, ops[|ops| - 1])
  }

  lemma ExecStep(doc: Deployment, ops: seq<Op>, op: Op)
    ensures Exec(doc, ops + [op]) == if Exec(doc, ops).None? then None else ApplyOp(Exec(doc, ops).value, op)
  {}

  // ------------------------------------------------------------------ the update it stands for

  predicate HasImage(doc: Deployment) {
    doc.containers != [] && doc.containers[0].image.Some?
  }

  predicate HasEnv(doc: Deployment) {
    doc.containers != [] && doc.containers[0].env.Some?
  }

  function EnvOf(doc: Deployment): seq<Entry> {
    if HasEnv(doc) then doc.containers[0].env.value else []
  }

  predicate Defines(extra: Variables, name: string) {
    exists k | 0 <= k < |extra| :: extra[k].0 == name
  }

  predicate Distinct(extra: Variables) {
    forall j, k | 0 <= j < k < |extra| :: extra[j].0 != extra[k].0
  }

  function ValueOf(extra: Variables, name: string): (value: string)
    requires Defines(extra, name)
    ensures (name, value) in extra
  {
    if extra[0].0 == name then extra[0].1 else ValueOf(extra[1..], name)
  }

  predicate Occurs(env: seq<Entry>, name: string) {
    exists i | 0 <= i < |env| :: env[i].name == name
  }

  predicate IsFirst(env: seq<Entry>, i: nat)
    requires i < |env|
  {
    !Occurs(env[..i], env[i].name)
  }

  // The first entry of each defined name gets the new value, in place.
  function Replaced(env: seq<Entry>, extra: Variables): (r: seq<Entry>)
    ensures |r| == |env| && forall i | 0 <= i < |env| :: r[i].name == env[i].name
  {
    seq(|env|, i requires 0 <= i < |env| =>
      if IsFirst(env, i) && Defines(extra, env[i].name) then Literal(env[i].name, ValueOf(extra, env[i].name))
      else env[i])
  }

  // Names that are new are appended, in the order given.
  function Additions(env: seq<Entry>, extra: Variables): seq<Entry> {
    if extra == [] then []
    else
      var (name, value) := extra[|extra| - 1];
      Additions(env, extra[..|extra| - 1]) + if Occurs(env, name) then [] else [Literal(name, value)]
  }

  predicate Dropped(extra: Variables, drop: seq<string>, name: string) {
    name in drop && !Defines(extra, name)
  }

  function Survivors(env: seq<Entry>, extra: Variables, drop: seq<string>): seq<Entry> {
    if env == [] then []
    else (if Dropped(extra, drop, env[0].name) then [] else [env[0]]) + Survivors(env[1..], extra, drop)
  }

  function UpdatedEnv(env: seq<Entry>, extra: Variables, drop: seq<string>): seq<Entry> {
    Survivors(Replaced(env, extra), extra, drop) + Additions(env, extra)
  }

  function Edited(doc: Deployment, image: string, env: seq<Entry>): Deployment {
    if doc.containers == [] then doc
    else
      var c := doc.containers[0];
      WithFirst(doc, Container(if image == "" then c.image else Some(image), if c.env.None? then None else Some(env)))
  }

  // The patch is refused exactly when it names an image or a variable list that is not there.
  function Outcome(doc: Deployment, image: string, extra: Variables, env: seq<Entry>): Option<Deployment> {
    if (image != "" && !HasImage(doc)) || (extra != [] && !HasEnv(doc)) then None else Some(Edited(doc, image, env))
  }

  function Update(doc: Deployment, image: string, extra: Variables, drop: seq<string>): Option<Deployment> {
    Outcome(doc, image, extra, UpdatedEnv(EnvOf(doc), extra, drop))
  }

  // ------------------------------------------------------------------ compiling it

  function FirstIndex(env: seq<Entry>, name: string): (i: nat)
    requires Occurs(env, name)
    ensures i < |env| && env[i].name == name && IsFirst(env, i)
  {
    if env[0].name == name then 0
    else
      var i := 1 + FirstIndex(env[1..], name);
      assert env[..i] == [env[0]] + env[1..][..i - 1];
      i
  }

  lemma ReplaceStep(env: seq<Entry>, extra: Variables, name: string, value: string)
    requires !Defines(extra, name)
    ensures Occurs(env, name) ==>
              && Replaced(env, extra + [(name, value)])
                   == Replaced(env, extra)[FirstIndex(env, name) := Literal(name, value)]
              && Additions(env, extra + [(name, value)]) == Additions(env, extra)
    ensures !Occurs(env, name) ==>
              && Replaced(env, extra + [(name, value)]) == Replaced(env, extra)
              && Additions(env, extra + [(name, value)]) == Additions(env, extra) + [Literal(name, value)]
  {
    var more := extra + [(name, value)];
    assert more[..|extra|] == extra && more[|extra|] == (name, value);
    forall i | 0 <= i < |env|
      ensures Replaced(env, more)[i] == if env[i].name == name && IsFirst(env, i) then Literal(name, value)
              else Replaced(env, extra)[i]
    {
      ValueOfMore(extra, name, value, env[i].name);
    }
    if Occurs(env, name) {
      var first := FirstIndex(env, name);
      forall i, j | 0 <= i < j < |env|
        ensures Occurs(env[..j], env[i].name)
      {
        assert env[..j][i] == env[i];
      }
      forall i | 0 <= i < |env| && env[i].name == name && IsFirst(env, i)
        ensures i == first
      {}
    }
  }

  lemma {:induction false} ValueOfMore(extra: Variables, name: string, value: string, other: string)
    requires !Defines(extra, name)
    ensures Defines(extra + [(name, value)], other) <==> other == name || Defines(extra, other)
    ensures other == name ==> ValueOf(extra + [(name, value)], other) == value
    ensures Defines(extra, other) ==> ValueOf(extra + [(name, value)], other) == ValueOf(extra, other)
  {
    var more := extra + [(name, value)];
    assert more[|extra|].0 == name;
    assert forall k | 0 <= k < |extra| :: more[k] == extra[k];
    if extra != [] {
      assert more[1..] == extra[1..] + [(name, value)];
      ValueOfMore(extra[1..], name, value, other);
    }
  }

  // What one operation on the environment does to it.
  function Changed(env: seq<Entry>, op: Op): seq<Entry>
    requires op.AddEnv? || (!op.ReplaceImage? && op.index < |env|)
  {
    match op
    case ReplaceEnv(index, entry) => env[index := entry]
    case AddEnv(entry) => env + [entry]
    case RemoveEnv(index) => env[..index] + env[index + 1..]
  }

  // One more operation, on the environment reached so far.
  lemma StepEdits(doc: Deployment, image: string, extra: Variables, env: seq<Entry>, ops: seq<Op>, op: Op)
    requires Exec(doc, ops) == Outcome(doc, image, extra, env)
    requires op.AddEnv? || (HasEnv(doc) && !op.ReplaceImage? && op.index < |env|)
    ensures HasEnv(doc) ==> Exec(doc, ops + [op]) == Outcome(doc, image, extra, Changed(env, op))
    ensures !HasEnv(doc) ==> Exec(doc, ops + [op]) == None
  {
    ExecStep(doc, ops, op);
    if HasEnv(doc) && Exec(doc, ops).Some? {
      var c := doc.containers[0];
      var image' := if image == "" then c.image else Some(image);
      var before := Edited(doc, image, env);
      assert before.containers[0] == Container(image', Some(env));
      assert before.containers[0 := Container(image', Some(Changed(env, op)))]
          == doc.containers[0 := Container(image', Some(Changed(env, op)))];
    }
  }

  lemma StartEdits(doc: Deployment, image: string)
    ensures var ops := if image == "" then [] else [ReplaceImage(image)];
            Exec(doc, ops) == Outcome(doc, image, [], EnvOf(doc))
  {
    if image == "" {
      assert doc.containers != [] ==> Edited(doc, image, EnvOf(doc)).containers == doc.containers;
    } else {
      ExecStep(doc, [], ReplaceImage(image));
      assert [] + [ReplaceImage(image)] == [ReplaceImage(image)];
    }
  }

  lemma Unchanged(env: seq<Entry>)
    ensures Replaced(env, []) + Additions(env, []) == env
  {}

  // The next variable in phase two.
  lemma VariableStep(doc: Deployment, image: string, extra: Variables, k: nat, ops: seq<Op>)
    requires Distinct(extra) && k < |extra|
    requires Exec(doc, ops)
             == Outcome(doc, image, extra[..k], Replaced(EnvOf(doc), extra[..k]) + Additions(EnvOf(doc), extra[..k]))
    ensures var (env, item) := (EnvOf(doc), Literal(extra[k].0, extra[k].1));
            var op := if Occurs(env, extra[k].0) then ReplaceEnv(FirstIndex(env, extra[k].0), item) else AddEnv(item);
            Exec(doc, ops + [op])
                == Outcome(doc, image, extra[..k + 1], Replaced(env, extra[..k + 1]) + Additions(env, extra[..k + 1]))
  {
    hide Exec, Replaced, Additions, Edited;
    var (env, name, item) := (EnvOf(doc), extra[k].0, Literal(extra[k].0, extra[k].1));
    var op := if Occurs(env, name) then ReplaceEnv(FirstIndex(env, name), item) else AddEnv(item);
    var done := extra[..k];
    assert extra[..k + 1] == done + [(name, extra[k].1)];
    ReplaceStep(env, done, name, extra[k].1);
    StepEdits(doc, image, done, Replaced(env, done) + Additions(env, done), ops, op);
    if op.ReplaceEnv? {
      assert Replaced(env, done)[op.index := item] + Additions(env, done)
          == (Replaced(env, done) + Additions(env, done))[op.index := item];
    } else {
      assert Replaced(env, done) + (Additions(env, done) + [item])
          == Replaced(env, done) + Additions(env, done) + [item];
    }
  }

  // The next position in phase three: everything behind it has already moved up.
  lemma RemovalStep(doc: Deployment, image: string, extra: Variables, drop: seq<string>, i: nat, ops: seq<Op>)
    requires i < |EnvOf(doc)|
    requires Exec(doc, ops) == Outcome(doc, image, extra, Mixed(EnvOf(doc), extra, drop, i + 1))
    ensures var more := if Dropped(extra, drop, EnvOf(doc)[i].name) then ops + [RemoveEnv(i)] else ops;
            Exec(doc, more) == Outcome(doc, image, extra, Mixed(EnvOf(doc), extra, drop, i))
  {
    hide Exec, Additions, Edited, Replaced, Survivors, Outcome, Dropped;
    var env := EnvOf(doc);
    var r, added := Replaced(env, extra), Additions(env, extra);
    var later := Survivors(r[i + 1..], extra, drop);
    assert r[..i + 1] == r[..i] + [r[i]];
    SurvivorsFrom(r, extra, drop, i);
    MoveUp(r[..i], r[i], later, added);
    if Dropped(extra, drop, env[i].name) {
      StepEdits(doc, image, extra, Mixed(env, extra, drop, i + 1), ops, RemoveEnv(i));
    }
  }

  lemma SurvivorsFrom(r: seq<Entry>, extra: Variables, drop: seq<string>, i: nat)
    requires i < |r|
    ensures Survivors(r[i..], extra, drop) ==
            (if Dropped(extra, drop, r[i].name) then [] else [r[i]]) + Survivors(r[i + 1..], extra, drop)
    ensures Dropped(extra, drop, r[i].name) ==> Survivors(r[i..], extra, drop) == Survivors(r[i + 1..], extra, drop)
  {
    assert r[i..][1..] == r[i + 1..];
  }

  lemma MoveUp(head: seq<Entry>, e: Entry, later: seq<Entry>, added: seq<Entry>)
    ensures var all := head + [e] + later + added;
            && all == head + ([e] + later) + added
            && all[..|head|] + all[|head| + 1..] == head + later + added
  {}

  // The environment while removals stand before position i.
  function Mixed(env: seq<Entry>, extra: Variables, drop: seq<string>, i: nat): seq<Entry>
    requires i <= |env|
  {
    Replaced(env, extra)[..i] + Survivors(Replaced(env, extra)[i..], extra, drop) + Additions(env, extra)
  }

  lemma MixedEnds(env: seq<Entry>, extra: Variables, drop: seq<string>)
    ensures Mixed(env, extra, drop, |env|) == Replaced(env, extra) + Additions(env, extra)
    ensures Mixed(env, extra, drop, 0) == UpdatedEnv(env, extra, drop)
  {}

  method PatchDeploy(doc: Deployment, image: string, extra: Variables, drop: seq<string>)
    returns (ops: seq<Op>, patched: Option<Deployment>)
    requires Distinct(extra)
    ensures patched == Exec(doc, ops) == Update(doc, image, extra, drop)
  {
    hide Exec, Outcome, Replaced, Additions, Survivors, Mixed, UpdatedEnv;
    ops := [];
    var env := EnvOf(doc);
    if image != "" {
      ops := ops + [ReplaceImage(image)];
    }
    StartEdits(doc, image);
    Unchanged(env);
    assert extra[..0] == [] && [] + [ReplaceImage(image)] == [ReplaceImage(image)];
    for k := 0 to |extra|
      invariant Exec(doc, ops)
                == Outcome(doc, image, extra[..k], Replaced(env, extra[..k]) + Additions(env, extra[..k]))
    {
      VariableStep(doc, image, extra, k, ops);
      var (key, value) := extra[k];
      var item := Literal(key, value);
      if Occurs(env, key) {
        ops := ops + [ReplaceEnv(FirstIndex(env, key), item)];
      } else {
        ops := ops + [AddEnv(item)];
      }
    }
    assert extra[..|extra|] == extra;
    MixedEnds(env, extra, drop);
    var i: nat := |env|;
    while i > 0
      invariant i <= |env|
      invariant Exec(doc, ops) == Outcome(doc, image, extra, Mixed(env, extra, drop, i))
    {
      i := i - 1;
      RemovalStep(doc, image, extra, drop, i, ops);
      if Dropped(extra, drop, env[i].name) {
        ops := ops + [RemoveEnv(i)];
      }
    }
    ExecNothing(doc);
    patched := if ops == [] then Some(doc) else Exec(doc, ops);
  }

  lemma ExecNothing(doc: Deployment)
    ensures Exec(doc, []) == Some(doc)
  {}
}
