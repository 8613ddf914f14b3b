/** The Kubernetes API server as the live-gate runners see it: named objects with an identity (uid)
    and a version that changes on every write. Each kubectl call consumes one turn of an environment
    that is otherwise free: other actors write first, and the call may fail before or after it commits. */
module Cluster {
  import opened Options

  datatype Key = Key(kind: string, ns: string, name: string)

  // The body is an object's content without status, uid and resourceVersion.
  type Body = string

  datatype Object = Object(uid: nat, version: nat, body: Body)

  // What another actor may do: create or edit, bump the version only (a status write), or delete.
  datatype Foreign = Put(key: Key, body: Body) | Touch(key: Key) | Remove(key: Key)

  // A failing call may still have been committed by the server; a timeout raises in the runner.
  datatype Outcome = Succeeds | Fails(committed: bool) | TimesOut(committed: bool)

  // lingers: a committed delete leaves the object in place, as a finalizer does.
  datatype Turn = Turn(foreign: seq<Foreign>, outcome: Outcome, lingers: bool)

  // merge is server-side apply, edit is "set env" and "scale", patience bounds the polls of one wait.
  datatype Env = Env(turns: nat -> Turn,
                     merge: (Option<Body>, Body) -> Body,
                     edit: (Body, string) -> Body,
                     patience: nat -> nat)

  datatype Call =
    | Get(key: Key)
    | Apply(key: Key, desired: Body)
    | Replace(key: Key, version: nat, body: Body)
    | Delete(key: Key)
    | Edit(key: Key, argument: string)
    | Rollout(key: Key)
    | Endpoints(key: Key)

  datatype Reply = Reply(ok: bool, raised: bool, seen: Option<Object>)

  // wrote is the uid of the object a committed call wrote to.
  datatype Event = Event(call: Call, reply: Reply, wrote: Option<nat>)

  datatype World = World(objects: map<Key, Object>, next: nat, step: nat, log: seq<Event>)

  ghost predicate Wf(w: World) {
    forall k <- w.objects :: w.objects[k].uid < w.next && w.objects[k].version < w.next
  }

  function Live(w: World, key: Key): Option<Object> {
    if key in w.objects then Some(w.objects[key]) else None
  }

  function Store(w: World, key: Key, body: Body): World {
    var uid := if key in w.objects then w.objects[key].uid else w.next;
    w.(objects := w.objects[key := Object(uid, w.next, body)], next := w.next + 1)
  }

  function Act(w: World, f: Foreign): World {
    match f
    case Put(key, body) => Store(w, key, body)
    case Touch(key) => if key in w.objects then Store(w, key, w.objects[key].body) else w
    case Remove(key) => w.(objects := w.objects - {key})
  }

  function ActAll(w: World, fs: seq<Foreign>): World
    decreases |fs|
  {
    if fs == [] then w else ActAll(Act(w, fs[0]), fs[1..])
  }

  predicate Accepts(w: World, call: Call) {
    match call
    case Get(_) => true
    case Apply(_, _) => true
    case Replace(key, version, _) => key in w.objects && w.objects[key].version == version
    case Delete(key) => key in w.objects
    case Edit(key, _) => key in w.objects
    case Rollout(_) => true
    case Endpoints(_) => true
  }

  predicate Writes(call: Call) {
    !call.Get? && !call.Rollout? && !call.Endpoints?
  }

  function Commit(env: Env, w: World, call: Call, lingers: bool): World
    requires Accepts(w, call)
  {
    match call
    case Get(_) => w
    case Apply(key, desired) =>
      var live := if key in w.objects then Some(w.objects[key].body) else None;
      Store(w, key, env.merge(live, desired))
    case Replace(key, _, body) => Store(w, key, body)
    case Delete(key) => if lingers then Store(w, key, w.objects[key].body) else w.(objects := w.objects - {key})
    case Edit(key, argument) => Store(w, key, env.edit(w.objects[key].body, argument))
    case Rollout(_) => w
    case Endpoints(_) => w
  }

  // The uid a committed write hits: the live object's, or the fresh one a creating apply assigns.
  function Hit(w: World, call: Call): Option<nat> {
    if !Writes(call) then None
    else if call.key in w.objects then Some(w.objects[call.key].uid)
    else Some(w.next)
  }

  // The state in which the server handles the next call: the other actors' writes come first.
  function Arrival(env: Env, w: World): World {
    ActAll(w, env.turns(w.step).foreign).(step := w.step + 1, log := w.log)
  }

  function Kubectl(env: Env, w: World, call: Call): (r: (Reply, World)) {
    var turn := env.turns(w.step);
    var w1 := Arrival(env, w);
    var commits := Accepts(w1, call) && (turn.outcome.Succeeds? || turn.outcome.committed);
    var ok := Accepts(w1, call) && turn.outcome.Succeeds?;
    var reply := Reply(ok, turn.outcome.TimesOut?, if ok && call.Get? then Live(w1, call.key) else None);
    var w2 := if commits then Commit(env, w1, call, turn.lingers) else w1;
    (reply, w2.(log := w2.log + [Event(call, reply, if commits then Hit(w1, call) else None)]))
  }

  // ------------------------------------------------------------------ what other actors can change

  // Other actors leave key's identity and body alone; they may still bump its version.
  ghost predicate Quiet(fs: seq<Foreign>, key: Key) {
    forall f <- fs :: f.key == key ==> f.Touch?
  }

  ghost predicate Untouched(fs: seq<Foreign>, key: Key) {
    forall f <- fs :: f.key != key
  }

  ghost predicate QuietDuring(env: Env, key: Key, from: nat, until: nat) {
    forall s | from <= s < until :: Quiet(env.turns(s).foreign, key)
  }

  // Same presence, same object, same body; the version may differ.
  ghost predicate Same(w: World, w': World, key: Key) {
    && (key in w.objects <==> key in w'.objects)
    && (key in w.objects ==>
          w'.objects[key].uid == w.objects[key].uid && w'.objects[key].body == w.objects[key].body)
  }

  // The object under a key is unchanged or carries a version never handed out before, and its uid
  // is the old one or was never handed out before.
  ghost predicate Evolves(w: World, w': World) {
    && Wf(w') && w.next <= w'.next
    && forall key <- w'.objects ::
         && (Live(w, key) == Some(w'.objects[key]) || w.next <= w'.objects[key].version)
         && ((key in w.objects && w'.objects[key].uid == w.objects[key].uid) || w.next <= w'.objects[key].uid)
  }

  lemma EvolvesTransitive(w0: World, w1: World, w2: World)
    requires Evolves(w0, w1) && Evolves(w1, w2)
    ensures Evolves(w0, w2)
  {}

  lemma {:induction false} ActAllEvolves(w: World, fs: seq<Foreign>)
    requires Wf(w)
    ensures Evolves(w, ActAll(w, fs))
    decreases |fs|
  {
    if fs != [] {
      assert Evolves(w, Act(w, fs[0]));
      ActAllEvolves(Act(w, fs[0]), fs[1..]);
      EvolvesTransitive(w, Act(w, fs[0]), ActAll(w, fs));
    }
  }

  lemma {:induction false} ActAllQuiet(w: World, fs: seq<Foreign>, key: Key)
    requires Quiet(fs, key)
    ensures Same(w, ActAll(w, fs), key)
    ensures Untouched(fs, key) ==> Live(ActAll(w, fs), key) == Live(w, key)
    decreases |fs|
  {
    if fs != [] {
      assert fs[0] in fs;
      ActAllQuiet(Act(w, fs[0]), fs[1..], key);
    }
  }

  // A live object keeps its uid through other actors' writes exactly when none of them removes it.
  lemma {:induction false} UidSurvivesIffNotRemoved(w: World, fs: seq<Foreign>, key: Key)
    requires Wf(w) && key in w.objects
    ensures Remove(key) !in fs <==>
            (key in ActAll(w, fs).objects && ActAll(w, fs).objects[key].uid == w.objects[key].uid)
    decreases |fs|
  {
    if fs != [] {
      var w1 := Act(w, fs[0]);
      assert Evolves(w, w1);
      if fs[0] == Remove(key) {
        RemovedUidIsGone(w1, fs[1..], key, w.objects[key].uid);
      } else {
        UidSurvivesIffNotRemoved(w1, fs[1..], key);
      }
    }
  }

  lemma {:induction false} RemovedUidIsGone(w: World, fs: seq<Foreign>, key: Key, uid: nat)
    requires Wf(w) && uid < w.next
    requires key in w.objects ==> w.objects[key].uid != uid
    ensures key in ActAll(w, fs).objects ==> ActAll(w, fs).objects[key].uid != uid
    decreases |fs|
  {
    if fs != [] {
      RemovedUidIsGone(Act(w, fs[0]), fs[1..], key, uid);
    }
  }

  // ------------------------------------------------------------------ what one call can change

  lemma CommitEvolves(env: Env, w: World, call: Call, lingers: bool)
    requires Wf(w) && Accepts(w, call)
    ensures Evolves(w, Commit(env, w, call, lingers))
  {}

  // One call: time moves on, one event is logged, and a key other than the call's is changed by
  // other actors only.
  lemma CallFrame(env: Env, w: World, call: Call)
    requires Wf(w)
    ensures var w' := Kubectl(env, w, call).1;
            && Evolves(w, Arrival(env, w)) && Evolves(w, w')
            && w'.step == w.step + 1
            && |w'.log| == |w.log| + 1 && w'.log[..|w.log|] == w.log && w'.log[|w.log|].call == call
            && (w'.log[|w.log|].wrote.Some? ==> Writes(call))
  {
    hide ActAll;
    ActAllEvolves(w, env.turns(w.step).foreign);
    var w1 := Arrival(env, w);
    if Accepts(w1, call) {
      var w2 := Commit(env, w1, call, env.turns(w.step).lingers);
      CommitEvolves(env, w1, call, env.turns(w.step).lingers);
      EvolvesTransitive(w, w1, w2);
      assert Evolves(w, Kubectl(env, w, call).1);
    }
  }

  lemma CallKeepsOthers(env: Env, w: World, call: Call, key: Key)
    requires Quiet(env.turns(w.step).foreign, key)
    requires !Writes(call) || call.key != key
    ensures Same(w, Kubectl(env, w, call).1, key)
  {
    ActAllQuiet(w, env.turns(w.step).foreign, key);
  }

  // ------------------------------------------------------------------ runs of calls

  function Calls(log: seq<Event>): seq<Call> {
    seq(|log|, i requires 0 <= i < |log| => log[i].call)
  }

  function Replay(env: Env, w: World, calls: seq<Call>): World
    decreases |calls|
  {
    if calls == [] then w
    else
      var last := |calls| - 1;
      Kubectl(env, Replay(env, w, calls[..last]), calls[last]).1
  }

  // The events a run added to the log it started with.
  function New(w: World, w': World): seq<Event> {
    if |w.log| <= |w'.log| then w'.log[|w.log|..] else []
  }

  // w' is what the environment makes of w under exactly the calls that w' has logged since.
  ghost predicate Reaches(env: Env, w: World, w': World) {
    && w'.log == w.log + New(w, w')
    && w' == Replay(env, w, Calls(New(w, w')))
  }

  lemma ReachesSelf(env: Env, w: World)
    ensures Reaches(env, w, w) && New(w, w) == []
  {}

  // The last event of a log.
  function Last(w: World): Option<Event> {
    if w.log == [] then None else Some(w.log[|w.log| - 1])
  }

  lemma ReachesCall(env: Env, w: World, w': World, call: Call)
    requires Wf(w') && Reaches(env, w, w')
    ensures var (reply, w2) := Kubectl(env, w', call);
            && Reaches(env, w, w2) && Wf(w2) && Last(w2).Some?
            && New(w, w2) == New(w, w') + [Last(w2).value]
            && Last(w2).value.call == call && Last(w2).value.reply == reply
  {
    CallFrame(env, w', call);
    var (reply, w2) := Kubectl(env, w', call);
    var e := w2.log[|w'.log|];
    assert New(w, w2) == New(w, w') + [e];
    var calls := Calls(New(w, w2));
    assert calls[..|calls| - 1] == Calls(New(w, w'));
  }

  // A probe reports what it leaves behind, and nothing when it failed.
  lemma GetReports(env: Env, w: World, key: Key)
    ensures var (reply, w') := Kubectl(env, w, Get(key));
            && (reply.ok ==> reply.seen == Live(w', key))
            && (!reply.ok ==> reply.seen == None)
  {}

  lemma {:induction false} ReachesTransitive(env: Env, w0: World, w1: World, w2: World)
    requires Reaches(env, w0, w1) && Reaches(env, w1, w2)
    ensures Reaches(env, w0, w2) && New(w0, w2) == New(w0, w1) + New(w1, w2)
  {
    hide Kubectl, Replay;
    assert New(w0, w2) == New(w0, w1) + New(w1, w2);
    var a, b := Calls(New(w0, w1)), Calls(New(w1, w2));
    assert Calls(New(w0, w2)) == a + b;
    ReplayAppend(env, w0, a, b);
  }

  lemma {:induction false} ReplayAppend(env: Env, w: World, a: seq<Call>, b: seq<Call>)
    ensures Replay(env, w, a + b) == Replay(env, Replay(env, w, a), b)
    decreases |b|
  {
    if b == [] {
      assert a + b == a;
    } else {
      assert (a + b)[..|a + b| - 1] == a + b[..|b| - 1];
      ReplayAppend(env, w, a, b[..|b| - 1]);
    }
  }

  // A run takes one step per logged call and never reuses a uid or version.
  lemma {:induction false} RunEvolves(env: Env, w: World, calls: seq<Call>)
    requires Wf(w)
    ensures Evolves(w, Replay(env, w, calls)) && Replay(env, w, calls).step == w.step + |calls|
    decreases |calls|
  {
    if calls != [] {
      var w1 := Replay(env, w, calls[..|calls| - 1]);
      RunEvolves(env, w, calls[..|calls| - 1]);
      CallFrame(env, w1, calls[|calls| - 1]);
      EvolvesTransitive(w, w1, Replay(env, w, calls));
    }
  }

  ghost predicate WritesKey(log: seq<Event>, key: Key) {
    exists e <- log :: Writes(e.call) && e.call.key == key
  }

  // A key that no call of the run writes, and that other actors leave alone, keeps object and body.
  lemma {:induction false} UnwrittenKeyIsSame(env: Env, w: World, w': World, key: Key)
    requires Wf(w) && Reaches(env, w, w')
    requires QuietDuring(env, key, w.step, w'.step)
    requires !WritesKey(New(w, w'), key)
    ensures Same(w, w', key)
  {
    RunEvolves(env, w, Calls(New(w, w')));
    ReplayKeepsUnwritten(env, w, Calls(New(w, w')), key);
  }

  lemma {:induction false} ReplayKeepsUnwritten(env: Env, w: World, calls: seq<Call>, key: Key)
    requires Wf(w)
    requires QuietDuring(env, key, w.step, w.step + |calls|)
    requires forall c <- calls :: Writes(c) ==> c.key != key
    ensures Same(w, Replay(env, w, calls), key)
    decreases |calls|
  {
    if calls != [] {
      var before := calls[..|calls| - 1];
      ReplayKeepsUnwritten(env, w, before, key);
      RunEvolves(env, w, before);
      assert calls[|calls| - 1] in calls;
      CallKeepsOthers(env, Replay(env, w, before), calls[|calls| - 1], key);
    }
  }

  lemma CallKeepsIdentity(env: Env, w: World, call: Call, key: Key)
    requires Quiet(env.turns(w.step).foreign, key) && key in w.objects
    requires call.Delete? ==> call.key != key
    ensures var w' := Kubectl(env, w, call).1; key in w'.objects && w'.objects[key].uid == w.objects[key].uid
  {
    ActAllQuiet(w, env.turns(w.step).foreign, key);
  }

  // Without a delete of the key the object under it keeps its uid.
  lemma {:induction false} ReplayKeepsIdentity(env: Env, w: World, calls: seq<Call>, key: Key)
    requires Wf(w) && key in w.objects
    requires QuietDuring(env, key, w.step, w.step + |calls|)
    requires forall c <- calls :: c.Delete? ==> c.key != key
    ensures var w' := Replay(env, w, calls); key in w'.objects && w'.objects[key].uid == w.objects[key].uid
    decreases |calls|
  {
    hide Kubectl;
    if calls != [] {
      var before := calls[..|calls| - 1];
      var w1 := Replay(env, w, before);
      ReplayKeepsIdentity(env, w, before, key);
      RunEvolves(env, w, before);
      assert calls[|calls| - 1] in calls;
      CallKeepsIdentity(env, w1, calls[|calls| - 1], key);
    }
  }

  lemma RunKeepsIdentity(env: Env, w: World, w': World, key: Key)
    requires Wf(w) && Reaches(env, w, w') && key in w.objects
    requires QuietDuring(env, key, w.step, w'.step)
    requires forall e <- New(w, w') :: !e.call.Delete?
    ensures key in w'.objects && w'.objects[key].uid == w.objects[key].uid
  {
    RunEvolves(env, w, Calls(New(w, w')));
    ReplayKeepsIdentity(env, w, Calls(New(w, w')), key);
  }
}
