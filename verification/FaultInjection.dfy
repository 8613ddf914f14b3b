/** The dependency fault loop: each target Deployment in turn is scaled to zero, probed, and restored
    from its snapshot before the next one is touched. */
module FaultInjection {
  import opened Cluster
  import opened Options
  import opened PublisherProofs

  // What the data plane answers, by the step at which it is asked, and how a body is read.
  datatype DataPlane = DataPlane(ready: nat -> nat, unavailable: nat -> bool, recovered: nat -> bool,
                                 settled: nat -> bool, replicas: Body -> int)

  datatype Verdict =
    | SnapshotFailed
    | Injection(primary: bool, restore: bool)
    | NoRecovery

  function SnapshotDeployment(env: Env, dp: DataPlane, w: World, key: Key): (Option<Object>, World) {
    var (probe, w1) := Kubectl(env, w, Get(key));
    if probe.seen.Some? && dp.replicas(probe.seen.value.body) > 0 then (probe.seen, w1) else (None, w1)
  }

  function WaitNoEndpoints(env: Env, dp: DataPlane, w: World, key: Key, patience: nat): (bool, World)
    decreases patience
  {
    if patience == 0 then (false, w)
    else
      var (probe, w1) := Kubectl(env, w, Endpoints(key));
      if !probe.ok then (false, w1)
      else if dp.ready(w.step) == 0 then (true, w1)
      else WaitNoEndpoints(env, dp, w1, key, patience - 1)
  }

  function ScaleToZero(env: Env, dp: DataPlane, w: World, key: Key): (bool, World) {
    var (scaled, w1) := Kubectl(env, w, Edit(key, "--replicas=0"));
    if !scaled.ok then (false, w1) else WaitNoEndpoints(env, dp, w1, key, env.patience(w1.step))
  }

  function AssertUnavailable(env: Env, dp: DataPlane, w: World, key: Key): (bool, World) {
    var (asked, w1) := Kubectl(env, w, Endpoints(key));
    (asked.ok && dp.unavailable(w.step), w1)
  }

  function WaitRecovered(env: Env, dp: DataPlane, w: World, key: Key, patience: nat): (bool, World)
    decreases patience
  {
    if patience == 0 then (false, w)
    else
      var (probe, w1) := Kubectl(env, w, Get(key));
      if !probe.ok || probe.seen.None? then (false, w1)
      else if dp.settled(w.step) then (true, w1)
      else WaitRecovered(env, dp, w1, key, patience - 1)
  }

  function RestoreDeployment(env: Env, dp: DataPlane, w: World, key: Key, snapshot: Object): (bool, World) {
    var (current, w1) := Kubectl(env, w, Get(key));
    if current.seen.None? then (false, w1)
    else
      var (replaced, w2) := Kubectl(env, w1, Replace(key, current.seen.value.version, snapshot.body));
      if !replaced.ok then (false, w2) else WaitRecovered(env, dp, w2, key, env.patience(w2.step))
  }

  // The injection and its restore, once the snapshot is taken.
  function InjectAndRestore(env: Env, dp: DataPlane, w: World, key: Key, snapshot: Object): (bool, bool, World) {
    var (scaled, w2) := ScaleToZero(env, dp, w, key);
    var (primary, w3) := if scaled then AssertUnavailable(env, dp, w2, key) else (false, w2);
    var (restored, w4) := RestoreDeployment(env, dp, w3, key, snapshot);
    (primary, restored, w4)
  }

  // One target: the restore is attempted whatever the injection did.
  function InjectOne(env: Env, dp: DataPlane, w: World, key: Key): (Option<Verdict>, World) {
    var (snapshot, w1) := SnapshotDeployment(env, dp, w, key);
    if snapshot.None? then (Some(SnapshotFailed), w1)
    else
      var (primary, restored, w4) := InjectAndRestore(env, dp, w1, key, snapshot.value);
      if !primary || !restored then (Some(Injection(!primary, !restored)), w4)
      else
        var (asked, w5) := Kubectl(env, w4, Endpoints(key));
        (if asked.ok && dp.recovered(w4.step) then None else Some(NoRecovery), w5)
  }

  // The verdict after the first n targets (None: the loop goes on) and how many of them were finished.
  datatype Loop = Loop(verdict: Option<Verdict>, done: nat, world: World)

  function InjectLoop(env: Env, dp: DataPlane, w: World, keys: seq<Key>, n: nat): (l: Loop)
    requires n <= |keys|
    ensures l.done <= n && (l.verdict.None? ==> l.done == n) && (l.verdict.Some? ==> l.done < n)
  {
    if n == 0 then Loop(None, 0, w)
    else
      var before := InjectLoop(env, dp, w, keys, n - 1);
      if before.verdict.Some? then before
      else
        var (verdict, w1) := InjectOne(env, dp, before.world, keys[n - 1]);
        Loop(verdict, if verdict.None? then n else n - 1, w1)
  }

  // ------------------------------------------------------------------ what the loop guarantees

  lemma {:induction false} WaitNoEndpointsRun(env: Env, dp: DataPlane, w: World, key: Key, patience: nat)
    requires Wf(w)
    ensures var w' := WaitNoEndpoints(env, dp, w, key, patience).1;
            Reaches(env, w, w') && Wf(w') && Footprint(New(w, w'), key) && ReadsOnly(New(w, w'))
    decreases patience
  {
    hide Kubectl;
    ReachesSelf(env, w);
    if patience > 0 {
      ReachesCall(env, w, w, Endpoints(key));
      var (probe, w1) := Kubectl(env, w, Endpoints(key));
      if probe.ok && dp.ready(w.step) != 0 {
        WaitNoEndpointsRun(env, dp, w1, key, patience - 1);
        ReachesTransitive(env, w, w1, WaitNoEndpoints(env, dp, w1, key, patience - 1).1);
      }
    }
  }

  lemma {:induction false} WaitRecoveredRun(env: Env, dp: DataPlane, w: World, key: Key, patience: nat)
    requires Wf(w)
    ensures var w' := WaitRecovered(env, dp, w, key, patience).1;
            Reaches(env, w, w') && Wf(w') && Footprint(New(w, w'), key) && ReadsOnly(New(w, w'))
    decreases patience
  {
    hide Kubectl;
    ReachesSelf(env, w);
    if patience > 0 {
      ReachesCall(env, w, w, Get(key));
      var (probe, w1) := Kubectl(env, w, Get(key));
      if probe.ok && probe.seen.Some? && !dp.settled(w.step) {
        WaitRecoveredRun(env, dp, w1, key, patience - 1);
        ReachesTransitive(env, w, w1, WaitRecovered(env, dp, w1, key, patience - 1).1);
      }
    }
  }

  ghost predicate ReadsOnly(log: seq<Event>) {
    forall e <- log :: !Writes(e.call)
  }

  ghost predicate Keeps(log: seq<Event>, key: Key) {
    Footprint(log, key) && forall e <- log :: !e.call.Delete?
  }

  lemma ScaleToZeroRun(env: Env, dp: DataPlane, w: World, key: Key)
    requires Wf(w)
    ensures var w' := ScaleToZero(env, dp, w, key).1; Reaches(env, w, w') && Wf(w') && Keeps(New(w, w'), key)
  {
    hide Kubectl;
    ReachesSelf(env, w);
    var edit := Edit(key, "--replicas=0");
    ReachesCall(env, w, w, edit);
    var (scaled, w1) := Kubectl(env, w, edit);
    WaitNoEndpointsRun(env, dp, w1, key, env.patience(w1.step));
    ReachesTransitive(env, w, w1, WaitNoEndpoints(env, dp, w1, key, env.patience(w1.step)).1);
  }

  // A successful restore leaves the snapshot's body on the object its own probe saw.
  lemma RestoreDeploymentRun(env: Env, dp: DataPlane, w: World, key: Key, snapshot: Object)
    requires Wf(w)
    ensures var (ok, w') := RestoreDeployment(env, dp, w, key, snapshot);
            && Reaches(env, w, w') && Wf(w') && Keeps(New(w, w'), key)
            && (ok && QuietDuring(env, key, w.step, w'.step) ==>
                  key in w'.objects && w'.objects[key].body == snapshot.body)
  {
    hide Kubectl, Replay;
    ReachesSelf(env, w);
    ReachesCall(env, w, w, Get(key));
    GetReports(env, w, key);
    var (current, w1) := Kubectl(env, w, Get(key));
    if current.seen.Some? {
      var replace := Replace(key, current.seen.value.version, snapshot.body);
      ReachesCall(env, w, w1, replace);
      CompareAndSwap(env, w1, key, snapshot.body, current.seen.value);
      var (replaced, w2) := Kubectl(env, w1, replace);
      if replaced.ok {
        WaitRecoveredRun(env, dp, w2, key, env.patience(w2.step));
        var w3 := WaitRecovered(env, dp, w2, key, env.patience(w2.step)).1;
        ReachesTransitive(env, w, w2, w3);
        ReachesSteps(env, w, w2);
        ReachesSteps(env, w2, w3);
        if QuietDuring(env, key, w.step, w3.step) {
          UnwrittenKeyIsSame(env, w2, w3, key);
        }
      }
    }
  }

  lemma InjectAndRestoreRun(env: Env, dp: DataPlane, w: World, key: Key, snapshot: Object)
    requires Wf(w)
    ensures var (primary, restored, w') := InjectAndRestore(env, dp, w, key, snapshot);
            && Reaches(env, w, w') && Wf(w') && Keeps(New(w, w'), key)
            && (restored && QuietDuring(env, key, w.step, w'.step) ==>
                  key in w'.objects && w'.objects[key].body == snapshot.body)
  {
    hide Kubectl, Replay, ScaleToZero, AssertUnavailable, RestoreDeployment;
    ScaleToZeroRun(env, dp, w, key);
    var (scaled, w2) := ScaleToZero(env, dp, w, key);
    AssertUnavailableRun(env, dp, w2, key);
    ReachesSelf(env, w2);
    var (primary, w3) := if scaled then AssertUnavailable(env, dp, w2, key) else (false, w2);
    ReachesTransitive(env, w, w2, w3);
    RestoreDeploymentRun(env, dp, w3, key, snapshot);
    var w4 := RestoreDeployment(env, dp, w3, key, snapshot).1;
    ReachesTransitive(env, w, w3, w4);
    ReachesSteps(env, w, w3);
  }

  ghost predicate RestoreFailed(verdict: Option<Verdict>) {
    verdict.Some? && verdict.value.Injection? && verdict.value.restore
  }

  lemma SnapshotDeploymentRun(env: Env, dp: DataPlane, w: World, key: Key)
    requires Wf(w)
    ensures var (snapshot, w') := SnapshotDeployment(env, dp, w, key);
            && Reaches(env, w, w') && Wf(w') && Keeps(New(w, w'), key) && w'.step == w.step + 1
            && (snapshot.Some? ==> Live(w', key) == snapshot)
            && (Quiet(env.turns(w.step).foreign, key) ==> Same(w, w', key))
  {
    hide Kubectl, Replay;
    ReachesSelf(env, w);
    ReachesCall(env, w, w, Get(key));
    GetReports(env, w, key);
    CallFrame(env, w, Get(key));
    if Quiet(env.turns(w.step).foreign, key) {
      CallKeepsOthers(env, w, Get(key), key);
    }
  }

  // The confirming request after a successful restore reads only.
  lemma ConfirmRun(env: Env, w: World, w4: World, key: Key)
    requires Wf(w4) && Reaches(env, w, w4) && Keeps(New(w, w4), key)
    ensures var w' := Kubectl(env, w4, Endpoints(key)).1;
            && Reaches(env, w, w') && Wf(w') && Keeps(New(w, w'), key) && w'.step == w4.step + 1
            && (Quiet(env.turns(w4.step).foreign, key) ==> Same(w4, w', key))
  {
    hide Kubectl, Replay;
    ReachesCall(env, w, w4, Endpoints(key));
    CallFrame(env, w4, Endpoints(key));
    if Quiet(env.turns(w4.step).foreign, key) {
      CallKeepsOthers(env, w4, Endpoints(key), key);
    }
  }

  // One iteration touches its own target only; unless it reports a restore failure it ends with that
  // target as it found it.
  lemma InjectOneRun(env: Env, dp: DataPlane, w: World, key: Key)
    requires Wf(w)
    ensures var (verdict, w') := InjectOne(env, dp, w, key);
            && Reaches(env, w, w') && Wf(w') && Keeps(New(w, w'), key)
            && (QuietDuring(env, key, w.step, w'.step) && !RestoreFailed(verdict) ==> Same(w, w', key))
  {
    hide Kubectl, Replay, InjectAndRestore, SnapshotDeployment;
    SnapshotDeploymentRun(env, dp, w, key);
    var (snapshot, w1) := SnapshotDeployment(env, dp, w, key);
    if snapshot.Some? {
      InjectAndRestoreRun(env, dp, w1, key, snapshot.value);
      var (primary, restored, w4) := InjectAndRestore(env, dp, w1, key, snapshot.value);
      ReachesTransitive(env, w, w1, w4);
      ReachesSteps(env, w1, w4);
      ConfirmRun(env, w, w4, key);
      if restored && QuietDuring(env, key, w.step, w4.step) {
        RunKeepsIdentity(env, w1, w4, key);
        assert Same(w, w4, key);
      }
    }
  }

  lemma AssertUnavailableRun(env: Env, dp: DataPlane, w: World, key: Key)
    requires Wf(w)
    ensures var w' := AssertUnavailable(env, dp, w, key).1; Reaches(env, w, w') && Wf(w') && Keeps(New(w, w'), key)
  {
    hide Kubectl;
    ReachesSelf(env, w);
    ReachesCall(env, w, w, Endpoints(key));
  }

  ghost predicate DistinctTargets(keys: seq<Key>) {
    forall i, j | 0 <= i < j < |keys| :: keys[i] != keys[j]
  }

  ghost predicate TargetsQuiet(env: Env, keys: seq<Key>, from: nat, until: nat) {
    forall key <- keys :: QuietDuring(env, key, from, until)
  }

  // After each call made so far, at most one target differs from what it was at the start.
  ghost predicate OneFaultAtATime(env: Env, w: World, calls: seq<Call>, keys: seq<Key>) {
    forall m, i, j | 0 <= m <= |calls| && 0 <= i < j < |keys| ::
      Same(w, Replay(env, w, calls[..m]), keys[i]) || Same(w, Replay(env, w, calls[..m]), keys[j])
  }

  // The loop invariant over any list of targets: every target but the one in progress is as it was at the
  // start, the one in progress too unless its restore failed, and no two targets are ever down together.
  lemma {:induction false} FaultLoopInvariant(env: Env, dp: DataPlane, w: World, keys: seq<Key>, n: nat)
    requires Wf(w) && n <= |keys| && DistinctTargets(keys)
    requires TargetsQuiet(env, keys, w.step, InjectLoop(env, dp, w, keys, n).world.step)
    ensures var l := InjectLoop(env, dp, w, keys, n);
            && Reaches(env, w, l.world) && Wf(l.world)
            && (forall i | 0 <= i < |keys| && (i != l.done || !RestoreFailed(l.verdict)) :: Same(w, l.world, keys[i]))
            && OneFaultAtATime(env, w, Calls(New(w, l.world)), keys)
  {
    hide Kubectl, Replay, InjectOne, OneFaultAtATime, Reaches, Wf;
    var l := InjectLoop(env, dp, w, keys, n);
    if n == 0 {
      ReachesSelf(env, w);
      NoCalls(env, w, keys);
    } else {
      var before := InjectLoop(env, dp, w, keys, n - 1);
      LoopSteps(env, dp, w, keys, n - 1);
      if before.verdict.Some? {
        FaultLoopInvariant(env, dp, w, keys, n - 1);
      } else {
        InjectOneRun(env, dp, before.world, keys[n - 1]);
        ReachesSteps(env, before.world, l.world);
        FaultLoopInvariant(env, dp, w, keys, n - 1);
        ReachesTransitive(env, w, before.world, l.world);
        assert keys[n - 1] in keys;
        OthersStaySame(env, w, before.world, l.world, keys, n - 1);
        OneMoreIteration(env, w, before.world, l.world, keys, n - 1);
      }
    }
  }

  lemma NoCalls(env: Env, w: World, keys: seq<Key>)
    ensures OneFaultAtATime(env, w, Calls(New(w, w)), keys)
  {}

  lemma {:induction false} LoopSteps(env: Env, dp: DataPlane, w: World, keys: seq<Key>, n: nat)
    requires Wf(w) && n <= |keys|
    ensures var w' := InjectLoop(env, dp, w, keys, n).world; Reaches(env, w, w') && Wf(w') && w.step <= w'.step
  {
    hide Kubectl, Replay, InjectOne;
    ReachesSelf(env, w);
    if n > 0 {
      LoopSteps(env, dp, w, keys, n - 1);
      var before := InjectLoop(env, dp, w, keys, n - 1);
      if before.verdict.None? {
        InjectOneRun(env, dp, before.world, keys[n - 1]);
        ReachesTransitive(env, w, before.world, InjectLoop(env, dp, w, keys, n).world);
        ReachesSteps(env, w, InjectLoop(env, dp, w, keys, n).world);
      }
    }
  }

  lemma OthersStaySame(env: Env, w: World, w1: World, w2: World, keys: seq<Key>, n: nat)
    requires Wf(w1) && n < |keys| && DistinctTargets(keys) && Reaches(env, w1, w2) && Footprint(New(w1, w2), keys[n])
    requires TargetsQuiet(env, keys, w1.step, w2.step)
    requires forall i | 0 <= i < |keys| :: Same(w, w1, keys[i])
    ensures forall i | 0 <= i < |keys| && i != n :: Same(w, w2, keys[i])
  {
    hide Kubectl, Replay, Reaches;
    forall i | 0 <= i < |keys| && i != n
      ensures Same(w, w2, keys[i])
    {
      assert keys[i] in keys;
      UnwrittenKeyIsSame(env, w1, w2, keys[i]);
    }
  }

  lemma OneMoreIteration(env: Env, w: World, w1: World, w2: World, keys: seq<Key>, n: nat)
    requires Wf(w) && Wf(w1) && n < |keys| && DistinctTargets(keys)
    requires Reaches(env, w, w1) && Reaches(env, w1, w2) && Footprint(New(w1, w2), keys[n])
    requires TargetsQuiet(env, keys, w.step, w2.step)
    requires forall i | 0 <= i < |keys| :: Same(w, w1, keys[i])
    requires OneFaultAtATime(env, w, Calls(New(w, w1)), keys)
    ensures OneFaultAtATime(env, w, Calls(New(w, w2)), keys)
  {
    hide Kubectl, Replay;
    ReachesTransitive(env, w, w1, w2);
    ReachesSteps(env, w, w1);
    ReachesSteps(env, w1, w2);
    var a, c := Calls(New(w, w1)), Calls(New(w1, w2));
    assert Calls(New(w, w2)) == a + c;
    forall m, i, j | 0 <= m <= |a + c| && 0 <= i < j < |keys|
      ensures Same(w, Replay(env, w, (a + c)[..m]), keys[i]) || Same(w, Replay(env, w, (a + c)[..m]), keys[j])
    {
      if m <= |a| {
        assert (a + c)[..m] == a[..m];
      } else {
        var part := c[..m - |a|];
        assert (a + c)[..m] == a + part;
        ReplayAppend(env, w, a, part);
        var other := if i == n then j else i;
        assert keys[other] in keys && keys[other] != keys[n];
        ReplayKeepsUnwritten(env, w1, part, keys[other]);
      }
    }
  }

  // A loop that stops with a primary failure only has restored the target it stopped at.
  lemma PrimaryOnlyMeansRestored(env: Env, dp: DataPlane, w: World, keys: seq<Key>)
    requires Wf(w) && DistinctTargets(keys)
    requires TargetsQuiet(env, keys, w.step, InjectLoop(env, dp, w, keys, |keys|).world.step)
    requires InjectLoop(env, dp, w, keys, |keys|).verdict == Some(Injection(true, false))
    ensures forall key <- keys :: Same(w, InjectLoop(env, dp, w, keys, |keys|).world, key)
  {
    FaultLoopInvariant(env, dp, w, keys, |keys|);
  }

  // ------------------------------------------------------------------ the loop as the runner executes it

  class FaultRunner {
    const env: Env
    const dp: DataPlane
    var world: World

    constructor (env: Env, dp: DataPlane, world: World)
      ensures this.env == env && this.dp == dp && this.world == world
    {
      this.env, this.dp, this.world := env, dp, world;
    }

    method ScaleFaultToZero(key: Key) returns (ok: bool)
      modifies this
      ensures (ok, world) == ScaleToZero(env, dp, old(world), key)
    {
      hide Kubectl;
      var (scaled, w) := Kubectl(env, world, Edit(key, "--replicas=0"));
      world := w;
      if !scaled.ok {
        return false;
      }
      var left: nat := env.patience(world.step);
      ghost var start, patience := world, left;
      while left > 0
        invariant 0 <= left
        invariant WaitNoEndpoints(env, dp, start, key, patience) == WaitNoEndpoints(env, dp, world, key, left)
      {
        var now := world.step;
        var (probe, w1) := Kubectl(env, world, Endpoints(key));
        world := w1;
        if !probe.ok {
          return false;
        }
        if dp.ready(now) == 0 {
          return true;
        }
        left := left - 1;
      }
      return false;
    }

    method RestoreFaultTarget(key: Key, snapshot: Object) returns (ok: bool)
      modifies this
      ensures (ok, world) == RestoreDeployment(env, dp, old(world), key, snapshot)
    {
      hide Kubectl;
      var (current, w) := Kubectl(env, world, Get(key));
      world := w;
      if current.seen.None? {
        return false;
      }
      var (replaced, w1) := Kubectl(env, world, Replace(key, current.seen.value.version, snapshot.body));
      world := w1;
      if !replaced.ok {
        return false;
      }
      var left: nat := env.patience(world.step);
      ghost var start, patience := world, left;
      while left > 0
        invariant 0 <= left
        invariant WaitRecovered(env, dp, start, key, patience) == WaitRecovered(env, dp, world, key, left)
      {
        var now := world.step;
        var (probe, w2) := Kubectl(env, world, Get(key));
        world := w2;
        if !probe.ok || probe.seen.None? {
          return false;
        }
        if dp.settled(now) {
          return true;
        }
        left := left - 1;
      }
      return false;
    }

    // None when every target went through the cycle.
    method RunFaultInjections(targets: seq<Key>) returns (failure: Option<Verdict>)
      modifies this
      ensures var l := InjectLoop(env, dp, old(world), targets, |targets|); failure == l.verdict && world == l.world
    {
      hide Kubectl, ScaleToZero, RestoreDeployment;
      for i := 0 to |targets|
        invariant InjectLoop(env, dp, old(world), targets, i) == Loop(None, i, world)
      {
        var key := targets[i];
        var (snapshot, w) := SnapshotDeployment(env, dp, world, key);
        world := w;
        if snapshot.None? {
          InjectFailureStays(env, dp, old(world), targets, i + 1, |targets|);
          return Some(SnapshotFailed);
        }
        var primary := ScaleFaultToZero(key);
        if primary {
          var (asked, w1) := AssertUnavailable(env, dp, world, key);
          primary, world := asked, w1;
        }
        var restored := RestoreFaultTarget(key, snapshot.value);
        if !primary || !restored {
          InjectFailureStays(env, dp, old(world), targets, i + 1, |targets|);
          return Some(Injection(!primary, !restored));
        }
        var now := world.step;
        var (asked, w2) := Kubectl(env, world, Endpoints(key));
        world := w2;
        if !asked.ok || !dp.recovered(now) {
          InjectFailureStays(env, dp, old(world), targets, i + 1, |targets|);
          return Some(NoRecovery);
        }
      }
      return None;
    }
  }

  lemma {:induction false} InjectFailureStays(env: Env, dp: DataPlane, w: World, keys: seq<Key>, n: nat, m: nat)
    requires n <= m <= |keys| && InjectLoop(env, dp, w, keys, n).verdict.Some?
    ensures InjectLoop(env, dp, w, keys, m) == InjectLoop(env, dp, w, keys, n)
  {
    hide InjectOne;
    if n < m {
      InjectFailureStays(env, dp, w, keys, n, m - 1);
    }
  }
}
