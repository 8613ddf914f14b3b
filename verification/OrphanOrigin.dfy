/** Where the resources come from that an undisturbed rollback cannot remove: the calls of the apply loop
    that lost them. */
module OrphanOrigin {
  import opened Cluster
  import opened Options
  import opened PublisherSpec
  import opened PublisherProofs
  import opened TransactionProofs
  import opened RollbackExactness

  // The loop reaches the new resource i, its apply is committed, and that call times out or the probe after
  // it fails.
  ghost predicate LosesOwnership(env: Env, w: World, rs: seq<Resource>, i: nat)
    requires i < |rs|
  {
    var before := ApplyLoop(env, w, rs, i);
    var apply, probe := env.turns(before.world.step), env.turns(before.world.step + 1);
    before.ok && !rs[i].existed && Commits(apply) && (apply.outcome.TimesOut? || !probe.outcome.Succeeds?)
  }

  // One apply on a key that is still free.
  lemma OneApply(env: Env, w: World, r: Resource)
    requires Wf(w) && !r.attempted && r.createdUid.None? && (!r.existed ==> r.key !in w.objects)
    requires QuietDuring(env, r.key, w.step, ApplyOne(env, w, r).2.step)
    ensures var (r', ok, w') := ApplyOne(env, w, r);
            var apply, probe := env.turns(w.step), env.turns(w.step + 1);
            && (Orphaned(w', r') <==>
                  !r.existed && Commits(apply) && (apply.outcome.TimesOut? || !probe.outcome.Succeeds?))
            && (ok && !r.existed ==> r'.createdUid.Some?)
  {
    hide Kubectl, Orphaned, Commits;
    CallFrame(env, w, Apply(r.key, r.desired));
    RaisedMeansTimedOut(env, w, Apply(r.key, r.desired));
    if r.existed {
      NotOrphaned(env, w, r);
    } else {
      ApplyOneSteps(env, w, r);
      ActAllQuiet(w, env.turns(w.step).foreign, r.key);
      OrphanExactly(env, w, r);
    }
  }

  lemma NotOrphaned(env: Env, w: World, r: Resource)
    requires r.existed
    ensures !Orphaned(ApplyOne(env, w, r).2, ApplyOne(env, w, r).0)
  {}

  lemma ApplyOneSteps(env: Env, w: World, r: Resource)
    requires Wf(w) && !r.existed
    ensures ApplyOne(env, w, r).2.step == w.step + if env.turns(w.step).outcome.TimesOut? then 1 else 2
  {
    hide Kubectl;
    CallFrame(env, w, Apply(r.key, r.desired));
    RaisedMeansTimedOut(env, w, Apply(r.key, r.desired));
    CallFrame(env, Kubectl(env, w, Apply(r.key, r.desired)).1, Get(r.key));
  }

  // The resources of unknown ownership that the loop leaves are exactly those it lost.
  lemma {:induction false} ApplyLoopOrphans(env: Env, w: World, rs: seq<Resource>, n: nat)
    requires Wf(w) && n <= |rs| && Unapplied(rs) && DistinctKeys(rs)
    requires forall r <- rs :: !r.existed ==> r.key !in w.objects
    requires AllQuiet(env, rs, w.step, ApplyLoop(env, w, rs, n).world.step)
    ensures var p := ApplyLoop(env, w, rs, n);
            && (forall i | 0 <= i < n :: Orphaned(p.world, p.resources[i]) <==> LosesOwnership(env, w, rs, i))
            && (p.ok ==> forall i | 0 <= i < n :: !rs[i].existed ==> p.resources[i].createdUid.Some?)
  {
    hide Kubectl, Replay, ApplyOne, Reaches, WritesOnlyAttempted, NoDeletes, Orphaned, Commits, QuietDuring;
    if n > 0 {
      ApplyLoopRun(env, w, rs, n - 1);
      var before, p := ApplyLoop(env, w, rs, n - 1), ApplyLoop(env, w, rs, n);
      LoopSteps(env, w, rs, n);
      var r := rs[n - 1];
      assert r in rs;
      forall q | q in rs
        ensures QuietDuring(env, q.key, w.step, before.world.step)
        ensures QuietDuring(env, q.key, before.world.step, p.world.step)
      {
        QuietWithin(env, q.key, w.step, w.step, before.world.step, p.world.step);
        QuietWithin(env, q.key, w.step, before.world.step, p.world.step, p.world.step);
      }
      ApplyLoopOrphans(env, w, rs, n - 1);
      if before.ok {
        StillFree(env, w, rs, n - 1);
        OneApply(env, before.world, r);
        forall i | 0 <= i < n - 1
          ensures !Orphaned(before.world, before.resources[i]) && !Orphaned(p.world, p.resources[i])
        {
          KnownIsNotOrphaned(before.world, before.resources[i]);
          KnownIsNotOrphaned(p.world, p.resources[i]);
        }
      } else {
        UnattemptedIsNotOrphaned(p.world, r);
      }
    }
  }

  lemma LoopSteps(env: Env, w: World, rs: seq<Resource>, n: nat)
    requires Wf(w) && 0 < n <= |rs| && Unapplied(rs)
    ensures w.step <= ApplyLoop(env, w, rs, n - 1).world.step <= ApplyLoop(env, w, rs, n).world.step
  {
    hide Kubectl, Replay, ApplyOne;
    ApplyLoopRun(env, w, rs, n - 1);
    var before := ApplyLoop(env, w, rs, n - 1);
    ReachesSteps(env, w, before.world);
    if before.ok {
      assert rs[n - 1] in rs;
      ApplyOneRun(env, before.world, rs[n - 1]);
      ReachesSteps(env, before.world, ApplyLoop(env, w, rs, n).world);
    }
  }

  // A new resource that the loop has not reached is still absent.
  lemma StillFree(env: Env, w: World, rs: seq<Resource>, n: nat)
    requires Wf(w) && n < |rs| && Unapplied(rs) && DistinctKeys(rs)
    requires QuietDuring(env, rs[n].key, w.step, ApplyLoop(env, w, rs, n).world.step)
    ensures var p := ApplyLoop(env, w, rs, n);
            Wf(p.world) && p.resources[n] == rs[n] && (rs[n].key !in w.objects ==> rs[n].key !in p.world.objects)
  {
    hide Kubectl, Replay, ApplyOne;
    ApplyLoopRun(env, w, rs, n);
    var p := ApplyLoop(env, w, rs, n);
    assert rs[n] in rs;
    UnattemptedIsUnwritten(New(w, p.world), p.resources, n);
    UnwrittenKeyIsSame(env, w, p.world, rs[n].key);
  }

  lemma KnownIsNotOrphaned(w: World, r: Resource)
    requires r.existed || r.createdUid.Some?
    ensures !Orphaned(w, r)
  {}

  lemma UnattemptedIsNotOrphaned(w: World, r: Resource)
    requires !r.attempted
    ensures !Orphaned(w, r)
  {}

  lemma ApplyAllOrphans(env: Env, w: World, rs: seq<Resource>, url: Option<PublicUrl>)
    requires Wf(w) && Unapplied(rs) && DistinctKeys(rs) && |rs| == MANIFEST_SIZE
    requires forall r <- rs :: !r.existed ==> r.key !in w.objects
    requires AllQuiet(env, rs, w.step, ApplyLoop(env, w, rs, |rs|).world.step)
    ensures var p := ApplyAll(env, w, rs, url);
            forall i | 0 <= i < |rs| :: Orphaned(p.world, p.resources[i]) <==> LosesOwnership(env, w, rs, i)
  {
    hide Kubectl, Replay, ApplyLoop, LosesOwnership;
    ApplyLoopOrphans(env, w, rs, |rs|);
    ApplyLoopRun(env, w, rs, |rs|);
  }

  // Over the whole transaction: if other actors keep off the manifest and the rollback runs undisturbed, it
  // reports no failure exactly when the apply was refused at once for its size, or no apply the loop made of
  // a new resource was committed and then timed out or lost its probe, whatever other calls failed.
  lemma UndoneExactly(env: Env, w: World, docs: seq<Document>, url: Option<PublicUrl>)
    requires Wf(w) && ManifestOk(docs) && Begin(env, w, docs, url).Some?
    requires var t := Begin(env, w, docs, url).value;
             AllQuiet(env, t.resources, w.step, t.after.step) && Calm(env, t.resources, t.after.step)
    ensures var t := Begin(env, w, docs, url).value;
            var (snapshot, w1) := Snapshot(env, w, docs, |docs|);
            && snapshot.Some? && |snapshot.value| == |docs|
            && (RestoreAll(env, t.after, t.resources).0 == [] <==>
                |docs| != MANIFEST_SIZE || forall i | 0 <= i < |docs| :: !LosesOwnership(env, w1, snapshot.value, i))
  {
    hide Kubectl, Replay, RestoreAll, ApplyLoop, ApplyAll, Snapshot, LosesOwnership;
    CalmRollbackExact(env, w, docs, url);
    BeginRun(env, w, docs, url);
    SnapshotRun(env, w, docs, |docs|);
    var t := Begin(env, w, docs, url).value;
    var (snapshot, w1) := Snapshot(env, w, docs, |docs|);
    if |docs| == MANIFEST_SIZE {
      SnapshotIsQuiet(env, w, docs, url);
      ApplyAllOrphans(env, w1, snapshot.value, url);
      assert forall i | 0 <= i < |docs| :: t.resources[i] in t.resources;
    } else {
      RefusedAtOnce(env, w1, snapshot.value, url);
    }
  }

  lemma RefusedAtOnce(env: Env, w: World, rs: seq<Resource>, url: Option<PublicUrl>)
    requires |rs| != MANIFEST_SIZE
    ensures ApplyAll(env, w, rs, url) == Progress(rs, false, w)
  {}

  // Quiet until the loop is over, and new resources were absent as it starts.
  lemma SnapshotIsQuiet(env: Env, w: World, docs: seq<Document>, url: Option<PublicUrl>)
    requires Wf(w) && ManifestOk(docs) && |docs| == MANIFEST_SIZE && Begin(env, w, docs, url).Some?
    requires var t := Begin(env, w, docs, url).value; AllQuiet(env, t.resources, w.step, t.after.step)
    ensures var (snapshot, w1) := Snapshot(env, w, docs, |docs|);
            && Wf(w1) && snapshot.Some? && |snapshot.value| == |docs| && Unapplied(snapshot.value)
            && DistinctKeys(snapshot.value)
            && AllQuiet(env, snapshot.value, w1.step,
                        ApplyLoop(env, w1, snapshot.value, |snapshot.value|).world.step)
            && forall r <- snapshot.value :: !r.existed ==> r.key !in w1.objects
  {
    hide Kubectl, Replay, ApplyLoop, ApplyAll, Snapshot, Begin, QuietDuring, Reaches, ReadOnly, UntilProbed, Records;
    SnapshotRun(env, w, docs, |docs|);
    BeginRun(env, w, docs, url);
    StepsInOrder(env, w, docs, url);
    var (snapshot, w1) := Snapshot(env, w, docs, |docs|);
    var rs := snapshot.value;
    forall i | 0 <= i < |rs|
      ensures !rs[i].existed ==> rs[i].key !in w1.objects
      ensures QuietDuring(env, rs[i].key, w1.step, ApplyLoop(env, w1, rs, |rs|).world.step)
    {
      var r := Begin(env, w, docs, url).value.resources[i];
      assert r in Begin(env, w, docs, url).value.resources && r.key == docs[i].key;
      QuietWithin(env, docs[i].key, w.step, w.step, w1.step, Begin(env, w, docs, url).value.after.step);
      NewIsAbsent(env, w, docs, i);
      QuietWithin(env, docs[i].key, w.step, w1.step, ApplyLoop(env, w1, rs, |rs|).world.step,
                  Begin(env, w, docs, url).value.after.step);
    }
  }

  lemma QuietWithin(env: Env, key: Key, from: nat, from': nat, until': nat, until: nat)
    requires QuietDuring(env, key, from, until) && from <= from' && until' <= until
    ensures QuietDuring(env, key, from', until')
  {}

  lemma StepsInOrder(env: Env, w: World, docs: seq<Document>, url: Option<PublicUrl>)
    requires Wf(w) && |docs| == MANIFEST_SIZE && Begin(env, w, docs, url).Some?
    ensures var (snapshot, w1) := Snapshot(env, w, docs, |docs|);
            && snapshot.Some? && w.step <= w1.step
            && w1.step <= ApplyLoop(env, w1, snapshot.value, |snapshot.value|).world.step
                <= Begin(env, w, docs, url).value.after.step
  {
    hide Kubectl, Replay, ApplyLoop, ApplyAll, Snapshot;
    SnapshotRun(env, w, docs, |docs|);
    var (snapshot, w1) := Snapshot(env, w, docs, |docs|);
    ReachesSteps(env, w, w1);
    LoopBeforeEnd(env, w1, snapshot.value, url);
    ApplyLoopRun(env, w1, snapshot.value, |snapshot.value|);
    ReachesSteps(env, w1, ApplyLoop(env, w1, snapshot.value, |snapshot.value|).world);
  }

  lemma NewIsAbsent(env: Env, w: World, docs: seq<Document>, i: nat)
    requires Wf(w) && i < |docs| && Snapshot(env, w, docs, |docs|).0.Some?
    requires QuietDuring(env, docs[i].key, w.step, Snapshot(env, w, docs, |docs|).1.step)
    ensures var (snapshot, w1) := Snapshot(env, w, docs, |docs|);
            |snapshot.value| == |docs| && (!snapshot.value[i].existed ==> docs[i].key !in w1.objects)
  {
    hide Kubectl, Replay, Snapshot;
    SnapshotRun(env, w, docs, |docs|);
    SnapshotSteps(env, w, docs, i + 1, |docs|);
    UnwrittenKeyIsSame(env, w, Snapshot(env, w, docs, |docs|).1, docs[i].key);
  }

  lemma LoopBeforeEnd(env: Env, w: World, rs: seq<Resource>, url: Option<PublicUrl>)
    requires Wf(w) && Unapplied(rs) && |rs| == MANIFEST_SIZE
    ensures ApplyLoop(env, w, rs, |rs|).world.step <= ApplyAll(env, w, rs, url).world.step
  {
    hide Kubectl, Replay, ApplyLoop, SetPublicBaseUrl;
    ApplyLoopRun(env, w, rs, |rs|);
    var loop := ApplyLoop(env, w, rs, |rs|);
    SetPublicBaseUrlRun(env, loop.world, url);
    ReachesSteps(env, loop.world, SetPublicBaseUrl(env, loop.world, url).1);
  }
}
