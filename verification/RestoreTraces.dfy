/** The calls a rollback makes and what it reports about each of them. */
module RestoreTraces {
  import opened Cluster
  import opened Options
  import opened PublisherSpec
  import opened PublisherProofs
  import opened TransactionProofs

  // Every poll but the last saw the resource.
  ghost predicate StillThere(log: seq<Event>) {
    forall i | 0 <= i < |log| - 1 :: log[i].reply.ok && log[i].reply.seen.Some?
  }

  ghost predicate SeesNothing(e: Event) {
    e.reply.ok && e.reply.seen.None?
  }

  // The wait probes until a probe fails, sees nothing, or was the last one allowed; it succeeds exactly when
  // its last probe saw nothing.
  lemma {:induction false} WaitAbsentExactly(env: Env, w: World, key: Key, patience: nat)
    requires Wf(w)
    ensures var (ok, w') := WaitAbsent(env, w, key, patience);
            var log := New(w, w');
            && |log| <= patience && (forall e <- log :: e.call == Get(key)) && StillThere(log)
            && (ok <==> log != [] && SeesNothing(log[|log| - 1]))
            && (!ok ==> |log| == patience || (log != [] && !log[|log| - 1].reply.ok))
    decreases patience
  {
    hide Kubectl, Replay;
    ReachesSelf(env, w);
    if patience > 0 {
      var (probe, w1) := Kubectl(env, w, Get(key));
      ReachesCall(env, w, w, Get(key));
      if probe.ok && probe.seen.Some? {
        WaitAbsentExactly(env, w1, key, patience - 1);
        WaitAbsentRun(env, w1, key, patience - 1);
        var w' := WaitAbsent(env, w1, key, patience - 1).1;
        ReachesTransitive(env, w, w1, w');
        var rest := New(w1, w');
        forall i | 0 <= i < |New(w, w')| - 1
          ensures New(w, w')[i].reply.ok && New(w, w')[i].reply.seen.Some?
        {
          assert i > 0 ==> New(w, w')[i] == rest[i - 1];
        }
      }
    }
  }

  ghost predicate Sees(e: Event, uid: Option<nat>) {
    e.reply.ok && e.reply.seen.Some? && uid == Some(e.reply.seen.value.uid)
  }

  // A resource that was there before: success exactly when the probe saw its uid and a replace under the
  // probed version, with the prior body, was answered.
  lemma RestoreExistingExactly(env: Env, w: World, r: Resource)
    requires Wf(w) && r.existed
    ensures var (ok, w') := RestoreOne(env, w, r);
            var log := New(w, w');
            && 1 <= |log| <= 2 && log[0].call == Get(r.key)
            && (|log| == 2 <==> Sees(log[0], r.priorUid) && r.prior.Some?)
            && (|log| == 2 ==> log[1].call == Replace(r.key, log[0].reply.seen.value.version, r.prior.value.body))
            && (ok <==> |log| == 2 && log[1].reply.ok)
  {
    hide Kubectl;
    var (probe, w1) := Kubectl(env, w, Get(r.key));
    ReachesSelf(env, w);
    ReachesCall(env, w, w, Get(r.key));
    GetReports(env, w, r.key);
    if probe.seen.Some? && r.prior.Some? {
      ReachesCall(env, w, w1, Replace(r.key, probe.seen.value.version, r.prior.value.body));
    }
  }

  // A new resource: success exactly when the probe saw nothing, or saw the created uid, and then a delete was
  // answered and a later probe saw nothing.
  lemma RestoreNewExactly(env: Env, w: World, r: Resource)
    requires Wf(w) && !r.existed
    ensures var (ok, w') := RestoreOne(env, w, r);
            var log := New(w, w');
            && |log| >= 1 && log[0].call == Get(r.key)
            && (|log| >= 2 <==> Sees(log[0], r.createdUid))
            && (|log| >= 2 ==> log[1].call == Delete(r.key) && forall i | 2 <= i < |log| :: log[i].call == Get(r.key))
            && (|log| > 2 ==> log[1].reply.ok)
            && (ok <==> if |log| == 1 then SeesNothing(log[0]) else |log| > 2 && SeesNothing(log[|log| - 1]))
  {
    hide Kubectl, Replay;
    var (probe, w1) := Kubectl(env, w, Get(r.key));
    ReachesSelf(env, w);
    ReachesCall(env, w, w, Get(r.key));
    GetReports(env, w, r.key);
    if probe.seen.Some? && r.createdUid == Some(probe.seen.value.uid) {
      ReachesCall(env, w, w1, Delete(r.key));
      var (deleted, w2) := Kubectl(env, w1, Delete(r.key));
      if deleted.ok {
        var patience := env.patience(w2.step);
        WaitAbsentExactly(env, w2, r.key, patience);
        WaitAbsentRun(env, w2, r.key, patience);
        ReachesTransitive(env, w, w2, WaitAbsent(env, w2, r.key, patience).1);
      }
    }
  }

  // ------------------------------------------------------------------ the loop

  ghost predicate NoRollout(log: seq<Event>) {
    forall e <- log :: !e.call.Rollout?
  }

  lemma OneStepNeverWaits(env: Env, w: World, r: Resource)
    requires Wf(w)
    ensures NoRollout(New(w, RestoreOne(env, w, r).1))
  {
    hide RestoreOne;
    var log := New(w, RestoreOne(env, w, r).1);
    if r.existed {
      RestoreExistingExactly(env, w, r);
    } else {
      RestoreNewExactly(env, w, r);
    }
    forall e | e in log
      ensures !e.call.Rollout?
    {
      var i :| 0 <= i < |log| && log[i] == e;
    }
  }

  // The rollback of resource i, made once those after it are done, failed.
  ghost predicate FailsAt(env: Env, w: World, rs: seq<Resource>, i: nat)
    requires i < |rs|
  {
    rs[i].attempted && !RestoreOne(env, RestoreLoop(env, w, rs, i + 1).1, rs[i]).0
  }

  ghost function FailedOf(env: Env, w: World, rs: seq<Resource>): set<nat> {
    set i: nat | i < |rs| && FailsAt(env, w, rs, i)
  }

  // The report has one entry per failed resource, last one first, under the name of its kind.
  function Reports(rs: seq<Resource>, failed: set<nat>, n: nat): seq<Failure>
    requires n <= |rs|
    decreases |rs| - n
  {
    if n == |rs| then []
    else
      Reports(rs, failed, n + 1)
      + if n !in failed then [] else if rs[n].existed then [RestoreExisting] else [DeleteCreated]
  }

  lemma {:induction false} RestoreLoopReports(env: Env, w: World, rs: seq<Resource>, n: nat)
    requires Wf(w) && n <= |rs|
    ensures var (failures, w') := RestoreLoop(env, w, rs, n);
            && failures == Reports(rs, FailedOf(env, w, rs), n)
            && PublisherReadiness !in failures && NoRollout(New(w, w'))
    decreases |rs| - n
  {
    hide Kubectl, Replay, RestoreOne;
    if n < |rs| {
      RestoreLoopReports(env, w, rs, n + 1);
      var (failures, w1) := RestoreLoop(env, w, rs, n + 1);
      var failed := FailedOf(env, w, rs);
      assert failures + [] == failures;
      if rs[n].attempted {
        RestoreLoopRun(env, w, rs, n + 1);
        RestoreOneRun(env, w1, rs[n]);
        OneStepNeverWaits(env, w1, rs[n]);
        ReachesTransitive(env, w, w1, RestoreOne(env, w1, rs[n]).1);
      }
    }
  }

  ghost predicate DeploymentWasThere(rs: seq<Resource>) {
    exists r <- rs :: r.attempted && r.key == PUBLISHER_DEPLOYMENT && r.existed
  }

  lemma {:induction false} DeploymentExistedExactly(rs: seq<Resource>, n: nat)
    requires n <= |rs| && DistinctKeys(rs)
    ensures DeploymentExisted(rs, n) <==>
            exists i | n <= i < |rs| :: rs[i].attempted && rs[i].key == PUBLISHER_DEPLOYMENT && rs[i].existed
    decreases |rs| - n
  {
    if n < |rs| {
      DeploymentExistedExactly(rs, n + 1);
    }
  }

  // The whole report: the failed resources, and last whether the publisher Deployment became ready again. That
  // is asked exactly when the Deployment was attempted and had been there before.
  lemma RollbackReports(env: Env, w: World, rs: seq<Resource>)
    requires Wf(w) && DistinctKeys(rs)
    ensures var (failures, w') := RestoreAll(env, w, rs);
            var log := New(w, w');
            var failed := Reports(rs, FailedOf(env, w, rs), 0);
            if DeploymentWasThere(rs) then
              && log != [] && log[|log| - 1].call == Rollout(PUBLISHER_DEPLOYMENT) && NoRollout(log[..|log| - 1])
              && failures == failed + if log[|log| - 1].reply.ok then [] else [PublisherReadiness]
            else NoRollout(log) && failures == failed
  {
    hide Kubectl, Replay, RestoreLoop, FailedOf;
    RestoreLoopReports(env, w, rs, 0);
    RestoreLoopRun(env, w, rs, 0);
    DeploymentExistedExactly(rs, 0);
    var (failures, w1) := RestoreLoop(env, w, rs, 0);
    assert failures + [] == failures;
    assert DeploymentWasThere(rs) == DeploymentExisted(rs, 0);
    if DeploymentExisted(rs, 0) {
      ReachesCall(env, w, w1, Rollout(PUBLISHER_DEPLOYMENT));
      var log := New(w, Kubectl(env, w1, Rollout(PUBLISHER_DEPLOYMENT)).1);
      assert log[..|log| - 1] == New(w, w1);
    }
  }

  // ------------------------------------------------------------------ preparing

  // Preparation succeeds exactly when dry run, snapshot and apply do. If apply fails, every resource it
  // attempted is probed for its rollback, and the restore is named exactly when that rollback reports anything.
  lemma PrepareExactly(env: Env, w: World, docs: seq<Document>, url: Option<PublicUrl>, dryRun: bool)
    requires Wf(w) && ManifestOk(docs)
    ensures var (prepared, w') := Prepare(env, w, docs, url, dryRun);
            var t := Begin(env, w, docs, url);
            && (!dryRun ==> prepared == Failed(false) && w' == w)
            && (prepared.Ready? <==> dryRun && t.Some? && t.value.applied)
            && (prepared.Ready? ==> prepared.resources == t.value.resources && w' == t.value.after)
            && (dryRun && t.None? ==> prepared == Failed(false))
            && (dryRun && t.Some? && !t.value.applied ==>
                  && (forall r <- t.value.resources :: r.attempted ==> Probes(New(t.value.after, w'), r.key))
                  && (prepared == Failed(true) <==>
                        Started(t.value.resources) && RestoreAll(env, t.value.after, t.value.resources).0 != []))
  {
    hide Kubectl, Replay, ApplyAll, Snapshot, RestoreAll;
    if Begin(env, w, docs, url).Some? {
      var t := Begin(env, w, docs, url).value;
      BeginRun(env, w, docs, url);
      RollbackOwnership(env, t.after, t.resources);
      forall r | r in t.resources && r.attempted
        ensures Started(t.resources)
      {
        var i :| 0 <= i < |t.resources| && t.resources[i] == r;
      }
    }
  }
}
