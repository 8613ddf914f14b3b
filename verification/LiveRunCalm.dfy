/** The other half of the commit rule: an undisturbed run whose checks pass does commit. */
module LiveRunCalm {
  import opened Cluster
  import opened Options
  import opened Ledger
  import opened PublisherSpec
  import opened PublisherProofs
  import opened TransactionProofs
  import opened RollbackExactness
  import opened LiveRun

  const CALM_TURN := Cluster.Turn.Turn([], Succeeds, false)

  // Every call succeeds at once and nobody else is at work.
  ghost predicate Undisturbed(env: Env) {
    forall s: nat :: env.turns(s) == CALM_TURN && env.patience(s) > 0
  }

  lemma UndisturbedIsQuiet(env: Env, key: Key, from: nat, until: nat)
    requires Undisturbed(env)
    ensures QuietDuring(env, key, from, until)
  {}

  lemma {:induction false} SnapshotSucceeds(env: Env, w: World, docs: seq<Document>, n: nat)
    requires Undisturbed(env) && Wf(w) && n <= |docs|
    ensures Snapshot(env, w, docs, n).0.Some?
  {
    hide Kubectl;
    if n > 0 {
      SnapshotSucceeds(env, w, docs, n - 1);
      SnapshotRun(env, w, docs, n - 1);
      var w1 := Snapshot(env, w, docs, n - 1).1;
      assert env.turns(w1.step) == CALM_TURN;
      CalmCall(env, w1, Get(docs[n - 1].key));
    }
  }

  // What apply needs to find for r: the object that was there when the snapshot was taken, or nothing special.
  ghost predicate Applicable(w: World, r: Resource) {
    r.existed ==> r.key in w.objects && r.priorUid == Some(w.objects[r.key].uid)
  }

  lemma ApplyOneSucceeds(env: Env, w: World, r: Resource)
    requires Undisturbed(env) && Wf(w) && Applicable(w, r) && r.createdUid.None?
    ensures var (r', ok, w') := ApplyOne(env, w, r);
            ok && r.key in w'.objects && (!r.existed ==> r'.createdUid.Some?)
  {
    hide Kubectl;
    assert env.turns(w.step) == CALM_TURN;
    if r.existed {
      CalmCall(env, w, Get(r.key));
      var w1 := Kubectl(env, w, Get(r.key)).1;
      assert env.turns(w1.step) == CALM_TURN;
      AppliedIsLive(env, w1, r.key, r.desired);
    } else {
      AppliedIsLive(env, w, r.key, r.desired);
      var w1 := Kubectl(env, w, Apply(r.key, r.desired)).1;
      assert env.turns(w1.step) == CALM_TURN;
      CalmCall(env, w1, Get(r.key));
    }
  }

  lemma AppliedIsLive(env: Env, w: World, key: Key, desired: Body)
    requires Wf(w) && env.turns(w.step) == CALM_TURN
    ensures var (reply, w') := Kubectl(env, w, Apply(key, desired));
            reply.ok && !reply.raised && key in w'.objects && Wf(w')
  {
    CallFrame(env, w, Apply(key, desired));
  }

  lemma {:induction false} ApplyLoopSucceeds(env: Env, w: World, rs: seq<Resource>, n: nat)
    requires Undisturbed(env) && Wf(w) && n <= |rs| && Unapplied(rs)
    requires forall r <- rs :: Applicable(w, r)
    ensures var p := ApplyLoop(env, w, rs, n);
            && p.ok
            && (forall i | 0 <= i < n ::
                 rs[i].key in p.world.objects && (!rs[i].existed ==> p.resources[i].createdUid.Some?))
  {
    hide Kubectl, Replay, ApplyOne;
    if n > 0 {
      ApplyLoopSucceeds(env, w, rs, n - 1);
      ApplyLoopRun(env, w, rs, n - 1);
      var before := ApplyLoop(env, w, rs, n - 1);
      var r := rs[n - 1];
      assert r in rs;
      if r.existed {
        UndisturbedIsQuiet(env, r.key, w.step, before.world.step);
        RunKeepsIdentity(env, w, before.world, r.key);
      }
      ApplyOneSucceeds(env, before.world, r);
      ApplyOneRun(env, before.world, r);
      var w' := ApplyOne(env, before.world, r).2;
      forall i | 0 <= i < n - 1
        ensures rs[i].key in w'.objects
      {
        UndisturbedIsQuiet(env, rs[i].key, before.world.step, w'.step);
        RunKeepsIdentity(env, before.world, w', rs[i].key);
      }
    }
  }

  lemma SetPublicBaseUrlSucceeds(env: Env, w: World, url: PublicUrl)
    requires Undisturbed(env) && Wf(w) && PUBLISHER_DEPLOYMENT in w.objects
    ensures SetPublicBaseUrl(env, w, Some(url)).0
  {
    hide Kubectl, BaseUrlArgument, AllowHttpArgument;
    var w1 := EditSucceeds(env, w, BaseUrlArgument(url));
    var w2 := EditSucceeds(env, w1, AllowHttpArgument(url));
    assert env.turns(w2.step) == CALM_TURN;
    CalmCall(env, w2, Rollout(PUBLISHER_DEPLOYMENT));
  }

  lemma EditSucceeds(env: Env, w: World, argument: string) returns (w': World)
    requires Undisturbed(env) && Wf(w) && PUBLISHER_DEPLOYMENT in w.objects
    ensures Kubectl(env, w, Edit(PUBLISHER_DEPLOYMENT, argument)).0.ok
    ensures w' == Kubectl(env, w, Edit(PUBLISHER_DEPLOYMENT, argument)).1 && Wf(w')
            && PUBLISHER_DEPLOYMENT in w'.objects
  {
    assert env.turns(w.step) == CALM_TURN;
    CallFrame(env, w, Edit(PUBLISHER_DEPLOYMENT, argument));
    w' := Kubectl(env, w, Edit(PUBLISHER_DEPLOYMENT, argument)).1;
  }

  // Undisturbed, the transaction applies all eleven resources and knows the uid of each one it created.
  lemma ApplyAllSucceeds(env: Env, w: World, docs: seq<Document>, url: PublicUrl)
    requires Undisturbed(env) && Wf(w) && ManifestOk(docs) && |docs| == MANIFEST_SIZE
    ensures var t := Begin(env, w, docs, Some(url));
            && t.Some? && t.value.applied
            && forall r <- t.value.resources :: !r.existed ==> r.createdUid.Some?
  {
    hide Kubectl, Replay, ApplyLoop, SetPublicBaseUrl, Snapshot;
    SnapshotSucceeds(env, w, docs, |docs|);
    SnapshotRun(env, w, docs, |docs|);
    var (snapshot, w1) := Snapshot(env, w, docs, |docs|);
    var rs := snapshot.value;
    forall r | r in rs
      ensures Applicable(w1, r) && !r.attempted && r.createdUid.None?
    {
      var i :| 0 <= i < |rs| && rs[i] == r;
      UndisturbedIsQuiet(env, r.key, w.step, w1.step);
      if r.existed {
        RunKeepsIdentity(env, w, w1, r.key);
      }
    }
    ApplyLoopSucceeds(env, w1, rs, |rs|);
    ApplyLoopRun(env, w1, rs, |rs|);
    var d :| 0 <= d < |docs| && docs[d].key == PUBLISHER_DEPLOYMENT;
    assert rs[d].key == PUBLISHER_DEPLOYMENT;
    SetPublicBaseUrlSucceeds(env, ApplyLoop(env, w1, rs, |rs|).world, url);
    var t := Begin(env, w, docs, Some(url)).value;
    forall r | r in t.resources
      ensures !r.existed ==> r.createdUid.Some?
    {
      var i :| 0 <= i < |rs| && t.resources[i] == r;
    }
  }

  // The cluster calls of the plan never delete a manifest resource.
  ghost predicate SparesManifest(calls: seq<Call>, docs: seq<Document>) {
    forall c <- calls | c.Delete? :: forall doc <- docs :: doc.key != c.key
  }

  // Calls that spare the manifest leave every resource restorable.
  lemma CallsKeepRestorable(env: Env, w: World, rs: seq<Resource>, docs: seq<Document>, calls: seq<Call>)
    requires Undisturbed(env) && Wf(w) && SparesManifest(calls, docs) && |rs| == |docs|
    requires forall i | 0 <= i < |rs| :: rs[i].key == docs[i].key && rs[i].key in w.objects
    requires forall r <- rs :: Restorable(w, r)
    ensures forall r <- rs :: Restorable(Replay(env, w, calls), r)
  {
    hide Kubectl, Replay;
    forall r | r in rs
      ensures Restorable(Replay(env, w, calls), r)
    {
      var i :| 0 <= i < |rs| && rs[i] == r;
      assert docs[i] in docs;
      UndisturbedIsQuiet(env, r.key, w.step, w.step + |calls|);
      ReplayKeepsIdentity(env, w, calls, r.key);
    }
  }

  // After an undisturbed transaction every manifest resource is live and restorable.
  lemma AppliedIsRestorable(env: Env, w: World, docs: seq<Document>, url: PublicUrl)
    requires Undisturbed(env) && Wf(w) && ManifestOk(docs) && |docs| == MANIFEST_SIZE
    ensures var t := Begin(env, w, docs, Some(url));
            && t.Some? && t.value.applied && Wf(t.value.after) && |t.value.resources| == |docs|
            && DistinctKeys(t.value.resources)
            && (forall i | 0 <= i < |docs| ::
                  t.value.resources[i].key == docs[i].key && t.value.resources[i].key in t.value.after.objects)
            && (forall r <- t.value.resources :: Restorable(t.value.after, r))
  {
    hide Kubectl, Replay, ApplyAll, Snapshot;
    ApplyAllSucceeds(env, w, docs, url);
    BeginRun(env, w, docs, Some(url));
    var t := Begin(env, w, docs, Some(url)).value;
    forall r | r in t.resources
      ensures QuietDuring(env, r.key, w.step, t.after.step)
    {
      UndisturbedIsQuiet(env, r.key, w.step, t.after.step);
    }
    BeginUids(env, w, docs, Some(url));
    ReachesSteps(env, w, t.after);
    forall i | 0 <= i < |docs|
      ensures t.resources[i].key in t.after.objects && Restorable(t.after, t.resources[i])
    {
      var r := t.resources[i];
      assert r in t.resources && r.key == docs[i].key;
      SnapshotSteps(env, w, docs, 0, i + 1);
      UndisturbedIsQuiet(env, r.key, w.step, Snapshot(env, w, docs, i + 1).1.step);
      if r.existed {
        RunKeepsIdentity(env, w, t.after, r.key);
      }
    }
    forall r | r in t.resources
      ensures Restorable(t.after, r)
    {
      var i :| 0 <= i < |docs| && t.resources[i] == r;
    }
  }

  // An undisturbed run over the full manifest, whose plan deletes no manifest resource, commits exactly when
  // its plan and its cleanup go through and all other required checks have passed.
  lemma UndisturbedRunCommits(env: Env, cp: ControlPlane, w: World, server: Server, s: Settings)
    requires Undisturbed(env) && Wf(w) && ManifestOk(s.docs) && |s.docs| == MANIFEST_SIZE
    requires s.dryRun && s.url.Some? && s.redacted && SparesManifest(s.calls, s.docs)
    ensures var st := Run(cp, Initial(server), s.plan, |s.plan|);
            Execute(env, cp, w, server, s).outcome == Committed(REQUIRED_CHECKS) <==>
            st.ok && CleanUp(cp, st.server, st.books).0.None() && st.checks + {CLEANUP_COMPLETE} == REQUIRED_CHECKS
  {
    hide Kubectl, Replay, ApplyAll, Snapshot, RestoreAll, CleanUp, Run, REQUIRED_CHECKS;
    AppliedIsRestorable(env, w, s.docs, s.url.value);
    var t := Begin(env, w, s.docs, s.url).value;
    CallsKeepRestorable(env, t.after, t.resources, s.docs, s.calls);
    var w1 := Replay(env, t.after, s.calls);
    RunEvolves(env, t.after, s.calls);
    assert Calm(env, t.resources, w1.step);
    RestoreAllCalm(env, w1, t.resources);
    assert Restore(env, StartPublisher(env, w, s), w1).0 == [];
  }
}
