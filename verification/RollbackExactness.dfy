/** When the rollback works and when it does not: the exact condition under which an undisturbed
    rollback succeeds, and the exact conditions under which the runner's ownership probe and its
    delete act on an object the runner itself created. */
module RollbackExactness {
  import opened Cluster
  import opened Options
  import opened PublisherSpec
  import opened PublisherProofs
  import opened TransactionProofs

  // From step `from` on, calls succeed, deletes take effect and nobody else touches the resources.
  ghost predicate Calm(env: Env, rs: seq<Resource>, from: nat) {
    && (forall s: nat | from <= s ::
          && env.turns(s).outcome.Succeeds? && !env.turns(s).lingers
          && forall r <- rs :: Untouched(env.turns(s).foreign, r.key))
    && (forall s: nat | from <= s :: env.patience(s) > 0)
  }

  // What a rollback of r needs to find: its prior object, or no object but the runner's own.
  ghost predicate Restorable(w: World, r: Resource) {
    if r.existed then
      r.prior.Some? && r.priorUid.Some? && r.key in w.objects && w.objects[r.key].uid == r.priorUid.value
    else r.key in w.objects ==> r.createdUid == Some(w.objects[r.key].uid)
  }

  lemma CalmCall(env: Env, w: World, call: Call)
    requires Wf(w)
    requires env.turns(w.step).outcome.Succeeds? && !env.turns(w.step).lingers
    requires Untouched(env.turns(w.step).foreign, call.key)
    ensures var (reply, w') := Kubectl(env, w, call);
            && Wf(w') && w'.step == w.step + 1
            && reply.ok == Accepts(w, call)
            && (call.Get? ==> reply.seen == Live(w, call.key) && Live(w', call.key) == Live(w, call.key))
            && (call.Delete? && reply.ok ==> call.key !in w'.objects)
  {
    ActAllQuiet(w, env.turns(w.step).foreign, call.key);
    CallFrame(env, w, call);
  }

  lemma RestoreOneCalm(env: Env, w: World, rs: seq<Resource>, r: Resource)
    requires Wf(w) && r in rs && Calm(env, rs, w.step)
    ensures RestoreOne(env, w, r).0 <==> Restorable(w, r)
  {
    hide Kubectl;
    CalmCall(env, w, Get(r.key));
    var w1 := Kubectl(env, w, Get(r.key)).1;
    if r.key in w.objects {
      var seen := w.objects[r.key];
      if r.existed && r.prior.Some? {
        CalmCall(env, w1, Replace(r.key, seen.version, r.prior.value.body));
      } else if !r.existed {
        CalmCall(env, w1, Delete(r.key));
        var w2 := Kubectl(env, w1, Delete(r.key)).1;
        CalmCall(env, w2, Get(r.key));
        assert env.patience(w2.step) > 0;
      }
    }
  }

  lemma CalmIsQuiet(env: Env, rs: seq<Resource>, from: nat, until: nat, r: Resource)
    requires Calm(env, rs, from) && r in rs
    ensures QuietDuring(env, r.key, from, until)
  {}

  lemma {:induction false} RestoreLoopCalm(env: Env, w: World, rs: seq<Resource>, n: nat)
    requires Wf(w) && n <= |rs| && DistinctKeys(rs) && Calm(env, rs, w.step)
    ensures RestoreLoop(env, w, rs, n).0 == [] <==> forall i | n <= i < |rs| && rs[i].attempted :: Restorable(w, rs[i])
    ensures forall i | 0 <= i < n :: Same(w, RestoreLoop(env, w, rs, n).1, rs[i].key)
    decreases |rs| - n
  {
    hide Kubectl, RestoreOne, Replay;
    if n < |rs| {
      RestoreLoopCalm(env, w, rs, n + 1);
      RestoreLoopRun(env, w, rs, n + 1);
      var w1 := RestoreLoop(env, w, rs, n + 1).1;
      ReachesSteps(env, w, w1);
      if rs[n].attempted {
        assert Same(w, w1, rs[n].key);
        RestoreOneCalm(env, w1, rs, rs[n]);
        RestoreOneRun(env, w1, rs[n]);
        var w2 := RestoreOne(env, w1, rs[n]).1;
        forall i | 0 <= i < n
          ensures Same(w, w2, rs[i].key)
        {
          CalmIsQuiet(env, rs, w1.step, w2.step, rs[i]);
          UnwrittenKeyIsSame(env, w1, w2, rs[i].key);
        }
      }
    }
  }

  // An undisturbed rollback reports no failure exactly when every attempted resource is restorable.
  lemma RestoreAllCalm(env: Env, w: World, rs: seq<Resource>)
    requires Wf(w) && DistinctKeys(rs) && Calm(env, rs, w.step)
    ensures RestoreAll(env, w, rs).0 == [] <==> forall i | 0 <= i < |rs| && rs[i].attempted :: Restorable(w, rs[i])
  {
    hide Kubectl, RestoreOne, Replay;
    RestoreLoopCalm(env, w, rs, 0);
    if DeploymentExisted(rs, 0) {
      RestoreLoopRun(env, w, rs, 0);
      var w1 := RestoreLoop(env, w, rs, 0).1;
      ReachesSteps(env, w, w1);
      DeploymentExistedSource(rs, 0);
      CalmCall(env, w1, Rollout(PUBLISHER_DEPLOYMENT));
    }
  }

  // ------------------------------------------------------------------ what apply leaves restorable

  // A resource the runner may have created but could not establish ownership of.
  ghost predicate Orphaned(w: World, r: Resource) {
    r.attempted && !r.existed && r.createdUid.None? && r.key in w.objects
  }

  ghost predicate UidsCurrent(w: World, rs: seq<Resource>) {
    forall r <- rs | r.createdUid.Some? :: r.key in w.objects && w.objects[r.key].uid == r.createdUid.value
  }

  ghost predicate AllQuiet(env: Env, rs: seq<Resource>, from: nat, until: nat) {
    forall r <- rs :: QuietDuring(env, r.key, from, until)
  }

  lemma UidsStayCurrent(env: Env, w: World, w': World, rs: seq<Resource>)
    requires Wf(w) && Reaches(env, w, w') && NoDeletes(New(w, w'))
    requires UidsCurrent(w, rs) && AllQuiet(env, rs, w.step, w'.step)
    ensures UidsCurrent(w', rs)
  {
    forall r | r in rs && r.createdUid.Some?
      ensures r.key in w'.objects && w'.objects[r.key].uid == r.createdUid.value
    {
      RunKeepsIdentity(env, w, w', r.key);
    }
  }

  lemma {:induction false} ApplyLoopUids(env: Env, w: World, rs: seq<Resource>, n: nat)
    requires Wf(w) && n <= |rs| && Unapplied(rs) && DistinctKeys(rs)
    requires AllQuiet(env, rs, w.step, ApplyLoop(env, w, rs, n).world.step)
    ensures UidsCurrent(ApplyLoop(env, w, rs, n).world, ApplyLoop(env, w, rs, n).resources)
  {
    hide Kubectl, Replay, ApplyOne;
    if n > 0 {
      ApplyLoopRun(env, w, rs, n - 1);
      ApplyLoopRun(env, w, rs, n);
      var before := ApplyLoop(env, w, rs, n - 1);
      ReachesSteps(env, w, before.world);
      if before.ok {
        assert rs[n - 1] in rs;
        ApplyOneRun(env, before.world, rs[n - 1]);
        var p := ApplyLoop(env, w, rs, n);
        ReachesSteps(env, before.world, p.world);
        ApplyLoopUids(env, w, rs, n - 1);
        forall r | r in before.resources
          ensures QuietDuring(env, r.key, before.world.step, p.world.step)
        {
          var i :| 0 <= i < |rs| && before.resources[i] == r;
          assert rs[i] in rs && rs[i].key == r.key;
        }
        UidsStayCurrent(env, before.world, p.world, before.resources);
        forall r | r in p.resources && r.createdUid.Some?
          ensures r.key in p.world.objects && p.world.objects[r.key].uid == r.createdUid.value
        {
          if r != p.resources[n - 1] {
            assert r in before.resources;
          }
        }
      } else {
        ApplyLoopUids(env, w, rs, n - 1);
      }
    }
  }

  lemma ApplyAllUids(env: Env, w: World, rs: seq<Resource>, url: Option<PublicUrl>)
    requires Wf(w) && Unapplied(rs) && DistinctKeys(rs) && HasDeployment(rs)
    requires AllQuiet(env, rs, w.step, ApplyAll(env, w, rs, url).world.step)
    ensures UidsCurrent(ApplyAll(env, w, rs, url).world, ApplyAll(env, w, rs, url).resources)
  {
    hide Kubectl, Replay, ApplyOne, SetPublicBaseUrl;
    if |rs| == MANIFEST_SIZE {
      var loop := ApplyLoop(env, w, rs, |rs|);
      ApplyLoopRun(env, w, rs, |rs|);
      ReachesSteps(env, w, loop.world);
      if loop.ok {
        SetPublicBaseUrlRun(env, loop.world, url);
        var p := ApplyAll(env, w, rs, url);
        ReachesSteps(env, loop.world, p.world);
        ApplyLoopUids(env, w, rs, |rs|);
        forall r | r in loop.resources
          ensures QuietDuring(env, r.key, loop.world.step, p.world.step)
        {
          var i :| 0 <= i < |rs| && loop.resources[i] == r;
          assert rs[i] in rs && rs[i].key == r.key;
        }
        UidsStayCurrent(env, loop.world, p.world, loop.resources);
      } else {
        ApplyLoopUids(env, w, rs, |rs|);
      }
    }
  }

  // Whatever calls failed while applying: if other actors kept off the manifest and the rollback runs
  // undisturbed, it reports no failure exactly when no resource was left orphaned.
  lemma CalmRollbackExact(env: Env, w: World, docs: seq<Document>, url: Option<PublicUrl>)
    requires Wf(w) && ManifestOk(docs) && Begin(env, w, docs, url).Some?
    requires var t := Begin(env, w, docs, url).value;
             AllQuiet(env, t.resources, w.step, t.after.step) && Calm(env, t.resources, t.after.step)
    ensures var t := Begin(env, w, docs, url).value;
            RestoreAll(env, t.after, t.resources).0 == [] <==> forall r <- t.resources :: !Orphaned(t.after, r)
  {
    hide Kubectl, Replay, Begin, RestoreAll, ApplyAll, Snapshot;
    BeginRun(env, w, docs, url);
    var t := Begin(env, w, docs, url).value;
    ReachesSteps(env, w, t.after);
    BeginUids(env, w, docs, url);
    RestoreAllCalm(env, t.after, t.resources);
    forall i | 0 <= i < |t.resources| && t.resources[i].attempted
      ensures Restorable(t.after, t.resources[i]) <==> !Orphaned(t.after, t.resources[i])
    {
      var r := t.resources[i];
      assert r in t.resources && r.key == docs[i].key;
      if r.existed {
        RunKeepsIdentity(env, w, t.after, r.key);
      }
    }
  }

  lemma BeginUids(env: Env, w: World, docs: seq<Document>, url: Option<PublicUrl>)
    requires Wf(w) && ManifestOk(docs) && Begin(env, w, docs, url).Some?
    requires var t := Begin(env, w, docs, url).value; AllQuiet(env, t.resources, w.step, t.after.step)
    ensures var t := Begin(env, w, docs, url).value; UidsCurrent(t.after, t.resources)
  {
    hide Kubectl, Replay, ApplyAll, Snapshot;
    SnapshotRun(env, w, docs, |docs|);
    var (snapshot, w1) := Snapshot(env, w, docs, |docs|);
    var rs := snapshot.value;
    var d :| 0 <= d < |docs| && docs[d].key == PUBLISHER_DEPLOYMENT;
    assert rs[d].key == PUBLISHER_DEPLOYMENT;
    ApplyAllRun(env, w1, rs, url);
    var t := Begin(env, w, docs, url).value;
    ReachesSteps(env, w, w1);
    ReachesSteps(env, w1, t.after);
    forall r | r in rs
      ensures QuietDuring(env, r.key, w1.step, t.after.step)
    {
      var i :| 0 <= i < |rs| && rs[i] == r;
      assert t.resources[i] in t.resources && t.resources[i].key == r.key;
    }
    ApplyAllUids(env, w1, rs, url);
  }

  // ------------------------------------------------------------------ whose object is it?

  ghost predicate Commits(turn: Turn) {
    turn.outcome.Succeeds? || turn.outcome.committed
  }

  // The uid that the runner's own apply of r assigned: the one it wrote to a key that was free.
  function Assigned(env: Env, w: World, r: Resource): Option<nat> {
    var after := Kubectl(env, w, Apply(r.key, r.desired)).1;
    if r.key in Arrival(env, w).objects || Last(after).None? then None else Last(after).value.wrote
  }

  lemma AssignedIsFresh(env: Env, w: World, r: Resource)
    requires Wf(w)
    ensures var (arrival, w1) := (Arrival(env, w), Kubectl(env, w, Apply(r.key, r.desired)).1);
            && Wf(arrival) && Wf(w1) && w1.step == w.step + 1 && arrival.next <= w1.next
            && (Assigned(env, w, r).Some? <==> r.key !in arrival.objects && Commits(env.turns(w.step)))
            && (Assigned(env, w, r).Some? ==> Assigned(env, w, r) == Some(arrival.next) && arrival.next < w1.next
                                              && r.key in w1.objects && w1.objects[r.key].uid == arrival.next)
            && (!Commits(env.turns(w.step)) ==> w1.objects == arrival.objects)
            && (r.key in arrival.objects ==> r.key in w1.objects && w1.objects[r.key].uid == arrival.objects[r.key].uid)
  {
    ActAllEvolves(w, env.turns(w.step).foreign);
    CallFrame(env, w, Apply(r.key, r.desired));
  }

  // An object seen after a removal carries a uid that did not exist before it.
  lemma RecreatedIsFresh(w: World, fs: seq<Foreign>, key: Key)
    requires Wf(w) && key in w.objects && Remove(key) in fs && key in ActAll(w, fs).objects
    ensures w.next <= ActAll(w, fs).objects[key].uid
  {
    ActAllEvolves(w, fs);
    UidSurvivesIffNotRemoved(w, fs, key);
  }

  // Whether or not the apply reports success: a uid that the probe records is the one the runner's own apply
  // assigned exactly when that apply committed, the key was free as it reached the server, and nobody
  // removed the object before the probe.
  lemma OwnershipProbeExact(env: Env, w: World, r: Resource)
    requires Wf(w) && !r.existed && r.createdUid.None? && ApplyOne(env, w, r).0.createdUid.Some?
    ensures ApplyOne(env, w, r).0.createdUid == Assigned(env, w, r) <==>
            && Commits(env.turns(w.step)) && r.key !in Arrival(env, w).objects
            && Remove(r.key) !in env.turns(w.step + 1).foreign
  {
    hide Kubectl, Assigned;
    AssignedIsFresh(env, w, r);
    var w1 := Kubectl(env, w, Apply(r.key, r.desired)).1;
    ProbeSees(env, w1, r.key);
    if Assigned(env, w, r).Some? {
      UidSurvivesIffNotRemoved(w1, env.turns(w1.step).foreign, r.key);
    }
  }

  lemma ProbeSees(env: Env, w: World, key: Key)
    ensures var seen := Kubectl(env, w, Get(key)).0.seen;
            && (seen.Some? ==> env.turns(w.step).outcome.Succeeds?)
            && (env.turns(w.step).outcome.Succeeds? ==> seen == Live(ActAll(w, env.turns(w.step).foreign), key))
  {}

  // The delete names the resource, not the object: whether or not it reports success, it hits the object the
  // probe saw exactly when it committed and nobody removed (and possibly recreated) that object before.
  lemma DeleteExact(env: Env, w: World, key: Key)
    requires Wf(w) && key in w.objects
    ensures Last(Kubectl(env, w, Delete(key)).1).value.wrote == Some(w.objects[key].uid) <==>
            Commits(env.turns(w.step)) && Remove(key) !in env.turns(w.step).foreign
  {
    ActAllEvolves(w, env.turns(w.step).foreign);
    UidSurvivesIffNotRemoved(w, env.turns(w.step).foreign, key);
  }

  // Over the whole transaction: whatever happens between the apply of r and its rollback, a committed delete
  // hits the object that the runner's own apply created exactly when that apply committed on a free key and
  // nobody removed the object just before the ownership probe or just before the delete.
  lemma CommittedDeleteExact(env: Env, w: World, r: Resource, w2: World)
    requires Wf(w) && !r.existed && !r.attempted && r.createdUid.None? && ApplyOne(env, w, r).0.createdUid.Some?
    requires Reaches(env, ApplyOne(env, w, r).2, w2)
    requires var log := New(w2, RestoreOne(env, w2, ApplyOne(env, w, r).0).1);
             |log| >= 2 && log[1].call == Delete(r.key) && log[1].wrote.Some?
    ensures New(w2, RestoreOne(env, w2, ApplyOne(env, w, r).0).1)[1].wrote == Assigned(env, w, r) <==>
            && Commits(env.turns(w.step)) && r.key !in Arrival(env, w).objects
            && Remove(r.key) !in env.turns(w.step + 1).foreign && Remove(r.key) !in env.turns(w2.step + 1).foreign
  {
    hide Kubectl, Assigned, ApplyOne, Replay;
    var (r', _, w1) := ApplyOne(env, w, r);
    ApplyOneRun(env, w, r);
    ReachesSteps(env, w, w1);
    ReachesSteps(env, w1, w2);
    AssignedBelow(env, w, r);
    OwnershipProbeExact(env, w, r);
    DeletedObject(env, w2, r');
  }

  lemma AssignedBelow(env: Env, w: World, r: Resource)
    requires Wf(w) && !r.existed && r.createdUid.None?
    ensures Assigned(env, w, r).Some? ==> Assigned(env, w, r).value < ApplyOne(env, w, r).2.next
  {
    hide Kubectl, Assigned;
    AssignedIsFresh(env, w, r);
    var w1 := Kubectl(env, w, Apply(r.key, r.desired)).1;
    CallFrame(env, w1, Get(r.key));
  }

  // What the delete of a rollback step hits.
  lemma DeletedObject(env: Env, w: World, r: Resource)
    requires Wf(w) && !r.existed
    requires var log := New(w, RestoreOne(env, w, r).1);
             |log| >= 2 && log[1].call == Delete(r.key) && log[1].wrote.Some?
    ensures var wrote := New(w, RestoreOne(env, w, r).1)[1].wrote;
            if Remove(r.key) in env.turns(w.step + 1).foreign then w.next <= wrote.value && wrote != r.createdUid
            else wrote == r.createdUid
  {
    hide Kubectl, Replay, WaitAbsent;
    var (probe, w1) := Kubectl(env, w, Get(r.key));
    ReachesSelf(env, w);
    ReachesCall(env, w, w, Get(r.key));
    GetReports(env, w, r.key);
    CallFrame(env, w, Get(r.key));
    var w2 := Kubectl(env, w1, Delete(r.key)).1;
    ReachesCall(env, w, w1, Delete(r.key));
    var w3 := RestoreOne(env, w, r).1;
    DeleteSecond(env, w, r);
    DeleteExact(env, w1, r.key);
    DeleteHits(env, w1, r.key);
  }

  lemma DeleteHits(env: Env, w: World, key: Key)
    requires Wf(w) && key in w.objects && Last(Kubectl(env, w, Delete(key)).1).value.wrote.Some?
    ensures var wrote := Last(Kubectl(env, w, Delete(key)).1).value.wrote.value;
            if Remove(key) in env.turns(w.step).foreign then w.next <= wrote && wrote != w.objects[key].uid
            else wrote == w.objects[key].uid
  {
    var foreign := env.turns(w.step).foreign;
    ActAllEvolves(w, foreign);
    UidSurvivesIffNotRemoved(w, foreign, key);
    if Remove(key) in foreign {
      RecreatedIsFresh(w, foreign, key);
    }
  }

  // The second call of a rollback step that deletes is the delete, made after the probe saw the recorded uid.
  lemma DeleteSecond(env: Env, w: World, r: Resource)
    requires Wf(w) && !r.existed
    requires var log := New(w, RestoreOne(env, w, r).1); |log| >= 2 && log[1].call == Delete(r.key)
    ensures var w1 := Kubectl(env, w, Get(r.key)).1;
            && r.key in w1.objects && r.createdUid == Some(w1.objects[r.key].uid)
            && Last(Kubectl(env, w1, Delete(r.key)).1) == Some(New(w, RestoreOne(env, w, r).1)[1])
  {
    hide Kubectl, Replay;
    var (probe, w1) := Kubectl(env, w, Get(r.key));
    ReachesSelf(env, w);
    ReachesCall(env, w, w, Get(r.key));
    GetReports(env, w, r.key);
    var (deleted, w2) := Kubectl(env, w1, Delete(r.key));
    ReachesCall(env, w, w1, Delete(r.key));
    if probe.ok && probe.seen.Some? && r.createdUid == Some(probe.seen.value.uid) && deleted.ok {
      WaitAbsentRun(env, w2, r.key, env.patience(w2.step));
      ReachesTransitive(env, w, w2, WaitAbsent(env, w2, r.key, env.patience(w2.step)).1);
    }
  }

  // ------------------------------------------------------------------ resources of unknown ownership

  // On a key that is free and left alone, one apply leaves a resource of unknown ownership exactly when it
  // committed and either timed out or was followed by a probe that failed.
  lemma OrphanExactly(env: Env, w: World, r: Resource)
    requires Wf(w) && !r.existed && r.createdUid.None? && r.key !in Arrival(env, w).objects
    requires env.turns(w.step).outcome.TimesOut? || Quiet(env.turns(w.step + 1).foreign, r.key)
    ensures var (r', _, w') := ApplyOne(env, w, r);
            Orphaned(w', r') <==>
            Commits(env.turns(w.step))
                && (env.turns(w.step).outcome.TimesOut? || !env.turns(w.step + 1).outcome.Succeeds?)
  {
    hide Kubectl, Assigned;
    AssignedIsFresh(env, w, r);
    RaisedMeansTimedOut(env, w, Apply(r.key, r.desired));
    var w1 := Kubectl(env, w, Apply(r.key, r.desired)).1;
    if !env.turns(w.step).outcome.TimesOut? {
      ActAllQuiet(w1, env.turns(w1.step).foreign, r.key);
      ProbeSees(env, w1, r.key);
      CallKeepsOthers(env, w1, Get(r.key), r.key);
    }
  }

  lemma RaisedMeansTimedOut(env: Env, w: World, call: Call)
    ensures Kubectl(env, w, call).0.raised == env.turns(w.step).outcome.TimesOut?
  {}

  // Such a resource stays: as long as others leave it alone, its rollback fails whatever the calls do.
  lemma OrphanIsNotDeleted(env: Env, w: World, r: Resource)
    requires Wf(w) && Orphaned(w, r) && Quiet(env.turns(w.step).foreign, r.key)
    ensures var (ok, w') := RestoreOne(env, w, r); !ok && r.key in w'.objects
  {
    ActAllQuiet(w, env.turns(w.step).foreign, r.key);
  }

  // An apply that is committed but times out ends the transaction with an orphan the rollback reports.
  lemma TimedOutApplyIsOrphaned(env: Env, w: World, r: Resource)
    requires Wf(w) && !r.existed && r.createdUid.None? && r.key !in w.objects
    requires env.turns(w.step) == Turn([], TimesOut(true), false) && Quiet(env.turns(w.step + 1).foreign, r.key)
    ensures var (r', applied, w') := ApplyOne(env, w, r);
            !applied && Orphaned(w', r') && !RestoreOne(env, w', r').0 && r.key in RestoreOne(env, w', r').1.objects
  {
    hide RestoreOne, Kubectl;
    OrphanExactly(env, w, r);
    AssignedIsFresh(env, w, r);
    RaisedMeansTimedOut(env, w, Apply(r.key, r.desired));
    OrphanIsNotDeleted(env, ApplyOne(env, w, r).2, ApplyOne(env, w, r).0);
  }

  // ------------------------------------------------------------------ two ways to delete what others created

  // An object another actor creates between the snapshot and the apply is adopted and then deleted by a
  // rollback that reports no failure.
  lemma AdoptionDeletesForeignObject(env: Env, w: World, r: Resource, body: Body)
    requires Wf(w) && r.key !in w.objects && !r.existed && r.createdUid.None?
    requires env.turns(w.step).foreign == [Put(r.key, body)] && env.turns(w.step).outcome.Succeeds?
    requires forall s: nat | w.step < s :: env.turns(s) == Turn([], Succeeds, false) && env.patience(s) > 0
    ensures var (r', applied, w1) := ApplyOne(env, w, r);
            var (restored, w2) := RestoreOne(env, w1, r');
            && applied && restored && r.key !in w2.objects
            && r'.createdUid == Some(w.next) && Live(Arrival(env, w), r.key) == Some(Object(w.next, w.next, body))
  {
    hide RestoreOne, Kubectl, ActAll;
    ForeignCreation(env, w, r, body);
    var w0 := Kubectl(env, w, Apply(r.key, r.desired)).1;
    CalmCall(env, w0, Get(r.key));
    var (r', applied, w1) := ApplyOne(env, w, r);
    RestoreOneCalm(env, w1, [r'], r');
    RestoreOneRun(env, w1, r');
  }

  // The foreign object is there as the apply arrives, and the apply writes to it.
  lemma ForeignCreation(env: Env, w: World, r: Resource, body: Body)
    requires Wf(w) && r.key !in w.objects
    requires env.turns(w.step).foreign == [Put(r.key, body)] && env.turns(w.step).outcome.Succeeds?
    ensures Live(Arrival(env, w), r.key) == Some(Object(w.next, w.next, body))
    ensures var (reply, w0) := Kubectl(env, w, Apply(r.key, r.desired));
            && Wf(w0) && w0.step == w.step + 1 && reply.ok && !reply.raised
            && r.key in w0.objects && w0.objects[r.key].uid == w.next
  {
    assert ActAll(w, [Put(r.key, body)]) == Act(w, Put(r.key, body)) by {
      assert [Put(r.key, body)][1..] == [];
    }
    CallFrame(env, w, Apply(r.key, r.desired));
  }

  // So is an object that another actor creates after the runner's apply was refused and before the probe,
  // although the key was free as the apply arrived and nobody removed anything.
  lemma RefusedApplyAdoptsLaterObject(env: Env, w: World, r: Resource, body: Body)
    requires Wf(w) && r.key !in w.objects && !r.existed && r.createdUid.None?
    requires env.turns(w.step) == Turn([], Fails(false), false)
    requires env.turns(w.step + 1) == Turn([Put(r.key, body)], Succeeds, false)
    requires forall s: nat | w.step + 1 < s :: env.turns(s) == Turn([], Succeeds, false) && env.patience(s) > 0
    ensures var (r', applied, w1) := ApplyOne(env, w, r);
            var (restored, w2) := RestoreOne(env, w1, r');
            && !applied && restored && r.key !in w2.objects
            && r'.createdUid.Some? && r'.createdUid != Assigned(env, w, r)
            && Live(w1, r.key) == Some(Object(r'.createdUid.value, w.next, body)) && r.key !in Arrival(env, w).objects
  {
    hide RestoreOne;
    var w0 := Kubectl(env, w, Apply(r.key, r.desired)).1;
    CallFrame(env, w, Apply(r.key, r.desired));
    assert ActAll(w0, [Put(r.key, body)]) == Act(w0, Put(r.key, body)) by {
      assert [Put(r.key, body)][1..] == [];
    }
    CallFrame(env, w0, Get(r.key));
    var (r', applied, w1) := ApplyOne(env, w, r);
    RestoreOneCalm(env, w1, [r'], r');
    RestoreOneRun(env, w1, r');
  }
}
