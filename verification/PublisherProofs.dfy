/** What the publisher transaction guarantees. */
module PublisherProofs {
  import opened Cluster
  import opened Options
  import opened PublisherSpec

  // ------------------------------------------------------------------ what one rollback step may write

  ghost predicate Footprint(log: seq<Event>, key: Key) {
    forall e <- log :: e.call.key == key
  }

  // Event j of a rollback acts on r's own object: a replace that commits hits the object that was
  // there before, and a delete directly follows a probe that saw the object the runner created.
  ghost predicate Owned(log: seq<Event>, j: nat, r: Resource)
    requires j < |log|
  {
    match log[j].call
    case Get(_) => true
    case Rollout(_) => true
    case Endpoints(_) => true
    case Replace(_, _, body) =>
      r.existed && (log[j].wrote.Some? ==> log[j].wrote == r.priorUid) && r.prior.Some? && body == r.prior.value.body
    case Delete(_) =>
      && !r.existed && j > 0 && log[j - 1].call == Get(r.key)
      && log[j - 1].reply.seen.Some? && r.createdUid == Some(log[j - 1].reply.seen.value.uid)
    case Apply(_, _) => false
    case Edit(_, _) => false
  }

  ghost predicate AllOwned(log: seq<Event>, r: Resource) {
    Footprint(log, r.key) && forall j | 0 <= j < |log| :: Owned(log, j, r)
  }

  // An update guarded by the version of a probe commits only on the very object the probe saw.
  lemma CompareAndSwap(env: Env, w: World, key: Key, body: Body, seen: Object)
    requires Wf(w) && Live(w, key) == Some(seen)
    ensures var (reply, w') := Kubectl(env, w, Replace(key, seen.version, body));
            && Last(w').Some? && (Last(w').value.wrote.Some? ==> Last(w').value.wrote == Some(seen.uid))
            && (reply.ok ==> key in w'.objects && w'.objects[key].uid == seen.uid && w'.objects[key].body == body)
  {
    ActAllEvolves(w, env.turns(w.step).foreign);
  }

  lemma {:induction false} WaitAbsentRun(env: Env, w: World, key: Key, patience: nat)
    requires Wf(w)
    ensures var (ok, w') := WaitAbsent(env, w, key, patience);
            && Reaches(env, w, w') && Wf(w')
            && (forall e <- New(w, w') :: e.call == Get(key))
            && (ok ==> key !in w'.objects)
    decreases patience
  {
    hide Kubectl;
    ReachesSelf(env, w);
    if patience > 0 {
      var (probe, w1) := Kubectl(env, w, Get(key));
      ReachesCall(env, w, w, Get(key));
      GetReports(env, w, key);
      if probe.ok && probe.seen.Some? {
        WaitAbsentRun(env, w1, key, patience - 1);
        ReachesTransitive(env, w, w1, WaitAbsent(env, w1, key, patience - 1).1);
      }
    }
  }

  // The state a successful rollback of r has to leave behind.
  ghost predicate Restored(w: World, r: Resource) {
    if r.existed then
      && r.prior.Some? && r.priorUid.Some? && r.key in w.objects
      && w.objects[r.key].uid == r.priorUid.value && w.objects[r.key].body == r.prior.value.body
    else r.key !in w.objects
  }

  lemma RestoreOneRun(env: Env, w: World, r: Resource)
    requires Wf(w)
    ensures var (ok, w') := RestoreOne(env, w, r);
            && Reaches(env, w, w') && Wf(w')
            && New(w, w') != [] && New(w, w')[0].call == Get(r.key)
            && AllOwned(New(w, w'), r)
            && (ok ==> Restored(w', r))
  {
    hide Kubectl;
    var get := Get(r.key);
    var (probe, w1) := Kubectl(env, w, get);
    ReachesSelf(env, w);
    ReachesCall(env, w, w, get);
    GetReports(env, w, r.key);
    if probe.ok && probe.seen.Some? {
      var seen := probe.seen.value;
      if r.existed && r.prior.Some? && Some(seen.uid) == r.priorUid {
        ReachesCall(env, w, w1, Replace(r.key, seen.version, r.prior.value.body));
        CompareAndSwap(env, w1, r.key, r.prior.value.body, seen);
      } else if !r.existed && r.createdUid == Some(seen.uid) {
        RestoreByDelete(env, w, w1, r, seen);
      }
    }
  }

  lemma RestoreByDelete(env: Env, w: World, w1: World, r: Resource, seen: Object)
    requires Wf(w) && Wf(w1) && Reaches(env, w, w1) && |New(w, w1)| == 1
    requires New(w, w1)[0].call == Get(r.key) && New(w, w1)[0].reply.seen == Some(seen)
    requires !r.existed && r.createdUid == Some(seen.uid)
    ensures var (ok, w') := DeleteCreatedObject(env, w1, r, Some(seen));
            && Reaches(env, w, w') && Wf(w')
            && New(w, w') != [] && New(w, w')[0] == New(w, w1)[0]
            && AllOwned(New(w, w'), r)
            && (ok ==> Restored(w', r))
  {
    hide Kubectl;
    ReachesCall(env, w, w1, Delete(r.key));
    var (deleted, w2) := Kubectl(env, w1, Delete(r.key));
    var first := New(w, w2);
    if deleted.ok {
      WaitAbsentRun(env, w2, r.key, env.patience(w2.step));
      var (ok, w') := WaitAbsent(env, w2, r.key, env.patience(w2.step));
      ReachesTransitive(env, w, w2, w');
      forall j | 0 <= j < |New(w, w')|
        ensures Owned(New(w, w'), j, r) && New(w, w')[j].call.key == r.key
      {
        if j >= 2 {
          assert New(w, w')[j] == New(w2, w')[j - 2];
        }
      }
    }
  }

  // ------------------------------------------------------------------ the whole rollback

  ghost predicate DistinctKeys(rs: seq<Resource>) {
    forall i, j | 0 <= i < j < |rs| :: rs[i].key != rs[j].key
  }

  ghost predicate OwnedBySome(log: seq<Event>, j: nat, rs: seq<Resource>)
    requires j < |log|
  {
    exists r <- rs :: r.attempted && r.key == log[j].call.key && Owned(log, j, r)
  }

  ghost predicate AllOwnedBySome(log: seq<Event>, rs: seq<Resource>) {
    forall j | 0 <= j < |log| :: OwnedBySome(log, j, rs)
  }

  ghost predicate Probes(log: seq<Event>, key: Key) {
    exists e <- log :: e.call == Get(key)
  }

  lemma OwnedAppend(a: seq<Event>, b: seq<Event>, rs: seq<Resource>)
    requires AllOwnedBySome(a, rs) && AllOwnedBySome(b, rs)
    ensures AllOwnedBySome(a + b, rs)
  {
    forall j | 0 <= j < |a + b|
      ensures OwnedBySome(a + b, j, rs)
    {
      if j < |a| {
        assert OwnedBySome(a, j, rs);
        var r :| r in rs && r.attempted && r.key == a[j].call.key && Owned(a, j, r);
        assert Owned(a + b, j, r);
      } else {
        assert OwnedBySome(b, j - |a|, rs);
        var r :| r in rs && r.attempted && r.key == b[j - |a|].call.key && Owned(b, j - |a|, r);
        assert Owned(a + b, j, r);
      }
    }
  }

  lemma ReachesSteps(env: Env, w: World, w': World)
    requires Wf(w) && Reaches(env, w, w')
    ensures w.step <= w'.step && w'.step == w.step + |New(w, w')| && Evolves(w, w')
  {
    RunEvolves(env, w, Calls(New(w, w')));
  }

  // However other actors interfere and whichever calls fail: each commit of the rollback hits an
  // object the runner owns, and every attempted resource is probed, whatever happened to the others.
  lemma {:induction false} RestoreLoopRun(env: Env, w: World, rs: seq<Resource>, n: nat)
    requires Wf(w) && n <= |rs|
    ensures var w' := RestoreLoop(env, w, rs, n).1;
            && Reaches(env, w, w') && Wf(w')
            && AllOwnedBySome(New(w, w'), rs)
            && (forall i | n <= i < |rs| && rs[i].attempted :: Probes(New(w, w'), rs[i].key))
    decreases |rs| - n
  {
    hide Kubectl, RestoreOne, Replay, Owned;
    ReachesSelf(env, w);
    if n < |rs| {
      RestoreLoopRun(env, w, rs, n + 1);
      var w1 := RestoreLoop(env, w, rs, n + 1).1;
      if rs[n].attempted {
        RestoreOneRun(env, w1, rs[n]);
        var w2 := RestoreOne(env, w1, rs[n]).1;
        ReachesTransitive(env, w, w1, w2);
        forall j | 0 <= j < |New(w1, w2)|
          ensures OwnedBySome(New(w1, w2), j, rs)
        {
          assert rs[n] in rs && Owned(New(w1, w2), j, rs[n]);
        }
        OwnedAppend(New(w, w1), New(w1, w2), rs);
        assert New(w1, w2)[0] in New(w, w2);
      }
    }
  }

  // A rollback loop without failures leaves every attempted resource restored, provided other actors leave
  // that resource's key alone once its own turn is over; until then uid check and compare-and-swap protect
  // it, and other keys may be disturbed at will.
  lemma {:induction false} RestoreLoopRestores(env: Env, w: World, rs: seq<Resource>, n: nat, i: nat)
    requires Wf(w) && n <= i < |rs| && DistinctKeys(rs) && rs[i].attempted
    requires RestoreLoop(env, w, rs, n).0 == []
    requires QuietDuring(env, rs[i].key, RestoreLoop(env, w, rs, i).1.step, RestoreLoop(env, w, rs, n).1.step)
    ensures Restored(RestoreLoop(env, w, rs, n).1, rs[i])
    ensures RestoreLoop(env, w, rs, i).1.step <= RestoreLoop(env, w, rs, n).1.step
    decreases |rs| - n
  {
    hide Kubectl, RestoreOne, Replay;
    RestoreLoopRun(env, w, rs, n + 1);
    var w1 := RestoreLoop(env, w, rs, n + 1).1;
    if rs[n].attempted {
      RestoreOneRun(env, w1, rs[n]);
      var w2 := RestoreOne(env, w1, rs[n]).1;
      ReachesSteps(env, w1, w2);
      if i > n {
        RestoreLoopRestores(env, w, rs, n + 1, i);
        UnwrittenKeyIsSame(env, w1, w2, rs[i].key);
      }
    } else if i > n {
      RestoreLoopRestores(env, w, rs, n + 1, i);
    }
  }

  lemma {:induction false} DeploymentExistedSource(rs: seq<Resource>, n: nat)
    requires n <= |rs| && DeploymentExisted(rs, n)
    ensures exists r <- rs :: r.attempted && r.key == PUBLISHER_DEPLOYMENT
    decreases |rs| - n
  {
    if rs[n].attempted && rs[n].key == PUBLISHER_DEPLOYMENT {
      assert rs[n] in rs;
    } else {
      DeploymentExistedSource(rs, n + 1);
    }
  }

  // Ownership under interference, for the whole rollback.
  lemma RollbackOwnership(env: Env, w: World, rs: seq<Resource>)
    requires Wf(w)
    ensures var w' := RestoreAll(env, w, rs).1;
            && Reaches(env, w, w') && Wf(w')
            && AllOwnedBySome(New(w, w'), rs)
            && (forall r <- rs | r.attempted :: Probes(New(w, w'), r.key))
  {
    hide Kubectl, RestoreOne;
    RestoreLoopRun(env, w, rs, 0);
    var w1 := RestoreLoop(env, w, rs, 0).1;
    if DeploymentExisted(rs, 0) {
      ReachesCall(env, w, w1, Rollout(PUBLISHER_DEPLOYMENT));
      var w2 := RestoreAll(env, w, rs).1;
      DeploymentExistedSource(rs, 0);
      assert New(w1, w2) == [Last(w2).value];
      OwnedAppend(New(w, w1), [Last(w2).value], rs);
    }
  }

  // From the end of its own turn in the rollback on, other actors leave resource i alone.
  ghost predicate LeftAlone(env: Env, w: World, rs: seq<Resource>, i: nat)
    requires i < |rs|
  {
    QuietDuring(env, rs[i].key, RestoreLoop(env, w, rs, i).1.step, RestoreAll(env, w, rs).1.step)
  }

  // Rollback soundness: no failure reported means every attempted resource whose key other actors left
  // alone after it was handled is back to its prior object and body, or gone if it was not there before.
  lemma RollbackSoundness(env: Env, w: World, rs: seq<Resource>, i: nat)
    requires Wf(w) && DistinctKeys(rs) && i < |rs| && rs[i].attempted
    requires RestoreAll(env, w, rs).0 == [] && LeftAlone(env, w, rs, i)
    ensures Restored(RestoreAll(env, w, rs).1, rs[i])
  {
    hide Kubectl, RestoreOne;
    RestoreLoopRun(env, w, rs, 0);
    RestoreLoopRun(env, w, rs, i);
    RestoreLoopSteps(env, w, rs, 0, i);
    var w1 := RestoreLoop(env, w, rs, 0).1;
    if DeploymentExisted(rs, 0) {
      CallFrame(env, w1, Rollout(PUBLISHER_DEPLOYMENT));
      CallKeepsOthers(env, w1, Rollout(PUBLISHER_DEPLOYMENT), rs[i].key);
    }
    RestoreLoopRestores(env, w, rs, 0, i);
  }

  lemma {:induction false} RestoreLoopSteps(env: Env, w: World, rs: seq<Resource>, n: nat, i: nat)
    requires Wf(w) && n <= i <= |rs|
    ensures w.step <= RestoreLoop(env, w, rs, i).1.step <= RestoreLoop(env, w, rs, n).1.step
    decreases |rs| - n
  {
    hide Kubectl, RestoreOne, Replay;
    RestoreLoopRun(env, w, rs, n);
    ReachesSteps(env, w, RestoreLoop(env, w, rs, n).1);
    if n < i {
      RestoreLoopSteps(env, w, rs, n + 1, i);
      RestoreLoopRun(env, w, rs, n + 1);
      var w1 := RestoreLoop(env, w, rs, n + 1).1;
      if rs[n].attempted {
        RestoreOneRun(env, w1, rs[n]);
        ReachesSteps(env, w1, RestoreOne(env, w1, rs[n]).1);
      }
    }
  }
}
