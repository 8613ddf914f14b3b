/** The publisher transaction from the snapshot to the end of the rollback. */
module TransactionProofs {
  import opened Cluster
  import opened Options
  import opened PublisherSpec
  import opened PublisherProofs

  ghost predicate DistinctDocuments(docs: seq<Document>) {
    forall i, j | 0 <= i < j < |docs| :: docs[i].key != docs[j].key
  }

  // r's snapshot fields describe what w holds under r's key.
  ghost predicate Records(w: World, r: Resource) {
    if r.existed then
      && r.prior.Some? && r.priorUid.Some? && r.key in w.objects
      && r.priorUid.value == r.prior.value.uid == w.objects[r.key].uid && r.prior.value.body == w.objects[r.key].body
    else r.key !in w.objects
  }

  ghost predicate ReadOnly(log: seq<Event>) {
    forall e <- log :: !Writes(e.call)
  }

  // One more probe of a run that has only read.
  lemma ProbeAfterReads(env: Env, w: World, w1: World, key: Key)
    requires Wf(w) && Wf(w1) && Reaches(env, w, w1) && ReadOnly(New(w, w1))
    ensures var w2 := Kubectl(env, w1, Get(key)).1;
            && Reaches(env, w, w2) && Wf(w2) && ReadOnly(New(w, w2)) && w.step <= w1.step < w2.step
            && (QuietDuring(env, key, w.step, w2.step) ==> Same(w, w2, key))
  {
    hide Kubectl, Replay;
    ReachesCall(env, w, w1, Get(key));
    var w2 := Kubectl(env, w1, Get(key)).1;
    ReachesSteps(env, w, w1);
    ReachesSteps(env, w, w2);
    if QuietDuring(env, key, w.step, w2.step) {
      UnwrittenKeyIsSame(env, w, w2, key);
    }
  }

  lemma {:induction false} SnapshotRun(env: Env, w: World, docs: seq<Document>, n: nat)
    requires Wf(w) && n <= |docs|
    ensures var (rs, w') := Snapshot(env, w, docs, n);
            && Reaches(env, w, w') && Wf(w') && ReadOnly(New(w, w'))
            && (rs.Some? ==>
                  && |rs.value| == n
                  && forall i | 0 <= i < n ::
                       && rs.value[i].key == docs[i].key && !rs.value[i].attempted && rs.value[i].createdUid.None?
                       && (UntilProbed(env, w, docs, i) ==> Records(w, rs.value[i])))
  {
    hide Kubectl, Reaches, ReadOnly, New;
    if n == 0 {
      NothingRead(env, w);
    } else {
      SnapshotRun(env, w, docs, n - 1);
      var (before, w1) := Snapshot(env, w, docs, n - 1);
      if before.Some? {
        ProbeAfterReads(env, w, w1, docs[n - 1].key);
        GetReports(env, w1, docs[n - 1].key);
      }
    }
  }

  // Other actors leave document i alone until the snapshot has probed it.
  ghost predicate UntilProbed(env: Env, w: World, docs: seq<Document>, i: nat)
    requires i < |docs|
  {
    QuietDuring(env, docs[i].key, w.step, Snapshot(env, w, docs, i + 1).1.step)
  }

  lemma {:induction false} SnapshotSteps(env: Env, w: World, docs: seq<Document>, i: nat, n: nat)
    requires Wf(w) && i <= n <= |docs|
    ensures w.step <= Snapshot(env, w, docs, i).1.step <= Snapshot(env, w, docs, n).1.step
  {
    hide Kubectl, Replay;
    SnapshotRun(env, w, docs, i);
    ReachesSteps(env, w, Snapshot(env, w, docs, i).1);
    if i < n {
      SnapshotSteps(env, w, docs, i, n - 1);
      SnapshotRun(env, w, docs, n - 1);
      CallFrame(env, Snapshot(env, w, docs, n - 1).1, Get(docs[n - 1].key));
    }
  }

  lemma NothingRead(env: Env, w: World)
    ensures Reaches(env, w, w) && ReadOnly(New(w, w))
  {
    ReachesSelf(env, w);
  }

  // ------------------------------------------------------------------ apply

  // Apply changes nothing of what the snapshot recorded.
  ghost predicate SameSnapshot(r: Resource, r': Resource) {
    r' == r.(attempted := r'.attempted, createdUid := r'.createdUid)
  }

  ghost predicate WritesOnlyAttempted(log: seq<Event>, rs: seq<Resource>) {
    forall e <- log | Writes(e.call) :: exists r <- rs :: r.attempted && r.key == e.call.key
  }

  ghost predicate NoDeletes(log: seq<Event>) {
    forall e <- log :: !e.call.Delete?
  }

  lemma ApplyOneRun(env: Env, w: World, r: Resource)
    requires Wf(w) && !r.attempted && r.createdUid.None?
    ensures var (r', ok, w') := ApplyOne(env, w, r);
            && Reaches(env, w, w') && Wf(w') && SameSnapshot(r, r')
            && Footprint(New(w, w'), r.key) && NoDeletes(New(w, w'))
            && (!r'.attempted ==> ReadOnly(New(w, w')))
            && (ok ==> r'.attempted)
            && (r'.createdUid.Some? ==> r.key in w'.objects && w'.objects[r.key].uid == r'.createdUid.value)
  {
    hide Kubectl, Replay;
    ReachesSelf(env, w);
    if r.existed {
      var (probe, w1) := Kubectl(env, w, Get(r.key));
      ReachesCall(env, w, w, Get(r.key));
      ReachesCall(env, w, w1, Apply(r.key, r.desired));
    } else {
      var (applied, w1) := Kubectl(env, w, Apply(r.key, r.desired));
      ReachesCall(env, w, w, Apply(r.key, r.desired));
      ReachesCall(env, w, w1, Get(r.key));
      GetReports(env, w1, r.key);
    }
  }

  ghost predicate Unapplied(rs: seq<Resource>) {
    forall r <- rs :: !r.attempted && r.createdUid.None?
  }

  lemma {:induction false} ApplyLoopRun(env: Env, w: World, rs: seq<Resource>, n: nat)
    requires Wf(w) && n <= |rs| && Unapplied(rs)
    ensures var p := ApplyLoop(env, w, rs, n);
            && Reaches(env, w, p.world) && Wf(p.world)
            && (forall i | 0 <= i < |rs| :: SameSnapshot(rs[i], p.resources[i]))
            && (forall i | n <= i < |rs| :: p.resources[i] == rs[i])
            && (p.ok ==> forall i | 0 <= i < n :: p.resources[i].attempted)
            && WritesOnlyAttempted(New(w, p.world), p.resources) && NoDeletes(New(w, p.world))
  {
    hide Kubectl, Replay, ApplyOne;
    ReachesSelf(env, w);
    if n > 0 {
      ApplyLoopRun(env, w, rs, n - 1);
      var before := ApplyLoop(env, w, rs, n - 1);
      if before.ok {
        assert rs[n - 1] in rs;
        ApplyOneRun(env, before.world, rs[n - 1]);
        var p := ApplyLoop(env, w, rs, n);
        ReachesTransitive(env, w, before.world, p.world);
        forall e | e in New(w, p.world) && Writes(e.call)
          ensures exists r <- p.resources :: r.attempted && r.key == e.call.key
        {
          if e in New(before.world, p.world) {
            assert p.resources[n - 1] in p.resources;
          } else {
            var r :| r in before.resources && r.attempted && r.key == e.call.key;
            var i :| 0 <= i < |rs| && before.resources[i] == r;
            assert i != n - 1;
            assert p.resources[i] == r;
          }
        }
      }
    }
  }

  lemma SetPublicBaseUrlRun(env: Env, w: World, url: Option<PublicUrl>)
    requires Wf(w)
    ensures var w' := SetPublicBaseUrl(env, w, url).1;
            && Reaches(env, w, w') && Wf(w') && Footprint(New(w, w'), PUBLISHER_DEPLOYMENT) && NoDeletes(New(w, w'))
  {
    hide Kubectl, Replay, BaseUrlArgument, AllowHttpArgument;
    ReachesSelf(env, w);
    if url.Some? {
      var edit := Edit(PUBLISHER_DEPLOYMENT, BaseUrlArgument(url.value));
      var (base, w1) := Kubectl(env, w, edit);
      ReachesCall(env, w, w, edit);
      if base.ok {
        var allow := Edit(PUBLISHER_DEPLOYMENT, AllowHttpArgument(url.value));
        var (opt, w2) := Kubectl(env, w1, allow);
        ReachesCall(env, w, w1, allow);
        if opt.ok {
          ReachesCall(env, w, w2, Rollout(PUBLISHER_DEPLOYMENT));
        }
      }
    }
  }

  ghost predicate HasDeployment(rs: seq<Resource>) {
    exists i :: 0 <= i < |rs| && rs[i].key == PUBLISHER_DEPLOYMENT
  }

  lemma ApplyAllRun(env: Env, w: World, rs: seq<Resource>, url: Option<PublicUrl>)
    requires Wf(w) && Unapplied(rs) && HasDeployment(rs)
    ensures var p := ApplyAll(env, w, rs, url);
            && Reaches(env, w, p.world) && Wf(p.world)
            && (forall i | 0 <= i < |rs| :: SameSnapshot(rs[i], p.resources[i]))
            && WritesOnlyAttempted(New(w, p.world), p.resources) && NoDeletes(New(w, p.world))
  {
    hide Kubectl, Replay, ApplyOne, SetPublicBaseUrl;
    ReachesSelf(env, w);
    if |rs| == MANIFEST_SIZE {
      ApplyLoopRun(env, w, rs, |rs|);
      var loop := ApplyLoop(env, w, rs, |rs|);
      if loop.ok {
        SetPublicBaseUrlRun(env, loop.world, url);
        ReachesTransitive(env, w, loop.world, ApplyAll(env, w, rs, url).world);
        var i :| 0 <= i < |rs| && rs[i].key == PUBLISHER_DEPLOYMENT;
        assert loop.resources[i] in loop.resources;
      }
    }
  }

  // ------------------------------------------------------------------ snapshot, apply, rollback

  ghost predicate ManifestOk(docs: seq<Document>) {
    DistinctDocuments(docs) && exists i :: 0 <= i < |docs| && docs[i].key == PUBLISHER_DEPLOYMENT
  }

  lemma BeginRun(env: Env, w: World, docs: seq<Document>, url: Option<PublicUrl>)
    requires Wf(w) && ManifestOk(docs) && Begin(env, w, docs, url).Some?
    ensures var t := Begin(env, w, docs, url).value;
            && Reaches(env, w, t.after) && Wf(t.after)
            && |t.resources| == |docs| && DistinctKeys(t.resources)
            && (forall i | 0 <= i < |docs| ::
                  && t.resources[i].key == docs[i].key
                  && (UntilProbed(env, w, docs, i) ==> Records(w, t.resources[i])))
            && WritesOnlyAttempted(New(w, t.after), t.resources) && NoDeletes(New(w, t.after))
  {
    hide Kubectl, Replay, ApplyAll, Snapshot;
    SnapshotRun(env, w, docs, |docs|);
    var (snapshot, w1) := Snapshot(env, w, docs, |docs|);
    var rs := snapshot.value;
    var d :| 0 <= d < |docs| && docs[d].key == PUBLISHER_DEPLOYMENT;
    assert rs[d].key == PUBLISHER_DEPLOYMENT;
    ApplyAllRun(env, w1, rs, url);
    var t := Begin(env, w, docs, url).value;
    ReachesTransitive(env, w, w1, t.after);
    ReachesSteps(env, w, w1);
    ReachesSteps(env, w1, t.after);
  }

  lemma UnattemptedIsUnwritten(log: seq<Event>, rs: seq<Resource>, i: nat)
    requires WritesOnlyAttempted(log, rs) && DistinctKeys(rs) && i < |rs| && !rs[i].attempted
    ensures !WritesKey(log, rs[i].key)
  {}

  lemma OwnedIsAttempted(log: seq<Event>, rs: seq<Resource>)
    requires AllOwnedBySome(log, rs)
    ensures WritesOnlyAttempted(log, rs)
  {
    forall e | e in log && Writes(e.call)
      ensures exists r <- rs :: r.attempted && r.key == e.call.key
    {
      var j :| 0 <= j < |log| && log[j] == e;
      assert OwnedBySome(log, j, rs);
    }
  }

  // Scope: in any environment the transaction and its rollback write to attempted resources only.
  lemma TransactionScope(env: Env, w: World, docs: seq<Document>, url: Option<PublicUrl>)
    requires Wf(w) && ManifestOk(docs) && Begin(env, w, docs, url).Some?
    ensures var t := Begin(env, w, docs, url).value;
            var w' := RestoreAll(env, t.after, t.resources).1;
            Reaches(env, w, w') && WritesOnlyAttempted(New(w, w'), t.resources)
  {
    hide Kubectl, Replay, Begin, RestoreAll;
    BeginRun(env, w, docs, url);
    var t := Begin(env, w, docs, url).value;
    var w' := RestoreAll(env, t.after, t.resources).1;
    RollbackOwnership(env, t.after, t.resources);
    OwnedIsAttempted(New(t.after, w'), t.resources);
    ReachesTransitive(env, w, t.after, w');
  }

  // What the result about document i asks of other actors: to leave it alone until it is probed and once
  // its own rollback is over or, if it was never attempted, throughout.
  ghost predicate Undisputed(env: Env, w: World, docs: seq<Document>, i: nat, w1: World, rs: seq<Resource>)
    requires i < |docs| == |rs|
  {
    if rs[i].attempted then UntilProbed(env, w, docs, i) && LeftAlone(env, w1, rs, i)
    else QuietDuring(env, docs[i].key, w.step, RestoreAll(env, w1, rs).1.step)
  }

  // The rollback undoes the transaction: whatever prefix of apply ran and whichever calls failed, if the
  // rollback reports no failure then each undisputed manifest key holds the same object with the same body as
  // before the snapshot, or is absent as it was. Edits by others in between do no harm.
  lemma RollbackUndoesTransaction(env: Env, w: World, docs: seq<Document>, url: Option<PublicUrl>, i: nat)
    requires Wf(w) && ManifestOk(docs) && i < |docs| && Begin(env, w, docs, url).Some?
    requires var t := Begin(env, w, docs, url).value;
             |t.resources| == |docs| && RestoreAll(env, t.after, t.resources).0 == []
                 && Undisputed(env, w, docs, i, t.after, t.resources)
    ensures var t := Begin(env, w, docs, url).value;
            Same(w, RestoreAll(env, t.after, t.resources).1, docs[i].key)
  {
    hide Kubectl, Replay, Begin, RestoreAll;
    BeginRun(env, w, docs, url);
    var t := Begin(env, w, docs, url).value;
    var w' := RestoreAll(env, t.after, t.resources).1;
    if t.resources[i].attempted {
      RollbackSoundness(env, t.after, t.resources, i);
    } else {
      TransactionScope(env, w, docs, url);
      UnattemptedIsUnwritten(New(w, w'), t.resources, i);
      UnwrittenKeyIsSame(env, w, w', docs[i].key);
    }
  }

  // ------------------------------------------------------------------ prepare: all or nothing

  lemma QuietIsUndisputed(env: Env, w: World, docs: seq<Document>, url: Option<PublicUrl>, i: nat)
    requires Wf(w) && ManifestOk(docs) && i < |docs| && Begin(env, w, docs, url).Some?
    requires var t := Begin(env, w, docs, url).value;
             QuietDuring(env, docs[i].key, w.step, RestoreAll(env, t.after, t.resources).1.step)
    ensures var t := Begin(env, w, docs, url).value;
            |t.resources| == |docs| && Undisputed(env, w, docs, i, t.after, t.resources)
  {
    hide Kubectl, Replay, RestoreLoop, ApplyAll, Snapshot;
    BeginRun(env, w, docs, url);
    var t := Begin(env, w, docs, url).value;
    BeginSteps(env, w, docs, url);
    RollbackOwnership(env, t.after, t.resources);
    ReachesSteps(env, t.after, RestoreAll(env, t.after, t.resources).1);
    SnapshotSteps(env, w, docs, i + 1, |docs|);
    RestoreLoopSteps(env, t.after, t.resources, 0, i);
  }

  lemma BeginSteps(env: Env, w: World, docs: seq<Document>, url: Option<PublicUrl>)
    requires Wf(w) && ManifestOk(docs) && Begin(env, w, docs, url).Some?
    ensures Snapshot(env, w, docs, |docs|).1.step <= Begin(env, w, docs, url).value.after.step
  {
    hide Kubectl, Replay, ApplyAll, Snapshot;
    SnapshotRun(env, w, docs, |docs|);
    var (snapshot, w1) := Snapshot(env, w, docs, |docs|);
    var d :| 0 <= d < |docs| && docs[d].key == PUBLISHER_DEPLOYMENT;
    assert snapshot.value[d].key == PUBLISHER_DEPLOYMENT;
    ApplyAllRun(env, w1, snapshot.value, url);
    ReachesSteps(env, w1, Begin(env, w, docs, url).value.after);
  }

  // A preparation that fails without a restore failure leaves every manifest key that other actors left
  // alone as it found it.
  lemma PrepareAllOrNothing(env: Env, w: World, docs: seq<Document>, url: Option<PublicUrl>, dryRun: bool, i: nat)
    requires Wf(w) && ManifestOk(docs) && i < |docs|
    requires Prepare(env, w, docs, url, dryRun).0 == Failed(false)
    requires QuietDuring(env, docs[i].key, w.step, Prepare(env, w, docs, url, dryRun).1.step)
    ensures Same(w, Prepare(env, w, docs, url, dryRun).1, docs[i].key)
  {
    hide Kubectl, Replay, ApplyAll, Snapshot, RestoreAll;
    var (snapshot, w1) := Snapshot(env, w, docs, |docs|);
    if !dryRun {
    } else if snapshot.None? {
      SnapshotRun(env, w, docs, |docs|);
      UnwrittenKeyIsSame(env, w, w1, docs[i].key);
    } else {
      BeginRun(env, w, docs, url);
      var t := Begin(env, w, docs, url).value;
      if !Started(t.resources) {
        UnattemptedIsUnwritten(New(w, t.after), t.resources, i);
        UnwrittenKeyIsSame(env, w, t.after, docs[i].key);
      } else {
        QuietIsUndisputed(env, w, docs, url, i);
        RollbackUndoesTransaction(env, w, docs, url, i);
      }
    }
  }
}
