/** The runner itself: records that are updated in place and loops that stop at the first failure. */
module PublisherRunner {
  import opened Cluster
  import opened Options
  import opened PublisherSpec

  class PublisherResource {
    const key: Key
    const desired: Body
    var existed: bool
    var prior: Option<Object>
    var priorUid: Option<nat>
    var createdUid: Option<nat>
    var mutationAttempted: bool

    function Value(): Resource
      reads this
    {
      Resource(key, desired, existed, prior, priorUid, createdUid, mutationAttempted)
    }

    constructor (doc: Document)
      ensures Value() == Fresh(doc)
    {
      key, desired := doc.key, doc.body;
      existed, prior, priorUid, createdUid, mutationAttempted := false, None, None, None, false;
    }
  }

  function Values(rs: seq<PublisherResource>): (vs: seq<Resource>)
    reads rs
    ensures |vs| == |rs| && forall i | 0 <= i < |rs| :: vs[i] == rs[i].Value()
  {
    seq(|rs|, i requires 0 <= i < |rs| reads rs => rs[i].Value())
  }

  ghost predicate Distinct(rs: seq<PublisherResource>) {
    forall i, j | 0 <= i < j < |rs| :: rs[i] != rs[j]
  }

  class PublisherSnapshot {
    const resources: seq<PublisherResource>
    var mutationStarted: bool

    constructor (resources: seq<PublisherResource>)
      ensures this.resources == resources && !mutationStarted
    {
      this.resources := resources;
      mutationStarted := false;
    }

    ghost predicate Valid()
      reads this, resources
    {
      Distinct(resources) && mutationStarted == Started(Values(resources))
    }
  }

  lemma {:induction false} SnapshotFailureStays(env: Env, w: World, docs: seq<Document>, n: nat, m: nat)
    requires n <= m <= |docs| && Snapshot(env, w, docs, n).0.None?
    ensures Snapshot(env, w, docs, m) == Snapshot(env, w, docs, n)
  {
    hide SnapshotOne;
    if n < m {
      SnapshotFailureStays(env, w, docs, n, m - 1);
    }
  }

  lemma {:induction false} ApplyFailureStays(env: Env, w: World, rs: seq<Resource>, n: nat, m: nat)
    requires n <= m <= |rs| && !ApplyLoop(env, w, rs, n).ok
    ensures ApplyLoop(env, w, rs, m) == ApplyLoop(env, w, rs, n)
  {
    hide ApplyOne;
    if n < m {
      ApplyFailureStays(env, w, rs, n, m - 1);
    }
  }

  lemma SnapshotNothing(env: Env, w: World, docs: seq<Document>)
    ensures Snapshot(env, w, docs, 0) == (Some([]), w)
  {}

  lemma SnapshotNext(env: Env, w: World, docs: seq<Document>, i: nat, before: seq<Resource>, now: World)
    requires i < |docs| && Snapshot(env, w, docs, i) == (Some(before), now)
    ensures var (one, w1) := SnapshotOne(env, now, docs[i]);
            Snapshot(env, w, docs, i + 1) == if one.None? then (None, w1) else (Some(before + [one.value]), w1)
  {
    hide SnapshotOne;
  }

  lemma SnapshotIsFresh(env: Env, w: World, doc: Document)
    ensures SnapshotOne(env, w, doc).0.Some? ==> !SnapshotOne(env, w, doc).0.value.attempted
  {
    hide Kubectl;
  }

  lemma ApplyNothing(env: Env, w: World, rs: seq<Resource>)
    ensures ApplyLoop(env, w, rs, 0) == Progress(rs, true, w)
  {}

  lemma ApplyNext(env: Env, w: World, rs: seq<Resource>, i: nat, before: seq<Resource>, now: World)
    requires i < |rs| == |before| && ApplyLoop(env, w, rs, i) == Progress(before, true, now)
    ensures var (r, ok, w1) := ApplyOne(env, now, before[i]);
            ApplyLoop(env, w, rs, i + 1) == Progress(before[i := r], ok, w1)
  {
    hide ApplyOne;
  }

  lemma StartedIfAttempted(rs: seq<Resource>, i: nat)
    requires i < |rs|
    ensures rs[i].attempted ==> Started(rs)
  {}

  class Runner {
    const env: Env
    var world: World

    constructor (env: Env, world: World)
      ensures this.env == env && this.world == world
    {
      this.env, this.world := env, world;
    }

    method Call(call: Call) returns (reply: Reply)
      modifies this
      ensures (reply, world) == Kubectl(env, old(world), call)
    {
      var (r, w) := Kubectl(env, world, call);
      reply, world := r, w;
    }

    method SnapshotResource(doc: Document) returns (resource: Option<PublisherResource>)
      modifies this
      ensures resource.Some? ==> fresh(resource.value)
      ensures var (one, w) := SnapshotOne(env, old(world), doc);
              && world == w && resource.Some? == one.Some? && (one.Some? ==> resource.value.Value() == one.value)
    {
      hide Kubectl;
      var taken := new PublisherResource(doc);
      var prior := Call(Get(doc.key));
      if !prior.ok {
        return None;
      }
      if prior.seen.Some? {
        taken.existed := true;
        taken.prior := prior.seen;
        taken.priorUid := Some(prior.seen.value.uid);
      }
      return Some(taken);
    }

    method SnapshotPublisher(docs: seq<Document>) returns (snapshot: Option<PublisherSnapshot>)
      modifies this
      ensures var (rs, w) := Snapshot(env, old(world), docs, |docs|);
              && world == w && snapshot.Some? == rs.Some?
              && (snapshot.Some? ==>
                    && fresh(snapshot.value)
                    && (forall i | 0 <= i < |snapshot.value.resources| :: fresh(snapshot.value.resources[i]))
                    && snapshot.value.Valid() && Values(snapshot.value.resources) == rs.value
                    && !snapshot.value.mutationStarted)
    {
      hide Kubectl, Snapshot, SnapshotOne;
      SnapshotNothing(env, world, docs);
      var resources: seq<PublisherResource> := [];
      for i := 0 to |docs|
        invariant Distinct(resources) && forall j | 0 <= j < |resources| :: fresh(resources[j])
        invariant Snapshot(env, old(world), docs, i) == (Some(Values(resources)), world)
        invariant Unattempted(Values(resources))
      {
        ghost var before := Values(resources);
        SnapshotNext(env, old(world), docs, i, before, world);
        SnapshotIsFresh(env, world, docs[i]);
        var resource := SnapshotResource(docs[i]);
        if resource.None? {
          SnapshotFailureStays(env, old(world), docs, i + 1, |docs|);
          return None;
        }
        resources := resources + [resource.value];
        assert Values(resources) == before + [resource.value.Value()];
      }
      var s := new PublisherSnapshot(resources);
      return Some(s);
    }

    method ApplyResource(resource: PublisherResource, snapshot: PublisherSnapshot) returns (ok: bool)
      requires resource.mutationAttempted ==> snapshot.mutationStarted
      modifies this, resource, snapshot`mutationStarted
      ensures (resource.Value(), ok, world) == ApplyOne(env, old(world), old(resource.Value()))
      ensures old(resource.mutationAttempted) ==> resource.mutationAttempted
      ensures snapshot.mutationStarted == (old(snapshot.mutationStarted) || resource.mutationAttempted)
    {
      hide Kubectl;
      if resource.existed {
        var current := Call(Get(resource.key));
        if !current.ok || current.seen.None? || Some(current.seen.value.uid) != resource.priorUid {
          return false;
        }
      }
      snapshot.mutationStarted := true;
      resource.mutationAttempted := true;
      var applied := Call(Apply(resource.key, resource.desired));
      var owned := true;
      if !resource.existed {
        if applied.raised {
          return false;
        }
        var current := Call(Get(resource.key));
        if current.seen.None? {
          owned := false;
        } else {
          resource.createdUid := Some(current.seen.value.uid);
        }
      }
      return applied.ok && owned;
    }

    method SetPublisherPublicBaseUrl(url: Option<PublicUrl>) returns (ok: bool)
      modifies this
      ensures (ok, world) == SetPublicBaseUrl(env, old(world), url)
    {
      hide Kubectl;
      if url.None? {
        return false;
      }
      var reply := Call(Edit(PUBLISHER_DEPLOYMENT, BaseUrlArgument(url.value)));
      if !reply.ok {
        return false;
      }
      reply := Call(Edit(PUBLISHER_DEPLOYMENT, AllowHttpArgument(url.value)));
      if !reply.ok {
        return false;
      }
      reply := Call(Rollout(PUBLISHER_DEPLOYMENT));
      return reply.ok;
    }

    method ApplyPublisher(url: Option<PublicUrl>, snapshot: PublisherSnapshot) returns (ok: bool)
      requires snapshot.Valid()
      modifies this, snapshot`mutationStarted, snapshot.resources
      ensures var p := ApplyAll(env, old(world), old(Values(snapshot.resources)), url);
              ok == p.ok && world == p.world && Values(snapshot.resources) == p.resources
      ensures snapshot.Valid()
    {
      hide Kubectl, ApplyOne, Started, SetPublicBaseUrl, ApplyLoop;
      var rs := snapshot.resources;
      if |rs| != MANIFEST_SIZE {
        return false;
      }
      ghost var vs := Values(rs);
      ApplyNothing(env, world, vs);
      for i := 0 to |rs|
        invariant ApplyLoop(env, old(world), vs, i) == Progress(Values(rs), true, world)
        invariant snapshot.Valid()
      {
        ghost var before := Values(rs);
        StartedIfAttempted(before, i);
        ApplyNext(env, old(world), vs, i, before, world);
        var applied := ApplyResource(rs[i], snapshot);
        assert Values(rs) == before[i := rs[i].Value()];
        StartedAfter(before, i, rs[i].Value());
        if !applied {
          ApplyFailureStays(env, old(world), vs, i + 1, |rs|);
          return false;
        }
      }
      ok := SetPublisherPublicBaseUrl(url);
    }

    method WaitPublisherResourceAbsent(resource: PublisherResource, patience: nat) returns (ok: bool)
      modifies this
      ensures (ok, world) == WaitAbsent(env, old(world), resource.key, patience)
    {
      hide Kubectl;
      var left: nat := patience;
      while left > 0
        invariant 0 <= left <= patience
        invariant WaitAbsent(env, old(world), resource.key, patience) == WaitAbsent(env, world, resource.key, left)
      {
        var probe := Call(Get(resource.key));
        if !probe.ok {
          return false;
        }
        if probe.seen.None? {
          return true;
        }
        left := left - 1;
      }
      return false;
    }

    method RestorePublisherResource(resource: PublisherResource) returns (ok: bool)
      modifies this
      ensures (ok, world) == RestoreOne(env, old(world), resource.Value())
    {
      hide Kubectl;
      var current := Call(Get(resource.key));
      if !current.ok {
        return false;
      }
      if resource.existed {
        if resource.prior.None? || resource.priorUid.None? {
          return false;
        }
        if current.seen.None? || Some(current.seen.value.uid) != resource.priorUid {
          return false;
        }
        var replaced := Call(Replace(resource.key, current.seen.value.version, resource.prior.value.body));
        return replaced.ok;
      }
      if current.seen.None? {
        return true;
      }
      if resource.createdUid != Some(current.seen.value.uid) {
        return false;
      }
      var deleted := Call(Delete(resource.key));
      if !deleted.ok {
        return false;
      }
      ok := WaitPublisherResourceAbsent(resource, env.patience(world.step));
    }

    // Every attempted resource is tried, last one first; failures are collected, not raised.
    method RestorePublisher(snapshot: PublisherSnapshot) returns (failures: seq<Failure>)
      modifies this
      ensures (failures, world) == RestoreAll(env, old(world), Values(snapshot.resources))
    {
      hide Kubectl, RestoreOne;
      failures := [];
      var deploymentExisted := false;
      var rs := snapshot.resources;
      var n: nat := |rs|;
      while n > 0
        invariant 0 <= n <= |rs|
        invariant (failures, world) == RestoreLoop(env, old(world), Values(rs), n)
        invariant deploymentExisted == DeploymentExisted(Values(rs), n)
      {
        n := n - 1;
        var resource := rs[n];
        if resource.mutationAttempted {
          if resource.key == PUBLISHER_DEPLOYMENT {
            deploymentExisted := resource.existed;
          }
          var restored := RestorePublisherResource(resource);
          if !restored {
            failures := failures + [FailureOf(resource.Value())];
          }
        }
      }
      if deploymentExisted {
        var ready := Call(Rollout(PUBLISHER_DEPLOYMENT));
        if !ready.ok {
          failures := failures + [PublisherReadiness];
        }
      }
    }

    // The snapshot to roll back to later, or a failure that has already been rolled back.
    method PreparePublisher(docs: seq<Document>, url: Option<PublicUrl>, dryRun: bool)
      returns (snapshot: Option<PublisherSnapshot>, restoreFailed: bool)
      modifies this
      ensures var (prepared, w) := Prepare(env, old(world), docs, url, dryRun);
              && world == w
              && (snapshot.Some? ==> snapshot.value.Valid() && prepared == Ready(Values(snapshot.value.resources)))
              && (snapshot.None? ==> prepared == Failed(restoreFailed))
    {
      hide Kubectl, ApplyAll, RestoreAll, Started;
      snapshot, restoreFailed := None, false;
      if !dryRun {
        return;
      }
      var taken := SnapshotPublisher(docs);
      if taken.None? {
        assert Snapshot(env, old(world), docs, |docs|) == (None, world);
        return;
      }
      var applied := ApplyPublisher(url, taken.value);
      if applied {
        return taken, false;
      }
      if taken.value.mutationStarted {
        var failures := RestorePublisher(taken.value);
        restoreFailed := failures != [];
      }
    }
  }

  lemma StartedAfter(before: seq<Resource>, i: nat, r: Resource)
    requires i < |before| && (before[i].attempted ==> r.attempted)
    ensures Started(before[i := r]) == (Started(before) || r.attempted)
  {
    var after := before[i := r];
    if Started(before) {
      var j :| 0 <= j < |before| && before[j].attempted;
      assert after[j].attempted;
    }
    if r.attempted {
      assert after[i].attempted;
    }
    if Started(after) && !r.attempted {
      var j :| 0 <= j < |after| && after[j].attempted;
      assert before[j].attempted;
    }
  }

  predicate Unattempted(rs: seq<Resource>) {
    forall i | 0 <= i < |rs| :: !rs[i].attempted
  }
}
