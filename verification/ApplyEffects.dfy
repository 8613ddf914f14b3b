/** What a successful apply has done: the calls it made, in order, and the bodies it left. */
module ApplyEffects {
  import opened Cluster
  import opened Options
  import opened PublisherSpec
  import opened PublisherProofs
  import opened TransactionProofs

  function BodyOf(w: World, key: Key): Option<Body> {
    if key in w.objects then Some(w.objects[key].body) else None
  }

  // ------------------------------------------------------------------ the snapshot

  // The record of a document, by what its probe saw.
  function RecordOf(doc: Document, seen: Option<Object>): Resource {
    match seen
    case None => Resource(doc.key, doc.body, false, None, None, None, false)
    case Some(o) => Resource(doc.key, doc.body, true, Some(o), Some(o.uid), None, false)
  }

  // The probes of the first documents, in order, up to the first that fails. The records are there exactly when
  // all n are answered, and say what each of them saw.
  ghost predicate Probed(docs: seq<Document>, log: seq<Event>, rs: Option<seq<Resource>>, n: nat)
    requires n <= |docs|
  {
    && |log| <= n && (forall i | 0 <= i < |log| :: log[i].call == Get(docs[i].key))
    && (rs.Some? <==> |log| == n && AllOk(log))
    && (rs.None? ==> log != [] && AllOk(log[..|log| - 1]))
    && (rs.Some? ==> |rs.value| == n && forall i | 0 <= i < n :: rs.value[i] == RecordOf(docs[i], log[i].reply.seen))
  }

  lemma {:induction false} SnapshotExactly(env: Env, w: World, docs: seq<Document>, n: nat)
    requires Wf(w) && n <= |docs|
    ensures var (rs, w') := Snapshot(env, w, docs, n); Probed(docs, New(w, w'), rs, n)
  {
    hide Kubectl, Replay, Reaches, New, Probed, RecordOf;
    if n == 0 {
      NothingProbed(env, w, docs);
    } else {
      SnapshotExactly(env, w, docs, n - 1);
      SnapshotRun(env, w, docs, n - 1);
      var (before, w1) := Snapshot(env, w, docs, n - 1);
      if before.Some? {
        ReachesCall(env, w, w1, Get(docs[n - 1].key));
        var w2 := Kubectl(env, w1, Get(docs[n - 1].key)).1;
        RecordIsTaken(env, w1, docs[n - 1]);
        OneMoreProbed(docs, New(w, w1), before.value, n, Last(w2).value);
      } else {
        StillFailed(docs, New(w, w1), n);
      }
    }
  }

  lemma NothingProbed(env: Env, w: World, docs: seq<Document>)
    ensures Probed(docs, New(w, w), Some([]), 0)
  {}

  lemma RecordIsTaken(env: Env, w: World, doc: Document)
    ensures var probe := Kubectl(env, w, Get(doc.key)).0;
            SnapshotOne(env, w, doc).0 == if probe.ok then Some(RecordOf(doc, probe.seen)) else None
  {
    hide Kubectl;
  }

  lemma StillFailed(docs: seq<Document>, log: seq<Event>, n: nat)
    requires 0 < n <= |docs| && Probed(docs, log, None, n - 1)
    ensures Probed(docs, log, None, n)
  {}

  lemma OneMoreProbed(docs: seq<Document>, log: seq<Event>, rs: seq<Resource>, n: nat, e: Event)
    requires 0 < n <= |docs| && Probed(docs, log, Some(rs), n - 1) && e.call == Get(docs[n - 1].key)
    ensures Probed(docs, log + [e],
                   if e.reply.ok then Some(rs + [RecordOf(docs[n - 1], e.reply.seen)]) else None, n)
  {
    hide RecordOf;
    assert (log + [e])[..|log|] == log;
    assert AllOk(log + [e]) <==> e.reply.ok by {
      assert (log + [e])[|log|] == e;
    }
  }

  ghost predicate AllOk(log: seq<Event>) {
    forall i | 0 <= i < |log| :: log[i].reply.ok
  }

  // ------------------------------------------------------------------ one resource

  // The log holds a committed apply of r's manifest.
  ghost predicate AppliedIn(log: seq<Event>, r: Resource) {
    exists e <- log :: e.call == Apply(r.key, r.desired) && e.wrote.Some?
  }

  ghost predicate SeesPrior(e: Event, r: Resource) {
    e.reply.ok && e.reply.seen.Some? && r.priorUid == Some(e.reply.seen.value.uid)
  }

  // What a call that is answered or committed does to its key.
  lemma CallCommits(env: Env, w: World, call: Call)
    ensures var (reply, w') := Kubectl(env, w, call);
            && Last(w').Some?
            && (reply.ok && Writes(call) ==> Last(w').value.wrote.Some?)
            && (reply.ok ==> !reply.raised)
            && (call.Apply? && Last(w').value.wrote.Some? ==>
                  BodyOf(w', call.key) == Some(env.merge(BodyOf(Arrival(env, w), call.key), call.desired)))
            && (call.Edit? && Last(w').value.wrote.Some? ==>
                  call.key in Arrival(env, w).objects
                  && BodyOf(w', call.key) == Some(env.edit(Arrival(env, w).objects[call.key].body, call.argument)))
  {}

  // For a resource that was there before: a probe, then the apply exactly when the probe saw the prior uid;
  // success exactly when that apply is answered.
  lemma ExistingApplyExactly(env: Env, w: World, r: Resource)
    requires Wf(w) && r.existed && !r.attempted
    ensures var (r', ok, w') := ApplyOne(env, w, r);
            var log := New(w, w');
            && Reaches(env, w, w') && 1 <= |log| <= 2 && log[0].call == Get(r.key)
            && (|log| == 2 <==> SeesPrior(log[0], r))
            && (|log| == 2 ==> log[1].call == Apply(r.key, r.desired))
            && (ok <==> |log| == 2 && log[1].reply.ok)
            && r' == r.(attempted := |log| == 2)
  {
    hide Kubectl;
    ReachesSelf(env, w);
    ReachesCall(env, w, w, Get(r.key));
    var w1 := Kubectl(env, w, Get(r.key)).1;
    ReachesCall(env, w, w1, Apply(r.key, r.desired));
  }

  // For a new resource: the apply, then a probe unless the apply raised; success exactly when the apply is
  // answered and the probe sees an object, whose uid is recorded.
  lemma NewApplyExactly(env: Env, w: World, r: Resource)
    requires Wf(w) && !r.existed && !r.attempted && r.createdUid.None?
    ensures var (r', ok, w') := ApplyOne(env, w, r);
            var log := New(w, w');
            && Reaches(env, w, w') && 1 <= |log| <= 2 && log[0].call == Apply(r.key, r.desired)
            && (|log| == 2 <==> !log[0].reply.raised)
            && (|log| == 2 ==> log[1].call == Get(r.key))
            && (ok <==> |log| == 2 && log[0].reply.ok && log[1].reply.seen.Some?)
            && r' == r.(attempted := true,
                        createdUid := if |log| == 2 && log[1].reply.seen.Some? then Some(log[1].reply.seen.value.uid)
                                      else None)
  {
    hide Kubectl;
    ReachesSelf(env, w);
    ReachesCall(env, w, w, Apply(r.key, r.desired));
    var w1 := Kubectl(env, w, Apply(r.key, r.desired)).1;
    ReachesCall(env, w, w1, Get(r.key));
  }

  // The cluster in which the apply of r is made.
  function BeforeApply(env: Env, w: World, r: Resource): World {
    if r.existed then Kubectl(env, w, Get(r.key)).1 else w
  }

  // Success means the manifest was applied: the body its apply met on arrival is merged with the desired one,
  // and stays so while nobody acts on the key.
  lemma ApplyOneApplies(env: Env, w: World, r: Resource)
    requires Wf(w) && !r.attempted && r.createdUid.None? && ApplyOne(env, w, r).1
    ensures var (r', _, w') := ApplyOne(env, w, r);
            var w0 := BeforeApply(env, w, r);
            && AppliedIn(New(w, w'), r)
            && (QuietDuring(env, r.key, w0.step + 1, w'.step) ==>
                  BodyOf(w', r.key) == Some(env.merge(BodyOf(Arrival(env, w0), r.key), r.desired)))
  {
    hide Kubectl, Arrival;
    var w0 := BeforeApply(env, w, r);
    var (_, _, w') := ApplyOne(env, w, r);
    CallFrame(env, w, Get(r.key));
    CallFrame(env, w0, Apply(r.key, r.desired));
    CallCommits(env, w0, Apply(r.key, r.desired));
    var w1 := Kubectl(env, w0, Apply(r.key, r.desired)).1;
    CallFrame(env, w1, Get(r.key));
    ReachesSelf(env, w);
    ReachesCall(env, w, w, Get(r.key));
    ReachesCall(env, w, w0, Apply(r.key, r.desired));
    ReachesCall(env, w, w1, Get(r.key));
    assert Last(w1).value in New(w, w');
    if !r.existed && QuietDuring(env, r.key, w0.step + 1, w'.step) {
      CallKeepsOthers(env, w1, Get(r.key), r.key);
    }
  }

  // If nobody acts on the key meanwhile, the prior body is merged with the desired one.
  lemma ApplyOneInstalls(env: Env, w: World, r: Resource)
    requires Wf(w) && !r.attempted && r.createdUid.None? && ApplyOne(env, w, r).1
    requires QuietDuring(env, r.key, w.step, ApplyOne(env, w, r).2.step)
    ensures var w' := ApplyOne(env, w, r).2;
            AppliedIn(New(w, w'), r) && BodyOf(w', r.key) == Some(env.merge(BodyOf(w, r.key), r.desired))
  {
    hide Kubectl;
    ApplyOneApplies(env, w, r);
    var w0 := BeforeApply(env, w, r);
    CallFrame(env, w, Get(r.key));
    CallFrame(env, w0, Apply(r.key, r.desired));
    CallFrame(env, Kubectl(env, w0, Apply(r.key, r.desired)).1, Get(r.key));
    if r.existed {
      CallKeepsOthers(env, w, Get(r.key), r.key);
    }
    ActAllQuiet(w0, env.turns(w0.step).foreign, r.key);
  }

  // ------------------------------------------------------------------ the loop

  // The manifests applied, in order.
  function Applies(log: seq<Event>): seq<(Key, Body)> {
    if log == [] then []
    else
      var e := log[|log| - 1];
      Applies(log[..|log| - 1]) + if e.call.Apply? then [(e.call.key, e.call.desired)] else []
  }

  lemma {:induction false} AppliesAppend(a: seq<Event>, b: seq<Event>)
    ensures Applies(a + b) == Applies(a) + Applies(b)
  {
    if b == [] {
      assert a + b == a;
    } else {
      assert (a + b)[..|a + b| - 1] == a + b[..|b| - 1];
      AppliesAppend(a, b[..|b| - 1]);
    }
  }

  function Manifests(rs: seq<Resource>): seq<(Key, Body)> {
    seq(|rs|, i requires 0 <= i < |rs| => (rs[i].key, rs[i].desired))
  }

  lemma OneManifest(env: Env, w: World, r: Resource)
    requires Wf(w) && !r.attempted && r.createdUid.None?
    ensures var (r', ok, w') := ApplyOne(env, w, r);
            Applies(New(w, w')) == if r'.attempted then [(r.key, r.desired)] else []
  {
    hide ApplyOne, Reaches;
    var log := New(w, ApplyOne(env, w, r).2);
    if r.existed {
      ExistingApplyExactly(env, w, r);
    } else {
      NewApplyExactly(env, w, r);
    }
    assert log[..|log| - 1] == if |log| == 2 then [log[0]] else [];
    assert [log[0]][..0] == [];
    assert Applies([log[0]]) == Applies([]) + if log[0].call.Apply? then [(r.key, r.desired)] else [];
  }

  // One more resource that the loop reaches.
  lemma OneMoreApplied(env: Env, w: World, before: World, r: Resource, manifests: seq<(Key, Body)>)
    requires Wf(before) && Reaches(env, w, before) && !r.attempted && r.createdUid.None?
    requires Applies(New(w, before)) == manifests
    ensures var (r', ok, w') := ApplyOne(env, before, r);
            && New(w, w') == New(w, before) + New(before, w')
            && Applies(New(w, w')) <= manifests + [(r.key, r.desired)]
            && (ok ==> Applies(New(w, w')) == manifests + [(r.key, r.desired)] && AppliedIn(New(before, w'), r))
  {
    hide Kubectl, Replay, ApplyOne, Reaches, Applies, AppliedIn;
    var (r', ok, w') := ApplyOne(env, before, r);
    ApplyOneRun(env, before, r);
    ReachesTransitive(env, w, before, w');
    OneManifest(env, before, r);
    AppliesAppend(New(w, before), New(before, w'));
    assert manifests + [] == manifests;
    if ok {
      ApplyOneApplies(env, before, r);
    }
  }

  lemma ManifestsGrow(rs: seq<Resource>, n: nat)
    requires n < |rs|
    ensures Manifests(rs[..n + 1]) == Manifests(rs[..n]) + [(rs[n].key, rs[n].desired)]
  {}

  // The loop applies the manifests in order and each once; one that goes through applies all of them.
  lemma {:induction false} ApplyLoopApplies(env: Env, w: World, rs: seq<Resource>, n: nat)
    requires Wf(w) && n <= |rs| && Unapplied(rs)
    ensures var p := ApplyLoop(env, w, rs, n);
            && Applies(New(w, p.world)) <= Manifests(rs[..n])
            && (p.ok ==> Applies(New(w, p.world)) == Manifests(rs[..n])
                         && forall i | 0 <= i < n :: AppliedIn(New(w, p.world), rs[i]))
  {
    hide Kubectl, Replay, ApplyOne, Reaches, Manifests, Applies, AppliedIn, New;
    if n == 0 {
      NothingApplied(env, w);
      NoManifests(rs);
    } else {
      ApplyLoopApplies(env, w, rs, n - 1);
      ManifestsGrow(rs, n - 1);
      var before, p := ApplyLoop(env, w, rs, n - 1), ApplyLoop(env, w, rs, n);
      if before.ok {
        assert rs[n - 1] in rs;
        ApplyLoopRun(env, w, rs, n - 1);
        OneMoreApplied(env, w, before.world, rs[n - 1], Manifests(rs[..n - 1]));
        if p.ok {
          forall i | 0 <= i < n
            ensures AppliedIn(New(w, p.world), rs[i])
          {
            AppliedStays(New(w, before.world), New(before.world, p.world), rs[i]);
          }
        }
      }
    }
  }

  lemma NothingApplied(env: Env, w: World)
    ensures Applies(New(w, w)) == []
  {}

  lemma NoManifests(rs: seq<Resource>)
    ensures Manifests(rs[..0]) == []
  {}

  lemma AppliedStays(a: seq<Event>, b: seq<Event>, r: Resource)
    requires AppliedIn(a, r) || AppliedIn(b, r)
    ensures AppliedIn(a + b, r)
  {
    if e :| e in a && e.call == Apply(r.key, r.desired) && e.wrote.Some? {
      assert e in a + b;
    } else {
      var e :| e in b && e.call == Apply(r.key, r.desired) && e.wrote.Some?;
      assert e in a + b;
    }
  }

  // What the cluster holds under r's key once it has been applied to the cluster w.
  function Installed(env: Env, w: World, r: Resource): Option<Body> {
    Some(env.merge(BodyOf(w, r.key), r.desired))
  }

  lemma {:induction false} ApplyLoopInstalls(env: Env, w: World, rs: seq<Resource>, n: nat, i: nat)
    requires Wf(w) && i < n <= |rs| && Unapplied(rs) && DistinctKeys(rs) && ApplyLoop(env, w, rs, n).ok
    requires QuietDuring(env, rs[i].key, w.step, ApplyLoop(env, w, rs, n).world.step)
    ensures BodyOf(ApplyLoop(env, w, rs, n).world, rs[i].key) == Installed(env, w, rs[i])
  {
    hide Kubectl, Replay, ApplyOne;
    var before, p, r := ApplyLoop(env, w, rs, n - 1), ApplyLoop(env, w, rs, n), rs[n - 1];
    assert r in rs;
    ApplyLoopRun(env, w, rs, n - 1);
    ReachesSteps(env, w, before.world);
    ApplyOneRun(env, before.world, r);
    ReachesSteps(env, before.world, p.world);
    if i < n - 1 {
      ApplyLoopInstalls(env, w, rs, n - 1, i);
      UnwrittenKeyIsSame(env, before.world, p.world, rs[i].key);
    } else {
      UnattemptedIsUnwritten(New(w, before.world), before.resources, n - 1);
      UnwrittenKeyIsSame(env, w, before.world, r.key);
      ApplyOneInstalls(env, before.world, r);
    }
  }

  // ------------------------------------------------------------------ the URL of the gateway

  function UrlCalls(url: PublicUrl): seq<Call> {
    [Edit(PUBLISHER_DEPLOYMENT, BaseUrlArgument(url)), Edit(PUBLISHER_DEPLOYMENT, AllowHttpArgument(url)),
     Rollout(PUBLISHER_DEPLOYMENT)]
  }

  // Two edits and a wait, up to the first that fails; success exactly when all three are answered.
  lemma SetPublicBaseUrlExactly(env: Env, w: World, url: Option<PublicUrl>)
    requires Wf(w)
    ensures var (ok, w') := SetPublicBaseUrl(env, w, url);
            var log := New(w, w');
            if url.None? then !ok && log == []
            else
              && Calls(log) <= UrlCalls(url.value) && log != [] && AllOk(log[..|log| - 1])
              && (ok <==> |log| == 3 && AllOk(log)) && (!ok ==> !log[|log| - 1].reply.ok)
  {
    hide Kubectl, Replay, BaseUrlArgument, AllowHttpArgument;
    ReachesSelf(env, w);
    if url.Some? {
      var calls := UrlCalls(url.value);
      ReachesCall(env, w, w, calls[0]);
      var w1 := Kubectl(env, w, calls[0]).1;
      ReachesCall(env, w, w1, calls[1]);
      var w2 := Kubectl(env, w1, calls[1]).1;
      ReachesCall(env, w, w2, calls[2]);
    }
  }

  // With the Deployment left alone, both edits end up in its body.
  lemma SetPublicBaseUrlInstalls(env: Env, w: World, url: PublicUrl)
    requires Wf(w) && SetPublicBaseUrl(env, w, Some(url)).0
    requires QuietDuring(env, PUBLISHER_DEPLOYMENT, w.step, SetPublicBaseUrl(env, w, Some(url)).1.step)
    ensures PUBLISHER_DEPLOYMENT in w.objects
    ensures BodyOf(SetPublicBaseUrl(env, w, Some(url)).1, PUBLISHER_DEPLOYMENT) == WithUrl(env, w, url)
  {
    hide Kubectl, BaseUrlArgument, AllowHttpArgument;
    var calls := UrlCalls(url);
    CallFrame(env, w, calls[0]);
    var w1 := Kubectl(env, w, calls[0]).1;
    CallFrame(env, w1, calls[1]);
    var w2 := Kubectl(env, w1, calls[1]).1;
    CallFrame(env, w2, calls[2]);
    EditInstalls(env, w, BaseUrlArgument(url));
    EditInstalls(env, w1, AllowHttpArgument(url));
    CallKeepsOthers(env, w2, calls[2], PUBLISHER_DEPLOYMENT);
  }

  function WithUrl(env: Env, w: World, url: PublicUrl): Option<Body>
    requires PUBLISHER_DEPLOYMENT in w.objects
  {
    Some(env.edit(env.edit(w.objects[PUBLISHER_DEPLOYMENT].body, BaseUrlArgument(url)), AllowHttpArgument(url)))
  }

  lemma EditInstalls(env: Env, w: World, argument: string)
    requires Kubectl(env, w, Edit(PUBLISHER_DEPLOYMENT, argument)).0.ok
    requires Quiet(env.turns(w.step).foreign, PUBLISHER_DEPLOYMENT)
    ensures PUBLISHER_DEPLOYMENT in w.objects
    ensures BodyOf(Kubectl(env, w, Edit(PUBLISHER_DEPLOYMENT, argument)).1, PUBLISHER_DEPLOYMENT)
            == Some(env.edit(w.objects[PUBLISHER_DEPLOYMENT].body, argument))
  {
    ActAllQuiet(w, env.turns(w.step).foreign, PUBLISHER_DEPLOYMENT);
  }

  // ------------------------------------------------------------------ the whole apply

  // A successful apply had eleven resources and a URL, applied every manifest in order and each once, and
  // then made the two edits and the wait.
  lemma ApplyAllApplies(env: Env, w: World, rs: seq<Resource>, url: Option<PublicUrl>)
    requires Wf(w) && Unapplied(rs) && ApplyAll(env, w, rs, url).ok
    ensures var log := New(w, ApplyAll(env, w, rs, url).world);
            && |rs| == MANIFEST_SIZE && url.Some?
            && Applies(log) == Manifests(rs) && (forall r <- rs :: AppliedIn(log, r))
            && |log| >= 3 && Calls(log[|log| - 3..]) == UrlCalls(url.value) && AllOk(log[|log| - 3..])
  {
    hide Kubectl, Replay, Reaches, ApplyLoop, SetPublicBaseUrl, UrlCalls, Manifests;
    ApplyLoopRun(env, w, rs, |rs|);
    ApplyLoopApplies(env, w, rs, |rs|);
    assert rs[..|rs|] == rs;
    var loop := ApplyLoop(env, w, rs, |rs|).world;
    SetPublicBaseUrlRun(env, loop, url);
    SetPublicBaseUrlExactly(env, loop, url);
    var w' := SetPublicBaseUrl(env, loop, url).1;
    ReachesTransitive(env, w, loop, w');
    var a, b := New(w, loop), New(loop, w');
    UrlCallsAre(url.value);
    assert (a + b)[|a + b| - 3..] == b;
    NoApplies(b);
    AppliesAppend(a, b);
    assert Applies(a) + [] == Applies(a);
    forall r | r in rs
      ensures AppliedIn(a + b, r)
    {
      var i :| 0 <= i < |rs| && rs[i] == r;
      AppliedStays(a, b, r);
    }
  }

  lemma UrlCallsAre(url: PublicUrl)
    ensures |UrlCalls(url)| == 3 && forall c <- UrlCalls(url) :: !c.Apply?
  {}

  lemma {:induction false} NoApplies(log: seq<Event>)
    requires forall c <- Calls(log) :: !c.Apply?
    ensures Applies(log) == []
  {
    if log != [] {
      var n := |log| - 1;
      assert log[n].call == Calls(log)[n];
      assert forall i | 0 <= i < n :: Calls(log[..n])[i] == Calls(log)[i];
      NoApplies(log[..n]);
    }
  }

  // Undisturbed, each resource then holds its prior body merged with the manifest, and the Deployment both
  // edits on top of that.
  lemma ApplyAllInstalls(env: Env, w: World, rs: seq<Resource>, url: Option<PublicUrl>, i: nat)
    requires Wf(w) && Unapplied(rs) && DistinctKeys(rs) && i < |rs| && ApplyAll(env, w, rs, url).ok
    requires QuietDuring(env, rs[i].key, w.step, ApplyAll(env, w, rs, url).world.step)
    ensures var installed := env.merge(BodyOf(w, rs[i].key), rs[i].desired);
            && url.Some?
            && BodyOf(ApplyAll(env, w, rs, url).world, rs[i].key) ==
               Some(if rs[i].key == PUBLISHER_DEPLOYMENT
                    then env.edit(env.edit(installed, BaseUrlArgument(url.value)), AllowHttpArgument(url.value))
                    else installed)
  {
    hide Kubectl, Replay, ApplyLoop, SetPublicBaseUrl;
    ApplyLoopRun(env, w, rs, |rs|);
    var loop := ApplyLoop(env, w, rs, |rs|).world;
    ReachesSteps(env, w, loop);
    SetPublicBaseUrlRun(env, loop, url);
    SetPublicBaseUrlExactly(env, loop, url);
    var w' := SetPublicBaseUrl(env, loop, url).1;
    ReachesSteps(env, loop, w');
    ApplyLoopInstalls(env, w, rs, |rs|, i);
    if rs[i].key == PUBLISHER_DEPLOYMENT {
      SetPublicBaseUrlInstalls(env, loop, url.value);
    } else {
      UnwrittenKeyIsSame(env, loop, w', rs[i].key);
    }
  }

  // ------------------------------------------------------------------ the whole transaction

  function ManifestsOf(docs: seq<Document>): seq<(Key, Body)> {
    seq(|docs|, i requires 0 <= i < |docs| => (docs[i].key, docs[i].body))
  }

  // A transaction that goes through applies the documents of the manifest, in order and each once.
  lemma TransactionApplies(env: Env, w: World, docs: seq<Document>, url: Option<PublicUrl>)
    requires Wf(w) && Begin(env, w, docs, url).Some? && Begin(env, w, docs, url).value.applied
    ensures |docs| == MANIFEST_SIZE && url.Some?
    ensures Applies(New(w, Begin(env, w, docs, url).value.after)) == ManifestsOf(docs)
  {
    hide Kubectl, Replay, Reaches, ApplyAll, Snapshot, UrlCalls, Applies;
    SnapshotRun(env, w, docs, |docs|);
    SnapshotExactly(env, w, docs, |docs|);
    var (snapshot, w1) := Snapshot(env, w, docs, |docs|);
    var rs := snapshot.value;
    assert Manifests(rs) == ManifestsOf(docs);
    ApplyAllApplies(env, w1, rs, url);
    var w2 := ApplyAll(env, w1, rs, url).world;
    ApplyAllReaches(env, w1, rs, url);
    ReachesTransitive(env, w, w1, w2);
    AppliesAppend(New(w, w1), New(w1, w2));
    assert Applies(New(w, w1)) == [] by {
      NoApplies(New(w, w1));
    }
    assert [] + Applies(New(w1, w2)) == Applies(New(w1, w2));
  }

  lemma ApplyAllReaches(env: Env, w: World, rs: seq<Resource>, url: Option<PublicUrl>)
    requires Wf(w) && Unapplied(rs)
    ensures Reaches(env, w, ApplyAll(env, w, rs, url).world)
  {
    hide Kubectl, Replay, Reaches, ApplyLoop, SetPublicBaseUrl;
    ReachesSelf(env, w);
    if |rs| == MANIFEST_SIZE {
      ApplyLoopRun(env, w, rs, |rs|);
      var loop := ApplyLoop(env, w, rs, |rs|);
      SetPublicBaseUrlRun(env, loop.world, url);
      if loop.ok {
        ReachesTransitive(env, w, loop.world, SetPublicBaseUrl(env, loop.world, url).1);
      }
    }
  }

  // ------------------------------------------------------------------ what the two edits say

  function FirstOf(s: string, c: char): (i: nat)
    ensures i <= |s| && c !in s[..i] && (i < |s| ==> s[i] == c)
  {
    if s == "" || s[0] == c then 0 else 1 + FirstOf(s[1..], c)
  }

  // An environment argument: NAME=value sets a variable, NAME- removes it.
  function SetVariable(vars: map<string, string>, argument: string): map<string, string> {
    var at := FirstOf(argument, '=');
    if at < |argument| then vars[argument[..at] := argument[at + 1..]]
    else if argument != "" && argument[|argument| - 1] == '-' then vars - {argument[..|argument| - 1]}
    else vars
  }

  lemma SettingArgument(vars: map<string, string>, name: string, value: string)
    requires '=' !in name
    ensures SetVariable(vars, name + "=" + value) == vars[name := value]
  {
    FirstAfter(name, '=', value);
    var argument := name + "=" + value;
    assert argument[..|name|] == name && argument[|name| + 1..] == value;
  }

  lemma {:induction false} FirstAfter(s: string, c: char, rest: string)
    requires c !in s
    ensures FirstOf(s + [c] + rest, c) == |s|
  {
    if s != "" {
      assert (s + [c] + rest)[1..] == s[1..] + [c] + rest;
      FirstAfter(s[1..], c, rest);
    }
  }

  lemma RemovingArgument(vars: map<string, string>, name: string)
    requires '=' !in name
    ensures SetVariable(vars, name + "-") == vars - {name}
  {
    var argument := name + "-";
    assert '=' !in argument && argument[..|name|] == name;
    var at := FirstOf(argument, '=');
    assert at == |argument|;
  }

  const BASE_URL := "INFERENCE_AI_GATEWAY_PUBLIC_BASE_URL"
  const ALLOW_HTTP := "INFERENCE_AI_GATEWAY_ALLOW_HTTP"

  // The base URL is set; plain HTTP is allowed exactly for an http URL; nothing else changes.
  lemma UrlIsSet(vars: map<string, string>, url: PublicUrl)
    ensures var after := SetVariable(SetVariable(vars, BaseUrlArgument(url)), AllowHttpArgument(url));
            && BASE_URL in after && after[BASE_URL] == url.text
            && (ALLOW_HTTP in after <==> url.http) && (url.http ==> after[ALLOW_HTTP] == "true")
            && forall name | name != BASE_URL && name != ALLOW_HTTP ::
                 (name in after <==> name in vars) && (name in vars ==> after[name] == vars[name])
  {
    hide SetVariable;
    var one := SetVariable(vars, BaseUrlArgument(url));
    assert one == vars[BASE_URL := url.text] by {
      assert BaseUrlArgument(url) == BASE_URL + "=" + url.text;
      SettingArgument(vars, BASE_URL, url.text);
    }
    AllowHttpIsSet(one, url);
  }

  lemma AllowHttpIsSet(vars: map<string, string>, url: PublicUrl)
    ensures SetVariable(vars, AllowHttpArgument(url)) ==
            if url.http then vars[ALLOW_HTTP := "true"] else vars - {ALLOW_HTTP}
  {
    hide SetVariable;
    if url.http {
      assert AllowHttpArgument(url) == ALLOW_HTTP + "=" + "true";
      SettingArgument(vars, ALLOW_HTTP, "true");
    } else {
      assert AllowHttpArgument(url) == ALLOW_HTTP + "-";
      RemovingArgument(vars, ALLOW_HTTP);
    }
  }
}
