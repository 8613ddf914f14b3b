/** What the C41 publisher transaction computes: snapshot, apply and rollback of the manifest
    resources, as functions of the environment and the cluster. The runner in PublisherRunner.dfy
    is proved to compute exactly these; PublisherProofs.dfy says what they guarantee. */
module PublisherSpec {
  import opened Cluster
  import opened Options

  const MANIFEST_SIZE := 11
  const PUBLISHER_DEPLOYMENT := Key("Deployment", "ani-system", "inference-gateway-publisher")

  datatype Document = Document(key: Key, body: Body)

  datatype Resource = Resource(key: Key, desired: Body, existed: bool, prior: Option<Object>, priorUid: Option<nat>,
                               createdUid: Option<nat>, attempted: bool)

  datatype Failure = RestoreExisting | DeleteCreated | PublisherReadiness

  // A gateway URL that passed validation; http selects the plain-text opt-in.
  datatype PublicUrl = PublicUrl(text: string, http: bool)

  // ------------------------------------------------------------------ snapshot

  function Fresh(doc: Document): Resource {
    Resource(doc.key, doc.body, false, None, None, None, false)
  }

  function SnapshotOne(env: Env, w: World, doc: Document): (Option<Resource>, World) {
    var (probe, w1) := Kubectl(env, w, Get(doc.key));
    if !probe.ok then (None, w1)
    else if probe.seen.None? then (Some(Fresh(doc)), w1)
    else (Some(Fresh(doc).(existed := true, prior := probe.seen, priorUid := Some(probe.seen.value.uid))), w1)
  }

  // The first n documents; a failing probe ends the snapshot.
  function Snapshot(env: Env, w: World, docs: seq<Document>, n: nat): (r: (Option<seq<Resource>>, World))
    requires n <= |docs|
  {
    if n == 0 then (Some([]), w)
    else
      var (before, w1) := Snapshot(env, w, docs, n - 1);
      if before.None? then (None, w1)
      else
        var (one, w2) := SnapshotOne(env, w1, docs[n - 1]);
        if one.None? then (None, w2) else (Some(before.value + [one.value]), w2)
  }

  // ------------------------------------------------------------------ apply

  datatype Progress = Progress(resources: seq<Resource>, ok: bool, world: World)

  function ApplyOne(env: Env, w: World, r: Resource): (Resource, bool, World) {
    if r.existed then
      var (probe, w1) := Kubectl(env, w, Get(r.key));
      if !probe.ok || probe.seen.None? || Some(probe.seen.value.uid) != r.priorUid then (r, false, w1)
      else
        var (applied, w2) := Kubectl(env, w1, Apply(r.key, r.desired));
        (r.(attempted := true), applied.ok, w2)
    else
      var (applied, w1) := Kubectl(env, w, Apply(r.key, r.desired));
      if applied.raised then (r.(attempted := true), false, w1)
      else
        var (probe, w2) := Kubectl(env, w1, Get(r.key));
        if probe.seen.None? then (r.(attempted := true), false, w2)
        else (r.(attempted := true, createdUid := Some(probe.seen.value.uid)), applied.ok, w2)
  }

  function ApplyLoop(env: Env, w: World, rs: seq<Resource>, n: nat): (p: Progress)
    requires n <= |rs|
    ensures |p.resources| == |rs|
  {
    if n == 0 then Progress(rs, true, w)
    else
      var before := ApplyLoop(env, w, rs, n - 1);
      if !before.ok then before
      else
        var (r, ok, w1) := ApplyOne(env, before.world, before.resources[n - 1]);
        Progress(before.resources[n - 1 := r], ok, w1)
  }

  function BaseUrlArgument(url: PublicUrl): string {
    "INFERENCE_AI_GATEWAY_PUBLIC_BASE_URL=" + url.text
  }

  function AllowHttpArgument(url: PublicUrl): string {
    if url.http then "INFERENCE_AI_GATEWAY_ALLOW_HTTP=true" else "INFERENCE_AI_GATEWAY_ALLOW_HTTP-"
  }

  function SetPublicBaseUrl(env: Env, w: World, url: Option<PublicUrl>): (bool, World) {
    if url.None? then (false, w)
    else
      var (base, w1) := Kubectl(env, w, Edit(PUBLISHER_DEPLOYMENT, BaseUrlArgument(url.value)));
      if !base.ok then (false, w1)
      else
        var (allow, w2) := Kubectl(env, w1, Edit(PUBLISHER_DEPLOYMENT, AllowHttpArgument(url.value)));
        if !allow.ok then (false, w2)
        else
          var (ready, w3) := Kubectl(env, w2, Rollout(PUBLISHER_DEPLOYMENT));
          (ready.ok, w3)
  }

  function ApplyAll(env: Env, w: World, rs: seq<Resource>, url: Option<PublicUrl>): (p: Progress)
    ensures |p.resources| == |rs|
  {
    if |rs| != MANIFEST_SIZE then Progress(rs, false, w)
    else
      var loop := ApplyLoop(env, w, rs, |rs|);
      if !loop.ok then loop
      else
        var (ok, w1) := SetPublicBaseUrl(env, loop.world, url);
        Progress(loop.resources, ok, w1)
  }

  predicate Started(rs: seq<Resource>) {
    exists i :: 0 <= i < |rs| && rs[i].attempted
  }

  // ------------------------------------------------------------------ restore

  // Poll until the resource is gone, a poll fails, or patience runs out.
  function WaitAbsent(env: Env, w: World, key: Key, patience: nat): (bool, World)
    decreases patience
  {
    if patience == 0 then (false, w)
    else
      var (probe, w1) := Kubectl(env, w, Get(key));
      if !probe.ok then (false, w1)
      else if probe.seen.None? then (true, w1)
      else WaitAbsent(env, w1, key, patience - 1)
  }

  function RestorePrior(env: Env, w: World, r: Resource, seen: Option<Object>): (bool, World) {
    if r.prior.None? || r.priorUid.None? || seen.None? || Some(seen.value.uid) != r.priorUid then (false, w)
    else
      var (replaced, w1) := Kubectl(env, w, Replace(r.key, seen.value.version, r.prior.value.body));
      (replaced.ok, w1)
  }

  function DeleteCreatedObject(env: Env, w: World, r: Resource, seen: Option<Object>): (bool, World) {
    if seen.None? then (true, w)
    else if r.createdUid != Some(seen.value.uid) then (false, w)
    else
      var (deleted, w1) := Kubectl(env, w, Delete(r.key));
      if !deleted.ok then (false, w1) else WaitAbsent(env, w1, r.key, env.patience(w1.step))
  }

  function RestoreOne(env: Env, w: World, r: Resource): (bool, World) {
    var (probe, w1) := Kubectl(env, w, Get(r.key));
    if !probe.ok then (false, w1)
    else if r.existed then RestorePrior(env, w1, r, probe.seen)
    else DeleteCreatedObject(env, w1, r, probe.seen)
  }

  function FailureOf(r: Resource): Failure {
    if r.existed then RestoreExisting else DeleteCreated
  }

  // The resources from index n upwards have been handled, last one first.
  function RestoreLoop(env: Env, w: World, rs: seq<Resource>, n: nat): (seq<Failure>, World)
    requires n <= |rs|
    decreases |rs| - n
  {
    if n == |rs| then ([], w)
    else
      var (failures, w1) := RestoreLoop(env, w, rs, n + 1);
      if !rs[n].attempted then (failures, w1)
      else
        var (ok, w2) := RestoreOne(env, w1, rs[n]);
        (if ok then failures else failures + [FailureOf(rs[n])], w2)
  }

  // Whether the publisher Deployment was there before; the lowest attempted entry under its key decides.
  function DeploymentExisted(rs: seq<Resource>, n: nat): bool
    requires n <= |rs|
    decreases |rs| - n
  {
    if n == |rs| then false
    else if rs[n].attempted && rs[n].key == PUBLISHER_DEPLOYMENT then rs[n].existed
    else DeploymentExisted(rs, n + 1)
  }

  function RestoreAll(env: Env, w: World, rs: seq<Resource>): (seq<Failure>, World) {
    var (failures, w1) := RestoreLoop(env, w, rs, 0);
    if !DeploymentExisted(rs, 0) then (failures, w1)
    else
      var (ready, w2) := Kubectl(env, w1, Rollout(PUBLISHER_DEPLOYMENT));
      (if ready.ok then failures else failures + [PublisherReadiness], w2)
  }

  // ------------------------------------------------------------------ the whole transaction

  datatype Transaction = Transaction(resources: seq<Resource>, applied: bool, before: World, after: World)

  // Snapshot then apply; None when the snapshot itself failed.
  function Begin(env: Env, w: World, docs: seq<Document>, url: Option<PublicUrl>): Option<Transaction> {
    var (snapshot, w1) := Snapshot(env, w, docs, |docs|);
    if snapshot.None? then None
    else
      var p := ApplyAll(env, w1, snapshot.value, url);
      Some(Transaction(p.resources, p.ok, w1, p.world))
  }

  datatype Prepared = Ready(resources: seq<Resource>) | Failed(restore: bool)

  // A failing apply is rolled back before the failure is reported; dryRun is what the server's dry run said.
  function Prepare(env: Env, w: World, docs: seq<Document>, url: Option<PublicUrl>, dryRun: bool): (Prepared, World) {
    var (snapshot, w1) := Snapshot(env, w, docs, |docs|);
    if !dryRun then (Failed(false), w)
    else if snapshot.None? then (Failed(false), w1)
    else
      var p := ApplyAll(env, w1, snapshot.value, url);
      if p.ok then (Ready(p.resources), p.world)
      else if !Started(p.resources) then (Failed(false), p.world)
      else
        var (failures, w2) := RestoreAll(env, p.world, p.resources);
        (Failed(failures != []), w2)
  }
}
