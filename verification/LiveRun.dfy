/** The C41 live run: publisher transaction, acceptance plan, cleanup and rollback, and the rule by which
    evidence is committed. */
module LiveRun {
  import opened Cluster
  import opened Options
  import opened Ledger
  import opened PublisherSpec
  import opened PublisherProofs
  import opened TransactionProofs

  const REQUIRED_CHECKS: set<string> := {
    "tenant-a-chat-json-200", "tenant-a-chat-sse-200", "tenant-a-embeddings-200",
    "tenant-isolation-same-model", "tenant-b-a-only-404", "generate-embeddings-404",
    "embed-chat-404", "invalid-credentials-401", "body-model-wins-over-client-header",
    "tenant-service-spoof-ignored", "models-404", "rpm-429-retry-after",
    "service-ak-policy-overrides-tenant", "dependency-faults-503-no-vllm",
    "stop-unpublishes-before-workload-stop", "start-republishes-200",
    "delete-releases-same-tenant-name", "publisher-restart-idempotent",
    "no-managed-ak-secret", "temporary-key-log-redaction", "cleanup-complete"
  }
  const CLEANUP_COMPLETE := "cleanup-complete"

  // calls is whatever else the plan does to the cluster while it runs.
  datatype Settings = Settings(docs: seq<Document>, url: Option<PublicUrl>, dryRun: bool, plan: seq<Op>,
                               calls: seq<Call>, redacted: bool)

  datatype Conclusion =
    | Committed(checks: set<string>)
    | Raised(primary: bool, cleanup: bool, restore: bool)
    | Incomplete
    | NotWritten

  datatype Start = Start(snapshot: Option<seq<Resource>>, applied: bool, world: World)

  function StartPublisher(env: Env, w: World, s: Settings): Start {
    if !s.dryRun then Start(None, false, w)
    else
      var (snapshot, w1) := Snapshot(env, w, s.docs, |s.docs|);
      if snapshot.None? then Start(None, false, w1)
      else
        var p := ApplyAll(env, w1, snapshot.value, s.url);
        Start(Some(p.resources), p.ok, p.world)
  }

  function Initial(server: Server): State {
    State(true, server, Books([], [], []), {})
  }

  // Cluster and books when the guarded part of the run ends, however it ends.
  function Guarded(env: Env, cp: ControlPlane, start: Start, server: Server, s: Settings): (State, World) {
    if start.applied then (Run(cp, Initial(server), s.plan, |s.plan|), Replay(env, start.world, s.calls))
    else (Initial(server).(ok := false), start.world)
  }

  function Restore(env: Env, start: Start, w: World): (seq<Failure>, World) {
    if start.snapshot.Some? && Started(start.snapshot.value) then RestoreAll(env, w, start.snapshot.value) else ([], w)
  }

  function Decide(primary: bool, cleanup: bool, restore: bool, checks: set<string>, redacted: bool): Conclusion {
    if primary || cleanup || restore then Raised(primary, cleanup, restore)
    else if checks != REQUIRED_CHECKS then Incomplete
    else if !redacted then NotWritten
    else Committed(checks)
  }

  datatype Result = Result(outcome: Conclusion, world: World, server: Server)

  function Execute(env: Env, cp: ControlPlane, w: World, server: Server, s: Settings): Result {
    var start := StartPublisher(env, w, s);
    var (st, w1) := Guarded(env, cp, start, server, s);
    var (cleanup, server1) := CleanUp(cp, st.server, st.books);
    var (restore, w2) := Restore(env, start, w1);
    var checks := if cleanup.None() && restore == [] then st.checks + {CLEANUP_COMPLETE} else st.checks;
    Result(Decide(!st.ok, !cleanup.None(), restore != [], checks, s.redacted), w2, server1)
  }

  // ------------------------------------------------------------------ the commit rule

  ghost predicate NothingIssuedIsLive(server: Server) {
    forall x <- server.issued :: x !in server.live
  }

  // Nothing was issued to the run yet, and ids to come are new. Whatever else is live is none of its business.
  ghost predicate Untouched(server: Server) {
    server.issued == {} && forall x <- server.live :: x.1.id < server.next
  }

  lemma InitialAccounts(server: Server)
    requires Untouched(server)
    ensures Accounted(server, Initial(server).books)
  {}

  lemma BodyAccounts(env: Env, cp: ControlPlane, start: Start, server: Server, s: Settings)
    requires Untouched(server)
    ensures var st := Guarded(env, cp, start, server, s).0; Accounted(st.server, st.books)
  {
    InitialAccounts(server);
    if start.applied {
      LedgerInvariant(cp, Initial(server), s.plan, |s.plan|);
    }
  }

  // On every path cleanup asks for every resource on the books.
  lemma CleanupIsAttempted(env: Env, cp: ControlPlane, w: World, server: Server, s: Settings, kind: Kind, ref: Ref)
    requires ref in Guarded(env, cp, StartPublisher(env, w, s), server, s).0.books.Of(kind)
    ensures Asked(Guarded(env, cp, StartPublisher(env, w, s), server, s).0.server,
            Execute(env, cp, w, server, s).server, kind, ref)
  {
    hide CleanUp, RestoreAll, Asked, StartPublisher, Guarded;
    var st := Guarded(env, cp, StartPublisher(env, w, s), server, s).0;
    CleanUpAsksForAll(cp, st.server, st.books, kind, ref);
  }

  // The world in which the guarded part of the run ends is one the cluster can be in.
  lemma GuardedIsWf(env: Env, cp: ControlPlane, w: World, server: Server, s: Settings)
    requires Wf(w) && ManifestOk(s.docs)
    ensures Wf(Guarded(env, cp, StartPublisher(env, w, s), server, s).1)
  {
    hide Kubectl, Replay, ApplyAll, Snapshot, Run;
    var start := StartPublisher(env, w, s);
    if s.dryRun {
      SnapshotRun(env, w, s.docs, |s.docs|);
      if start.snapshot.Some? {
        BeginRun(env, w, s.docs, s.url);
      }
    }
    if start.applied {
      RunEvolves(env, start.world, s.calls);
    }
  }

  // Both phases run, whatever failed before: if mutation had started, every attempted resource is probed for
  // its rollback and all writes of the rollback are owned. The run raises exactly when the plan, the cleanup
  // or the rollback failed, and what is raised names exactly those.
  lemma BothPhasesAreAttempted(env: Env, cp: ControlPlane, w: World, server: Server, s: Settings)
    requires Wf(w) && ManifestOk(s.docs)
    ensures var start := StartPublisher(env, w, s);
            var (st, w1) := Guarded(env, cp, start, server, s);
            var result := Execute(env, cp, w, server, s);
            && (start.snapshot.Some? && Started(start.snapshot.value) ==>
                  && Reaches(env, w1, result.world) && AllOwnedBySome(New(w1, result.world), start.snapshot.value)
                  && (forall r <- start.snapshot.value | r.attempted :: Probes(New(w1, result.world), r.key)))
            && (result.outcome.Raised? <==> Failures(env, cp, start, server, s) != (false, false, false))
            && (result.outcome.Raised? ==>
                  (result.outcome.primary, result.outcome.cleanup, result.outcome.restore)
                      == Failures(env, cp, start, server, s))
  {
    hide CleanUp, RestoreAll, StartPublisher, Guarded, Replay, REQUIRED_CHECKS;
    var start := StartPublisher(env, w, s);
    var w1 := Guarded(env, cp, start, server, s).1;
    GuardedIsWf(env, cp, w, server, s);
    if start.snapshot.Some? && Started(start.snapshot.value) {
      RollbackOwnership(env, w1, start.snapshot.value);
    }
  }

  // Whether the plan, the deletion of some entry, and the rollback of some resource failed.
  function Failures(env: Env, cp: ControlPlane, start: Start, server: Server, s: Settings): (bool, bool, bool) {
    var (st, w1) := Guarded(env, cp, start, server, s);
    (!st.ok, !CleanUp(cp, st.server, st.books).0.None(), Restore(env, start, w1).0 != [])
  }

  // How a run ends: a failure of any phase is raised; without one, evidence is refused when a required check is
  // missing, then when it is not redacted, and committed otherwise.
  lemma OutcomeExactly(env: Env, cp: ControlPlane, w: World, server: Server, s: Settings)
    ensures var start := StartPublisher(env, w, s);
            var failures := Failures(env, cp, start, server, s);
            var checks := Guarded(env, cp, start, server, s).0.checks + {CLEANUP_COMPLETE};
            var outcome := Execute(env, cp, w, server, s).outcome;
            && (outcome.Raised? <==> failures.0 || failures.1 || failures.2)
            && (outcome.Incomplete? <==> failures == (false, false, false) && checks != REQUIRED_CHECKS)
            && (outcome.NotWritten? <==>
                  failures == (false, false, false) && checks == REQUIRED_CHECKS && !s.redacted)
            && (outcome.Committed? <==>
                  failures == (false, false, false) && checks == REQUIRED_CHECKS && s.redacted)
  {
    hide CleanUp, RestoreAll, StartPublisher, Guarded, REQUIRED_CHECKS;
  }

  // Without an applied manifest the plan is not run: the control plane is never asked for anything, no check
  // passes, and the run fails. Without a dry run not even the cluster is.
  lemma UnappliedRunsNothing(env: Env, cp: ControlPlane, w: World, server: Server, s: Settings)
    requires !StartPublisher(env, w, s).applied
    ensures var result := Execute(env, cp, w, server, s);
            && result.server == server && result.outcome.Raised? && result.outcome.primary
            && (!s.dryRun ==> result.world == w)
  {
    hide RestoreAll, ApplyAll, Snapshot, REQUIRED_CHECKS;
  }

  // A run that did not mutate the cluster has nothing to roll back: no restore is attempted and no call
  // of it wrote anything.
  lemma UnstartedWroteNothing(env: Env, w: World, s: Settings)
    requires Wf(w) && ManifestOk(s.docs)
    requires var start := StartPublisher(env, w, s); start.snapshot.Some? && !Started(start.snapshot.value)
    ensures var start := StartPublisher(env, w, s); Reaches(env, w, start.world) && ReadOnly(New(w, start.world))
  {
    hide Kubectl, Replay, ApplyAll, Snapshot;
    var start := StartPublisher(env, w, s);
    BeginRun(env, w, s.docs, s.url);
  }

  // An apply that went through attempted every resource of the manifest.
  lemma AppliedMeansAttempted(env: Env, w: World, s: Settings)
    requires Wf(w) && StartPublisher(env, w, s).applied
    ensures var rs := StartPublisher(env, w, s).snapshot.value;
            StartPublisher(env, w, s).snapshot.Some? && forall r <- rs :: r.attempted
  {
    hide Kubectl, Replay, SetPublicBaseUrl;
    SnapshotRun(env, w, s.docs, |s.docs|);
    var (snapshot, w1) := Snapshot(env, w, s.docs, |s.docs|);
    ApplyLoopRun(env, w1, snapshot.value, |snapshot.value|);
  }

  // The commit rule: evidence is written only when every required check passed, nothing the run was given
  // an id of is still live, and each manifest key that other actors left alone until it was probed and after
  // its rollback is as it was before the run, whatever the plan itself did to the cluster in between.
  lemma CommitRule(env: Env, cp: ControlPlane, w: World, server: Server, s: Settings)
    requires Wf(w) && ManifestOk(s.docs) && Untouched(server)
    requires Execute(env, cp, w, server, s).outcome.Committed?
    ensures var result := Execute(env, cp, w, server, s);
            && result.outcome.checks == REQUIRED_CHECKS && s.redacted && NothingIssuedIsLive(result.server)
    ensures var start := StartPublisher(env, w, s);
            && start.snapshot.Some? && |start.snapshot.value| == |s.docs|
            && forall i | 0 <= i < |s.docs| ::
                 (UntilProbed(env, w, s.docs, i)
                  && LeftAlone(env, Guarded(env, cp, start, server, s).1, start.snapshot.value, i))
                 ==> Same(w, Execute(env, cp, w, server, s).world, s.docs[i].key)
  {
    hide Kubectl, Replay, CleanUp, RestoreAll, Run, Snapshot, ApplyAll, UntilProbed, LeftAlone, REQUIRED_CHECKS;
    var start := StartPublisher(env, w, s);
    var (st, w1) := Guarded(env, cp, start, server, s);
    BodyAccounts(env, cp, start, server, s);
    CleanUpConfirms(cp, st.server, st.books);
    AppliedMeansAttempted(env, w, s);
    BeginRun(env, w, s.docs, s.url);
    forall i | 0 <= i < |s.docs| && UntilProbed(env, w, s.docs, i) && LeftAlone(env, w1, start.snapshot.value, i)
      ensures Same(w, Execute(env, cp, w, server, s).world, s.docs[i].key)
    {
      CommittedKeyIsSame(env, w, s, w1, i);
    }
  }

  lemma CommittedKeyIsSame(env: Env, w: World, s: Settings, w1: World, i: nat)
    requires Wf(w) && ManifestOk(s.docs) && i < |s.docs| && StartPublisher(env, w, s).applied
    requires var start := StartPublisher(env, w, s);
             && start.snapshot.Some? && |start.snapshot.value| == |s.docs|
             && w1 == Replay(env, start.world, s.calls) && Restore(env, start, w1).0 == []
             && UntilProbed(env, w, s.docs, i) && LeftAlone(env, w1, start.snapshot.value, i)
    ensures Same(w, Restore(env, StartPublisher(env, w, s), w1).1, s.docs[i].key)
  {
    hide Kubectl, Replay, RestoreAll, Snapshot, ApplyAll;
    var start := StartPublisher(env, w, s);
    var rs := start.snapshot.value;
    BeginRun(env, w, s.docs, s.url);
    AppliedMeansAttempted(env, w, s);
    assert rs[i] in rs && rs[i].attempted;
    RunEvolves(env, start.world, s.calls);
    RollbackSoundness(env, w1, rs, i);
  }
}
