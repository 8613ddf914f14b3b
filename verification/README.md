# Models of the live gates, the runtime health endpoint and the Core API tooling

The live-gate runners change a shared cluster and promise to put it back. Around them stand a readiness
evaluator in Go, the compatibility guard of the Core API, the generator and the coverage gate of the gateway
authorization registry, a mock server, and smaller deployment helpers. This project models the protocols
and transformations in them and proves what they promise, or exactly when they keep it.

| files | what they model |
|---|---|
| `Cluster` | objects with uid and resourceVersion; each kubectl call is preceded by arbitrary writes of other actors and may fail before or after it commits, or time out |
| `PublisherSpec`, `PublisherProofs`, `TransactionProofs`, `RollbackExactness`, `OrphanOrigin`, `ApplyEffects`, `RestoreTraces`, `PublisherRunner` | snapshot, apply and rollback of the eleven publisher resources: as functions, what they guarantee, when exactly they succeed, which calls they make and what these leave, and the runner's records and loops |
| `FaultInjection`, `FaultEvidence`, `StopMonitor` | the dependency fault loop, what it has observed, and the stop probe |
| `Ledger`, `LedgerSteps`, `AdapterRestore`, `KeyCleanup`, `LiveRun`, `LiveRunCalm`, `LiveGate` | the cleanup ledger of both runners, the adapter and the end of the C40 run, the commit rule of a whole C41 run, and the gate that executes it |
| `Readiness`, `ReadinessRuns`, `ReadinessResults`, `ReadinessSummary`, `Runtime` | one readiness evaluation as interleaved steps, its runs, its results, the summary after a stop, and the runtime object |
| `Compatibility`, `CompatibilityProofs`, `CompatibilityGuard`, `CompatibilityChecker` | baseline generator and checker, the relation they define, said about two specifications alone, and the checker's loops |
| `Registry`, `RegistryFields`, `RegistryPrinting`, `RegistryProofs`, `RegistryNewlines`, `RegistryCollector`, `RegistryRoundTrip`, `RouteCoverage` | the policy registry, its policies and fields, its printed text, reading it back character by character, the round trip, and the coverage gate |
| `JsonPatch`, `JsonPatchProofs` | compiling an environment update to index-based patch operations |
| `WebSocket`, `WebSocketProofs`, `WebSocketWire`, `WebSocketServer` | frames over a socket that returns arbitrary chunks, their wire bit by bit, and the echo session |
| `MockValue`, `MockValueProofs`, `MockChoices` | mock responses generated from schemas, and which value is picked |
| `Evidence`, `AuthorizedKeys` | crash-safe evidence files, and the authorized_keys merge |

Uncertainty is always a parameter the results quantify over: the turns of the environment (foreign writes,
failing, timing-out or lingering calls, patience of a wait), the answers of the control plane, the schedule of
socket reads, the failing steps of a volume, the interleaving of goroutines. Loops and objects that the
programs update in place are methods and classes proved against specification functions; the lemmas are about
those functions.

## Where the code and its promise differ

- The object found by the ownership probe after an apply need not be the runner's own
  (`AdoptionDeletesForeignObject`, `RefusedApplyAdoptsLaterObject`); `OwnershipProbeExact` gives the condition.
  The delete that follows carries no uid; `DeleteExact` gives its condition and `CommittedDeleteExact` both
  together.
- A committed apply that times out, or whose probe fails, leaves a resource that a later rollback refuses to
  delete (`OrphanExactly`); `UndoneExactly` shows, over the whole apply loop, that this is the only way an
  undisturbed rollback of a manifest that others keep off fails.
- A readiness summary of ok does not imply that the service is serving (`OkSummaryWhileNotServing`);
  `OkSummaryExactly` says when it becomes ok, and `StoppedBeforeProbeStaysDown` when it stays down.
- The key cleanup of the C40 runner stops at an exception that is not its own failure, such as a timeout while
  an answer is read (`EveryKeyIsAskedForExactly`), and the adapter is then not restored; neither is it when
  the run fails while its baseline is captured (`AdapterRestoreExactly`, `UncapturedAdapterStays`). Its restore
  is documented to attempt two commands independently and to leak no error, but one that times out leaks, and
  the other is then skipped (`ScaleExactly`, `TimedOutEnvSkipsScale`). The C41 key cleanup catches everything.
- A specification need not have a baseline nor validate against its own (`ReflexiveExactly`): the generator
  cannot sort quoted and unquoted response codes together (`MixedCodesHaveNoBaseline`), and the checker keeps
  the last of several parameters under one key, looks responses up under quoted codes only, and cannot make a
  set of an enumeration of lists or objects.
- The registry round trip depends on quotes and carriage returns, which reading the file turns into line feeds
  (`RoundTripExactly`); missing routes depend on those in paths alone (`FreshRegistryMissesNothing`).
- Restoring the gateway drops variables that were set before the roll-out (`RestoreUndoesRollout`), and an
  update rewrites the first of several entries with one name only (`NewValueStandsAlone`).
- The frame reader takes a split header for an empty frame and does not reassemble a split length or key
  (`FrameRoundTrip`); the echo loop never ends on a bare end of input (`NoCloseNeverCloses`).
- The mock ignores every keyword beside the first composition keyword and follows one reference only
  (`SiblingsExactly`, `AlternativesHideProperties`, `ReferenceChainExactly`).
- The evidence writer of the C41 runner, unlike that of the C40 runner, does not sync before it renames
  (`UnsyncedReplaceMayTear`, `FirstEvidenceNeedsSync`).
- Merging a key with a line break inside need not be idempotent (`SecondRunKeepsExactly`,
  `BrokenKeyIsAddedAgain`); it is from the second run on (`SecondRunIsStable`).

## Model

| member | source | states |
|---|---|---|
| PublisherProofs.CompareAndSwap | repo/scripts/run_inference_envoy_ai_gateway_c41_live.py:697-711 | A replace that carries the probed resourceVersion commits only on the very object the probe saw, whatever other actors did in between |
| PublisherProofs.WaitAbsentRun | repo/scripts/run_inference_envoy_ai_gateway_c41_live.py:676-682 | The wait only probes, and when it returns normally the resource is gone |
| PublisherProofs.RestoreOneRun | repo/scripts/run_inference_envoy_ai_gateway_c41_live.py:685-716 | Restoring one resource starts with a probe, writes nothing but that resource, commits a replace only on the prior uid with the prior body, deletes only right after a probe that saw the created uid, and on success leaves the prior object and body, or nothing |
| PublisherProofs.RestoreLoopRun | repo/scripts/run_inference_envoy_ai_gateway_c41_live.py:719-731 | In every environment, with any calls failing, all writes of the rollback loop are owned in that sense and every attempted resource is probed, so one failure never stops the others |
| PublisherProofs.RestoreLoopRestores | repo/scripts/run_inference_envoy_ai_gateway_c41_live.py:719-731 | A loop that reports no failure has restored each attempted resource whose own key other actors left alone once its turn was over; before that, uid check and compare-and-swap protect it |
| PublisherProofs.RollbackOwnership | repo/scripts/run_inference_envoy_ai_gateway_c41_live.py:685-737 | The same ownership and attempt guarantees for the whole rollback with its readiness wait |
| PublisherProofs.RollbackSoundness | repo/scripts/run_inference_envoy_ai_gateway_c41_live.py:719-737 | No failure reported means every attempted resource that other actors left alone after its own turn is back: same uid and body, or absent |
| TransactionProofs.SnapshotRun | repo/scripts/run_inference_envoy_ai_gateway_c41_live.py:575-586 | The snapshot writes nothing and records, per manifest resource left alone until its probe, presence, uid and body as they were |
| TransactionProofs.ApplyOneRun | repo/scripts/run_inference_envoy_ai_gateway_c41_live.py:613-644 | Applying one resource touches only its key, writes nothing unless it is marked attempted first, and a recorded created_uid is the uid of a live object |
| TransactionProofs.ApplyAllRun | repo/scripts/run_inference_envoy_ai_gateway_c41_live.py:609-644 | Apply keeps the snapshot fields, never deletes, and writes attempted resources only, the later environment edits of the publisher Deployment included |
| TransactionProofs.BeginRun | repo/scripts/run_inference_envoy_ai_gateway_c41_live.py:575-644 | Snapshot plus apply, stopped at any point: the records still describe the cluster before the transaction, keys stay distinct, nothing unattempted was written |
| TransactionProofs.TransactionScope | repo/scripts/run_inference_envoy_ai_gateway_c41_live.py:575-737 | In any environment, the transaction and its rollback together write to attempted manifest resources only |
| TransactionProofs.RollbackUndoesTransaction | repo/scripts/run_inference_envoy_ai_gateway_c41_live.py:575-737 | Whatever prefix of apply ran and whichever calls failed: after a rollback without failures each attempted manifest key holds the same object and body as before the snapshot, or is absent as before, if other actors left it alone until its snapshot probe and after its own rollback; whatever they did in between is undone or reported. An unattempted key asks for no foreign write at all |
| TransactionProofs.PrepareAllOrNothing | repo/scripts/run_inference_envoy_ai_gateway_c41_live.py:647-663 | Preparation is all or nothing: when it fails without naming the restore, each undisturbed manifest key is as it was found |
| ApplyEffects.SnapshotExactly | repo/scripts/run_inference_envoy_ai_gateway_c41_live.py:575-586 | The documents are probed in order up to the first probe that fails; the snapshot succeeds exactly when all are answered and records desired manifest, presence, object and uid as each probe saw them |
| ApplyEffects.ExistingApplyExactly | repo/scripts/run_inference_envoy_ai_gateway_c41_live.py:616-643 | For a resource that existed: the calls made are a probe and, exactly when it sees the recorded uid, the apply of the manifest; success is exactly that apply answered |
| ApplyEffects.NewApplyExactly | repo/scripts/run_inference_envoy_ai_gateway_c41_live.py:620-643 | For a new resource: the calls made are the apply and, unless it raised, a probe; success is exactly both answered with an object seen, whose uid is recorded |
| ApplyEffects.ApplyOneApplies | repo/scripts/run_inference_envoy_ai_gateway_c41_live.py:613-643 | A successful apply of a resource has committed its manifest: the body met on arrival is merged with the desired one and stays so while nobody acts on the key |
| ApplyEffects.ApplyLoopApplies | repo/scripts/run_inference_envoy_ai_gateway_c41_live.py:613-643 | The loop applies the manifests in order and each once, a prefix of them if it stops, and every one it reports is committed |
| ApplyEffects.ApplyAllApplies | repo/scripts/run_inference_envoy_ai_gateway_c41_live.py:609-644 | A successful apply had eleven resources, applied every manifest in order, each once and committed, and ended with the two edits and the rollout wait, all answered |
| ApplyEffects.ApplyAllInstalls | repo/scripts/run_inference_envoy_ai_gateway_c41_live.py:609-673 | Each resource that others leave alone then holds its body from before merged with its manifest, and the publisher Deployment both edits on top |
| ApplyEffects.TransactionApplies | repo/scripts/run_inference_envoy_ai_gateway_c41_live.py:575-644 | Snapshot and apply together: a transaction that goes through applies the eleven documents of the manifest, in order and each once |
| ApplyEffects.SetPublicBaseUrlExactly | repo/scripts/run_inference_envoy_ai_gateway_c41_live.py:666-673 | Exactly the two edits of the publisher Deployment and the rollout wait are called, up to the first that fails; success is exactly all three answered |
| ApplyEffects.UrlIsSet | repo/scripts/run_inference_envoy_ai_gateway_c41_live.py:668-672 | The two edits set the base URL to the given one, allow plain HTTP exactly for an http URL, and change no other variable |
| RestoreTraces.WaitAbsentExactly | repo/scripts/run_inference_envoy_ai_gateway_c41_live.py:676-682 | The wait probes until a probe fails, sees nothing, or was the last one allowed, and succeeds exactly when the last saw nothing |
| RestoreTraces.RestoreExistingExactly | repo/scripts/run_inference_envoy_ai_gateway_c41_live.py:685-710 | A prior resource is put back exactly when the probe sees its uid and a replace of the prior body under the probed version is answered |
| RestoreTraces.RestoreNewExactly | repo/scripts/run_inference_envoy_ai_gateway_c41_live.py:685-716 | A new resource is gone exactly when the probe sees nothing, or sees the created uid and an answered delete is followed by a probe that sees nothing |
| RestoreTraces.RollbackReports | repo/scripts/run_inference_envoy_ai_gateway_c41_live.py:719-737 | The report holds one entry per failed resource, last one first and under its kind, and then publisher readiness; that is waited for exactly when the attempted Deployment existed before, and reported exactly when the wait fails |
| RestoreTraces.PrepareExactly | repo/scripts/run_inference_envoy_ai_gateway_c41_live.py:647-663 | Preparation succeeds exactly when dry run, snapshot and apply do; a failing apply has every attempted resource probed for rollback, and the restore is named exactly when that rollback reports anything |
| RollbackExactness.RestoreAllCalm | repo/scripts/run_inference_envoy_ai_gateway_c41_live.py:685-737 | An undisturbed rollback succeeds exactly when each attempted resource still is the prior object, or is absent, or is the object recorded as created |
| RollbackExactness.CalmRollbackExact | repo/scripts/run_inference_envoy_ai_gateway_c41_live.py:609-737 | After an apply that any calls may have broken, an undisturbed rollback succeeds exactly when no attempted new resource is live without a recorded created_uid |
| RollbackExactness.OwnershipProbeExact | repo/scripts/run_inference_envoy_ai_gateway_c41_live.py:622-637 | Whether or not the apply reports success: a recorded created_uid is the one the runner's own apply assigned exactly when that apply committed, the key was free as it arrived, and nobody removed the object before the probe |
| RollbackExactness.DeleteExact | repo/scripts/run_inference_envoy_ai_gateway_c41_live.py:712-716 | Whether or not it reports success, the delete, which names no uid, hits the object the probe saw exactly when it committed and nobody removed that object in between |
| RollbackExactness.CommittedDeleteExact | repo/scripts/run_inference_envoy_ai_gateway_c41_live.py:622-716 | Over apply, anything that happens then, and rollback: a committed delete hits the object the own apply created exactly when that apply committed on a free key and nobody removed the object just before the ownership probe or just before the delete |
| RollbackExactness.OrphanExactly | repo/scripts/run_inference_envoy_ai_gateway_c41_live.py:622-643 | On a free key left alone, an apply leaves a resource of unknown ownership exactly when it committed and timed out or was followed by a failing probe |
| OrphanOrigin.ApplyLoopOrphans | repo/scripts/run_inference_envoy_ai_gateway_c41_live.py:613-644 | Over the apply loop: the resources of unknown ownership are exactly the new ones whose apply the loop reached, committed, and then lost to a timeout or a failing probe |
| OrphanOrigin.UndoneExactly | repo/scripts/run_inference_envoy_ai_gateway_c41_live.py:575-737 | Snapshot, apply and rollback composed: while others keep off the manifest and the rollback is undisturbed, it reports no failure exactly when the manifest was refused for its size or no apply of a new resource was lost in that way, whatever other calls failed |
| RollbackExactness.OrphanIsNotDeleted | repo/scripts/run_inference_envoy_ai_gateway_c41_live.py:712-715 | Such a resource stays: its rollback fails whatever the calls do |
| RollbackExactness.TimedOutApplyIsOrphaned | repo/scripts/run_inference_envoy_ai_gateway_c41_live.py:622-644 | A run that leaves one: the apply is committed but times out |
| RollbackExactness.AdoptionDeletesForeignObject | repo/scripts/run_inference_envoy_ai_gateway_c41_live.py:622-637 | A concrete run: an object another actor creates between snapshot and apply is adopted and then deleted by a rollback that reports success |
| RollbackExactness.RefusedApplyAdoptsLaterObject | repo/scripts/run_inference_envoy_ai_gateway_c41_live.py:622-637 | Another one: the apply is refused, another actor creates the object before the probe, and the rollback deletes it and reports success |
| PublisherRunner.Runner.SnapshotResource | repo/scripts/run_inference_envoy_ai_gateway_c41_live.py:577-584 | One record: existed, prior object and uid from a probe |
| PublisherRunner.Runner.SnapshotPublisher | repo/scripts/run_inference_envoy_ai_gateway_c41_live.py:575-586 | The loop over records updated in place computes the snapshot function; a failing probe ends it |
| PublisherRunner.Runner.ApplyResource | repo/scripts/run_inference_envoy_ai_gateway_c41_live.py:613-644 | The record is marked attempted before the call, and mutation_started follows |
| PublisherRunner.Runner.SetPublisherPublicBaseUrl | repo/scripts/run_inference_envoy_ai_gateway_c41_live.py:666-673 | The two environment edits and the rollout wait, stopping at the first failure |
| PublisherRunner.Runner.ApplyPublisher | repo/scripts/run_inference_envoy_ai_gateway_c41_live.py:609-644 | The loop over records computes the apply function, keeps mutation_started equal to "some resource attempted", and refuses any manifest size but 11 |
| PublisherRunner.Runner.WaitPublisherResourceAbsent | repo/scripts/run_inference_envoy_ai_gateway_c41_live.py:676-682 | The polling loop computes the bounded wait |
| PublisherRunner.Runner.RestorePublisherResource | repo/scripts/run_inference_envoy_ai_gateway_c41_live.py:685-716 | Branch by branch, the restore of one record |
| PublisherRunner.Runner.RestorePublisher | repo/scripts/run_inference_envoy_ai_gateway_c41_live.py:719-737 | The reversed loop collects failures instead of raising and waits for the Deployment only if it existed before |
| PublisherRunner.Runner.PreparePublisher | repo/scripts/run_inference_envoy_ai_gateway_c41_live.py:647-663 | A failing apply is rolled back before the failure is raised; the outcome says whether the rollback failed too |
| FaultInjection.RestoreDeploymentRun | repo/scripts/run_inference_envoy_ai_gateway_c41_live.py:373-411 | A restore that returns normally has put the snapshot body back on the object its own probe saw |
| FaultInjection.InjectOneRun | repo/scripts/run_inference_envoy_ai_gateway_c41_live.py:434-452 | One iteration touches its target only and, unless it reports a restore failure, leaves it as found, also when the injection itself failed |
| FaultInjection.FaultLoopInvariant | repo/scripts/run_inference_envoy_ai_gateway_c41_live.py:434-452 | Over any list of targets: at every loop head all targets are as at the start, an aborted loop has disturbed at most its current target and that only when the restore failed, and after no single call are two targets down together |
| FaultInjection.PrimaryOnlyMeansRestored | repo/scripts/run_inference_envoy_ai_gateway_c41_live.py:448-451 | A loop that stops with a primary error only has restored every target |
| FaultEvidence.InjectOneExactly | repo/scripts/run_inference_envoy_ai_gateway_c41_live.py:434-452 | The verdict on a target is the one its calls show: snapshotted, scaled to zero and polled down, refused a request, put back and polled until settled, answering again; a primary failure is reported exactly when one of the injection steps is missing, a restore failure exactly when the restore is |
| FaultEvidence.ShowsOne | repo/scripts/run_inference_envoy_ai_gateway_c41_live.py:434-452 | The calls of one target show one verdict only |
| FaultEvidence.FaultLoopExactly | repo/scripts/run_inference_envoy_ai_gateway_c41_live.py:434-452 | The calls of a loop fall into one stretch per finished target, in order, each showing the whole cycle; if the loop stopped, the calls after them show why, and if not, there are none |
| FaultInjection.FaultRunner.ScaleFaultToZero | repo/scripts/run_inference_envoy_ai_gateway_c41_live.py:352-363 | Scale to zero, then poll until no endpoint is ready |
| FaultInjection.FaultRunner.RestoreFaultTarget | repo/scripts/run_inference_envoy_ai_gateway_c41_live.py:373-411 | Probe, replace under the probed resourceVersion, then poll for recovery |
| FaultInjection.FaultRunner.RunFaultInjections | repo/scripts/run_inference_envoy_ai_gateway_c41_live.py:434-452 | The loop restores in all cases, combines both errors and stops at the first failing target |
| StopMonitor.WaitForUnpublishedThenStopped | repo/scripts/run_inference_envoy_ai_gateway_c41_live.py:769-793 | Accepts exactly the poll sequences with an unpublished, not yet stopped, 404, resolvable poll followed by a stopped one with the URL empty throughout; rejects exactly at the first poll out of order; times out on all others |
| StopMonitor.NotConfirmedWhenOutOfOrder | repo/scripts/run_inference_envoy_ai_gateway_c41_live.py:769-793 | No sequence is both acceptable and out of order |
| Ledger.DeleteConfirms | repo/scripts/run_inference_envoy_ai_gateway_c41_live.py:242-267 | An accepted deletion answer of a key or policy, or a 404, means the resource is gone; nothing issued comes back to life |
| Ledger.DiscardConfirms | repo/scripts/run_inference_envoy_ai_gateway_c41_live.py:248-261 | A deletion that returns normally, waits included, leaves its resource gone |
| Ledger.RegisterKeepsAccounts | repo/scripts/run_inference_envoy_ai_gateway_c41_live.py:228-239 | A creation keeps the accounts even when a later validation raises |
| Ledger.StepKeepsAccounts | repo/scripts/run_inference_envoy_ai_gateway_live.py:161-196 | Each ledger operation of either runner keeps the accounts: every id handed out is on the books or gone, revoke-then-remove and revoke-then-pop included |
| Ledger.LedgerInvariant | repo/scripts/run_inference_envoy_ai_gateway_c41_live.py:1081-1140 | At every point of every run over any plan, failures included, the books account for all resources whose id was returned |
| Ledger.DiscardAllConfirms | repo/scripts/run_inference_envoy_ai_gateway_c41_live.py:490-509 | Reverse-order cleanup asks for every entry whatever failed or raised before it, and an entry without a failure is gone |
| Ledger.CleanUpConfirms | repo/scripts/run_inference_envoy_ai_gateway_c41_live.py:490-509 | Cleanup without a failure leaves nothing live that the run was ever given the id of |
| Ledger.CleanUpAsksForAll | repo/scripts/run_inference_envoy_ai_gateway_c41_live.py:490-509 | Every registered policy, key and service is asked for, whichever deletions failed |
| LedgerSteps.RegisterExactly | repo/scripts/run_inference_envoy_ai_gateway_c41_live.py:228-283 | A creation succeeds exactly when it is accepted with an id and, for a key, a secret; its id is the last on the books of its kind exactly when it was handed out |
| LedgerSteps.DiscardExactly | repo/scripts/run_inference_envoy_ai_gateway_c41_live.py:242-267 | The deletion of a key or policy succeeds exactly when it is handled and answered with an accepted code; where the resource must exist, it did |
| LedgerSteps.ServiceGoneExactly | repo/scripts/run_inference_envoy_ai_gateway_c41_live.py:304-312 | The wait for a service succeeds exactly when a lookup, after answered ones only, finds it gone |
| LedgerSteps.FailuresExactly | repo/scripts/run_inference_envoy_ai_gateway_c41_live.py:490-509 | A cleanup loop reports as many failures as it had |
| LedgerSteps.CleanUpOrder | repo/scripts/run_inference_envoy_ai_gateway_c41_live.py:490-509 | Cleanup asks for policies, then keys, then services, each from the last registered to the first |
| LedgerSteps.CalmCleanUp | repo/scripts/run_inference_envoy_ai_gateway_c41_live.py:490-509 | A cleanup served in the ordinary way reports no failure, whatever is on the books |
| LedgerSteps.StepExactly | repo/scripts/run_inference_envoy_ai_gateway_live.py:161-196 | Exactly when a revocation, a deletion and a check of the plan succeed, and what they do to books and checks |
| LedgerSteps.RunExactly | repo/scripts/run_inference_envoy_ai_gateway_c41_live.py:1085-1138 | A plan goes through exactly when each step does, and nothing follows the first that fails |
| LiveRun.CleanupIsAttempted | repo/scripts/run_inference_envoy_ai_gateway_c41_live.py:1141-1145 | On every path cleanup asks for every policy, key and service on the books |
| LiveRun.BothPhasesAreAttempted | repo/scripts/run_inference_envoy_ai_gateway_c41_live.py:1139-1155 | If mutation had started, every attempted resource is probed for its rollback and every write of it is owned, whatever failed before; the run raises exactly when plan, cleanup or rollback failed, and names exactly those |
| LiveRun.UnstartedWroteNothing | repo/scripts/run_inference_envoy_ai_gateway_c41_live.py:1147-1148 | When no restore is attempted because mutation had not started, no call wrote anything |
| LiveRun.AppliedMeansAttempted | repo/scripts/run_inference_envoy_ai_gateway_c41_live.py:1082-1084 | An apply that went through has attempted every manifest resource |
| LiveRun.OutcomeExactly | repo/scripts/run_inference_envoy_ai_gateway_c41_live.py:1141-1160 | A run raises exactly when plan, cleanup or rollback failed; otherwise it is refused for a missing check, then for missing redaction, and committed in all other cases |
| LiveRun.UnappliedRunsNothing | repo/scripts/run_inference_envoy_ai_gateway_c41_live.py:1081-1084 | Without an applied manifest the control plane is asked for nothing and the run fails |
| LiveRun.CommitRule | repo/scripts/run_inference_envoy_ai_gateway_c41_live.py:1141-1160 | Whatever else is live on the control plane already: evidence is committed only if all required checks passed, nothing issued to the run is live, and each manifest key left alone until its probe and after its rollback is as before the run |
| LiveRunCalm.ApplyAllSucceeds | repo/scripts/run_inference_envoy_ai_gateway_c41_live.py:575-644 | Undisturbed, snapshot and apply of the eleven resources succeed and the uid of each created one is known |
| LiveRunCalm.UndisturbedRunCommits | repo/scripts/run_inference_envoy_ai_gateway_c41_live.py:1076-1160 | The converse of the commit rule: an undisturbed run, whose plan may make any cluster calls but deletes of manifest resources, commits exactly when its plan and cleanup go through and every other required check has passed |
| KeyCleanup.RevokeKeysRun | repo/scripts/run_inference_envoy_ai_gateway_live.py:745-752 | The loop goes through exactly when no revocation raises anything but the runner's own failure; it stops at the first that does |
| KeyCleanup.EveryKeyIsAskedForExactly | repo/scripts/run_inference_envoy_ai_gateway_live.py:745-752 | Every registered key is asked for exactly when no revocation but the last one made raises that way |
| KeyCleanup.RevokedKeysAreGone | repo/scripts/run_inference_envoy_ai_gateway_live.py:745-752 | No failure reported means no registered key is live |
| KeyCleanup.RaisingRevocationLeavesKeys | repo/scripts/run_inference_envoy_ai_gateway_live.py:745-752 | A first revocation that raises leaves every other key unasked for and live |
| AdapterRestore.WaitedExactly | repo/scripts/run_inference_envoy_ai_gateway_live.py:351-383 | The wait succeeds exactly when a poll finds the current generation observed at its size after answered, unfinished polls only and, for no replicas, the endpoints drain; it times out exactly when all polls are answered and none finds that |
| AdapterRestore.ScaleExactly | repo/scripts/run_inference_envoy_ai_gateway_live.py:386-403 | The environment command is always sent, the scale exactly when that command does not raise anything but the runner's own failure; if it does raise, the replicas stay as they are |
| AdapterRestore.RestoredExactly | repo/scripts/run_inference_envoy_ai_gateway_live.py:386-403 | No failure is reported exactly when both commands are answered and the wait succeeds, and then the adapter is as in the snapshot; something is reported exactly when nothing raises |
| AdapterRestore.ReportNames | repo/scripts/run_inference_envoy_ai_gateway_live.py:386-403 | The report names environment, replicas and readiness exactly where they failed |
| AdapterRestore.CapturedExactly | repo/scripts/run_inference_envoy_ai_gateway_live.py:322-329 | A baseline is captured exactly when apply and both probes are answered and the wait succeeds, and is what the manifest made of the adapter |
| AdapterRestore.TimedOutEnvSkipsScale | repo/scripts/run_inference_envoy_ai_gateway_live.py:394-402 | With an environment command that times out the scale is never sent and a changed size stays |
| KeyCleanup.AdapterRestoreExactly | repo/scripts/run_inference_envoy_ai_gateway_live.py:935-943 | The adapter restore is attempted exactly when its baseline was captured and no revocation raises that way, the scale exactly when the environment command does not raise either; otherwise the adapter is left as it is |
| KeyCleanup.EndedExactly | repo/scripts/run_inference_envoy_ai_gateway_live.py:935-943 | The block reaches its report exactly when no revocation raises and, where a baseline was captured, no command and no wait of its restore does |
| KeyCleanup.ReportExactly | repo/scripts/run_inference_envoy_ai_gateway_live.py:935-943 | The report counts exactly the keys whose revocation was not accepted and repeats what the adapter restore said, if there was one |
| KeyCleanup.UncapturedAdapterStays | repo/scripts/run_inference_envoy_ai_gateway_live.py:322-329 | When capturing the baseline raises, nothing is restored and nothing is said about the adapter, and a manifest that had taken effect stays |
| KeyCleanup.QuietEndRestores | repo/scripts/run_inference_envoy_ai_gateway_live.py:803-943 | An end without exception or report leaves no registered key live and the adapter at its captured baseline, whatever the run did to it |
| KeyCleanup.KeyRunner.CleanupApiKeys | repo/scripts/run_inference_envoy_ai_gateway_live.py:745-752 | The loop catches the runner's own failure and lets every other exception through |
| KeyCleanup.KeyRunner.CaptureAdapter | repo/scripts/run_inference_envoy_ai_gateway_live.py:322-329 | Apply, probe, wait, probe: a baseline exactly when all of them go through |
| KeyCleanup.KeyRunner.RestoreAdapterState | repo/scripts/run_inference_envoy_ai_gateway_live.py:386-403 | The two guarded commands in order and the unguarded wait, on the adapter and the list of commands sent |
| KeyCleanup.KeyRunner.FinishRun | repo/scripts/run_inference_envoy_ai_gateway_live.py:935-943 | Keys first, a captured adapter second, nothing after an exception |
| LiveGate.CleanupState.Register | repo/scripts/run_inference_envoy_ai_gateway_c41_live.py:286-301 | Registration appends to the list of that kind and touches no other |
| LiveGate.CleanupState.Remove | repo/scripts/run_inference_envoy_ai_gateway_live.py:185-186 | Removal takes out the first equal entry of that kind and touches no other |
| LiveGate.Gate.CreateRegistered | repo/scripts/run_inference_envoy_ai_gateway_live.py:161-190 | Id first, registration second, validation of the secret third |
| LiveGate.Gate.DeleteAndWait | repo/scripts/run_inference_envoy_ai_gateway_c41_live.py:248-261 | Delete, wait for the service and its publications |
| LiveGate.Gate.Perform | repo/scripts/run_inference_envoy_ai_gateway_c41_live.py:1085-1138 | One step of the acceptance plan, on the books in place |
| LiveGate.Gate.DeleteReversed | repo/scripts/run_inference_envoy_ai_gateway_c41_live.py:490-509 | One reversed cleanup loop: collects failures of every sort and goes on |
| LiveGate.Gate.CleanupOrFail | repo/scripts/run_inference_envoy_ai_gateway_c41_live.py:490-509 | Policies, then keys, then services |
| LiveGate.BeginPublisher | repo/scripts/run_inference_envoy_ai_gateway_c41_live.py:1082-1084 | Dry run, snapshot, apply; the snapshot survives a failing apply |
| LiveGate.ExecutePlan | repo/scripts/run_inference_envoy_ai_gateway_c41_live.py:1085-1138 | The plan runs in order and ends at the first failing step |
| LiveGate.RunGuarded | repo/scripts/run_inference_envoy_ai_gateway_c41_live.py:1081-1140 | The guarded region keeps its snapshot and records its failure |
| LiveGate.RestoreStarted | repo/scripts/run_inference_envoy_ai_gateway_c41_live.py:1146-1150 | The rollback runs if and only if mutation had started |
| LiveGate.Conclude | repo/scripts/run_inference_envoy_ai_gateway_c41_live.py:1151-1160 | The cleanup check is added only if both phases went through; failures, then missing checks, then redaction decide |
| LiveGate.RunLive | repo/scripts/run_inference_envoy_ai_gateway_c41_live.py:1076-1160 | The run in place: guarded region, both cleanup phases, conclusion |
| Readiness.JoinExtends | repo/runtimeadmin/readiness.go:98-109 | One more result joins into the status under ok < degraded < error |
| Readiness.ReceiveStep | repo/runtimeadmin/readiness.go:56-62 | A receive keeps the invariant, finds its check pending and strictly shrinks the pending set |
| Readiness.DeadlineStep | repo/runtimeadmin/readiness.go:63-73 | The deadline branch keeps the invariant in whatever order the pending map is iterated |
| Readiness.NextInv | repo/runtimeadmin/readiness.go:28-96 | Every step of collector, goroutines and environment keeps the invariant |
| ReadinessRuns.RunInvariant | repo/runtimeadmin/readiness.go:28-96 | The invariant holds in every state of every interleaving |
| ReadinessRuns.PublishedIsCompleteJoin | repo/runtimeadmin/readiness.go:53-76 | A finished evaluation has exactly one result per configured check plus service-serving, and its status is their join whatever the completion order |
| ReadinessRuns.ReceiveNeverSkips | repo/runtimeadmin/readiness.go:56-59 | The branch that skips an unknown name is unreachable |
| ReadinessRuns.SendNeverBlocks | repo/runtimeadmin/readiness.go:46-51 | No goroutine ever blocks on its send |
| ReadinessRuns.OkRestsOnEvidence | repo/runtimeadmin/readiness.go:33-44 | An ok result means serving was true at some step of the evaluation, every probe returned nil, and no context had expired when its result was accepted |
| ReadinessRuns.NotServingMeansError | repo/runtimeadmin/readiness.go:33-44 | Serving false throughout gives error in every interleaving |
| ReadinessRuns.NeverHangsPastDeadline | repo/runtimeadmin/readiness.go:54-74 | Once the overall context is done the collector always has a step of its own |
| ReadinessRuns.WorkIsBounded | repo/runtimeadmin/readiness.go:46-76 | Collector and goroutines take at most four steps per check and two more, however the environment behaves |
| ReadinessRuns.OkSummaryWhileNotServing | repo/runtimeadmin/runtime.go:132-137 | A concrete interleaving ends with summary ok although serving was stored false and the error summary written before |
| ReadinessResults.PassedExactly | repo/runtimeadmin/readiness.go:78-96 | A recorded check has passed exactly when its probe returned nil, no context had expired at its decision, and its result was received rather than given up on |
| ReadinessResults.StatusExactly | repo/runtimeadmin/readiness.go:53-76 | A complete evaluation is ok exactly when every check passed in that sense, and an error exactly when some strong one did not |
| ReadinessSummary.OkSummaryExactly | repo/runtimeadmin/runtime.go:132-157 | For any checks and any run: after the error summary of a stop the summary is ok exactly when the last to write it was another writer with an ok, or this evaluation with every probe clean, in time and received |
| ReadinessSummary.StoppedBeforeProbeStaysDown | repo/runtimeadmin/readiness.go:33-44 | If serving was stored false before the serving check of the evaluation was answered, the summary stays down unless another writer, such as another evaluation, puts it up |
| Runtime.ValidateChecks | repo/runtimeadmin/runtime.go:232-254 | Accepts exactly the lists whose trimmed names match, are unique and not reserved, with known criticality and a probe; otherwise names the first check and the first rule it breaks; accepted names make the evaluation well formed; an accepted check carries the trimmed name and the criticality that was written |
| Runtime.TrimKeepsMiddle | repo/runtimeadmin/runtime.go:232-240 | Trimming a name keeps what stands between its outer spaces |
| Runtime.Runtime.SetServing | repo/runtimeadmin/runtime.go:132-137 | Storing false also writes the error summary; storing true leaves the summary |
| Runtime.Runtime.UpdateSummary | repo/runtimeadmin/runtime.go:153-157 | Overwrites the summary |
| Runtime.Runtime.Shutdown | repo/runtimeadmin/runtime.go:145-151 | Stops serving, shuts the provider down at most once and answers with the first result every time |
| CompatibilityProofs.NormalizeIdempotent | repo/scripts/validate_core_api_compatibility.py:28-42 | Normalising is idempotent at any nesting |
| CompatibilityProofs.CurrentHoldsLast | repo/scripts/validate_core_api_compatibility.py:85-89 | The dictionary keeps the last parameter under a key |
| CompatibilityProofs.ReflexiveExactly | repo/scripts/generate_core_api_compatibility_baseline.py:60-132 | A specification has a baseline and validates against it exactly when no operation mixes quoted and unquoted response codes, the codes of its response objects are quoted, parameters under one (in, name) agree, and no parameter key or enumeration holds a list or an object, which cannot be hashed |
| CompatibilityProofs.MixedCodesHaveNoBaseline | repo/scripts/generate_core_api_compatibility_baseline.py:62 | A concrete one: the checker accepts a response added under an unquoted code, and the generator then raises, because it sorts numbers and strings together |
| CompatibilityProofs.ObjectEnumIsRejected | repo/scripts/validate_core_api_compatibility.py:147-150 | A concrete one: an enumeration of objects makes the check raise on the very specification the baseline was generated from |
| CompatibilityProofs.ProtectionInherited | repo/scripts/validate_core_api_compatibility.py:108-119 | A request schema protected by the old baseline is protected by the baseline of any compatible successor |
| CompatibilityProofs.Transitive | repo/scripts/validate_core_api_compatibility.py:70-150 | Compatibility composes: s2 against baseline(s1) and s3 against baseline(s2) give s3 against baseline(s1) |
| CompatibilityProofs.ProtectedRequiredIsFrozen | repo/scripts/validate_core_api_compatibility.py:131-139 | Along compatible change the required fields of a protected request schema stay exactly the same |
| CompatibilityProofs.AdditiveChangeStaysValid | repo/scripts/validate_core_api_compatibility.py:70-150 | New paths, methods and responses, parameters inserted anywhere under new keys or reordered under different ones, optional properties, further scalar enum values, and changes in keywords no signature records never break validity against any baseline |
| CompatibilityGuard.AgreeExactly | repo/scripts/validate_core_api_compatibility.py:28-42 | Two schemas have the same signature exactly when they agree on every recorded keyword at every depth |
| CompatibilityGuard.GoesByExactly | repo/scripts/validate_core_api_compatibility.py:45-67 | A schema goes by the last segment of its reference, or by the text of its signature |
| CompatibilityGuard.AcceptsExactly | repo/scripts/validate_core_api_compatibility.py:70-150 | The guard accepts a specification against the baseline of another exactly when everything declared there stays: operations with id, scope, parameters, required body, request and response schemas, and schemas with type, required fields, and properties that agree at every depth and keep their enumerated values |
| CompatibilityChecker.ResponseBaselines | repo/scripts/generate_core_api_compatibility_baseline.py:61-67 | The loop records every response object under its code as a string, or raises exactly when the codes mix numbers and strings |
| CompatibilityChecker.CurrentParameters | repo/scripts/validate_core_api_compatibility.py:85-89 | The loop builds the dictionary in which the last parameter under a key wins, or raises exactly when a key cannot be hashed |
| CompatibilityChecker.ValidateOperation | repo/scripts/validate_core_api_compatibility.py:80-105 | The early-exit checks accept exactly the operations that satisfy the declarative rule |
| CompatibilityChecker.ValidateOperations | repo/scripts/validate_core_api_compatibility.py:70-105 | All protected paths and methods, exactly |
| CompatibilityChecker.RequestSchemaNames | repo/scripts/validate_core_api_compatibility.py:108-119 | Collects exactly the plain, single-line request schema names |
| CompatibilityChecker.ValidateSchema | repo/scripts/validate_core_api_compatibility.py:129-150 | Type, both directions of required for protected schemas, signatures and enums, exactly; enums that cannot be made sets raise |
| CompatibilityChecker.ValidateSchemas | repo/scripts/validate_core_api_compatibility.py:122-150 | All protected schemas, exactly |
| CompatibilityChecker.Validate | repo/scripts/validate_core_api_compatibility.py:160-161 | The whole check decides the relation the preorder lemmas are about |
| Registry.ParseSecurity | repo/scripts/generate_gateway_authz.py:78-93 | Succeeds exactly when every alternative names one known scheme, and keeps them in order; AND requirements are refused |
| Registry.Classify | repo/scripts/generate_gateway_authz.py:122-145 | An accepted policy carries the upper-case method and gateway path and only constants the printer knows; a duplicate route is never its error |
| RegistryFields.AcceptedExactly | repo/scripts/generate_gateway_authz.py:67-145 | An operation secured by a list, its own if it has one and the document's otherwise, is accepted exactly when it has an id or is one of three derived ones, and has no authorization entry with an empty list, or else one known scheme per alternative and a valid five-field entry, if any |
| RegistryFields.NoListIsRefused | repo/scripts/generate_gateway_authz.py:67-75 | Security that is no list is refused, an operation's own even beside a list of the document |
| RegistryFields.PolicyExactly | repo/scripts/generate_gateway_authz.py:67-151 | The policy carries exactly the schemes of the list that secures the operation, is public exactly when that list is empty, and says id, upper-case method, gateway path and the fields of the entry as they are |
| RegistryCollector.ClassifyAccepts | repo/scripts/generate_gateway_authz.py:96-145 | Acceptance by the checks on id, effective security and entry |
| RegistryCollector.ClassifyKeeps | repo/scripts/generate_gateway_authz.py:67-145 | The policy is public, legacy or generated by security and entry, and carries the schemes in order and the fields of the entry unchanged |
| RegistryCollector.GatewayPathInjective | repo/scripts/generate_gateway_authz.py:148-151 | Different document paths never share a gateway path |
| RegistryCollector.RoutesAreDistinct | repo/scripts/generate_gateway_authz.py:166-168 | The route of a newly visited operation was not collected before |
| RegistryCollector.CollectPolicies | repo/scripts/generate_gateway_authz.py:154-175 | For any enumeration of the paths, sorted order included: succeeds exactly when every declared operation classifies and no two share an operation id, yields one policy per operation in order, and never reports a duplicate route |
| RegistryCollector.Render | repo/scripts/generate_gateway_authz.py:228-239 | The line-appending loop prints what the text lemmas are about |
| RegistryPrinting.HeadIsPrinted | repo/scripts/generate_gateway_authz.py:200-207 | In the printed lines of a policy the field of each name reads back as the source, by the constant that stands for it, and the quoted id, method and path |
| RegistryPrinting.SecurityIsPrinted | repo/scripts/generate_gateway_authz.py:208-213 | The alternatives are printed in order, each as the constant for its scheme, and only where there are some |
| RegistryPrinting.EntryIsPrinted | repo/scripts/generate_gateway_authz.py:214-223 | Version, resource, action, boundary and principal kinds of a generated policy read back from its lines, the last two by the constants for them |
| RegistryPrinting.NoEntryIsPrinted | repo/scripts/generate_gateway_authz.py:214 | No other policy has any of these fields |
| RegistryProofs.MatchKey | repo/scripts/validate_core_gateway_authz_routes.py:169-177 | A printed key is matched as its own method and path, whichever alternatives come first |
| RegistryProofs.ScanValue | repo/scripts/validate_core_gateway_authz_routes.py:174-177 | What a quoted value is read as never depends on the text after it |
| RegistryProofs.PlainTextHoldsNoRoute | repo/scripts/validate_core_gateway_authz_routes.py:174-177 | A value without quotes is never read as a route |
| RegistryProofs.PolicyYields | repo/scripts/generate_gateway_authz.py:200-225 | The printed lines of one policy are read as its route plus whatever keys its own texts spell out |
| RegistryProofs.PrintedRegistryReadsBack | repo/scripts/validate_core_gateway_authz_routes.py:174-177 | The pattern finds in the printed text, in order, one route per policy plus the keys spelled out in policy texts, for policies whose paths hold no quote |
| RegistryNewlines.ReadTextClean | repo/scripts/validate_core_gateway_authz_routes.py:172 | Reading a file as text leaves no carriage return, changes nothing where there is none, and keeps quotes |
| RegistryNewlines.ReadRegistry | repo/scripts/validate_core_gateway_authz_routes.py:169-177 | Reading the file of a registry gives the printed registry of the policies with their strings so translated |
| RegistryRoundTrip.PoliciesAreTheRoutes | repo/scripts/validate_core_gateway_authz_routes.py:82-90 | The collected policies are exactly the reference routes of the document |
| RegistryRoundTrip.FreshRegistryReads | repo/scripts/validate_core_gateway_authz_routes.py:169-177 | What is read back of a fresh registry: the routes of its policies with translated paths, and the keys their texts spell out |
| RegistryRoundTrip.UncleanPathIsMissing | repo/scripts/validate_core_gateway_authz_routes.py:200-201 | Each declared path with a quote or a carriage return is reported missing |
| RegistryRoundTrip.FreshRegistryMissesNothing | repo/scripts/validate_core_gateway_authz_routes.py:200-201 | A fresh registry triggers the "route missing" error exactly when some declared path contains a quote or a carriage return; texts are unrestricted |
| RegistryRoundTrip.RoundTripExactly | repo/scripts/generate_gateway_authz.py:154-239 | Printing the registry to a file and parsing the file gives exactly the routes of the document if and only if declared paths hold neither quote nor carriage return and policy texts, as read, spell out no foreign key |
| RegistryRoundTrip.QuoteFreeRoundTrip | repo/scripts/generate_gateway_authz.py:154-239 | Every accepted document with such paths and without quotes in its texts makes the round trip |
| RegistryRoundTrip.OnePathRoundTrip | repo/scripts/generate_gateway_authz.py:154-239 | A document with one path makes the round trip exactly when the path holds neither quote nor carriage return |
| RegistryRoundTrip.CarriageReturnPathIsMissing | repo/scripts/validate_core_gateway_authz_routes.py:172-177 | Two concrete paths, one with a carriage return and one with a quote, are reported missing |
| RegistryRoundTrip.QuotedIdIsReadAsRoute | repo/scripts/generate_gateway_authz.py:204 | A concrete operation id with a quote is read back as a route |
| RouteCoverage.OpenapiRegistryRoutes | repo/scripts/validate_core_gateway_authz_routes.py:82-90 | The nested loops build the reference routes |
| RouteCoverage.Validate | repo/scripts/validate_core_gateway_authz_routes.py:191-202 | Reports exactly the unclassified routes, the core routes the registry lacks, and the document routes the registry lacks |
| RouteCoverage.ScopeExactly | repo/scripts/validate_core_gateway_authz_routes.py:180-188 | Which paths are core, out of scope, exempt, and which are unclassified |
| RouteCoverage.DeclaredPathScope | repo/scripts/validate_core_gateway_authz_routes.py:75-79 | A declared path is in scope at the gateway unless it belongs to the services or the demo |
| RouteCoverage.FreshRegistryValidates | repo/scripts/validate_core_gateway_authz_routes.py:169-202 | With a fresh registry the gate is silent exactly when every registered route is in order against the document itself |
| JsonPatch.PatchDeploy | repo/scripts/run_inference_incluster_e2e.py:299-327 | The emitted operations, executed in order as sections 4.1 to 4.3 of RFC 6902 say, equal the declarative update for every variable list, repeated names included; they are refused exactly when the image or the list they need is absent, so no index is ever out of range |
| JsonPatch.VariableStep | repo/scripts/run_inference_incluster_e2e.py:311-322 | Replacing in place at the first index, or appending, keeps execution equal to the update so far |
| JsonPatch.RemovalStep | repo/scripts/run_inference_incluster_e2e.py:323-325 | Removing in reverse keeps lower indices valid: everything behind the position has already moved up |
| JsonPatchProofs.LookupAfterUpdate | repo/scripts/run_inference_incluster_e2e.py:311-325 | New names carry their values, dropped names are gone, every other name reads as before |
| JsonPatchProofs.OrderAfterUpdate | repo/scripts/run_inference_incluster_e2e.py:311-325 | Survivors keep their order, untouched entries keep their content, new names come last |
| JsonPatchProofs.AdditionsInOrder | repo/scripts/run_inference_incluster_e2e.py:311-322 | New names come in the order in which they were given |
| JsonPatchProofs.UpdateExactly | repo/scripts/run_inference_incluster_e2e.py:299-347 | The patch is refused exactly when the image or the list it changes is absent; otherwise the first container has the new image and variables and everything else stays |
| JsonPatchProofs.NewValueStandsAlone | repo/scripts/run_inference_incluster_e2e.py:313-320 | The new value is the only one under its name exactly when every later entry of that name already carried it |
| JsonPatchProofs.RestoreUndoesRollout | repo/scripts/run_inference_incluster_e2e.py:349-359 | Rolling out the extra variables and restoring gives the deployment back exactly when none of those names was set before |
| WebSocketProofs.MaskTwice | repo/scripts/serve_core_mock.py:607-608 | Masking twice with one key is the identity (section 5.3 of RFC 6455) |
| WebSocketWire.MaskedExactly | repo/scripts/serve_core_mock.py:607-608 | Byte j of the masked payload is, bit by bit, the exclusive or of byte j and byte j mod 4 of the key, and nothing else is |
| WebSocketWire.UnmaskExactly | repo/scripts/serve_core_mock.py:607-608 | A key that arrived short unmasks exactly the payloads it covers, bit by bit, and raises on longer ones; no key leaves the payload |
| WebSocketWire.LengthExactly | repo/scripts/serve_core_mock.py:594-597 | The extended length is big-endian |
| WebSocketWire.WireExactly | repo/scripts/serve_core_mock.py:588-625 | The bytes written for a frame are exactly those described by final flag, opcode, mask flag, length and its escapes, key, and payload masked bit by bit |
| WebSocketWire.FlagsAreIgnored | repo/scripts/serve_core_mock.py:588-591 | Final flag and reserved bits make no difference to the reader |
| WebSocketProofs.LengthRoundTrip | repo/scripts/serve_core_mock.py:612-625 | All three length encodings round trip below 2^64 |
| WebSocket.GatherIsPrefix | repo/scripts/serve_core_mock.py:601-606 | However recv chunks the payload, it is assembled from the bytes next in line |
| WebSocketProofs.FrameRoundTrip | repo/scripts/serve_core_mock.py:583-625 | Reading a written frame, masked or not, gives back opcode and payload and leaves what follows exactly when no recv splits header, extended length or key and the opcode is below 16 |
| WebSocketWire.WireRoundTrip | repo/scripts/serve_core_mock.py:583-625 | The same for any bytes so described |
| WebSocketProofs.StreamRoundTrip | repo/scripts/serve_core_mock.py:583-625 | A concatenation of frames is read as the frame list |
| WebSocketProofs.GenerousReadsAreWhole | repo/scripts/serve_core_mock.py:588-600 | A socket that returns at least eight of the bytes it has never splits header, extended length or key |
| WebSocketProofs.EchoSession | repo/scripts/serve_core_mock.py:657-679 | Up to the first close frame pings are answered by pongs with their payload, decodable input is echoed, the rest ignored, in order; the session closes exactly when no earlier frame makes the handler raise |
| WebSocketProofs.NoCloseNeverCloses | repo/scripts/serve_core_mock.py:657-667 | A stream without a close frame never ends the session: it spins at end of input or aborts |
| WebSocketServer.ReadFrame | repo/scripts/serve_core_mock.py:583-609 | Branch by branch, the frame reader on a socket |
| WebSocketServer.ReadPayload | repo/scripts/serve_core_mock.py:601-606 | The chunk loop |
| WebSocketServer.SendFrame | repo/scripts/serve_core_mock.py:612-625 | Writes exactly the unmasked frame, or nothing when the length does not fit 64 bits |
| WebSocketServer.EchoLoop | repo/scripts/serve_core_mock.py:657-679 | The loop computes the session and sends exactly its replies |
| MockValueProofs.MockConforms | repo/scripts/serve_core_mock.py:116-155 | For sound schemas with acyclic references, all conditions read off the schema, the generator never raises and its value has the shape described at every depth: merged allOf objects, members required by sibling branches, and keywords beside a composition keyword included |
| MockValueProofs.SketchIsRight | repo/scripts/serve_core_mock.py:116-155 | Kind and member names of the generated value, read off the schema alone |
| MockValueProofs.SiblingsExactly | repo/scripts/serve_core_mock.py:124-134 | Keywords beside a sound composition are ignored by the generator: the value conforms exactly when it happens to meet them, and where they describe none of its members, exactly when its kind is a listed type and its members include the required ones |
| MockValueProofs.PlainBranchesAreSeparate | repo/scripts/serve_core_mock.py:128-134 | Object branches without examples, directly or by reference, are separate as soon as no two describe the same member |
| MockValueProofs.MergeKeepsBranches | repo/scripts/serve_core_mock.py:128-134 | In a merge of separate branches each branch finds exactly its own members |
| MockValueProofs.OtherMembersDoNotMatter | repo/scripts/serve_core_mock.py:128-134 | Members a branch does not describe never break its shape |
| MockValueProofs.AlternativesHideProperties | repo/scripts/serve_core_mock.py:124-127 | An object schema whose first alternative only requires members is answered with a text, whatever its properties are |
| MockValueProofs.ReferenceChainExactly | repo/scripts/serve_core_mock.py:116-167 | A reference that lands on a reference is answered with a text, for every acyclic document; it conforms exactly when the chain ends in a schema that text meets, which without composition keywords means: no type or the string type, and no enumeration or one that lists it |
| MockValueProofs.TwoHopsAreLost | repo/scripts/serve_core_mock.py:158-167 | A concrete document: two hops to an integer schema |
| MockChoices.FirstKeywordWins | repo/scripts/serve_core_mock.py:116-127 | An example comes first, then the first enumerated value, then the first alternative of oneOf, then of anyOf |
| MockChoices.PickedTypeExactly | repo/scripts/serve_core_mock.py:135-137 | Of several types the first that is not null counts |
| MockChoices.ContentsExactly | repo/scripts/serve_core_mock.py:138-144 | An array has exactly one item, generated from its schema; an object has exactly the described members, each generated from its own; either raises exactly when one of these does |
| MockChoices.LastBranchWins | repo/scripts/serve_core_mock.py:128-134 | A merged object has exactly the members some branch gives, each as the last of these gives it |
| MockChoices.MergeFailsExactly | repo/scripts/serve_core_mock.py:128-134 | A merge raises exactly when a branch does |
| MockChoices.BlankIsMarked | repo/scripts/serve_core_mock.py:116-119 | An empty schema is answered with the operation id and a mark |
| MockChoices.FormatsAreWellFormed | repo/scripts/serve_core_mock.py:145-155 | The scalar values, and that those for uuid and date-time are well formed |
| Evidence.WriteEvidenceAtomically | repo/scripts/run_inference_envoy_ai_gateway_live.py:755-775 | In every state passed through, a crash, power loss included, leaves what the target could hold before or the complete accepted text; a normal return means the new text survives a power loss; a temporary file remains only if its removal raised; it returns exactly when the text is accepted and no step fails |
| Evidence.FillAndReplace | repo/scripts/run_inference_envoy_ai_gateway_live.py:760-772 | The guarded steps up to the directory sync; a failure leaves the target alone or comes after the replacement |
| Evidence.ReplaceIsSafe | repo/scripts/run_inference_envoy_ai_gateway_live.py:766-772 | Replacing the target by a complete, synced file is safe at once and durable after the directory sync |
| Evidence.ReplaceIsSafeExactly | repo/scripts/run_inference_envoy_ai_gateway_live.py:762-767 | Replacing by a complete file is crash safe exactly when every shorter text from its synced length on is one the target could hold before |
| Evidence.FirstEvidenceNeedsSync | repo/scripts/run_inference_envoy_ai_gateway_c41_live.py:1055-1058 | Where there was no evidence before, the replacement is crash safe exactly when the file is synced in full |
| Evidence.UnlinkIsSafe | repo/scripts/run_inference_envoy_ai_gateway_live.py:773-775 | Giving up removes the temporary name and leaves the target |
| Evidence.WriteRedactedEvidence | repo/scripts/run_inference_envoy_ai_gateway_c41_live.py:1049-1062 | Without syncs the target is old or complete whenever the process dies; text that is not redacted changes nothing; it returns exactly when the text is redacted and no step fails |
| Evidence.FillUnsynced | repo/scripts/run_inference_envoy_ai_gateway_c41_live.py:1054-1059 | The guarded steps of the writer without syncs |
| Evidence.UnsyncedReplaceMayTear | repo/scripts/run_inference_envoy_ai_gateway_c41_live.py:1055-1058 | Without a sync a power loss after the replacement may leave any prefix of the text, even none |
| AuthorizedKeys.RenderAuthorizedKeys | repo/scripts/ani_ssh_trust_installer.py:133-142 | The loop with its seen set keeps the first occurrence of each stripped, non-empty line |
| AuthorizedKeys.DistinctKeeps | repo/scripts/ani_ssh_trust_installer.py:134-141 | Lines are distinct, are exactly the entries, and every part of the input yields a prefix of the result, so order is that of first occurrence |
| AuthorizedKeys.ExistingLinesStayFirst | repo/scripts/ani_ssh_trust_installer.py:136-141 | The lines of the file come first, in order; every non-empty key is present |
| AuthorizedKeys.StripKeepsMiddle | repo/scripts/ani_ssh_trust_installer.py:137 | Stripping keeps everything between the outer blanks |
| AuthorizedKeys.LinesRebuild | repo/scripts/ani_ssh_trust_installer.py:136 | The lines of a text are exactly what stands between its breaks |
| AuthorizedKeys.MergedHoldsExactly | repo/scripts/ani_ssh_trust_installer.py:134-141 | The result holds exactly the stripped lines and keys that are not blank |
| AuthorizedKeys.TextExactly | repo/scripts/ani_ssh_trust_installer.py:142 | The text has a line feed after every line, and one where there is none |
| AuthorizedKeys.MergeIsIdempotent | repo/scripts/ani_ssh_trust_installer.py:133-142 | For keys without line breaks inside, blanks and breaks around them aside, merging into the rendered text again returns that text |
| AuthorizedKeys.SecondRunIsStable | repo/scripts/ani_ssh_trust_installer.py:133-142 | For any keys: the second run takes every line apart at its breaks and appends the keys with breaks once, and from then on nothing changes |
| AuthorizedKeys.SecondRunKeepsExactly | repo/scripts/ani_ssh_trust_installer.py:133-142 | The second run keeps the list of lines exactly when the lines with breaks inside come last and everything they are read as is a line already |
| AuthorizedKeys.BrokenKeyIsAddedAgain | repo/scripts/ani_ssh_trust_installer.py:136-142 | One concrete key with a break inside, for which the first and the second run differ |

## Left out

- HTTP, kubectl, docker, subprocess and TLS mechanics, clocks and sleeps: calls are answered by the environment parameter, and a bounded wait is a number of polls.
- The identity checks of a probe (apiVersion, kind, namespace, name): the modelled server answers for the key it was asked about.
- The uid inside a replaced document: the modelled server checks the resourceVersion only, although a real one also compares the uid; the ownership results do not need it.
- Parsing of the publisher manifest: the documents are a parameter; the results about it ask for distinct keys and for the publisher Deployment among them.
- A `finally` block of the C41 runner that is itself cut short by an interrupt, and creations that were handled but whose id never reached the runner: the ledger results speak of ids that were returned.
- LiveRun.CommitRule: the acceptance plan is an arbitrary list of ledger operations, checks and cluster calls rather than the fixed script, so what single checks establish about the service is not part of it.
- FaultInjection.FaultLoopInvariant: a fault target that others delete and recreate is outside it, because the restore compares resourceVersion but no uid; the result asks other actors to leave the targets alone.
- Policy precedence probing, publisher reconcile, log redaction and identity resolution: finite checks on answers.
- Adapter state of the C40 runner: the two fields it restores; what its preparation finds missing in a deployment counts as an unanswered probe, and other actors leave the adapter alone while its baseline is captured and while it is restored. The two restores in the middle of that run are part of what happens to the adapter before its end.
- ReadinessSummary.OkSummaryExactly: follows one evaluation; concurrent ones appear in its run as further writers of the summary, each with a run of its own.
- Latency figures, error texts, logging, metrics and handlers around readiness; the request context is the overall deadline.
- Goroutine scheduling is interleaving of whole steps; memory effects below an atomic load or a mutex are not modelled.
- YAML parsing and dumping: the dump of a schema is an arbitrary function, and its text matters only where the code compares or scans it.
- Specifications whose parameters are not objects, or whose composition keywords are not lists: the generator raises on them.
- Names and keys of a specification that YAML does not read as strings, response codes excepted.
- The sorted order of baselines, registry and error lists: registry results hold for every order of the paths, the error report is a set.
- gofmt, file names and the drift gate of the registry; `_function_bodies` and the scan of Go sources for registered routes: the registered routes are a parameter of the coverage gate.
- JsonPatch.PatchDeploy: other actors do not change the deployment between the read of the variable names and the patch.
- The text of a JSON Pointer and of the patch document: operations carry indices.
- The WebSocket handshake, fragmentation, the JSON text of replies and the time a read blocks; decoding a payload is an arbitrary function.
- Schema keywords without influence on shape (lengths, bounds, patterns, formats) and an `example` or `enum` beside a `$ref`.
- MockValueProofs.MockConforms: asks for one composition keyword at a time and for separate object branches under allOf, while keywords beside a composition keyword are settled by MockValueProofs.SiblingsExactly; `additionalProperties` and `not` restrict the shape of a value too, but are not part of the modelled shape.
- Python's equality of 1, 1.0 and True, and enumerations that are not lists: the compatibility model compares values as written.
- Evidence.WriteEvidenceAtomically: directory updates reach the medium in the order in which they were made, and a synced file keeps its content; file modes are left out.
- AuthorizedKeys.MergeIsIdempotent: keys with a line break inside are excluded, as they are in the file format; AuthorizedKeys.SecondRunIsStable covers them.
- AuthorizedKeys.SecondRunKeepsExactly: compares lists of lines; with breaks inside, different lists may still have the same text.
- Lone surrogates in specification strings, which cannot be written to the registry file.
- The SSH configuration and hosts blocks, SDK and page templates, manifests, migrations and token-list validators.
