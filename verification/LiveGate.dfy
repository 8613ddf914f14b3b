/** The live gate as it executes: books that are appended to and removed from in place, and one guarded
    region after which cleanup and rollback both run. */
module LiveGate {
  import opened Cluster
  import opened Options
  import opened Ledger
  import opened LiveRun
  import Spec = PublisherSpec
  import PublisherRunner

  class CleanupState {
    var services: seq<Ref>
    var policies: seq<Ref>
    var apiKeys: seq<Ref>

    constructor ()
      ensures Value() == Books([], [], [])
    {
      services, policies, apiKeys := [], [], [];
    }

    function Value(): Books
      reads this
    {
      Books(policies, apiKeys, services)
    }

    method Register(kind: Kind, ref: Ref)
      modifies this
      ensures Value() == old(Value()).With(kind, old(Value()).Of(kind) + [ref])
    {
      match kind
      case Policy => policies := policies + [ref];
      case ApiKey => apiKeys := apiKeys + [ref];
      case Service => services := services + [ref];
    }

    method Remove(kind: Kind, ref: Ref)
      modifies this
      ensures Value() == old(Value()).With(kind, RemoveFirst(old(Value()).Of(kind), ref))
    {
      match kind
      case Policy => policies := RemoveFirst(policies, ref);
      case ApiKey => apiKeys := RemoveFirst(apiKeys, ref);
      case Service => services := RemoveFirst(services, ref);
    }
  }

  class Gate {
    const cp: ControlPlane
    const cleanup: CleanupState
    var server: Server
    var checks: set<string>

    constructor (cp: ControlPlane, server: Server)
      ensures this.cp == cp && fresh(cleanup) && Value(true) == Initial(server)
    {
      this.cp, this.server, this.checks := cp, server, {};
      this.cleanup := new CleanupState();
    }

    function Value(ok: bool): State
      reads this, cleanup
    {
      State(ok, server, cleanup.Value(), checks)
    }

    method CreateRegistered(kind: Kind, token: string, revoke: bool) returns (ok: bool)
      modifies this, cleanup
      ensures Value(ok) == RegisterNew(cp, old(Value(true)), kind, token, revoke)
    {
      var (reply, s1) := CreateResource(cp, server, kind, token);
      server := s1;
      if !reply.accepted || reply.ref.None? {
        return false;
      }
      var ref := reply.ref.value;
      cleanup.Register(kind, ref);
      if kind == ApiKey && !reply.hasValue {
        if revoke {
          var (code, s2) := DeleteResource(cp, server, kind, ref);
          server := s2;
          if Accepted(kind, code) {
            cleanup.Remove(kind, ref);
          }
        }
        return false;
      }
      return true;
    }

    method DeleteAndWait(kind: Kind, ref: Ref, missingOk: bool) returns (ok: bool)
      modifies this`server
      ensures (ok, server) == Discard(cp, old(server), kind, ref, missingOk)
    {
      var (code, s1) := DeleteResource(cp, server, kind, ref);
      server := s1;
      if !Accepted(kind, code) || (code == 404 && !missingOk) {
        return false;
      }
      if kind == Service && code != 404 {
        var left: nat := cp.patience(server.step);
        ghost var start, patience := server, left;
        var gone := false;
        while left > 0 && !gone
          invariant 0 <= left
          invariant gone ==> WaitServiceDeleted(cp, start, ref, patience) == (true, server)
          invariant !gone ==> WaitServiceDeleted(cp, start, ref, patience) == WaitServiceDeleted(cp, server, ref, left)
          decreases left
        {
          var answered := IsAnswered(cp, server);
          var (found, s2) := LookupResource(cp, server, Service, ref);
          server := s2;
          gone := found == 404;
          if !gone && !answered {
            return false;
          }
          left := left - 1;
        }
        if !gone {
          return false;
        }
      }
      return kind != Service || !cp.published(server.step);
    }

    method Perform(op: Op) returns (ok: bool)
      modifies this, cleanup
      ensures Value(ok) == Ledger.Step(cp, old(Value(true)), op)
    {
      match op
      case Register(kind, token) =>
        ok := CreateRegistered(kind, token, false);
      case RegisterOrRevoke(token) =>
        ok := CreateRegistered(ApiKey, token, true);
      case RevokeLastKey =>
        if cleanup.apiKeys == [] {
          return false;
        }
        var (code, s1) := DeleteResource(cp, server, ApiKey, cleanup.apiKeys[|cleanup.apiKeys| - 1]);
        server := s1;
        if !Accepted(ApiKey, code) {
          return false;
        }
        cleanup.apiKeys := cleanup.apiKeys[..|cleanup.apiKeys| - 1];
        return true;
      case Drop(kind, index) =>
        var entries := cleanup.Value().Of(kind);
        if index >= |entries| {
          return false;
        }
        ok := DeleteAndWait(kind, entries[index], kind != Service);
        if ok {
          cleanup.Remove(kind, entries[index]);
        }
      case Check(id, passes) =>
        if passes {
          checks := checks + {id};
        }
        return passes;
    }

    method DeleteReversed(kind: Kind, entries: seq<Ref>) returns (failures: nat)
      modifies this`server
      ensures (failures, server) == DiscardAll(cp, old(server), kind, entries, 0)
    {
      failures := 0;
      var n: nat := |entries|;
      while n > 0
        invariant 0 <= n <= |entries|
        invariant (failures, server) == DiscardAll(cp, old(server), kind, entries, n)
      {
        n := n - 1;
        var ok := DeleteAndWait(kind, entries[n], true);
        if !ok {
          failures := failures + 1;
        }
      }
    }

    method CleanupOrFail() returns (failures: CleanupFailures)
      modifies this`server
      ensures (failures, server) == CleanUp(cp, old(server), old(cleanup.Value()))
    {
      var policies := DeleteReversed(Policy, cleanup.policies);
      var apiKeys := DeleteReversed(ApiKey, cleanup.apiKeys);
      var services := DeleteReversed(Service, cleanup.services);
      failures := CleanupFailures(policies, apiKeys, services);
    }
  }

  lemma {:induction false} RunFailureStays(cp: ControlPlane, st: State, plan: seq<Op>, n: nat, m: nat)
    requires n <= m <= |plan| && !Run(cp, st, plan, n).ok
    ensures Run(cp, st, plan, m) == Run(cp, st, plan, n)
  {
    if n < m {
      RunFailureStays(cp, st, plan, n, m - 1);
    }
  }

  // Dry run, snapshot and apply; the snapshot survives a failing apply.
  method BeginPublisher(runner: PublisherRunner.Runner, s: Settings)
      returns (snapshot: Option<PublisherRunner.PublisherSnapshot>, applied: bool)
    modifies runner
    ensures Begun(runner.env, old(runner.world), s, snapshot, applied, runner.world)
    ensures snapshot.Some? ==> fresh(snapshot.value)
  {
    snapshot, applied := None, false;
    if s.dryRun {
      snapshot := runner.SnapshotPublisher(s.docs);
      if snapshot.Some? {
        applied := runner.ApplyPublisher(s.url, snapshot.value);
      }
    }
  }

  // The records in place say what StartPublisher says.
  ghost predicate Begun(env: Env, w: World, s: Settings, snapshot: Option<PublisherRunner.PublisherSnapshot>,
                        applied: bool, w': World)
    reads if snapshot.Some? then {snapshot.value} else {}
    reads if snapshot.Some? then snapshot.value.resources else []
  {
    var start := StartPublisher(env, w, s);
    && applied == start.applied && w' == start.world && snapshot.Some? == start.snapshot.Some?
    && (snapshot.Some? ==>
          && PublisherRunner.Values(snapshot.value.resources) == start.snapshot.value
          && snapshot.value.mutationStarted == Spec.Started(start.snapshot.value))
  }

  // What a run with these failures and checks ends in.
  method Conclude(gate: Gate, primary: bool, cleanup: bool, restore: bool, redacted: bool) returns (outcome: Conclusion)
    modifies gate
    ensures gate.server == old(gate.server)
    ensures outcome == Decide(primary, cleanup, restore,
                              if cleanup || restore then old(gate.checks)
                              else old(gate.checks) + {CLEANUP_COMPLETE}, redacted)
  {
    hide REQUIRED_CHECKS;
    if !cleanup && !restore {
      gate.checks := gate.checks + {CLEANUP_COMPLETE};
    }
    if primary || cleanup || restore {
      return Raised(primary, cleanup, restore);
    }
    if gate.checks != REQUIRED_CHECKS {
      return Incomplete;
    }
    return if redacted then Committed(gate.checks) else NotWritten;
  }

  // The records in place are those of the start.
  ghost predicate Keeps(start: Start, snapshot: Option<PublisherRunner.PublisherSnapshot>)
    reads if snapshot.Some? then {snapshot.value} else {}
    reads if snapshot.Some? then snapshot.value.resources else []
  {
    && snapshot.Some? == start.snapshot.Some?
    && (snapshot.Some? ==>
          && PublisherRunner.Values(snapshot.value.resources) == start.snapshot.value
          && snapshot.value.mutationStarted == Spec.Started(start.snapshot.value))
  }

  // The guarded region: it records its failure and keeps the snapshot.
  method RunGuarded(runner: PublisherRunner.Runner, gate: Gate, s: Settings)
    returns (snapshot: Option<PublisherRunner.PublisherSnapshot>, failed: bool)
    requires gate.Value(true) == Initial(gate.server)
    modifies runner, gate, gate.cleanup
    ensures snapshot.Some? ==> fresh(snapshot.value)
    ensures var start := StartPublisher(runner.env, old(runner.world), s);
            && Keeps(start, snapshot)
            && (gate.Value(!failed), runner.world) == Guarded(runner.env, gate.cp, start, old(gate.server), s)
  {
    hide StartPublisher, Run, Replay, Spec.Started;
    var applied: bool;
    snapshot, applied := BeginPublisher(runner, s);
    failed := true;
    if applied {
      runner.world := Replay(runner.env, runner.world, s.calls);
      failed := ExecutePlan(gate, s.plan);
    }
  }

  method RestoreStarted(runner: PublisherRunner.Runner, snapshot: Option<PublisherRunner.PublisherSnapshot>,
                        ghost start: Start)
    returns (failures: seq<Spec.Failure>)
    requires Keeps(start, snapshot)
    modifies runner
    ensures (failures, runner.world) == Restore(runner.env, start, old(runner.world))
  {
    hide Spec.RestoreAll, Spec.Started;
    failures := [];
    if snapshot.Some? && snapshot.value.mutationStarted {
      failures := runner.RestorePublisher(snapshot.value);
    }
  }

  // Cleanup and rollback run whatever the guarded region did; evidence comes last.
  method RunLive(runner: PublisherRunner.Runner, gate: Gate, s: Settings) returns (outcome: Conclusion)
    requires gate.Value(true) == Initial(gate.server)
    modifies runner, gate, gate.cleanup
    ensures Result(outcome, runner.world, gate.server)
            == Execute(runner.env, gate.cp, old(runner.world), old(gate.server), s)
  {
    hide StartPublisher, Guarded, Restore, CleanUp, Keeps, Decide;
    var snapshot, failed := RunGuarded(runner, gate, s);
    ghost var start := StartPublisher(runner.env, old(runner.world), s);
    var cleanupFailures := gate.CleanupOrFail();
    var restoreFailures := RestoreStarted(runner, snapshot, start);
    outcome := Conclude(gate, failed, !cleanupFailures.None(), restoreFailures != [], s.redacted);
  }

  // Whether the plan failed; the steps up to the first failure have been performed.
  method ExecutePlan(gate: Gate, plan: seq<Op>) returns (failed: bool)
    modifies gate, gate.cleanup
    ensures gate.Value(!failed) == Run(gate.cp, old(gate.Value(true)), plan, |plan|)
  {
    hide Ledger.Step;
    for i := 0 to |plan|
      invariant gate.Value(true) == Run(gate.cp, old(gate.Value(true)), plan, i)
    {
      var ok := gate.Perform(plan[i]);
      if !ok {
        RunFailureStays(gate.cp, old(gate.Value(true)), plan, i + 1, |plan|);
        return true;
      }
    }
    return false;
  }
}
