/** The authorization adapter of the C40 run: the baseline captured at the start, and the two commands and
    the wait that put it back. */
module AdapterRestore {
  import opened Options
  import opened Ledger

  datatype Adapter = Adapter(authServiceAddr: Option<string>, replicas: nat)

  datatype Command = SetEnv(addr: Option<string>) | Scale(replicas: nat)

  // A command that is not answered may still have taken effect.
  datatype Reply = Reply(answer: Answer, committed: bool) {
    predicate Takes() { answer.Answered? || committed }
  }

  // settled: the controller has observed the current generation.
  datatype Poll = Poll(answer: Answer, settled: bool, available: nat)

  datatype EndpointPoll = EndpointPoll(answer: Answer, ready: nat)

  // The polls made before the deadline.
  datatype Polls = Polls(deployment: seq<Poll>, endpoints: seq<EndpointPoll>)

  datatype Waited = Ready | TimedOut | Escapes

  // ------------------------------------------------------------------ waiting

  // Running out of time here is the runner's own failure, which the wait around it lets through.
  function WaitEndpointsZero(polls: seq<EndpointPoll>): Waited {
    if polls == [] || !polls[0].answer.Answered? then Escapes
    else if polls[0].ready == 0 then Ready
    else WaitEndpointsZero(polls[1..])
  }

  predicate Reached(p: Poll, replicas: nat) {
    p.settled && (replicas == 0 || p.available >= replicas)
  }

  function WaitRestored(replicas: nat, polls: Polls): Waited
    decreases |polls.deployment|
  {
    if polls.deployment == [] then TimedOut
    else
      var p := polls.deployment[0];
      if !p.answer.Answered? then Escapes
      else if !Reached(p, replicas) then WaitRestored(replicas, polls.(deployment := polls.deployment[1..]))
      else if replicas == 0 then WaitEndpointsZero(polls.endpoints)
      else Ready
  }

  // The current generation has been observed, at no less than its size.
  predicate AtSize(p: Poll, replicas: nat) {
    p.settled && replicas <= p.available
  }

  ghost predicate PendingUntil(polls: seq<Poll>, replicas: nat, k: nat)
    requires k <= |polls|
  {
    forall i | 0 <= i < k :: polls[i].answer.Answered? && !AtSize(polls[i], replicas)
  }

  ghost predicate DrainsAt(polls: seq<EndpointPoll>, k: nat) {
    k < |polls| && polls[k].ready == 0 && forall i | 0 <= i <= k :: polls[i].answer.Answered?
  }

  lemma {:induction false} DrainedExactly(polls: seq<EndpointPoll>)
    ensures WaitEndpointsZero(polls) == Ready <==> exists k :: DrainsAt(polls, k)
    ensures WaitEndpointsZero(polls) != TimedOut
  {
    if polls != [] && polls[0].answer.Answered? && polls[0].ready != 0 {
      var rest := polls[1..];
      DrainedExactly(rest);
      if k: nat :| DrainsAt(rest, k) {
        assert forall i | 1 <= i <= k + 1 :: polls[i] == rest[i - 1];
        assert DrainsAt(polls, k + 1);
      }
      if k: nat :| DrainsAt(polls, k) {
        assert forall i | 0 <= i <= k - 1 :: rest[i] == polls[i + 1];
        assert DrainsAt(rest, k - 1);
      }
    } else if polls != [] && polls[0].answer.Answered? {
      assert DrainsAt(polls, 0);
    }
  }

  // The wait succeeds exactly when the first poll that finds the deployment settled at its size comes after
  // answered ones only, and, for no replicas, the endpoints drain too. It times out exactly when all polls
  // are answered and none finds that.
  lemma {:induction false} WaitedExactly(replicas: nat, polls: Polls)
    ensures WaitRestored(replicas, polls) == Ready <==>
            exists k | 0 <= k < |polls.deployment| ::
              && PendingUntil(polls.deployment, replicas, k)
              && polls.deployment[k].answer.Answered? && AtSize(polls.deployment[k], replicas)
              && (replicas == 0 ==> exists n :: DrainsAt(polls.endpoints, n))
    ensures WaitRestored(replicas, polls) == TimedOut <==>
            PendingUntil(polls.deployment, replicas, |polls.deployment|)
    decreases |polls.deployment|
  {
    hide PendingUntil, WaitEndpointsZero, DrainsAt;
    var ps := polls.deployment;
    DrainedExactly(polls.endpoints);
    NothingPending(ps, replicas);
    if ps != [] {
      var rest := polls.(deployment := ps[1..]);
      forall k | 0 <= k < |ps|
        ensures PendingUntil(ps, replicas, k + 1) <==>
                ps[0].answer.Answered? && !AtSize(ps[0], replicas) && PendingUntil(rest.deployment, replicas, k)
      {
        PendingShift(ps, replicas, k);
      }
      WaitedExactly(replicas, rest);
      if WaitRestored(replicas, rest) == Ready {
        var k :| 0 <= k < |rest.deployment| && PendingUntil(rest.deployment, replicas, k)
          && rest.deployment[k].answer.Answered? && AtSize(rest.deployment[k], replicas);
        assert PendingUntil(ps, replicas, k + 1) <==> ps[0].answer.Answered? && !AtSize(ps[0], replicas);
        assert ps[k + 1] == rest.deployment[k];
      }
      if k :| 0 < k < |ps| && PendingUntil(ps, replicas, k) && ps[k].answer.Answered? && AtSize(ps[k], replicas) {
        assert PendingUntil(rest.deployment, replicas, k - 1) && rest.deployment[k - 1] == ps[k];
      }
    }
  }

  lemma NothingPending(polls: seq<Poll>, replicas: nat)
    ensures PendingUntil(polls, replicas, 0)
  {}

  lemma PendingShift(polls: seq<Poll>, replicas: nat, k: nat)
    requires k < |polls|
    ensures PendingUntil(polls, replicas, k + 1) <==>
            polls[0].answer.Answered? && !AtSize(polls[0], replicas) && PendingUntil(polls[1..], replicas, k)
  {
    if PendingUntil(polls, replicas, k + 1) {
      assert forall i | 0 <= i < k :: polls[1..][i] == polls[i + 1];
    }
    if PendingUntil(polls[1..], replicas, k) {
      assert forall i | 1 <= i < k + 1 :: polls[i] == polls[1..][i - 1];
    }
  }

  method WaitAdapterEndpointsZero(polls: seq<EndpointPoll>) returns (waited: Waited)
    ensures waited == WaitEndpointsZero(polls)
  {
    for i := 0 to |polls|
      invariant WaitEndpointsZero(polls[i..]) == WaitEndpointsZero(polls)
    {
      if !polls[i].answer.Answered? {
        return Escapes;
      }
      if polls[i].ready == 0 {
        return Ready;
      }
    }
    waited := Escapes;
  }

  method WaitAdapterRestored(replicas: nat, polls: Polls) returns (waited: Waited)
    ensures waited == WaitRestored(replicas, polls)
  {
    for i := 0 to |polls.deployment|
      invariant WaitRestored(replicas, polls.(deployment := polls.deployment[i..])) == WaitRestored(replicas, polls)
    {
      var p := polls.deployment[i];
      if !p.answer.Answered? {
        return Escapes;
      }
      if p.settled {
        if replicas == 0 {
          waited := WaitAdapterEndpointsZero(polls.endpoints);
          return;
        }
        if p.available >= replicas {
          return Ready;
        }
      }
    }
    waited := TimedOut;
  }

  // ------------------------------------------------------------------ the baseline

  // applied: the adapter once the manifest has been applied to it.
  datatype Preparation = Preparation(apply: Reply, applied: Adapter, desired: Answer, polls: Polls, snapshot: Answer)

  // What the run remembers for its end, None when the preparation raised, and the adapter it leaves.
  function ApplyAndSnapshot(p: Preparation, adapter: Adapter): (Option<Adapter>, Adapter) {
    var found := if p.apply.Takes() then p.applied else adapter;
    if p.apply.answer.Answered? && p.desired.Answered? && WaitRestored(found.replicas, p.polls) == Ready
       && p.snapshot.Answered?
    then (Some(found), found)
    else (None, found)
  }

  // A baseline is captured exactly when the apply and both probes are answered and the wait between them
  // succeeds. It is what the manifest made of the adapter, which changes exactly when the apply takes effect.
  lemma CapturedExactly(p: Preparation, adapter: Adapter)
    ensures var (snapshot, after) := ApplyAndSnapshot(p, adapter);
            && (snapshot.Some? <==>
                  && p.apply.answer.Answered? && p.desired.Answered? && p.snapshot.Answered?
                  && WaitRestored(p.applied.replicas, p.polls) == Ready)
            && (snapshot.Some? ==> snapshot.value == p.applied)
            && after == (if p.apply.answer.Answered? || p.apply.committed then p.applied else adapter)
  {
    hide WaitRestored;
  }

  // ------------------------------------------------------------------ the restore

  datatype RestoreTurns = RestoreTurns(env: Reply, scale: Reply, polls: Polls)

  // failures: what is reported, None when an exception escapes; sent: the commands given.
  datatype Restoration = Restoration(failures: Option<seq<string>>, sent: seq<Command>, adapter: Adapter)

  function RestoreAdapter(turns: RestoreTurns, adapter: Adapter, state: Adapter): Restoration {
    var a1 := if turns.env.Takes() then adapter.(authServiceAddr := state.authServiceAddr) else adapter;
    var env := SetEnv(state.authServiceAddr);
    if turns.env.answer.Raises? then Restoration(None, [env], a1)
    else
      var a2 := if turns.scale.Takes() then a1.(replicas := state.replicas) else a1;
      var sent := [env, Scale(state.replicas)];
      var waited := WaitRestored(state.replicas, turns.polls);
      if turns.scale.answer.Raises? || waited.Escapes? then Restoration(None, sent, a2)
      else Restoration(Some((if turns.env.answer.Fails? then ["env"] else [])
                            + (if turns.scale.answer.Fails? then ["replicas"] else [])
                            + (if waited.TimedOut? then ["readiness"] else [])), sent, a2)
  }

  // The scale is attempted exactly when the environment command does not raise; a command of either kind
  // that fails in the runner's own way stops nothing.
  lemma ScaleExactly(turns: RestoreTurns, adapter: Adapter, state: Adapter)
    ensures var r := RestoreAdapter(turns, adapter, state);
            && SetEnv(state.authServiceAddr) in r.sent
            && (Scale(state.replicas) in r.sent <==> !turns.env.answer.Raises?)
            && (turns.env.answer.Raises? ==> r.failures.None? && r.adapter.replicas == adapter.replicas)
  {}

  // No failure is reported exactly when both commands are answered and the wait succeeds, and then the
  // adapter is as in the snapshot. Something is reported exactly when nothing raises.
  lemma RestoredExactly(turns: RestoreTurns, adapter: Adapter, state: Adapter)
    ensures var r := RestoreAdapter(turns, adapter, state);
            && (r.failures == Some([]) <==>
                  turns.env.answer.Answered? && turns.scale.answer.Answered?
                  && WaitRestored(state.replicas, turns.polls) == Ready)
            && (r.failures == Some([]) ==> r.adapter == state)
            && (r.failures.Some? <==>
                  !turns.env.answer.Raises? && !turns.scale.answer.Raises?
                  && WaitRestored(state.replicas, turns.polls) != Escapes)
  {
    var r := RestoreAdapter(turns, adapter, state);
    if r.failures.Some? {
      assert turns.env.answer.Fails? ==> r.failures.value[0] == "env";
    }
  }

  // The report names the environment, the replicas and the readiness exactly where they failed.
  lemma ReportNames(turns: RestoreTurns, adapter: Adapter, state: Adapter)
    requires RestoreAdapter(turns, adapter, state).failures.Some?
    ensures var failures := RestoreAdapter(turns, adapter, state).failures.value;
            && ("env" in failures <==> turns.env.answer.Fails?)
            && ("replicas" in failures <==> turns.scale.answer.Fails?)
            && ("readiness" in failures <==> WaitRestored(state.replicas, turns.polls) == TimedOut)
  {}

  // The promise to attempt both independently fails: a command that times out leaves the size unrestored.
  lemma TimedOutEnvSkipsScale(turns: RestoreTurns, adapter: Adapter, state: Adapter)
    requires turns.env.answer.Raises? && adapter.replicas != state.replicas
    ensures var r := RestoreAdapter(turns, adapter, state);
            r.failures.None? && r.adapter.replicas != state.replicas && r.sent == [SetEnv(state.authServiceAddr)]
  {}
}
