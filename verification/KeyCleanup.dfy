/** Cleanup at the end of the C40 runner: its loop over the registered keys lets through every exception but
    the runner's own failure; only after that loop, and only if its baseline was captured, the adapter is
    restored. */
module KeyCleanup {
  import opened Ledger
  import opened Options
  import opened AdapterRestore
  import opened LedgerSteps

  predicate RaisesAt(cp: ControlPlane, step: nat) {
    cp.turns(step).answer.Raises?
  }

  // Entries n and above, last one first: the number of keys whose revocation failed, or None once an
  // exception has left the loop.
  function RevokeKeys(cp: ControlPlane, s: Server, entries: seq<Ref>, n: nat): (Option<nat>, Server)
    requires n <= |entries|
    decreases |entries| - n
  {
    if n == |entries| then (Some(0), s)
    else
      var (before, s1) := RevokeKeys(cp, s, entries, n + 1);
      if before.None? then (None, s1)
      else
        var (code, s2) := DeleteResource(cp, s1, ApiKey, entries[n]);
        if RaisesAt(cp, s1.step) then (None, s2)
        else (Some(if Accepted(ApiKey, code) then before.value else before.value + 1), s2)
  }

  // The requests for the entries from n on, last one first.
  function Requests(entries: seq<Ref>, n: nat): seq<(Kind, Ref)>
    requires n <= |entries|
    decreases |entries| - n
  {
    if n == |entries| then [] else Requests(entries, n + 1) + [(ApiKey, entries[n])]
  }

  ghost predicate NoneRaises(cp: ControlPlane, from: int, until: int) {
    forall step: nat | from <= step < until :: !RaisesAt(cp, step)
  }

  // The loop goes through exactly when no revocation raises; it stops at the first one that does, which is
  // still asked for, and the entries before it are not.
  lemma {:induction false} RevokeKeysRun(cp: ControlPlane, s: Server, entries: seq<Ref>, n: nat) returns (reached: nat)
    requires n <= |entries|
    ensures n <= reached <= |entries|
    ensures var (failures, s') := RevokeKeys(cp, s, entries, n);
            && s'.asked == s.asked + Requests(entries, reached) && s'.step == s.step + (|entries| - reached)
            && s'.live <= s.live && s'.issued == s.issued
            && NoneRaises(cp, s.step, s'.step - 1)
            && (failures.Some? <==> NoneRaises(cp, s.step, s.step + (|entries| - n)))
            && (failures.Some? ==> reached == n)
            && (failures.None? ==> reached < |entries| && RaisesAt(cp, s'.step - 1))
            && (failures == Some(0) ==> forall i | n <= i < |entries| :: (ApiKey, entries[i]) !in s'.live)
    decreases |entries| - n
  {
    hide DeleteResource;
    if n == |entries| {
      reached := n;
      assert s.asked + [] == s.asked;
    } else {
      reached := RevokeKeysRun(cp, s, entries, n + 1);
      var (before, s1) := RevokeKeys(cp, s, entries, n + 1);
      if before.Some? {
        DeleteConfirms(cp, s1, ApiKey, entries[n]);
        OneStep(cp, s1, ApiKey, entries[n]);
        reached := n;
        assert s.asked + Requests(entries, n + 1) + [(ApiKey, entries[n])] == s.asked + Requests(entries, n);
      }
    }
  }

  lemma OneStep(cp: ControlPlane, s: Server, kind: Kind, ref: Ref)
    ensures DeleteResource(cp, s, kind, ref).1.step == s.step + 1
  {}

  lemma {:induction false} RequestedExactly(entries: seq<Ref>, n: nat, ref: Ref)
    requires n <= |entries|
    ensures (ApiKey, ref) in Requests(entries, n) <==> ref in entries[n..]
    decreases |entries| - n
  {
    if n < |entries| {
      RequestedExactly(entries, n + 1, ref);
      assert entries[n..] == [entries[n]] + entries[n + 1..];
    }
  }

  // Every key is asked for exactly when no revocation but the last one made raises.
  lemma EveryKeyIsAskedForExactly(cp: ControlPlane, s: Server, entries: seq<Ref>)
    requires entries != [] && forall i, j | 0 <= i < j < |entries| :: entries[i] != entries[j]
    ensures (forall ref <- entries :: Asked(s, RevokeKeys(cp, s, entries, 0).1, ApiKey, ref)) <==>
            NoneRaises(cp, s.step, s.step + |entries| - 1)
  {
    var reached := RevokeKeysRun(cp, s, entries, 0);
    var s' := RevokeKeys(cp, s, entries, 0).1;
    assert s'.asked[|s.asked|..] == Requests(entries, reached);
    forall ref <- entries
      ensures Asked(s, s', ApiKey, ref) <==> ref in entries[reached..]
    {
      RequestedExactly(entries, reached, ref);
    }
    if reached > 0 {
      assert entries[0] !in entries[reached..];
      assert RaisesAt(cp, s'.step - 1) && s'.step - 1 < s.step + |entries| - 1;
    } else {
      assert entries[0..] == entries;
    }
  }

  // Cleanup without a failure leaves none of the registered keys live.
  lemma RevokedKeysAreGone(cp: ControlPlane, s: Server, books: Books)
    requires RevokeKeys(cp, s, books.apiKeys, 0).0 == Some(0)
    ensures forall ref <- books.apiKeys :: (ApiKey, ref) !in RevokeKeys(cp, s, books.apiKeys, 0).1.live
  {
    var reached := RevokeKeysRun(cp, s, books.apiKeys, 0);
  }

  // A first revocation that raises: no other key is asked for, and all of them that were live still are.
  lemma RaisingRevocationLeavesKeys(cp: ControlPlane, s: Server, entries: seq<Ref>, i: nat)
    requires i < |entries| - 1 && entries[i] != entries[|entries| - 1]
    requires cp.turns(s.step).answer.Raises? && (ApiKey, entries[i]) in s.live - cp.turns(s.step).reaped
    ensures var (failures, s') := RevokeKeys(cp, s, entries, 0);
            failures.None? && !Asked(s, s', ApiKey, entries[i]) && (ApiKey, entries[i]) in s'.live
  {
    StopsAtTheFirst(cp, s, entries, 0);
    var last := entries[|entries| - 1];
    var s' := RevokeKeys(cp, s, entries, 0).1;
    assert s'.asked[|s.asked|..] == [(ApiKey, last)];
  }

  lemma {:induction false} StopsAtTheFirst(cp: ControlPlane, s: Server, entries: seq<Ref>, n: nat)
    requires n < |entries| && cp.turns(s.step).answer.Raises?
    ensures RevokeKeys(cp, s, entries, n) == (None, DeleteResource(cp, s, ApiKey, entries[|entries| - 1]).1)
    decreases |entries| - n
  {
    if n < |entries| - 1 {
      StopsAtTheFirst(cp, s, entries, n + 1);
    }
  }

  // The revocation of entry i, made once those after it are done, is not accepted.
  ghost predicate RejectedAt(cp: ControlPlane, s: Server, entries: seq<Ref>, i: nat)
    requires i < |entries|
  {
    !DeletionAccepted(cp, RevokeKeys(cp, s, entries, i + 1).1, ApiKey, entries[i])
  }

  ghost function Rejected(cp: ControlPlane, s: Server, entries: seq<Ref>, n: nat): set<nat> {
    set i: nat | n <= i < |entries| && RejectedAt(cp, s, entries, i)
  }

  lemma OneMoreRevocation(cp: ControlPlane, s: Server, entries: seq<Ref>, n: nat)
    requires n < |entries| && RevokeKeys(cp, s, entries, n).0.Some?
    ensures RevokeKeys(cp, s, entries, n + 1).0.Some?
    ensures RevokeKeys(cp, s, entries, n).0.value ==
            RevokeKeys(cp, s, entries, n + 1).0.value + if RejectedAt(cp, s, entries, n) then 1 else 0
  {}

  // The loop reports as many failures as there are keys whose revocation was not accepted.
  lemma {:induction false} RejectedExactly(cp: ControlPlane, s: Server, entries: seq<Ref>, n: nat)
    requires n <= |entries| && RevokeKeys(cp, s, entries, n).0.Some?
    ensures RevokeKeys(cp, s, entries, n).0 == Some(|Rejected(cp, s, entries, n)|)
    decreases |entries| - n
  {
    hide RejectedAt, DeleteResource;
    if n == |entries| {
      assert Rejected(cp, s, entries, n) == {};
    } else {
      OneMoreRevocation(cp, s, entries, n);
      RejectedExactly(cp, s, entries, n + 1);
      assert Rejected(cp, s, entries, n)
          == Rejected(cp, s, entries, n + 1) + if RejectedAt(cp, s, entries, n) then {n} else {};
    }
  }

  // ------------------------------------------------------------------ the end of the run

  // Escaped: an exception left the block before its report. Otherwise what is reported, if anything.
  datatype Ending = Escaped | Ended(keys: nat, adapter: seq<string>)

  datatype Finale = Finale(ending: Ending, server: Server, sent: seq<Command>, adapter: Adapter)

  // snapshot is None when the run ended before its baseline was captured.
  function Finish(cp: ControlPlane, s: Server, entries: seq<Ref>, snapshot: Option<Adapter>, adapter: Adapter,
                  turns: RestoreTurns): Finale {
    var (failures, s1) := RevokeKeys(cp, s, entries, 0);
    if failures.None? then Finale(Escaped, s1, [], adapter)
    else if snapshot.None? then Finale(Ended(failures.value, []), s1, [], adapter)
    else
      var r := RestoreAdapter(turns, adapter, snapshot.value);
      Finale(if r.failures.None? then Escaped else Ended(failures.value, r.failures.value), s1, r.sent, r.adapter)
  }

  // The adapter restore is attempted exactly when its baseline was captured and no revocation raises, and
  // the scale exactly when the environment command does not raise either.
  lemma AdapterRestoreExactly(cp: ControlPlane, s: Server, entries: seq<Ref>, snapshot: Option<Adapter>,
                              adapter: Adapter, turns: RestoreTurns)
    ensures var f := Finish(cp, s, entries, snapshot, adapter, turns);
            var restores := snapshot.Some? && NoneRaises(cp, s.step, s.step + |entries|);
            && (f.sent != [] <==> restores)
            && (restores ==> f.sent[0] == SetEnv(snapshot.value.authServiceAddr))
            && ((exists c <- f.sent :: c.Scale?) <==> restores && !turns.env.answer.Raises?)
            && (!restores ==> f.adapter == adapter)
  {
    var reached := RevokeKeysRun(cp, s, entries, 0);
    var f := Finish(cp, s, entries, snapshot, adapter, turns);
    if snapshot.Some? && NoneRaises(cp, s.step, s.step + |entries|) && !turns.env.answer.Raises? {
      assert f.sent[1].Scale?;
    }
  }

  // The block ends in a report exactly when no revocation raises and a captured baseline is put back, or
  // reported as not put back, without an exception.
  lemma EndedExactly(cp: ControlPlane, s: Server, entries: seq<Ref>, snapshot: Option<Adapter>, adapter: Adapter,
                     turns: RestoreTurns)
    ensures Finish(cp, s, entries, snapshot, adapter, turns).ending.Ended? <==>
            && NoneRaises(cp, s.step, s.step + |entries|)
            && (snapshot.Some? ==>
                  && !turns.env.answer.Raises? && !turns.scale.answer.Raises?
                  && WaitRestored(snapshot.value.replicas, turns.polls) != Escapes)
  {
    var reached := RevokeKeysRun(cp, s, entries, 0);
    if snapshot.Some? {
      RestoredExactly(turns, adapter, snapshot.value);
    }
  }

  // The report counts the keys not revoked and repeats what the adapter restore said, if there was one.
  lemma ReportExactly(cp: ControlPlane, s: Server, entries: seq<Ref>, snapshot: Option<Adapter>, adapter: Adapter,
                      turns: RestoreTurns)
    requires Finish(cp, s, entries, snapshot, adapter, turns).ending.Ended?
    ensures var ending := Finish(cp, s, entries, snapshot, adapter, turns).ending;
            && ending.keys == |Rejected(cp, s, entries, 0)|
            && (snapshot.None? ==> ending.adapter == [])
            && (snapshot.Some? ==> Some(ending.adapter) == RestoreAdapter(turns, adapter, snapshot.value).failures)
  {
    hide RevokeKeys;
    RejectedExactly(cp, s, entries, 0);
  }

  // A preparation that raises leaves no baseline: the block then restores nothing, whatever it reports, and
  // an apply that had taken effect stays.
  lemma UncapturedAdapterStays(cp: ControlPlane, s: Server, entries: seq<Ref>, p: Preparation, before: Adapter,
                               turns: RestoreTurns)
    requires ApplyAndSnapshot(p, before).0.None?
    ensures var (snapshot, adapter) := ApplyAndSnapshot(p, before);
            var f := Finish(cp, s, entries, snapshot, adapter, turns);
            && f.sent == [] && f.adapter == (if p.apply.Takes() then p.applied else before)
            && (f.ending.Ended? ==> f.ending.adapter == [])
            && (f.ending.Ended? <==> NoneRaises(cp, s.step, s.step + |entries|))
  {
    var reached := RevokeKeysRun(cp, s, entries, 0);
  }

  // An end without an exception or a report leaves no registered key live and the adapter as it was captured,
  // whatever the run did to it in between.
  lemma QuietEndRestores(cp: ControlPlane, s: Server, entries: seq<Ref>, p: Preparation, before: Adapter,
                         adapter: Adapter, turns: RestoreTurns)
    requires ApplyAndSnapshot(p, before).0.Some?
    requires Finish(cp, s, entries, ApplyAndSnapshot(p, before).0, adapter, turns).ending == Ended(0, [])
    ensures var f := Finish(cp, s, entries, ApplyAndSnapshot(p, before).0, adapter, turns);
            && (forall ref <- entries :: (ApiKey, ref) !in f.server.live)
            && f.adapter == p.applied
  {
    var reached := RevokeKeysRun(cp, s, entries, 0);
    RestoredExactly(turns, adapter, ApplyAndSnapshot(p, before).0.value);
  }

  class KeyRunner {
    const cp: ControlPlane
    var server: Server
    var adapter: Adapter
    var sent: seq<Command>

    constructor (cp: ControlPlane, server: Server, adapter: Adapter)
      ensures this.cp == cp && this.server == server && this.adapter == adapter && sent == []
    {
      this.cp, this.server, this.adapter, this.sent := cp, server, adapter, [];
    }

    method CaptureAdapter(p: Preparation) returns (snapshot: Option<Adapter>)
      modifies this`adapter
      ensures (snapshot, adapter) == ApplyAndSnapshot(p, old(adapter))
    {
      if p.apply.Takes() {
        adapter := p.applied;
      }
      if !p.apply.answer.Answered? || !p.desired.Answered? {
        return None;
      }
      var waited := WaitAdapterRestored(adapter.replicas, p.polls);
      if !waited.Ready? || !p.snapshot.Answered? {
        return None;
      }
      snapshot := Some(adapter);
    }

    method CleanupApiKeys(entries: seq<Ref>) returns (failures: Option<nat>)
      modifies this`server
      ensures (failures, server) == RevokeKeys(cp, old(server), entries, 0)
    {
      var failed: nat := 0;
      var n: nat := |entries|;
      while n > 0
        invariant n <= |entries|
        invariant (Some(failed), server) == RevokeKeys(cp, old(server), entries, n)
      {
        n := n - 1;
        var raised := RaisesAt(cp, server.step);
        var (code, s1) := DeleteResource(cp, server, ApiKey, entries[n]);
        server := s1;
        if raised {
          EscapeStays(cp, old(server), entries, n, 0);
          return None;
        }
        if !Accepted(ApiKey, code) {
          failed := failed + 1;
        }
      }
      failures := Some(failed);
    }

    method RestoreAdapterState(turns: RestoreTurns, state: Adapter) returns (failures: Option<seq<string>>)
      modifies this`adapter, this`sent
      ensures var r := RestoreAdapter(turns, old(adapter), state);
              failures == r.failures && adapter == r.adapter && sent == old(sent) + r.sent
    {
      var failed: seq<string> := [];
      sent := sent + [SetEnv(state.authServiceAddr)];
      if turns.env.Takes() {
        adapter := adapter.(authServiceAddr := state.authServiceAddr);
      }
      if turns.env.answer.Raises? {
        return None;
      }
      if turns.env.answer.Fails? {
        failed := failed + ["env"];
      }
      sent := sent + [Scale(state.replicas)];
      if turns.scale.Takes() {
        adapter := adapter.(replicas := state.replicas);
      }
      if turns.scale.answer.Raises? {
        return None;
      }
      if turns.scale.answer.Fails? {
        failed := failed + ["replicas"];
      }
      var waited := WaitAdapterRestored(state.replicas, turns.polls);
      if waited.Escapes? {
        return None;
      }
      failures := Some(if waited.TimedOut? then failed + ["readiness"] else failed);
      assert failures.value == RestoreAdapter(turns, old(adapter), state).failures.value;
      assert old(sent) + [SetEnv(state.authServiceAddr)] + [Scale(state.replicas)]
          == old(sent) + [SetEnv(state.authServiceAddr), Scale(state.replicas)];
    }

    method FinishRun(entries: seq<Ref>, snapshot: Option<Adapter>, turns: RestoreTurns) returns (ending: Ending)
      modifies this
      ensures var f := Finish(cp, old(server), entries, snapshot, old(adapter), turns);
              ending == f.ending && server == f.server && adapter == f.adapter && sent == old(sent) + f.sent
    {
      var failures := CleanupApiKeys(entries);
      if failures.None? {
        return Escaped;
      }
      var unrestored: Option<seq<string>> := Some([]);
      if snapshot.Some? {
        unrestored := RestoreAdapterState(turns, snapshot.value);
      }
      if unrestored.None? {
        return Escaped;
      }
      ending := Ended(failures.value, unrestored.value);
    }
  }

  lemma {:induction false} EscapeStays(cp: ControlPlane, s: Server, entries: seq<Ref>, n: nat, m: nat)
    requires m <= n <= |entries| && RevokeKeys(cp, s, entries, n).0.None?
    ensures RevokeKeys(cp, s, entries, m) == RevokeKeys(cp, s, entries, n)
    decreases n - m
  {
    if m < n {
      EscapeStays(cp, s, entries, n, m + 1);
    }
  }
}
