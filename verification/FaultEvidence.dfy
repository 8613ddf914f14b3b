/** What a fault loop has observed: the calls behind each verdict. */
module FaultEvidence {
  import opened Cluster
  import opened Options
  import opened PublisherProofs
  import opened FaultInjection

  // ------------------------------------------------------------------ what a stretch of calls shows

  // Each predicate is about the calls made from step s on.

  ghost predicate Snapshotted(dp: DataPlane, log: seq<Event>, key: Key) {
    && |log| == 1 && log[0].call == Get(key) && log[0].reply.ok
    && log[0].reply.seen.Some? && dp.replicas(log[0].reply.seen.value.body) > 0
  }

  // Scaled to zero, and polled until no endpoint was ready.
  ghost predicate Down(dp: DataPlane, log: seq<Event>, s: nat, key: Key) {
    && |log| >= 2 && log[0].call == Edit(key, "--replicas=0") && log[0].reply.ok && log[0].wrote.Some?
    && var last := |log| - 1; log[last].call == Endpoints(key) && log[last].reply.ok && dp.ready(s + last) == 0
  }

  ghost predicate Unavailable(dp: DataPlane, log: seq<Event>, s: nat, key: Key) {
    |log| == 1 && log[0].call == Endpoints(key) && log[0].reply.ok && dp.unavailable(s)
  }

  // Replaced by the snapshot under a probed version, and polled until settled.
  ghost predicate PutBack(dp: DataPlane, log: seq<Event>, s: nat, key: Key, snapshot: Object) {
    && |log| >= 3 && log[0].call == Get(key) && log[0].reply.seen.Some?
    && log[1].call == Replace(key, log[0].reply.seen.value.version, snapshot.body)
    && log[1].reply.ok && log[1].wrote.Some?
    && var last := |log| - 1;
       log[last].call == Get(key) && log[last].reply.ok && log[last].reply.seen.Some? && dp.settled(s + last)
  }

  ghost predicate Recovered(dp: DataPlane, log: seq<Event>, s: nat, key: Key) {
    |log| == 1 && log[0].call == Endpoints(key) && log[0].reply.ok && dp.recovered(s)
  }

  // ------------------------------------------------------------------ one step of the cycle

  lemma OneCall(env: Env, w: World, call: Call)
    requires Wf(w)
    ensures var (reply, w') := Kubectl(env, w, call);
            && Reaches(env, w, w') && Wf(w') && w'.step == w.step + 1 && |New(w, w')| == 1
            && New(w, w')[0].call == call && New(w, w')[0].reply == reply
            && (reply.ok && Writes(call) ==> New(w, w')[0].wrote.Some?)
            && (reply.seen.Some? ==> reply.ok)
  {
    hide ActAll;
    ReachesSelf(env, w);
    ReachesCall(env, w, w, call);
    CallFrame(env, w, call);
  }

  // Every poll but the last found ready endpoints.
  ghost predicate BusyBeforeLast(dp: DataPlane, log: seq<Event>, s: nat) {
    forall i | 0 <= i < |log| - 1 :: log[i].reply.ok && dp.ready(s + i) != 0
  }

  lemma {:induction false} NoEndpointsExactly(env: Env, dp: DataPlane, w: World, key: Key, patience: nat)
    requires Wf(w)
    ensures var (ok, w') := WaitNoEndpoints(env, dp, w, key, patience);
            var log := New(w, w');
            && Reaches(env, w, w') && Wf(w') && w'.step == w.step + |log|
            && (forall e <- log :: e.call == Endpoints(key))
            && BusyBeforeLast(dp, log, w.step)
            && (ok <==> log != [] && log[|log| - 1].reply.ok && dp.ready(w.step + |log| - 1) == 0)
    decreases patience
  {
    hide Kubectl, Replay, Reaches, New;
    NoCall(env, w);
    if patience > 0 {
      OneCall(env, w, Endpoints(key));
      var (probe, w1) := Kubectl(env, w, Endpoints(key));
      if probe.ok && dp.ready(w.step) != 0 {
        NoEndpointsExactly(env, dp, w1, key, patience - 1);
        var w2 := WaitNoEndpoints(env, dp, w1, key, patience - 1).1;
        ReachesTransitive(env, w, w1, w2);
        OneMorePoll(dp, New(w, w1), New(w1, w2), w.step, w1.step);
      }
    }
  }

  lemma OneMorePoll(dp: DataPlane, first: seq<Event>, rest: seq<Event>, s: nat, t: nat)
    requires t == s + 1 && |first| == 1 && first[0].reply.ok && dp.ready(s) != 0 && BusyBeforeLast(dp, rest, t)
    ensures BusyBeforeLast(dp, first + rest, s)
    ensures rest != [] ==> (first + rest)[|first + rest| - 1] == rest[|rest| - 1] && s + |rest| == t + |rest| - 1
  {
    forall i | 1 <= i < |first + rest| - 1
      ensures (first + rest)[i].reply.ok && dp.ready(s + i) != 0
    {
      assert (first + rest)[i] == rest[i - 1] && s + i == t + (i - 1);
    }
  }

  lemma {:induction false} RecoveredExactly(env: Env, dp: DataPlane, w: World, key: Key, patience: nat)
    requires Wf(w)
    ensures var (ok, w') := WaitRecovered(env, dp, w, key, patience);
            var log := New(w, w');
            && Reaches(env, w, w') && Wf(w') && w'.step == w.step + |log|
            && (forall e <- log :: e.call == Get(key))
            && (ok <==> log != [] && log[|log| - 1].reply.ok && log[|log| - 1].reply.seen.Some?
                        && dp.settled(w.step + |log| - 1))
    decreases patience
  {
    hide Kubectl, Replay, Reaches;
    ReachesSelf(env, w);
    if patience > 0 {
      OneCall(env, w, Get(key));
      var (probe, w1) := Kubectl(env, w, Get(key));
      if probe.ok && probe.seen.Some? && !dp.settled(w.step) {
        RecoveredExactly(env, dp, w1, key, patience - 1);
        ReachesTransitive(env, w, w1, WaitRecovered(env, dp, w1, key, patience - 1).1);
      }
    }
  }

  // Polls that go on while endpoints are ready, after a first call that is none.
  ghost predicate Polling(dp: DataPlane, log: seq<Event>, s: nat, key: Key) {
    && log != [] && log[0].call.Edit? && (forall i | 1 <= i < |log| :: log[i].call == Endpoints(key))
    && (forall i | 1 <= i < |log| - 1 :: log[i].reply.ok && dp.ready(s + i) != 0)
  }

  lemma EditThenPolls(dp: DataPlane, first: seq<Event>, rest: seq<Event>, s: nat, t: nat, key: Key)
    requires t == s + 1 && |first| == 1
    requires first[0].call == Edit(key, "--replicas=0") && first[0].reply.ok && first[0].wrote.Some?
    requires forall e <- rest :: e.call == Endpoints(key)
    requires BusyBeforeLast(dp, rest, t)
    ensures Polling(dp, first + rest, s, key)
    ensures Down(dp, first + rest, s, key) <==>
            rest != [] && rest[|rest| - 1].reply.ok && dp.ready(t + |rest| - 1) == 0
  {
    var log := first + rest;
    forall i | 1 <= i < |log|
      ensures log[i].call == Endpoints(key) && (i < |log| - 1 ==> log[i].reply.ok && dp.ready(s + i) != 0)
    {
      assert log[i] == rest[i - 1] && t + (i - 1) == s + i;
    }
  }

  lemma DownExactly(env: Env, dp: DataPlane, w: World, key: Key)
    requires Wf(w)
    ensures var (ok, w') := ScaleToZero(env, dp, w, key);
            && Reaches(env, w, w') && Wf(w') && w'.step == w.step + |New(w, w')|
            && Polling(dp, New(w, w'), w.step, key)
            && (ok <==> Down(dp, New(w, w'), w.step, key))
  {
    hide Kubectl, Replay, Reaches, WaitNoEndpoints, New;
    var edit := Edit(key, "--replicas=0");
    OneCall(env, w, edit);
    var (scaled, w1) := Kubectl(env, w, edit);
    if scaled.ok {
      var patience := env.patience(w1.step);
      NoEndpointsExactly(env, dp, w1, key, patience);
      var w2 := WaitNoEndpoints(env, dp, w1, key, patience).1;
      ReachesTransitive(env, w, w1, w2);
      EditThenPolls(dp, New(w, w1), New(w1, w2), w.step, w1.step, key);
    }
  }

  lemma UnavailableExactly(env: Env, dp: DataPlane, w: World, key: Key)
    requires Wf(w)
    ensures var (ok, w') := AssertUnavailable(env, dp, w, key);
            && Reaches(env, w, w') && Wf(w') && w'.step == w.step + |New(w, w')|
            && |New(w, w')| == 1 && New(w, w')[0].call == Endpoints(key)
            && (ok <==> Unavailable(dp, New(w, w'), w.step, key))
  {
    hide Kubectl, Replay, Reaches;
    OneCall(env, w, Endpoints(key));
  }

  // The restore begins with a probe and asks for no endpoints.
  lemma PutBackExactly(env: Env, dp: DataPlane, w: World, key: Key, snapshot: Object)
    requires Wf(w)
    ensures var (ok, w') := RestoreDeployment(env, dp, w, key, snapshot);
            var log := New(w, w');
            && Reaches(env, w, w') && Wf(w') && w'.step == w.step + |log|
            && log != [] && log[0].call == Get(key) && (forall i | 0 <= i < |log| :: !log[i].call.Endpoints?)
            && (ok <==> PutBack(dp, log, w.step, key, snapshot))
  {
    hide Kubectl, Replay, Reaches, WaitRecovered;
    OneCall(env, w, Get(key));
    var (current, w1) := Kubectl(env, w, Get(key));
    if current.seen.Some? {
      var replace := Replace(key, current.seen.value.version, snapshot.body);
      OneCall(env, w1, replace);
      var (replaced, w2) := Kubectl(env, w1, replace);
      ReachesTransitive(env, w, w1, w2);
      if replaced.ok {
        var patience := env.patience(w2.step);
        RecoveredExactly(env, dp, w2, key, patience);
        var w3 := WaitRecovered(env, dp, w2, key, patience).1;
        ReachesTransitive(env, w, w2, w3);
        forall i | 2 <= i < |New(w, w3)|
          ensures New(w, w3)[i].call == Get(key)
        {
          assert New(w, w3)[i] == New(w2, w3)[i - 2];
        }
      }
    }
  }

  // ------------------------------------------------------------------ one target

  // The parts of an iteration's calls: the restore begins at b, with the second probe, and ends at c, after
  // which there is at most the confirming request.
  datatype Parts = Parts(b: nat, c: nat)

  ghost predicate Divided(log: seq<Event>, key: Key, p: Parts) {
    && 1 <= p.b < p.c <= |log| <= p.c + 1
    && log[p.b].call == Get(key) && (forall i | 1 <= i < p.b :: !log[i].call.Get?)
    && (forall i | p.b <= i < p.c :: !log[i].call.Endpoints?)
    && (p.c < |log| ==> log[p.c].call == Endpoints(key))
  }

  // There is no other way to divide them.
  lemma DividedOnce(log: seq<Event>, key: Key, p: Parts, q: Parts)
    requires Divided(log, key, p) && Divided(log, key, q)
    ensures p == q
  {}

  // The target was brought down and then refused a request.
  ghost predicate Injected(dp: DataPlane, log: seq<Event>, s: nat, key: Key, b: nat)
    requires b <= |log|
  {
    b >= 2 && Down(dp, log[1..b - 1], s + 1, key) && Unavailable(dp, log[b - 1..b], s + (b - 1), key)
  }

  ghost predicate Undone(dp: DataPlane, log: seq<Event>, s: nat, key: Key, p: Parts)
    requires p.b <= p.c <= |log| && log != [] && log[0].reply.seen.Some?
  {
    PutBack(dp, log[p.b..p.c], s + p.b, key, log[0].reply.seen.value)
  }

  // What the calls of one iteration, made from step s on, show.
  ghost predicate Shows(dp: DataPlane, log: seq<Event>, s: nat, key: Key, p: Parts, verdict: Option<Verdict>) {
    if log == [] || !Snapshotted(dp, log[..1], key) then |log| == 1 && verdict == Some(SnapshotFailed)
    else
      && Divided(log, key, p)
      && var injected, undone := Injected(dp, log, s, key, p.b), Undone(dp, log, s, key, p);
         if !injected || !undone then p.c == |log| && verdict == Some(Injection(!injected, !undone))
         else
           && p.c + 1 == |log|
           && verdict == if Recovered(dp, log[p.c..], s + p.c, key) then None else Some(NoRecovery)
  }

  // The calls of the injection and of the restore, which is always attempted.
  lemma InjectionExactly(env: Env, dp: DataPlane, w: World, key: Key, snapshot: Object) returns (b: nat)
    requires Wf(w)
    ensures var (primary, restored, w') := InjectAndRestore(env, dp, w, key, snapshot);
            var log := New(w, w');
            && Reaches(env, w, w') && Wf(w') && w'.step == w.step + |log|
            && 1 <= b < |log| && log[b].call == Get(key)
            && (forall i | 0 <= i < b :: !log[i].call.Get?) && (forall i | b <= i < |log| :: !log[i].call.Endpoints?)
            && (primary <==>
                  Down(dp, log[..b - 1], w.step, key) && Unavailable(dp, log[b - 1..b], w.step + (b - 1), key))
            && (restored <==> PutBack(dp, log[b..], w.step + b, key, snapshot))
  {
    hide Kubectl, Replay, Reaches, ScaleToZero, AssertUnavailable, RestoreDeployment, Down, Unavailable, PutBack, New;
    DownExactly(env, dp, w, key);
    var (scaled, w2) := ScaleToZero(env, dp, w, key);
    UnavailableExactly(env, dp, w2, key);
    NoCall(env, w2);
    var (primary, w3) := if scaled then AssertUnavailable(env, dp, w2, key) else (false, w2);
    PutBackExactly(env, dp, w3, key, snapshot);
    var w4 := RestoreDeployment(env, dp, w3, key, snapshot).1;
    ReachesTransitive(env, w, w2, w3);
    ReachesTransitive(env, w, w3, w4);
    b := |New(w, w3)|;
    InThree(New(w, w2), New(w2, w3), New(w3, w4));
    if !scaled {
      StillPolling(dp, New(w, w2), w.step, key);
    }
  }

  lemma NoCall(env: Env, w: World)
    ensures Reaches(env, w, w) && New(w, w) == []
  {
    ReachesSelf(env, w);
  }

  // Positions in three stretches put together, the second of them at most one call.
  lemma InThree(x: seq<Event>, y: seq<Event>, z: seq<Event>)
    requires x != [] && |y| <= 1
    ensures var (log, b) := (x + y + z, |x + y|);
            && b == |x| + |y| && log[b..] == z
            && log[..b - 1] == (if |y| == 1 then x else x[..|x| - 1]) && (|y| == 1 ==> log[b - 1..b] == y)
            && (forall i | 0 <= i < |x| :: log[i] == x[i]) && (forall i | |x| <= i < b :: log[i] == y[i - |x|])
            && (forall i | b <= i < |log| :: log[i] == z[i - b])
  {}

  // Polls that were still going on have not seen the target down.
  lemma StillPolling(dp: DataPlane, log: seq<Event>, s: nat, key: Key)
    requires Polling(dp, log, s, key)
    ensures !Down(dp, log[..|log| - 1], s, key)
  {}

  // The verdict on a target is the one its calls show.
  lemma InjectOneExactly(env: Env, dp: DataPlane, w: World, key: Key) returns (p: Parts)
    requires Wf(w)
    ensures var (verdict, w') := InjectOne(env, dp, w, key);
            && Reaches(env, w, w') && Wf(w') && w'.step == w.step + |New(w, w')|
            && Shows(dp, New(w, w'), w.step, key, p, verdict)
  {
    hide Kubectl, Replay, Reaches, InjectAndRestore, Down, Unavailable, PutBack, New;
    p := Parts(0, 0);
    OneCall(env, w, Get(key));
    var (snapshot, w1) := SnapshotDeployment(env, dp, w, key);
    FirstOnly(New(w, w1));
    if snapshot.Some? {
      var b := InjectionExactly(env, dp, w1, key, snapshot.value);
      var (primary, restored, w4) := InjectAndRestore(env, dp, w1, key, snapshot.value);
      ReachesTransitive(env, w, w1, w4);
      var first, rest := New(w, w1), New(w1, w4);
      p := Parts(b + 1, |first + rest|);
      Shifted(first, rest, b);
      if primary && restored {
        OneCall(env, w4, Endpoints(key));
        var w5 := Kubectl(env, w4, Endpoints(key)).1;
        ReachesTransitive(env, w, w4, w5);
        Ended(first + rest, New(w4, w5), b);
      }
    }
  }

  lemma FirstOnly(log: seq<Event>)
    requires |log| == 1
    ensures log[..1] == log
  {}

  // The same positions once one more call follows.
  lemma Ended(log: seq<Event>, last: seq<Event>, b: nat)
    requires 1 <= b < |log| && |last| == 1
    ensures var all := log + last;
            && all[..1] == log[..1] && all[1..b] == log[1..b] && all[b..b + 1] == log[b..b + 1]
            && all[b + 1..|log|] == log[b + 1..|log|] && all[|log|..] == last && |all| == |log| + 1
            && all[|log|] == last[0] && forall i | 0 <= i < |log| :: all[i] == log[i]
  {}

  // Positions in a list that a single call precedes.
  lemma Shifted(first: seq<Event>, rest: seq<Event>, b: nat)
    requires |first| == 1 && 1 <= b < |rest|
    ensures var log := first + rest;
            && log[..1] == first && log[1..b] == rest[..b - 1] && log[b..b + 1] == rest[b - 1..b]
            && log[b + 1..|log|] == rest[b..] && forall i | 1 <= i < |log| :: log[i] == rest[i - 1]
  {}

  // ------------------------------------------------------------------ the loop

  // Calls that show a target went through the whole cycle.
  ghost predicate Cycled(dp: DataPlane, log: seq<Event>, s: nat, key: Key) {
    exists p :: Shows(dp, log, s, key, p, None)
  }

  ghost predicate Stopped(dp: DataPlane, log: seq<Event>, s: nat, key: Key, verdict: Verdict) {
    exists p :: Shows(dp, log, s, key, p, Some(verdict))
  }

  // The calls cut into one stretch per finished target, in order, and what comes after them.
  ghost predicate CyclesAt(dp: DataPlane, log: seq<Event>, s: nat, keys: seq<Key>, cuts: seq<nat>)
  {
    && 0 < |cuts| <= |keys| + 1 && cuts[0] == 0 && (forall i | 0 <= i < |cuts| :: cuts[i] <= |log|)
    && forall i | 0 <= i < |cuts| - 1 ::
         cuts[i] <= cuts[i + 1] && Cycled(dp, log[cuts[i]..cuts[i + 1]], s + cuts[i], keys[i])
  }

  lemma CyclesStay(dp: DataPlane, log: seq<Event>, more: seq<Event>, s: nat, keys: seq<Key>, cuts: seq<nat>)
    requires CyclesAt(dp, log, s, keys, cuts)
    ensures CyclesAt(dp, log + more, s, keys, cuts) && 0 < |cuts|
  {
    hide Cycled;
    forall i | 0 <= i < |cuts| - 1
      ensures (log + more)[cuts[i]..cuts[i + 1]] == log[cuts[i]..cuts[i + 1]]
    {}
  }

  // A loop has taken each target it finished, in order, through the whole cycle; if it went through, these are
  // all its calls, and if it stopped, the calls after them show why.
  lemma {:induction false} FaultLoopExactly(env: Env, dp: DataPlane, w: World, keys: seq<Key>, n: nat)
    returns (cuts: seq<nat>)
    requires Wf(w) && n <= |keys|
    ensures var l := InjectLoop(env, dp, w, keys, n);
            var log := New(w, l.world);
            && Reaches(env, w, l.world) && Wf(l.world) && l.world.step == w.step + |log|
            && |cuts| == l.done + 1 && CyclesAt(dp, log, w.step, keys, cuts)
            && var last := cuts[l.done];
               if l.verdict.None? then l.done == n && last == |log|
               else Stopped(dp, log[last..], w.step + last, keys[l.done], l.verdict.value)
  {
    hide Kubectl, Replay, Reaches, InjectOne, Shows, Cycled, Stopped, CyclesAt, New;
    if n == 0 {
      NoCycles(env, dp, w, keys);
      cuts := [0];
    } else {
      var before := InjectLoop(env, dp, w, keys, n - 1);
      cuts := FaultLoopExactly(env, dp, w, keys, n - 1);
      if before.verdict.None? {
        var p := InjectOneExactly(env, dp, before.world, keys[n - 1]);
        var (verdict, w1) := InjectOne(env, dp, before.world, keys[n - 1]);
        ReachesTransitive(env, w, before.world, w1);
        var done, more := New(w, before.world), New(before.world, w1);
        CyclesStay(dp, done, more, w.step, keys, cuts);
        if verdict.None? {
          CycledBy(dp, more, before.world.step, keys[n - 1], p);
          OneMoreCycle(dp, done, more, w.step, keys, cuts);
          cuts := cuts + [|done + more|];
        } else {
          StoppedBy(dp, more, before.world.step, keys[n - 1], p, verdict.value);
          assert (done + more)[|done|..] == more;
        }
      }
    }
  }

  lemma NoCycles(env: Env, dp: DataPlane, w: World, keys: seq<Key>)
    ensures Reaches(env, w, w) && New(w, w) == [] && CyclesAt(dp, New(w, w), w.step, keys, [0])
  {
    ReachesSelf(env, w);
  }

  lemma OneMoreCycle(dp: DataPlane, done: seq<Event>, more: seq<Event>, s: nat, keys: seq<Key>, cuts: seq<nat>)
    requires CyclesAt(dp, done + more, s, keys, cuts) && |cuts| <= |keys| && cuts[|cuts| - 1] == |done|
    requires Cycled(dp, more, s + |done|, keys[|cuts| - 1])
    ensures CyclesAt(dp, done + more, s, keys, cuts + [|done + more|])
  {
    hide Cycled;
    assert (done + more)[|done|..|done + more|] == more;
  }

  lemma CycledBy(dp: DataPlane, log: seq<Event>, s: nat, key: Key, p: Parts)
    requires Shows(dp, log, s, key, p, None)
    ensures Cycled(dp, log, s, key)
  {}

  lemma StoppedBy(dp: DataPlane, log: seq<Event>, s: nat, key: Key, p: Parts, verdict: Verdict)
    requires Shows(dp, log, s, key, p, Some(verdict))
    ensures Stopped(dp, log, s, key, verdict)
  {}

  // Calls show one verdict only.
  lemma ShowsOne(dp: DataPlane, log: seq<Event>, s: nat, key: Key, p: Parts, q: Parts, v: Option<Verdict>,
                 u: Option<Verdict>)
    requires Shows(dp, log, s, key, p, v) && Shows(dp, log, s, key, q, u)
    ensures v == u
  {
    if log != [] && Snapshotted(dp, log[..1], key) {
      DividedOnce(log, key, p, q);
    }
  }
}
