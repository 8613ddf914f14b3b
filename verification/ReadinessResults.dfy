/** What the recorded results of an evaluation say, in both directions: a check passes exactly when its probe
    returned cleanly, in time, and its result was received before the overall deadline. */
module ReadinessResults {
  import opened Readiness
  import opened ReadinessRuns

  // The collector has taken the result of the named check off the channel.
  ghost predicate Received(states: seq<State>, events: seq<Event>, name: string, until: nat) {
    exists m :: 0 <= m < until && m < |events| && m < |states| && events[m] == Receive && states[m].channel != []
                && states[m].channel[0].name == name
  }

  ghost predicate Passes(checks: Checks, states: seq<State>, events: seq<Event>, i: nat, until: nat)
    requires i < |checks|
  {
    && ProbedClean(events, i, until) && DecidedInTime(states, events, i, until)
    && Received(states, events, checks[i].name, until)
  }

  lemma ReceiveOther(checks: Checks, s: State, i: nat)
    requires Inv(checks, s) && Enabled(checks, s, Receive) && i < |checks|
    ensures var (name, s') := (checks[i].name, Next(checks, s, Receive));
            if s.channel[0].name == name then
              && name !in s.recorded && name in s'.recorded && s.probes[i].Sent?
              && s'.recorded[name] == VerdictOf(s.probes[i].failed, s.probes[i].late)
            else
              && (name in s'.recorded <==> name in s.recorded)
              && (name in s.recorded ==> s'.recorded[name] == s.recorded[name])
  {
    var j := HeadIsPending(checks, s);
    var name := checks[i].name;
    if s.channel[0].name == name {
      assert checks[j].name == name;
      assert i == j;
    }
  }

  // Only a receive or the deadline records anything, and the deadline records failures.
  lemma StepRecords(checks: Checks, s: State, e: Event, i: nat)
    requires Inv(checks, s) && Enabled(checks, s, e) && i < |checks| && !e.Receive?
    ensures var (name, s') := (checks[i].name, Next(checks, s, e));
            && (name in s.recorded ==> name in s'.recorded && s'.recorded[name] == s.recorded[name])
            && (name !in s.recorded && name in s'.recorded ==> s'.recorded[name] == Fail)
  {
    hide FailAll;
    if e.Deadline? {
      DeadlineRecords(checks, s, e.order);
    }
  }

  lemma DeadlineRecords(checks: Checks, s: State, order: seq<string>)
    requires Inv(checks, s) && Enabled(checks, s, Deadline(order))
    ensures var s' := Next(checks, s, Deadline(order));
            && (forall name <- s.recorded :: name in s'.recorded)
            && (forall name <- s'.recorded ::
                 s'.recorded[name] == if name in s.recorded then s.recorded[name] else Fail)
  {
    forall k | 0 <= k < |order|
      ensures Open(checks, s, order[k])
    {
      assert order[k] in (set name <- order);
    }
    FailAllRecords(checks, s, order);
  }

  // A recorded pass was received; a received result is recorded as its goroutine decided it.
  lemma {:induction false} RecordedAsReceived(checks: Checks, states: seq<State>, events: seq<Event>, k: nat, i: nat)
    requires IsRun(checks, states, events) && k < |states| && i < |checks|
    ensures |states[k].probes| == |checks|
    ensures var (s, name) := (states[k], checks[i].name);
            && (name in s.recorded && s.recorded[name] == Pass ==> Received(states, events, name, k))
            && (Received(states, events, name, k) ==>
                  && name in s.recorded && s.probes[i].Sent?
                  && s.recorded[name] == VerdictOf(s.probes[i].failed, s.probes[i].late))
  {
    hide Next, Enabled, Inv, IsRun, Received;
    if k == 0 {
      StartsRunning(checks, states, events, i);
      NothingYet(states, events, checks[i].name, i);
    } else {
      RunLength(checks, states, events);
      RunStep(checks, states, events, k - 1);
      RecordedAsReceived(checks, states, events, k - 1, i);
      var s, e, name := states[k - 1], events[k - 1], checks[i].name;
      ProbeMove(checks, s, e, i);
      if e.Receive? {
        HeadExists(checks, s);
        ReceiveOther(checks, s, i);
      } else {
        StepRecords(checks, s, e, i);
      }
      ReceivedStep(states, events, name, k - 1);
    }
  }

  lemma ReceivedStep(states: seq<State>, events: seq<Event>, name: string, k: nat)
    requires k < |events| && k < |states|
    ensures Received(states, events, name, k + 1) <==>
            || Received(states, events, name, k)
            || (events[k] == Receive && states[k].channel != [] && states[k].channel[0].name == name)
  {
    if events[k] == Receive && states[k].channel != [] && states[k].channel[0].name == name {
      assert Received(states, events, name, k + 1);
    }
  }

  lemma NothingYet(states: seq<State>, events: seq<Event>, name: string, i: nat)
    ensures !Received(states, events, name, 0) && !ProbedClean(events, i, 0) && !DecidedInTime(states, events, i, 0)
  {}

  lemma HeadExists(checks: Checks, s: State)
    requires Enabled(checks, s, Receive)
    ensures s.channel != []
  {}

  // What happened to a probe stays on its goroutine's record.
  lemma {:induction false} ProbeRemembers(checks: Checks, states: seq<State>, events: seq<Event>, k: nat, i: nat)
    requires IsRun(checks, states, events) && k < |states| && i < |checks|
    ensures |states[k].probes| == |checks|
    ensures var p := states[k].probes[i];
            && (ProbedClean(events, i, k) ==> !p.Running? && !p.failed)
            && (DecidedInTime(states, events, i, k) ==> (p.Decided? || p.Sent?) && !p.late)
  {
    hide Next, Enabled, Inv, IsRun, ProbedClean, DecidedInTime;
    if k == 0 {
      StartsRunning(checks, states, events, i);
      NothingYet(states, events, checks[i].name, i);
    } else {
      RunLength(checks, states, events);
      RunStep(checks, states, events, k - 1);
      ProbeRemembers(checks, states, events, k - 1, i);
      ProbeMove(checks, states[k - 1], events[k - 1], i);
      OwnStep(checks, states[k - 1], events[k - 1], i);
      CleanStep(events, i, k - 1);
      TimelyStep(states, events, i, k - 1);
    }
  }

  lemma OwnStep(checks: Checks, s: State, e: Event, i: nat)
    requires Inv(checks, s) && Enabled(checks, s, e) && i < |checks|
    ensures var p' := Next(checks, s, e).probes;
            && (e == ProbeReturns(i, false) ==> p' == s.probes[i := Returned(false)])
            && (e == Decide(i) ==>
                  && s.probes[i].Returned?
                  && p' == s.probes[i := Decided(s.probes[i].failed, s.expired[i] || s.cancelled)])
  {}

  // A recorded check has passed exactly when its probe returned cleanly, no context had expired at its
  // decision, and the collector received it rather than giving up on it.
  lemma PassedExactly(checks: Checks, states: seq<State>, events: seq<Event>, k: nat, i: nat)
    requires IsRun(checks, states, events) && k < |states| && i < |checks| && checks[i].name in states[k].recorded
    ensures states[k].recorded[checks[i].name] == Pass <==> Passes(checks, states, events, i, k)
  {
    hide IsRun;
    RunInvariant(checks, states, events, k);
    RecordedAsReceived(checks, states, events, k, i);
    ProbeRemembers(checks, states, events, k, i);
    ProbeHistory(checks, states, events, k, i);
  }

  // A finished evaluation is ok exactly when every check passed in that sense, degraded exactly when only weak
  // ones did not, and an error exactly when some strong one did not.
  lemma StatusExactly(checks: Checks, states: seq<State>, events: seq<Event>, k: nat)
    requires IsRun(checks, states, events) && k < |states| && states[k].pending == map[]
    ensures states[k].status == Ok <==> forall i | 0 <= i < |checks| :: Passes(checks, states, events, i, k)
    ensures states[k].status == Error <==>
            exists i :: 0 <= i < |checks| && checks[i].criticality == Strong && !Passes(checks, states, events, i, k)
  {
    hide IsRun, Passes;
    RunInvariant(checks, states, events, k);
    var s := states[k];
    forall i | 0 <= i < |checks|
      ensures checks[i].name in s.recorded
      ensures s.recorded[checks[i].name] == Fail <==> !Passes(checks, states, events, i, k)
    {
      assert checks[i].name !in s.pending;
      PassedExactly(checks, states, events, k, i);
    }
    FailedExactly(checks, states, events, k, Strong);
    FailedExactly(checks, states, events, k, Weak);
    if FailedCheck(checks, s.recorded, Strong) || FailedCheck(checks, s.recorded, Weak) {
      assert exists i :: 0 <= i < |checks| && !Passes(checks, states, events, i, k);
    } else {
      assert forall i | 0 <= i < |checks| :: checks[i].criticality == Strong || checks[i].criticality == Weak;
    }
  }

  lemma FailedExactly(checks: Checks, states: seq<State>, events: seq<Event>, k: nat, c: Criticality)
    requires k < |states|
    requires forall i | 0 <= i < |checks| ::
               checks[i].name in states[k].recorded
               && (states[k].recorded[checks[i].name] == Fail <==> !Passes(checks, states, events, i, k))
    ensures FailedCheck(checks, states[k].recorded, c) <==>
            exists i :: 0 <= i < |checks| && checks[i].criticality == c && !Passes(checks, states, events, i, k)
  {}
}
