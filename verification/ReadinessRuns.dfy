/** What holds in every interleaving of one readiness evaluation. */
module ReadinessRuns {
  import opened Readiness

  ghost predicate IsStep(checks: Checks, s: State, e: Event, s': State) {
    |s.expired| == |s.probes| == |checks| && Enabled(checks, s, e) && s' == Next(checks, s, e)
  }

  // states[k] is the state before events[k].
  ghost predicate IsRun(checks: Checks, states: seq<State>, events: seq<Event>) {
    && WellFormed(checks) && |states| == |events| + 1
    && states[0] == Init(checks, states[0].serving, states[0].summary)
    && forall k {:trigger events[k]} {:trigger states[k]} | 0 <= k < |events| ::
         IsStep(checks, states[k], events[k], states[k + 1])
  }

  lemma {:induction false} RunInvariant(checks: Checks, states: seq<State>, events: seq<Event>, k: nat)
    requires IsRun(checks, states, events) && k < |states|
    ensures Inv(checks, states[k])
  {
    hide Next, Enabled, Inv;
    if k == 0 {
      InitInv(checks, states[0].serving, states[0].summary);
    } else {
      RunInvariant(checks, states, events, k - 1);
      NextInv(checks, states[k - 1], events[k - 1]);
    }
  }

  // What the run says about its step k.
  lemma RunStep(checks: Checks, states: seq<State>, events: seq<Event>, k: nat)
    requires IsRun(checks, states, events) && k < |events|
    ensures |states| == |events| + 1 && Inv(checks, states[k]) && Inv(checks, states[k + 1])
    ensures Enabled(checks, states[k], events[k]) && |states[k].probes| == |states[k].expired| == |checks|
    ensures states[k + 1] == Next(checks, states[k], events[k]) && |states[k + 1].probes| == |checks|
  {
    hide Next, Enabled, Inv;
    RunInvariant(checks, states, events, k);
    RunInvariant(checks, states, events, k + 1);
    ProbesPerCheck(checks, states[k]);
    ProbesPerCheck(checks, states[k + 1]);
  }

  // A published evaluation has recorded exactly one result per check, service-serving included, and its
  // status is their join, whatever the order of completions and deadlines.
  lemma PublishedIsCompleteJoin(checks: Checks, states: seq<State>, events: seq<Event>, k: nat)
    requires IsRun(checks, states, events) && k < |states| && states[k].published
    ensures states[k].recorded.Keys == set i | 0 <= i < |checks| :: checks[i].name
    ensures SERVING_CHECK in states[k].recorded
    ensures states[k].status == Join(checks, states[k].recorded)
  {
    RunInvariant(checks, states, events, k);
    assert checks[0].name in states[k].recorded;
  }

  // The skip branch of the collector is unreachable.
  lemma ReceiveNeverSkips(checks: Checks, states: seq<State>, events: seq<Event>, k: nat)
    requires IsRun(checks, states, events) && k < |events| && events[k].Receive?
    ensures states[k].channel[0].name in states[k].pending
    ensures states[k + 1].pending.Keys < states[k].pending.Keys
  {
    RunInvariant(checks, states, events, k);
    ReceiveStep(checks, states[k]);
  }

  // A goroutine that is ready to send can always send: the channel holds one slot per check.
  lemma SendNeverBlocks(checks: Checks, states: seq<State>, events: seq<Event>, k: nat, i: nat)
    requires IsRun(checks, states, events) && k < |states| && i < |checks|
    requires |states[k].probes| == |checks| && states[k].probes[i].Decided?
    ensures Enabled(checks, states[k], Send(i))
  {
    RunInvariant(checks, states, events, k);
    SentCountUpdate(states[k].probes, i, Running);
  }

  // ------------------------------------------------------------------ what an ok result rests on

  ghost predicate ProbedClean(events: seq<Event>, i: nat, until: nat) {
    exists m :: 0 <= m < until && m < |events| && events[m] == ProbeReturns(i, false)
  }

  ghost predicate DecidedInTime(states: seq<State>, events: seq<Event>, i: nat, until: nat) {
    exists m :: 0 <= m < until && m < |events| && m < |states| && events[m] == Decide(i) && i < |states[m].expired|
                && !states[m].expired[i] && !states[m].cancelled
  }

  lemma RunLength(checks: Checks, states: seq<State>, events: seq<Event>)
    requires IsRun(checks, states, events)
    ensures |states| == |events| + 1 && |checks| > 0
  {}

  lemma StartsRunning(checks: Checks, states: seq<State>, events: seq<Event>, i: nat)
    requires IsRun(checks, states, events) && i < |checks|
    ensures |states| > 0 && |states[0].probes| == |checks| && states[0].probes[i].Running?
    ensures states[0].recorded == map[]
  {}

  lemma CleanStep(events: seq<Event>, i: nat, k: nat)
    requires k < |events|
    ensures ProbedClean(events, i, k + 1) <==> ProbedClean(events, i, k) || events[k] == ProbeReturns(i, false)
  {
    if events[k] == ProbeReturns(i, false) {
      assert ProbedClean(events, i, k + 1);
    }
  }

  lemma TimelyStep(states: seq<State>, events: seq<Event>, i: nat, k: nat)
    requires k < |events| && k < |states|
    ensures DecidedInTime(states, events, i, k + 1) <==>
            || DecidedInTime(states, events, i, k)
            || (events[k] == Decide(i) && i < |states[k].expired| && !states[k].expired[i] && !states[k].cancelled)
  {}

  // How one step may move the goroutine of check i.
  lemma ProbeMove(checks: Checks, s: State, e: Event, i: nat)
    requires Inv(checks, s) && Enabled(checks, s, e) && i < |checks|
    ensures |Next(checks, s, e).probes| == |checks|
    ensures var p, p' := s.probes[i], Next(checks, s, e).probes[i];
            || p' == p
            || (p.Running? && p'.Returned? && e == ProbeReturns(i, p'.failed))
            || (e == Decide(i) && p' == Decided(p.failed, s.expired[i] || s.cancelled) && p.Returned?)
            || (e == Send(i) && p' == Sent(p.failed, p.late) && p.Decided?)
  {
    if e.Deadline? {
      DeadlineKeeps(checks, s, e.order);
    }
  }

  lemma ProbesPerCheck(checks: Checks, s: State)
    requires Inv(checks, s)
    ensures |s.probes| == |s.expired| == |checks|
  {}

  // What a goroutine's record says about its probe really happened earlier in the run.
  lemma {:induction false} ProbeHistory(checks: Checks, states: seq<State>, events: seq<Event>, k: nat, i: nat)
    requires IsRun(checks, states, events) && k < |states| && i < |checks|
    ensures |states[k].probes| == |checks|
    ensures !states[k].probes[i].Running? && !states[k].probes[i].failed ==> ProbedClean(events, i, k)
    ensures (states[k].probes[i].Decided? || states[k].probes[i].Sent?) && !states[k].probes[i].late ==>
            DecidedInTime(states, events, i, k)
  {
    hide Next, Enabled, Inv, IsRun, ProbedClean, DecidedInTime;
    if k == 0 {
      StartsRunning(checks, states, events, i);
    } else {
      RunLength(checks, states, events);
      RunStep(checks, states, events, k - 1);
      ProbeHistory(checks, states, events, k - 1, i);
      ProbeMove(checks, states[k - 1], events[k - 1], i);
      CleanStep(events, i, k - 1);
      TimelyStep(states, events, i, k - 1);
    }
  }

  lemma DeadlineKeeps(checks: Checks, s: State, order: seq<string>)
    requires Inv(checks, s) && Enabled(checks, s, Deadline(order))
    ensures var s' := Next(checks, s, Deadline(order));
            s' == s.(pending := map[], recorded := s'.recorded, status := s'.status)
  {
    forall k | 0 <= k < |order|
      ensures Open(checks, s, order[k])
    {
      assert order[k] in (set name <- order);
    }
    FailAllRecords(checks, s, order);
  }

  // An ok result means: every probe returned nil, every result was accepted before its context expired,
  // and the service was serving at some step of the evaluation.
  lemma OkRestsOnEvidence(checks: Checks, states: seq<State>, events: seq<Event>, k: nat)
    requires IsRun(checks, states, events) && k < |states| && states[k].published && states[k].status == Ok
    ensures forall i | 0 <= i < |checks| :: ProbedClean(events, i, k) && DecidedInTime(states, events, i, k)
    ensures exists m :: 0 <= m < k && states[m].serving
  {
    RunInvariant(checks, states, events, k);
    forall i | 0 <= i < |checks|
      ensures ProbedClean(events, i, k) && DecidedInTime(states, events, i, k)
    {
      ProbeHistory(checks, states, events, k, i);
      PassedWhenOk(checks, states[k], i);
    }
    assert ProbedClean(events, 0, k);
  }

  lemma PassedWhenOk(checks: Checks, s: State, i: nat)
    requires Inv(checks, s) && s.published && s.status == Ok && i < |checks|
    ensures s.probes[i] == Sent(false, false)
  {}

  // If the service is not serving throughout, the result is an error in every interleaving.
  lemma NotServingMeansError(checks: Checks, states: seq<State>, events: seq<Event>, k: nat)
    requires IsRun(checks, states, events) && k < |states| && states[k].published
    requires forall m | 0 <= m < k :: !states[m].serving
    ensures states[k].status == Error
  {
    RunInvariant(checks, states, events, k);
    var s := states[k];
    assert checks[0].name in s.recorded;
    ProbeHistory(checks, states, events, k, 0);
    assert s.recorded[checks[0].name] == Pass ==> ProbedClean(events, 0, k);
    assert s.recorded[checks[0].name] == Fail ==> FailedCheck(checks, s.recorded, Strong);
  }

  // ------------------------------------------------------------------ the evaluation always ends

  lemma {:induction false} SomeOrder(keys: set<string>) returns (order: seq<string>)
    ensures Enumerates(order, keys)
    decreases |keys|
  {
    if keys == {} {
      order := [];
    } else {
      var name :| name in keys;
      var rest := SomeOrder(keys - {name});
      order := rest + [name];
      assert (set n <- order) == (set n <- rest) + {name};
      forall k, l | 0 <= k < l < |order|
        ensures order[k] != order[l]
      {
        assert order[k] in (set n <- rest);
      }
    }
  }

  // Once the overall context is done the collector can always take a step of its own.
  lemma NeverHangsPastDeadline(checks: Checks, states: seq<State>, events: seq<Event>, k: nat)
    requires IsRun(checks, states, events) && k < |states| && states[k].cancelled && !states[k].published
    ensures exists e: Event :: (e.Publish? || e.Deadline?) && Enabled(checks, states[k], e)
  {
    RunInvariant(checks, states, events, k);
    if states[k].pending == map[] {
      assert Enabled(checks, states[k], Publish);
    } else {
      var order := SomeOrder(states[k].pending.Keys);
      assert Enabled(checks, states[k], Deadline(order));
    }
  }

  function Work(p: Probe): nat {
    match p
    case Running => 4
    case Returned(_) => 3
    case Decided(_, _) => 2
    case Sent(_, _) => 0
  }

  function TotalWork(probes: seq<Probe>): nat {
    if probes == [] then 0 else TotalWork(probes[..|probes| - 1]) + Work(probes[|probes| - 1])
  }

  ghost function Left(s: State): nat {
    TotalWork(s.probes) + |s.channel| + (if s.pending != map[] then 1 else 0) + (if s.published then 0 else 1)
  }

  lemma {:induction false} TotalWorkUpdate(probes: seq<Probe>, i: nat, p: Probe)
    requires i < |probes|
    ensures TotalWork(probes[i := p]) == TotalWork(probes) - Work(probes[i]) + Work(p)
  {
    var n := |probes| - 1;
    if i < n {
      TotalWorkUpdate(probes[..n], i, p);
      assert probes[i := p][..n] == probes[..n][i := p];
    } else {
      assert probes[i := p][..n] == probes[..n];
    }
  }

  lemma {:induction false} FullWork(probes: seq<Probe>)
    requires forall p <- probes :: p.Running?
    ensures TotalWork(probes) == 4 * |probes|
  {
    if probes != [] {
      assert probes[|probes| - 1] in probes;
      FullWork(probes[..|probes| - 1]);
    }
  }

  function InternalSteps(events: seq<Event>): nat {
    if events == [] then 0
    else InternalSteps(events[..|events| - 1]) + (if Internal(events[|events| - 1]) then 1 else 0)
  }

  // However the environment behaves, the evaluation takes at most four steps per check and two more.
  lemma {:induction false} WorkIsBounded(checks: Checks, states: seq<State>, events: seq<Event>, k: nat)
    requires IsRun(checks, states, events) && k < |states|
    ensures InternalSteps(events[..k]) + Left(states[k]) <= 4 * |checks| + 2
  {
    hide Next, Enabled, Inv, TotalWork;
    if k == 0 {
      FullWork(states[0].probes);
    } else {
      WorkIsBounded(checks, states, events, k - 1);
      RunInvariant(checks, states, events, k - 1);
      assert events[..k][..k - 1] == events[..k - 1];
      StepWorks(checks, states[k - 1], events[k - 1]);
    }
  }

  lemma StepWorks(checks: Checks, s: State, e: Event)
    requires Inv(checks, s) && Enabled(checks, s, e)
    ensures Left(Next(checks, s, e)) + (if Internal(e) then 1 else 0) <= Left(s)
  {
    hide TotalWork, SentCount, ChannelOk, RecordOk, FailAll;
    var s' := Next(checks, s, e);
    if e.ProbeReturns? || e.Decide? || e.Send? {
      TotalWorkUpdate(s.probes, e.i, s'.probes[e.i]);
    } else if e.Deadline? {
      DeadlineKeeps(checks, s, e.order);
    }
  }

  // ------------------------------------------------------------------ what does not hold

  // An ok summary does not imply that the service is serving: the evaluation may publish after SetServing
  // has stored false and written its error summary.
  lemma OkSummaryWhileNotServing(checks: Checks)
    requires checks == [Check(SERVING_CHECK, Strong)]
    ensures exists states: seq<State>, events: seq<Event> ::
              && IsRun(checks, states, events) && |events| == 7
              && states[7].summary == Ok && !states[7].serving
              && events[4] == StoreServing(false) && events[5] == WriteSummary(Error)
  {
    hide FailAll, Enumerates, IsStep;
    var s0 := State(true, Error, [false], false, [Running], [], map[SERVING_CHECK := Strong], map[], Ok, false);
    var s1 := s0.(probes := [Returned(false)]);
    var s2 := s0.(probes := [Decided(false, false)]);
    var s3 := s0.(probes := [Sent(false, false)], channel := [Item(SERVING_CHECK, Strong, Pass)]);
    var s4 := s3.(channel := [], pending := map[], recorded := map[SERVING_CHECK := Pass]);
    var s5 := s4.(serving := false);
    var s7 := s5.(summary := Ok, published := true);
    var states := [s0, s1, s2, s3, s4, s5, s5, s7];
    var events := [ProbeReturns(0, false), Decide(0), Send(0), Receive, StoreServing(false), WriteSummary(Error),
                   Publish];
    assert s0 == Init(checks, true, Error);
    WitnessProbe(checks, s0, s1, s2, s3);
    WitnessReceive(checks, s3, s4);
    WitnessStop(checks, s4, s5, s7);
    assert IsRun(checks, states, events);
  }

  lemma WitnessProbe(checks: Checks, s0: State, s1: State, s2: State, s3: State)
    requires checks == [Check(SERVING_CHECK, Strong)]
    requires s0.serving && !s0.cancelled && s0.expired == [false] && s0.probes == [Running] && s0.channel == []
    requires s1 == s0.(probes := [Returned(false)]) && s2 == s0.(probes := [Decided(false, false)])
    requires s3 == s0.(probes := [Sent(false, false)], channel := [Item(SERVING_CHECK, Strong, Pass)])
    ensures IsStep(checks, s0, ProbeReturns(0, false), s1)
    ensures IsStep(checks, s1, Decide(0), s2)
    ensures IsStep(checks, s2, Send(0), s3)
  {}

  lemma WitnessReceive(checks: Checks, s: State, s': State)
    requires checks == [Check(SERVING_CHECK, Strong)] && !s.published && |s.expired| == |s.probes| == 1
    requires s.channel == [Item(SERVING_CHECK, Strong, Pass)] && s.pending == map[SERVING_CHECK := Strong]
             && s.recorded == map[]
    requires s' == s.(channel := [], pending := map[], recorded := map[SERVING_CHECK := Pass])
    ensures IsStep(checks, s, Receive, s')
  {
    hide FailAll, Enumerates;
    assert SERVING_CHECK in s.pending;
    assert s.pending - {SERVING_CHECK} == map[];
  }

  lemma WitnessStop(checks: Checks, s: State, s': State, s'': State)
    requires |checks| == |s.expired| == |s.probes| && !s.published && s.pending == map[] && s.status == Ok
             && s.summary == Error
    requires s' == s.(serving := false) && s'' == s'.(summary := Ok, published := true)
    ensures IsStep(checks, s, StoreServing(false), s')
    ensures IsStep(checks, s', WriteSummary(Error), s')
    ensures IsStep(checks, s', Publish, s'')
  {}
}
