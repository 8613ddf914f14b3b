/** The summary after the service has stopped serving while an evaluation is still under way. */
module ReadinessSummary {
  import opened Readiness
  import opened ReadinessRuns
  import opened ReadinessResults

  // Serving stops at step m and is not resumed before k; the error summary that goes with it is written at
  // step w. Others, such as further evaluations, may write the summary too.
  ghost predicate Stopped(events: seq<Event>, m: nat, w: nat, k: nat) {
    && m < w < k <= |events| && events[m] == StoreServing(false) && events[w] == WriteSummary(Error)
    && (forall e | m < e < k :: events[e] != StoreServing(true))
  }

  predicate WritesAny(e: Event) {
    e.WriteSummary? || e.Publish?
  }

  // Another writer's ok, or the publication of this evaluation once every check has passed.
  ghost predicate WritesOk(checks: Checks, states: seq<State>, events: seq<Event>, p: nat)
    requires p < |events|
  {
    events[p] == WriteSummary(Ok)
        || (events[p] == Publish && forall i | 0 <= i < |checks| :: Passes(checks, states, events, i, p))
  }

  ghost predicate LastWriteIsOk(checks: Checks, states: seq<State>, events: seq<Event>, w: nat, k: nat)
    requires k <= |events|
  {
    exists p :: w < p < k && WritesOk(checks, states, events, p) && forall q | p < q < k :: !WritesAny(events[q])
  }

  lemma StepSummary(checks: Checks, s: State, e: Event)
    requires Inv(checks, s) && Enabled(checks, s, e)
    ensures var s' := Next(checks, s, e);
            && s'.serving == (if e.StoreServing? then e.on else s.serving)
            && s'.summary == (if e.WriteSummary? then e.value else if e.Publish? then s.status else s.summary)
            && (e.Publish? ==> s'.published && s'.status == s.status && !s.published)
            && (s.published ==> s'.published)
            && (e == ProbeReturns(0, false) ==> s.serving)
  {
    hide Inv, FailAll;
    if e.Deadline? {
      DeadlineKeeps(checks, s, e.order);
    }
  }

  // What step i of a run does to flag, summary and publication.
  lemma StepAt(checks: Checks, states: seq<State>, events: seq<Event>, i: nat)
    requires IsRun(checks, states, events) && i < |events|
    ensures |states| == |events| + 1
    ensures var (s, e, s') := (states[i], events[i], states[i + 1]);
            && s'.serving == (if e.StoreServing? then e.on else s.serving)
            && s'.summary == (if e.WriteSummary? then e.value else if e.Publish? then s.status else s.summary)
            && (e.Publish? ==> s'.published && s'.status == s.status && !s.published)
            && (s.published ==> s'.published)
            && (e == ProbeReturns(0, false) ==> s.serving)
  {
    hide Next, Enabled, Inv;
    RunInvariant(checks, states, events, i);
    StepSummary(checks, states[i], events[i]);
  }

  lemma PublishAt(checks: Checks, states: seq<State>, events: seq<Event>, p: nat)
    requires IsRun(checks, states, events) && p < |events| && events[p] == Publish
    ensures states[p].status == Ok <==> forall i | 0 <= i < |checks| :: Passes(checks, states, events, i, p)
  {
    hide Passes;
    assert IsStep(checks, states[p], events[p], states[p + 1]);
    StatusExactly(checks, states, events, p);
  }

  // After the error summary of a stop, the summary is ok again exactly when the last one to write it was
  // another writer with an ok, or this evaluation after every check passed: its probe returned cleanly, in
  // time, and its result was received.
  lemma {:induction false} OkSummaryExactly(checks: Checks, states: seq<State>, events: seq<Event>, w: nat, k: nat)
    requires IsRun(checks, states, events) && w < k <= |events| && events[w] == WriteSummary(Error)
    ensures |states| == |events| + 1
    ensures states[k].summary == Ok <==> LastWriteIsOk(checks, states, events, w, k)
    decreases k
  {
    hide IsRun, Passes;
    RunLength(checks, states, events);
    var last := k - 1;
    StepAt(checks, states, events, last);
    if last > w {
      OkSummaryExactly(checks, states, events, w, last);
      if events[last] == Publish {
        PublishAt(checks, states, events, last);
      }
      if WritesAny(events[last]) {
        if WritesOk(checks, states, events, last) {
          assert LastWriteIsOk(checks, states, events, w, k);
        }
      } else {
        LastWriteStays(checks, states, events, w, last);
      }
    }
  }

  lemma LastWriteStays(checks: Checks, states: seq<State>, events: seq<Event>, w: nat, k: nat)
    requires k < |events| && !WritesAny(events[k])
    ensures LastWriteIsOk(checks, states, events, w, k) <==> LastWriteIsOk(checks, states, events, w, k + 1)
  {
    hide WritesOk, WritesAny;
    if LastWriteIsOk(checks, states, events, w, k) {
      var p :| w < p < k && WritesOk(checks, states, events, p) && forall q | p < q < k :: !WritesAny(events[q]);
      assert forall q | p < q < k + 1 :: !WritesAny(events[q]);
    }
    if LastWriteIsOk(checks, states, events, w, k + 1) {
      var p :| w < p < k + 1 && WritesOk(checks, states, events, p)
        && forall q | p < q < k + 1 :: !WritesAny(events[q]);
      assert p != k by {
        OkIsAWrite(checks, states, events, p);
      }
      assert forall q | p < q < k :: !WritesAny(events[q]);
    }
  }

  lemma OkIsAWrite(checks: Checks, states: seq<State>, events: seq<Event>, p: nat)
    requires p < |events| && WritesOk(checks, states, events, p)
    ensures WritesAny(events[p])
  {}

  lemma {:induction false} ServingStaysOff(checks: Checks, states: seq<State>, events: seq<Event>, m: nat, k: nat,
                                           e: nat)
    requires IsRun(checks, states, events) && m < e <= k < |states| && events[m] == StoreServing(false)
    requires forall i | m < i < k :: events[i] != StoreServing(true)
    ensures !states[e].serving
    decreases e
  {
    hide IsRun;
    RunLength(checks, states, events);
    StepAt(checks, states, events, e - 1);
    if e - 1 > m {
      ServingStaysOff(checks, states, events, m, k, e - 1);
    }
  }

  // When the service stops before its own serving check has been answered, the summary stays down unless
  // another writer puts it up.
  lemma StoppedBeforeProbeStaysDown(checks: Checks, states: seq<State>, events: seq<Event>, m: nat, w: nat, k: nat)
    requires IsRun(checks, states, events) && k < |states| && Stopped(events, m, w, k)
    requires forall e | 0 <= e < m :: events[e] != ProbeReturns(0, false)
    requires forall e | w < e < k :: events[e] != WriteSummary(Ok)
    ensures states[k].summary != Ok
  {
    hide IsRun, Passes;
    RunLength(checks, states, events);
    OkSummaryExactly(checks, states, events, w, k);
    if LastWriteIsOk(checks, states, events, w, k) {
      var p :| w < p < k && WritesOk(checks, states, events, p) && forall q | p < q < k :: !WritesAny(events[q]);
      assert Passes(checks, states, events, 0, p);
      PassedServing(checks, states, events, m, k, p);
    }
  }

  // A serving check cannot pass on a probe made after the stop.
  lemma PassedServing(checks: Checks, states: seq<State>, events: seq<Event>, m: nat, k: nat, p: nat)
    requires IsRun(checks, states, events) && m < p < k < |states| && events[m] == StoreServing(false)
    requires forall e | m < e < k :: events[e] != StoreServing(true)
    requires |checks| > 0 && Passes(checks, states, events, 0, p)
    ensures exists e :: 0 <= e < m && events[e] == ProbeReturns(0, false)
  {
    hide IsRun;
    RunLength(checks, states, events);
    var e :| 0 <= e < p && e < |events| && events[e] == ProbeReturns(0, false);
    StepAt(checks, states, events, e);
    if e > m {
      ServingStaysOff(checks, states, events, m, k, e);
    }
  }
}
