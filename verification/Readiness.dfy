/** One readiness evaluation as interleaved steps: a goroutine per check, a buffered channel, per-check and
    overall deadlines, and a serving flag other goroutines may flip at any time. */
module Readiness {

  const SERVING_CHECK := "service-serving"

  datatype Criticality = Strong | Weak
  datatype Status = Ok | Degraded | Error
  datatype Verdict = Pass | Fail

  datatype Check = Check(name: string, criticality: Criticality)

  // The checks of one evaluation: service-serving first, then the configured ones.
  type Checks = seq<Check>

  ghost predicate WellFormed(checks: Checks) {
    && |checks| > 0 && checks[0] == Check(SERVING_CHECK, Strong)
    && forall i, j | 0 <= i < j < |checks| :: checks[i].name != checks[j].name
  }

  // A goroutine's progress; failed is the probe's own error, late an expired context at the decision.
  datatype Probe =
    | Running
    | Returned(failed: bool)
    | Decided(failed: bool, late: bool)
    | Sent(failed: bool, late: bool)

  datatype Item = Item(name: string, criticality: Criticality, verdict: Verdict)

  datatype State = State(serving: bool, summary: Status, expired: seq<bool>, cancelled: bool, probes: seq<Probe>,
                         channel: seq<Item>, pending: map<string, Criticality>, recorded: map<string, Verdict>,
                         status: Status, published: bool)

  datatype Event =
    | StoreServing(on: bool)
    | WriteSummary(value: Status)
    | ExpireCheck(i: nat)
    | ExpireAll
    | ProbeReturns(i: nat, failed: bool)
    | Decide(i: nat)
    | Send(i: nat)
    | Receive
    | Deadline(order: seq<string>)
    | Publish

  // Steps of the evaluation itself, as opposed to its environment.
  predicate Internal(e: Event) {
    !e.StoreServing? && !e.WriteSummary? && !e.ExpireCheck? && !e.ExpireAll?
  }

  ghost function Init(checks: Checks, serving: bool, summary: Status): State
    requires WellFormed(checks)
  {
    State(serving, summary, seq(|checks|, _ => false), false, seq(|checks|, _ => Running), [],
          map i | 0 <= i < |checks| :: checks[i].name := checks[i].criticality, map[], Ok, false)
  }

  function VerdictOf(failed: bool, late: bool): Verdict {
    if failed || late then Fail else Pass
  }

  function ApplyStatus(status: Status, criticality: Criticality, verdict: Verdict): Status {
    if verdict == Pass then status
    else if criticality == Strong then Error
    else if status == Ok then Degraded
    else status
  }

  // Everything still pending fails, in whatever order the map is iterated.
  function FailAll(s: State, order: seq<string>): State
    requires forall name <- order :: name in s.pending
    decreases |order|
  {
    if order == [] then s.(pending := map[])
    else
      FailAll(s.(recorded := s.recorded[order[0] := Fail],
                 status := ApplyStatus(s.status, s.pending[order[0]], Fail)), order[1..])
  }

  // order lists every element of keys once.
  predicate Enumerates(order: seq<string>, keys: set<string>) {
    (set name <- order) == keys && forall k, l | 0 <= k < l < |order| :: order[k] != order[l]
  }

  predicate Enabled(checks: Checks, s: State, e: Event) {
    match e
    case StoreServing(_) => true
    case WriteSummary(_) => true
    case ExpireCheck(i) => i < |s.expired|
    case ExpireAll => true
    case ProbeReturns(i, failed) => i < |s.probes| && s.probes[i].Running? && (i == 0 ==> failed == !s.serving)
    case Decide(i) => i < |s.probes| && s.probes[i].Returned?
    case Send(i) => i < |s.probes| && s.probes[i].Decided? && |s.channel| < |checks|
    case Receive => !s.published && s.pending != map[] && s.channel != []
    case Deadline(order) => !s.published && s.pending != map[] && s.cancelled && Enumerates(order, s.pending.Keys)
    case Publish => !s.published && s.pending == map[]
  }

  function Next(checks: Checks, s: State, e: Event): State
    requires |s.expired| == |s.probes| == |checks| && Enabled(checks, s, e)
  {
    match e
    case StoreServing(on) => s.(serving := on)
    case WriteSummary(value) => s.(summary := value)
    case ExpireCheck(i) => s.(expired := s.expired[i := true])
    case ExpireAll => s.(cancelled := true)
    case ProbeReturns(i, failed) => s.(probes := s.probes[i := Returned(failed)])
    case Decide(i) => s.(probes := s.probes[i := Decided(s.probes[i].failed, s.expired[i] || s.cancelled)])
    case Send(i) =>
      var p := s.probes[i];
      s.(probes := s.probes[i := Sent(p.failed, p.late)],
         channel := s.channel + [Item(checks[i].name, checks[i].criticality, VerdictOf(p.failed, p.late))])
    case Receive =>
      var item := s.channel[0];
      var s1 := s.(channel := s.channel[1..]);
      if item.name !in s.pending then s1
      else s1.(pending := s.pending - {item.name}, recorded := s.recorded[item.name := item.verdict],
               status := ApplyStatus(s.status, item.criticality, item.verdict))
    case Deadline(order) => FailAll(s, order)
    case Publish => s.(summary := s.status, published := true)
  }

  // ------------------------------------------------------------------ the reference result

  ghost predicate FailedCheck(checks: Checks, recorded: map<string, Verdict>, c: Criticality) {
    exists i :: 0 <= i < |checks| && checks[i].criticality == c && checks[i].name in recorded
        && recorded[checks[i].name] == Fail
  }

  // The join of the recorded results under Ok < Degraded < Error.
  ghost function Join(checks: Checks, recorded: map<string, Verdict>): Status {
    if FailedCheck(checks, recorded, Strong) then Error
    else if FailedCheck(checks, recorded, Weak) then Degraded
    else Ok
  }

  lemma JoinExtends(checks: Checks, recorded: map<string, Verdict>, i: nat, v: Verdict)
    requires WellFormed(checks) && i < |checks| && checks[i].name !in recorded
    ensures Join(checks, recorded[checks[i].name := v]) == ApplyStatus(Join(checks, recorded), checks[i].criticality, v)
  {}

  // ------------------------------------------------------------------ the invariant

  function SentCount(probes: seq<Probe>): nat {
    if probes == [] then 0 else SentCount(probes[..|probes| - 1]) + (if probes[|probes| - 1].Sent? then 1 else 0)
  }

  lemma {:induction false} SentCountUpdate(probes: seq<Probe>, i: nat, p: Probe)
    requires i < |probes| && !probes[i].Sent?
    ensures SentCount(probes[i := p]) == SentCount(probes) + (if p.Sent? then 1 else 0)
    ensures SentCount(probes) < |probes|
  {
    var n := |probes| - 1;
    SentCountBound(probes[..n]);
    if i < n {
      SentCountUpdate(probes[..n], i, p);
      assert probes[i := p][..n] == probes[..n][i := p];
    } else {
      assert probes[i := p][..n] == probes[..n];
    }
  }

  lemma {:induction false} SentCountBound(probes: seq<Probe>)
    ensures SentCount(probes) <= |probes|
  {
    if probes != [] {
      SentCountBound(probes[..|probes| - 1]);
    }
  }

  // The item of a goroutine that has sent its result.
  ghost predicate Carries(checks: Checks, probes: seq<Probe>, item: Item, i: nat) {
    && i < |checks| && i < |probes| && probes[i].Sent?
    && item == Item(checks[i].name, checks[i].criticality, VerdictOf(probes[i].failed, probes[i].late))
  }

  ghost predicate Carried(checks: Checks, probes: seq<Probe>, item: Item) {
    exists i :: Carries(checks, probes, item, i)
  }

  // While results are being collected each channel item is some goroutine's, still pending, and unique.
  ghost predicate ChannelOk(checks: Checks, s: State)
    requires |s.probes| == |checks|
  {
    && (forall item <- s.channel :: Carried(checks, s.probes, item))
    && (s.pending != map[] ==>
          && (forall item <- s.channel :: item.name in s.pending)
          && (forall k, l | 0 <= k < l < |s.channel| :: s.channel[k].name != s.channel[l].name)
          && (forall i | 0 <= i < |checks| && !s.probes[i].Sent? :: checks[i].name in s.pending))
  }

  ghost predicate RecordOk(checks: Checks, s: State)
    requires |s.probes| == |checks|
  {
    && (forall i | 0 <= i < |checks| :: checks[i].name in s.pending <==> checks[i].name !in s.recorded)
    && (forall name <- s.pending :: exists i :: 0 <= i < |checks| && checks[i] == Check(name, s.pending[name]))
    && (forall name <- s.recorded :: exists i :: 0 <= i < |checks| && checks[i].name == name)
    && s.status == Join(checks, s.recorded)
    && (forall i | 0 <= i < |checks| && checks[i].name in s.recorded && s.recorded[checks[i].name] == Pass ::
          s.probes[i].Sent? && !s.probes[i].failed && !s.probes[i].late)
  }

  ghost predicate Inv(checks: Checks, s: State) {
    && WellFormed(checks) && |s.expired| == |s.probes| == |checks|
    && |s.channel| <= SentCount(s.probes)
    && ChannelOk(checks, s) && RecordOk(checks, s)
    && (s.published ==> s.pending == map[])
  }

  lemma {:induction false} NoneSent(probes: seq<Probe>)
    requires forall p <- probes :: p.Running?
    ensures SentCount(probes) == 0
  {
    if probes != [] {
      assert probes[|probes| - 1] in probes;
      NoneSent(probes[..|probes| - 1]);
    }
  }

  lemma InitInv(checks: Checks, serving: bool, summary: Status)
    requires WellFormed(checks)
    ensures Inv(checks, Init(checks, serving, summary))
  {}

  // ------------------------------------------------------------------ every step keeps the invariant

  // Items stay carried while senders stay sent.
  lemma CarriedStill(checks: Checks, probes: seq<Probe>, i: nat, p: Probe, item: Item)
    requires i < |probes| && !probes[i].Sent? && Carried(checks, probes, item)
    ensures Carried(checks, probes[i := p], item)
  {
    var j :| Carries(checks, probes, item, j);
    assert Carries(checks, probes[i := p], item, j);
  }

  lemma ProbeStep(checks: Checks, s: State, e: Event)
    requires Inv(checks, s) && Enabled(checks, s, e) && (e.ProbeReturns? || e.Decide?)
    ensures Inv(checks, Next(checks, s, e))
  {
    hide Join, SentCount, FailAll, ApplyStatus;
    var s' := Next(checks, s, e);
    SentCountUpdate(s.probes, e.i, s'.probes[e.i]);
    forall item | item in s'.channel
      ensures Carried(checks, s'.probes, item)
    {
      CarriedStill(checks, s.probes, e.i, s'.probes[e.i], item);
    }
  }

  lemma SendChannel(checks: Checks, s: State, i: nat)
    requires Inv(checks, s) && Enabled(checks, s, Send(i))
    ensures ChannelOk(checks, Next(checks, s, Send(i)))
  {
    hide Join, SentCount;
    var s' := Next(checks, s, Send(i));
    var sent := s'.channel[|s.channel|];
    assert Carries(checks, s'.probes, sent, i);
    forall item | item in s.channel
      ensures Carried(checks, s'.probes, item) && item.name != checks[i].name
    {
      CarriedStill(checks, s.probes, i, s'.probes[i], item);
      var j :| Carries(checks, s.probes, item, j);
      assert i != j;
    }
    forall k, l | 0 <= k < l < |s'.channel| && s'.pending != map[]
      ensures s'.channel[k].name != s'.channel[l].name
    {
      assert s'.channel[k] in s.channel;
    }
  }

  lemma SendStep(checks: Checks, s: State, i: nat)
    requires Inv(checks, s) && Enabled(checks, s, Send(i))
    ensures Inv(checks, Next(checks, s, Send(i)))
  {
    hide Join, ChannelOk, SentCount;
    var s' := Next(checks, s, Send(i));
    SentCountUpdate(s.probes, i, s'.probes[i]);
    SendChannel(checks, s, i);
    assert RecordOk(checks, s');
  }

  // The item at the head of the channel belongs to a check whose result is still awaited.
  lemma HeadIsPending(checks: Checks, s: State) returns (i: nat)
    requires Inv(checks, s) && Enabled(checks, s, Receive)
    ensures Carries(checks, s.probes, s.channel[0], i)
    ensures s.channel[0].name in s.pending && s.pending[s.channel[0].name] == s.channel[0].criticality
  {
    assert s.channel[0] in s.channel && Carried(checks, s.probes, s.channel[0]);
    i :| Carries(checks, s.probes, s.channel[0], i);
    var j :| 0 <= j < |checks| && checks[j] == Check(s.channel[0].name, s.pending[s.channel[0].name]);
  }

  lemma ReceiveChannel(checks: Checks, s: State)
    requires Inv(checks, s) && Enabled(checks, s, Receive)
    ensures ChannelOk(checks, Next(checks, s, Receive))
  {
    hide Join, SentCount;
    var s' := Next(checks, s, Receive);
    var i := HeadIsPending(checks, s);
    forall k | 0 <= k < |s'.channel|
      ensures s'.channel[k] in s.channel && s'.channel[k].name != s.channel[0].name
    {
      assert s.channel[k + 1] == s'.channel[k];
    }
    forall j | 0 <= j < |checks| && !s.probes[j].Sent? && s'.pending != map[]
      ensures checks[j].name in s'.pending
    {
      assert checks[j].name in s.pending && j != i;
    }
  }

  // A receive always finds its check pending and strictly shrinks the pending set: the branch that skips
  // an unknown name is never taken.
  lemma ReceiveStep(checks: Checks, s: State)
    requires Inv(checks, s) && Enabled(checks, s, Receive)
    ensures Inv(checks, Next(checks, s, Receive))
    ensures s.channel[0].name in s.pending && Next(checks, s, Receive).pending.Keys < s.pending.Keys
  {
    hide Join, ChannelOk, SentCount, FailAll, Enumerates, ApplyStatus;
    var s' := Next(checks, s, Receive);
    var i := HeadIsPending(checks, s);
    JoinExtends(checks, s.recorded, i, s.channel[0].verdict);
    ReceiveChannel(checks, s);
    assert s'.pending == s.pending - {s.channel[0].name};
    assert RecordOk(checks, s');
  }

  // A check of the configuration that has not been recorded yet.
  ghost predicate Open(checks: Checks, s: State, name: string) {
    && name in s.pending && name !in s.recorded
    && exists i :: 0 <= i < |checks| && checks[i] == Check(name, s.pending[name])
  }

  lemma {:induction false} FailAllRecords(checks: Checks, s: State, order: seq<string>)
    requires WellFormed(checks) && s.status == Join(checks, s.recorded)
    requires (forall name <- order :: name in s.pending) && forall k | 0 <= k < |order| :: Open(checks, s, order[k])
    requires forall k, l | 0 <= k < l < |order| :: order[k] != order[l]
    ensures var s' := FailAll(s, order);
            && s'.status == Join(checks, s'.recorded)
            && (forall name :: name in s'.recorded <==> name in s.recorded || name in order)
            && (forall name <- s'.recorded ::
                 s'.recorded[name] == if name in s.recorded then s.recorded[name] else Fail)
            && s' == s.(pending := map[], recorded := s'.recorded, status := s'.status)
    decreases |order|
  {
    if order != [] {
      assert Open(checks, s, order[0]);
      var i :| 0 <= i < |checks| && checks[i] == Check(order[0], s.pending[order[0]]);
      JoinExtends(checks, s.recorded, i, Fail);
      var s1 := s.(recorded := s.recorded[order[0] := Fail],
                   status := ApplyStatus(s.status, s.pending[order[0]], Fail));
      forall k | 0 <= k < |order[1..]|
        ensures Open(checks, s1, order[1..][k])
      {
        assert Open(checks, s, order[k + 1]);
      }
      FailAllRecords(checks, s1, order[1..]);
    }
  }

  lemma DeadlineStep(checks: Checks, s: State, order: seq<string>)
    requires Inv(checks, s) && Enabled(checks, s, Deadline(order))
    ensures Inv(checks, Next(checks, s, Deadline(order)))
  {
    forall k | 0 <= k < |order|
      ensures Open(checks, s, order[k])
    {
      assert order[k] in (set name <- order);
    }
    FailAllRecords(checks, s, order);
  }

  lemma OtherStep(checks: Checks, s: State, e: Event)
    requires Inv(checks, s) && Enabled(checks, s, e) && (!Internal(e) || e.Publish?)
    ensures Inv(checks, Next(checks, s, e))
  {
    hide Join, SentCount;
  }

  lemma NextInv(checks: Checks, s: State, e: Event)
    requires Inv(checks, s) && Enabled(checks, s, e)
    ensures Inv(checks, Next(checks, s, e))
  {
    hide Inv, Next, Enabled;
    match e
    case ProbeReturns(_, _) => ProbeStep(checks, s, e);
    case Decide(_) => ProbeStep(checks, s, e);
    case Send(i) => SendStep(checks, s, i);
    case Receive => ReceiveStep(checks, s);
    case Deadline(order) => DeadlineStep(checks, s, order);
    case _ => OtherStep(checks, s, e);
  }
}
