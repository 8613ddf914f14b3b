/** The cleanup ledger of the live gates and the control plane it cleans up. Every resource the control
    plane hands out is live until it is confirmed gone; any request may be lost, refused, or handled
    with its answer lost. */
module Ledger {
  import opened Options

  datatype Kind = Policy | ApiKey | Service

  datatype Ref = Ref(token: string, id: nat)

  // reaped: what others (or a delayed deletion) removed before the request; handled: whether the request
  // took effect; deferred: a service deletion that completes later.
  datatype Turn = Turn(reaped: set<(Kind, Ref)>, handled: bool, code: int, hasId: bool, hasValue: bool, deferred: bool,
                       answer: Answer)

  // A request is answered, or ends in the runner's own failure, or in some other exception: a timeout while
  // the answer is awaited is neither an HTTP nor a URL error.
  datatype Answer = Answered | Fails | Raises

  datatype ControlPlane = ControlPlane(turns: nat -> Turn, patience: nat -> nat, published: nat -> bool)

  // issued: what a creation answered with an id; asked: the deletions requested so far.
  datatype Server = Server(live: set<(Kind, Ref)>, issued: set<(Kind, Ref)>, next: nat, step: nat,
                           asked: seq<(Kind, Ref)>)

  datatype Books = Books(policies: seq<Ref>, apiKeys: seq<Ref>, services: seq<Ref>) {
    function Of(kind: Kind): seq<Ref> {
      match kind
      case Policy => policies
      case ApiKey => apiKeys
      case Service => services
    }

    function With(kind: Kind, entries: seq<Ref>): (b: Books)
      ensures b.Of(kind) == entries && forall k | k != kind :: b.Of(k) == Of(k)
    {
      match kind
      case Policy => this.(policies := entries)
      case ApiKey => this.(apiKeys := entries)
      case Service => this.(services := entries)
    }
  }

  // ------------------------------------------------------------------ requests

  function Reaped(cp: ControlPlane, s: Server): Server {
    s.(live := s.live - cp.turns(s.step).reaped, step := s.step + 1)
  }

  predicate IsAnswered(cp: ControlPlane, s: Server) {
    cp.turns(s.step).answer.Answered?
  }

  // Stands for the status of a request without an answer.
  const NO_STATUS := 0

  function CreatedCode(kind: Kind): int {
    if kind == Service then 202 else 201
  }

  datatype CreateReply = CreateReply(accepted: bool, ref: Option<Ref>, hasValue: bool)

  // A creation that was handled leaves a live resource, whatever the answer says about it.
  function CreateResource(cp: ControlPlane, s: Server, kind: Kind, token: string): (CreateReply, Server) {
    var turn := cp.turns(s.step);
    var s1 := Reaped(cp, s);
    if !turn.handled then (CreateReply(false, None, false), s1)
    else
      var ref := Ref(token, s.next);
      var s2 := s1.(live := s1.live + {(kind, ref)}, next := s.next + 1);
      if !IsAnswered(cp, s) then (CreateReply(false, None, false), s2)
      else if turn.code == CreatedCode(kind) && turn.hasId
      then (CreateReply(true, Some(ref), turn.hasValue), s2.(issued := s2.issued + {(kind, ref)}))
      else (CreateReply(turn.code == CreatedCode(kind), None, false), s2)
  }

  // Without an answer the deletion may still have been handled.
  function DeleteResource(cp: ControlPlane, s: Server, kind: Kind, ref: Ref): (int, Server) {
    var turn := cp.turns(s.step);
    var s1 := Reaped(cp, s).(asked := s.asked + [(kind, ref)]);
    if !IsAnswered(cp, s) then
      (NO_STATUS, if turn.handled && !(kind == Service && turn.deferred) then s1.(live := s1.live - {(kind, ref)})
       else s1)
    else if !turn.handled then (if turn.code in {200, 202, 204, 404} then 503 else turn.code, s1)
    else if (kind, ref) !in s1.live then (404, s1)
    else if kind == Service && turn.deferred then (if turn.code == 404 then 202 else turn.code, s1)
    else (if turn.code == 404 then 204 else turn.code, s1.(live := s1.live - {(kind, ref)}))
  }

  // A 404 is answered for what is gone only; other codes say nothing.
  function LookupResource(cp: ControlPlane, s: Server, kind: Kind, ref: Ref): (int, Server) {
    var turn := cp.turns(s.step);
    var s1 := Reaped(cp, s);
    if !IsAnswered(cp, s) then (NO_STATUS, s1)
    else if turn.handled && (kind, ref) !in s1.live then (404, s1)
    else (if turn.code == 404 then 200 else turn.code, s1)
  }

  // ------------------------------------------------------------------ deletions the runners perform

  function WaitServiceDeleted(cp: ControlPlane, s: Server, ref: Ref, patience: nat): (bool, Server)
    decreases patience
  {
    if patience == 0 then (false, s)
    else
      var (code, s1) := LookupResource(cp, s, Service, ref);
      if code == 404 then (true, s1)
      else if !IsAnswered(cp, s) then (false, s1)
      else WaitServiceDeleted(cp, s1, ref, patience - 1)
  }

  predicate Accepted(kind: Kind, code: int) {
    code in {200, 204, 404} || (kind != ApiKey && code == 202)
  }

  // The deletion of one entry; services also wait for their publications to go. Cleanup takes a missing
  // resource for deleted; deleting a service to reuse its name does not.
  function Discard(cp: ControlPlane, s: Server, kind: Kind, ref: Ref, missingOk: bool): (bool, Server) {
    var (code, s1) := DeleteResource(cp, s, kind, ref);
    if !Accepted(kind, code) || (code == 404 && !missingOk) then (false, s1)
    else if kind != Service then (true, s1)
    else if code == 404 then (!cp.published(s1.step), s1)
    else
      var (gone, s2) := WaitServiceDeleted(cp, s1, ref, cp.patience(s1.step));
      (gone && !cp.published(s2.step), s2)
  }

  // Entries n and above, last one first; a failure does not stop the rest.
  function DiscardAll(cp: ControlPlane, s: Server, kind: Kind, entries: seq<Ref>, n: nat): (nat, Server)
    requires n <= |entries|
    decreases |entries| - n
  {
    if n == |entries| then (0, s)
    else
      var (failures, s1) := DiscardAll(cp, s, kind, entries, n + 1);
      var (ok, s2) := Discard(cp, s1, kind, entries[n], true);
      (if ok then failures else failures + 1, s2)
  }

  datatype CleanupFailures = CleanupFailures(policies: nat, apiKeys: nat, services: nat) {
    predicate None() { policies == 0 && apiKeys == 0 && services == 0 }
  }

  function CleanUp(cp: ControlPlane, s: Server, books: Books): (CleanupFailures, Server) {
    var (policies, s1) := DiscardAll(cp, s, Policy, books.policies, 0);
    var (apiKeys, s2) := DiscardAll(cp, s1, ApiKey, books.apiKeys, 0);
    var (services, s3) := DiscardAll(cp, s2, Service, books.services, 0);
    (CleanupFailures(policies, apiKeys, services), s3)
  }

  // ------------------------------------------------------------------ what a run may do to the books

  datatype Op =
    | Register(kind: Kind, token: string)
    | RegisterOrRevoke(token: string)
    | RevokeLastKey
    | Drop(kind: Kind, index: nat)
    | Check(id: string, passes: bool)

  function RemoveFirst(entries: seq<Ref>, ref: Ref): (r: seq<Ref>)
    ensures forall x <- entries :: x == ref || x in r
  {
    if entries == [] then []
    else if entries[0] == ref then entries[1..]
    else [entries[0]] + RemoveFirst(entries[1..], ref)
  }

  datatype State = State(ok: bool, server: Server, books: Books, checks: set<string>)

  // A creation is registered as soon as its answer carries an id, before anything else is looked at.
  function RegisterNew(cp: ControlPlane, st: State, kind: Kind, token: string, revoke: bool): State {
    var (reply, s1) := CreateResource(cp, st.server, kind, token);
    if !reply.accepted || reply.ref.None? then st.(ok := false, server := s1)
    else
      var ref := reply.ref.value;
      var books := st.books.With(kind, st.books.Of(kind) + [ref]);
      if kind != ApiKey || reply.hasValue then st.(server := s1, books := books)
      else if !revoke then st.(ok := false, server := s1, books := books)
      else
        var (code, s2) := DeleteResource(cp, s1, kind, ref);
        st.(ok := false, server := s2,
            books := if Accepted(kind, code) then books.With(kind, RemoveFirst(books.Of(kind), ref)) else books)
  }

  // Delete first, forget afterwards: an entry leaves the books only when its deletion was confirmed.
  function DropEntry(cp: ControlPlane, st: State, kind: Kind, index: nat): State
    requires index < |st.books.Of(kind)|
  {
    var entries := st.books.Of(kind);
    var (ok, s1) := Discard(cp, st.server, kind, entries[index], kind != Service);
    if ok then st.(server := s1, books := st.books.With(kind, RemoveFirst(entries, entries[index])))
    else st.(ok := false, server := s1)
  }

  function Step(cp: ControlPlane, st: State, op: Op): State {
    match op
    case Register(kind, token) => RegisterNew(cp, st, kind, token, false)
    case RegisterOrRevoke(token) => RegisterNew(cp, st, ApiKey, token, true)
    case RevokeLastKey =>
      if st.books.apiKeys == [] then st.(ok := false)
      else
        var last := |st.books.apiKeys| - 1;
        var (code, s1) := DeleteResource(cp, st.server, ApiKey, st.books.apiKeys[last]);
        if Accepted(ApiKey, code) then st.(server := s1, books := st.books.(apiKeys := st.books.apiKeys[..last]))
        else st.(ok := false, server := s1)
    case Drop(kind, index) =>
      if index < |st.books.Of(kind)| then DropEntry(cp, st, kind, index) else st.(ok := false)
    case Check(id, passes) => if passes then st.(checks := st.checks + {id}) else st.(ok := false)
  }

  // The first n operations of a plan; the run ends at the first failure.
  function Run(cp: ControlPlane, st: State, plan: seq<Op>, n: nat): State
    requires n <= |plan|
  {
    if n == 0 then st
    else
      var before := Run(cp, st, plan, n - 1);
      if before.ok then Step(cp, before, plan[n - 1]) else before
  }

  // ------------------------------------------------------------------ the ledger invariant

  // Every id a creation returned is on the books or known to be gone.
  ghost predicate Accounted(s: Server, books: Books) {
    && (forall x <- s.issued :: x in s.live ==> x.1 in books.Of(x.0))
    && (forall x <- s.live :: x.1.id < s.next) && (forall x <- s.issued :: x.1.id < s.next)
  }

  // Nothing that was issued comes back to life.
  ghost predicate Shrinks(s: Server, s': Server) {
    s'.live <= s.live && s'.issued == s.issued && s'.next == s.next && |s.asked| <= |s'.asked|
        && s'.asked[..|s.asked|] == s.asked
  }

  lemma DeleteConfirms(cp: ControlPlane, s: Server, kind: Kind, ref: Ref)
    ensures var (code, s') := DeleteResource(cp, s, kind, ref);
            && Shrinks(s, s') && s'.asked == s.asked + [(kind, ref)]
            && (Accepted(kind, code) && (kind != Service || code == 404) ==> (kind, ref) !in s'.live)
  {}

  lemma {:induction false} WaitConfirms(cp: ControlPlane, s: Server, ref: Ref, patience: nat)
    ensures var (ok, s') := WaitServiceDeleted(cp, s, ref, patience);
            Shrinks(s, s') && s'.asked == s.asked && (ok ==> (Service, ref) !in s'.live)
    decreases patience
  {
    if patience > 0 {
      WaitConfirms(cp, LookupResource(cp, s, Service, ref).1, ref, patience - 1);
    }
  }

  lemma DiscardConfirms(cp: ControlPlane, s: Server, kind: Kind, ref: Ref, missingOk: bool)
    ensures var (ok, s') := Discard(cp, s, kind, ref, missingOk);
            && Shrinks(s, s') && s'.asked == s.asked + [(kind, ref)]
            && (ok ==> (kind, ref) !in s'.live)
  {
    DeleteConfirms(cp, s, kind, ref);
    var s1 := DeleteResource(cp, s, kind, ref).1;
    WaitConfirms(cp, s1, ref, cp.patience(s1.step));
  }

  lemma RemoveFirstKeepsOthers(entries: seq<Ref>, ref: Ref, x: Ref)
    requires x in entries && x != ref
    ensures x in RemoveFirst(entries, ref)
  {}

  lemma StepKeepsAccounts(cp: ControlPlane, st: State, op: Op)
    requires Accounted(st.server, st.books)
    ensures Accounted(Step(cp, st, op).server, Step(cp, st, op).books)
  {
    match op
    case Register(kind, token) => RegisterKeepsAccounts(cp, st, kind, token, false);
    case RegisterOrRevoke(token) => RegisterKeepsAccounts(cp, st, ApiKey, token, true);
    case RevokeLastKey =>
      if st.books.apiKeys != [] {
        DeleteConfirms(cp, st.server, ApiKey, st.books.apiKeys[|st.books.apiKeys| - 1]);
      }
    case Drop(kind, index) =>
      if index < |st.books.Of(kind)| {
        DiscardConfirms(cp, st.server, kind, st.books.Of(kind)[index], kind != Service);
      }
    case Check(_, _) =>
  }

  lemma RegisterKeepsAccounts(cp: ControlPlane, st: State, kind: Kind, token: string, revoke: bool)
    requires Accounted(st.server, st.books) && (revoke ==> kind == ApiKey)
    ensures var st' := RegisterNew(cp, st, kind, token, revoke); Accounted(st'.server, st'.books)
  {}

  // At every point of every run the books account for all issued resources, failures included.
  lemma {:induction false} LedgerInvariant(cp: ControlPlane, st: State, plan: seq<Op>, n: nat)
    requires n <= |plan| && Accounted(st.server, st.books)
    ensures Accounted(Run(cp, st, plan, n).server, Run(cp, st, plan, n).books)
  {
    if n > 0 {
      LedgerInvariant(cp, st, plan, n - 1);
      StepKeepsAccounts(cp, Run(cp, st, plan, n - 1), plan[n - 1]);
    }
  }

  // A deletion of (kind, ref) was requested on the way from s to s'.
  ghost predicate Asked(s: Server, s': Server, kind: Kind, ref: Ref) {
    |s.asked| <= |s'.asked| && (kind, ref) in s'.asked[|s.asked|..]
  }

  lemma AskedLater(s: Server, s1: Server, s2: Server, kind: Kind, ref: Ref)
    requires Shrinks(s, s1) && Shrinks(s1, s2)
    ensures Shrinks(s, s2) && (Asked(s, s1, kind, ref) || Asked(s1, s2, kind, ref) ==> Asked(s, s2, kind, ref))
  {}

  // Cleanup asks for every entry on the books, whatever failed before it, and an entry it reports no
  // failure for is gone.
  lemma {:induction false} DiscardAllConfirms(cp: ControlPlane, s: Server, kind: Kind, entries: seq<Ref>, n: nat)
    requires n <= |entries|
    ensures var (failures, s') := DiscardAll(cp, s, kind, entries, n);
            && Shrinks(s, s')
            && (forall i | n <= i < |entries| :: Asked(s, s', kind, entries[i]))
            && (failures == 0 ==> forall i | n <= i < |entries| :: (kind, entries[i]) !in s'.live)
    decreases |entries| - n
  {
    hide Discard;
    if n < |entries| {
      DiscardAllConfirms(cp, s, kind, entries, n + 1);
      var s1 := DiscardAll(cp, s, kind, entries, n + 1).1;
      DiscardConfirms(cp, s1, kind, entries[n], true);
      var s2 := Discard(cp, s1, kind, entries[n], true).1;
      forall i | n <= i < |entries|
        ensures Asked(s, s2, kind, entries[i])
      {
        AskedLater(s, s1, s2, kind, entries[i]);
      }
      AskedLater(s, s1, s2, kind, entries[n]);
    }
  }

  lemma DiscardKind(cp: ControlPlane, s: Server, kind: Kind, entries: seq<Ref>)
    ensures var (failures, s') := DiscardAll(cp, s, kind, entries, 0);
            && Shrinks(s, s')
            && (forall ref <- entries :: Asked(s, s', kind, ref))
            && (failures == 0 ==> forall ref <- entries :: (kind, ref) !in s'.live)
  {
    DiscardAllConfirms(cp, s, kind, entries, 0);
  }

  // Cleanup without a failure leaves nothing live that the run was ever given the id of.
  lemma CleanUpConfirms(cp: ControlPlane, s: Server, books: Books)
    requires Accounted(s, books)
    ensures var (failures, s') := CleanUp(cp, s, books);
            && s'.issued == s.issued
            && (failures.None() ==> forall x <- s'.issued :: x !in s'.live)
  {
    hide DiscardAll;
    DiscardKind(cp, s, Policy, books.policies);
    var s1 := DiscardAll(cp, s, Policy, books.policies, 0).1;
    DiscardKind(cp, s1, ApiKey, books.apiKeys);
    var s2 := DiscardAll(cp, s1, ApiKey, books.apiKeys, 0).1;
    DiscardKind(cp, s2, Service, books.services);
  }

  // Every entry on the books is asked for, whichever deletions failed.
  lemma CleanUpAsksForAll(cp: ControlPlane, s: Server, books: Books, kind: Kind, ref: Ref)
    requires ref in books.Of(kind)
    ensures Asked(s, CleanUp(cp, s, books).1, kind, ref)
  {
    hide DiscardAll, Asked;
    DiscardKind(cp, s, Policy, books.policies);
    var s1 := DiscardAll(cp, s, Policy, books.policies, 0).1;
    DiscardKind(cp, s1, ApiKey, books.apiKeys);
    var s2 := DiscardAll(cp, s1, ApiKey, books.apiKeys, 0).1;
    DiscardKind(cp, s2, Service, books.services);
    var s3 := DiscardAll(cp, s2, Service, books.services, 0).1;
    AskedLater(s, s1, s2, kind, ref);
    AskedLater(s, s2, s3, kind, ref);
  }
}
