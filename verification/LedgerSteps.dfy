/** When the steps of a plan and the deletions of a cleanup succeed, read off the turns of the control plane. */
module LedgerSteps {
  import opened Options
  import opened Ledger

  // ------------------------------------------------------------------ creations

  // The creation takes effect and its answer carries an id.
  ghost predicate HandsOut(cp: ControlPlane, s: Server, kind: Kind) {
    var turn := cp.turns(s.step);
    turn.handled && turn.answer.Answered? && turn.hasId && turn.code == (if kind == Service then 202 else 201)
  }

  // A creation succeeds exactly when it hands out an id and, for a key, its secret too. Its id is on the books
  // exactly when it was handed out, the last of its kind, whatever else went wrong.
  lemma RegisterExactly(cp: ControlPlane, st: State, kind: Kind, token: string)
    requires st.ok
    ensures var st' := RegisterNew(cp, st, kind, token, false);
            && (st'.ok <==> HandsOut(cp, st.server, kind) && (kind == ApiKey ==> cp.turns(st.server.step).hasValue))
            && st'.books.Of(kind) == st.books.Of(kind)
               + (if HandsOut(cp, st.server, kind) then [Ref(token, st.server.next)] else [])
            && (forall k | k != kind :: st'.books.Of(k) == st.books.Of(k)) && st'.checks == st.checks
  {}

  // A runner that revokes a key without a secret takes it off the books again exactly when the revocation is
  // accepted; the creation has failed either way.
  lemma RegisterOrRevokeExactly(cp: ControlPlane, st: State, token: string)
    requires st.ok && HandsOut(cp, st.server, ApiKey) && !cp.turns(st.server.step).hasValue
    ensures var st' := RegisterNew(cp, st, ApiKey, token, true);
            var s1 := CreateResource(cp, st.server, ApiKey, token).1;
            var ref := Ref(token, st.server.next);
            && !st'.ok && st'.server.asked == st.server.asked + [(ApiKey, ref)]
            && st'.books.apiKeys ==
               if DeletionAccepted(cp, s1, ApiKey, ref) then RemoveFirst(st.books.apiKeys + [ref], ref)
               else st.books.apiKeys + [ref]
  {}

  // ------------------------------------------------------------------ deletions

  // The control plane deleted the resource or found it gone, and its answer says so.
  ghost predicate DeletionAccepted(cp: ControlPlane, s: Server, kind: Kind, ref: Ref) {
    var turn := cp.turns(s.step);
    && turn.handled && turn.answer.Answered?
    && ((kind, ref) !in s.live - turn.reaped || turn.code in {200, 204, 404} || (kind == Policy && turn.code == 202))
  }

  // The deletion of a policy or key succeeds exactly when it is accepted; where a missing resource is a
  // failure, it also has to be there.
  lemma DiscardExactly(cp: ControlPlane, s: Server, kind: Kind, ref: Ref, missingOk: bool)
    requires kind != Service
    ensures Discard(cp, s, kind, ref, missingOk).0 <==>
            DeletionAccepted(cp, s, kind, ref) && (missingOk || (kind, ref) in s.live - cp.turns(s.step).reaped)
  {}

  // A service also has to be seen gone, and its publications too.
  lemma ServiceDiscardExactly(cp: ControlPlane, s: Server, ref: Ref, missingOk: bool)
    ensures var (code, s1) := DeleteResource(cp, s, Service, ref);
            var (gone, s2) := WaitServiceDeleted(cp, s1, ref, cp.patience(s1.step));
            Discard(cp, s, Service, ref, missingOk).0 <==>
            if code == 404 then missingOk && !cp.published(s1.step)
            else code in {200, 202, 204} && gone && !cp.published(s2.step)
  {}

  // The wait succeeds exactly when a lookup, made after answered ones only, finds the service gone.
  lemma ServiceGoneExactly(cp: ControlPlane, s: Server, ref: Ref, patience: nat)
    ensures WaitServiceDeleted(cp, s, ref, patience).0 <==>
            exists n: nat | n < patience :: SeenGone(cp, s, ref, n)
  {
    hide WaitServiceDeleted;
    if WaitServiceDeleted(cp, s, ref, patience).0 {
      var n := WaitedUntilSeen(cp, s, ref, patience);
    }
    forall n: nat | n < patience && SeenGone(cp, s, ref, n)
      ensures WaitServiceDeleted(cp, s, ref, patience).0
    {
      SeenEndsWait(cp, s, ref, patience, n);
    }
  }

  lemma {:induction false} WaitedUntilSeen(cp: ControlPlane, s: Server, ref: Ref, patience: nat) returns (n: nat)
    requires WaitServiceDeleted(cp, s, ref, patience).0
    ensures n < patience && SeenGone(cp, s, ref, n)
    decreases patience
  {
    hide LookupResource, IsAnswered;
    var (code, s1) := LookupResource(cp, s, Service, ref);
    n := 0;
    if code != 404 {
      var m := WaitedUntilSeen(cp, s1, ref, patience - 1);
      n := m + 1;
    }
  }

  lemma {:induction false} SeenEndsWait(cp: ControlPlane, s: Server, ref: Ref, patience: nat, n: nat)
    requires n < patience && SeenGone(cp, s, ref, n)
    ensures WaitServiceDeleted(cp, s, ref, patience).0
    decreases patience
  {
    hide LookupResource, IsAnswered;
    if n > 0 {
      SeenEndsWait(cp, LookupResource(cp, s, Service, ref).1, ref, patience - 1, n - 1);
    }
  }

  // The n-th lookup finds the service gone, and those before it were answered.
  ghost predicate SeenGone(cp: ControlPlane, s: Server, ref: Ref, n: nat)
    decreases n
  {
    if n == 0 then LookupResource(cp, s, Service, ref).0 == 404
    else IsAnswered(cp, s) && SeenGone(cp, LookupResource(cp, s, Service, ref).1, ref, n - 1)
  }

  // An entry is taken out where it stands first; a list without it stays.
  lemma {:induction false} RemoveFirstExactly(entries: seq<Ref>, ref: Ref) returns (i: nat)
    ensures i <= |entries| && ref !in entries[..i] && (i < |entries| ==> entries[i] == ref)
    ensures RemoveFirst(entries, ref) == if i < |entries| then entries[..i] + entries[i + 1..] else entries
  {
    i := 0;
    if entries != [] && entries[0] != ref {
      var n := RemoveFirstExactly(entries[1..], ref);
      i := n + 1;
      Skipped(entries, n);
    }
  }

  lemma Skipped(entries: seq<Ref>, n: nat)
    requires n < |entries|
    ensures entries[..n + 1] == [entries[0]] + entries[1..][..n]
    ensures n + 1 < |entries| ==>
              && entries[n + 1] == entries[1..][n]
              && [entries[0]] + (entries[1..][..n] + entries[1..][n + 1..]) == entries[..n + 1] + entries[n + 2..]
    ensures [entries[0]] + entries[1..] == entries
  {}

  // Deletions of the entries from n on, last one first.
  function Backwards(kind: Kind, entries: seq<Ref>, n: nat): seq<(Kind, Ref)>
    requires n <= |entries|
  {
    seq(|entries| - n, i requires 0 <= i < |entries| - n => (kind, entries[|entries| - 1 - i]))
  }

  lemma {:induction false} DiscardAllAsks(cp: ControlPlane, s: Server, kind: Kind, entries: seq<Ref>, n: nat)
    requires n <= |entries|
    ensures DiscardAll(cp, s, kind, entries, n).1.asked == s.asked + Backwards(kind, entries, n)
    decreases |entries| - n
  {
    hide Discard;
    if n < |entries| {
      DiscardAllAsks(cp, s, kind, entries, n + 1);
      DiscardConfirms(cp, DiscardAll(cp, s, kind, entries, n + 1).1, kind, entries[n], true);
      assert Backwards(kind, entries, n) == Backwards(kind, entries, n + 1) + [(kind, entries[n])];
    }
  }

  // The deletion of entry i, made once those after it are done, fails.
  ghost predicate FailsAt(cp: ControlPlane, s: Server, kind: Kind, entries: seq<Ref>, i: nat)
    requires i < |entries|
  {
    !Discard(cp, DiscardAll(cp, s, kind, entries, i + 1).1, kind, entries[i], true).0
  }

  ghost function Failing(cp: ControlPlane, s: Server, kind: Kind, entries: seq<Ref>, n: nat): set<nat> {
    set i: nat | n <= i < |entries| && FailsAt(cp, s, kind, entries, i)
  }

  // A cleanup loop reports as many failures as it had.
  lemma {:induction false} FailuresExactly(cp: ControlPlane, s: Server, kind: Kind, entries: seq<Ref>, n: nat)
    requires n <= |entries|
    ensures DiscardAll(cp, s, kind, entries, n).0 == |Failing(cp, s, kind, entries, n)|
    decreases |entries| - n
  {
    hide Discard, FailsAt;
    if n == |entries| {
      assert Failing(cp, s, kind, entries, n) == {};
    } else {
      FailuresExactly(cp, s, kind, entries, n + 1);
      OneMoreDiscard(cp, s, kind, entries, n);
      assert Failing(cp, s, kind, entries, n)
          == Failing(cp, s, kind, entries, n + 1) + if FailsAt(cp, s, kind, entries, n) then {n} else {};
    }
  }

  lemma OneMoreDiscard(cp: ControlPlane, s: Server, kind: Kind, entries: seq<Ref>, n: nat)
    requires n < |entries|
    ensures DiscardAll(cp, s, kind, entries, n).0 ==
            DiscardAll(cp, s, kind, entries, n + 1).0 + if FailsAt(cp, s, kind, entries, n) then 1 else 0
  {
    hide Discard;
  }

  // Cleanup asks for policies, then keys, then services, each from the last one registered to the first.
  lemma CleanUpOrder(cp: ControlPlane, s: Server, books: Books)
    ensures CleanUp(cp, s, books).1.asked ==
            s.asked + Backwards(Policy, books.policies, 0) + Backwards(ApiKey, books.apiKeys, 0)
            + Backwards(Service, books.services, 0)
  {
    hide DiscardAll, Backwards;
    DiscardAllAsks(cp, s, Policy, books.policies, 0);
    var s1 := DiscardAll(cp, s, Policy, books.policies, 0).1;
    DiscardAllAsks(cp, s1, ApiKey, books.apiKeys, 0);
    DiscardAllAsks(cp, DiscardAll(cp, s1, ApiKey, books.apiKeys, 0).1, Service, books.services, 0);
  }

  // ------------------------------------------------------------------ an undisturbed cleanup

  // Every request is answered, handled at once and accepted, and nothing stays published.
  ghost predicate Calm(cp: ControlPlane, from: nat) {
    && (forall step: nat | from <= step ::
          && cp.turns(step).handled && cp.turns(step).answer.Answered? && !cp.turns(step).deferred
          && cp.turns(step).code in {200, 204})
    && (forall step: nat | from <= step :: cp.patience(step) > 0 && !cp.published(step))
  }

  lemma CalmDiscard(cp: ControlPlane, s: Server, kind: Kind, ref: Ref)
    requires Calm(cp, s.step)
    ensures var (ok, s') := Discard(cp, s, kind, ref, true); ok && s'.step >= s.step
  {
    var (code, s1) := DeleteResource(cp, s, kind, ref);
    assert cp.turns(s.step).handled && cp.turns(s1.step).handled;
    assert cp.patience(s1.step) > 0;
    if kind == Service && code != 404 {
      var (found, s2) := LookupResource(cp, s1, Service, ref);
      assert found == 404;
      assert WaitServiceDeleted(cp, s1, ref, cp.patience(s1.step)) == (true, s2);
    }
  }

  lemma {:induction false} CalmDiscardAll(cp: ControlPlane, s: Server, kind: Kind, entries: seq<Ref>, n: nat)
    requires n <= |entries| && Calm(cp, s.step)
    ensures var (failures, s') := DiscardAll(cp, s, kind, entries, n); failures == 0 && s'.step >= s.step
    decreases |entries| - n
  {
    hide Discard;
    if n < |entries| {
      CalmDiscardAll(cp, s, kind, entries, n + 1);
      CalmDiscard(cp, DiscardAll(cp, s, kind, entries, n + 1).1, kind, entries[n]);
    }
  }

  // A cleanup that the control plane serves in the ordinary way reports no failure, whatever is on the books.
  lemma CalmCleanUp(cp: ControlPlane, s: Server, books: Books)
    requires Calm(cp, s.step)
    ensures CleanUp(cp, s, books).0.None()
  {
    hide DiscardAll;
    CalmDiscardAll(cp, s, Policy, books.policies, 0);
    var s1 := DiscardAll(cp, s, Policy, books.policies, 0).1;
    CalmDiscardAll(cp, s1, ApiKey, books.apiKeys, 0);
    CalmDiscardAll(cp, DiscardAll(cp, s1, ApiKey, books.apiKeys, 0).1, Service, books.services, 0);
  }

  // ------------------------------------------------------------------ the plan

  // What the other steps do to books and checks, and when they fail.
  lemma StepExactly(cp: ControlPlane, st: State, op: Op)
    requires st.ok
    ensures var st' := Step(cp, st, op);
            match op
            case RevokeLastKey =>
              var keys := st.books.apiKeys;
              && (st'.ok <==> keys != [] && DeletionAccepted(cp, st.server, ApiKey, keys[|keys| - 1]))
              && st'.books == st.books.(apiKeys := if st'.ok then keys[..|keys| - 1] else keys)
            case Drop(kind, index) =>
              var entries := st.books.Of(kind);
              && (st'.ok <==> index < |entries| && Discard(cp, st.server, kind, entries[index], kind != Service).0)
              && st'.books == (if st'.ok then st.books.With(kind, RemoveFirst(entries, entries[index])) else st.books)
            case Check(id, passes) =>
              st'.ok == passes && st'.books == st.books && st'.checks == st.checks + if passes then {id} else {}
            case _ => true
  {}

  // A plan goes through exactly when each of its steps does, and nothing follows the first that fails.
  lemma {:induction false} RunExactly(cp: ControlPlane, st: State, plan: seq<Op>, n: nat)
    requires n <= |plan| && st.ok
    ensures Run(cp, st, plan, n).ok <==> forall i | 0 <= i < n :: Step(cp, Run(cp, st, plan, i), plan[i]).ok
    ensures forall i | 0 <= i <= n && !Run(cp, st, plan, i).ok :: Run(cp, st, plan, n) == Run(cp, st, plan, i)
  {
    hide Step;
    if n > 0 {
      RunExactly(cp, st, plan, n - 1);
      OneMoreStep(cp, st, plan, n);
    }
  }

  lemma OneMoreStep(cp: ControlPlane, st: State, plan: seq<Op>, n: nat)
    requires 0 < n <= |plan|
    ensures var before := Run(cp, st, plan, n - 1);
            Run(cp, st, plan, n) == if before.ok then Step(cp, before, plan[n - 1]) else before
  {}
}
