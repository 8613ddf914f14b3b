/** The stop probe: a service must be seen unpublished while its workload still runs, and only then
    stopped. Polls are the observations made before the deadline, in order. */
module StopMonitor {

  const STOPPED := "stopped"

  // One round: the control-plane answer, the gateway's answer to a chat, and whether the target resolves.
  datatype Poll = Poll(httpStatus: int, phase: string, url: string, gateway: int, targetResolved: bool)

  datatype Verdict = Confirmed(at: nat) | Rejected(at: nat) | TimedOut

  // Still published: the service answers and the gateway serves it or has just dropped it.
  predicate StillPublished(p: Poll) {
    p.httpStatus == 200 && p.phase != STOPPED && p.url != "" && p.gateway in {200, 404}
  }

  // Unpublished before the workload stopped.
  predicate Unpublished(p: Poll, tenantKnown: bool) {
    p.httpStatus == 200 && p.phase != STOPPED && p.url == "" && p.gateway == 404 && tenantKnown && p.targetResolved
  }

  predicate StaysUnpublished(p: Poll) {
    p.httpStatus == 200 && p.url == ""
  }

  // Poll i is the first unpublished one and nothing before it was out of order.
  ghost predicate UnpublishedAt(polls: seq<Poll>, tenantKnown: bool, i: nat) {
    i < |polls| && (forall k | 0 <= k < i :: StillPublished(polls[k])) && Unpublished(polls[i], tenantKnown)
  }

  // Between i and j the service stayed unpublished and was not seen stopped.
  ghost predicate Settling(polls: seq<Poll>, i: nat, j: nat) {
    i < j <= |polls| && forall k | i < k < j :: StaysUnpublished(polls[k]) && polls[k].phase != STOPPED
  }

  // The order the probe is there to establish.
  ghost predicate UnpublishedThenStopped(polls: seq<Poll>, tenantKnown: bool, i: nat, j: nat) {
    && UnpublishedAt(polls, tenantKnown, i) && i < j < |polls|
    && (forall k | i < k <= j :: StaysUnpublished(polls[k])) && polls[j].phase == STOPPED
  }

  ghost predicate OutOfOrder(polls: seq<Poll>, tenantKnown: bool, at: nat) {
    && at < |polls|
    && ( || ((forall k | 0 <= k < at :: StillPublished(polls[k]))
             && !StillPublished(polls[at]) && !Unpublished(polls[at], tenantKnown))
         || (exists i ::
             UnpublishedAt(polls, tenantKnown, i) && Settling(polls, i, at) && !StaysUnpublished(polls[at])))
  }

  // Confirms exactly the runs with an unpublished poll followed by a stopped one, rejects exactly at the
  // first poll that breaks the order, and times out on all others.
  method WaitForUnpublishedThenStopped(polls: seq<Poll>, tenantKnown: bool) returns (v: Verdict)
    ensures v.Confirmed? <==> exists i, j :: UnpublishedThenStopped(polls, tenantKnown, i, j)
    ensures v.Confirmed? ==> exists i :: UnpublishedThenStopped(polls, tenantKnown, i, v.at) && Settling(polls, i, v.at)
    ensures v.Rejected? <==> exists at :: OutOfOrder(polls, tenantKnown, at)
    ensures v.Rejected? ==> OutOfOrder(polls, tenantKnown, v.at)
  {
    var unpublished := false;
    ghost var first: nat := 0;
    for n := 0 to |polls|
      invariant !unpublished ==> forall k | 0 <= k < n :: StillPublished(polls[k])
      invariant unpublished ==> first < n && UnpublishedAt(polls, tenantKnown, first) && Settling(polls, first, n)
    {
      var p := polls[n];
      if p.httpStatus != 200 {
        NotConfirmedWhenOutOfOrder(polls, tenantKnown, n);
        return Rejected(n);
      }
      if !unpublished {
        if p.phase == STOPPED || p.gateway !in {200, 404} {
          NotConfirmedWhenOutOfOrder(polls, tenantKnown, n);
          return Rejected(n);
        }
        unpublished := p.url == "";
        if unpublished {
          if p.gateway != 404 || !tenantKnown || !p.targetResolved {
            NotConfirmedWhenOutOfOrder(polls, tenantKnown, n);
            return Rejected(n);
          }
          first := n;
        }
      } else if p.url != "" {
        NotConfirmedWhenOutOfOrder(polls, tenantKnown, n);
        return Rejected(n);
      }
      if unpublished && p.phase == STOPPED {
        assert UnpublishedThenStopped(polls, tenantKnown, first, n);
        if at :| OutOfOrder(polls, tenantKnown, at) {
          NotConfirmedWhenOutOfOrder(polls, tenantKnown, at);
        }
        return Confirmed(n);
      }
    }
    return TimedOut;
  }

  // No run is both confirmed and out of order.
  lemma NotConfirmedWhenOutOfOrder(polls: seq<Poll>, tenantKnown: bool, at: nat)
    requires OutOfOrder(polls, tenantKnown, at)
    ensures !exists i, j :: UnpublishedThenStopped(polls, tenantKnown, i, j)
  {}
}
