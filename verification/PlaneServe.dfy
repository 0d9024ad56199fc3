/// The poll loop of plane intake: claim one piece of work at a time until
/// shutdown, the job limit, or an error that stops intake.
module PlaneServe {
  import opened Wrappers
  import opened ClaimPort
  import opened FencedRetryProofs
  import opened DriveRun
  import opened ClaimedRun
  import L = WorkerLifecycle

  datatype Offer =
    | NoWork
    | ClaimFailed(error: PlaneError)
    | Offered(id: string, validUntil: nat, work: Work)

  /// What one turn of the loop meets beside shutdown: whether governance is down,
  /// and what the plane offers.
  datatype Poll = Poll(governanceDown: bool, offer: Offer)

  datatype ServeEnd = Served | ServeFailed(error: PlaneError) | StillServing

  method ObserveClaimError(lc: L.Lifecycle, error: PlaneError)
    modifies lc`fencingOk, lc`governanceOk, lc`ops
    ensures L.Begins(lc.ops) == old(L.Begins(lc.ops))
    ensures lc.fencingOk == (old(lc.fencingOk) && !error.FenceLost?)
    ensures lc.governanceOk == (old(lc.governanceOk) && !error.Source? && !error.Harness?)
  {
    L.BeginsOneMore(lc.ops, L.FenceFlagged);
    L.BeginsOneMore(lc.ops, L.GovernanceDown);
    match error {
      case FenceLost(_) => lc.SetFenceLost();
      case Source(_) => lc.SetGovernanceDown();
      case Harness(_) => lc.SetGovernanceDown();
      case Mapping(_) =>
    }
  }

  method Drain(lc: L.Lifecycle)
    modifies lc`draining, lc`ops
    ensures lc.draining && L.Begins(lc.ops) == old(L.Begins(lc.ops))
  {
    L.BeginsOneMore(lc.ops, L.Draining);
    lc.SetDraining();
  }

  lemma NothingIsSafe(s: Wire)
    requires s.log == []
    ensures LeaseSafe(s)
  {
  }

  /// One claim as the loop ran it: where, among the answers the host met, it was
  /// begun, how it ended, and its log.
  datatype Record = Record(at: nat, execution: Execution, wire: Wire)

  function Positions(claims: seq<Record>): seq<nat>
  {
    seq(|claims|, k requires 0 <= k < |claims| => claims[k].at)
  }

  /// A claim whose watching stopped: its last events are all the rounds watched.
  ghost predicate WatchedAll(log: seq<Event>, rounds: nat)
  {
    2 * rounds <= |log| && AllRenewed(log, |log| - 2 * rounds)
  }

  /// A ready worker runs one claim. It is begun once, here, keeps its lease, and is
  /// no longer active afterwards, or all the rounds watched were driven.
  method RunOneClaim(host: Host, lc: L.Lifecycle, id: string, validUntil: nat, work: Work, o: Options, policy: Policy,
                     outside: Outside, manifest: string, rounds: nat)
    returns (r: Execution, ghost wire: Wire)
    requires ValidOptions(o) && lc.AcceptingClaims()
    modifies host, lc
    ensures L.Begins(lc.ops) == old(L.Begins(lc.ops)) + [old(host.pos)]
    ensures r.Watched? ==> WatchedAll(wire.log, rounds)
    ensures r.Watched? || lc.activeClaimIds == []
    ensures r.Continue? ==> lc.draining == old(lc.draining)
    ensures r.Shutdown? ==> ShutdownMet(host.moves, host.pos) && lc.draining
    ensures r.Failure? ==> Flagged(r.error, lc.fencingOk, lc.draining, lc.governanceOk)
    ensures r.GovernanceUnavailable? ==> !lc.governanceOk
    ensures LeaseSafe(wire) && old(host.pos) <= host.pos
  {
    hide LeaseSafe, Story, AckFor, EndsAccepted, CallEvents, PrepareClaimedRun, L.ReleasedAs, AllRenewed, Drive;
    var claim := new PlaneClaim(id, validUntil);
    host.log := [];
    NothingIsSafe(host.On(claim));
    ghost var before, at := lc.Booked(), host.pos;
    L.BeginsOneMore(before.ops, L.Began(id, at));
    ghost var p, ended, ack, began;
    r, p, ended, ack, began := Execute(host, lc, claim, work, o, policy, outside, manifest, rounds);
    wire := host.On(claim);
    if !r.Watched? {
      L.BegunAndReleased(before, lc.Booked(), id, at,
                         if r.Continue? || r.GovernanceUnavailable? then Some(ack.value.outcome) else None);
    }
  }

  /// What a begun claim is on record for: it was begun immediately after the flag
  /// was read and found unset, and it keeps its lease.
  ghost predicate BegunUnset(m: Adversary, claim: Record)
  {
    claim.at > 0 && !m(claim.at - 1).stop && LeaseSafe(claim.wire)
  }

  /// How many polls found governance up and were offered work.
  function Offers(poll: nat -> Poll, polls: nat): nat
  {
    if polls == 0 then 0
    else Offers(poll, polls - 1) + if !poll(polls - 1).governanceDown && poll(polls - 1).offer.Offered? then 1 else 0
  }

  lemma {:induction false} OffersGrow(poll: nat -> Poll, k: nat, polls: nat)
    requires k <= polls
    ensures Offers(poll, k) <= Offers(poll, polls)
    decreases polls
  {
    if k < polls {
      OffersGrow(poll, k, polls - 1);
    }
  }

  /// One turn of the loop: None when it goes on. At most one claim is begun, and none
  /// with governance down or while the worker does not accept claims.
  method OneTurn(host: Host, lc: L.Lifecycle, o: Options, policy: Policy, outside: Outside, manifest: string,
                 poll: Poll,
                 rounds: nat)
    returns (end: Option<ServeEnd>, claimed: bool, ghost claim: Record)
    requires ValidOptions(o) && lc.activeClaimIds == []
    modifies host, lc
    ensures L.Begins(lc.ops) == old(L.Begins(lc.ops)) + if claimed then [claim.at] else []
    ensures claimed ==> BegunUnset(host.moves, claim)
    ensures claimed ==> !poll.governanceDown && poll.offer.Offered?
    ensures claimed ==> !old(lc.draining) && old(lc.governanceOk) && old(lc.fencingOk)
    ensures end.None? && claimed ==> claim.execution.Continue?
    ensures poll.governanceDown && !claimed ==> !lc.governanceOk
    ensures !claimed && end.Some? && end.value.ServeFailed? ==>
              (end.value.error.FenceLost? ==> !lc.fencingOk)
              && (end.value.error.Source? || end.value.error.Harness? ==> !lc.governanceOk)
    ensures end.None? && !claimed ==> host.now >= old(host.now) + o.pollInterval
    ensures end == Some(Served) && !poll.governanceDown && old(lc.governanceOk) && old(lc.fencingOk) ==> lc.draining
    ensures end.Some? && end.value.ServeFailed? && claimed ==>
              !lc.governanceOk || Flagged(end.value.error, lc.fencingOk, lc.draining, lc.governanceOk)
    ensures end.None? ==> lc.activeClaimIds == [] && lc.draining == old(lc.draining)
    ensures end == Some(Served) ==> ShutdownMet(host.moves, host.pos) || old(lc.draining)
    ensures end == Some(StillServing) <==> claimed && claim.execution.Watched?
    ensures end == Some(StillServing) ==> WatchedAll(claim.wire.log, rounds)
    ensures end.Some? && end.value.ServeFailed? ==>
              if claimed then claim.execution.Failure? || claim.execution.GovernanceUnavailable?
              else poll.offer == ClaimFailed(end.value.error)
    ensures old(host.pos) <= host.pos
    ensures end.Some? && end.value != StillServing ==> lc.activeClaimIds == []
  {
    hide LeaseSafe, L.Begins, WatchedAll, MentionsShutdown;
    claimed, claim := false, Record(0, Continue, Wire(0, 0, 0, []));
    var stop;
    L.BeginsOneMore(lc.ops, L.GovernanceDown);
    if poll.governanceDown {
      lc.SetGovernanceDown();
    }
    if !lc.AcceptingClaims() {
      if lc.draining && lc.governanceOk && lc.fencingOk {
        return Some(Served), claimed, claim;
      }
      stop := host.ShutdownFlag();
      if stop {
        return Some(Served), claimed, claim;
      }
      stop := host.Pause(o.pollInterval);
      if stop {
        Drain(lc);
      }
      return if stop then Some(Served) else None, claimed, claim;
    }
    stop := host.AwaitOffer();
    if stop {
      Drain(lc);
      return Some(Served), claimed, claim;
    }
    match poll.offer {
      case NoWork =>
        stop := host.Pause(o.pollInterval);
        if stop {
          Drain(lc);
        }
        end := if stop then Some(Served) else None;
      case ClaimFailed(error) =>
        ObserveClaimError(lc, error);
        end := Some(ServeFailed(error));
      case Offered(id, validUntil, work) =>
        // claiming may win the race although shutdown is set: look again
        stop := host.ShutdownFlag();
        if stop {
          Drain(lc);
          return Some(Served), claimed, claim;
        }
        ghost var at, wire := host.pos, Wire(0, 0, 0, []);
        var r;
        r, wire := RunOneClaim(host, lc, id, validUntil, work, o, policy, outside, manifest, rounds);
        claimed, claim := true, Record(at, r, wire);
        end := match r
          case Continue => None
          case Watched => Some(StillServing)
          case Shutdown => Some(Served)
          case GovernanceUnavailable => Some(ServeFailed(Source(FromPlane("governance unavailable during run"))))
          case Failure(error) => Some(ServeFailed(error));
    }
  }

  /// `polls` bounds how long the loop is watched. Exactly `completed` claims are
  /// begun, never more than `maxJobs`, each while the worker was at work on nothing
  /// else, and each immediately after the flag was read and found unset; each keeps
  /// its lease. A claim that fails, sees shutdown or finds governance down is the
  /// last one. The loop ends served only when shutdown was met, the worker was
  /// draining from the start, or all jobs are done.
  method RunUntilShutdown(host: Host, lc: L.Lifecycle, o: Options, policy: Policy, outside: Outside, manifest: string,
                          maxJobs: Option<nat>, poll: nat -> Poll, polls: nat, rounds: nat)
    returns (completed: nat, end: ServeEnd, ghost claims: seq<Record>)
    requires ValidOptions(o) && lc.activeClaimIds == []
    modifies host, lc
    ensures maxJobs.Some? ==> completed <= maxJobs.value
    ensures |claims| == completed && L.Begins(lc.ops) == old(L.Begins(lc.ops)) + Positions(claims)
    ensures forall k | 0 <= k < completed :: BegunUnset(host.moves, claims[k])
    ensures forall k | 0 <= k < completed - 1 :: claims[k].execution.Continue?
    ensures completed <= Offers(poll, polls)
    ensures end.StillServing? ==>
              host.pos >= old(host.pos) + polls || (completed > 0 && claims[completed - 1].execution.Watched?)
    ensures end.ServeFailed? ==>
              || (completed > 0 && (claims[completed - 1].execution.Failure?
                   || claims[completed - 1].execution.GovernanceUnavailable?))
              || exists k | 0 <= k < polls :: poll(k).offer == ClaimFailed(end.error)
    ensures lc.activeClaimIds == []
            || (completed > 0 && claims[completed - 1].execution.Watched?
                 && WatchedAll(claims[completed - 1].wire.log, rounds))
    ensures !end.StillServing? ==> lc.activeClaimIds == []
    ensures end.Served? ==>
              ShutdownMet(host.moves, host.pos) || old(lc.draining) || maxJobs == Some(completed)
  {
    hide BegunUnset, L.Begins, WatchedAll;
    completed, claims := 0, [];
    assert L.Begins(lc.ops) == old(L.Begins(lc.ops)) + Positions(claims);
    for k := 0 to polls
      invariant L.Begins(lc.ops) == old(L.Begins(lc.ops)) + Positions(claims)
      invariant maxJobs.Some? ==> completed <= maxJobs.value
      invariant |claims| == completed <= Offers(poll, k)
      invariant forall i | 0 <= i < completed :: BegunUnset(host.moves, claims[i]) && claims[i].execution.Continue?
      invariant lc.activeClaimIds == [] && lc.draining == old(lc.draining)
      invariant host.pos >= old(host.pos) + k
    {
      OffersGrow(poll, k, polls);
      OffersGrow(poll, k + 1, polls);
      var stop := host.ShutdownFlag();
      if stop || (maxJobs.Some? && completed >= maxJobs.value) {
        Drain(lc);
        return completed, Served, claims;
      }
      ghost var before := claims;
      var ended, claimed;
      ghost var claim;
      ended, claimed, claim := OneTurn(host, lc, o, policy, outside, manifest, poll(k), rounds);
      if claimed {
        completed, claims := completed + 1, claims + [claim];
        OneMoreClaim(before, claim);
      }
      if ended.Some? {
        return completed, ended.value, claims;
      }
    }
    end := StillServing;
  }

  lemma OneMoreClaim(claims: seq<Record>, claim: Record)
    ensures Positions(claims + [claim]) == Positions(claims) + [claim.at]
  {
  }
}
