/// Exactly when a fenced call goes on to another attempt, and exactly when it
/// succeeds, in terms of what the plane and the shutdown flag do.
module FencedRetryExact {
  import opened LeaseTiming
  import opened ClaimPort
  import opened FencedRetry

  /// The heartbeat at this position is answered in its window and grants time.
  predicate HeartbeatGrants(m: Adversary, pos: nat, window: nat)
  {
    m(pos).latency <= window && m(pos).refusal.None? && m(pos).granted > 0
  }

  /// Shutdown wakes the host at this position before it has slept that long.
  predicate ShutdownWakes(m: Adversary, pos: nat, sleep: nat)
  {
    m(pos).wake.ShutdownSeen? && m(pos).latency <= sleep
  }

  function SleepAt(validUntil: nat, now: nat, o: Options): nat
  {
    FencedRetrySleep(validUntil, now, RetryInterval(o.pollInterval), o.heartbeatInterval)
  }

  /// After an attempt that failed: the flag is unset, the lease has time for a
  /// heartbeat, the heartbeat grants, and shutdown does not wake the sleep. An
  /// agent turn asks for the flag and the sleep only.
  predicate GoesOn(m: Adversary, s: Wire, o: Options, mustRenew: bool)
  {
    && !m(s.pos).stop
    && match ClaimCallWindow(s.validUntil, s.now, o.heartbeatInterval)
       case None => !mustRenew && !ShutdownWakes(m, s.pos + 1, SleepAt(s.validUntil, s.now, o))
       case Some(window) =>
         var heartbeat := m(s.pos + 1);
         var grants := HeartbeatGrants(m, s.pos + 1, window);
         var now := s.now + Min(heartbeat.latency, window);
         var validUntil := if grants then s.now + Min(heartbeat.granted, o.claimTtl) else s.validUntil;
         && (mustRenew ==> grants)
         && !ShutdownWakes(m, s.pos + 2, SleepAt(validUntil, now, o))
  }

  lemma GoesOnExactlyWhen(m: Adversary, s: Wire, o: Options, mustRenew: bool)
    ensures BetweenAttempts(m, s, o, mustRenew).1.None? <==> GoesOn(m, s, o, mustRenew)
  {
    hide FencedRetrySleep, ClaimCallWindow, RetryInterval;
  }

  /// A dispatch can be sent and is answered with yes, with another refusal, or not
  /// in time.
  predicate Accepts(m: Adversary, s: Wire, o: Options)
  {
    var window := ClaimCallWindow(s.validUntil, s.now, o.heartbeatInterval);
    window.Some? && m(s.pos).latency <= window.value && m(s.pos).refusal.None?
  }

  predicate CanRetry(m: Adversary, s: Wire, o: Options)
  {
    var window := ClaimCallWindow(s.validUntil, s.now, o.heartbeatInterval);
    && window.Some?
    && (m(s.pos).latency > window.value || (m(s.pos).refusal.Some? && !m(s.pos).refusal.value.FenceLost?))
  }

  lemma AttemptExactlyWhen(m: Adversary, s: Wire, o: Options, op: FencedOp)
    ensures var (t, error, done) := Attempt(m, s, o, op);
            (error.None? <==> Accepts(m, s, o)) && (!done <==> CanRetry(m, s, o))
  {
  }

  /// The state in which the next attempt begins.
  function NextAttempt(m: Adversary, s: Wire, o: Options, op: FencedOp, mustRenew: bool): Wire
  {
    BetweenAttempts(m, Attempt(m, s, o, op).0, o, mustRenew).0
  }

  /// After that many attempts that failed but could be retried, one is accepted.
  predicate AcceptedAtLast(m: Adversary, s: Wire, o: Options, op: FencedOp, mustRenew: bool, failed: nat)
    decreases failed
  {
    if failed == 0 then Accepts(m, s, o)
    else
      && CanRetry(m, s, o) && GoesOn(m, Attempt(m, s, o, op).0, o, mustRenew)
      && AcceptedAtLast(m, NextAttempt(m, s, o, op, mustRenew), o, op, mustRenew, failed - 1)
  }

  ghost predicate AcceptedWithin(m: Adversary, s: Wire, o: Options, op: FencedOp, mustRenew: bool, retries: nat)
  {
    exists failed: nat | failed <= retries :: AcceptedAtLast(m, s, o, op, mustRenew, failed)
  }

  /// A fenced call succeeds exactly when, within the limit, some attempts fail
  /// without losing the fence, the host may go on after each, and the next one is
  /// accepted. Plane intake may go on only after a granted renewal; an agent turn
  /// needs none.
  lemma {:induction false} SucceedsExactlyWhen(m: Adversary, s: Wire, o: Options, op: FencedOp, mustRenew: bool,
                                               attempt: nat)
    requires 1 <= attempt <= o.ackRetryLimit
    ensures Attempts(m, s, o, op, mustRenew, attempt).1.Ok?
       <==> AcceptedWithin(m, s, o, op, mustRenew, o.ackRetryLimit - attempt)
    decreases o.ackRetryLimit - attempt
  {
    hide Accepts, CanRetry, GoesOn, Attempt, BetweenAttempts, AcceptedWithin;
    AttemptExactlyWhen(m, s, o, op);
    AttemptDone(m, s, o, op);
    var s1, retries := Attempt(m, s, o, op).0, o.ackRetryLimit - attempt;
    GoesOnExactlyWhen(m, s1, o, mustRenew);
    AcceptedNowOrLater(m, s, o, op, mustRenew, retries);
    if retries > 0 {
      SucceedsExactlyWhen(m, NextAttempt(m, s, o, op, mustRenew), o, op, mustRenew, attempt + 1);
    }
  }

  lemma AcceptedNowOrLater(m: Adversary, s: Wire, o: Options, op: FencedOp, mustRenew: bool, retries: nat)
    ensures AcceptedWithin(m, s, o, op, mustRenew, retries) <==>
              || Accepts(m, s, o)
              || (retries > 0 && CanRetry(m, s, o) && GoesOn(m, Attempt(m, s, o, op).0, o, mustRenew)
                  && AcceptedWithin(m, NextAttempt(m, s, o, op, mustRenew), o, op, mustRenew, retries - 1))
  {
    hide Accepts, CanRetry, GoesOn, Attempt, NextAttempt;
    var next := NextAttempt(m, s, o, op, mustRenew);
    if Accepts(m, s, o) {
      assert AcceptedAtLast(m, s, o, op, mustRenew, 0);
    }
    if failed: nat :| failed <= retries && AcceptedAtLast(m, s, o, op, mustRenew, failed) {
      if failed > 0 {
        assert AcceptedAtLast(m, next, o, op, mustRenew, failed - 1);
      }
    }
    if retries > 0 && CanRetry(m, s, o) && GoesOn(m, Attempt(m, s, o, op).0, o, mustRenew)
       && AcceptedWithin(m, next, o, op, mustRenew, retries - 1) {
      var failed: nat :| failed <= retries - 1 && AcceptedAtLast(m, next, o, op, mustRenew, failed);
      assert AcceptedAtLast(m, s, o, op, mustRenew, failed + 1);
    }
  }

  /// An attempt is over for good when it is accepted or loses the fence.
  lemma AttemptDone(m: Adversary, s: Wire, o: Options, op: FencedOp)
    ensures var (t, error, done) := Attempt(m, s, o, op); error.None? ==> done
  {
  }

  /// The two loops differ in the renewals alone: what plane intake achieves, an
  /// agent turn achieves against the same plane.
  lemma {:induction false} TurnSucceedsWherePlaneDoes(m: Adversary, s: Wire, o: Options, op: FencedOp, attempt: nat)
    requires 1 <= attempt <= o.ackRetryLimit
    requires Attempts(m, s, o, op, true, attempt).1.Ok?
    ensures Attempts(m, s, o, op, false, attempt) == Attempts(m, s, o, op, true, attempt)
    decreases o.ackRetryLimit - attempt
  {
    hide Attempt;
    var (s1, error, done) := Attempt(m, s, o, op);
    if !done && attempt < o.ackRetryLimit {
      SameBetween(m, s1, o);
      hide BetweenAttempts;
      TurnSucceedsWherePlaneDoes(m, BetweenAttempts(m, s1, o, true).0, o, op, attempt + 1);
    }
  }

  lemma SameBetween(m: Adversary, s: Wire, o: Options)
    ensures BetweenAttempts(m, s, o, true).1.None? ==> BetweenAttempts(m, s, o, false) == BetweenAttempts(m, s, o, true)
  {
    hide RetrySleep, ClaimCallWindow, Renew;
  }
}
