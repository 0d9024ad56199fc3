/// Retrying one fenced plane call while the claim's lease is live.
///
/// A plane claim must renew its lease between two attempts; an agent turn tries
/// to, but carries on without, because an acknowledgement whose reply was lost
/// may already have ended the lease on the plane.
module FencedRetry {
  import opened Wrappers
  import opened LeaseTiming
  import opened ClaimPort

  datatype Outcome = Ok | Err(error: PlaneError)

  // ----- The specification: one attempt after the other -----

  /// Sleep, unless shutdown (or the loss of its sender) is seen first.
  function RetrySleep(m: Adversary, s: Wire, o: Options): (Wire, bool)
  {
    var sleep := FencedRetrySleep(s.validUntil, s.now, RetryInterval(o.pollInterval), o.heartbeatInterval);
    var shutdown := m(s.pos).wake.ShutdownSeen? && m(s.pos).latency <= sleep;
    var until := s.now + if shutdown then m(s.pos).latency else sleep;
    (s.(now := until, pos := s.pos + 1, log := s.log + [Slept(s.now, until, s.validUntil)]), shutdown)
  }

  /// One dispatch: the error it got, if any, and whether it settles the call.
  function Attempt(m: Adversary, s: Wire, o: Options, op: FencedOp): (Wire, Option<PlaneError>, bool)
  {
    var window := ClaimCallWindow(s.validUntil, s.now, o.heartbeatInterval);
    if window.None? then (s, Some(FenceLost(NoSafeTime)), true) else
    var (s1, answer) := Dispatch(m, s, window.value, op);
    match answer
    case Accepted => (s1, None, true)
    case Refused(error) => (s1, Some(error), error.FenceLost?)
    case NoReply => (s1, Some(Source(CallDeadline)), false)
  }

  /// From just after an attempt that got no to the next one, or the error that
  /// ends the call in between.
  function BetweenAttempts(m: Adversary, s: Wire, o: Options, mustRenew: bool): (Wire, Option<PlaneError>)
  {
    var s1 := s.(pos := s.pos + 1);
    if m(s.pos).stop then (s1, Some(Source(ShutdownRequested))) else
    var window := ClaimCallWindow(s1.validUntil, s1.now, o.heartbeatInterval);
    if window.None? && mustRenew then (s1, Some(FenceLost(NoSafeTime))) else
    var (s2, renewal) := if window.None? then (s1, RenewalNoReply) else Renew(m, s1, window.value, o.claimTtl);
    if mustRenew && !renewal.Granted? then
      (s2, Some(if renewal.RenewalRefused? then renewal.error else FenceLost(HeartbeatDeadline)))
    else
      var (s3, shutdown) := RetrySleep(m, s2, o);
      (s3, if shutdown then Some(Source(ShutdownRequested)) else None)
  }

  function Attempts(m: Adversary, s: Wire, o: Options, op: FencedOp, mustRenew: bool, attempt: nat): (Wire, Outcome)
    requires 1 <= attempt <= o.ackRetryLimit
    decreases o.ackRetryLimit - attempt
  {
    var (s1, error, done) := Attempt(m, s, o, op);
    if done || attempt == o.ackRetryLimit then
      (s1, if error.None? then Ok else Err(error.value))
    else
      var (s2, stopped) := BetweenAttempts(m, s1, o, mustRenew);
      if stopped.Some? then (s2, Err(stopped.value))
      else Attempts(m, s2, o, op, mustRenew, attempt + 1)
  }

  // ----- The loops -----

  /// Plane intake: the lease is renewed before every further attempt.
  method RetryWhileFenced(host: Host, claim: PlaneClaim, o: Options, op: FencedOp) returns (r: Outcome)
    requires o.ackRetryLimit > 0
    modifies host`now, host`pos, host`log, claim
    ensures (host.On(claim), r) == Attempts(host.moves, old(host.On(claim)), o, op, true, 1)
  {
    for attempt := 1 to o.ackRetryLimit + 1
      invariant attempt <= o.ackRetryLimit
      invariant Attempts(host.moves, host.On(claim), o, op, true, attempt)
             == Attempts(host.moves, old(host.On(claim)), o, op, true, 1)
    {
      var error, done := OneAttempt(host, claim, o, op);
      if done || attempt == o.ackRetryLimit {
        return if error.None? then Ok else Err(error.value);
      }
      var stopped := RenewAndSleep(host, claim, o);
      if stopped.Some? {
        return Err(stopped.value);
      }
    }
    assert false;
  }

  /// Agent turns: a failed renewal keeps the lease as it was and does not end the call.
  method AckWithRetry(host: Host, claim: PlaneClaim, o: Options, op: FencedOp) returns (r: Outcome)
    requires o.ackRetryLimit > 0
    modifies host`now, host`pos, host`log, claim
    ensures (host.On(claim), r) == Attempts(host.moves, old(host.On(claim)), o, op, false, 1)
  {
    for attempt := 1 to o.ackRetryLimit + 1
      invariant attempt <= o.ackRetryLimit
      invariant Attempts(host.moves, host.On(claim), o, op, false, attempt)
             == Attempts(host.moves, old(host.On(claim)), o, op, false, 1)
    {
      var error, done := OneAttempt(host, claim, o, op);
      if done || attempt == o.ackRetryLimit {
        return if error.None? then Ok else Err(error.value);
      }
      var stopped := TryRenewAndSleep(host, claim, o);
      if stopped.Some? {
        return Err(stopped.value);
      }
    }
    assert false;
  }

  /// Dispatch once inside the call window. `done` says that no retry may follow.
  method OneAttempt(host: Host, claim: PlaneClaim, o: Options, op: FencedOp)
    returns (error: Option<PlaneError>, done: bool)
    modifies host`now, host`pos, host`log
    ensures (host.On(claim), error, done) == Attempt(host.moves, old(host.On(claim)), o, op)
  {
    var window := ClaimCallWindow(claim.validUntil, host.now, o.heartbeatInterval);
    if window.None? {
      return Some(FenceLost(NoSafeTime)), true;
    }
    var answer := host.CallPlane(claim, window.value, op);
    match answer {
      case Accepted => return None, true;
      case Refused(refusal) => return Some(refusal), refusal.FenceLost?;
      case NoReply => return Some(Source(CallDeadline)), false;
    }
  }

  method RenewAndSleep(host: Host, claim: PlaneClaim, o: Options) returns (stopped: Option<PlaneError>)
    modifies host`now, host`pos, host`log, claim
    ensures (host.On(claim), stopped) == BetweenAttempts(host.moves, old(host.On(claim)), o, true)
  {
    var stop := host.ShutdownFlag();
    if stop {
      return Some(Source(ShutdownRequested));
    }
    var window := ClaimCallWindow(claim.validUntil, host.now, o.heartbeatInterval);
    if window.None? {
      return Some(FenceLost(NoSafeTime));
    }
    var renewal := host.CallHeartbeat(claim, window.value, o.claimTtl);
    match renewal {
      case RenewalNoReply => return Some(FenceLost(HeartbeatDeadline));
      case RenewalRefused(refusal) => return Some(refusal);
      case Granted(validUntil) => claim.validUntil := validUntil;
    }
    var shutdown := SleepUnlessShutdown(host, claim, o);
    stopped := if shutdown then Some(Source(ShutdownRequested)) else None;
  }

  method TryRenewAndSleep(host: Host, claim: PlaneClaim, o: Options) returns (stopped: Option<PlaneError>)
    modifies host`now, host`pos, host`log, claim
    ensures (host.On(claim), stopped) == BetweenAttempts(host.moves, old(host.On(claim)), o, false)
  {
    var stop := host.ShutdownFlag();
    if stop {
      return Some(Source(ShutdownRequested));
    }
    var window := ClaimCallWindow(claim.validUntil, host.now, o.heartbeatInterval);
    if window.Some? {
      var renewal := host.CallHeartbeat(claim, window.value, o.claimTtl);
      if renewal.Granted? {
        claim.validUntil := renewal.validUntil;
      }
    }
    var shutdown := SleepUnlessShutdown(host, claim, o);
    stopped := if shutdown then Some(Source(ShutdownRequested)) else None;
  }

  method SleepUnlessShutdown(host: Host, claim: PlaneClaim, o: Options) returns (shutdown: bool)
    modifies host`now, host`pos, host`log
    ensures (host.On(claim), shutdown) == RetrySleep(host.moves, old(host.On(claim)), o)
  {
    var sleep := FencedRetrySleep(claim.validUntil, host.now, RetryInterval(o.pollInterval), o.heartbeatInterval);
    var move := host.moves(host.pos);
    shutdown := move.wake.ShutdownSeen? && move.latency <= sleep;
    var until := host.now + if shutdown then move.latency else sleep;
    host.log := host.log + [Slept(host.now, until, claim.validUntil)];
    host.now, host.pos := until, host.pos + 1;
  }
}
