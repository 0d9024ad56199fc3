/// What every fenced call keeps, whatever the plane does.
module FencedRetryProofs {
  import opened Wrappers
  import opened LeaseTiming
  import opened ClaimPort
  import opened FencedRetry

  // ----- Lease safety of a log -----

  /// A remote call starts with more than 20 ms on its lease and ends at least
  /// 10 ms before the deadline. A sleep takes at most half of what is left. The
  /// run is polled strictly before the deadline, unless the lease was already
  /// dead when it was adopted, and then for an instant only. Only the cleanup
  /// after a lost fence may outlast the lease, and for at most five seconds.
  ghost predicate InLease(e: Event)
  {
    && e.at <= e.until
    && match e
       case Dispatched(at, until, deadline, _, _) => at + NO_SAFE_TIME < deadline && until + 10 * MS <= deadline
       case Renewed(at, until, deadline, _) => at + NO_SAFE_TIME < deadline && until + 10 * MS <= deadline
       case Slept(at, until, deadline) => 2 * (until - at) <= Remaining(deadline, at)
       case Polled(at, until, deadline, _) => until < deadline || (deadline <= at && at == until)
       case DrainedOnShutdown(at, until, deadline) => until + 10 * MS <= deadline || at == until
       case DrainedAfterFenceLoss(at, until, _) => until - at <= 5 * SEC
  }

  /// The deadline the host must work under after an event.
  function NextDeadline(e: Event): nat
  {
    if e.Renewed? && e.renewal.Granted? then e.renewal.validUntil else e.deadline
  }

  /// Every event is in its lease, begins when the one before it ended, and works
  /// under the deadline of the lease granted last.
  ghost predicate LeaseSafe(s: Wire)
  {
    && (forall i | 0 <= i < |s.log| :: InLease(s.log[i]))
    && (forall i | 0 < i < |s.log| ::
          s.log[i].at == s.log[i - 1].until && s.log[i].deadline == NextDeadline(s.log[i - 1]))
    && (s.log != [] ==>
          s.now == s.log[|s.log| - 1].until && s.validUntil == NextDeadline(s.log[|s.log| - 1]))
  }

  /// t continues s with one more event.
  ghost predicate OneMore(s: Wire, t: Wire)
  {
    && |t.log| == |s.log| + 1
    && s.log == t.log[..|s.log|]
    && var e := t.log[|s.log|];
       e.at == s.now && e.deadline == s.validUntil && t.now == e.until && t.validUntil == NextDeadline(e)
  }

  lemma OneMoreIsSafe(s: Wire, t: Wire)
    requires LeaseSafe(s) && OneMore(s, t) && InLease(t.log[|s.log|])
    ensures LeaseSafe(t)
  {
    assert forall i | 0 <= i < |s.log| :: t.log[i] == s.log[i];
  }

  function Dispatches(log: seq<Event>): nat
  {
    if log == [] then 0 else Dispatches(log[..|log| - 1]) + if log[|log| - 1].Dispatched? then 1 else 0
  }

  function Renewals(log: seq<Event>): nat
  {
    if log == [] then 0 else Renewals(log[..|log| - 1]) + if log[|log| - 1].Renewed? then 1 else 0
  }

  lemma CountOneMore(log: seq<Event>, e: Event)
    ensures Dispatches(log + [e]) == Dispatches(log) + if e.Dispatched? then 1 else 0
    ensures Renewals(log + [e]) == Renewals(log) + if e.Renewed? then 1 else 0
  {
    assert (log + [e])[..|log|] == log;
  }

  // ----- One attempt and what lies between two -----

  /// The error an answer to a dispatch stands for, if any.
  function AnswerError(answer: Answer): Option<PlaneError>
  {
    match answer
    case Accepted => None
    case Refused(error) => Some(error)
    case NoReply => Some(Source(CallDeadline))
  }

  /// The error a renewal that was not granted stands for.
  function RenewalError(renewal: Renewal): PlaneError
    requires !renewal.Granted?
  {
    if renewal.RenewalRefused? then renewal.error else FenceLost(HeartbeatDeadline)
  }

  lemma AttemptKeeps(m: Adversary, s: Wire, o: Options, op: FencedOp)
    ensures var (t, error, done) := Attempt(m, s, o, op);
            && s.pos <= t.pos
            && (LeaseSafe(s) ==> LeaseSafe(t))
            && (t == s || OneMore(s, t))
            && (t == s ==> error == Some(FenceLost(NoSafeTime)) && done)
            && (t != s ==> t.log[|s.log|].Dispatched? && t.log[|s.log|].op == op)
            && (t != s ==> error == AnswerError(t.log[|s.log|].answer))
            && (error.None? ==> t != s)
            && (done <==> error.None? || error.value.FenceLost?)
            && Dispatches(t.log) == Dispatches(s.log) + |t.log| - |s.log|
            && Renewals(t.log) == Renewals(s.log)
  {
    hide LeaseSafe, Dispatches, Renewals, Dispatch;
    var window := ClaimCallWindow(s.validUntil, s.now, o.heartbeatInterval);
    if window.Some? {
      DispatchKeeps(m, s, o, op);
    }
  }

  lemma DispatchKeeps(m: Adversary, s: Wire, o: Options, op: FencedOp)
    requires ClaimCallWindow(s.validUntil, s.now, o.heartbeatInterval).Some?
    ensures var (t, answer) := Dispatch(m, s, ClaimCallWindow(s.validUntil, s.now, o.heartbeatInterval).value, op);
            && s.pos <= t.pos
            && (LeaseSafe(s) ==> LeaseSafe(t))
            && OneMore(s, t)
            && t.log[|s.log|].Dispatched? && t.log[|s.log|].op == op && t.log[|s.log|].answer == answer
            && Dispatches(t.log) == Dispatches(s.log) + 1
            && Renewals(t.log) == Renewals(s.log)
  {
    WindowKeepsMargin(s.validUntil, s.now, o.heartbeatInterval);
    var (t, answer) := Dispatch(m, s, ClaimCallWindow(s.validUntil, s.now, o.heartbeatInterval).value, op);
    CountOneMore(s.log, t.log[|s.log|]);
    if LeaseSafe(s) { OneMoreIsSafe(s, t); }
  }

  lemma RenewKeeps(m: Adversary, s: Wire, o: Options)
    requires ClaimCallWindow(s.validUntil, s.now, o.heartbeatInterval).Some?
    ensures var (t, renewal) := Renew(m, s, ClaimCallWindow(s.validUntil, s.now, o.heartbeatInterval).value,
        o.claimTtl);
            && s.pos <= t.pos
            && (LeaseSafe(s) ==> LeaseSafe(t))
            && OneMore(s, t) && t.log[|s.log|].Renewed? && t.log[|s.log|].renewal == renewal
            && Dispatches(t.log) == Dispatches(s.log)
            && Renewals(t.log) == Renewals(s.log) + 1
  {
    WindowKeepsMargin(s.validUntil, s.now, o.heartbeatInterval);
    var (t, renewal) := Renew(m, s, ClaimCallWindow(s.validUntil, s.now, o.heartbeatInterval).value, o.claimTtl);
    CountOneMore(s.log, t.log[|s.log|]);
    if LeaseSafe(s) { OneMoreIsSafe(s, t); }
  }

  lemma RetrySleepKeeps(m: Adversary, s: Wire, o: Options)
    ensures var (t, shutdown) := RetrySleep(m, s, o);
            && s.pos <= t.pos
            && (LeaseSafe(s) ==> LeaseSafe(t))
            && OneMore(s, t) && t.log[|s.log|].Slept?
            && (shutdown ==> t.pos > 0 && m(t.pos - 1).wake.ShutdownSeen?)
            && Dispatches(t.log) == Dispatches(s.log) && Renewals(t.log) == Renewals(s.log)
  {
    RetrySleepStaysInsideLease(s.validUntil, s.now, o.pollInterval, o.heartbeatInterval);
    var (t, shutdown) := RetrySleep(m, s, o);
    CountOneMore(s.log, t.log[|s.log|]);
    if LeaseSafe(s) { OneMoreIsSafe(s, t); }
  }

  /// Between two attempts there is at most one renewal and then at most one
  /// sleep, nothing else. With `mustRenew`, going on means that the renewal was
  /// granted; without it, only shutdown ends the call here.
  lemma BetweenKeeps(m: Adversary, s: Wire, o: Options, mustRenew: bool)
    ensures var (t, stopped) := BetweenAttempts(m, s, o, mustRenew);
            && s.pos <= t.pos
            && (LeaseSafe(s) ==> LeaseSafe(t))
            && s.log <= t.log
            && |t.log| <= |s.log| + 2
            && (forall i | |s.log| <= i < |t.log| :: t.log[i].Renewed? || t.log[i].Slept?)
            && Dispatches(t.log) == Dispatches(s.log)
            && Renewals(s.log) <= Renewals(t.log) <= Renewals(s.log) + 1
            && (mustRenew && stopped.None? ==>
                  |t.log| == |s.log| + 2 && t.log[|s.log|].Renewed? && t.log[|s.log|].renewal.Granted?)
            && (mustRenew ==> forall i | |s.log| <= i < |t.log| && t.log[i].Renewed? && !t.log[i].renewal.Granted? ::
                                i == |t.log| - 1 && stopped.Some?)
            && (!mustRenew && stopped.Some? ==> stopped.value == Source(ShutdownRequested))
            && (t.log == s.log ==> m(s.pos).stop || mustRenew)
            && (m(s.pos).stop ==> stopped == Some(Source(ShutdownRequested)) && t.log == s.log)
            && (mustRenew && !m(s.pos).stop && t.log == s.log ==>
                  stopped == Some(FenceLost(NoSafeTime)) && s.validUntil <= s.now + NO_SAFE_TIME)
            && (|t.log| > |s.log| && t.log[|t.log| - 1].Slept? && stopped.Some? ==>
                  stopped.value == Source(ShutdownRequested) && t.pos > 0 && m(t.pos - 1).wake.ShutdownSeen?)
            && (|t.log| > |s.log| && t.log[|t.log| - 1].Renewed? && stopped.Some? ==>
                  !t.log[|t.log| - 1].renewal.Granted? && stopped.value == RenewalError(t.log[|t.log| - 1].renewal))
            && (stopped.None? ==> |t.log| > |s.log| && t.log[|t.log| - 1].Slept? && !m(s.pos).stop)
  {
    hide LeaseSafe, Dispatches, Renewals, ClaimCallWindow, Renew, RetrySleep;
    var s1 := s.(pos := s.pos + 1);
    LookingIsSafe(s);
    WindowKeepsMargin(s.validUntil, s.now, o.heartbeatInterval);
    var window := ClaimCallWindow(s1.validUntil, s1.now, o.heartbeatInterval);
    if m(s.pos).stop {
    } else if window.None? {
      RetrySleepKeeps(m, s1, o);
    } else {
      RenewKeeps(m, s1, o);
      var (s2, renewal) := Renew(m, s1, window.value, o.claimTtl);
      if !mustRenew || renewal.Granted? {
        RetrySleepKeeps(m, s2, o);
        var t := RetrySleep(m, s2, o).0;
        assert t.log[|s.log|] == s2.log[|s.log|];
      }
    }
  }

  lemma LookingIsSafe(s: Wire)
    ensures LeaseSafe(s) ==> LeaseSafe(s.(pos := s.pos + 1))
  {
  }

  // ----- The whole call -----

  /// What the new events of a fenced call look like: every dispatch sends `op`,
  /// and an accepted or fence-lost dispatch is the last thing that happens.
  ghost predicate CallEvents(log: seq<Event>, from: nat, op: FencedOp)
  {
    forall i | from <= i < |log| ::
      && (log[i].Dispatched? || log[i].Renewed? || log[i].Slept?)
      && (log[i].Dispatched? ==>
            && log[i].op == op
            && (log[i].answer.Accepted? || (log[i].answer.Refused? && log[i].answer.error.FenceLost?)
             ==> i == |log| - 1))
  }

  ghost predicate EndsAccepted(log: seq<Event>, from: nat)
  {
    from < |log| && log[|log| - 1].Dispatched? && log[|log| - 1].answer.Accepted?
  }

  /// For every plane and every answer: at most `ackRetryLimit` dispatches, all
  /// of the same call with the same request id; at most one renewal fewer; no
  /// dispatch after a lost fence; success exactly when a dispatch was accepted;
  /// and everything inside the lease.
  lemma {:induction false} FencedCall(m: Adversary, s: Wire, o: Options, op: FencedOp, mustRenew: bool, attempt: nat)
    requires 1 <= attempt <= o.ackRetryLimit
    ensures var (t, r) := Attempts(m, s, o, op, mustRenew, attempt);
            && s.log <= t.log
            && s.pos <= t.pos
            && (LeaseSafe(s) ==> LeaseSafe(t))
            && CallEvents(t.log, |s.log|, op)
            && (r.Ok? <==> EndsAccepted(t.log, |s.log|))
            && Dispatches(t.log) <= Dispatches(s.log) + o.ackRetryLimit + 1 - attempt
            && Renewals(t.log) <= Renewals(s.log) + o.ackRetryLimit - attempt
            && (r.Err? && t.log == s.log ==> r.error == FenceLost(NoSafeTime))
    decreases o.ackRetryLimit - attempt
  {
    hide LeaseSafe, Dispatches, Renewals, Attempt, BetweenAttempts;
    AttemptKeeps(m, s, o, op);
    var (s1, error, done) := Attempt(m, s, o, op);
    if !done && attempt < o.ackRetryLimit {
      BetweenKeeps(m, s1, o, mustRenew);
      var (s2, stopped) := BetweenAttempts(m, s1, o, mustRenew);
      if stopped.None? {
        FencedCall(m, s2, o, op, mustRenew, attempt + 1);
        var (t, r) := Attempts(m, s2, o, op, mustRenew, attempt + 1);
        assert forall i | |s.log| <= i < |s2.log| :: t.log[i] == s2.log[i];
        if r.Err? && t.log == s2.log { assert s2.log != s.log; }
      }
    }
  }

  /// The error of a call is what its last event stands for, unless shutdown was met
  /// or the host's own clock found the lease without safe time.
  ghost predicate ErrorShown(m: Adversary, t: Wire, from: nat, error: PlaneError)
  {
    || (error == Source(ShutdownRequested) && t.pos > 0
        && (m(t.pos - 1).stop || m(t.pos - 1).wake.ShutdownSeen?))
    || (error == FenceLost(NoSafeTime) && t.validUntil <= t.now + NO_SAFE_TIME)
    || (from < |t.log|
        && var last := t.log[|t.log| - 1];
           || (last.Dispatched? && AnswerError(last.answer) == Some(error))
           || (last.Renewed? && !last.renewal.Granted? && RenewalError(last.renewal) == error))
  }

  lemma {:induction false} CallErrorIsShown(m: Adversary, s: Wire, o: Options, op: FencedOp, mustRenew: bool,
                                            attempt: nat)
    requires 1 <= attempt <= o.ackRetryLimit
    ensures var (t, r) := Attempts(m, s, o, op, mustRenew, attempt);
            s.log <= t.log && (r.Err? ==> ErrorShown(m, t, |s.log|, r.error))
    decreases o.ackRetryLimit - attempt
  {
    hide LeaseSafe, Dispatches, Renewals, Attempt, BetweenAttempts;
    AttemptKeeps(m, s, o, op);
    NoAttemptWithoutTime(m, s, o, op);
    var (s1, error, done) := Attempt(m, s, o, op);
    if !done && attempt < o.ackRetryLimit {
      BetweenKeeps(m, s1, o, mustRenew);
      BetweenPositions(m, s1, o, mustRenew);
      var (s2, stopped) := BetweenAttempts(m, s1, o, mustRenew);
      if stopped.None? {
        CallErrorIsShown(m, s2, o, op, mustRenew, attempt + 1);
      }
    }
  }

  lemma NoAttemptWithoutTime(m: Adversary, s: Wire, o: Options, op: FencedOp)
    ensures Attempt(m, s, o, op).0 == s ==> s.validUntil <= s.now + NO_SAFE_TIME
  {
  }

  lemma BetweenPositions(m: Adversary, s: Wire, o: Options, mustRenew: bool)
    ensures var t := BetweenAttempts(m, s, o, mustRenew).0;
            && t.pos > s.pos
            && (t.log == s.log ==> t.pos == s.pos + 1 && t.now == s.now && t.validUntil == s.validUntil)
  {
  }

  /// Plane intake never goes on without a granted renewal: one that is refused
  /// or gets no reply is the last event, and the call fails.
  lemma {:induction false} PlaneNeverGoesOnUnrenewed(m: Adversary, s: Wire, o: Options, op: FencedOp, attempt: nat)
    requires 1 <= attempt <= o.ackRetryLimit
    ensures var (t, r) := Attempts(m, s, o, op, true, attempt);
            && s.log <= t.log
            && (forall i | |s.log| <= i < |t.log| && t.log[i].Renewed? && !t.log[i].renewal.Granted? ::
                  i == |t.log| - 1 && r.Err?)
            && (forall i | |s.log| < i < |t.log| && t.log[i].Dispatched? ::
                  i >= |s.log| + 3 && t.log[i - 1].Slept? && t.log[i - 2].Renewed? && t.log[i - 2].renewal.Granted?)
    decreases o.ackRetryLimit - attempt
  {
    hide LeaseSafe, Dispatches, Renewals, Attempt, BetweenAttempts;
    FencedCall(m, s, o, op, true, attempt);
    AttemptKeeps(m, s, o, op);
    var (s1, error, done) := Attempt(m, s, o, op);
    if !done && attempt < o.ackRetryLimit {
      BetweenKeeps(m, s1, o, true);
      var (s2, stopped) := BetweenAttempts(m, s1, o, true);
      if stopped.None? {
        PlaneNeverGoesOnUnrenewed(m, s2, o, op, attempt + 1);
        var (t, r) := Attempts(m, s2, o, op, true, attempt + 1);
        assert forall i | 0 <= i < |s2.log| :: t.log[i] == s2.log[i];
      }
    }
  }

  // ----- A lost reply to an acknowledgement that was committed -----

  /// This attempt fails but not with a lost fence, shutdown is not seen, and the
  /// lease is not renewed: the heartbeat is refused, gets no reply or is not sent.
  ghost predicate LostRound(m: Adversary, s: Wire, o: Options, op: FencedOp)
  {
    var (s1, error, done) := Attempt(m, s, o, op);
    var (s2, stopped) := BetweenAttempts(m, s1, o, false);
    && !done && stopped.None?
    && (forall i | |s1.log| <= i < |s2.log| && s2.log[i].Renewed? :: !s2.log[i].renewal.Granted?)
  }

  lemma UnrenewedKeepsDeadline(m: Adversary, s: Wire, o: Options)
    ensures var t := BetweenAttempts(m, s, o, false).0;
            (forall i | |s.log| <= i < |t.log| && t.log[i].Renewed? :: !t.log[i].renewal.Granted?)
            ==> t.validUntil == s.validUntil
  {
    var s1 := s.(pos := s.pos + 1);
    var window := ClaimCallWindow(s1.validUntil, s1.now, o.heartbeatInterval);
    if !m(s.pos).stop && window.Some? {
      var (renewed, renewal) := Renew(m, s1, window.value, o.claimTtl);
      assert BetweenAttempts(m, s, o, false).0.log[|s.log|] == renewed.log[|s.log|];
    }
  }

  function AfterRound(m: Adversary, s: Wire, o: Options, op: FencedOp): Wire
  {
    BetweenAttempts(m, Attempt(m, s, o, op).0, o, false).0
  }

  /// `lost` rounds go wrong, and then a dispatch is accepted.
  ghost predicate AcceptedAfter(m: Adversary, s: Wire, o: Options, op: FencedOp, lost: nat)
    decreases lost
  {
    if lost == 0 then Attempt(m, s, o, op).1.None?
    else LostRound(m, s, o, op) && AcceptedAfter(m, AfterRound(m, s, o, op), o, op, lost - 1)
  }

  /// An agent turn succeeds as soon as one attempt within the limit is answered,
  /// although no heartbeat is granted and the lease stays the original one.
  lemma {:induction false} LostReplyIsRetried(m: Adversary, s: Wire, o: Options, op: FencedOp, attempt: nat, lost: nat)
    requires 1 <= attempt && attempt + lost <= o.ackRetryLimit
    requires AcceptedAfter(m, s, o, op, lost)
    ensures var (t, r) := Attempts(m, s, o, op, false, attempt);
            r.Ok? && t.validUntil == s.validUntil && Dispatches(t.log) == Dispatches(s.log) + lost + 1
    decreases lost
  {
    AttemptKeeps(m, s, o, op);
    hide LeaseSafe, Dispatches, Renewals, Attempt, BetweenAttempts;
    if lost > 0 {
      BetweenKeeps(m, Attempt(m, s, o, op).0, o, false);
      UnrenewedKeepsDeadline(m, Attempt(m, s, o, op).0, o);
      LostReplyIsRetried(m, AfterRound(m, s, o, op), o, op, attempt + 1, lost - 1);
    }
  }

  /// In the same situation plane intake gives up after the first dispatch,
  /// because a renewal that is not granted ends its call.
  lemma PlaneGivesUpOnLostReply(m: Adversary, s: Wire, o: Options, op: FencedOp, lost: nat)
    requires 0 < lost < o.ackRetryLimit
    requires AcceptedAfter(m, s, o, op, lost)
    ensures var (t, r) := Attempts(m, s, o, op, true, 1);
            r.Err? && Dispatches(t.log) == Dispatches(s.log) + 1
  {
    AttemptKeeps(m, s, o, op);
    BetweenKeeps(m, Attempt(m, s, o, op).0, o, true);
    var s1 := Attempt(m, s, o, op).0;
    var s2 := BetweenAttempts(m, s1, o, false).0;
    hide LeaseSafe, Dispatches, Renewals, Attempt, RetrySleep;
    var looked := s1.(pos := s1.pos + 1);
    var window := ClaimCallWindow(looked.validUntil, looked.now, o.heartbeatInterval);
    if window.Some? {
      var (renewed, renewal) := Renew(m, looked, window.value, o.claimTtl);
      RetrySleepKeeps(m, renewed, o);
      assert s2.log[|s1.log|] == renewed.log[|s1.log|];
    }
  }

  /// A plane that loses the first reply, refuses the heartbeat after it, and
  /// answers from then on.
  function LosesFirstReply(pos: nat): Move
  {
    if pos == 0 then Move(60 * SEC, None, 0, TimerFired, false)
    else if pos == 2 then Move(0, Some(FenceLost(ExpiredGrant)), 0, TimerFired, false)
    else Move(0, None, 0, TimerFired, false)
  }

  const DefaultOptions: Options := Options(200 * MS, 60 * SEC, 20 * SEC, 5)
  const Claimed: Wire := Wire(0, 0, 60 * SEC, [])

  lemma FirstRoundIsLost(op: FencedOp)
    ensures LostRound(LosesFirstReply, Claimed, DefaultOptions, op)
    ensures var t := AfterRound(LosesFirstReply, Claimed, DefaultOptions, op);
            t.pos == 4 && t.validUntil == 60 * SEC && t.now < 21 * SEC
    ensures BetweenAttempts(LosesFirstReply, Attempt(LosesFirstReply, Claimed, DefaultOptions, op).0,
        DefaultOptions, true).1
         == Some(FenceLost(ExpiredGrant))
  {
    var (s1, error, done) := Attempt(LosesFirstReply, Claimed, DefaultOptions, op);
    assert error == Some(Source(CallDeadline)) && !done && s1.now == 20 * SEC;
    var (s2, stopped) := BetweenAttempts(LosesFirstReply, s1, DefaultOptions, false);
    assert |s2.log| == 3 && s2.log[1] == Renewed(s1.now, s1.now, 60 * SEC, RenewalRefused(FenceLost(ExpiredGrant)));
    assert s2.log[2].Slept?;
  }

  lemma AnsweredFrom(m: Adversary, s: Wire, o: Options, op: FencedOp)
    requires m(s.pos) == Move(0, None, 0, TimerFired, false) && s.now + NO_SAFE_TIME < s.validUntil
    ensures Attempt(m, s, o, op).1.None?
  {
  }

  /// With this plane and the default times an agent turn is acknowledged by its
  /// second dispatch, and plane intake fails with a lost fence.
  lemma OneLostReply(op: FencedOp)
    ensures AcceptedAfter(LosesFirstReply, Claimed, DefaultOptions, op, 1)
    ensures Attempts(LosesFirstReply, Claimed, DefaultOptions, op, false, 1).1.Ok?
    ensures Attempts(LosesFirstReply, Claimed, DefaultOptions, op, true, 1).1 == Err(FenceLost(ExpiredGrant))
  {
    FirstRoundIsLost(op);
    var t := AfterRound(LosesFirstReply, Claimed, DefaultOptions, op);
    AnsweredFrom(LosesFirstReply, t, DefaultOptions, op);
    hide Attempt, BetweenAttempts, AfterRound;
    assert AcceptedAfter(LosesFirstReply, t, DefaultOptions, op, 0);
    LostReplyIsRetried(LosesFirstReply, Claimed, DefaultOptions, op, 1, 1);
  }
}
